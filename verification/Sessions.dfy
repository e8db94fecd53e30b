/** Access and refresh tokens: apps/auth-service/src/services/token.service.ts, and the login steps of
    login.service.ts that replace a user's sessions. One call at a time; times are in seconds. Session and
    token ids are random and taken to be unique.

    The state holds maps, over which Dafny's automatic induction is of no use: it is switched off throughout.
  */
module Sessions {
  import opened Options

  type Id = string

  const REFRESH_TTL := 604800
  const BLACKLIST_TTL := 900
  const ACCESS_TTL := 900        // generateAccessToken, packages/libs/src/token.ts

  /** What `rt:<token>` holds, and when it expires. */
  datatype Refresh = Refresh(user: Id, device: Id, session: Id, expiry: int)

  /** What `rt:user:<user>` holds, and when it expires. */
  datatype SessionSet = SessionSet(members: set<Id>, expiry: int)

  /** A signed access token: valid on its own until it expires, unless its session is blacklisted. */
  datatype Access = Access(user: Id, session: Id, expiry: int)

  datatype Auth = Auth(
    refresh: map<Id, Refresh>,
    sessions: map<Id, SessionSet>,
    blacklist: map<Id, int>,
    issued: seq<Access>,      // every access token ever signed
    tokenIds: set<Id>)        // every refresh token id ever generated

  datatype Error = TokenExpired | DeviceMismatch

  datatype Call =
    | Issue(user: Id, device: Id, session: Id, tokenId: Id)
    | Rotate(incoming: Id, device: Id, session: Id, tokenId: Id)
    | RevokeSession(tokenId: Id, session: Id)
    | RevokeAll(user: Id)

  datatype Event = At(now: int, call: Call)

  function Members(a: Auth, user: Id, now: int): set<Id> {
    if user in a.sessions && now < a.sessions[user].expiry then a.sessions[user].members else {}
  }

  function IssueTokens(a: Auth, user: Id, device: Id, session: Id, tokenId: Id, now: int): Auth {
    a.(refresh := a.refresh[tokenId := Refresh(user, device, session, now + REFRESH_TTL)],
       sessions := a.sessions[user := SessionSet(Members(a, user, now) + {session}, now + REFRESH_TTL)],
       issued := a.issued + [Access(user, session, now + ACCESS_TTL)],
       tokenIds := a.tokenIds + {tokenId})
  }

  /** None if the token is rotated. */
  function RotateError(a: Auth, incoming: Id, device: Id, now: int): Option<Error> {
    if incoming !in a.refresh || now >= a.refresh[incoming].expiry then Some(TokenExpired)
    else if a.refresh[incoming].device != device then Some(DeviceMismatch)
    else None
  }

  function RotateTokens(a: Auth, incoming: Id, device: Id, session: Id, tokenId: Id, now: int): Auth {
    if RotateError(a, incoming, device, now).Some? then a
    else
      var data := a.refresh[incoming];
      IssueTokens(a.(refresh := a.refresh - {incoming}), data.user, data.device, session, tokenId, now)
  }

  function Blacklist(a: Auth, sessions: set<Id>, now: int): Auth {
    a.(blacklist := map s | s in a.blacklist.Keys + sessions ::
                      if s in sessions then now + BLACKLIST_TTL else a.blacklist[s])
  }

  function Next(a: Auth, e: Event): Auth {
    match e.call
    case Issue(user, device, session, tokenId) => IssueTokens(a, user, device, session, tokenId, e.now)
    case Rotate(incoming, device, session, tokenId) => RotateTokens(a, incoming, device, session, tokenId, e.now)
    case RevokeSession(tokenId, session) => Blacklist(a.(refresh := a.refresh - {tokenId}), {session}, e.now)
    case RevokeAll(user) =>
      var b := Blacklist(a, Members(a, user, e.now), e.now);
      b.(sessions := b.sessions - {user})
  }

  /** The generated ids have not been seen before. */
  ghost predicate FreshIds(a: Auth, c: Call) {
    c.Issue? || c.Rotate? ==>
      c.tokenId !in a.tokenIds && c.session !in a.blacklist && forall t :: t in a.issued ==> t.session != c.session
  }

  ghost predicate CanRun(a: Auth, events: seq<Event>)
    decreases |events|
  {
    events != [] ==>
      && FreshIds(a, events[0].call)
      && (|events| > 1 ==> events[0].now <= events[1].now)
      && CanRun(Next(a, events[0]), events[1..])
  }

  ghost function Run(a: Auth, events: seq<Event>): Auth
    decreases |events|
  {
    if events == [] then a else Run(Next(a, events[0]), events[1..])
  }

  const START := Auth(map[], map[], map[], [], {})

  predicate Blacklisted(a: Auth, session: Id, now: int) {
    session in a.blacklist && now < a.blacklist[session]
  }

  predicate Usable(a: Auth, t: Access, now: int) {
    now < t.expiry && !Blacklisted(a, t.session, now)
  }

  /** The session is in its user's set, or blacklisted, for as long as the token lives. */
  predicate Tracked(a: Auth, t: Access) {
    || (t.user in a.sessions && t.session in a.sessions[t.user].members && a.sessions[t.user].expiry >= t.expiry)
    || (t.session in a.blacklist && a.blacklist[t.session] >= t.expiry)
  }

  /** Every session belongs to one access token, and every member of a user's set to one of that user's. */
  ghost predicate SessionsBelong(a: Auth) {
    && (forall x, y :: x in a.issued && y in a.issued && x.session == y.session ==> x == y)
    && (forall u, s :: u in a.sessions && s in a.sessions[u].members ==>
         exists x :: x in a.issued && x.user == u && x.session == s)
  }

  ghost predicate Inv(a: Auth, now: int) {
    && SessionsBelong(a)
    && (forall t :: t in a.issued ==> t.expiry <= now + ACCESS_TTL && (now < t.expiry ==> Tracked(a, t)))
    && (forall s :: s in a.blacklist ==> a.blacklist[s] <= now + BLACKLIST_TTL)
    && a.refresh.Keys <= a.tokenIds
  }

  lemma {:induction false} IssueKeepsBelonging(a: Auth, user: Id, device: Id, session: Id, tokenId: Id, now: int)
    requires SessionsBelong(a) && forall t :: t in a.issued ==> t.session != session
    ensures SessionsBelong(IssueTokens(a, user, device, session, tokenId, now))
  {
    var b := IssueTokens(a, user, device, session, tokenId, now);
    forall u, s | u in b.sessions && s in b.sessions[u].members
      ensures exists x :: x in b.issued && x.user == u && x.session == s
    {
      if u == user && s == session {
        assert Access(user, session, now + ACCESS_TTL) in b.issued;
      } else {
        var x :| x in a.issued && x.user == u && x.session == s;
        assert x in b.issued;
      }
    }
  }

  lemma {:induction false} IssueKeepsInv(a: Auth, user: Id, device: Id, session: Id, tokenId: Id, now: int)
    requires Inv(a, now) && session !in a.blacklist && forall t :: t in a.issued ==> t.session != session
    ensures Inv(IssueTokens(a, user, device, session, tokenId, now), now)
  {
    var b := IssueTokens(a, user, device, session, tokenId, now);
    IssueKeepsBelonging(a, user, device, session, tokenId, now);
    forall t | t in b.issued && now < t.expiry ensures Tracked(b, t) {
      if t in a.issued {
        assert Tracked(a, t);
      }
    }
  }

  lemma {:induction false} BlacklistKeepsTracked(a: Auth, sessions: set<Id>, now: int, t: Access)
    requires Tracked(a, t) && t.expiry <= now + ACCESS_TTL
    requires forall s :: s in a.blacklist ==> a.blacklist[s] <= now + BLACKLIST_TTL
    ensures Tracked(Blacklist(a, sessions, now), t)
    ensures t.session in sessions ==>
              t.session in Blacklist(a, sessions, now).blacklist
              && Blacklist(a, sessions, now).blacklist[t.session] >= t.expiry
  {
  }

  lemma {:induction false} RevokeAllKeepsInv(a: Auth, user: Id, now: int)
    requires Inv(a, now)
    ensures Inv(Next(a, At(now, RevokeAll(user))), now)
  {
    var b := Next(a, At(now, RevokeAll(user)));
    forall t | t in b.issued && now < t.expiry ensures Tracked(b, t) {
      BlacklistKeepsTracked(a, Members(a, user, now), now, t);
    }
  }

  lemma {:induction false} RevokeSessionKeepsInv(a: Auth, tokenId: Id, session: Id, now: int)
    requires Inv(a, now)
    ensures Inv(Next(a, At(now, RevokeSession(tokenId, session))), now)
  {
    var b := Next(a, At(now, RevokeSession(tokenId, session)));
    forall t | t in b.issued && now < t.expiry ensures Tracked(b, t) {
      assert Tracked(a, t);
      BlacklistKeepsTracked(a.(refresh := a.refresh - {tokenId}), {session}, now, t);
    }
  }

  lemma {:induction false} NextKeepsInv(a: Auth, e: Event, last: int)
    requires Inv(a, last) && last <= e.now && FreshIds(a, e.call)
    ensures Inv(Next(a, e), e.now)
  {
    assert Inv(a, e.now);
    match e.call {
      case Issue(user, device, session, tokenId) => IssueKeepsInv(a, user, device, session, tokenId, e.now);
      case Rotate(incoming, device, session, tokenId) =>
        if RotateError(a, incoming, device, e.now).None? {
          var spent := a.(refresh := a.refresh - {incoming});
          assert forall t :: Tracked(a, t) ==> Tracked(spent, t);
          IssueKeepsInv(spent, a.refresh[incoming].user, a.refresh[incoming].device, session, tokenId, e.now);
        }
      case RevokeSession(tokenId, session) => RevokeSessionKeepsInv(a, tokenId, session, e.now);
      case RevokeAll(user) => RevokeAllKeepsInv(a, user, e.now);
    }
  }

  lemma {:induction false} RunKeepsInv(a: Auth, events: seq<Event>, last: int)
    requires Inv(a, last) && CanRun(a, events) && (events != [] ==> last <= events[0].now)
    ensures Inv(Run(a, events), if events == [] then last else events[|events| - 1].now)
    decreases |events|
  {
    if events != [] {
      NextKeepsInv(a, events[0], last);
      RunKeepsInv(Next(a, events[0]), events[1..], events[0].now);
    }
  }

  function First(events: seq<Event>): int {
    if events == [] then 0 else events[0].now
  }

  /** Main result: in every run, every unexpired access token's session is in its user's session set, or
      blacklisted until at least the token's expiry: revoking a user's sessions reaches all of them. */
  lemma {:induction false} UnexpiredTokensAreTracked(events: seq<Event>, t: Access, now: int)
    requires CanRun(START, events) && t in Run(START, events).issued
    requires events != [] ==> events[|events| - 1].now <= now
    requires now < t.expiry
    ensures var a := Run(START, events);
            t.session in Members(a, t.user, now) || (Blacklisted(a, t.session, now) && a.blacklist[t.session] >= t.expiry)
  {
    RunKeepsInv(START, events, First(events));
  }

  /** The user has a usable token of another session than this one. */
  ghost predicate SecondToken(a: Auth, user: Id, session: Id, now: int) {
    exists t :: t in a.issued && t.user == user && t.session != session && Usable(a, t, now)
  }

  /** A successful login, from a trusted device or with an OTP: all sessions revoked, then tokens issued. */
  function Login(a: Auth, user: Id, device: Id, session: Id, tokenId: Id, revokedAt: int, issuedAt: int): Auth {
    Next(Next(a, At(revokedAt, RevokeAll(user))), At(issuedAt, Issue(user, device, session, tokenId)))
  }

  /** Main result: from a login on, and until something else happens, the user's only usable access token is the new
      one, for as long as it lives, and nobody else's token has become unusable. */
  lemma {:induction false} LoginLeavesOneToken(events: seq<Event>, user: Id, device: Id, session: Id, tokenId: Id,
                                               revokedAt: int, issuedAt: int, t: Access, now: int)
    requires CanRun(START, events) && (events != [] ==> events[|events| - 1].now <= revokedAt)
    requires revokedAt <= issuedAt <= now && FreshIds(Run(START, events), Issue(user, device, session, tokenId))
    requires t in Login(Run(START, events), user, device, session, tokenId, revokedAt, issuedAt).issued
    ensures var before := Run(START, events);
            var after := Login(before, user, device, session, tokenId, revokedAt, issuedAt);
            && Access(user, session, issuedAt + 900) in after.issued
            && (now < issuedAt + 604800 ==> Members(after, user, now) == {session})
            && (t.user == user ==>
                 (Usable(after, t, now) <==> t == Access(user, session, issuedAt + 900) && now < t.expiry))
            && (t.user != user ==> (Usable(after, t, now) <==> Usable(before, t, now)))
  {
    var before := Run(START, events);
    RunKeepsInv(START, events, First(events));
    if t in before.issued && now < t.expiry {
      assert Tracked(before, t);
      if t.session in Members(before, user, revokedAt) {
        var x :| x in before.issued && x.user == user && x.session == t.session;
        assert x == t;
      }
    }
    if t !in before.issued {
      assert t == Access(user, session, issuedAt + ACCESS_TTL);
    }
  }

  /** Revoking a user's sessions, and so a login, does not touch refresh tokens: each one still rotates, or is
      refused, exactly as before. So a refresh token from before the login brings the user a second usable
      access token exactly when it is the user's own and would have rotated without the login. */
  lemma {:induction false} RefreshTokensSurviveLogin(events: seq<Event>, user: Id, device: Id, session: Id, tokenId: Id,
                                                     revokedAt: int, issuedAt: int, rotation: Event)
    requires CanRun(START, events) && (events != [] ==> events[|events| - 1].now <= revokedAt)
    requires revokedAt <= issuedAt <= rotation.now && rotation.call.Rotate? && rotation.call.incoming != tokenId
    requires FreshIds(Run(START, events), Issue(user, device, session, tokenId))
    requires FreshIds(Login(Run(START, events), user, device, session, tokenId, revokedAt, issuedAt), rotation.call)
    ensures var before := Run(START, events);
            var login := Login(before, user, device, session, tokenId, revokedAt, issuedAt);
            var error := RotateError(before, rotation.call.incoming, rotation.call.device, rotation.now);
            && RotateError(login, rotation.call.incoming, rotation.call.device, rotation.now) == error
            && (SecondToken(Next(login, rotation), user, session, rotation.now)
                <==> error.None? && before.refresh[rotation.call.incoming].user == user)
  {
    var before := Run(START, events);
    var login := Login(before, user, device, session, tokenId, revokedAt, issuedAt);
    var after := Next(login, rotation);
    forall t | t in login.issued && t.user == user && t.session != session ensures !Usable(after, t, rotation.now) {
      LoginLeavesOneToken(events, user, device, session, tokenId, revokedAt, issuedAt, t, rotation.now);
    }
    if RotateError(login, rotation.call.incoming, rotation.call.device, rotation.now).None? {
      var added := Access(login.refresh[rotation.call.incoming].user, rotation.call.session, rotation.now + ACCESS_TTL);
      assert added in after.issued;
      assert Access(user, session, issuedAt + ACCESS_TTL) in login.issued;
    }
  }

  /** It does happen: a user logs in on device "d", then on another one, and rotates the first refresh token. */
  lemma {:induction false} SecondTokenAfterLogin()
    ensures var before := Next(START, At(0, Issue("u", "d", "s1", "t1")));
            var login := Login(before, "u", "e", "s2", "t2", 1, 1);
            SecondToken(Next(login, At(2, Rotate("t1", "d", "s3", "t3"))), "u", "s2", 2)
  {
    var events := [At(0, Issue("u", "d", "s1", "t1"))];
    assert events[1..] == [];
    assert Run(START, events) == Next(START, events[0]);
    RefreshTokensSurviveLogin(events, "u", "e", "s2", "t2", 1, 1, At(2, Rotate("t1", "d", "s3", "t3")));
  }

  lemma {:induction false} SpentStaysSpent(a: Auth, events: seq<Event>, token: Id)
    requires CanRun(a, events) && token in a.tokenIds && token !in a.refresh
    ensures token !in Run(a, events).refresh
    decreases |events|
  {
    if events != [] {
      SpentStaysSpent(Next(a, events[0]), events[1..], token);
    }
  }

  /** Each refresh token rotates at most once: after it has, every later attempt is refused as expired. */
  lemma {:induction false} RotatesAtMostOnce(before: seq<Event>, first: Event, after: seq<Event>, device: Id, now: int)
    requires CanRun(START, before) && CanRun(Run(START, before), [first] + after) && first.call.Rotate?
    requires RotateError(Run(START, before), first.call.incoming, first.call.device, first.now).None?
    ensures var a := Run(Run(START, before), [first] + after);
            RotateError(a, first.call.incoming, device, now) == Some(TokenExpired)
  {
    RunKeepsInv(START, before, First(before));
    assert ([first] + after)[1..] == after;
    SpentStaysSpent(Next(Run(START, before), first), after, first.call.incoming);
  }

  // ---------------------------------------------------------------------------------------------
  // Logout
  // ---------------------------------------------------------------------------------------------

  /** The session is blacklisted for as long as any access token of it lives. */
  ghost predicate LoggedOut(a: Auth, session: Id) {
    session in a.blacklist && forall t :: t in a.issued && t.session == session ==> t.expiry <= a.blacklist[session]
  }

  lemma {:induction false} StaysLoggedOut(a: Auth, e: Event, last: int, session: Id)
    requires Inv(a, last) && last <= e.now && FreshIds(a, e.call) && LoggedOut(a, session)
    ensures LoggedOut(Next(a, e), session)
  {
  }

  lemma {:induction false} LoggedOutForGood(a: Auth, events: seq<Event>, last: int, session: Id)
    requires Inv(a, last) && CanRun(a, events) && (events != [] ==> last <= events[0].now) && LoggedOut(a, session)
    ensures LoggedOut(Run(a, events), session)
    decreases |events|
  {
    if events != [] {
      StaysLoggedOut(a, events[0], last, session);
      NextKeepsInv(a, events[0], last);
      LoggedOutForGood(Next(a, events[0]), events[1..], events[0].now, session);
    }
  }

  /** A logout blacklists the session for fifteen minutes, as long as an access token may live. */
  lemma {:induction false} LogoutBegins(a: Auth, logout: Event)
    requires Inv(a, logout.now) && logout.call.RevokeSession?
    ensures forall now :: Blacklisted(Next(a, logout), logout.call.session, now) <==> now < logout.now + 900
    ensures LoggedOut(Next(a, logout), logout.call.session) && logout.call.tokenId !in Next(a, logout).refresh
    ensures a.tokenIds <= Next(a, logout).tokenIds
  {
  }

  /** Main result: after a logout, whatever follows, no access token of the session is usable at any time, and the refresh
      token, if it was ever issued, is refused as expired. */
  lemma {:induction false} LogoutIsFinal(before: seq<Event>, logout: Event, after: seq<Event>, t: Access, from: Id, now: int)
    requires CanRun(START, before) && (before != [] ==> before[|before| - 1].now <= logout.now)
    requires CanRun(Run(START, before), [logout] + after) && logout.call.RevokeSession?
    requires t in Run(Run(START, before), [logout] + after).issued && t.session == logout.call.session
    ensures var a := Run(Run(START, before), [logout] + after);
            && !Usable(a, t, now)
            && (logout.call.tokenId in Run(START, before).tokenIds ==>
                 RotateError(a, logout.call.tokenId, from, now) == Some(TokenExpired))
  {
    var a := Run(START, before);
    RunKeepsInv(START, before, First(before));
    assert Inv(a, logout.now);
    assert ([logout] + after)[0] == logout && ([logout] + after)[1..] == after;
    LogoutBegins(a, logout);
    NextKeepsInv(a, logout, logout.now);
    assert after != [] ==> ([logout] + after)[1] == after[0];
    LoggedOutForGood(Next(a, logout), after, logout.now, logout.call.session);
    if logout.call.tokenId in a.tokenIds {
      SpentStaysSpent(Next(a, logout), after, logout.call.tokenId);
    }
  }

  /** The refresh token of a logout is spent even if no access token of its session was ever issued. */
  lemma {:induction false} LogoutSpendsToken(before: seq<Event>, logout: Event, after: seq<Event>, from: Id, now: int)
    requires CanRun(START, before) && CanRun(Run(START, before), [logout] + after) && logout.call.RevokeSession?
    requires logout.call.tokenId in Run(START, before).tokenIds
    ensures RotateError(Run(Run(START, before), [logout] + after), logout.call.tokenId, from, now) == Some(TokenExpired)
  {
    assert ([logout] + after)[1..] == after;
    SpentStaysSpent(Next(Run(START, before), logout), after, logout.call.tokenId);
  }

  // ---------------------------------------------------------------------------------------------
  // Which rotations are refused
  // ---------------------------------------------------------------------------------------------

  /** A refresh token that this device of the user may use until then. */
  predicate Stored(a: Auth, token: Id, user: Id, device: Id, until: int) {
    && token in a.refresh && a.refresh[token].user == user && a.refresh[token].device == device
    && a.refresh[token].expiry == until
  }

  /** The call neither logs the token out nor uses it from its device. */
  predicate Leaves(c: Call, token: Id, device: Id) {
    match c
    case RevokeSession(tokenId, _) => tokenId != token
    case Rotate(incoming, from, _, _) => incoming != token || from != device
    case _ => true
  }

  lemma {:induction false} StaysStored(a: Auth, events: seq<Event>, token: Id, user: Id, device: Id, until: int)
    requires CanRun(a, events) && a.refresh.Keys <= a.tokenIds && Stored(a, token, user, device, until)
    requires forall e :: e in events ==> Leaves(e.call, token, device)
    ensures Stored(Run(a, events), token, user, device, until)
    decreases |events|
  {
    if events != [] {
      assert events[0] in events;
      StaysStored(Next(a, events[0]), events[1..], token, user, device, until);
    }
  }

  /** Main result: a refresh token that was issued to a device, and has not been logged out or used by it since, is
      refused as expired from seven days after its issue on, before that as a mismatch exactly to any other
      device. */
  lemma {:induction false} RotationIsForTheDevice(before: seq<Event>, issue: Event, after: seq<Event>, from: Id, now: int)
    requires CanRun(START, before) && CanRun(Run(START, before), [issue] + after) && issue.call.Issue?
    requires forall e :: e in after ==> Leaves(e.call, issue.call.tokenId, issue.call.device)
    requires before != [] ==> before[|before| - 1].now <= issue.now
    ensures RotateError(Run(Run(START, before), [issue] + after), issue.call.tokenId, from, now)
         == if now >= issue.now + 604800 then Some(TokenExpired)
            else if from != issue.call.device then Some(DeviceMismatch)
            else None
  {
    RunKeepsInv(START, before, First(before));
    assert ([issue] + after)[1..] == after;
    var a := Next(Run(START, before), issue);
    StaysStored(a, after, issue.call.tokenId, issue.call.user, issue.call.device, issue.now + 604800);
  }

  /** A token that rotates is replaced by one for the same user and device, for another seven days, and by a usable access
      token of that user for fifteen minutes. */
  lemma {:induction false} RotationPassesOn(a: Auth, last: int, rotation: Event, user: Id, device: Id, until: int)
    requires Inv(a, last) && last <= rotation.now && rotation.call.Rotate? && FreshIds(a, rotation.call)
    requires Stored(a, rotation.call.incoming, user, device, until) && rotation.now < until
    requires rotation.call.device == device
    ensures var b := Next(a, rotation);
            var t := Access(user, rotation.call.session, rotation.now + 900);
            && Stored(b, rotation.call.tokenId, user, device, rotation.now + 604800)
            && rotation.call.incoming !in b.refresh
            && t in b.issued && Usable(b, t, rotation.now)
            && rotation.call.session in Members(b, user, rotation.now)
  {
  }

  class TokenService {
    var refresh: map<Id, Refresh>
    var sessions: map<Id, SessionSet>
    var blacklist: map<Id, int>
    var issued: seq<Access>
    var tokenIds: set<Id>

    ghost function View(): Auth
      reads this
    {
      Auth(refresh, sessions, blacklist, issued, tokenIds)
    }

    constructor ()
      ensures View() == START
    {
      refresh, sessions, blacklist, issued, tokenIds := map[], map[], map[], [], {};
    }

    method IssueTokensNow(user: Id, device: Id, session: Id, tokenId: Id, now: int) returns (token: Access)
      modifies this
      ensures View() == IssueTokens(old(View()), user, device, session, tokenId, now)
      ensures token == Access(user, session, now + ACCESS_TTL)
    {
      token := Access(user, session, now + ACCESS_TTL);
      issued := issued + [token];
      tokenIds := tokenIds + {tokenId};
      refresh := refresh[tokenId := Refresh(user, device, session, now + REFRESH_TTL)];
      var members := {};
      if user in sessions && now < sessions[user].expiry {
        members := sessions[user].members;
      }
      sessions := sessions[user := SessionSet(members + {session}, now + REFRESH_TTL)];
    }

    method RotateTokensNow(incoming: Id, device: Id, session: Id, tokenId: Id, now: int)
      returns (error: Option<Error>, token: Option<Access>)
      modifies this
      ensures View() == Next(old(View()), At(now, Rotate(incoming, device, session, tokenId)))
      ensures error == RotateError(old(View()), incoming, device, now)
      ensures token == if error.Some? then None
                       else Some(Access(old(refresh)[incoming].user, session, now + ACCESS_TTL))
    {
      token := None;
      if incoming !in refresh || now >= refresh[incoming].expiry {
        return Some(TokenExpired), None;
      }
      var data := refresh[incoming];
      if data.device != device {
        return Some(DeviceMismatch), None;
      }
      refresh := refresh - {incoming};
      var t := IssueTokensNow(data.user, data.device, session, tokenId, now);
      error, token := None, Some(t);
    }

    method RevokeSessionNow(tokenId: Id, session: Id, now: int)
      modifies this
      ensures View() == Next(old(View()), At(now, RevokeSession(tokenId, session)))
    {
      refresh := refresh - {tokenId};
      blacklist := blacklist[session := now + BLACKLIST_TTL];
    }

    /** The pipeline is filled one session at a time. */
    method RevokeAllUserSessions(user: Id, now: int)
      modifies this
      ensures View() == Next(old(View()), At(now, RevokeAll(user)))
    {
      var sessionIds := {};
      if user in sessions && now < sessions[user].expiry {
        sessionIds := sessions[user].members;
      }
      ghost var all, before := sessionIds, View();
      while sessionIds != {}
        invariant sessionIds <= all && View() == Blacklist(before, all - sessionIds, now)
        decreases sessionIds
      {
        var sessionId :| sessionId in sessionIds;
        blacklist := blacklist[sessionId := now + BLACKLIST_TTL];
        assert all - (sessionIds - {sessionId}) == (all - sessionIds) + {sessionId};
        sessionIds := sessionIds - {sessionId};
      }
      assert all - {} == all;
      sessions := sessions - {user};
    }
  }
}
