/** One browser tab of the leader election in apps/user-ui/lib/realtime/BroadcastLeader.ts.

    A tab's state is its fields plus the browser timers those fields drive. A timer handle is a number
    that is never reused. The 500 ms election timers are never cancelled, so only their number matters.
  */
module BroadcastLeaders {
  import opened Options

  /** Tab ids are compared with JavaScript's `>` on strings, a total order; here that of the integers. */
  type Id = int

  /** `Signal` stands for the WS_PAYLOAD and UI_SYNC messages. */
  datatype Message = Heartbeat(id: Id) | Election(id: Id) | Resign(id: Id) | Signal(payload: int)

  datatype Tab = Tab(
    id: Id,
    leader: bool,
    electing: bool,
    heartbeatInterval: Option<nat>,
    failoverTimeout: Option<nat>,
    intervals: set<nat>,   // running heartbeat intervals
    failovers: set<nat>,   // armed failover timers
    elections: nat,        // outstanding 500 ms timers
    nextHandle: nat,
    callbacks: seq<bool>,  // arguments of onLeadershipChange, oldest first
    forwarded: seq<int>)   // payloads handed to onMessage, oldest first

  /** What one handler run does: the tab's new state and the message it posts, if any. */
  datatype Effect = Effect(tab: Tab, post: Option<Message>)

  function Blank(id: Id): Tab {
    Tab(id, false, false, None, None, {}, {}, 0, 0, [], [])
  }

  function StartElection(t: Tab): Effect {
    if t.leader then Effect(t, None)
    else Effect(t.(electing := true, elections := t.elections + 1), Some(Election(t.id)))
  }

  function Without(handles: set<nat>, handle: Option<nat>): set<nat> {
    match handle
    case None => handles
    case Some(h) => handles - {h}
  }

  function ClearFailover(t: Tab): Tab {
    t.(failovers := Without(t.failovers, t.failoverTimeout))
  }

  function ResetFailover(t: Tab): Tab {
    var c := ClearFailover(t);
    c.(failoverTimeout := Some(c.nextHandle), failovers := c.failovers + {c.nextHandle}, nextHandle := c.nextHandle + 1)
  }

  function Promote(t: Tab): Tab {
    ClearFailover(t.(
      electing := false,
      leader := true,
      callbacks := t.callbacks + [true],
      heartbeatInterval := Some(t.nextHandle),
      intervals := t.intervals + {t.nextHandle},
      nextHandle := t.nextHandle + 1))
  }

  function Demote(t: Tab): Tab {
    var idle := t.(electing := false);
    ResetFailover(
      if !t.leader then idle
      else idle.(
        leader := false,
        callbacks := t.callbacks + [false],
        intervals := Without(t.intervals, t.heartbeatInterval)))
  }

  function HandleMessage(t: Tab, m: Message): Effect {
    match m
    case Signal(p) => Effect(t.(forwarded := t.forwarded + [p]), None)
    case Heartbeat(id) =>
      if !t.leader then Effect(ResetFailover(t), None)
      else Effect(if id > t.id then Demote(t) else t, None)
    case Election(id) =>
      if t.leader then Effect(t, Some(Heartbeat(t.id)))
      else if id > t.id then Effect(Demote(t), None)
      else StartElection(t)
    case Resign(_) => StartElection(t)
  }

  function ElectionTimeout(t: Tab): Tab
    requires t.elections > 0
  {
    var fired := t.(elections := t.elections - 1);
    if t.electing then Promote(fired) else fired
  }

  function FailoverTimeout(t: Tab, h: nat): Effect {
    StartElection(t.(failovers := t.failovers - {h}))
  }

  function Destroy(t: Tab): Effect {
    Effect(ClearFailover(t.(intervals := Without(t.intervals, t.heartbeatInterval))),
           if t.leader then Some(Resign(t.id)) else None)
  }

  /** Everything that can happen to a tab between construction and `destroy`. */
  datatype Input =
    | Receive(message: Message)
    | ElectionTimer
    | FailoverTimer(handle: nat)
    | HeartbeatTimer(handle: nat)

  predicate Enabled(t: Tab, i: Input) {
    match i
    case Receive(_) => true
    case ElectionTimer => t.elections > 0
    case FailoverTimer(h) => h in t.failovers
    case HeartbeatTimer(h) => h in t.intervals
  }

  function React(t: Tab, i: Input): Effect
    requires Enabled(t, i)
  {
    match i
    case Receive(m) => HandleMessage(t, m)
    case ElectionTimer => Effect(ElectionTimeout(t), None)
    case FailoverTimer(h) => FailoverTimeout(t, h)
    case HeartbeatTimer(_) => Effect(t, Some(Heartbeat(t.id)))
  }

  ghost predicate Possible(t: Tab, run: seq<Input>)
    decreases |run|
  {
    run != [] ==> Enabled(t, run[0]) && Possible(React(t, run[0]).tab, run[1..])
  }

  ghost function Life(t: Tab, run: seq<Input>): Tab
    requires Possible(t, run)
    decreases |run|
  {
    if run == [] then t else Life(React(t, run[0]).tab, run[1..])
  }

  /** `onLeadershipChange` was called with true, false, true, ... and last with the current role. */
  ghost predicate Alternates(t: Tab) {
    && (forall i :: 0 <= i < |t.callbacks| ==> (t.callbacks[i] <==> i % 2 == 0))
    && (t.leader <==> |t.callbacks| % 2 == 1)
  }

  /** The timers agree with the role: a leader beats and does nothing else; a follower may have one
      failover timer; a running election has a timer that will end it. */
  ghost predicate TimersMatchRole(t: Tab) {
    && (t.leader ==> !t.electing && t.failovers == {} && t.heartbeatInterval.Some?
                     && t.intervals == {t.heartbeatInterval.value})
    && (!t.leader ==> t.intervals == {})
    && t.failovers <= (if t.failoverTimeout.Some? then {t.failoverTimeout.value} else {})
    && (t.electing ==> t.elections > 0)
    && (forall h :: h in t.intervals + t.failovers ==> h < t.nextHandle)
  }

  ghost predicate Sound(t: Tab) {
    Alternates(t) && TimersMatchRole(t)
  }

  lemma ReactKeepsSound(t: Tab, i: Input)
    requires Sound(t) && Enabled(t, i)
    ensures Sound(React(t, i).tab)
    ensures React(t, i).post.Some? && !React(t, i).post.value.Election? ==> t.leader
  {
  }

  lemma {:induction false} LifeKeepsSound(t: Tab, run: seq<Input>)
    requires Sound(t) && Possible(t, run)
    ensures Sound(Life(t, run))
    decreases |run|
  {
    if run != [] {
      ReactKeepsSound(t, run[0]);
      LifeKeepsSound(React(t, run[0]).tab, run[1..]);
    }
  }

  /** Main result for one tab: every run from construction alternates its leadership callbacks starting
      with true, and its timers always match its role. */
  lemma EveryLifeIsSound(id: Id, run: seq<Input>)
    requires Possible(StartElection(Blank(id)).tab, run)
    ensures Sound(Life(StartElection(Blank(id)).tab, run))
  {
    LifeKeepsSound(StartElection(Blank(id)).tab, run);
  }

  /** A follower that hears a leader, or yields to a better candidate, restarts its five seconds: one failover timer is
      armed and it is a new one. A yielding leader's heartbeats stop. */
  lemma HearingRestartsFailover(t: Tab, m: Message)
    requires Sound(t)
    requires (m.Heartbeat? && (t.leader ==> m.id > t.id)) || (m.Election? && !t.leader && m.id > t.id)
    ensures var u := HandleMessage(t, m).tab;
            && u.failovers == {t.nextHandle} && u.failoverTimeout == Some(t.nextHandle)
            && t.nextHandle !in t.failovers && u.intervals == {} && !u.leader
            && (u.electing <==> t.electing && m.Heartbeat?)
  {
    assert t.nextHandle !in t.intervals + t.failovers;
  }

  /** Let `n` of the outstanding election timers fire. */
  ghost function FireElections(t: Tab, n: nat): Tab
    requires n <= t.elections
    decreases n
  {
    if n == 0 then t else FireElections(ElectionTimeout(t), n - 1)
  }

  lemma {:induction false} IdleTimersDoNothing(t: Tab, n: nat)
    requires n <= t.elections && !t.electing
    ensures FireElections(t, n) == t.(elections := t.elections - n)
    decreases n
  {
    if n > 0 {
      IdleTimersDoNothing(ElectionTimeout(t), n - 1);
    }
  }

  /** After `destroy` the channel is closed and the failover and heartbeat timers are gone, but the
      election timers still fire: the destroyed tab announces itself as leader, once, exactly when it
      was destroyed in the middle of an election. */
  lemma DestroyedTabStillPromotes(t: Tab)
    requires Sound(t)
    ensures var d := Destroy(t).tab;
            && d.failovers == {} && d.intervals == {} && d.callbacks == t.callbacks
            && FireElections(d, d.elections).callbacks == t.callbacks + (if t.electing then [true] else [])
    ensures Destroy(t).post == if t.leader then Some(Resign(t.id)) else None
  {
    var d := Destroy(t).tab;
    if t.electing {
      IdleTimersDoNothing(ElectionTimeout(d), d.elections - 1);
    } else {
      IdleTimersDoNothing(d, d.elections);
    }
  }

  /** The payloads of the external signals that arrive in the run. */
  function Payloads(run: seq<Input>): seq<int>
    decreases |run|
  {
    if run == [] then []
    else (if run[0].Receive? && run[0].message.Signal? then [run[0].message.payload] else []) + Payloads(run[1..])
  }

  /** Every external signal reaches the subscriber, in order and once, whatever the tab's role. */
  lemma {:induction false} SignalsAreForwarded(t: Tab, run: seq<Input>)
    requires Possible(t, run)
    ensures Life(t, run).forwarded == t.forwarded + Payloads(run)
    decreases |run|
  {
    if run != [] {
      SignalsAreForwarded(React(t, run[0]).tab, run[1..]);
    }
  }

  /** How many ELECTIONs the tab posts in the run, and how many of its 500 ms timers fire. */
  ghost function ElectionsPosted(t: Tab, run: seq<Input>): nat
    requires Possible(t, run)
    decreases |run|
  {
    if run == [] then 0
    else
      var e := React(t, run[0]);
      (if e.post.Some? && e.post.value.Election? then 1 else 0) + ElectionsPosted(e.tab, run[1..])
  }

  function TimersFired(run: seq<Input>): nat
    decreases |run|
  {
    if run == [] then 0 else (if run[0].ElectionTimer? then 1 else 0) + TimersFired(run[1..])
  }

  /** Each ELECTION a tab posts arms one 500 ms timer, which fires once and is never cancelled. */
  lemma {:induction false} EveryElectionHasItsTimer(t: Tab, run: seq<Input>)
    requires Possible(t, run)
    ensures Life(t, run).elections + TimersFired(run) == t.elections + ElectionsPosted(t, run)
    decreases |run|
  {
    if run != [] {
      EveryElectionHasItsTimer(React(t, run[0]).tab, run[1..]);
    }
  }

  lemma {:induction false} GoneForGood(t: Tab, run: seq<Input>, h: nat)
    requires Sound(t) && Possible(t, run) && h !in t.failovers && h < t.nextHandle
    ensures FailoverTimer(h) !in run
    decreases |run|
  {
    if run != [] {
      assert run == [run[0]] + run[1..];
      ReactKeepsSound(t, run[0]);
      GoneForGood(React(t, run[0]).tab, run[1..], h);
    }
  }

  /** A failover timer fires at most once, and a follower whose timer fires announces an election. */
  lemma FailoverFiresOnce(t: Tab, h: nat, run: seq<Input>)
    requires Sound(t) && Possible(t, [FailoverTimer(h)] + run)
    ensures FailoverTimer(h) !in run
    ensures React(t, FailoverTimer(h)).post == Some(Election(t.id))
  {
    assert ([FailoverTimer(h)] + run)[1..] == run;
    assert h in t.intervals + t.failovers;
    ReactKeepsSound(t, FailoverTimer(h));
    GoneForGood(React(t, FailoverTimer(h)).tab, run, h);
  }

  /** The class itself. The fields the browser would hold (its live timers, the posted messages and the
      calls made to the two subscribers) are fields here so that contracts can speak of them. */
  class BroadcastLeader {
    const id: Id
    var isLeader: bool
    var isElectionInProgress: bool
    var heartbeatInterval: Option<nat>
    var failoverTimeout: Option<nat>

    var intervals: set<nat>
    var failovers: set<nat>
    var elections: nat
    var nextHandle: nat
    var callbacks: seq<bool>
    var forwarded: seq<int>
    var posted: seq<Message>

    ghost function View(): Tab
      reads this
    {
      Tab(id, isLeader, isElectionInProgress, heartbeatInterval, failoverTimeout,
          intervals, failovers, elections, nextHandle, callbacks, forwarded)
    }

    ghost function Posts(e: Effect): seq<Message> {
      if e.post.Some? then [e.post.value] else []
    }

    constructor (id: Id)
      ensures this.id == id && View() == StartElection(Blank(id)).tab && posted == [Election(id)]
    {
      this.id := id;
      isLeader, isElectionInProgress := false, false;
      heartbeatInterval, failoverTimeout := None, None;
      intervals, failovers, elections, nextHandle := {}, {}, 0, 0;
      callbacks, forwarded, posted := [], [], [];
      new;
      StartElectionNow();
    }

    method StartElectionNow()
      modifies this
      ensures View() == StartElection(old(View())).tab
      ensures posted == old(posted) + Posts(StartElection(old(View())))
    {
      if isLeader { return; }
      isElectionInProgress := true;
      posted := posted + [Election(id)];
      elections := elections + 1;
    }

    method ClearFailoverNow()
      modifies this
      ensures View() == ClearFailover(old(View())) && posted == old(posted)
    {
      if failoverTimeout.Some? {
        failovers := failovers - {failoverTimeout.value};
      }
    }

    method ResetFailoverNow()
      modifies this
      ensures View() == ResetFailover(old(View())) && posted == old(posted)
    {
      ClearFailoverNow();
      failoverTimeout, failovers, nextHandle := Some(nextHandle), failovers + {nextHandle}, nextHandle + 1;
    }

    method PromoteNow()
      modifies this
      ensures View() == Promote(old(View())) && posted == old(posted)
    {
      isElectionInProgress := false;
      isLeader := true;
      callbacks := callbacks + [true];
      heartbeatInterval, intervals, nextHandle := Some(nextHandle), intervals + {nextHandle}, nextHandle + 1;
      ClearFailoverNow();
    }

    method DemoteNow()
      modifies this
      ensures View() == Demote(old(View())) && posted == old(posted)
    {
      isElectionInProgress := false;
      if isLeader {
        isLeader := false;
        callbacks := callbacks + [false];
        if heartbeatInterval.Some? {
          intervals := intervals - {heartbeatInterval.value};
        }
      }
      ResetFailoverNow();
    }

    method BroadcastHeartbeat()
      modifies this`posted
      ensures posted == old(posted) + [Heartbeat(id)]
    {
      posted := posted + [Heartbeat(id)];
    }

    method OnMessage(m: Message)
      requires Sound(View())
      modifies this
      ensures Sound(View())
      ensures View() == HandleMessage(old(View()), m).tab
      ensures posted == old(posted) + Posts(HandleMessage(old(View()), m))
    {
      ReactKeepsSound(View(), Receive(m));
      match m {
        case Signal(payload) =>
          forwarded := forwarded + [payload];
        case Heartbeat(sender) =>
          if isLeader {
            if sender > id { DemoteNow(); }
          } else {
            ResetFailoverNow();
          }
        case Election(sender) =>
          if isLeader {
            BroadcastHeartbeat();
          } else if sender > id {
            DemoteNow();
          } else {
            StartElectionNow();
          }
        case Resign(_) =>
          StartElectionNow();
      }
    }

    /** The callback of the 500 ms timer armed by `startElection`. */
    method OnElectionTimer()
      requires Sound(View()) && elections > 0
      modifies this
      ensures Sound(View())
      ensures View() == ElectionTimeout(old(View())) && posted == old(posted)
    {
      ReactKeepsSound(View(), ElectionTimer);
      elections := elections - 1;
      if isElectionInProgress {
        PromoteNow();
      }
    }

    /** The callback of the 5 s timer armed by `resetFailover`. */
    method OnFailoverTimer(h: nat)
      requires Sound(View()) && h in failovers
      modifies this
      ensures Sound(View())
      ensures View() == FailoverTimeout(old(View()), h).tab
      ensures posted == old(posted) + Posts(FailoverTimeout(old(View()), h))
    {
      ReactKeepsSound(View(), FailoverTimer(h));
      failovers := failovers - {h};
      StartElectionNow();
    }

    method Close()
      requires Sound(View())
      modifies this
      ensures View() == Destroy(old(View())).tab
      ensures posted == old(posted) + Posts(Destroy(old(View())))
    {
      if isLeader {
        posted := posted + [Resign(id)];
      }
      if heartbeatInterval.Some? {
        intervals := intervals - {heartbeatInterval.value};
      }
      ClearFailoverNow();
    }
  }
}
