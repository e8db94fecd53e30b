/** Concurrent bank debits with optimistic locking, apps/bank-service/src/services/debit.service.ts.

    A call is cut at its `await`s: reading the row, the conditional update and each publish are atomic and
    anything else may happen in between. Every database access and every publish may throw.
  */
module Debit {
  import opened Options

  /** `active` is `status === "ACTIVE"`. Amounts and balances are in paise. */
  datatype Account = Account(balance: int, active: bool, frozen: bool, version: nat)

  datatype Code =
    | AccountNotFound
    | AccountNotActive
    | AccountFrozen
    | InsufficientBalance
    | ConcurrentUpdate
    | InternalError

  datatype Result = Success | Failure(code: Code)

  /** The debit as one atomic step: what a caller wants each call to look like. */
  function Attempt(account: Option<Account>, amount: int): (Option<Account>, Result) {
    match account
    case None => (account, Failure(AccountNotFound))
    case Some(a) =>
      if !a.active then (account, Failure(AccountNotActive))
      else if a.frozen then (account, Failure(AccountFrozen))
      else if a.balance < amount then (account, Failure(InsufficientBalance))
      else (Some(a.(balance := a.balance - amount, version := a.version + 1)), Success)
  }

  /** Where a call is. `Publishing(InternalError)` is the publish in the `catch` block. */
  datatype Phase =
    | Reading
    | Updating(seen: Account)
    | Publishing(result: Result)
    | Answered(result: Result)
    | Rejected

  /** `readAt` is how many writes had been committed when the call read the row. */
  datatype Call = Call(amount: int, phase: Phase, readAt: nat)

  /** The writes to the row in commit order: debits, and other writers that also bump `version`. */
  datatype Write = Debited(call: nat, amount: int) | Overwritten(balance: nat, active: bool, frozen: bool)

  datatype Event = Event(call: nat, result: Result)

  datatype Bank = Bank(account: Option<Account>, calls: seq<Call>, writes: seq<Write>, events: seq<Event>)

  datatype Step =
    | Invoke(amount: int)
    | Read(call: nat, throws: bool)
    | Update(call: nat, throws: bool, applied: bool)   // a throwing update may or may not have been applied
    | Publish(call: nat, throws: bool, copies: nat)    // retries may emit an event more than once
    | Overwrite(balance: nat, active: bool, frozen: bool)

  predicate Enabled(b: Bank, s: Step) {
    match s
    case Invoke(_) => true
    case Read(c, _) => c < |b.calls| && b.calls[c].phase.Reading?
    case Update(c, throws, applied) => c < |b.calls| && b.calls[c].phase.Updating? && (!throws ==> applied)
    case Publish(c, throws, copies) => c < |b.calls| && b.calls[c].phase.Publishing? && (!throws ==> copies > 0)
    case Overwrite(_, _, _) => b.account.Some?
  }

  function Goto(b: Bank, c: nat, p: Phase): Bank
    requires c < |b.calls|
  {
    b.(calls := b.calls[c := b.calls[c].(phase := p)])
  }

  function ReadRow(b: Bank, c: nat): Bank
    requires c < |b.calls|
  {
    var call := b.calls[c];
    var phase := match b.account
      case None => Publishing(Failure(AccountNotFound))
      case Some(a) =>
        if !a.active then Publishing(Failure(AccountNotActive))
        else if a.frozen then Publishing(Failure(AccountFrozen))
        else if a.balance < call.amount then Publishing(Failure(InsufficientBalance))
        else Updating(a);
    b.(calls := b.calls[c := Call(call.amount, phase, |b.writes|)])
  }

  /** UPDATE ... SET balance = balance - amount, version = version + 1 WHERE id = ... AND version = seen. */
  function UpdateMany(b: Bank, c: nat, seen: Account): (r: (Bank, nat))
    requires c < |b.calls|
  {
    match b.account
    case Some(a) =>
      if a.version == seen.version then
        var amount := b.calls[c].amount;
        (b.(account := Some(a.(balance := a.balance - amount, version := a.version + 1)),
            writes := b.writes + [Debited(c, amount)]), 1)
      else (b, 0)
    case None => (b, 0)
  }

  function Repeat(e: Event, n: nat): (r: seq<Event>)
    ensures |r| == n && forall x :: x in r ==> x == e
  {
    if n == 0 then [] else Repeat(e, n - 1) + [e]
  }

  function Next(b: Bank, s: Step): Bank
    requires Enabled(b, s)
  {
    match s
    case Invoke(amount) => b.(calls := b.calls + [Call(amount, Reading, |b.writes|)])
    case Read(c, throws) =>
      if throws then Goto(b, c, Publishing(Failure(InternalError))) else ReadRow(b, c)
    case Update(c, throws, applied) =>
      var (after, count) := if applied then UpdateMany(b, c, b.calls[c].phase.seen) else (b, 0);
      Goto(after, c, Publishing(
        if throws then Failure(InternalError)
        else if count == 0 then Failure(ConcurrentUpdate)
        else Success))
    case Publish(c, throws, copies) =>
      var result := b.calls[c].phase.result;
      var sent := b.(events := b.events + Repeat(Event(c, result), copies));
      Goto(sent, c,
        if !throws then Answered(result)
        else if result == Failure(InternalError) then Rejected
        else Publishing(Failure(InternalError)))
    case Overwrite(balance, active, frozen) =>
      b.(account := Some(Account(balance, active, frozen, b.account.value.version + 1)),
         writes := b.writes + [Overwritten(balance, active, frozen)])
  }

  ghost predicate CanRun(b: Bank, run: seq<Step>)
    decreases |run|
  {
    run != [] ==> Enabled(b, run[0]) && CanRun(Next(b, run[0]), run[1..])
  }

  ghost function Run(b: Bank, run: seq<Step>): Bank
    requires CanRun(b, run)
    decreases |run|
  {
    if run == [] then b else Run(Next(b, run[0]), run[1..])
  }

  lemma {:induction false} StepsMore(b: Bank, run: seq<Step>, more: seq<Step>)
    requires CanRun(b, run) && CanRun(Run(b, run), more)
    ensures CanRun(b, run + more) && Run(b, run + more) == Run(Run(b, run), more)
    decreases |run|
  {
    if run == [] {
      assert run + more == more;
    } else {
      assert (run + more)[1..] == run[1..] + more;
      StepsMore(Next(b, run[0]), run[1..], more);
    }
  }

  lemma OneStepMore(b: Bank, run: seq<Step>, s: Step)
    requires CanRun(b, run) && Enabled(Run(b, run), s)
    ensures CanRun(b, run + [s]) && Run(b, run + [s]) == Next(Run(b, run), s)
  {
    assert [s][1..] == [];
    StepsMore(b, run, [s]);
  }

  // ---------------------------------------------------------------------------------------------
  // The reference: replaying the committed writes one after the other.
  // ---------------------------------------------------------------------------------------------

  function Replay(start: Option<Account>, writes: seq<Write>): Option<Account> {
    if writes == [] then start
    else
      var before := Replay(start, writes[..|writes| - 1]);
      match writes[|writes| - 1]
      case Debited(_, amount) => Attempt(before, amount).0
      case Overwritten(balance, active, frozen) =>
        Some(Account(balance, active, frozen, if before.Some? then before.value.version + 1 else 0))
  }

  function Decrements(writes: seq<Write>, c: nat): nat {
    if writes == [] then 0
    else
      var last := writes[|writes| - 1];
      Decrements(writes[..|writes| - 1], c) + if last.Debited? && last.call == c then 1 else 0
  }

  /** At write `k`, the sequential debit succeeds and call `c` asked for this amount. */
  ghost predicate Legal(start: Option<Account>, calls: seq<Call>, writes: seq<Write>, k: nat)
    requires k < |writes|
  {
    writes[k].Debited? ==>
      && writes[k].call < |calls| && writes[k].amount == calls[writes[k].call].amount
      && Attempt(Replay(start, writes[..k]), writes[k].amount).1 == Success
  }

  /** A call with this result has decremented the row this often. */
  predicate Accounts(r: Result, decrements: nat) {
    match r
    case Success => decrements == 1
    case Failure(InternalError) => decrements <= 1
    case Failure(_) => decrements == 0
  }

  /** The answer is the one the atomic debit gives at the moment of the read; a conflict means that another
      write was committed since. */
  ghost predicate Justified(start: Option<Account>, writes: seq<Write>, c: nat, call: Call, r: Result) {
    && Accounts(r, Decrements(writes, c))
    && (r.Failure? && r.code != InternalError && r.code != ConcurrentUpdate ==>
         call.readAt <= |writes| && Attempt(Replay(start, writes[..call.readAt]), call.amount).1 == r)
    && (r == Failure(ConcurrentUpdate) ==> call.readAt < |writes|)
  }

  ghost predicate CallInv(start: Option<Account>, b: Bank, c: nat)
    requires c < |b.calls|
  {
    var call := b.calls[c];
    match call.phase
    case Reading => Decrements(b.writes, c) == 0
    case Updating(seen) =>
      && Decrements(b.writes, c) == 0
      && call.readAt <= |b.writes| && b.account.Some? && seen.version <= b.account.value.version
      && (seen.version == b.account.value.version ==> seen == b.account.value)
      && seen.version + |b.writes| == b.account.value.version + call.readAt
      && Attempt(Some(seen), call.amount).1 == Success
    case Publishing(r) => Justified(start, b.writes, c, call, r)
    case Answered(r) => Justified(start, b.writes, c, call, r)
    case Rejected => Decrements(b.writes, c) <= 1
  }

  ghost predicate RowInv(start: Option<Account>, b: Bank) {
    && b.account == Replay(start, b.writes)
    && (b.account.Some? <==> start.Some?)
    && (b.account.Some? ==> b.account.value.balance >= 0 && b.account.value.version == start.value.version + |b.writes|)
    && (forall k :: 0 <= k < |b.writes| ==> Legal(start, b.calls, b.writes, k))
  }

  ghost predicate Inv(start: Option<Account>, b: Bank) {
    && RowInv(start, b)
    && (forall c :: 0 <= c < |b.calls| ==> CallInv(start, b, c))
    && (forall e :: e in b.events ==> EventInv(b, e))
  }

  ghost predicate EventInv(b: Bank, e: Event) {
    && e.call < |b.calls| && Accounts(e.result, Decrements(b.writes, e.call))
    && !b.calls[e.call].phase.Reading? && !b.calls[e.call].phase.Updating?
  }

  lemma AppendWrite(writes: seq<Write>, w: Write, c: nat)
    ensures (writes + [w])[..|writes|] == writes
    ensures Decrements(writes + [w], c) == Decrements(writes, c) + if w.Debited? && w.call == c then 1 else 0
    ensures forall k :: 0 <= k <= |writes| ==> (writes + [w])[..k] == writes[..k]
  {
    assert (writes + [w])[..|writes|] == writes;
  }

  lemma {:induction false} StrangersDoNotDecrement(calls: seq<Call>, writes: seq<Write>, c: nat)
    requires forall k :: 0 <= k < |writes| ==> writes[k].Debited? ==> writes[k].call < |calls|
    requires c >= |calls|
    ensures Decrements(writes, c) == 0
  {
    if writes != [] {
      StrangersDoNotDecrement(calls, writes[..|writes| - 1], c);
    }
  }

  /** Call `c` changes phase and nothing else happens to the row. */
  lemma GotoKeepsInv(start: Option<Account>, b: Bank, b': Bank, c: nat)
    requires Inv(start, b) && c < |b.calls|
    requires b' == b.(calls := b'.calls) && |b'.calls| == |b.calls| && b'.calls == b.calls[c := b'.calls[c]]
    requires b'.calls[c].amount == b.calls[c].amount && CallInv(start, b', c)
    requires b'.calls[c].phase.Updating? ==> b.calls[c].phase.Reading?
    requires !b'.calls[c].phase.Reading?
    ensures Inv(start, b')
  {
    forall k | 0 <= k < |b'.writes| ensures Legal(start, b'.calls, b'.writes, k) {
      assert Legal(start, b.calls, b.writes, k);
    }
    forall d | 0 <= d < |b'.calls| ensures CallInv(start, b', d) {
      assert CallInv(start, b, d);
    }
    forall e | e in b'.events ensures EventInv(b', e) {
      assert EventInv(b, e);
    }
  }

  // One more write `w`, conjunct by conjunct of the invariant.

  lemma LegalAfterWrite(start: Option<Account>, b: Bank, b': Bank, w: Write, k: nat)
    requires k < |b.writes| && Legal(start, b.calls, b.writes, k) && b'.writes == b.writes + [w]
    requires |b'.calls| == |b.calls| && forall c :: 0 <= c < |b.calls| ==> b'.calls[c].amount == b.calls[c].amount
    ensures Legal(start, b'.calls, b'.writes, k)
  {
    assert b'.writes[..k] == b.writes[..k];
  }

  lemma JustifiedAfterWrite(start: Option<Account>, writes: seq<Write>, w: Write, c: nat, call: Call, r: Result)
    requires Justified(start, writes, c, call, r) && !(w.Debited? && w.call == c)
    ensures Justified(start, writes + [w], c, call, r)
  {
    AppendWrite(writes, w, c);
    if call.readAt <= |writes| {
      assert (writes + [w])[..call.readAt] == writes[..call.readAt];
    }
  }

  /** Another call than the writer. */
  lemma CallAfterWrite(start: Option<Account>, b: Bank, b': Bank, w: Write, d: nat)
    requires d < |b.calls| == |b'.calls| && CallInv(start, b, d) && b'.calls[d] == b.calls[d]
    requires b'.writes == b.writes + [w] && !(w.Debited? && w.call == d)
    requires b.account.Some? && b'.account.Some? && b'.account.value.version == b.account.value.version + 1
    ensures CallInv(start, b', d)
  {
    AppendWrite(b.writes, w, d);
    match b.calls[d].phase
    case Publishing(r) => JustifiedAfterWrite(start, b.writes, w, d, b.calls[d], r);
    case Answered(r) => JustifiedAfterWrite(start, b.writes, w, d, b.calls[d], r);
    case _ =>
  }

  lemma EventAfterWrite(b: Bank, b': Bank, w: Write, e: Event)
    requires EventInv(b, e) && b'.writes == b.writes + [w] && |b'.calls| == |b.calls|
    requires !(w.Debited? && w.call == e.call) && b'.calls[e.call] == b.calls[e.call]
    ensures EventInv(b', e)
  {
    AppendWrite(b.writes, w, e.call);
  }

  /** The writer is call `c`, or somebody else if `c` is no call. */
  lemma WriteKeepsInv(start: Option<Account>, b: Bank, b': Bank, w: Write, c: nat)
    requires Inv(start, b) && RowInv(start, b')
    requires b.account.Some? && b'.account.Some? && b'.writes == b.writes + [w] && b'.events == b.events
    requires |b'.calls| == |b.calls| && forall d :: 0 <= d < |b.calls| && d != c ==> b'.calls[d] == b.calls[d]
    requires w.Debited? ==> w.call == c
    requires c < |b.calls| ==> b.calls[c].phase.Updating? && CallInv(start, b', c)
    ensures Inv(start, b')
  {
    forall d | 0 <= d < |b'.calls| ensures CallInv(start, b', d) {
      if d != c { CallAfterWrite(start, b, b', w, d); }
    }
    forall e | e in b'.events ensures EventInv(b', e) {
      EventAfterWrite(b, b', w, e);
    }
  }

  lemma RowAfterWrite(start: Option<Account>, b: Bank, b': Bank, w: Write)
    requires RowInv(start, b) && b'.writes == b.writes + [w] && b'.account == Replay(start, b'.writes)
    requires b.account.Some? && b'.account.Some? && b'.account.value.balance >= 0
    requires b'.account.value.version == b.account.value.version + 1
    requires |b'.calls| == |b.calls| && forall c :: 0 <= c < |b.calls| ==> b'.calls[c].amount == b.calls[c].amount
    requires Legal(start, b'.calls, b'.writes, |b.writes|)
    ensures RowInv(start, b')
  {
    forall k | 0 <= k < |b'.writes| ensures Legal(start, b'.calls, b'.writes, k) {
      if k < |b.writes| { LegalAfterWrite(start, b, b', w, k); }
    }
  }

  /** Call `c` in its update phase debits the row and goes on to publish `r`. */
  lemma DebitKeepsInv(start: Option<Account>, b: Bank, c: nat, r: Result)
    requires Inv(start, b) && c < |b.calls| && b.calls[c].phase.Updating?
    requires UpdateMany(b, c, b.calls[c].phase.seen).1 == 1 && Accounts(r, 1)
    ensures Inv(start, Goto(UpdateMany(b, c, b.calls[c].phase.seen).0, c, Publishing(r)))
  {
    var b' := Goto(UpdateMany(b, c, b.calls[c].phase.seen).0, c, Publishing(r));
    var w := Debited(c, b.calls[c].amount);
    assert CallInv(start, b, c);
    AppendWrite(b.writes, w, c);
    RowAfterWrite(start, b, b', w);
    WriteKeepsInv(start, b, b', w, c);
  }

  lemma OverwriteKeepsInv(start: Option<Account>, b: Bank, s: Step)
    requires Inv(start, b) && Enabled(b, s) && s.Overwrite?
    ensures Inv(start, Next(b, s))
  {
    var b' := Next(b, s);
    var w := Overwritten(s.balance, s.active, s.frozen);
    AppendWrite(b.writes, w, 0);
    RowAfterWrite(start, b, b', w);
    WriteKeepsInv(start, b, b', w, |b.calls|);
  }

  lemma InvokeKeepsInv(start: Option<Account>, b: Bank, amount: int)
    requires Inv(start, b)
    ensures Inv(start, Next(b, Invoke(amount)))
  {
    var b' := Next(b, Invoke(amount));
    forall k | 0 <= k < |b'.writes| ensures Legal(start, b'.calls, b'.writes, k) {
      assert Legal(start, b.calls, b.writes, k);
    }
    forall k | 0 <= k < |b.writes| && b.writes[k].Debited? ensures b.writes[k].call < |b.calls| {
      assert Legal(start, b.calls, b.writes, k);
    }
    StrangersDoNotDecrement(b.calls, b.writes, |b.calls|);
    forall d | 0 <= d < |b'.calls| ensures CallInv(start, b', d) {
      if d < |b.calls| { assert CallInv(start, b, d); }
    }
    forall e | e in b'.events ensures EventInv(b', e) {
      assert EventInv(b, e);
    }
  }

  lemma ReadKeepsInv(start: Option<Account>, b: Bank, c: nat, throws: bool)
    requires Inv(start, b) && Enabled(b, Read(c, throws))
    ensures Inv(start, Next(b, Read(c, throws)))
  {
    assert CallInv(start, b, c);
    assert b.writes[..|b.writes|] == b.writes;
    GotoKeepsInv(start, b, Next(b, Read(c, throws)), c);
  }

  lemma UpdateKeepsInv(start: Option<Account>, b: Bank, c: nat, throws: bool, applied: bool)
    requires Inv(start, b) && Enabled(b, Update(c, throws, applied))
    ensures Inv(start, Next(b, Update(c, throws, applied)))
  {
    assert CallInv(start, b, c);
    if applied && UpdateMany(b, c, b.calls[c].phase.seen).1 == 1 {
      DebitKeepsInv(start, b, c, if throws then Failure(InternalError) else Success);
    } else {
      GotoKeepsInv(start, b, Next(b, Update(c, throws, applied)), c);
    }
  }

  lemma PublishKeepsInv(start: Option<Account>, b: Bank, c: nat, throws: bool, copies: nat)
    requires Inv(start, b) && Enabled(b, Publish(c, throws, copies))
    ensures Inv(start, Next(b, Publish(c, throws, copies)))
  {
    var b' := Next(b, Publish(c, throws, copies));
    var sent := b.(events := b'.events);
    assert CallInv(start, b, c);
    forall d | 0 <= d < |b.calls| ensures CallInv(start, sent, d) {
      assert CallInv(start, b, d);
    }
    forall e | e in sent.events ensures EventInv(sent, e) {
      if e in b.events { assert EventInv(b, e); }
    }
    GotoKeepsInv(start, sent, b', c);
  }

  lemma NextKeepsInv(start: Option<Account>, b: Bank, s: Step)
    requires Inv(start, b) && Enabled(b, s)
    ensures Inv(start, Next(b, s))
  {
    match s
    case Invoke(amount) => InvokeKeepsInv(start, b, amount);
    case Read(c, throws) => ReadKeepsInv(start, b, c, throws);
    case Update(c, throws, applied) => UpdateKeepsInv(start, b, c, throws, applied);
    case Publish(c, throws, copies) => PublishKeepsInv(start, b, c, throws, copies);
    case Overwrite(_, _, _) => OverwriteKeepsInv(start, b, s);
  }

  lemma {:induction false} RunKeepsInv(start: Option<Account>, b: Bank, run: seq<Step>)
    requires Inv(start, b) && CanRun(b, run)
    ensures Inv(start, Run(b, run))
    decreases |run|
  {
    if run != [] {
      NextKeepsInv(start, b, run[0]);
      RunKeepsInv(start, Next(b, run[0]), run[1..]);
    }
  }

  function Opened(start: Option<Account>): Bank {
    Bank(start, [], [], [])
  }

  /** Main result: however the calls interleave, fail to read, update or publish, and whoever else writes the
      row, the row is a sequential replay of the committed writes in which every committed debit succeeds,
      the balance is never negative (for any amount), `version` counts the writes, and every answer and
      every event tells the truth about its call. */
  lemma ConcurrentDebitsAreSequential(start: Option<Account>, run: seq<Step>)
    requires start.Some? ==> start.value.balance >= 0
    requires CanRun(Opened(start), run)
    ensures var b := Run(Opened(start), run);
            && b.account == Replay(start, b.writes)
            && (forall k :: 0 <= k < |b.writes| ==> Legal(start, b.calls, b.writes, k))
            && (b.account.Some? ==>
                 b.account.value.balance >= 0 && start.Some? && b.account.value.version == start.value.version + |b.writes|)
            && (forall c :: 0 <= c < |b.calls| && b.calls[c].phase.Answered? ==>
                 Justified(start, b.writes, c, b.calls[c], b.calls[c].phase.result))
            && (forall e :: e in b.events ==>
                 e.call < |b.calls| && (e.result.Success? ==> Decrements(b.writes, e.call) == 1))
  {
    RunKeepsInv(start, Opened(start), run);
    var b := Run(Opened(start), run);
    forall c | 0 <= c < |b.calls| && b.calls[c].phase.Answered?
      ensures Justified(start, b.writes, c, b.calls[c], b.calls[c].phase.result)
    {
      assert CallInv(start, b, c);
    }
    forall e | e in b.events
      ensures e.call < |b.calls| && (e.result.Success? ==> Decrements(b.writes, e.call) == 1)
    {
      assert EventInv(b, e);
    }
  }

  // ---------------------------------------------------------------------------------------------
  // The optimistic lock, and what is announced
  // ---------------------------------------------------------------------------------------------

  /** Every committed debit follows immediately, among the writes, on what its call read. */
  ghost predicate CommitsAreFresh(b: Bank) {
    forall k :: 0 <= k < |b.writes| && b.writes[k].Debited? ==>
      b.writes[k].call < |b.calls| && b.calls[b.writes[k].call].readAt == k
      && !b.calls[b.writes[k].call].phase.Reading?
  }

  lemma ReadKeepsFresh(start: Option<Account>, b: Bank, c: nat, throws: bool)
    requires Inv(start, b) && CommitsAreFresh(b) && Enabled(b, Read(c, throws))
    ensures CommitsAreFresh(Next(b, Read(c, throws)))
  {
  }

  lemma UpdateKeepsFresh(start: Option<Account>, b: Bank, c: nat, throws: bool, applied: bool)
    requires Inv(start, b) && CommitsAreFresh(b) && Enabled(b, Update(c, throws, applied))
    ensures CommitsAreFresh(Next(b, Update(c, throws, applied)))
  {
    assert CallInv(start, b, c);
  }

  lemma NextKeepsFresh(start: Option<Account>, b: Bank, s: Step)
    requires Inv(start, b) && CommitsAreFresh(b) && Enabled(b, s)
    ensures CommitsAreFresh(Next(b, s))
  {
    match s
    case Read(c, throws) => ReadKeepsFresh(start, b, c, throws);
    case Update(c, throws, applied) => UpdateKeepsFresh(start, b, c, throws, applied);
    case _ =>
  }

  lemma {:induction false} RunKeepsFresh(start: Option<Account>, b: Bank, run: seq<Step>)
    requires Inv(start, b) && CommitsAreFresh(b) && CanRun(b, run)
    ensures CommitsAreFresh(Run(b, run))
    decreases |run|
  {
    if run != [] {
      NextKeepsInv(start, b, run[0]);
      NextKeepsFresh(start, b, run[0]);
      RunKeepsFresh(start, Next(b, run[0]), run[1..]);
    }
  }

  /** Main result: a debit is committed only if no write at all was committed since its call read the row. */
  lemma NoLostUpdate(start: Option<Account>, run: seq<Step>, k: nat)
    requires start.Some? ==> start.value.balance >= 0
    requires CanRun(Opened(start), run)
    requires var b := Run(Opened(start), run); k < |b.writes| && b.writes[k].Debited?
    ensures var b := Run(Opened(start), run); b.writes[k].call < |b.calls| && b.calls[b.writes[k].call].readAt == k
  {
    RunKeepsFresh(start, Opened(start), run);
  }

  /** Main result: an update that reaches the row debits it and succeeds exactly if no write was committed since the
      read; otherwise it leaves the row alone and answers CONCURRENT_UPDATE. If its answer is lost, it has done
      either of the two all the same. */
  lemma ConflictExactlyAfterAWrite(start: Option<Account>, run: seq<Step>, c: nat, throws: bool)
    requires start.Some? ==> start.value.balance >= 0
    requires CanRun(Opened(start), run) && Enabled(Run(Opened(start), run), Update(c, throws, true))
    ensures var b := Run(Opened(start), run);
            var b' := Next(b, Update(c, throws, true));
            var undisturbed := b.calls[c].readAt == |b.writes|;
            && b.calls[c].readAt <= |b.writes|
            && b'.writes == b.writes + (if undisturbed then [Debited(c, b.calls[c].amount)] else [])
            && (!undisturbed ==> b'.account == b.account)
            && c < |b'.calls|
            && b'.calls[c].phase == Publishing(
                 if throws then Failure(InternalError)
                 else if undisturbed then Success
                 else Failure(ConcurrentUpdate))
  {
    RunKeepsInv(start, Opened(start), run);
    assert CallInv(start, Run(Opened(start), run), c);
  }

  /** What the row was like when the call read it explains the call's answer. */
  ghost predicate Explained(row: Option<Account>, amount: int, r: Result) {
    match r
    case Failure(AccountNotFound) => row.None?
    case Failure(AccountNotActive) => row.Some? && !row.value.active
    case Failure(AccountFrozen) => row.Some? && row.value.active && row.value.frozen
    case Failure(InsufficientBalance) =>
      row.Some? && row.value.active && !row.value.frozen && row.value.balance < amount
    case Failure(ConcurrentUpdate) => row.Some? && row.value.active && !row.value.frozen && row.value.balance >= amount
    case Success => row.Some? && row.value.active && !row.value.frozen && row.value.balance >= amount
    case Failure(InternalError) => true
  }

  /** In the phases after its read a call has read the row that the writes before `readAt` had made. */
  ghost predicate ReadsExplain(start: Option<Account>, b: Bank, c: nat)
    requires c < |b.calls|
  {
    var call := b.calls[c];
    && call.readAt <= |b.writes|
    && var row := Replay(start, b.writes[..call.readAt]);
       match call.phase
       case Updating(seen) => row == Some(seen) && Explained(row, call.amount, Success)
       case Publishing(r) => Explained(row, call.amount, r)
       case Answered(r) => Explained(row, call.amount, r)
       case _ => true
  }

  lemma ReadsExplainLater(start: Option<Account>, b: Bank, b': Bank, c: nat)
    requires c < |b.calls| && c < |b'.calls| && ReadsExplain(start, b, c) && b'.calls[c] == b.calls[c]
    requires b.writes <= b'.writes
    ensures ReadsExplain(start, b', c)
  {
    assert b'.writes[..b.calls[c].readAt] == b.writes[..b.calls[c].readAt];
  }

  lemma OwnStepExplains(start: Option<Account>, b: Bank, s: Step, c: nat)
    requires RowInv(start, b) && Enabled(b, s) && c < |b.calls| && ReadsExplain(start, b, c) && !Elsewhere(s, c)
    ensures ReadsExplain(start, Next(b, s), c)
  {
    var b' := Next(b, s);
    assert b.writes[..|b.writes|] == b.writes;
    assert b.writes <= b'.writes;
    assert b'.calls[c].readAt <= |b.writes|;
    assert b'.writes[..b'.calls[c].readAt] == b.writes[..b'.calls[c].readAt];
  }

  lemma NextExplains(start: Option<Account>, b: Bank, s: Step)
    requires Inv(start, b) && Enabled(b, s) && forall c :: 0 <= c < |b.calls| ==> ReadsExplain(start, b, c)
    ensures forall c :: 0 <= c < |Next(b, s).calls| ==> ReadsExplain(start, Next(b, s), c)
  {
    var b' := Next(b, s);
    forall c | 0 <= c < |b'.calls| ensures ReadsExplain(start, b', c) {
      if c < |b.calls| {
        assert ReadsExplain(start, b, c);
        if Elsewhere(s, c) {
          assert b'.calls[c] == b.calls[c];
          ReadsExplainLater(start, b, b', c);
        } else {
          OwnStepExplains(start, b, s, c);
        }
      }
    }
  }

  lemma {:induction false} RunExplains(start: Option<Account>, b: Bank, run: seq<Step>)
    requires Inv(start, b) && CanRun(b, run) && forall c :: 0 <= c < |b.calls| ==> ReadsExplain(start, b, c)
    ensures forall c :: 0 <= c < |Run(b, run).calls| ==> ReadsExplain(start, Run(b, run), c)
    decreases |run|
  {
    if run != [] {
      NextKeepsInv(start, b, run[0]);
      NextExplains(start, b, run[0]);
      RunExplains(start, Next(b, run[0]), run[1..]);
    }
  }

  /** Every answer has been announced, and nothing but a call's answer, or the result it had before a publish threw. */
  ghost predicate Announced(b: Bank, c: nat)
    requires c < |b.calls|
  {
    match b.calls[c].phase
    case Reading => forall e :: e in b.events ==> e.call != c
    case Updating(_) => forall e :: e in b.events ==> e.call != c
    case Publishing(r) => r != Failure(InternalError) ==> forall e :: e in b.events ==> e.call != c
    case Answered(r) =>
      && Event(c, r) in b.events
      && (r != Failure(InternalError) ==> forall e :: e in b.events && e.call == c ==> e.result == r)
    case Rejected => true
  }

  lemma NextAnnounces(start: Option<Account>, b: Bank, s: Step)
    requires Inv(start, b) && Enabled(b, s) && forall c :: 0 <= c < |b.calls| ==> Announced(b, c)
    ensures forall c :: 0 <= c < |Next(b, s).calls| ==> Announced(Next(b, s), c)
  {
    var b' := Next(b, s);
    forall c | 0 <= c < |b'.calls| ensures Announced(b', c) {
      if c < |b.calls| { assert Announced(b, c); }
      if s.Publish? && s.call == c && s.copies > 0 {
        assert Repeat(Event(c, b.calls[c].phase.result), s.copies)[0] in b'.events;
      }
    }
  }

  lemma {:induction false} RunAnnounces(start: Option<Account>, b: Bank, run: seq<Step>)
    requires Inv(start, b) && CanRun(b, run) && forall c :: 0 <= c < |b.calls| ==> Announced(b, c)
    ensures forall c :: 0 <= c < |Run(b, run).calls| ==> Announced(Run(b, run), c)
    decreases |run|
  {
    if run != [] {
      NextKeepsInv(start, b, run[0]);
      NextAnnounces(start, b, run[0]);
      RunAnnounces(start, Next(b, run[0]), run[1..]);
    }
  }

  /** Main result: in every run, an answer is explained by the row as it was when the call read it, check by check in
      their order; it has been announced, and no other answer has unless it is INTERNAL_ERROR. */
  lemma AnswersAreExplained(start: Option<Account>, run: seq<Step>, c: nat)
    requires start.Some? ==> start.value.balance >= 0
    requires CanRun(Opened(start), run)
    requires var b := Run(Opened(start), run); c < |b.calls| && b.calls[c].phase.Answered?
    ensures var b := Run(Opened(start), run);
            var call, r := b.calls[c], b.calls[c].phase.result;
            && call.readAt <= |b.writes|
            && Explained(Replay(start, b.writes[..call.readAt]), call.amount, r)
            && Event(c, r) in b.events
            && (r != Failure(InternalError) ==> forall e :: e in b.events && e.call == c ==> e.result == r)
  {
    RunExplains(start, Opened(start), run);
    RunAnnounces(start, Opened(start), run);
    var b := Run(Opened(start), run);
    assert ReadsExplain(start, b, c) && Announced(b, c);
  }

  function Total(writes: seq<Write>): int {
    if writes == [] then 0
    else
      var last := writes[|writes| - 1];
      Total(writes[..|writes| - 1]) + if last.Debited? then last.amount else 0
  }

  lemma {:induction false} ReplayedBalance(start: Option<Account>, calls: seq<Call>, writes: seq<Write>)
    requires start.Some? && forall k :: 0 <= k < |writes| ==> writes[k].Debited? && Legal(start, calls, writes, k)
    ensures Replay(start, writes).Some?
    ensures Replay(start, writes).value == start.value.(
              balance := start.value.balance - Total(writes), version := start.value.version + |writes|)
  {
    if writes != [] {
      var shorter := writes[..|writes| - 1];
      forall k | 0 <= k < |shorter| ensures Legal(start, calls, shorter, k) {
        assert Legal(start, calls, writes, k);
        assert shorter[..k] == writes[..k];
      }
      ReplayedBalance(start, calls, shorter);
      assert Legal(start, calls, writes, |writes| - 1);
    }
  }

  /** When debits are the only writers, money is conserved: the balance has dropped by the committed amounts. */
  lemma DebitsConserveMoney(start: Option<Account>, run: seq<Step>)
    requires start.Some? && start.value.balance >= 0
    requires CanRun(Opened(start), run)
    requires forall s :: s in run ==> !s.Overwrite?
    ensures var b := Run(Opened(start), run);
            && b.account == Some(start.value.(
                 balance := start.value.balance - Total(b.writes), version := start.value.version + |b.writes|))
            && Total(b.writes) <= start.value.balance
  {
    ConcurrentDebitsAreSequential(start, run);
    OnlyDebits(Opened(start), run);
    var b := Run(Opened(start), run);
    ReplayedBalance(start, b.calls, b.writes);
  }

  lemma {:induction false} OnlyDebits(b: Bank, run: seq<Step>)
    requires CanRun(b, run) && (forall s :: s in run ==> !s.Overwrite?) && forall w :: w in b.writes ==> w.Debited?
    ensures forall w :: w in Run(b, run).writes ==> w.Debited?
    decreases |run|
  {
    if run != [] {
      assert run[0] in run;
      OnlyDebits(Next(b, run[0]), run[1..]);
    }
  }

  /** The row's balance after the first `n` committed writes. */
  ghost function BalanceAfter(start: Option<Account>, writes: seq<Write>, n: nat): int
    requires n <= |writes| && Replay(start, writes[..n]).Some?
  {
    Replay(start, writes[..n]).value.balance
  }

  /** No committed debit raises the balance. */
  ghost predicate NeverCredits(start: Option<Account>, writes: seq<Write>)
    requires forall n :: 0 <= n <= |writes| ==> Replay(start, writes[..n]).Some?
  {
    forall k :: 0 <= k < |writes| && writes[k].Debited? ==>
      BalanceAfter(start, writes, k + 1) <= BalanceAfter(start, writes, k)
  }

  lemma {:induction false} ReplayExists(start: Option<Account>, writes: seq<Write>)
    requires start.Some?
    ensures Replay(start, writes).Some?
  {
    if writes != [] { ReplayExists(start, writes[..|writes| - 1]); }
  }

  /** A committed debit moves the balance by its amount. */
  lemma DebitMovesBalance(start: Option<Account>, calls: seq<Call>, writes: seq<Write>, k: nat)
    requires start.Some? && k < |writes| && writes[k].Debited? && Legal(start, calls, writes, k)
    ensures Replay(start, writes[..k]).Some? && Replay(start, writes[..k + 1]).Some?
    ensures BalanceAfter(start, writes, k + 1) == BalanceAfter(start, writes, k) - writes[k].amount
  {
    ReplayExists(start, writes[..k]);
    assert writes[..k + 1][..k] == writes[..k];
  }

  /** The amount is not checked to be positive: in any run, no committed debit raises the balance exactly when none
      of them is for a negative amount. */
  lemma NegativeAmountsCredit(start: Option<Account>, run: seq<Step>)
    requires start.Some? && start.value.balance >= 0 && CanRun(Opened(start), run)
    ensures var b := Run(Opened(start), run);
            && (forall n :: 0 <= n <= |b.writes| ==> Replay(start, b.writes[..n]).Some?)
            && (NeverCredits(start, b.writes)
                <==> forall k :: 0 <= k < |b.writes| && b.writes[k].Debited? ==> b.writes[k].amount >= 0)
  {
    ConcurrentDebitsAreSequential(start, run);
    var b := Run(Opened(start), run);
    forall n | 0 <= n <= |b.writes| ensures Replay(start, b.writes[..n]).Some? {
      ReplayExists(start, b.writes[..n]);
    }
    forall k | 0 <= k < |b.writes| && b.writes[k].Debited?
      ensures BalanceAfter(start, b.writes, k + 1) <= BalanceAfter(start, b.writes, k) <==> b.writes[k].amount >= 0
    {
      assert Legal(start, b.calls, b.writes, k);
      DebitMovesBalance(start, b.calls, b.writes, k);
    }
    if NeverCredits(start, b.writes) {
      forall k | 0 <= k < |b.writes| && b.writes[k].Debited? ensures b.writes[k].amount >= 0 {
        assert BalanceAfter(start, b.writes, k + 1) <= BalanceAfter(start, b.writes, k);
      }
    }
  }

  /** One undisturbed call up to its success. */
  lemma SuccessfulDebit(a: Account, amount: int) returns (run: seq<Step>)
    requires a.active && !a.frozen && a.balance >= amount
    ensures CanRun(Opened(Some(a)), run)
    ensures Run(Opened(Some(a)), run)
         == Bank(Some(a.(balance := a.balance - amount, version := a.version + 1)),
                 [Call(amount, Publishing(Success), 0)], [Debited(0, amount)], [])
  {
    var b := Opened(Some(a));
    OneStepMore(b, [], Invoke(amount));
    run := [] + [Invoke(amount)];
    assert Run(b, run).calls == [Call(amount, Reading, 0)];
    OneStepMore(b, run, Read(0, false));
    run := run + [Read(0, false)];
    assert Run(b, run).calls == [Call(amount, Updating(a), 0)];
    OneStepMore(b, run, Update(0, false, true));
    run := run + [Update(0, false, true)];
  }

  /** It does happen: any call for a negative amount can raise the balance by it. */
  lemma NegativeDebitRaisesBalance(a: Account, amount: int) returns (run: seq<Step>)
    requires a.active && !a.frozen && a.balance >= 0 && amount < 0
    ensures CanRun(Opened(Some(a)), run) && Run(Opened(Some(a)), run).account.Some?
    ensures Run(Opened(Some(a)), run).account.value.balance == a.balance - amount > a.balance
  {
    run := SuccessfulDebit(a, amount);
  }

  /** The run has one call, answered INTERNAL_ERROR after this many decrements. */
  ghost predicate EndsInInternalError(a: Account, run: seq<Step>, decrements: nat) {
    && CanRun(Opened(Some(a)), run)
    && |Run(Opened(Some(a)), run).calls| == 1
    && Run(Opened(Some(a)), run).calls[0].phase == Answered(Failure(InternalError))
    && Decrements(Run(Opened(Some(a)), run).writes, 0) == decrements
  }

  /** After its success has been published, a call's publish throws; then it publishes its error. */
  lemma ThrowsAfterSuccess(a: Account, amount: int, b: Bank)
    requires b == Bank(Some(a), [Call(amount, Publishing(Success), 0)], [Debited(0, amount)], [])
    ensures Enabled(b, Publish(0, true, 1)) && Enabled(Next(b, Publish(0, true, 1)), Publish(0, false, 1))
    ensures var end := Next(Next(b, Publish(0, true, 1)), Publish(0, false, 1));
            && |end.calls| == 1 && end.calls[0].phase == Answered(Failure(InternalError)) && end.writes == b.writes
            && end.events == [Event(0, Success), Event(0, Failure(InternalError))]
  {
    assert Repeat(Event(0, Success), 1) == [Event(0, Success)];
    assert Repeat(Event(0, Failure(InternalError)), 1) == [Event(0, Failure(InternalError))];
  }

  /** INTERNAL_ERROR leaves it open whether the row was debited: from one start, a call can end with it
      either way, after announcing its success in one of them. */
  lemma InternalErrorLeavesItOpen(a: Account, amount: int) returns (debited: seq<Step>, untouched: seq<Step>)
    requires a.active && !a.frozen && a.balance >= amount
    ensures EndsInInternalError(a, debited, 1) && EndsInInternalError(a, untouched, 0)
    ensures Run(Opened(Some(a)), debited).events == [Event(0, Success), Event(0, Failure(InternalError))]
  {
    var b := Opened(Some(a));
    debited := SuccessfulDebit(a, amount);
    ThrowsAfterSuccess(Run(b, debited).account.value, amount, Run(b, debited));
    OneStepMore(b, debited, Publish(0, true, 1));
    debited := debited + [Publish(0, true, 1)];
    OneStepMore(b, debited, Publish(0, false, 1));
    debited := debited + [Publish(0, false, 1)];
    assert [Debited(0, amount)][..0] == [];

    OneStepMore(b, [], Invoke(amount));
    untouched := [] + [Invoke(amount)];
    OneStepMore(b, untouched, Read(0, true));
    untouched := untouched + [Read(0, true)];
    OneStepMore(b, untouched, Publish(0, false, 1));
    untouched := untouched + [Publish(0, false, 1)];
  }

  /** A step of another call than `c`, or of another writer. */
  predicate Elsewhere(s: Step, c: nat) {
    match s
    case Invoke(_) => true
    case Read(d, _) => d != c
    case Update(d, _, _) => d != c
    case Publish(d, _, _) => d != c
    case Overwrite(_, _, _) => true
  }

  /** What one call meets: which of its awaits throw, how often its events go out beyond the first time, and what
      others do before each of its steps. */
  datatype Surroundings = Surroundings(
    beforeRead: seq<Step>, readThrows: bool,
    beforeUpdate: seq<Step>, updateThrows: bool, updateApplied: bool,
    beforePublish: seq<Step>, publishThrows: bool, copies: nat,
    beforeCatchPublish: seq<Step>, catchPublishThrows: bool, catchCopies: nat)

  predicate Undisturbed(w: Surroundings) {
    && w.beforeRead == w.beforeUpdate == w.beforePublish == []
    && !w.readThrows && !w.updateThrows && !w.publishThrows && w.copies == 0
  }

  /** The row and the message broker, with the code between two `await`s as one method each. */
  class BankService {
    var account: Option<Account>
    var calls: seq<Call>
    var writes: seq<Write>
    var events: seq<Event>

    function View(): Bank
      reads this
    {
      Bank(account, calls, writes, events)
    }

    constructor (account: Option<Account>)
      ensures View() == Opened(account)
    {
      this.account := account;
      calls, writes, events := [], [], [];
    }

    /** Up to the answer of `findUnique`. */
    method FindAndCheck(c: nat, throws: bool)
      requires Enabled(View(), Read(c, throws))
      modifies this
      ensures View() == Next(old(View()), Read(c, throws))
    {
      var call := calls[c];
      var phase: Phase;
      if throws {
        calls := calls[c := call.(phase := Publishing(Failure(InternalError)))];
        return;
      } else if account.None? {
        phase := Publishing(Failure(AccountNotFound));
      } else if !account.value.active {
        phase := Publishing(Failure(AccountNotActive));
      } else if account.value.frozen {
        phase := Publishing(Failure(AccountFrozen));
      } else if account.value.balance < call.amount {
        phase := Publishing(Failure(InsufficientBalance));
      } else {
        phase := Updating(account.value);
      }
      calls := calls[c := Call(call.amount, phase, |writes|)];
    }

    method ConditionalUpdate(c: nat, seen: Account) returns (count: nat)
      requires c < |calls|
      modifies this`account, this`writes
      ensures View() == UpdateMany(old(View()), c, seen).0 && count == UpdateMany(old(View()), c, seen).1
    {
      count := 0;
      if account.Some? && account.value.version == seen.version {
        var amount := calls[c].amount;
        account := Some(account.value.(balance := account.value.balance - amount, version := account.value.version + 1));
        writes := writes + [Debited(c, amount)];
        count := 1;
      }
    }

    /** Up to the answer of `updateMany`. */
    method DebitOptimistically(c: nat, throws: bool, applied: bool)
      requires Enabled(View(), Update(c, throws, applied))
      modifies this
      ensures View() == Next(old(View()), Update(c, throws, applied))
    {
      var count := 0;
      if applied {
        count := ConditionalUpdate(c, calls[c].phase.seen);
      }
      var result := Success;
      if throws {
        result := Failure(InternalError);
      } else if count == 0 {
        result := Failure(ConcurrentUpdate);
      }
      calls := calls[c := calls[c].(phase := Publishing(result))];
    }

    /** Up to the end of `publishMessage`. */
    method PublishResult(c: nat, throws: bool, copies: nat)
      requires Enabled(View(), Publish(c, throws, copies))
      modifies this
      ensures View() == Next(old(View()), Publish(c, throws, copies))
    {
      var result := calls[c].phase.result;
      var sent := 0;
      while sent < copies
        invariant sent <= copies && account == old(account) && calls == old(calls) && writes == old(writes)
        invariant events == old(events) + Repeat(Event(c, result), sent)
      {
        events := events + [Event(c, result)];
        sent := sent + 1;
      }
      var phase :=
        if !throws then Answered(result)
        else if result == Failure(InternalError) then Rejected
        else Publishing(Failure(InternalError));
      calls := calls[c := calls[c].(phase := phase)];
    }

    method Execute(s: Step)
      requires Enabled(View(), s)
      modifies this
      ensures View() == Next(old(View()), s)
    {
      match s
      case Invoke(amount) => calls := calls + [Call(amount, Reading, |writes|)];
      case Read(d, throws) => FindAndCheck(d, throws);
      case Update(d, throws, applied) => DebitOptimistically(d, throws, applied);
      case Publish(d, throws, copies) => PublishResult(d, throws, copies);
      case Overwrite(balance, active, frozen) =>
        account := Some(Account(balance, active, frozen, account.value.version + 1));
        writes := writes + [Overwritten(balance, active, frozen)];
    }

    /** What other calls and other writers do while call `c` awaits: those of the steps that can happen. */
    method Others(steps: seq<Step>, c: nat) returns (ghost run: seq<Step>)
      requires c < |calls|
      modifies this
      ensures CanRun(old(View()), run) && View() == Run(old(View()), run)
      ensures |run| <= |steps| && c < |calls| && calls[c] == old(calls)[c]
    {
      run := [];
      for i := 0 to |steps|
        invariant CanRun(old(View()), run) && View() == Run(old(View()), run)
        invariant |run| <= i && c < |calls| && calls[c] == old(calls)[c]
      {
        var s := steps[i];
        if Enabled(View(), s) && Elsewhere(s, c) {
          OneStepMore(old(View()), run, s);
          run := run + [s];
          Execute(s);
        }
      }
    }

    /** The publish of a result, and the one in the `catch` block if that throws. */
    method Answer(c: nat, w: Surroundings) returns (answer: Option<Result>, ghost run: seq<Step>)
      requires c < |calls| && calls[c].phase.Publishing?
      modifies this
      ensures CanRun(old(View()), run) && View() == Run(old(View()), run)
      ensures c < |calls| && calls[c].amount == old(calls)[c].amount
      ensures calls[c].phase == if answer.Some? then Answered(answer.value) else Rejected
      ensures Undisturbed(w) ==>
                && answer == Some(old(calls)[c].phase.result) && account == old(account)
                && events == old(events) + [Event(c, old(calls)[c].phase.result)]
    {
      run := Others(w.beforePublish, c);
      var first := Publish(c, w.publishThrows, if w.publishThrows then w.copies else w.copies + 1);
      OneStepMore(old(View()), run, first);
      PublishResult(c, first.throws, first.copies);
      run := run + [first];
      if calls[c].phase.Publishing? {
        ghost var others := Others(w.beforeCatchPublish, c);
        StepsMore(old(View()), run, others);
        run := run + others;
        var second := Publish(c, w.catchPublishThrows, if w.catchPublishThrows then w.catchCopies else w.catchCopies + 1);
        OneStepMore(old(View()), run, second);
        PublishResult(c, second.throws, second.copies);
        run := run + [second];
      }
      answer := if calls[c].phase.Answered? then Some(calls[c].phase.result) else None;
    }

    /** The conditional update of a call whose checks have passed. */
    method TryDebit(c: nat, w: Surroundings) returns (ghost run: seq<Step>)
      requires c < |calls| && calls[c].phase.Updating?
      modifies this
      ensures CanRun(old(View()), run) && View() == Run(old(View()), run)
      ensures c < |calls| && calls[c].amount == old(calls)[c].amount && calls[c].phase.Publishing?
      ensures Undisturbed(w) ==> View() == Next(old(View()), Update(c, false, true))
    {
      run := Others(w.beforeUpdate, c);
      var update := Update(c, w.updateThrows, !w.updateThrows || w.updateApplied);
      OneStepMore(old(View()), run, update);
      DebitOptimistically(c, update.throws, update.applied);
      run := run + [update];
    }

    /** The start of a call and its read of the row. */
    method Begin(amount: int, w: Surroundings) returns (c: nat, ghost run: seq<Step>)
      modifies this
      ensures CanRun(old(View()), run) && View() == Run(old(View()), run)
      ensures c == |old(calls)| < |calls| && calls[c].amount == amount
      ensures calls[c].phase.Updating? || calls[c].phase.Publishing?
      ensures Undisturbed(w) ==> View() == Next(Next(old(View()), Invoke(amount)), Read(c, false))
    {
      c := |calls|;
      OneStepMore(View(), [], Invoke(amount));
      Execute(Invoke(amount));
      run := [] + [Invoke(amount)];
      ghost var others := Others(w.beforeRead, c);
      StepsMore(old(View()), run, others);
      run := run + others;
      OneStepMore(old(View()), run, Read(c, w.readThrows));
      FindAndCheck(c, w.readThrows);
      run := run + [Read(c, w.readThrows)];
    }

    /** One call from its start to its answer, among others: what happens to the bank is a run of the steps above,
        at the end of which this call has been answered, or was rejected. A call that nothing disturbs
        answers what the atomic debit answers. */
    method DebitAccount(amount: int, w: Surroundings) returns (answer: Option<Result>, ghost run: seq<Step>)
      modifies this
      ensures CanRun(old(View()), run) && View() == Run(old(View()), run)
      ensures var c := |old(calls)|;
              && c < |calls| && calls[c].amount == amount
              && calls[c].phase == if answer.Some? then Answered(answer.value) else Rejected
      ensures Undisturbed(w) ==>
                && answer == Some(Attempt(old(account), amount).1) && account == Attempt(old(account), amount).0
                && events == old(events) + [Event(|old(calls)|, answer.value)]
    {
      var c;
      c, run := Begin(amount, w);
      ghost var more;
      if calls[c].phase.Updating? {
        more := TryDebit(c, w);
        StepsMore(old(View()), run, more);
        run := run + more;
      }
      answer, more := Answer(c, w);
      StepsMore(old(View()), run, more);
      run := run + more;
    }
  }
}
