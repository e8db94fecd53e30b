/** The RabbitMQ consumer with delayed retries and a dead-letter queue, packages/rabbitmq/src/consumer.ts, and
    the loop that moves dead letters back, packages/rabbitmq/src/publisher.ts.

    One queue with one consumer; several deliveries may be in the handler at once and retry timers fire in
    any order. The process does not crash: a message waiting for its retry lives in a timer only.
  */
module Consumer {
  import opened Arithmetic
  import opened Sequences

  /** The `x-retry-count` header. */
  datatype Header = Missing | Numeric(n: int) | NotFinite

  /** `parses` is whether the content is JSON; if not, the handler is not reached. */
  datatype Message = Message(id: nat, parses: bool, retries: Header)

  function GetRetryCount(m: Message): int {
    if m.retries.Numeric? then m.retries.n else 0
  }

  datatype Alert = Alert(id: nat, retryCount: int)

  datatype Broker = Broker(
    queue: seq<Message>,      // ready for delivery, oldest first
    unacked: seq<Message>,    // delivered, in the handler
    delayed: seq<Message>,    // waiting for their retry timer
    dlq: seq<Message>,
    alerts: seq<Alert>,
    done: seq<Message>,
    handled: seq<nat>)        // the ids the handler was run for, oldest first

  datatype Step =
    | Take                            // the broker delivers the oldest message
    | Finish(i: nat, succeeds: bool)  // delivery i leaves the callback
    | Resend(i: nat)                  // retry timer i fires

  predicate Enabled(b: Broker, s: Step) {
    match s
    case Take => b.queue != []
    case Finish(i, succeeds) => i < |b.unacked| && (succeeds ==> b.unacked[i].parses)
    case Resend(i) => i < |b.delayed|
  }

  function Next(b: Broker, s: Step, maxRetries: int): Broker
    requires Enabled(b, s)
  {
    match s
    case Take => b.(queue := b.queue[1..], unacked := b.unacked + [b.queue[0]])
    case Resend(i) => b.(delayed := Drop(b.delayed, i), queue := b.queue + [b.delayed[i]])
    case Finish(i, succeeds) =>
      var m := b.unacked[i];
      var c := b.(unacked := Drop(b.unacked, i), handled := if m.parses then b.handled + [m.id] else b.handled);
      var retryCount := GetRetryCount(m);
      if succeeds then c.(done := c.done + [m])
      else if retryCount < maxRetries then c.(delayed := c.delayed + [m.(retries := Numeric(retryCount + 1))])
      else c.(dlq := c.dlq + [m.(retries := Numeric(retryCount))], alerts := c.alerts + [Alert(m.id, retryCount)])
  }

  ghost predicate CanRun(b: Broker, run: seq<Step>, maxRetries: int)
    decreases |run|
  {
    run != [] ==> Enabled(b, run[0]) && CanRun(Next(b, run[0], maxRetries), run[1..], maxRetries)
  }

  ghost function Run(b: Broker, run: seq<Step>, maxRetries: int): Broker
    requires CanRun(b, run, maxRetries)
    decreases |run|
  {
    if run == [] then b else Run(Next(b, run[0], maxRetries), run[1..], maxRetries)
  }

  function Filled(messages: seq<Message>): Broker {
    Broker(messages, [], [], [], [], [], [])
  }

  // ---------------------------------------------------------------------------------------------
  // Conservation and the number of handler runs
  // ---------------------------------------------------------------------------------------------

  /** How many messages with this id there are. */
  function Copies(ms: seq<Message>, id: nat): nat {
    if ms == [] then 0 else (if ms[0].id == id then 1 else 0) + Copies(ms[1..], id)
  }

  /** In the queue, in the handler, waiting for a retry, dead or done. */
  function AllCopies(b: Broker, id: nat): nat {
    Copies(b.queue, id) + Copies(b.unacked, id) + Copies(b.delayed, id) + Copies(b.dlq, id) + Copies(b.done, id)
  }

  lemma {:induction false} CopiesConcat(ms: seq<Message>, ns: seq<Message>, id: nat)
    ensures Copies(ms + ns, id) == Copies(ms, id) + Copies(ns, id)
  {
    if ms == [] {
      assert ms + ns == ns;
    } else {
      assert (ms + ns)[1..] == ms[1..] + ns;
      CopiesConcat(ms[1..], ns, id);
    }
  }

  lemma CopiesAdd(ms: seq<Message>, m: Message, id: nat)
    ensures Copies(ms + [m], id) == Copies(ms, id) + if m.id == id then 1 else 0
  {
    CopiesConcat(ms, [m], id);
  }

  lemma CopiesDrop(ms: seq<Message>, i: nat, id: nat)
    requires i < |ms|
    ensures Copies(ms, id) == Copies(Drop(ms, i), id) + if ms[i].id == id then 1 else 0
  {
    assert ms == (ms[..i] + [ms[i]]) + ms[i + 1..];
    CopiesConcat(ms[..i] + [ms[i]], ms[i + 1..], id);
    CopiesAdd(ms[..i], ms[i], id);
    CopiesConcat(ms[..i], ms[i + 1..], id);
  }

  lemma {:induction false} CopiesMember(ms: seq<Message>, m: Message)
    requires m in ms
    ensures Copies(ms, m.id) >= 1
  {
    if ms[0] != m { CopiesMember(ms[1..], m); }
  }

  lemma StepConserves(b: Broker, s: Step, maxRetries: int, id: nat)
    requires Enabled(b, s)
    ensures AllCopies(Next(b, s, maxRetries), id) == AllCopies(b, id)
  {
    match s
    case Take =>
      CopiesAdd(b.unacked, b.queue[0], id);
    case Resend(i) =>
      CopiesDrop(b.delayed, i, id);
      CopiesAdd(b.queue, b.delayed[i], id);
    case Finish(i, succeeds) =>
      var m := b.unacked[i];
      CopiesDrop(b.unacked, i, id);
      if succeeds {
        CopiesAdd(b.done, m, id);
      } else if GetRetryCount(m) < maxRetries {
        CopiesAdd(b.delayed, m.(retries := Numeric(GetRetryCount(m) + 1)), id);
      } else {
        CopiesAdd(b.dlq, m.(retries := Numeric(GetRetryCount(m))), id);
      }
  }

  /** How often the handler was run for this id. */
  function Runs(handled: seq<nat>, id: nat): nat {
    if handled == [] then 0
    else Runs(handled[..|handled| - 1], id) + if handled[|handled| - 1] == id then 1 else 0
  }

  /** The last retry count a message that started with `first` reaches. */
  function LastCount(first: int, maxRetries: int): int {
    if first < maxRetries then maxRetries else first
  }

  /** A message still on its way has been handled once per retry so far. */
  ghost predicate OnItsWay(m: Message, first: map<nat, int>, handled: seq<nat>, maxRetries: int) {
    && m.id in first
    && first[m.id] <= GetRetryCount(m) <= LastCount(first[m.id], maxRetries)
    && Runs(handled, m.id) == if m.parses then GetRetryCount(m) - first[m.id] else 0
  }

  /** A dead letter has been handled for the last time and says how often it was retried. */
  ghost predicate Dead(m: Message, first: map<nat, int>, handled: seq<nat>, maxRetries: int) {
    && m.id in first && m.retries == Numeric(LastCount(first[m.id], maxRetries))
    && Runs(handled, m.id) == if m.parses then LastCount(first[m.id], maxRetries) - first[m.id] + 1 else 0
  }

  ghost predicate Completed(m: Message, first: map<nat, int>, handled: seq<nat>, maxRetries: int) {
    && m.id in first && m.parses
    && 1 <= Runs(handled, m.id) == GetRetryCount(m) - first[m.id] + 1 <= LastCount(first[m.id], maxRetries) - first[m.id] + 1
  }

  ghost predicate Inv(b: Broker, first: map<nat, int>, maxRetries: int) {
    && (forall id: nat :: AllCopies(b, id) <= 1)
    && (forall m :: m in b.queue || m in b.unacked || m in b.delayed ==> OnItsWay(m, first, b.handled, maxRetries))
    && (forall m :: m in b.dlq ==> Dead(m, first, b.handled, maxRetries))
    && (forall m :: m in b.done ==> Completed(m, first, b.handled, maxRetries))
    && |b.alerts| == |b.dlq|
    && (forall k :: 0 <= k < |b.dlq| ==> b.alerts[k] == Alert(b.dlq[k].id, GetRetryCount(b.dlq[k])))
  }

  /** While delivery `i` is in the handler, no other copy of it exists. */
  lemma NoOtherCopy(b: Broker, i: nat, m: Message)
    requires i < |b.unacked| && forall id: nat :: AllCopies(b, id) <= 1
    requires m in b.queue || m in Drop(b.unacked, i) || m in b.delayed || m in b.dlq || m in b.done
    ensures m.id != b.unacked[i].id
  {
    CopiesDrop(b.unacked, i, m.id);
    assert AllCopies(b, m.id) <= 1;
    if m in b.queue { CopiesMember(b.queue, m); }
    if m in Drop(b.unacked, i) { CopiesMember(Drop(b.unacked, i), m); }
    if m in b.delayed { CopiesMember(b.delayed, m); }
    if m in b.dlq { CopiesMember(b.dlq, m); }
    if m in b.done { CopiesMember(b.done, m); }
  }

  /** Leaving the handler counts one run for this message, if it was parsed, and none for any other. */
  lemma FinishedRuns(b: Broker, i: nat, succeeds: bool, maxRetries: int)
    requires Enabled(b, Finish(i, succeeds)) && forall id: nat :: AllCopies(b, id) <= 1
    ensures var handled := Next(b, Finish(i, succeeds), maxRetries).handled;
            && Runs(handled, b.unacked[i].id) == Runs(b.handled, b.unacked[i].id) + (if b.unacked[i].parses then 1 else 0)
            && forall n :: n in b.queue || n in Drop(b.unacked, i) || n in b.delayed || n in b.dlq || n in b.done ==>
                 Runs(handled, n.id) == Runs(b.handled, n.id)
  {
    var m := b.unacked[i];
    assert (b.handled + [m.id])[..|b.handled|] == b.handled;
    forall n | n in b.queue || n in Drop(b.unacked, i) || n in b.delayed || n in b.dlq || n in b.done
      ensures n.id != m.id
    {
      NoOtherCopy(b, i, n);
    }
  }

  /** Another message on its way is not concerned. */
  lemma FinishSparesOthers(b: Broker, i: nat, succeeds: bool, first: map<nat, int>, maxRetries: int, m: Message)
    requires Inv(b, first, maxRetries) && Enabled(b, Finish(i, succeeds))
    requires m in b.queue || m in Drop(b.unacked, i) || m in b.delayed
    ensures OnItsWay(m, first, Next(b, Finish(i, succeeds), maxRetries).handled, maxRetries)
  {
    DropKeeps(b.unacked, i);
    FinishedRuns(b, i, succeeds, maxRetries);
    assert OnItsWay(m, first, b.handled, maxRetries);
  }

  /** A failed delivery with retries left is on its way again. */
  lemma RetryIsOnItsWay(b: Broker, i: nat, first: map<nat, int>, maxRetries: int)
    requires Inv(b, first, maxRetries) && Enabled(b, Finish(i, false)) && GetRetryCount(b.unacked[i]) < maxRetries
    ensures var m := b.unacked[i];
            OnItsWay(m.(retries := Numeric(GetRetryCount(m) + 1)), first,
                     Next(b, Finish(i, false), maxRetries).handled, maxRetries)
  {
    FinishedRuns(b, i, false, maxRetries);
    assert OnItsWay(b.unacked[i], first, b.handled, maxRetries);
  }

  lemma FinishKeepsWay(b: Broker, i: nat, succeeds: bool, first: map<nat, int>, maxRetries: int)
    requires Inv(b, first, maxRetries) && Enabled(b, Finish(i, succeeds))
    ensures var b' := Next(b, Finish(i, succeeds), maxRetries);
            forall m :: m in b'.queue || m in b'.unacked || m in b'.delayed ==> OnItsWay(m, first, b'.handled, maxRetries)
  {
    var b' := Next(b, Finish(i, succeeds), maxRetries);
    forall m | m in b'.queue || m in b'.unacked || m in b'.delayed ensures OnItsWay(m, first, b'.handled, maxRetries) {
      if m in b.queue || m in Drop(b.unacked, i) || m in b.delayed {
        FinishSparesOthers(b, i, succeeds, first, maxRetries, m);
      } else {
        RetryIsOnItsWay(b, i, first, maxRetries);
      }
    }
  }

  lemma FinishKeepsDead(b: Broker, i: nat, succeeds: bool, first: map<nat, int>, maxRetries: int)
    requires Inv(b, first, maxRetries) && Enabled(b, Finish(i, succeeds))
    ensures var b' := Next(b, Finish(i, succeeds), maxRetries);
            forall m :: m in b'.dlq ==> Dead(m, first, b'.handled, maxRetries)
  {
    var b' := Next(b, Finish(i, succeeds), maxRetries);
    FinishedRuns(b, i, succeeds, maxRetries);
    assert OnItsWay(b.unacked[i], first, b.handled, maxRetries);
    forall m | m in b'.dlq ensures Dead(m, first, b'.handled, maxRetries) {
      if m in b.dlq { assert Dead(m, first, b.handled, maxRetries); }
    }
  }

  lemma FinishKeepsDone(b: Broker, i: nat, succeeds: bool, first: map<nat, int>, maxRetries: int)
    requires Inv(b, first, maxRetries) && Enabled(b, Finish(i, succeeds))
    ensures var b' := Next(b, Finish(i, succeeds), maxRetries);
            forall m :: m in b'.done ==> Completed(m, first, b'.handled, maxRetries)
  {
    var b' := Next(b, Finish(i, succeeds), maxRetries);
    FinishedRuns(b, i, succeeds, maxRetries);
    assert OnItsWay(b.unacked[i], first, b.handled, maxRetries);
    forall m | m in b'.done ensures Completed(m, first, b'.handled, maxRetries) {
      if m in b.done { assert Completed(m, first, b.handled, maxRetries); }
    }
  }

  lemma NextKeepsInv(b: Broker, s: Step, first: map<nat, int>, maxRetries: int)
    requires Inv(b, first, maxRetries) && Enabled(b, s)
    ensures Inv(Next(b, s, maxRetries), first, maxRetries)
  {
    match s {
      case Finish(i, succeeds) =>
        forall id: nat ensures AllCopies(Next(b, s, maxRetries), id) <= 1 { StepConserves(b, s, maxRetries, id); }
        FinishKeepsWay(b, i, succeeds, first, maxRetries);
        FinishKeepsDead(b, i, succeeds, first, maxRetries);
        FinishKeepsDone(b, i, succeeds, first, maxRetries);
      case Take =>
        forall id: nat ensures AllCopies(Next(b, s, maxRetries), id) <= 1 { StepConserves(b, s, maxRetries, id); }
      case Resend(i) =>
        forall id: nat ensures AllCopies(Next(b, s, maxRetries), id) <= 1 { StepConserves(b, s, maxRetries, id); }
        DropKeeps(b.delayed, i);
    }
  }

  lemma {:induction false} RunKeepsInv(b: Broker, run: seq<Step>, first: map<nat, int>, maxRetries: int, id: nat)
    requires Inv(b, first, maxRetries) && CanRun(b, run, maxRetries)
    ensures Inv(Run(b, run, maxRetries), first, maxRetries)
    ensures AllCopies(Run(b, run, maxRetries), id) == AllCopies(b, id)
    decreases |run|
  {
    if run != [] {
      NextKeepsInv(b, run[0], first, maxRetries);
      StepConserves(b, run[0], maxRetries, id);
      RunKeepsInv(Next(b, run[0], maxRetries), run[1..], first, maxRetries, id);
    }
  }

  ghost predicate DistinctIds(ms: seq<Message>) {
    forall i, j :: 0 <= i < j < |ms| ==> ms[i].id != ms[j].id
  }

  /** The retry counts the messages come with, by id. */
  function FirstCounts(ms: seq<Message>): map<nat, int> {
    if ms == [] then map[] else FirstCounts(ms[1..])[ms[0].id := GetRetryCount(ms[0])]
  }

  lemma {:induction false} FirstCountsAt(ms: seq<Message>, i: nat, id: nat)
    requires DistinctIds(ms)
    ensures Copies(ms, id) == if id in FirstCounts(ms) then 1 else 0
    ensures i < |ms| ==> ms[i].id in FirstCounts(ms) && FirstCounts(ms)[ms[i].id] == GetRetryCount(ms[i])
    ensures id in FirstCounts(ms) <==> exists k :: 0 <= k < |ms| && ms[k].id == id
  {
    if ms != [] {
      FirstCountsAt(ms[1..], if i > 0 then i - 1 else 0, id);
      FirstCountsAt(ms[1..], if i > 0 then i - 1 else 0, ms[0].id);
      if id in FirstCounts(ms[1..]) {
        var k :| 0 <= k < |ms| - 1 && ms[1..][k].id == id;
        assert ms[k + 1].id == id;
      }
    }
  }

  lemma FilledInv(ms: seq<Message>, maxRetries: int)
    requires DistinctIds(ms)
    ensures Inv(Filled(ms), FirstCounts(ms), maxRetries)
  {
    forall id: nat ensures AllCopies(Filled(ms), id) <= 1 { FirstCountsAt(ms, 0, id); }
    forall m | m in ms ensures OnItsWay(m, FirstCounts(ms), [], maxRetries) {
      var i :| 0 <= i < |ms| && ms[i] == m;
      FirstCountsAt(ms, i, 0);
    }
  }

  /** Main result: in any run without a crash every message is in exactly one place, and a message that came with
      retry count r is handled at most max(0, maxRetries - r) + 1 times: exactly that often, if it can be
      parsed, when it is dead, and with an alert that says so. */
  lemma MessagesAreConserved(ms: seq<Message>, run: seq<Step>, maxRetries: int, m: Message)
    requires DistinctIds(ms) && m in ms && CanRun(Filled(ms), run, maxRetries)
    ensures var b := Run(Filled(ms), run, maxRetries);
            var most := LastCount(GetRetryCount(m), maxRetries) - GetRetryCount(m) + 1;
            && AllCopies(b, m.id) == 1
            && Runs(b.handled, m.id) <= most
            && (Copies(b.dlq, m.id) == 1 ==> Runs(b.handled, m.id) == if m.parses then most else 0)
            && (Copies(b.done, m.id) == 1 ==> m.parses && Runs(b.handled, m.id) >= 1)
            && |b.alerts| == |b.dlq|
  {
    var first := FirstCounts(ms);
    FilledInv(ms, maxRetries);
    RunKeepsInv(Filled(ms), run, first, maxRetries, m.id);
    var i :| 0 <= i < |ms| && ms[i] == m;
    FirstCountsAt(ms, i, m.id);
    ContentStays(Filled(ms), run, maxRetries, m.id, m.parses);
    var b := Run(Filled(ms), run, maxRetries);
    var n := Somewhere(b, m.id);
    if Copies(b.dlq, m.id) == 1 { FindCopy(b.dlq, m.id); }
    if Copies(b.done, m.id) == 1 { FindCopy(b.done, m.id); }
  }

  /** Each dead letter has its alert, in order, which says what its header says. */
  lemma DeadLettersAreAlerted(ms: seq<Message>, run: seq<Step>, maxRetries: int, k: nat)
    requires DistinctIds(ms) && CanRun(Filled(ms), run, maxRetries)
    ensures var b := Run(Filled(ms), run, maxRetries);
            && |b.alerts| == |b.dlq|
            && (k < |b.dlq| ==> b.dlq[k].retries.Numeric? && b.alerts[k] == Alert(b.dlq[k].id, b.dlq[k].retries.n))
  {
    FilledInv(ms, maxRetries);
    RunKeepsInv(Filled(ms), run, FirstCounts(ms), maxRetries, 0);
    var b := Run(Filled(ms), run, maxRetries);
    if k < |b.dlq| { assert b.dlq[k] in b.dlq; }
  }

  lemma {:induction false} FindCopy(ms: seq<Message>, id: nat)
    requires Copies(ms, id) >= 1
    ensures exists m :: m in ms && m.id == id
  {
    if ms[0].id != id { FindCopy(ms[1..], id); }
  }

  lemma Somewhere(b: Broker, id: nat) returns (m: Message)
    requires AllCopies(b, id) >= 1
    ensures m.id == id && (m in b.queue || m in b.unacked || m in b.delayed || m in b.dlq || m in b.done)
  {
    var place := if Copies(b.queue, id) >= 1 then b.queue else if Copies(b.unacked, id) >= 1 then b.unacked
                 else if Copies(b.delayed, id) >= 1 then b.delayed else if Copies(b.dlq, id) >= 1 then b.dlq else b.done;
    FindCopy(place, id);
    m :| m in place && m.id == id;
  }

  /** Whatever has this id has this content. */
  ghost predicate Content(b: Broker, id: nat, parses: bool) {
    forall m :: (m in b.queue || m in b.unacked || m in b.delayed || m in b.dlq || m in b.done) && m.id == id ==>
      m.parses == parses
  }

  lemma {:induction false} ContentStays(b: Broker, run: seq<Step>, maxRetries: int, id: nat, parses: bool)
    requires CanRun(b, run, maxRetries) && Content(b, id, parses)
    ensures Content(Run(b, run, maxRetries), id, parses)
    decreases |run|
  {
    if run != [] {
      match run[0] {
        case Take =>
        case Finish(i, succeeds) => DropKeeps(b.unacked, i); assert b.unacked[i] in b.unacked;
        case Resend(i) => DropKeeps(b.delayed, i); assert b.delayed[i] in b.delayed;
      }
      ContentStays(Next(b, run[0], maxRetries), run[1..], maxRetries, id, parses);
    }
  }

  // ---------------------------------------------------------------------------------------------
  // What happens to a message
  // ---------------------------------------------------------------------------------------------

  /** A delivery of this message leaves the handler, and how. */
  predicate Delivers(b: Broker, s: Step, id: nat, succeeds: bool) {
    s.Finish? && s.i < |b.unacked| && b.unacked[s.i].id == id && s.succeeds == succeeds
  }

  /** How many deliveries of this message end so in the run. */
  ghost function Deliveries(b: Broker, run: seq<Step>, maxRetries: int, id: nat, succeeds: bool): nat
    requires CanRun(b, run, maxRetries)
    decreases |run|
  {
    if run == [] then 0
    else
      (if Delivers(b, run[0], id, succeeds) then 1 else 0)
      + Deliveries(Next(b, run[0], maxRetries), run[1..], maxRetries, id, succeeds)
  }

  /** A message is done when a delivery of it succeeds, and in no other way. */
  lemma DoneIsSuccess(b: Broker, s: Step, maxRetries: int, id: nat)
    requires Enabled(b, s)
    ensures Copies(Next(b, s, maxRetries).done, id) == Copies(b.done, id) + if Delivers(b, s, id, true) then 1 else 0
  {
    if s.Finish? { CopiesAdd(b.done, b.unacked[s.i], id); }
  }

  lemma {:induction false} DoneCountsSuccesses(b: Broker, run: seq<Step>, maxRetries: int, id: nat)
    requires CanRun(b, run, maxRetries)
    ensures Copies(Run(b, run, maxRetries).done, id)
         == Copies(b.done, id) + Deliveries(b, run, maxRetries, id, true)
    decreases |run|
  {
    if run != [] {
      DoneIsSuccess(b, run[0], maxRetries, id);
      DoneCountsSuccesses(Next(b, run[0], maxRetries), run[1..], maxRetries, id);
    }
  }

  /** After `n` failed deliveries: a message on its way, or done, has a retry count that is higher by n; a dead one has failed as
      often as it may. */
  ghost predicate Counted(b: Broker, id: nat, first: int, n: nat, maxRetries: int) {
    && (forall m :: (m in b.queue || m in b.unacked || m in b.delayed || m in b.done) && m.id == id ==>
         GetRetryCount(m) == first + n <= LastCount(first, maxRetries))
    && (forall m :: m in b.dlq && m.id == id ==> n == LastCount(first, maxRetries) - first + 1)
  }

  lemma FailureCounts(b: Broker, i: nat, maxRetries: int, first: int, n: nat)
    requires Enabled(b, Finish(i, false)) && Counted(b, b.unacked[i].id, first, n, maxRetries)
    requires forall id: nat :: AllCopies(b, id) <= 1
    ensures Counted(Next(b, Finish(i, false), maxRetries), b.unacked[i].id, first, n + 1, maxRetries)
  {
    var m := b.unacked[i];
    assert m in b.unacked;
    forall o | o in b.queue || o in Drop(b.unacked, i) || o in b.delayed || o in b.dlq || o in b.done
      ensures o.id != m.id
    {
      NoOtherCopy(b, i, o);
    }
  }

  lemma OtherStepsDoNotCount(b: Broker, s: Step, maxRetries: int, id: nat, first: int, n: nat)
    requires Enabled(b, s) && Counted(b, id, first, n, maxRetries) && !Delivers(b, s, id, false)
    ensures Counted(Next(b, s, maxRetries), id, first, n, maxRetries)
  {
    match s
    case Take =>
    case Finish(i, succeeds) => DropKeeps(b.unacked, i); assert b.unacked[i] in b.unacked;
    case Resend(i) => DropKeeps(b.delayed, i); assert b.delayed[i] in b.delayed;
  }

  lemma {:induction false} RunCounts(b: Broker, run: seq<Step>, maxRetries: int, id: nat, first: int, n: nat)
    requires CanRun(b, run, maxRetries) && Counted(b, id, first, n, maxRetries)
    requires forall o: nat :: AllCopies(b, o) <= 1
    ensures Counted(Run(b, run, maxRetries), id, first, n + Deliveries(b, run, maxRetries, id, false), maxRetries)
    decreases |run|
  {
    if run != [] {
      var b' := Next(b, run[0], maxRetries);
      forall o: nat ensures AllCopies(b', o) <= 1 { StepConserves(b, run[0], maxRetries, o); }
      if Delivers(b, run[0], id, false) {
        FailureCounts(b, run[0].i, maxRetries, first, n);
        RunCounts(b', run[1..], maxRetries, id, first, n + 1);
      } else {
        OtherStepsDoNotCount(b, run[0], maxRetries, id, first, n);
        RunCounts(b', run[1..], maxRetries, id, first, n);
      }
    }
  }

  /** The messages the broker hands out in the run, and those that retry timers send to the queue, oldest first. */
  ghost function HandedOut(b: Broker, run: seq<Step>, maxRetries: int): seq<Message>
    requires CanRun(b, run, maxRetries)
    decreases |run|
  {
    if run == [] then []
    else
      var b' := Next(b, run[0], maxRetries);
      (if run[0].Take? && b'.unacked != [] then [b'.unacked[|b'.unacked| - 1]] else [])
      + HandedOut(b', run[1..], maxRetries)
  }

  ghost function SentAgain(b: Broker, run: seq<Step>, maxRetries: int): seq<Message>
    requires CanRun(b, run, maxRetries)
    decreases |run|
  {
    if run == [] then []
    else (if run[0].Resend? then [b.delayed[run[0].i]] else []) + SentAgain(Next(b, run[0], maxRetries), run[1..], maxRetries)
  }

  /** Main result: the queue is first in, first out: what was there and what retries add is what is handed out, in that
      order, and what is left. */
  lemma {:induction false} QueueKeepsOrder(b: Broker, run: seq<Step>, maxRetries: int)
    requires CanRun(b, run, maxRetries)
    ensures b.queue + SentAgain(b, run, maxRetries) == HandedOut(b, run, maxRetries) + Run(b, run, maxRetries).queue
    decreases |run|
  {
    if run != [] {
      var b' := Next(b, run[0], maxRetries);
      QueueKeepsOrder(b', run[1..], maxRetries);
      var sent, left := SentAgain(b', run[1..], maxRetries), Run(b, run, maxRetries).queue;
      var handed := HandedOut(b', run[1..], maxRetries);
      match run[0] {
        case Take =>
          assert b'.unacked[|b'.unacked| - 1] == b.queue[0];
          assert SentAgain(b, run, maxRetries) == sent && HandedOut(b, run, maxRetries) == [b.queue[0]] + handed;
          HeadLeaves(b.queue, b'.queue, sent, handed, left);
        case Resend(i) =>
          assert SentAgain(b, run, maxRetries) == [b.delayed[i]] + sent && HandedOut(b, run, maxRetries) == handed;
          TailJoins(b.queue, b'.queue, b.delayed[i], sent);
        case Finish(_, _) =>
          assert SentAgain(b, run, maxRetries) == sent && HandedOut(b, run, maxRetries) == handed;
      }
    }
  }

  lemma HeadLeaves(q: seq<Message>, rest: seq<Message>, sent: seq<Message>, handed: seq<Message>, left: seq<Message>)
    requires q != [] && rest == q[1..] && rest + sent == handed + left
    ensures q + sent == [q[0]] + handed + left
  {
    assert q + sent == [q[0]] + (rest + sent);
  }

  lemma TailJoins(q: seq<Message>, longer: seq<Message>, m: Message, sent: seq<Message>)
    requires longer == q + [m]
    ensures q + ([m] + sent) == longer + sent
  {
  }

  /** What the header of a message says; a missing one, or one that is no number, says nothing yet. */
  function HeaderCount(h: Header): int {
    match h
    case Numeric(n) => n
    case Missing => 0
    case NotFinite => 0
  }

  /** Main result: a message is done exactly if a delivery of it has succeeded; it is dead exactly if none has and it
      has failed as often as it may: maxRetries + 1 times if it came without a count, as many times less as the
      count it came with, but at least once. Messages that cannot be parsed fail every time. */
  lemma FateOfAMessage(ms: seq<Message>, run: seq<Step>, maxRetries: int, m: Message)
    requires DistinctIds(ms) && m in ms && CanRun(Filled(ms), run, maxRetries)
    ensures var b := Run(Filled(ms), run, maxRetries);
            var successes := Deliveries(Filled(ms), run, maxRetries, m.id, true);
            var failures := Deliveries(Filled(ms), run, maxRetries, m.id, false);
            var most := if HeaderCount(m.retries) < maxRetries then maxRetries - HeaderCount(m.retries) + 1 else 1;
            && Copies(b.done, m.id) == successes <= 1
            && (Copies(b.dlq, m.id) == 1 <==> failures == most)
            && failures <= most && (failures == most ==> successes == 0)
  {
    FirstCountsAt(ms, 0, m.id);
    var i :| 0 <= i < |ms| && ms[i] == m;
    forall o | o in ms && o.id == m.id ensures o == m {
      var j :| 0 <= j < |ms| && ms[j] == o;
    }
    assert Counted(Filled(ms), m.id, GetRetryCount(m), 0, maxRetries);
    FilledInv(ms, maxRetries);
    RunCounts(Filled(ms), run, maxRetries, m.id, GetRetryCount(m), 0);
    DoneCountsSuccesses(Filled(ms), run, maxRetries, m.id);
    MessagesAreConserved(ms, run, maxRetries, m);

    var b := Run(Filled(ms), run, maxRetries);
    var o := Somewhere(b, m.id);
    if Copies(b.dlq, m.id) == 1 { FindCopy(b.dlq, m.id); }
    if o in b.queue { CopiesMember(b.queue, o); }
    if o in b.unacked { CopiesMember(b.unacked, o); }
    if o in b.delayed { CopiesMember(b.delayed, o); }
    if o in b.dlq { CopiesMember(b.dlq, o); }
    if o in b.done { CopiesMember(b.done, o); }
  }

  // ---------------------------------------------------------------------------------------------
  // Every run comes to an end
  // ---------------------------------------------------------------------------------------------

  /** Deliveries a message has left before it is dead. */
  function Budget(m: Message, maxRetries: int): nat {
    LastCount(GetRetryCount(m), maxRetries) - GetRetryCount(m) + 1
  }

  /** Each delivery costs three steps: take, finish, resend. */
  function StepsLeft(ms: seq<Message>, maxRetries: int, spent: int): int {
    if ms == [] then 0 else 3 * Budget(ms[0], maxRetries) + spent + StepsLeft(ms[1..], maxRetries, spent)
  }

  function AllStepsLeft(b: Broker, maxRetries: int): int {
    StepsLeft(b.queue, maxRetries, 0) + StepsLeft(b.unacked, maxRetries, -1) + StepsLeft(b.delayed, maxRetries, 1)
  }

  lemma {:induction false} StepsConcat(ms: seq<Message>, ns: seq<Message>, maxRetries: int, spent: int)
    ensures StepsLeft(ms + ns, maxRetries, spent) == StepsLeft(ms, maxRetries, spent) + StepsLeft(ns, maxRetries, spent)
  {
    if ms == [] {
      assert ms + ns == ns;
    } else {
      assert (ms + ns)[1..] == ms[1..] + ns;
      StepsConcat(ms[1..], ns, maxRetries, spent);
    }
  }

  lemma StepsAdd(ms: seq<Message>, m: Message, maxRetries: int, spent: int)
    ensures StepsLeft(ms + [m], maxRetries, spent) == StepsLeft(ms, maxRetries, spent) + 3 * Budget(m, maxRetries) + spent
  {
    StepsConcat(ms, [m], maxRetries, spent);
  }

  lemma StepsDrop(ms: seq<Message>, i: nat, maxRetries: int, spent: int)
    requires i < |ms|
    ensures StepsLeft(ms, maxRetries, spent)
         == StepsLeft(Drop(ms, i), maxRetries, spent) + 3 * Budget(ms[i], maxRetries) + spent
  {
    assert ms == (ms[..i] + [ms[i]]) + ms[i + 1..];
    StepsConcat(ms[..i] + [ms[i]], ms[i + 1..], maxRetries, spent);
    StepsAdd(ms[..i], ms[i], maxRetries, spent);
    StepsConcat(ms[..i], ms[i + 1..], maxRetries, spent);
  }

  lemma {:induction false} StepsAreNonnegative(ms: seq<Message>, maxRetries: int, spent: int)
    requires spent >= -1
    ensures StepsLeft(ms, maxRetries, spent) >= 0
  {
    if ms != [] { StepsAreNonnegative(ms[1..], maxRetries, spent); }
  }

  lemma EveryStepCounts(b: Broker, s: Step, maxRetries: int)
    requires Enabled(b, s)
    ensures AllStepsLeft(Next(b, s, maxRetries), maxRetries) <= AllStepsLeft(b, maxRetries) - 1
  {
    match s
    case Take =>
      StepsAdd(b.unacked, b.queue[0], maxRetries, -1);
    case Resend(i) =>
      StepsDrop(b.delayed, i, maxRetries, 1);
      StepsAdd(b.queue, b.delayed[i], maxRetries, 0);
    case Finish(i, succeeds) =>
      var m := b.unacked[i];
      StepsDrop(b.unacked, i, maxRetries, -1);
      StepsAdd(b.delayed, m.(retries := Numeric(GetRetryCount(m) + 1)), maxRetries, 1);
  }

  /** Main result: no run is longer than three steps per remaining delivery. */
  lemma {:induction false} RunsEnd(b: Broker, run: seq<Step>, maxRetries: int)
    requires CanRun(b, run, maxRetries)
    ensures |run| + AllStepsLeft(Run(b, run, maxRetries), maxRetries) <= AllStepsLeft(b, maxRetries)
    ensures AllStepsLeft(Run(b, run, maxRetries), maxRetries) >= 0
    decreases |run|
  {
    if run != [] {
      EveryStepCounts(b, run[0], maxRetries);
      RunsEnd(Next(b, run[0], maxRetries), run[1..], maxRetries);
    } else {
      StepsAreNonnegative(b.queue, maxRetries, 0);
      StepsAreNonnegative(b.unacked, maxRetries, -1);
      StepsAreNonnegative(b.delayed, maxRetries, 1);
    }
  }

  /** A run that cannot continue has left every message done or dead, exactly one of the two. */
  lemma AtTheEndEverythingIsSettled(ms: seq<Message>, run: seq<Step>, maxRetries: int, m: Message)
    requires DistinctIds(ms) && m in ms && CanRun(Filled(ms), run, maxRetries)
    requires forall s :: !Enabled(Run(Filled(ms), run, maxRetries), s)
    ensures var end := Run(Filled(ms), run, maxRetries);
            Copies(end.done, m.id) + Copies(end.dlq, m.id) == 1
  {
    MessagesAreConserved(ms, run, maxRetries, m);
    var end := Run(Filled(ms), run, maxRetries);
    assert !Enabled(end, Take) && !Enabled(end, Finish(0, false)) && !Enabled(end, Resend(0));
  }

  // ---------------------------------------------------------------------------------------------
  // The consumer and the requeue loop
  // ---------------------------------------------------------------------------------------------

  class QueueConsumer {
    const maxRetries: int
    var queue: seq<Message>
    var unacked: seq<Message>
    var delayed: seq<Message>
    var dlq: seq<Message>
    var alerts: seq<Alert>
    var done: seq<Message>
    var handled: seq<nat>

    ghost function View(): Broker
      reads this
    {
      Broker(queue, unacked, delayed, dlq, alerts, done, handled)
    }

    constructor (messages: seq<Message>, maxRetries: int)
      ensures View() == Filled(messages) && this.maxRetries == maxRetries
    {
      queue, this.maxRetries := messages, maxRetries;
      unacked, delayed, dlq, alerts, done, handled := [], [], [], [], [], [];
    }

    method Deliver()
      requires Enabled(View(), Take)
      modifies this
      ensures View() == Next(old(View()), Take, maxRetries)
    {
      queue, unacked := queue[1..], unacked + [queue[0]];
    }

    /** The callback for delivery `i`; `handlerSucceeds` is how the handler ends if it is reached. */
    method OnMessage(i: nat, handlerSucceeds: bool)
      requires i < |unacked|
      modifies this
      ensures var succeeds := old(unacked)[i].parses && handlerSucceeds;
              View() == Next(old(View()), Finish(i, succeeds), maxRetries)
    {
      var m := unacked[i];
      if m.parses {
        handled := handled + [m.id];
      }
      if m.parses && handlerSucceeds {
        unacked, done := Drop(unacked, i), done + [m];
        return;
      }
      var retryCount := GetRetryCount(m);
      var nextRetryCount := retryCount + 1;
      if retryCount < maxRetries {
        delayed := delayed + [m.(retries := Numeric(nextRetryCount))];
        unacked := Drop(unacked, i);
        return;
      }
      dlq := dlq + [m.(retries := Numeric(retryCount))];
      alerts := alerts + [Alert(m.id, retryCount)];
      unacked := Drop(unacked, i);
    }

    method OnRetryTimer(i: nat)
      requires Enabled(View(), Resend(i))
      modifies this
      ensures View() == Next(old(View()), Resend(i), maxRetries)
    {
      delayed, queue := Drop(delayed, i), queue + [delayed[i]];
    }
  }

  function Reset(m: Message): Message {
    m.(retries := Numeric(0))
  }

  function ResetAll(ms: seq<Message>): seq<Message> {
    seq(|ms|, i requires 0 <= i < |ms| => Reset(ms[i]))
  }

  /** Every dead letter that is moved counts no retries, and is otherwise as it was. */
  lemma MovedLettersStartAgain(ms: seq<Message>, k: nat)
    requires k < |ms|
    ensures |ResetAll(ms)| == |ms|
    ensures var m := ResetAll(ms)[k]; m.retries == Numeric(0) && m.id == ms[k].id && m.parses == ms[k].parses
  {
  }

  /** Taking the head, resetting it and appending it, `n` times. */
  function Rotate(ms: seq<Message>, n: nat): seq<Message>
    requires ms != []
  {
    if n == 0 then ms
    else
      var r := Rotate(ms, n - 1);
      r[1..] + [Reset(r[0])]
  }

  function Clamp(n: int): nat { if n < 0 then 0 else n }

  lemma OneMoreMoved(dead: seq<Message>, target: seq<Message>, n: nat)
    requires n < |dead|
    ensures target + ResetAll(dead[..n + 1]) == target + ResetAll(dead[..n]) + [Reset(dead[n])]
    ensures dead[n..][1..] == dead[n + 1..] && dead[n..][0] == dead[n]
  {
    assert dead[..n + 1] == dead[..n] + [dead[n]];
    assert ResetAll(dead[..n + 1]) == ResetAll(dead[..n]) + [Reset(dead[n])];
  }

  class Channel {
    var queues: map<string, seq<Message>>

    function Ready(queue: string): seq<Message>
      reads this
    {
      if queue in queues then queues[queue] else []
    }

    method AssertQueue(queue: string)
      modifies this
      ensures queue in queues && forall q :: q in old(queues) ==> q in queues
      ensures forall q :: Ready(q) == old(Ready(q))
    {
      if queue !in queues { queues := queues[queue := []]; }
    }

    /** `get` the oldest dead letter, send it on and acknowledge it. */
    method MoveOne(dlqQueue: string, targetQueue: string)
      requires dlqQueue in queues && targetQueue in queues && queues[dlqQueue] != []
      modifies this
      ensures queues.Keys == old(queues).Keys
      ensures dlqQueue != targetQueue ==>
                && queues[dlqQueue] == old(queues)[dlqQueue][1..]
                && queues[targetQueue] == old(queues)[targetQueue] + [Reset(old(queues)[dlqQueue][0])]
      ensures dlqQueue == targetQueue ==>
                queues[dlqQueue] == old(queues)[dlqQueue][1..] + [Reset(old(queues)[dlqQueue][0])]
      ensures forall q :: q != dlqQueue && q != targetQueue ==> Ready(q) == old(Ready(q))
    {
      var msg := queues[dlqQueue][0];
      queues := queues[dlqQueue := queues[dlqQueue][1..]];
      queues := queues[targetQueue := queues[targetQueue] + [Reset(msg)]];
    }

    /** Moves the oldest dead letters to the other queue, in order, with their counts reset; or, when a queue
        is requeued to itself, turns it round as often as allowed. The result is the number of messages
        that changed place unless a queue shorter than `maxCount` is requeued to itself. */
    method RequeueDlqMessages(dlqQueue: string, targetQueue: string, maxCount: int) returns (requeued: nat)
      modifies this
      ensures dlqQueue != targetQueue ==>
                && requeued == Min(Clamp(maxCount), |old(Ready(dlqQueue))|)
                && Ready(dlqQueue) == old(Ready(dlqQueue))[requeued..]
                && Ready(targetQueue) == old(Ready(targetQueue)) + ResetAll(old(Ready(dlqQueue))[..requeued])
      ensures dlqQueue == targetQueue && old(Ready(dlqQueue)) != [] ==>
                requeued == Clamp(maxCount) && Ready(dlqQueue) == Rotate(old(Ready(dlqQueue)), requeued)
      ensures requeued == Min(Clamp(maxCount), |old(Ready(dlqQueue))|) <==>
                dlqQueue != targetQueue || old(Ready(dlqQueue)) == [] || maxCount <= |old(Ready(dlqQueue))|
      ensures forall q :: q != dlqQueue && q != targetQueue ==> Ready(q) == old(Ready(q))
    {
      AssertQueue(dlqQueue);
      AssertQueue(targetQueue);
      requeued := 0;
      ghost var dead, target := Ready(dlqQueue), Ready(targetQueue);
      assert dead[0..] == dead && target + ResetAll(dead[..0]) == target;
      while requeued < maxCount
        invariant dlqQueue in queues && targetQueue in queues && requeued <= Clamp(maxCount)
        invariant dlqQueue != targetQueue ==>
                    && requeued <= |dead| && queues[dlqQueue] == dead[requeued..]
                    && queues[targetQueue] == target + ResetAll(dead[..requeued])
        invariant dlqQueue == targetQueue && dead != [] ==> queues[dlqQueue] == Rotate(dead, requeued) != []
        invariant dead == [] ==> queues[dlqQueue] == [] && requeued == 0
        invariant forall q :: q != dlqQueue && q != targetQueue ==> Ready(q) == old(Ready(q))
        decreases maxCount - requeued
      {
        if queues[dlqQueue] == [] { break; }
        if dlqQueue != targetQueue { OneMoreMoved(dead, target, requeued); }
        MoveOne(dlqQueue, targetQueue);
        requeued := requeued + 1;
      }
    }
  }
}
