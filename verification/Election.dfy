/** Any number of tabs of BroadcastLeader.ts on one broadcast channel.

    A message in flight is a packet for one recipient; `pending` is a bag of packets in the sense that any
    of them may be delivered next. A tab never receives its own messages. A closed tab leaves the channel; what it
    has posted stays in flight.
  */
module Election {
  import opened Arithmetic
  import opened Options
  import opened Sequences

  import opened BroadcastLeaders

  datatype Packet = Packet(msg: Message, to: nat)

  datatype Net = Net(tabs: seq<Tab>, pending: seq<Packet>)

  /** Copies of `m` for the first `n` tabs other than the sender. */
  function Broadcast(m: Message, from: nat, n: nat): (ps: seq<Packet>)
    ensures forall p :: p in ps <==> p.msg == m && p.to < n && p.to != from
    ensures |ps| == if from < n then n - 1 else n
  {
    if n == 0 then []
    else Broadcast(m, from, n - 1) + if n - 1 == from then [] else [Packet(m, n - 1)]
  }

  function Posted(e: Effect, from: nat, n: nat): seq<Packet> {
    if e.post.Some? then Broadcast(e.post.value, from, n) else []
  }

  /** Tab `k` ran a handler with effect `e`. */
  function Apply(net: Net, k: nat, e: Effect): Net
    requires k < |net.tabs|
  {
    Net(net.tabs[k := e.tab], net.pending + Posted(e, k, |net.tabs|))
  }

  datatype Event =
    | Deliver(i: nat)                // packet i reaches its recipient
    | Timer(k: nat, input: Input)    // a timer of tab k fires
    | Join(id: Id)                   // a new tab is constructed
    | Close(k: nat)                  // tab k is destroyed

  predicate CanHappen(net: Net, e: Event) {
    match e
    case Deliver(i) => i < |net.pending| && net.pending[i].to < |net.tabs|
    case Timer(k, input) => k < |net.tabs| && !input.Receive? && Enabled(net.tabs[k], input)
    case Join(id) => forall j :: 0 <= j < |net.tabs| ==> net.tabs[j].id != id
    case Close(k) => k < |net.tabs|
  }

  /** Where a tab's packets went before tab `k` left and the tabs after it moved up. */
  function Formerly(to: nat, k: nat): nat {
    if to < k then to else to + 1
  }

  /** The packets once tab `k` has left: those for it are lost. */
  function Forget(ps: seq<Packet>, k: nat): seq<Packet> {
    if ps == [] then []
    else
      var p := ps[0];
      (if p.to == k then [] else [Packet(p.msg, if p.to < k then p.to else p.to - 1)]) + Forget(ps[1..], k)
  }

  lemma {:induction false} ForgetKeeps(ps: seq<Packet>, k: nat, q: Packet)
    ensures q in Forget(ps, k) <==> Packet(q.msg, Formerly(q.to, k)) in ps
  {
    if ps != [] {
      ForgetKeeps(ps[1..], k, q);
      assert ps == [ps[0]] + ps[1..];
    }
  }

  function Next(net: Net, e: Event): Net
    requires CanHappen(net, e)
  {
    match e
    case Deliver(i) =>
      var p := net.pending[i];
      Apply(Net(net.tabs, Drop(net.pending, i)), p.to, HandleMessage(net.tabs[p.to], p.msg))
    case Timer(k, input) => Apply(net, k, React(net.tabs[k], input))
    case Join(id) =>
      Apply(Net(net.tabs + [Blank(id)], net.pending), |net.tabs|, StartElection(Blank(id)))
    case Close(k) =>
      Net(Drop(net.tabs, k), Forget(net.pending + Posted(Destroy(net.tabs[k]), k, |net.tabs|), k))
  }

  ghost predicate CanRun(net: Net, run: seq<Event>)
    decreases |run|
  {
    run != [] ==> CanHappen(net, run[0]) && CanRun(Next(net, run[0]), run[1..])
  }

  ghost function Run(net: Net, run: seq<Event>): Net
    requires CanRun(net, run)
    decreases |run|
  {
    if run == [] then net else Run(Next(net, run[0]), run[1..])
  }

  ghost predicate DistinctIds(net: Net) {
    forall i, j :: 0 <= i < j < |net.tabs| ==> net.tabs[i].id != net.tabs[j].id
  }

  lemma ClosingMovesUp(net: Net, k: nat)
    requires k < |net.tabs|
    ensures forall j :: 0 <= j < |net.tabs| - 1 ==> Drop(net.tabs, k)[j] == net.tabs[Formerly(j, k)]
  {
  }

  /** Nobody's id changes, and a new tab has an id of its own. */
  lemma NextKeepsDistinct(net: Net, e: Event)
    requires DistinctIds(net) && CanHappen(net, e)
    ensures DistinctIds(Next(net, e))
  {
    if e.Close? {
      ClosingMovesUp(net, e.k);
    } else {
      assert forall j :: 0 <= j < |net.tabs| ==> Next(net, e).tabs[j].id == net.tabs[j].id;
    }
  }

  lemma {:induction false} RunKeepsDistinct(net: Net, run: seq<Event>)
    requires DistinctIds(net) && CanRun(net, run)
    ensures DistinctIds(Run(net, run))
    decreases |run|
  {
    if run != [] {
      NextKeepsDistinct(net, run[0]);
      RunKeepsDistinct(Next(net, run[0]), run[1..]);
    }
  }

  ghost predicate AllSound(net: Net) {
    forall k :: 0 <= k < |net.tabs| ==> Sound(net.tabs[k])
  }

  lemma NextKeepsSound(net: Net, e: Event)
    requires AllSound(net) && CanHappen(net, e)
    ensures AllSound(Next(net, e))
  {
    match e
    case Deliver(i) => ReactKeepsSound(net.tabs[net.pending[i].to], Receive(net.pending[i].msg));
    case Timer(k, input) => ReactKeepsSound(net.tabs[k], input);
    case Join(_) =>
    case Close(_) =>
  }

  lemma {:induction false} RunKeepsSound(net: Net, run: seq<Event>)
    requires AllSound(net) && CanRun(net, run)
    ensures AllSound(Run(net, run))
    decreases |run|
  {
    if run != [] {
      NextKeepsSound(net, run[0]);
      RunKeepsSound(Next(net, run[0]), run[1..]);
    }
  }

  // ---------------------------------------------------------------------------------------------
  // Safety: when every message has been delivered, only the tab with the largest id is electing.
  // ---------------------------------------------------------------------------------------------

  ghost predicate Leaderless(net: Net) {
    forall k :: 0 <= k < |net.tabs| ==> !net.tabs[k].leader
  }

  ghost predicate Top(net: Net, m: nat) {
    m < |net.tabs| && forall k :: 0 <= k < |net.tabs| ==> net.tabs[k].id <= net.tabs[m].id
  }

  /** No leader, no running election, no ELECTION in flight; heartbeats and resignations of tabs that
      have closed may still be on their way. */
  ghost predicate Quiet(net: Net) {
    && Leaderless(net)
    && (forall k :: 0 <= k < |net.tabs| ==> !net.tabs[k].electing)
    && (forall p :: p in net.pending ==> !p.msg.Election? && p.to < |net.tabs|)
  }

  ghost predicate InFlight(net: Net, m: Message, to: nat) {
    Packet(m, to) in net.pending
  }

  ghost predicate Ordered(net: Net, m: nat) {
    && Top(net, m) && DistinctIds(net) && Leaderless(net)
    && (forall p :: p in net.pending ==>
         p.to < |net.tabs| && (p.msg.Election? ==> p.msg.id <= net.tabs[m].id && p.msg.id != net.tabs[p.to].id))
  }

  /** Tab `y`'s election is about to be contested by tab `m` or about to yield to it. */
  ghost predicate Answered(net: Net, m: nat, y: nat)
    requires m < |net.tabs| && y < |net.tabs|
  {
    InFlight(net, Election(net.tabs[y].id), m) || InFlight(net, Election(net.tabs[m].id), y)
  }

  /** The invariant: every election other than the top tab's is answered by the top tab. */
  ghost predicate Contested(net: Net, m: nat) {
    && Ordered(net, m)
    && forall y :: 0 <= y < |net.tabs| && y != m && net.tabs[y].electing ==> Answered(net, m, y)
  }

  /** The top tab is electing or will be. */
  ghost predicate Roused(net: Net, m: nat) {
    m < |net.tabs| && (net.tabs[m].electing || exists id :: InFlight(net, Election(id), m))
  }

  /** No 500 ms timer fires and no tab closes. */
  predicate BeforeAnyTimeout(e: Event) {
    !e.Close? && (e.Timer? ==> e.input.FailoverTimer?)
  }

  /** An event in which some tab calls `startElection`. */
  ghost predicate Starts(net: Net, e: Event)
    requires CanHappen(net, e)
  {
    || e.Join? || (e.Timer? && e.input.FailoverTimer?)
    || (e.Deliver? && net.pending[e.i].msg.Resign?)
  }

  /** The index of the top tab after `e`. */
  function NewTop(net: Net, m: nat, e: Event): nat
    requires m < |net.tabs|
  {
    if e.Join? && e.id > net.tabs[m].id then |net.tabs| else m
  }

  lemma DeliverKeepsOrdered(net: Net, m: nat, i: nat)
    requires Ordered(net, m) && CanHappen(net, Deliver(i))
    ensures Ordered(Next(net, Deliver(i)), m)
  {
    DropKeeps(net.pending, i);
    assert net.pending[i] in net.pending;
  }

  /** The packet's recipient starts an election and announces it to everybody else. */
  lemma AnnouncementsAreInFlight(net: Net, i: nat, y: nat)
    requires CanHappen(net, Deliver(i))
    requires var p := net.pending[i]; HandleMessage(net.tabs[p.to], p.msg).post == Some(Election(net.tabs[p.to].id))
    requires y < |net.tabs| && y != net.pending[i].to
    ensures InFlight(Next(net, Deliver(i)), Election(net.tabs[net.pending[i].to].id), y)
  {
    var p := net.pending[i];
    assert Packet(Election(net.tabs[p.to].id), y) in Broadcast(Election(net.tabs[p.to].id), p.to, |net.tabs|);
  }

  lemma OthersStayInFlight(net: Net, i: nat, msg: Message, to: nat)
    requires CanHappen(net, Deliver(i)) && InFlight(net, msg, to) && net.pending[i] != Packet(msg, to)
    ensures InFlight(Next(net, Deliver(i)), msg, to)
  {
    DropKeeps(net.pending, i);
  }

  lemma DeliverKeepsAnswered(net: Net, m: nat, i: nat, y: nat)
    requires Contested(net, m) && CanHappen(net, Deliver(i)) && y < |net.tabs| && y != m
    requires Next(net, Deliver(i)).tabs[y].electing
    ensures Answered(Next(net, Deliver(i)), m, y)
  {
    var p := net.pending[i];
    assert p in net.pending;
    if p.to == m && p.msg.Election? {
      AnnouncementsAreInFlight(net, i, y);
    } else if p.to == y && (p.msg.Resign? || p.msg.Election?) {
      AnnouncementsAreInFlight(net, i, m);
    } else if InFlight(net, Election(net.tabs[y].id), m) {
      OthersStayInFlight(net, i, Election(net.tabs[y].id), m);
    } else {
      OthersStayInFlight(net, i, Election(net.tabs[m].id), y);
    }
  }

  lemma DeliverKeepsRoused(net: Net, m: nat, i: nat)
    requires Ordered(net, m) && CanHappen(net, Deliver(i))
    requires Roused(net, m) || Starts(net, Deliver(i))
    ensures Roused(Next(net, Deliver(i)), m)
  {
    var p := net.pending[i];
    assert p in net.pending;
    if p.to == m || net.tabs[m].electing {
      assert Next(net, Deliver(i)).tabs[m].electing || (p.to == m && !p.msg.Election? && !p.msg.Resign?);
    }
    if p.msg.Resign? && p.to != m {
      AnnouncementsAreInFlight(net, i, m);
    } else if !net.tabs[m].electing && exists id :: InFlight(net, Election(id), m) {
      var id :| InFlight(net, Election(id), m);
      if p != Packet(Election(id), m) {
        OthersStayInFlight(net, i, Election(id), m);
      }
    }
  }

  lemma DeliverKeepsContested(net: Net, m: nat, i: nat)
    requires Contested(net, m) && CanHappen(net, Deliver(i))
    ensures Contested(Next(net, Deliver(i)), m)
  {
    DeliverKeepsOrdered(net, m, i);
    forall y | 0 <= y < |net.tabs| && y != m && Next(net, Deliver(i)).tabs[y].electing
      ensures Answered(Next(net, Deliver(i)), m, y)
    {
      DeliverKeepsAnswered(net, m, i, y);
    }
  }

  lemma FailoverKeepsContested(net: Net, m: nat, k: nat, h: nat)
    requires Contested(net, m) && CanHappen(net, Timer(k, FailoverTimer(h)))
    ensures Contested(Next(net, Timer(k, FailoverTimer(h))), m)
    ensures Roused(Next(net, Timer(k, FailoverTimer(h))), m)
  {
    var net' := Next(net, Timer(k, FailoverTimer(h)));
    var posted := Broadcast(Election(net.tabs[k].id), k, |net.tabs|);
    assert net'.pending == net.pending + posted;
    if k != m {
      assert Packet(Election(net.tabs[k].id), m) in posted;
      assert InFlight(net', Election(net.tabs[k].id), m);
    }
    forall y | 0 <= y < |net.tabs| && y != m && net'.tabs[y].electing
      ensures Answered(net', m, y)
    {
      if y != k {
        assert net.tabs[y].electing;
        assert Answered(net, m, y);
      }
    }
  }

  /** What a new tab with this id announces reaches everybody. */
  lemma NewcomerIsAnnounced(net: Net, id: Id, y: nat)
    requires CanHappen(net, Join(id)) && y < |net.tabs|
    ensures InFlight(Next(net, Join(id)), Election(id), y)
    ensures forall p :: p in net.pending ==> p in Next(net, Join(id)).pending
  {
    assert Packet(Election(id), y) in Broadcast(Election(id), |net.tabs|, |net.tabs| + 1);
  }

  lemma LargestJoins(net: Net, m: nat, id: Id)
    requires Contested(net, m) && CanHappen(net, Join(id)) && id > net.tabs[m].id
    ensures Contested(Next(net, Join(id)), |net.tabs|) && Roused(Next(net, Join(id)), |net.tabs|)
  {
    forall y | 0 <= y < |net.tabs| ensures InFlight(Next(net, Join(id)), Election(id), y) {
      NewcomerIsAnnounced(net, id, y);
    }
  }

  lemma SmallerJoins(net: Net, m: nat, id: Id)
    requires Contested(net, m) && CanHappen(net, Join(id)) && id < net.tabs[m].id
    ensures Contested(Next(net, Join(id)), m) && Roused(Next(net, Join(id)), m)
  {
    NewcomerIsAnnounced(net, id, m);
    forall y | 0 <= y < |net.tabs| && y != m && net.tabs[y].electing ensures Answered(Next(net, Join(id)), m, y) {
      assert Answered(net, m, y);
    }
  }

  lemma JoinKeepsContested(net: Net, m: nat, id: Id)
    requires Contested(net, m) && CanHappen(net, Join(id))
    ensures var m' := NewTop(net, m, Join(id)); Contested(Next(net, Join(id)), m') && Roused(Next(net, Join(id)), m')
  {
    if id > net.tabs[m].id { LargestJoins(net, m, id); } else { SmallerJoins(net, m, id); }
  }

  lemma StepKeepsContested(net: Net, m: nat, e: Event)
    requires Contested(net, m) && CanHappen(net, e) && BeforeAnyTimeout(e)
    ensures Contested(Next(net, e), NewTop(net, m, e))
    ensures Roused(net, m) || Starts(net, e) ==> Roused(Next(net, e), NewTop(net, m, e))
  {
    match e
    case Deliver(i) =>
      DeliverKeepsContested(net, m, i);
      if Roused(net, m) || Starts(net, e) { DeliverKeepsRoused(net, m, i); }
    case Timer(k, input) => FailoverKeepsContested(net, m, k, input.handle);
    case Join(id) => JoinKeepsContested(net, m, id);
  }

  ghost predicate SomeElection(net: Net, run: seq<Event>)
    requires CanRun(net, run)
    decreases |run|
  {
    run != [] && (Starts(net, run[0]) || SomeElection(Next(net, run[0]), run[1..]))
  }

  lemma {:induction false} RunKeepsContested(net: Net, m: nat, run: seq<Event>) returns (top: nat)
    requires Contested(net, m) && CanRun(net, run) && forall e :: e in run ==> BeforeAnyTimeout(e)
    ensures Contested(Run(net, run), top)
    ensures Roused(net, m) || SomeElection(net, run) ==> Roused(Run(net, run), top)
    decreases |run|
  {
    if run == [] {
      top := m;
    } else {
      StepKeepsContested(net, m, run[0]);
      top := RunKeepsContested(Next(net, run[0]), NewTop(net, m, run[0]), run[1..]);
    }
  }

  lemma {:induction false} SomeTop(net: Net, n: nat) returns (m: nat)
    requires 0 < n <= |net.tabs|
    ensures m < n && forall k :: 0 <= k < n ==> net.tabs[k].id <= net.tabs[m].id
    decreases n
  {
    m := 0;
    if n > 1 {
      m := SomeTop(net, n - 1);
      if net.tabs[n - 1].id > net.tabs[m].id {
        m := n - 1;
      }
    }
  }

  /** Main result: from a quiet leaderless channel, let tabs join, fail over and answer each other in any
      order with no 500 ms timer firing. Once every message has arrived, no tab but the one with the
      largest id is electing, and that one is if there was any election at all; so it is the only tab
      the next 500 ms timer can promote, and it does. */
  lemma OnlyTheTopTabCanWin(start: Net, run: seq<Event>, k: nat)
    requires Quiet(start) && DistinctIds(start)
    requires CanRun(start, run) && forall e :: e in run ==> BeforeAnyTimeout(e)
    requires Run(start, run).pending == [] && k < |Run(start, run).tabs|
    ensures var net := Run(start, run);
            && Leaderless(net)
            && (net.tabs[k].electing <==> Top(net, k) && SomeElection(start, run))
            && (net.tabs[k].elections > 0 ==>
                 (ElectionTimeout(net.tabs[k]).leader <==> Top(net, k) && SomeElection(start, run)))
  {
    var net := Run(start, run);
    if start.tabs == [] {
      if run != [] {
        assert run[0] in run && run[0].Join?;
        var first := Next(start, run[0]);
        assert Broadcast(Election(run[0].id), 0, 1) == [];
        assert Contested(first, 0) && Roused(first, 0);
        var top := RunKeepsContested(first, 0, run[1..]);
        SettledAt(net, top, k);
      }
    } else {
      var m := SomeTop(start, |start.tabs|);
      var top := RunKeepsContested(start, m, run);
      if SomeElection(start, run) {
        SettledAt(net, top, k);
      } else {
        NoElectionMeansQuiet(start, run);
      }
    }
  }

  /** Main result, continued: when its timer fires, the tab with the largest id is the only leader, nothing is
      in flight, and no 500 ms timer still outstanding, at any tab, can promote another one. */
  lemma OneLeaderEmerges(start: Net, run: seq<Event>, top: nat, k: nat)
    requires Quiet(start) && DistinctIds(start) && AllSound(start)
    requires CanRun(start, run) && forall e :: e in run ==> BeforeAnyTimeout(e)
    requires Run(start, run).pending == [] && SomeElection(start, run) && Top(Run(start, run), top)
    requires k < |Run(start, run).tabs|
    ensures CanHappen(Run(start, run), Timer(top, ElectionTimer))
    ensures var net := Next(Run(start, run), Timer(top, ElectionTimer));
            && net.pending == [] && (net.tabs[k].leader <==> k == top)
            && (net.tabs[k].elections > 0 ==> ElectionTimeout(net.tabs[k]).leader == net.tabs[k].leader)
  {
    var net := Run(start, run);
    RunKeepsSound(start, run);
    OnlyTheTopTabCanWin(start, run, top);
    OnlyTheTopTabCanWin(start, run, k);
    RunKeepsDistinct(start, run);
  }

  lemma SettledAt(net: Net, top: nat, k: nat)
    requires Contested(net, top) && Roused(net, top) && net.pending == [] && k < |net.tabs|
    ensures net.tabs[k].electing <==> Top(net, k)
  {
    assert net.tabs[top].electing;
    assert k != top ==> net.tabs[k].id != net.tabs[top].id;
  }

  lemma {:induction false} NoElectionMeansQuiet(net: Net, run: seq<Event>)
    requires Quiet(net) && CanRun(net, run) && !SomeElection(net, run)
    requires forall e :: e in run ==> BeforeAnyTimeout(e)
    ensures Quiet(Run(net, run))
    decreases |run|
  {
    if run != [] {
      assert run[0] in run && run[0].Deliver?;
      DropKeeps(net.pending, run[0].i);
      assert net.pending[run[0].i] in net.pending;
      NoElectionMeansQuiet(Next(net, run[0]), run[1..]);
    }
  }

  // ---------------------------------------------------------------------------------------------
  // Termination: without timers every cascade of messages is finite.
  // ---------------------------------------------------------------------------------------------

  /** How many tabs have a larger id. */
  function Rank(tabs: seq<Tab>, id: Id): nat {
    if tabs == [] then 0 else (if tabs[0].id > id then 1 else 0) + Rank(tabs[1..], id)
  }

  lemma {:induction false} RankBounds(tabs: seq<Tab>, k: nat, id: Id)
    requires k < |tabs|
    ensures Rank(tabs, id) <= |tabs| && Rank(tabs, tabs[k].id) < |tabs|
    ensures id < tabs[k].id ==> Rank(tabs, tabs[k].id) < Rank(tabs, id)
  {
    RankAtMost(tabs[1..], id);
    RankAtMost(tabs[1..], tabs[k].id);
    if k > 0 {
      RankBounds(tabs[1..], k - 1, id);
    } else if id < tabs[0].id {
      RankFalls(tabs[1..], id, tabs[0].id);
    }
  }

  lemma {:induction false} RankAtMost(tabs: seq<Tab>, id: Id)
    ensures Rank(tabs, id) <= |tabs|
  {
    if tabs != [] { RankAtMost(tabs[1..], id); }
  }

  lemma {:induction false} RankFalls(tabs: seq<Tab>, lo: Id, hi: Id)
    requires lo <= hi
    ensures Rank(tabs, hi) <= Rank(tabs, lo)
  {
    if tabs != [] { RankFalls(tabs[1..], lo, hi); }
  }

  lemma {:induction false} RankSame(tabs: seq<Tab>, tabs': seq<Tab>, id: Id)
    requires |tabs| == |tabs'| && forall j :: 0 <= j < |tabs| ==> tabs[j].id == tabs'[j].id
    ensures Rank(tabs, id) == Rank(tabs', id)
  {
    if tabs != [] { RankSame(tabs[1..], tabs'[1..], id); }
  }

  /** A heartbeat spawns nothing; an election spawns elections of larger ids or heartbeats; a resignation
      spawns one round of elections. */
  function Weight(tabs: seq<Tab>, m: Message): nat {
    match m
    case Heartbeat(_) => 1
    case Signal(_) => 1
    case Election(id) => Pow(|tabs|, Rank(tabs, id) + 1)
    case Resign(_) => Pow(|tabs|, |tabs| + 1)
  }

  function Potential(tabs: seq<Tab>, ps: seq<Packet>): nat {
    if ps == [] then 0 else Weight(tabs, ps[0].msg) + Potential(tabs, ps[1..])
  }

  lemma {:induction false} PotentialConcat(tabs: seq<Tab>, ps: seq<Packet>, qs: seq<Packet>)
    ensures Potential(tabs, ps + qs) == Potential(tabs, ps) + Potential(tabs, qs)
  {
    if ps == [] {
      assert ps + qs == qs;
    } else {
      assert (ps + qs)[1..] == ps[1..] + qs;
      PotentialConcat(tabs, ps[1..], qs);
    }
  }

  lemma PotentialDrop(tabs: seq<Tab>, ps: seq<Packet>, i: nat)
    requires i < |ps|
    ensures Potential(tabs, ps) == Weight(tabs, ps[i].msg) + Potential(tabs, Drop(ps, i))
  {
    assert ps == ps[..i] + ([ps[i]] + ps[i + 1..]);
    PotentialConcat(tabs, ps[..i], [ps[i]] + ps[i + 1..]);
    PotentialConcat(tabs, [ps[i]], ps[i + 1..]);
    PotentialConcat(tabs, ps[..i], ps[i + 1..]);
  }

  lemma MulSucc(f: nat, w: nat)
    ensures (f + 1) * w == f * w + w
  {
  }

  lemma Scale(f: nat, a: nat, b: nat)
    requires a <= b
    ensures f * a <= f * b
  {
  }

  lemma {:induction false} PotentialOfCopies(tabs: seq<Tab>, ps: seq<Packet>, m: Message)
    requires forall p :: p in ps ==> p.msg == m
    ensures Potential(tabs, ps) == |ps| * Weight(tabs, m)
  {
    if ps != [] {
      assert ps[0] in ps;
      PotentialOfCopies(tabs, ps[1..], m);
      MulSucc(|ps| - 1, Weight(tabs, m));
    }
  }

  lemma {:induction false} PotentialSame(tabs: seq<Tab>, tabs': seq<Tab>, ps: seq<Packet>)
    requires |tabs| == |tabs'| && forall j :: 0 <= j < |tabs| ==> tabs[j].id == tabs'[j].id
    ensures Potential(tabs, ps) == Potential(tabs', ps)
  {
    if ps != [] {
      if ps[0].msg.Election? { RankSame(tabs, tabs', ps[0].msg.id); }
      PotentialSame(tabs, tabs', ps[1..]);
    }
  }

  /** No packet carries its recipient's own election. */
  ghost predicate NoEcho(net: Net) {
    forall p :: p in net.pending ==> p.to < |net.tabs| && p.msg != Election(net.tabs[p.to].id)
  }

  /** A round of announcements that each weigh at most `b` to the power `r` weighs less than `b` to the
      power `r + 1`, `b` being the number of tabs. */
  lemma RoundIsLighter(tabs: seq<Tab>, k: nat, post: Message, r: nat)
    requires k < |tabs| && Weight(tabs, post) <= Pow(|tabs|, r)
    ensures Potential(tabs, Broadcast(post, k, |tabs|)) < Pow(|tabs|, r + 1)
  {
    var n := |tabs|;
    PotentialOfCopies(tabs, Broadcast(post, k, n), post);
    Scale(n - 1, Weight(tabs, post), Pow(n, r));
    MulSucc(n - 1, Pow(n, r));
  }

  /** A message that makes its recipient post weighs the number of tabs to this power, times that number. */
  function Degree(tabs: seq<Tab>, m: Message): nat {
    if m.Election? then Rank(tabs, m.id) else |tabs|
  }

  lemma AnswerWeighs(tabs: seq<Tab>, k: nat, m: Message)
    requires k < |tabs| && m != Election(tabs[k].id)
    requires HandleMessage(tabs[k], m).post == Some(Election(tabs[k].id))
    ensures Weight(tabs, Election(tabs[k].id)) <= Pow(|tabs|, Degree(tabs, m))
  {
    RankBounds(tabs, k, if m.Election? then m.id else 0);
    PowGrows(|tabs|, Rank(tabs, tabs[k].id) + 1, Degree(tabs, m));
  }

  /** What handling `m` at tab `k` spawns weighs less than `m`. */
  lemma HandlingIsLighter(tabs: seq<Tab>, k: nat, m: Message)
    requires k < |tabs| && m != Election(tabs[k].id)
    ensures Potential(tabs, Posted(HandleMessage(tabs[k], m), k, |tabs|)) < Weight(tabs, m)
  {
    var post := HandleMessage(tabs[k], m).post;
    if post.Some? {
      if post.value.Election? { AnswerWeighs(tabs, k, m); }
      RoundIsLighter(tabs, k, post.value, Degree(tabs, m));
    }
  }

  lemma DeliveryLowersPotential(net: Net, i: nat)
    requires DistinctIds(net) && NoEcho(net) && CanHappen(net, Deliver(i))
    ensures var net' := Next(net, Deliver(i));
            && DistinctIds(net') && NoEcho(net')
            && Potential(net'.tabs, net'.pending) < Potential(net.tabs, net.pending)
  {
    var net' := Next(net, Deliver(i));
    var p := net.pending[i];
    var posted := Posted(HandleMessage(net.tabs[p.to], p.msg), p.to, |net.tabs|);
    assert p in net.pending;
    DropKeeps(net.pending, i);
    HandlingIsLighter(net.tabs, p.to, p.msg);
    PotentialDrop(net.tabs, net.pending, i);
    PotentialConcat(net.tabs, Drop(net.pending, i), posted);
    PotentialSame(net.tabs, net'.tabs, net'.pending);
  }

  /** Main result: a run of deliveries alone, in any order, is no longer than the potential it starts with. */
  lemma {:induction false} CascadesAreFinite(net: Net, run: seq<Event>)
    requires DistinctIds(net) && NoEcho(net) && CanRun(net, run) && forall e :: e in run ==> e.Deliver?
    ensures |run| + Potential(Run(net, run).tabs, Run(net, run).pending) <= Potential(net.tabs, net.pending)
    decreases |run|
  {
    if run != [] {
      assert run[0] in run;
      DeliveryLowersPotential(net, run[0].i);
      CascadesAreFinite(Next(net, run[0]), run[1..]);
    }
  }

  /** So delivering for as long as anything is in flight empties the channel. */
  lemma {:induction false} EveryCascadeDrains(net: Net) returns (run: seq<Event>)
    requires DistinctIds(net) && NoEcho(net)
    ensures CanRun(net, run) && (forall e :: e in run ==> e.Deliver?) && Run(net, run).pending == []
    decreases Potential(net.tabs, net.pending)
  {
    run := [];
    if net.pending != [] {
      assert net.pending[0] in net.pending;
      DeliveryLowersPotential(net, 0);
      var rest := EveryCascadeDrains(Next(net, Deliver(0)));
      run := [Deliver(0)] + rest;
      assert run[1..] == rest;
    }
  }

  lemma DeliverKeepsNoEcho(net: Net, i: nat)
    requires DistinctIds(net) && NoEcho(net) && CanHappen(net, Deliver(i))
    ensures NoEcho(Next(net, Deliver(i)))
  {
    DropKeeps(net.pending, i);
  }

  lemma CloseKeepsNoEcho(net: Net, k: nat)
    requires NoEcho(net) && CanHappen(net, Close(k))
    ensures NoEcho(Next(net, Close(k)))
  {
    var net' := Next(net, Close(k));
    ClosingMovesUp(net, k);
    forall q | q in net'.pending ensures q.to < |net'.tabs| && q.msg != Election(net'.tabs[q.to].id) {
      ForgetKeeps(net.pending + Posted(Destroy(net.tabs[k]), k, |net.tabs|), k, q);
    }
  }

  lemma NextKeepsNoEcho(net: Net, e: Event)
    requires DistinctIds(net) && NoEcho(net) && CanHappen(net, e)
    ensures NoEcho(Next(net, e))
  {
    match e
    case Deliver(i) => DeliverKeepsNoEcho(net, i);
    case Timer(_, _) =>
    case Join(_) =>
    case Close(k) => CloseKeepsNoEcho(net, k);
  }

  /** The condition of the termination results holds in every run, whatever else happens, from any channel where it
      holds; so from the empty one. */
  lemma {:induction false} RunKeepsNoEcho(net: Net, run: seq<Event>)
    requires DistinctIds(net) && NoEcho(net) && CanRun(net, run)
    ensures DistinctIds(Run(net, run)) && NoEcho(Run(net, run))
    decreases |run|
  {
    if run != [] {
      NextKeepsDistinct(net, run[0]);
      NextKeepsNoEcho(net, run[0]);
      RunKeepsNoEcho(Next(net, run[0]), run[1..]);
    }
  }

  // ---------------------------------------------------------------------------------------------
  // How many leaders there are.
  // ---------------------------------------------------------------------------------------------

  ghost predicate AtMostOneLeader(net: Net) {
    forall i, j :: 0 <= i < j < |net.tabs| ==> !(net.tabs[i].leader && net.tabs[j].leader)
  }

  /** The 500 ms timer fires at an electing tab. */
  predicate Promotes(net: Net, e: Event) {
    e.Timer? && e.input.ElectionTimer? && e.k < |net.tabs| && net.tabs[e.k].electing
  }

  /** It does so while another tab leads. */
  ghost predicate SecondPromotion(net: Net, e: Event) {
    Promotes(net, e) && exists j :: 0 <= j < |net.tabs| && j != e.k && net.tabs[j].leader
  }

  /** Only a promotion makes a leader. */
  lemma LeadersArePromoted(net: Net, e: Event)
    requires AllSound(net) && CanHappen(net, e) && !e.Close?
    ensures var net' := Next(net, e);
            && |net'.tabs| >= |net.tabs|
            && forall j :: 0 <= j < |net'.tabs| && net'.tabs[j].leader ==>
                 (j < |net.tabs| && net.tabs[j].leader) || (Promotes(net, e) && j == e.k)
  {
  }

  /** At most one leader becomes two exactly by a promotion while another tab leads. */
  lemma SecondPromotionMakesTwo(net: Net, e: Event)
    requires AllSound(net) && CanHappen(net, e) && AtMostOneLeader(net)
    ensures AtMostOneLeader(Next(net, e)) <==> !SecondPromotion(net, e)
  {
    if e.Close? {
      ClosingMovesUp(net, e.k);
    } else {
      LeadersArePromoted(net, e);
      if SecondPromotion(net, e) {
        var j :| 0 <= j < |net.tabs| && j != e.k && net.tabs[j].leader;
        assert Next(net, e).tabs[j].leader && Next(net, e).tabs[e.k].leader;
      }
    }
  }

  ghost predicate AlwaysOneLeader(net: Net, run: seq<Event>)
    requires CanRun(net, run)
    decreases |run|
  {
    AtMostOneLeader(net) && (run != [] ==> AlwaysOneLeader(Next(net, run[0]), run[1..]))
  }

  ghost predicate SomeSecondPromotion(net: Net, run: seq<Event>)
    requires CanRun(net, run)
    decreases |run|
  {
    run != [] && (SecondPromotion(net, run[0]) || SomeSecondPromotion(Next(net, run[0]), run[1..]))
  }

  /** Main result: there is at most one leader in every state of a run exactly when no step of it promotes a tab while
      another one leads. */
  lemma {:induction false} OneLeaderUnlessSecondPromotion(net: Net, run: seq<Event>)
    requires AllSound(net) && AtMostOneLeader(net) && CanRun(net, run)
    ensures AlwaysOneLeader(net, run) <==> !SomeSecondPromotion(net, run)
    decreases |run|
  {
    if run != [] {
      NextKeepsSound(net, run[0]);
      SecondPromotionMakesTwo(net, run[0]);
      if !SecondPromotion(net, run[0]) {
        OneLeaderUnlessSecondPromotion(Next(net, run[0]), run[1..]);
      }
    }
  }

  // ---------------------------------------------------------------------------------------------
  // Convergence: several leaders give way to the one with the largest id.
  // ---------------------------------------------------------------------------------------------

  predicate LeaderCloses(net: Net, e: Event) {
    e.Close? && e.k < |net.tabs| && net.tabs[e.k].leader
  }

  /** No tab is promoted and no leader closes; others may join and close, and idle 500 ms timers may fire. */
  predicate Steady(net: Net, e: Event) {
    !LeaderCloses(net, e) && !Promotes(net, e)
  }

  ghost predicate WithoutPromotion(net: Net, run: seq<Event>)
    requires CanRun(net, run)
    decreases |run|
  {
    run != [] ==> Steady(net, run[0]) && WithoutPromotion(Next(net, run[0]), run[1..])
  }

  /** The tab with this id is on the channel and leads. */
  ghost predicate Leads(net: Net, id: Id) {
    exists k :: 0 <= k < |net.tabs| && net.tabs[k].id == id && net.tabs[k].leader
  }

  ghost predicate TopLeader(net: Net, top: Id) {
    Leads(net, top) && forall id :: Leads(net, id) ==> id <= top
  }

  /** The packet is for the tab with this id. */
  predicate IsFor(net: Net, p: Packet, id: Id) {
    p.to < |net.tabs| && net.tabs[p.to].id == id
  }

  /** A heartbeat of a larger id than `top` is on its way to the tab `top`: it comes from a former leader. */
  ghost predicate StaleHeartbeat(net: Net, top: Id) {
    exists p :: p in net.pending && IsFor(net, p, top) && p.msg.Heartbeat? && p.msg.id > top
  }

  /** In the run, a heartbeat of the tab `top` is delivered to the tab `id`, or that tab closes. */
  ghost predicate Heard(net: Net, run: seq<Event>, top: Id, id: Id)
    requires CanRun(net, run)
    decreases |run|
  {
    run != [] && (
      || (run[0].Deliver? && net.pending[run[0].i].msg == Heartbeat(top) && IsFor(net, net.pending[run[0].i], id))
      || (run[0].Close? && net.tabs[run[0].k].id == id)
      || Heard(Next(net, run[0]), run[1..], top, id))
  }

  /** The tab with this id receives the heartbeat of a larger one. */
  predicate HearsLarger(net: Net, e: Event, id: Id)
    requires CanHappen(net, e)
  {
    e.Deliver? && IsFor(net, net.pending[e.i], id) && net.pending[e.i].msg.Heartbeat? && net.pending[e.i].msg.id > id
  }

  /** A tab other than the one that closes has its place afterwards. */
  function PlaceAfter(e: Event, k: nat): nat {
    if e.Close? && e.k < k then k - 1 else k
  }

  lemma TabsStay(net: Net, e: Event, k: nat)
    requires CanHappen(net, e) && k < |net.tabs| && e != Close(k)
    ensures PlaceAfter(e, k) < |Next(net, e).tabs| && Next(net, e).tabs[PlaceAfter(e, k)].id == net.tabs[k].id
    ensures net.tabs[k].leader && !HearsLarger(net, e, net.tabs[k].id) ==> Next(net, e).tabs[PlaceAfter(e, k)].leader
  {
    if e.Close? { ClosingMovesUp(net, e.k); }
  }

  /** A leader that stays open leads on unless it hears a larger one. */
  lemma LeadersStay(net: Net, e: Event, id: Id)
    requires CanHappen(net, e) && !LeaderCloses(net, e) && Leads(net, id) && !HearsLarger(net, e, id)
    ensures Leads(Next(net, e), id)
  {
    var k :| 0 <= k < |net.tabs| && net.tabs[k].id == id && net.tabs[k].leader;
    TabsStay(net, e, k);
  }

  lemma LeaderLedBefore(net: Net, e: Event, k: nat)
    requires CanHappen(net, e) && Steady(net, e) && !e.Close?
    requires k < |Next(net, e).tabs| && Next(net, e).tabs[k].leader
    ensures k < |net.tabs| && net.tabs[k].leader && net.tabs[k].id == Next(net, e).tabs[k].id
    ensures !(e.Deliver? && net.pending[e.i].to == k && HearsLarger(net, e, net.tabs[k].id))
  {
  }

  lemma NobodyStartsToLead(net: Net, e: Event, id: Id)
    requires DistinctIds(net) && CanHappen(net, e) && Steady(net, e) && Leads(Next(net, e), id)
    ensures Leads(net, id) && !HearsLarger(net, e, id)
  {
    var k :| 0 <= k < |Next(net, e).tabs| && Next(net, e).tabs[k].id == id && Next(net, e).tabs[k].leader;
    if e.Close? {
      ClosingMovesUp(net, e.k);
      assert net.tabs[Formerly(k, e.k)].id == id && net.tabs[Formerly(k, e.k)].leader;
    } else {
      LeaderLedBefore(net, e, k);
    }
  }

  /** Without promotions, and with followers closing and tabs joining, nobody becomes a leader and only a larger
      heartbeat ends leadership. */
  lemma LeadersOnlyStepDown(net: Net, e: Event, id: Id)
    requires DistinctIds(net) && CanHappen(net, e) && Steady(net, e)
    ensures Leads(Next(net, e), id) <==> Leads(net, id) && !HearsLarger(net, e, id)
  {
    if Leads(Next(net, e), id) { NobodyStartsToLead(net, e, id); }
    if Leads(net, id) && !HearsLarger(net, e, id) { LeadersStay(net, e, id); }
  }

  lemma {:induction false} FollowersStayFollowers(net: Net, run: seq<Event>, id: Id)
    requires DistinctIds(net) && CanRun(net, run) && WithoutPromotion(net, run) && !Leads(net, id)
    ensures !Leads(Run(net, run), id)
    decreases |run|
  {
    if run != [] {
      LeadersOnlyStepDown(net, run[0], id);
      NextKeepsDistinct(net, run[0]);
      FollowersStayFollowers(Next(net, run[0]), run[1..], id);
    }
  }

  lemma OnlyOneTabHasIt(net: Net, k: nat)
    requires DistinctIds(net) && k < |net.tabs| && !net.tabs[k].leader
    ensures !Leads(net, net.tabs[k].id)
  {
  }

  lemma {:induction false} HearingAnOlderLeaderDemotes(net: Net, run: seq<Event>, top: Id, id: Id)
    requires DistinctIds(net) && CanRun(net, run) && WithoutPromotion(net, run)
    requires id < top && Heard(net, run, top, id)
    ensures !Leads(Run(net, run), id)
    decreases |run|
  {
    LeadersOnlyStepDown(net, run[0], id);
    NextKeepsDistinct(net, run[0]);
    if HearsLarger(net, run[0], id) {
      FollowersStayFollowers(Next(net, run[0]), run[1..], id);
    } else if run[0].Close? && net.tabs[run[0].k].id == id {
      OnlyOneTabHasIt(net, run[0].k);
      FollowersStayFollowers(net, run, id);
    } else {
      HearingAnOlderLeaderDemotes(Next(net, run[0]), run[1..], top, id);
    }
  }

  /** Whoever beats in a step leads, before and after it. */
  lemma NewHeartbeatsAreLeaders(net: Net, e: Event, p: Packet)
    requires AllSound(net) && CanHappen(net, e) && !e.Close?
    requires p in Next(net, e).pending && p !in net.pending && p.msg.Heartbeat?
    ensures Leads(net, p.msg.id) && Leads(Next(net, e), p.msg.id)
  {
    match e
    case Deliver(i) =>
      var k := net.pending[i].to;
      DropKeeps(net.pending, i);
      ReactKeepsSound(net.tabs[k], Receive(net.pending[i].msg));
      assert net.tabs[k].leader && net.tabs[k].id == p.msg.id && Next(net, e).tabs[k] == net.tabs[k];
    case Timer(k, input) =>
      ReactKeepsSound(net.tabs[k], input);
      assert net.tabs[k].leader && net.tabs[k].id == p.msg.id && Next(net, e).tabs[k] == net.tabs[k];
    case Join(_) =>
  }

  /** What is in flight when a follower has closed was in flight before. */
  lemma ClosingFollowerPostsNothing(net: Net, k: nat, p: Packet)
    requires CanHappen(net, Close(k)) && !net.tabs[k].leader
    ensures p in Next(net, Close(k)).pending <==> Packet(p.msg, Formerly(p.to, k)) in net.pending
  {
    ForgetKeeps(net.pending, k, p);
    assert net.pending + [] == net.pending;
  }

  /** A heartbeat above every leader is no new one. */
  lemma LargeHeartbeatsAreOld(net: Net, e: Event, top: Id, p: Packet)
    requires AllSound(net) && CanHappen(net, e) && Steady(net, e) && TopLeader(net, top)
    requires p in Next(net, e).pending && IsFor(Next(net, e), p, top) && p.msg.Heartbeat? && p.msg.id > top
    requires DistinctIds(net)
    ensures StaleHeartbeat(net, top)
  {
    if e.Close? {
      ClosingFollowerPostsNothing(net, e.k, p);
      ClosingMovesUp(net, e.k);
      assert IsFor(net, Packet(p.msg, Formerly(p.to, e.k)), top);
    } else {
      if p !in net.pending { NewHeartbeatsAreLeaders(net, e, p); }
      var k :| 0 <= k < |net.tabs| && net.tabs[k].id == top && net.tabs[k].leader;
      TabsStay(net, e, k);
      NextKeepsDistinct(net, e);
      assert p.to == k;
    }
  }

  lemma NoNewStaleHeartbeat(net: Net, e: Event, top: Id)
    requires TopLeader(net, top) && !StaleHeartbeat(net, top) && CanHappen(net, e) && Steady(net, e)
    requires AllSound(net) && DistinctIds(net)
    ensures TopLeader(Next(net, e), top) && !StaleHeartbeat(Next(net, e), top)
  {
    var net' := Next(net, e);
    if e.Deliver? { assert net.pending[e.i] in net.pending; }
    LeadersOnlyStepDown(net, e, top);
    forall id | Leads(net', id) ensures id <= top {
      LeadersOnlyStepDown(net, e, id);
    }
    forall p | p in net'.pending && IsFor(net', p, top) && p.msg.Heartbeat? ensures p.msg.id <= top {
      if p.msg.id > top { LargeHeartbeatsAreOld(net, e, top, p); }
    }
  }

  lemma {:induction false} TopLeaderSurvives(net: Net, run: seq<Event>, top: Id)
    requires TopLeader(net, top) && !StaleHeartbeat(net, top)
    requires AllSound(net) && DistinctIds(net)
    requires CanRun(net, run) && WithoutPromotion(net, run)
    ensures Leads(Run(net, run), top)
    decreases |run|
  {
    if run != [] {
      NoNewStaleHeartbeat(net, run[0], top);
      NextKeepsSound(net, run[0]);
      NextKeepsDistinct(net, run[0]);
      TopLeaderSurvives(Next(net, run[0]), run[1..], top);
    }
  }

  /** A packet stays in flight until it is delivered or its recipient closes. */
  lemma PacketsStay(net: Net, e: Event, p: Packet)
    requires CanHappen(net, e) && !LeaderCloses(net, e) && p in net.pending && p.to < |net.tabs|
    requires e.Deliver? ==> net.pending[e.i] != p
    requires e != Close(p.to)
    ensures Packet(p.msg, PlaceAfter(e, p.to)) in Next(net, e).pending
  {
    match e
    case Deliver(i) => DropKeeps(net.pending, i);
    case Close(k) => ClosingFollowerPostsNothing(net, k, Packet(p.msg, PlaceAfter(e, p.to)));
    case _ =>
  }

  lemma {:induction false} StaleHeartbeatDemotes(net: Net, run: seq<Event>, top: Id)
    requires DistinctIds(net) && StaleHeartbeat(net, top)
    requires CanRun(net, run) && WithoutPromotion(net, run) && Run(net, run).pending == []
    ensures !Leads(Run(net, run), top)
    decreases |run|
  {
    var p :| p in net.pending && IsFor(net, p, top) && p.msg.Heartbeat? && p.msg.id > top;
    LeadersOnlyStepDown(net, run[0], top);
    NextKeepsDistinct(net, run[0]);
    if run[0].Deliver? && net.pending[run[0].i] == p {
      FollowersStayFollowers(Next(net, run[0]), run[1..], top);
    } else if run[0] == Close(p.to) {
      OnlyOneTabHasIt(net, p.to);
      FollowersStayFollowers(net, run, top);
    } else {
      PacketsStay(net, run[0], p);
      TabsStay(net, run[0], p.to);
      assert IsFor(Next(net, run[0]), Packet(p.msg, PlaceAfter(run[0], p.to)), top);
      StaleHeartbeatDemotes(Next(net, run[0]), run[1..], top);
    }
  }

  /** Let every other leader hear the leader with the largest id, and deliver everything in any order, with tabs joining
      and followers closing but no promotion meanwhile. No other leader is left, and that one is left exactly when
      no heartbeat of a former leader with a larger id was on its way to it. */
  lemma LeadersConverge(net: Net, run: seq<Event>, top: Id, id: Id)
    requires TopLeader(net, top) && DistinctIds(net)
    requires AllSound(net)
    requires CanRun(net, run) && WithoutPromotion(net, run) && Run(net, run).pending == []
    requires forall other :: Leads(net, other) && other != top ==> Heard(net, run, top, other)
    ensures Leads(Run(net, run), id) <==> id == top && !StaleHeartbeat(net, top)
  {
    if id == top {
      if StaleHeartbeat(net, top) {
        StaleHeartbeatDemotes(net, run, top);
      } else {
        TopLeaderSurvives(net, run, top);
      }
    } else if Leads(net, id) {
      HearingAnOlderLeaderDemotes(net, run, top, id);
    } else {
      FollowersStayFollowers(net, run, id);
    }
  }

  /** Some leader has at least this id. */
  ghost predicate Backed(net: Net, id: Id) {
    exists top :: Leads(net, top) && id <= top
  }

  /** Every heartbeat in flight is a current leader's, or yields to one. */
  ghost predicate HeartbeatsAreBacked(net: Net) {
    forall p :: p in net.pending && p.msg.Heartbeat? ==> Backed(net, p.msg.id)
  }

  /** A leader gives way only to a larger one. */
  lemma StaysBacked(net: Net, e: Event, id: Id)
    requires HeartbeatsAreBacked(net) && CanHappen(net, e) && !LeaderCloses(net, e)
    requires Backed(net, id)
    ensures Backed(Next(net, e), id)
  {
    var top :| Leads(net, top) && id <= top;
    if HearsLarger(net, e, top) {
      assert net.pending[e.i] in net.pending;
      var larger :| Leads(net, larger) && net.pending[e.i].msg.id <= larger;
      LeadersStay(net, e, larger);
    } else {
      LeadersStay(net, e, top);
    }
  }

  lemma NextKeepsBacked(net: Net, e: Event)
    requires AllSound(net) && HeartbeatsAreBacked(net) && CanHappen(net, e) && !LeaderCloses(net, e)
    ensures HeartbeatsAreBacked(Next(net, e))
  {
    forall p | p in Next(net, e).pending && p.msg.Heartbeat? ensures Backed(Next(net, e), p.msg.id) {
      if e.Close? {
        ClosingFollowerPostsNothing(net, e.k, p);
        assert Backed(net, Packet(p.msg, Formerly(p.to, e.k)).msg.id);
        StaysBacked(net, e, p.msg.id);
      } else if p in net.pending {
        StaysBacked(net, e, p.msg.id);
      } else {
        NewHeartbeatsAreLeaders(net, e, p);
      }
    }
  }

  /** No leader closes; other tabs may. */
  ghost predicate LeadersStayOpen(net: Net, run: seq<Event>)
    requires CanRun(net, run)
    decreases |run|
  {
    run != [] ==> !LeaderCloses(net, run[0]) && LeadersStayOpen(Next(net, run[0]), run[1..])
  }

  lemma {:induction false} RunKeepsBacked(net: Net, run: seq<Event>)
    requires AllSound(net) && HeartbeatsAreBacked(net) && CanRun(net, run) && LeadersStayOpen(net, run)
    ensures HeartbeatsAreBacked(Run(net, run))
    decreases |run|
  {
    if run != [] {
      NextKeepsSound(net, run[0]);
      NextKeepsBacked(net, run[0]);
      RunKeepsBacked(Next(net, run[0]), run[1..]);
    }
  }

  lemma BackedIsNotStale(net: Net, top: Id)
    requires TopLeader(net, top) && HeartbeatsAreBacked(net)
    ensures !StaleHeartbeat(net, top)
  {
    forall p | p in net.pending && p.msg.Heartbeat? ensures p.msg.id <= top {
      assert Backed(net, p.msg.id);
    }
  }

  /** Main result: on a channel that has grown from the empty one without a leader closing, however many leaders there
      are, once each other one has heard the largest and everything is delivered, with tabs joining and followers
      closing but no promotion meanwhile, exactly the largest is left. */
  lemma ReachableLeadersConverge(before: seq<Event>, run: seq<Event>, top: Id, id: Id)
    requires CanRun(Net([], []), before) && LeadersStayOpen(Net([], []), before)
    requires var net := Run(Net([], []), before);
             && TopLeader(net, top)
             && CanRun(net, run) && WithoutPromotion(net, run) && Run(net, run).pending == []
             && (forall other :: Leads(net, other) && other != top ==> Heard(net, run, top, other))
    ensures Leads(Run(Run(Net([], []), before), run), id) <==> id == top
  {
    var net := Run(Net([], []), before);
    RunKeepsSound(Net([], []), before);
    RunKeepsDistinct(Net([], []), before);
    RunKeepsBacked(Net([], []), before);
    BackedIsNotStale(net, top);
    LeadersConverge(net, run, top, id);
  }

  /** A leader that hears of an election, whoever's it is, or whose heartbeat timer fires, tells every other tab that it
      leads, and leads on. */
  lemma LeadersTellEverybody(net: Net, e: Event, k: nat, y: nat)
    requires AllSound(net) && CanHappen(net, e) && k < |net.tabs| && net.tabs[k].leader && y < |net.tabs| && y != k
    requires (e.Deliver? && net.pending[e.i].to == k && net.pending[e.i].msg.Election?)
          || (e.Timer? && e.k == k && e.input.HeartbeatTimer?)
    ensures InFlight(Next(net, e), Heartbeat(net.tabs[k].id), y)
    ensures k < |Next(net, e).tabs| && Next(net, e).tabs[k] == net.tabs[k]
  {
    assert Packet(Heartbeat(net.tabs[k].id), y) in Broadcast(Heartbeat(net.tabs[k].id), k, |net.tabs|);
  }

  /** Its heartbeat timer can fire for as long as it leads. */
  lemma LeadersCanBeat(net: Net, k: nat) returns (e: Event)
    requires AllSound(net) && k < |net.tabs| && net.tabs[k].leader
    ensures CanHappen(net, e) && e.Timer? && e.k == k && e.input.HeartbeatTimer?
  {
    assert Sound(net.tabs[k]);
    e := Timer(k, HeartbeatTimer(net.tabs[k].heartbeatInterval.value));
  }

  /** A leader that closes leaves its resignation to every other tab. */
  lemma LeadersResign(net: Net, k: nat, y: nat)
    requires CanHappen(net, Close(k)) && net.tabs[k].leader && y < |net.tabs| && y != k
    ensures InFlight(Next(net, Close(k)), Resign(net.tabs[k].id), PlaceAfter(Close(k), y))
  {
    var posted := Broadcast(Resign(net.tabs[k].id), k, |net.tabs|);
    assert Packet(Resign(net.tabs[k].id), y) in posted;
    ForgetKeeps(net.pending + posted, k, Packet(Resign(net.tabs[k].id), PlaceAfter(Close(k), y)));
  }

  /** A follower that hears a resignation announces an election to all the others. */
  lemma ResignationsAreAnswered(net: Net, i: nat, y: nat)
    requires CanHappen(net, Deliver(i)) && net.pending[i].msg.Resign? && y < |net.tabs| && y != net.pending[i].to
    requires !net.tabs[net.pending[i].to].leader
    ensures InFlight(Next(net, Deliver(i)), Election(net.tabs[net.pending[i].to].id), y)
    ensures Next(net, Deliver(i)).tabs[net.pending[i].to].electing
  {
    AnnouncementsAreInFlight(net, i, y);
  }

  lemma {:induction false} RunThen(net: Net, run: seq<Event>, e: Event)
    requires CanRun(net, run) && CanHappen(Run(net, run), e)
    ensures CanRun(net, run + [e]) && Run(net, run + [e]) == Next(Run(net, run), e)
    decreases |run|
  {
    if run == [] {
      assert (run + [e])[1..] == [];
    } else {
      assert (run + [e])[1..] == run[1..] + [e];
      RunThen(Next(net, run[0]), run[1..], e);
    }
  }

  lemma FirstTabLeads() returns (run: seq<Event>)
    ensures CanRun(Net([], []), run)
    ensures var net := Run(Net([], []), run);
            |net.tabs| == 1 && net.pending == [] && net.tabs[0].id == 1 && net.tabs[0].leader
  {
    var empty := Net([], []);
    assert Broadcast(Election(1), 0, 1) == [];
    RunThen(empty, [], Join(1));
    RunThen(empty, [] + [Join(1)], Timer(0, ElectionTimer));
    run := [] + [Join(1)] + [Timer(0, ElectionTimer)];
  }

  /** With two tabs, a broadcast is one packet. */
  lemma OneRecipient(m: Message)
    ensures Broadcast(m, 0, 2) == [Packet(m, 1)] && Broadcast(m, 1, 2) == [Packet(m, 0)]
  {
    assert Broadcast(m, 0, 2) == Broadcast(m, 0, 1) + [Packet(m, 1)];
    assert Broadcast(m, 1, 2) == Broadcast(m, 1, 1);
    assert Broadcast(m, 0, 1) == [] && Broadcast(m, 1, 1) == [Packet(m, 0)];
  }

  /** A leader with id 1 and a newcomer with id 0 whose ELECTION is on its way to the leader. */
  ghost predicate NewcomerMet(net: Net) {
    && |net.tabs| == 2 && AllSound(net)
    && net.tabs[0].id == 1 && net.tabs[0].leader
    && net.tabs[1].id == 0 && !net.tabs[1].leader && net.tabs[1].electing && net.tabs[1].elections == 1
  }

  lemma NewcomerMeetsLeader() returns (run: seq<Event>)
    ensures CanRun(Net([], []), run)
    ensures NewcomerMet(Run(Net([], []), run)) && Run(Net([], []), run).pending == [Packet(Election(0), 0)]
  {
    var first := FirstTabLeads();
    OneRecipient(Election(0));
    RunThen(Net([], []), first, Join(0));
    run := first + [Join(0)];
    RunKeepsSound(Net([], []), run);
  }

  /** The leader answers with its heartbeat, which does not cancel the newcomer's election. */
  lemma LeaderAnswers(net: Net)
    requires NewcomerMet(net) && net.pending == [Packet(Election(0), 0)]
    ensures CanHappen(net, Deliver(0)) && CanHappen(Next(net, Deliver(0)), Deliver(0))
    ensures var heard := Next(Next(net, Deliver(0)), Deliver(0)); NewcomerMet(heard) && heard.pending == []
  {
    OneRecipient(Heartbeat(1));
    var answered := Next(net, Deliver(0));
    assert answered.pending == [Packet(Heartbeat(1), 1)];
    assert answered.tabs[0] == net.tabs[0] && answered.tabs[1] == net.tabs[1];
    NextKeepsSound(net, Deliver(0));
    NextKeepsSound(answered, Deliver(0));
  }

  lemma NewcomerIsPromoted(net: Net)
    requires NewcomerMet(net)
    ensures SecondPromotion(net, Timer(1, ElectionTimer)) && CanHappen(net, Timer(1, ElectionTimer))
    ensures var net' := Next(net, Timer(1, ElectionTimer));
            |net'.tabs| == 2 && net'.tabs[0].leader && net'.tabs[1].leader && net'.pending == net.pending
  {
  }

  /** Two leaders at once do occur: the last step of this run is a promotion while another tab leads. */
  lemma TwoLeadersAreReachable() returns (run: seq<Event>)
    ensures CanRun(Net([], []), run) && SomeSecondPromotion(Net([], []), run)
    ensures var net := Run(Net([], []), run);
            |net.tabs| == 2 && net.tabs[0].leader && net.tabs[1].leader && net.pending == []
  {
    var empty := Net([], []);
    run := NewcomerMeetsLeader();
    LeaderAnswers(Run(empty, run));
    RunThen(empty, run, Deliver(0));
    run := run + [Deliver(0)];
    RunThen(empty, run, Deliver(0));
    run := run + [Deliver(0)];
    NewcomerIsPromoted(Run(empty, run));
    RunThen(empty, run, Timer(1, ElectionTimer));
    SecondPromotionAtTheEnd(empty, run, Timer(1, ElectionTimer));
    run := run + [Timer(1, ElectionTimer)];
  }

  lemma {:induction false} SecondPromotionAtTheEnd(net: Net, run: seq<Event>, e: Event)
    requires CanRun(net, run) && CanRun(net, run + [e]) && SecondPromotion(Run(net, run), e)
    ensures SomeSecondPromotion(net, run + [e])
    decreases |run|
  {
    if run != [] {
      assert (run + [e])[1..] == run[1..] + [e];
      SecondPromotionAtTheEnd(Next(net, run[0]), run[1..], e);
    }
  }

  /** The leader of that encounter beats. */
  lemma LeaderBeats(net: Net) returns (e: Event)
    requires NewcomerMet(net)
    ensures CanHappen(net, e) && Next(net, e) == Net(net.tabs, net.pending + [Packet(Heartbeat(1), 1)])
  {
    assert Sound(net.tabs[0]);
    e := Timer(0, HeartbeatTimer(net.tabs[0].heartbeatInterval.value));
    OneRecipient(Heartbeat(1));
    assert net.tabs[0 := net.tabs[0]] == net.tabs;
  }

  /** Then it closes, which leaves the newcomer with the heartbeat and the resignation. */
  lemma LeaderLeaves(net: Net)
    requires NewcomerMet(net) && net.pending == [Packet(Election(0), 0), Packet(Heartbeat(1), 1)]
    ensures Next(net, Close(0)) == Net([net.tabs[1]], [Packet(Heartbeat(1), 0), Packet(Resign(1), 0)])
  {
    OneRecipient(Resign(1));
    ForgetTheFirst(Packet(Election(0), 0), Heartbeat(1), Resign(1));
    assert net.pending + [Packet(Resign(1), 1)] == [Packet(Election(0), 0), Packet(Heartbeat(1), 1), Packet(Resign(1), 1)];
    assert Drop(net.tabs, 0) == [net.tabs[1]];
  }

  lemma ForgetTheFirst(lost: Packet, a: Message, b: Message)
    requires lost.to == 0
    ensures Forget([lost, Packet(a, 1), Packet(b, 1)], 0) == [Packet(a, 0), Packet(b, 0)]
  {
    var ps := [lost, Packet(a, 1), Packet(b, 1)];
    assert ps[1..] == [Packet(a, 1), Packet(b, 1)] && ps[1..][1..] == [Packet(b, 1)];
    assert Forget(ps[1..][1..], 0) == [Packet(b, 0)];
    assert Forget(ps[1..], 0) == [Packet(a, 0), Packet(b, 0)];
  }

  lemma SuccessorIsDemoted(net: Net)
    requires |net.tabs| == 1 && net.tabs[0].id == 0 && net.tabs[0].electing && net.tabs[0].elections == 1
    requires net.pending == [Packet(Heartbeat(1), 0), Packet(Resign(1), 0)]
    ensures CanHappen(net, Timer(0, ElectionTimer))
    ensures var led := Next(net, Timer(0, ElectionTimer));
            && TopLeader(led, 0) && StaleHeartbeat(led, 0)
            && CanHappen(led, Deliver(0)) && Leaderless(Next(led, Deliver(0)))
  {
    var led := Next(net, Timer(0, ElectionTimer));
    assert led.pending == net.pending && led.tabs[0].id == 0 && led.tabs[0].leader;
    assert net.pending[0] in net.pending && IsFor(led, net.pending[0], 0);
  }

  /** A leader that closes can leave a heartbeat behind that demotes the only leader left. */
  lemma ClosedLeaderDemotesItsSuccessor() returns (run: seq<Event>)
    ensures CanRun(Net([], []), run)
    ensures var net := Run(Net([], []), run);
            && TopLeader(net, 0) && StaleHeartbeat(net, 0)
            && CanHappen(net, Deliver(0)) && Leaderless(Next(net, Deliver(0)))
  {
    var empty := Net([], []);
    run := NewcomerMeetsLeader();
    var beat := LeaderBeats(Run(empty, run));
    RunThen(empty, run, beat);
    run := run + [beat];
    LeaderLeaves(Run(empty, run));
    RunThen(empty, run, Close(0));
    run := run + [Close(0)];
    SuccessorIsDemoted(Run(empty, run));
    RunThen(empty, run, Timer(0, ElectionTimer));
    run := run + [Timer(0, ElectionTimer)];
  }
}
