/** The in-process cache, packages/redis/src/l1Cache.ts.

    A JavaScript Map is a sequence of entries with distinct keys: setting a present key keeps its place,
    a new key goes to the end (ECMA-262, section 24.1.3.9). Times are in milliseconds.
  */
module MemoryCaches {
  import opened Arithmetic
  import opened Options
  import opened Sequences

  datatype Entry<V> = Entry(key: string, value: V, expiry: int)

  ghost predicate DistinctKeys<V>(c: seq<Entry<V>>) {
    forall i, j :: 0 <= i < j < |c| ==> c[i].key != c[j].key
  }

  predicate Has<V>(c: seq<Entry<V>>, key: string) {
    exists i :: 0 <= i < |c| && c[i].key == key
  }

  /** The place of a key; the length if it is absent. */
  function IndexOf<V>(c: seq<Entry<V>>, key: string): (i: nat)
    ensures i <= |c| && (i < |c| <==> Has(c, key))
    ensures i < |c| ==> c[i].key == key
  {
    if c == [] then 0
    else if c[0].key == key then 0
    else
      var i := IndexOf(c[1..], key);
      assert i < |c| - 1 ==> c[1..][i] == c[i + 1];
      assert forall j :: 0 < j < |c| ==> c[j] == c[1..][j - 1];
      1 + i
  }

  function RemoveAt<V>(c: seq<Entry<V>>, i: nat): seq<Entry<V>> {
    if i < |c| then Drop(c, i) else c
  }

  function Remove<V>(c: seq<Entry<V>>, key: string): seq<Entry<V>> {
    RemoveAt(c, IndexOf(c, key))
  }

  function Put<V>(c: seq<Entry<V>>, e: Entry<V>): seq<Entry<V>> {
    var i := IndexOf(c, e.key);
    if i < |c| then c[i := e] else c + [e]
  }

  /** At capacity the first entry goes, unless its key is the empty string, which is falsy. */
  function Evict<V>(c: seq<Entry<V>>, maxSize: int): seq<Entry<V>> {
    if |c| >= maxSize && c != [] && c[0].key != "" then c[1..] else c
  }

  function Unexpired<V>(c: seq<Entry<V>>, now: int): seq<Entry<V>> {
    if c == [] then []
    else (if now > c[0].expiry then [] else [c[0]]) + Unexpired(c[1..], now)
  }

  datatype Operation<V> =
    | Set(key: string, value: V, ttlSeconds: int)
    | Get(key: string)
    | Del(key: string)
    | Clear
    | Cleanup

  datatype Event<V> = At(now: int, op: Operation<V>)

  function Next<V>(c: seq<Entry<V>>, maxSize: int, e: Event<V>): seq<Entry<V>> {
    match e.op
    case Set(key, value, ttl) => Put(Evict(c, maxSize), Entry(key, value, e.now + ttl * 1000))
    case Get(key) =>
      var i := IndexOf(c, key);
      if i < |c| && e.now > c[i].expiry then RemoveAt(c, i) else c
    case Del(key) => Remove(c, key)
    case Clear => []
    case Cleanup => Unexpired(c, e.now)
  }

  /** What `get` returns. */
  function Lookup<V>(c: seq<Entry<V>>, key: string, now: int): Option<V> {
    var i := IndexOf(c, key);
    if i < |c| && now <= c[i].expiry then Some(c[i].value) else None
  }

  function Run<V>(c: seq<Entry<V>>, maxSize: int, run: seq<Event<V>>): seq<Entry<V>> {
    if run == [] then c else Next(Run(c, maxSize, run[..|run| - 1]), maxSize, run[|run| - 1])
  }

  // ---------------------------------------------------------------------------------------------
  // The cache against a plain map
  // ---------------------------------------------------------------------------------------------

  /** The reference: the last value set for a key and not deleted since, with its expiry. */
  function Latest<V>(run: seq<Event<V>>, key: string): Option<(V, int)> {
    if run == [] then None
    else
      var e := run[|run| - 1];
      match e.op
      case Set(k, value, ttl) =>
        if k == key then Some((value, e.now + ttl * 1000)) else Latest(run[..|run| - 1], key)
      case Del(k) => if k == key then None else Latest(run[..|run| - 1], key)
      case Clear => None
      case _ => Latest(run[..|run| - 1], key)
  }

  ghost predicate IsLatest<V>(e: Entry<V>, run: seq<Event<V>>) {
    Latest(run, e.key) == Some((e.value, e.expiry))
  }

  ghost predicate Agrees<V>(c: seq<Entry<V>>, run: seq<Event<V>>) {
    DistinctKeys(c) && forall i :: 0 <= i < |c| ==> IsLatest(c[i], run)
  }

  lemma {:induction false} UnexpiredAt<V>(c: seq<Entry<V>>, now: int, i: nat) returns (j: nat)
    requires i < |Unexpired(c, now)|
    ensures j < |c| && c[j] == Unexpired(c, now)[i] && now <= c[j].expiry
  {
    var head := if now > c[0].expiry then 0 else 1;
    if i < head {
      j := 0;
    } else {
      var k := UnexpiredAt(c[1..], now, i - head);
      j := k + 1;
    }
  }

  lemma {:induction false} UnexpiredIsDistinct<V>(c: seq<Entry<V>>, now: int)
    requires DistinctKeys(c)
    ensures DistinctKeys(Unexpired(c, now))
  {
    if c != [] {
      UnexpiredIsDistinct(c[1..], now);
      var rest := Unexpired(c[1..], now);
      forall i | 0 <= i < |rest| ensures rest[i].key != c[0].key {
        var j := UnexpiredAt(c[1..], now, i);
      }
    }
  }

  /** What is left is unexpired, was there before and has distinct keys. */
  lemma UnexpiredIsPart<V>(c: seq<Entry<V>>, now: int)
    requires DistinctKeys(c)
    ensures DistinctKeys(Unexpired(c, now))
    ensures forall i :: 0 <= i < |Unexpired(c, now)| ==>
              Unexpired(c, now)[i] in c && now <= Unexpired(c, now)[i].expiry
  {
    UnexpiredIsDistinct(c, now);
    forall i | 0 <= i < |Unexpired(c, now)|
      ensures Unexpired(c, now)[i] in c && now <= Unexpired(c, now)[i].expiry
    {
      var j := UnexpiredAt(c, now, i);
    }
  }

  /** An event that does not touch an entry's key leaves it the latest. */
  lemma StaysLatest<V>(entry: Entry<V>, run: seq<Event<V>>, e: Event<V>)
    requires IsLatest(entry, run) && !e.op.Clear?
    requires e.op.Set? || e.op.Del? ==> e.op.key != entry.key
    ensures IsLatest(entry, run + [e])
  {
    assert (run + [e])[..|run|] == run;
  }

  lemma PartAgrees<V>(c: seq<Entry<V>>, d: seq<Entry<V>>, run: seq<Event<V>>, e: Event<V>)
    requires Agrees(c, run) && DistinctKeys(d) && forall i :: 0 <= i < |d| ==> d[i] in c
    requires !e.op.Clear? && !e.op.Set? && forall i :: 0 <= i < |d| && e.op.Del? ==> d[i].key != e.op.key
    ensures Agrees(d, run + [e])
  {
    forall i | 0 <= i < |d| ensures IsLatest(d[i], run + [e]) {
      var j :| 0 <= j < |c| && c[j] == d[i];
      assert IsLatest(c[j], run);
      StaysLatest(d[i], run, e);
    }
  }

  lemma RemovalIsPart<V>(c: seq<Entry<V>>, i: nat)
    requires DistinctKeys(c)
    ensures DistinctKeys(RemoveAt(c, i)) && forall j :: 0 <= j < |RemoveAt(c, i)| ==> RemoveAt(c, i)[j] in c
    ensures i < |c| ==> !Has(RemoveAt(c, i), c[i].key)
  {
  }

  lemma PutPlaces<V>(c: seq<Entry<V>>, e: Entry<V>)
    requires DistinctKeys(c)
    ensures var i := IndexOf(c, e.key);
            && |Put(c, e)| == (if i < |c| then |c| else |c| + 1) && Put(c, e)[i] == e
            && (forall j :: 0 <= j < |c| && j != i ==> Put(c, e)[j] == c[j] && c[j].key != e.key)
    ensures DistinctKeys(Put(c, e))
  {
    var i := IndexOf(c, e.key);
    forall j | 0 <= j < |c| && j != i ensures c[j].key != e.key {
      assert i == |c| ==> !Has(c, e.key);
    }
  }

  lemma SetAgrees<V>(c: seq<Entry<V>>, maxSize: int, run: seq<Event<V>>, e: Event<V>)
    requires Agrees(c, run) && e.op.Set?
    ensures Agrees(Next(c, maxSize, e), run + [e])
  {
    var d := Evict(c, maxSize);
    var entry := Entry(e.op.key, e.op.value, e.now + e.op.ttlSeconds * 1000);
    PutPlaces(d, entry);
    var c' := Next(c, maxSize, e);
    assert c' == Put(d, entry);
    var i := IndexOf(d, entry.key);
    forall j | 0 <= j < |c'| ensures IsLatest(c'[j], run + [e]) {
      if j != i {
        assert d[j] == c[if d == c then j else j + 1];
        assert IsLatest(d[j], run);
        StaysLatest(d[j], run, e);
      }
    }
  }

  lemma NextAgrees<V>(c: seq<Entry<V>>, maxSize: int, run: seq<Event<V>>, e: Event<V>)
    requires Agrees(c, run)
    ensures Agrees(Next(c, maxSize, e), run + [e])
  {
    match e.op
    case Set(_, _, _) => SetAgrees(c, maxSize, run, e);
    case Get(key) =>
      RemovalIsPart(c, IndexOf(c, key));
      PartAgrees(c, Next(c, maxSize, e), run, e);
    case Del(key) =>
      RemovalIsPart(c, IndexOf(c, key));
      PartAgrees(c, Next(c, maxSize, e), run, e);
    case Clear =>
    case Cleanup =>
      UnexpiredIsPart(c, e.now);
      PartAgrees(c, Unexpired(c, e.now), run, e);
  }

  lemma {:induction false} RunAgrees<V>(maxSize: int, run: seq<Event<V>>)
    ensures Agrees(Run([], maxSize, run), run)
  {
    if run != [] {
      var before, last := run[..|run| - 1], run[|run| - 1];
      RunAgrees(maxSize, before);
      assert run == before + [last];
      NextAgrees(Run([], maxSize, before), maxSize, before, last);
    }
  }

  /** Main result: a hit is the latest value set for the key, and unexpired; keys stay distinct. */
  lemma HitsAreLatest<V>(maxSize: int, run: seq<Event<V>>, key: string, now: int)
    ensures DistinctKeys(Run([], maxSize, run))
    ensures var hit := Lookup(Run([], maxSize, run), key, now);
            hit.Some? ==> Latest(run, key).Some? && hit.value == Latest(run, key).value.0 && now <= Latest(run, key).value.1
  {
    RunAgrees(maxSize, run);
  }

  // ---------------------------------------------------------------------------------------------
  // The size bound
  // ---------------------------------------------------------------------------------------------

  lemma {:induction false} UnexpiredIsShorter<V>(c: seq<Entry<V>>, now: int)
    ensures |Unexpired(c, now)| <= |c|
  {
    if c != [] { UnexpiredIsShorter(c[1..], now); }
  }

  ghost predicate Within<V>(c: seq<Entry<V>>, maxSize: int) {
    |c| <= AtLeastOne(maxSize) && !Has(c, "")
  }

  lemma SetStaysWithin<V>(c: seq<Entry<V>>, maxSize: int, e: Event<V>)
    requires DistinctKeys(c) && Within(c, maxSize) && e.op.Set? && e.op.key != ""
    ensures Within(Next(c, maxSize, e), maxSize)
  {
    var d := Evict(c, maxSize);
    assert Has(d, "") ==> Has(c, "");
    PutPlaces(d, Entry(e.op.key, e.op.value, e.now + e.op.ttlSeconds * 1000));
  }

  lemma CleanupStaysWithin<V>(c: seq<Entry<V>>, maxSize: int, now: int)
    requires DistinctKeys(c) && Within(c, maxSize)
    ensures Within(Unexpired(c, now), maxSize)
  {
    UnexpiredIsShorter(c, now);
    UnexpiredIsPart(c, now);
    var c' := Unexpired(c, now);
    forall i | 0 <= i < |c'| ensures c'[i].key != "" {
      assert c'[i] in c;
    }
  }

  lemma NextStaysWithin<V>(c: seq<Entry<V>>, maxSize: int, e: Event<V>)
    requires DistinctKeys(c) && Within(c, maxSize) && (e.op.Set? ==> e.op.key != "")
    ensures Within(Next(c, maxSize, e), maxSize)
  {
    match e.op
    case Set(_, _, _) => SetStaysWithin(c, maxSize, e);
    case Get(key) => RemovalIsPart(c, IndexOf(c, key));
    case Del(key) => RemovalIsPart(c, IndexOf(c, key));
    case Clear =>
    case Cleanup => CleanupStaysWithin(c, maxSize, e.now);
  }

  /** Main result: as long as no value is set under the empty key, the cache never holds more than `maxSize`
      entries (one, if `maxSize` is less than one). */
  lemma {:induction false} SizeIsBounded<V>(maxSize: int, run: seq<Event<V>>)
    requires forall e :: e in run && e.op.Set? ==> e.op.key != ""
    ensures Within(Run([], maxSize, run), maxSize)
  {
    if run != [] {
      var before := run[..|run| - 1];
      assert forall e :: e in before ==> e in run;
      SizeIsBounded(maxSize, before);
      RunAgrees(maxSize, before);
      NextStaysWithin(Run([], maxSize, before), maxSize, run[|run| - 1]);
    }
  }

  /** A new key is set in a full cache whose first key is the empty one. */
  ghost predicate Overfills<V>(c: seq<Entry<V>>, maxSize: int, e: Event<V>) {
    e.op.Set? && |c| == AtLeastOne(maxSize) && c[0].key == "" && !Has(c, e.op.key)
  }

  /** That is the only step that makes a cache too large: the empty key is falsy, so it is not evicted. */
  lemma EmptyKeyBlocksEviction<V>(c: seq<Entry<V>>, maxSize: int, e: Event<V>)
    requires DistinctKeys(c) && |c| <= AtLeastOne(maxSize)
    ensures |Next(c, maxSize, e)| <= AtLeastOne(maxSize) <==> !Overfills(c, maxSize, e)
  {
    match e.op
    case Set(key, _, _) =>
      var d := Evict(c, maxSize);
      assert d == c || d == c[1..];
      assert Has(d, key) ==> Has(c, key);
      assert c == d && Has(c, key) ==> Has(d, key);
    case Cleanup => UnexpiredIsShorter(c, e.now);
    case _ =>
  }

  ghost predicate AlwaysFits<V>(maxSize: int, run: seq<Event<V>>) {
    |Run([], maxSize, run)| <= AtLeastOne(maxSize) && (run != [] ==> AlwaysFits(maxSize, run[..|run| - 1]))
  }

  ghost predicate SomeOverfills<V>(maxSize: int, run: seq<Event<V>>) {
    run != [] && (
      || Overfills(Run([], maxSize, run[..|run| - 1]), maxSize, run[|run| - 1])
      || SomeOverfills(maxSize, run[..|run| - 1]))
  }

  /** Main result: a cache that starts empty stays within `maxSize` (one, if that is less) all the time exactly when
      it is never full with the empty key first while a new key is set. */
  lemma {:induction false} FitsUnlessOverfilled<V>(maxSize: int, run: seq<Event<V>>)
    ensures AlwaysFits(maxSize, run) <==> !SomeOverfills(maxSize, run)
  {
    if run != [] {
      var before := run[..|run| - 1];
      FitsUnlessOverfilled(maxSize, before);
      RunAgrees(maxSize, before);
      if AlwaysFits(maxSize, before) {
        EmptyKeyBlocksEviction(Run([], maxSize, before), maxSize, run[|run| - 1]);
      }
    }
  }

  /** The keys "", "a", "aa", ... */
  function NthKey(n: nat): (key: string)
    ensures |key| == n
  {
    seq(n, _ => 'a')
  }

  ghost predicate NthKeys<V>(c: seq<Entry<V>>) {
    forall i :: 0 <= i < |c| ==> c[i].key == NthKey(i)
  }

  lemma NthKeyIsAdded<V>(c: seq<Entry<V>>, maxSize: int, value: V)
    requires NthKeys(c)
    ensures var c' := Next(c, maxSize, At(0, Set(NthKey(|c|), value, 0))); |c'| == |c| + 1 && NthKeys(c')
  {
    assert c != [] ==> |c[0].key| == 0;
    forall i | 0 <= i < |c| ensures c[i].key != NthKey(|c|) {
      assert |c[i].key| == i;
    }
  }

  lemma RunOneMore<V>(c: seq<Entry<V>>, maxSize: int, run: seq<Event<V>>, e: Event<V>)
    ensures Run(c, maxSize, run + [e]) == Next(Run(c, maxSize, run), maxSize, e)
  {
    assert (run + [e])[..|run|] == run;
  }

  /** It does happen: with the empty key set first, the cache holds as many entries as are set, whatever
      `maxSize` is. */
  lemma {:induction false} EmptyKeyLiftsTheBound<V>(maxSize: int, value: V, n: nat) returns (run: seq<Event<V>>)
    ensures |run| == n == |Run([], maxSize, run)| && NthKeys(Run([], maxSize, run))
  {
    run := [];
    if n > 0 {
      run := EmptyKeyLiftsTheBound(maxSize, value, n - 1);
      var next := At(0, Set(NthKey(n - 1), value, 0));
      NthKeyIsAdded(Run([], maxSize, run), maxSize, value);
      RunOneMore([], maxSize, run, next);
      run := run + [next];
    }
  }

  // ---------------------------------------------------------------------------------------------
  // Survival
  // ---------------------------------------------------------------------------------------------

  /** Free slots plus entries ahead of the key. */
  function Slack<V>(c: seq<Entry<V>>, maxSize: int, key: string): int {
    maxSize - |c| + IndexOf(c, key)
  }

  ghost predicate Stored<V>(c: seq<Entry<V>>, entry: Entry<V>) {
    DistinctKeys(c) && IndexOf(c, entry.key) < |c| && c[IndexOf(c, entry.key)] == entry
  }

  /** The event does not touch the key, and happens before it expires. */
  predicate Spares<V>(e: Event<V>, entry: Entry<V>) {
    && e.now <= entry.expiry
    && !e.op.Clear?
    && (e.op.Set? || e.op.Del? ==> e.op.key != entry.key)
  }

  lemma IndexIs<V>(c: seq<Entry<V>>, i: nat)
    requires DistinctKeys(c) && i < |c|
    ensures IndexOf(c, c[i].key) == i
  {
  }

  lemma RemovalMovesUp<V>(c: seq<Entry<V>>, i: nat, k: nat) returns (at: nat)
    requires DistinctKeys(c) && i < |c| && k < |c| && i != k
    ensures |RemoveAt(c, i)| == |c| - 1 && at < |RemoveAt(c, i)| && RemoveAt(c, i)[at] == c[k]
    ensures IndexOf(RemoveAt(c, i), c[k].key) == at >= k - 1
  {
    at := if k < i then k else k - 1;
    RemovalIsPart(c, i);
    IndexIs(RemoveAt(c, i), at);
  }

  lemma RemovalKeepsSlack<V>(c: seq<Entry<V>>, i: nat, maxSize: int, entry: Entry<V>)
    requires Stored(c, entry) && i < |c| && c[i].key != entry.key
    ensures Stored(RemoveAt(c, i), entry)
    ensures Slack(RemoveAt(c, i), maxSize, entry.key) >= Slack(c, maxSize, entry.key)
  {
    RemovalIsPart(c, i);
    var at := RemovalMovesUp(c, i, IndexOf(c, entry.key));
  }

  lemma BehindAnother<V>(first: Entry<V>, rest: seq<Entry<V>>, key: string)
    requires first.key != key
    ensures IndexOf([first] + rest, key) == 1 + IndexOf(rest, key)
  {
    assert ([first] + rest)[1..] == rest;
  }

  /** The entry is not the first. */
  lemma StoredBehind<V>(first: Entry<V>, rest: seq<Entry<V>>, entry: Entry<V>)
    requires DistinctKeys([first] + rest) && first.key != entry.key
    ensures Stored(rest, entry) <==> Stored([first] + rest, entry)
  {
    BehindAnother(first, rest, entry.key);
    assert ([first] + rest)[1..] == rest;
  }

  lemma {:induction false} CleanupKeepsSlack<V>(c: seq<Entry<V>>, now: int, maxSize: int, entry: Entry<V>)
    requires Stored(c, entry) && now <= entry.expiry
    ensures Stored(Unexpired(c, now), entry)
    ensures Slack(Unexpired(c, now), maxSize, entry.key) >= Slack(c, maxSize, entry.key)
  {
    UnexpiredIsPart(c, now);
    var rest := Unexpired(c[1..], now);
    if c[0].key == entry.key {
      UnexpiredIsShorter(c[1..], now);
    } else {
      assert c == [c[0]] + c[1..];
      StoredBehind(c[0], c[1..], entry);
      CleanupKeepsSlack(c[1..], now, maxSize, entry);
      if now <= c[0].expiry {
        StoredBehind(c[0], rest, entry);
        BehindAnother(c[0], rest, entry.key);
      } else {
        assert [] + rest == rest;
      }
    }
  }

  lemma EvictionKeepsSlack<V>(c: seq<Entry<V>>, maxSize: int, entry: Entry<V>)
    requires Stored(c, entry) && Slack(c, maxSize, entry.key) >= 1
    ensures Stored(Evict(c, maxSize), entry)
    ensures Slack(Evict(c, maxSize), maxSize, entry.key) >= Slack(c, maxSize, entry.key)
  {
    if Evict(c, maxSize) != c {
      assert Evict(c, maxSize) == RemoveAt(c, 0);
      RemovalKeepsSlack(c, 0, maxSize, entry);
    }
  }

  lemma PutCostsOneSlack<V>(c: seq<Entry<V>>, e: Entry<V>, maxSize: int, entry: Entry<V>)
    requires Stored(c, entry) && e.key != entry.key
    ensures Stored(Put(c, e), entry)
    ensures Slack(Put(c, e), maxSize, entry.key) >= Slack(c, maxSize, entry.key) - 1
  {
    PutPlaces(c, e);
    IndexIs(Put(c, e), IndexOf(c, entry.key));
  }

  lemma SetCostsOneSlack<V>(c: seq<Entry<V>>, e: Event<V>, maxSize: int, entry: Entry<V>)
    requires Stored(c, entry) && e.op.Set? && Spares(e, entry) && Slack(c, maxSize, entry.key) >= 1
    ensures Stored(Next(c, maxSize, e), entry)
    ensures Slack(Next(c, maxSize, e), maxSize, entry.key) >= Slack(c, maxSize, entry.key) - 1
  {
    EvictionKeepsSlack(c, maxSize, entry);
    PutCostsOneSlack(Evict(c, maxSize), Entry(e.op.key, e.op.value, e.now + e.op.ttlSeconds * 1000), maxSize, entry);
  }

  lemma SparedEntriesStay<V>(c: seq<Entry<V>>, e: Event<V>, maxSize: int, entry: Entry<V>)
    requires Stored(c, entry) && Spares(e, entry)
    requires e.op.Set? ==> Slack(c, maxSize, entry.key) >= 1
    ensures Stored(Next(c, maxSize, e), entry)
    ensures Slack(Next(c, maxSize, e), maxSize, entry.key) >= Slack(c, maxSize, entry.key) - if e.op.Set? then 1 else 0
  {
    match e.op
    case Set(_, _, _) => SetCostsOneSlack(c, e, maxSize, entry);
    case Get(key) =>
      if IndexOf(c, key) < |c| && e.now > c[IndexOf(c, key)].expiry {
        RemovalKeepsSlack(c, IndexOf(c, key), maxSize, entry);
      }
    case Del(key) =>
      if IndexOf(c, key) < |c| { RemovalKeepsSlack(c, IndexOf(c, key), maxSize, entry); }
    case Clear =>
    case Cleanup => CleanupKeepsSlack(c, e.now, maxSize, entry);
  }

  function Sets<V>(run: seq<Event<V>>): nat {
    if run == [] then 0 else Sets(run[..|run| - 1]) + if run[|run| - 1].op.Set? then 1 else 0
  }

  lemma {:induction false} SlackLasts<V>(c: seq<Entry<V>>, maxSize: int, run: seq<Event<V>>, entry: Entry<V>)
    requires Stored(c, entry) && (forall e :: e in run ==> Spares(e, entry))
    requires Sets(run) <= Slack(c, maxSize, entry.key)
    ensures Stored(Run(c, maxSize, run), entry)
    ensures Slack(Run(c, maxSize, run), maxSize, entry.key) >= Slack(c, maxSize, entry.key) - Sets(run)
  {
    if run != [] {
      var before := run[..|run| - 1];
      assert forall e :: e in before ==> e in run;
      SlackLasts(c, maxSize, before, entry);
      SparedEntriesStay(Run(c, maxSize, before), run[|run| - 1], maxSize, entry);
    }
  }

  lemma NewKeyHasFullSlack<V>(c: seq<Entry<V>>, maxSize: int, entry: Entry<V>)
    requires DistinctKeys(c) && !Has(c, entry.key)
    ensures Stored(Put(Evict(c, maxSize), entry), entry)
    ensures Slack(Put(Evict(c, maxSize), entry), maxSize, entry.key) == maxSize - 1
  {
    var d := Evict(c, maxSize);
    assert !Has(d, entry.key);
    assert (d + [entry])[|d|] == entry;
    IndexIs(d + [entry], |d|);
  }

  lemma StoredIsFound<V>(c: seq<Entry<V>>, entry: Entry<V>, now: int)
    requires Stored(c, entry) && now <= entry.expiry
    ensures Lookup(c, entry.key, now) == Some(entry.value)
  {
  }

  /** Main result: a key that is new when it is set is still found, with its value, after up to maxSize - 1
      further `set` calls and any other calls, unless it is deleted, set again or expires. */
  lemma NewKeysSurvive<V>(c: seq<Entry<V>>, maxSize: int, now: int, key: string, value: V, ttl: int,
                                             run: seq<Event<V>>, later: int)
    requires DistinctKeys(c) && !Has(c, key)
    requires forall e :: e in run ==> Spares(e, Entry(key, value, now + ttl * 1000))
    requires later <= now + ttl * 1000
    requires Sets(run) <= maxSize - 1
    ensures Lookup(Run(Next(c, maxSize, At(now, Set(key, value, ttl))), maxSize, run), key, later) == Some(value)
  {
    var entry := Entry(key, value, now + ttl * 1000);
    var start := Next(c, maxSize, At(now, Set(key, value, ttl)));
    assert start == Put(Evict(c, maxSize), entry);
    NewKeyHasFullSlack(c, maxSize, entry);
    SlackLasts(start, maxSize, run, entry);
    StoredIsFound(Run(start, maxSize, run), entry, later);
  }

  /** Setting a key that is present, in a cache that is not full, renews its entry in its place: it does not move back
      in the queue for eviction. */
  lemma ResettingKeepsOrder<V>(c: seq<Entry<V>>, maxSize: int, now: int, key: string, value: V, ttl: int, i: nat)
    requires DistinctKeys(c) && Has(c, key) && |c| < maxSize && i < |c|
    ensures var c' := Next(c, maxSize, At(now, Set(key, value, ttl)));
            && |c'| == |c| && c'[i].key == c[i].key
            && c'[i] == if c[i].key == key then Entry(key, value, now + ttl * 1000) else c[i]
  {
    IndexIs(c, i);
  }

  /** After `get` the key is there exactly if it was a hit; after `del` it is not; no other key is touched. */
  lemma LookupsRemoveExpired<V>(c: seq<Entry<V>>, maxSize: int, now: int, key: string, other: string)
    requires DistinctKeys(c)
    ensures Has(Next(c, maxSize, At(now, Get(key))), key) <==> Lookup(c, key, now).Some?
    ensures !Has(Next(c, maxSize, At(now, Del(key))), key)
    ensures other != key ==>
              && (Has(Next(c, maxSize, At(now, Get(key))), other) <==> Has(c, other))
              && (Has(Next(c, maxSize, At(now, Del(key))), other) <==> Has(c, other))
  {
    if Has(c, key) {
      RemovalIsPart(c, IndexOf(c, key));
      if other != key { RemovalSparesOthers(c, IndexOf(c, key), other); }
    }
  }

  lemma HasIsMembership<V>(c: seq<Entry<V>>, key: string)
    ensures Has(c, key) <==> exists e :: e in c && e.key == key
  {
  }

  lemma RemovalSparesOthers<V>(c: seq<Entry<V>>, i: nat, other: string)
    requires i < |c| && c[i].key != other
    ensures Has(RemoveAt(c, i), other) <==> Has(c, other)
  {
    HasIsMembership(c, other);
    HasIsMembership(RemoveAt(c, i), other);
    DropKeeps(c, i);
  }

  lemma {:induction false} UnexpiredKeeps<V>(c: seq<Entry<V>>, now: int, entry: Entry<V>)
    ensures entry in Unexpired(c, now) <==> entry in c && now <= entry.expiry
  {
    if c != [] {
      UnexpiredKeeps(c[1..], now, entry);
      assert c == [c[0]] + c[1..];
    }
  }

  /** `cleanup` leaves exactly the entries that have not expired. */
  lemma CleanupLeavesTheUnexpired<V>(c: seq<Entry<V>>, maxSize: int, now: int, entry: Entry<V>)
    ensures entry in Next(c, maxSize, At(now, Cleanup)) <==> entry in c && now <= entry.expiry
  {
    UnexpiredKeeps(c, now, entry);
  }

  // ---------------------------------------------------------------------------------------------
  // The class
  // ---------------------------------------------------------------------------------------------

  lemma SplitAt<V>(c: seq<Entry<V>>, i: nat)
    requires i < |c|
    ensures c[i..][0] == c[i] && c[i..][1..] == c[i + 1..] && c[..i + 1] == c[..i] + [c[i]]
    ensures Drop(c, i)[..i] == c[..i] && Drop(c, i)[i..] == c[i + 1..]
  {
  }

  class MemoryCache<V> {
    const maxSize: int
    var cache: seq<Entry<V>>

    constructor (maxSize: int)
      ensures this.maxSize == maxSize && cache == []
    {
      this.maxSize := maxSize;
      cache := [];
    }

    method SetValue(key: string, value: V, ttlSeconds: int, now: int)
      modifies this
      ensures cache == Next(old(cache), maxSize, At(now, Set(key, value, ttlSeconds)))
    {
      if |cache| >= maxSize {
        if |cache| > 0 && cache[0].key != "" {
          cache := cache[1..];
        }
      }
      var i := FindIndex(key);
      if i < |cache| {
        cache := cache[i := Entry(key, value, now + ttlSeconds * 1000)];
      } else {
        cache := cache + [Entry(key, value, now + ttlSeconds * 1000)];
      }
    }

    /** The lookup of the underlying Map. */
    method FindIndex(key: string) returns (i: nat)
      ensures i == IndexOf(cache, key)
    {
      i := 0;
      while i < |cache| && cache[i].key != key
        invariant i <= |cache| && IndexOf(cache, key) == i + IndexOf(cache[i..], key)
      {
        assert cache[i..][1..] == cache[i + 1..];
        i := i + 1;
      }
    }

    method GetValue(key: string, now: int) returns (value: Option<V>)
      modifies this
      ensures cache == Next(old(cache), maxSize, At(now, Get(key)))
      ensures value == Lookup(old(cache), key, now)
    {
      var i := FindIndex(key);
      if i == |cache| { return None; }
      if now > cache[i].expiry {
        cache := Drop(cache, i);
        return None;
      }
      value := Some(cache[i].value);
    }

    method Delete(key: string)
      modifies this
      ensures cache == Remove(old(cache), key)
    {
      var i := FindIndex(key);
      if i < |cache| {
        cache := Drop(cache, i);
      }
    }

    /** Entries are deleted while the loop runs over them. */
    method CleanupExpired(now: int)
      modifies this
      ensures cache == Next(old(cache), maxSize, At(now, Cleanup))
    {
      var i := 0;
      assert cache[..0] == [] && cache[0..] == cache;
      while i < |cache|
        invariant i <= |cache|
        invariant Unexpired(old(cache), now) == cache[..i] + Unexpired(cache[i..], now)
        decreases |cache| - i
      {
        SplitAt(cache, i);
        if now > cache[i].expiry {
          cache := Drop(cache, i);
        } else {
          i := i + 1;
        }
      }
      assert cache[..i] == cache && cache[i..] == [];
    }
  }
}
