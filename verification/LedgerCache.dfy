/** How transaction events are folded into the cached ledger: the list updaters of `transactionHandler` in
    apps/user-ui/lib/auth-context.tsx. */
module LedgerCache {
  import opened Options

  datatype Entry = Entry(transactionId: string, status: string, details: int)

  datatype Page = Page(entries: seq<Entry>, total: int)

  datatype Payload = Payload(entry: Option<Entry>, transactionId: Option<string>, status: Option<string>)

  predicate Exists(entries: seq<Entry>, id: string) {
    exists i :: 0 <= i < |entries| && entries[i].transactionId == id
  }

  function Replace(entries: seq<Entry>, e: Entry): seq<Entry> {
    seq(|entries|, i requires 0 <= i < |entries| => if entries[i].transactionId == e.transactionId then e else entries[i])
  }

  function Patch(entries: seq<Entry>, id: string, status: string): seq<Entry> {
    seq(|entries|, i requires 0 <= i < |entries| =>
      if entries[i].transactionId == id then entries[i].(status := status) else entries[i])
  }

  /** Missing and empty strings are falsy. */
  predicate IsPatch(p: Payload) {
    p.entry.None? && p.transactionId.Some? && p.transactionId.value != "" && p.status.Some? && p.status.value != ""
  }

  /** The updater of the cached ledger pages; a page that is not cached stays so. */
  function UpdatePage(cached: Option<Page>, p: Payload): Option<Page> {
    match cached
    case None => None
    case Some(page) =>
      if p.entry.Some? then
        var e := p.entry.value;
        if Exists(page.entries, e.transactionId) then Some(page.(entries := Replace(page.entries, e)))
        else Some(Page([e] + page.entries, page.total + 1))
      else if IsPatch(p) then Some(page.(entries := Patch(page.entries, p.transactionId.value, p.status.value)))
      else cached
  }

  function Take<T>(list: seq<T>, n: nat): seq<T> {
    if n <= |list| then list[..n] else list
  }

  /** The updater of the cached lists of recent transactions. */
  function UpdateRecent(cached: Option<seq<Entry>>, p: Payload): Option<seq<Entry>> {
    if p.entry.Some? then
      var e := p.entry.value;
      match cached
      case None => Some([e])
      case Some(entries) =>
        if Exists(entries, e.transactionId) then Some(Replace(entries, e))
        else Some(Take([e] + entries, if |entries| == 0 then 10 else |entries|))
    else if IsPatch(p) && cached.Some? then Some(Patch(cached.value, p.transactionId.value, p.status.value))
    else cached
  }

  function FoldPage(page: Page, events: seq<Payload>): Page {
    if events == [] then page
    else UpdatePage(Some(FoldPage(page, events[..|events| - 1])), events[|events| - 1]).value
  }

  function FoldCached(cached: Option<Page>, events: seq<Payload>): Option<Page> {
    if events == [] then cached else UpdatePage(FoldCached(cached, events[..|events| - 1]), events[|events| - 1])
  }

  function FoldRecent(cached: Option<seq<Entry>>, events: seq<Payload>): Option<seq<Entry>> {
    if events == [] then cached
    else UpdateRecent(FoldRecent(cached, events[..|events| - 1]), events[|events| - 1])
  }

  // ---------------------------------------------------------------------------------------------
  // The references: which ids arrive, and what becomes of one transaction
  // ---------------------------------------------------------------------------------------------

  function Ids(entries: seq<Entry>): seq<string> {
    seq(|entries|, i requires 0 <= i < |entries| => entries[i].transactionId)
  }

  /** The ids that full events bring and that were not there, in the order of their first arrival. */
  function Arrivals(known: seq<string>, events: seq<Payload>): seq<string> {
    if events == [] then []
    else
      var before := Arrivals(known, events[..|events| - 1]);
      var e := events[|events| - 1].entry;
      if e.Some? && e.value.transactionId !in known && e.value.transactionId !in before
      then before + [e.value.transactionId]
      else before
  }

  function Reverse(ids: seq<string>): seq<string> {
    if ids == [] then [] else Reverse(ids[1..]) + [ids[0]]
  }

  /** One transaction's history: the last full event counts, with the status patches after it: events without an entry
      that name the transaction and a status, neither of them empty. */
  function History(start: Option<Entry>, events: seq<Payload>, id: string): Option<Entry> {
    if events == [] then start
    else
      var before := History(start, events[..|events| - 1], id);
      var p := events[|events| - 1];
      if p.entry.Some? && p.entry.value.transactionId == id then p.entry
      else if p.entry.None? && p.transactionId == Some(id) && id != "" && p.status.Some? && p.status.value != "" && before.Some?
      then Some(Entry(before.value.transactionId, p.status.value, before.value.details))
      else before
  }

  function Find(entries: seq<Entry>, id: string): (e: Option<Entry>)
    ensures e.Some? <==> Exists(entries, id)
    ensures e.Some? ==> e.value in entries && e.value.transactionId == id
  {
    if entries == [] then None
    else if entries[0].transactionId == id then Some(entries[0])
    else
      var e := Find(entries[1..], id);
      assert forall i :: 0 < i < |entries| ==> entries[i] == entries[1..][i - 1];
      e
  }

  ghost predicate DistinctIds(entries: seq<Entry>) {
    forall i, j :: 0 <= i < j < |entries| ==> entries[i].transactionId != entries[j].transactionId
  }

  lemma {:induction false} FindIs(entries: seq<Entry>, i: nat)
    requires DistinctIds(entries) && i < |entries|
    ensures Find(entries, entries[i].transactionId) == Some(entries[i])
  {
    if i > 0 { FindIs(entries[1..], i - 1); }
  }

  lemma {:induction false} ReverseAppend(ids: seq<string>, id: string)
    ensures Reverse(ids + [id]) == [id] + Reverse(ids)
  {
    if ids == [] {
      assert ids + [id] == [id] && [id][1..] == [];
    } else {
      assert (ids + [id])[1..] == ids[1..] + [id];
      ReverseAppend(ids[1..], id);
    }
  }

  lemma {:induction false} ReverseMembers(ids: seq<string>, id: string)
    ensures id in Reverse(ids) <==> id in ids
  {
    if ids != [] {
      ReverseMembers(ids[1..], id);
      assert ids == [ids[0]] + ids[1..];
    }
  }

  lemma ExistsInIds(entries: seq<Entry>, id: string)
    ensures Exists(entries, id) <==> id in Ids(entries)
  {
    if i :| 0 <= i < |entries| && entries[i].transactionId == id {
      assert Ids(entries)[i] == id;
    }
  }

  /** Main result: the ids of a page after any run of events are the new ones in reverse order of arrival, then
      the old ones as they were; no id is there twice; and `total` has grown by the number of new entries. */
  lemma {:induction false} PagesGrowAtTheFront(page: Page, events: seq<Payload>)
    requires DistinctIds(page.entries)
    ensures var after := FoldPage(page, events);
            && Ids(after.entries) == Reverse(Arrivals(Ids(page.entries), events)) + Ids(page.entries)
            && DistinctIds(after.entries)
            && after.total - |after.entries| == page.total - |page.entries|
  {
    if events != [] {
      var before := events[..|events| - 1];
      var p := events[|events| - 1];
      PagesGrowAtTheFront(page, before);
      var mid, after := FoldPage(page, before), FoldPage(page, events);
      var known, arrived := Ids(page.entries), Arrivals(Ids(page.entries), before);
      if p.entry.Some? {
        var e := p.entry.value;
        ReverseMembers(arrived, e.transactionId);
        ExistsInIds(mid.entries, e.transactionId);
        if Exists(mid.entries, e.transactionId) {
          assert Ids(after.entries) == Ids(mid.entries);
        } else {
          ReverseAppend(arrived, e.transactionId);
          assert Ids(after.entries) == [e.transactionId] + Ids(mid.entries);
        }
      } else {
        assert Ids(after.entries) == Ids(mid.entries);
      }
    }
  }

  /** A page that is not cached stays so, whatever arrives; a cached one is folded. */
  lemma {:induction false} UncachedPagesStaySo(cached: Option<Page>, events: seq<Payload>)
    ensures cached.None? ==> FoldCached(cached, events).None?
    ensures cached.Some? ==> FoldCached(cached, events) == Some(FoldPage(cached.value, events))
  {
    if events != [] { UncachedPagesStaySo(cached, events[..|events| - 1]); }
  }

  /** Every listed entry is up to date with its transaction's history. */
  ghost predicate Current(entries: seq<Entry>, start: seq<Entry>, events: seq<Payload>) {
    forall i :: 0 <= i < |entries| ==> IsCurrent(entries[i], start, events)
  }

  ghost predicate IsCurrent(e: Entry, start: seq<Entry>, events: seq<Payload>) {
    History(Find(start, e.transactionId), events, e.transactionId) == Some(e)
  }

  /** Either updater touches each entry the way its history says. */
  lemma EntriesFollowHistory(entries: seq<Entry>, start: seq<Entry>, events: seq<Payload>, p: Payload)
    requires Current(entries, start, events)
    ensures p.entry.Some? ==> Current(Replace(entries, p.entry.value), start, events + [p])
    ensures p.entry.Some? && !Exists(entries, p.entry.value.transactionId) ==>
              Current([p.entry.value] + entries, start, events + [p])
    ensures IsPatch(p) ==> Current(Patch(entries, p.transactionId.value, p.status.value), start, events + [p])
    ensures p.entry.None? && !IsPatch(p) ==> Current(entries, start, events + [p])
  {
    assert (events + [p])[..|events|] == events;
    forall i | 0 <= i < |entries|
      ensures p.entry.Some? ==> IsCurrent(Replace(entries, p.entry.value)[i], start, events + [p])
      ensures p.entry.Some? && entries[i].transactionId != p.entry.value.transactionId ==>
                IsCurrent(entries[i], start, events + [p])
      ensures IsPatch(p) ==> IsCurrent(Patch(entries, p.transactionId.value, p.status.value)[i], start, events + [p])
      ensures p.entry.None? && !IsPatch(p) ==> IsCurrent(entries[i], start, events + [p])
    {
      assert IsCurrent(entries[i], start, events);
    }
    if p.entry.Some? {
      assert IsCurrent(p.entry.value, start, events + [p]);
    }
  }

  /** Main result: every entry of the page is what its transaction's history says, and every transaction with
      a history is on the page. */
  lemma PageEntriesAreCurrent(page: Page, events: seq<Payload>, id: string)
    requires DistinctIds(page.entries)
    ensures Current(FoldPage(page, events).entries, page.entries, events)
    ensures Find(FoldPage(page, events).entries, id) == History(Find(page.entries, id), events, id)
  {
    PagesGrowAtTheFront(page, events);
    PageIsCurrent(page, events);
    var after := FoldPage(page, events).entries;
    HistoryMeansListed(page, events, id);
    if Exists(after, id) {
      var i :| 0 <= i < |after| && after[i].transactionId == id;
      FindIs(after, i);
      assert IsCurrent(after[i], page.entries, events);
    }
  }

  lemma {:induction false} PageIsCurrent(page: Page, events: seq<Payload>)
    requires DistinctIds(page.entries)
    ensures Current(FoldPage(page, events).entries, page.entries, events)
  {
    if events == [] {
      forall i | 0 <= i < |page.entries| ensures IsCurrent(page.entries[i], page.entries, []) {
        FindIs(page.entries, i);
      }
    } else {
      var before, p := events[..|events| - 1], events[|events| - 1];
      PageIsCurrent(page, before);
      EntriesFollowHistory(FoldPage(page, before).entries, page.entries, before, p);
      assert events == before + [p];
    }
  }

  lemma {:induction false} HistoryMeansListed(page: Page, events: seq<Payload>, id: string)
    ensures History(Find(page.entries, id), events, id).Some? ==> Exists(FoldPage(page, events).entries, id)
  {
    if events != [] {
      var before, p := events[..|events| - 1], events[|events| - 1];
      HistoryMeansListed(page, before, id);
      var mid, after := FoldPage(page, before).entries, FoldPage(page, events).entries;
      if Exists(mid, id) {
        var i :| 0 <= i < |mid| && mid[i].transactionId == id;
        assert after[if |after| == |mid| then i else i + 1].transactionId == id;
      } else if p.entry.Some? && p.entry.value.transactionId == id {
        assert after[0].transactionId == id;
      }
    }
  }

  /** What a full event makes of the ids of a recent list that does not hold its transaction: the new id in front,
      then the previous ones without the last. */
  lemma RecentIds(entries: seq<Entry>, e: Entry)
    requires !Exists(entries, e.transactionId)
    ensures var after := UpdateRecent(Some(entries), Payload(Some(e), None, None)).value;
            Ids(after) == Take([e.transactionId] + Ids(entries), if entries == [] then 1 else |entries|)
  {
  }

  lemma RecentStep(entries: seq<Entry>, start: seq<Entry>, events: seq<Payload>, p: Payload)
    requires DistinctIds(entries) && Current(entries, start, events)
    ensures var after := UpdateRecent(Some(entries), p).value;
            && DistinctIds(after) && Current(after, start, events + [p])
            && Ids(after) == if p.entry.Some? && p.entry.value.transactionId !in Ids(entries)
                             then Take([p.entry.value.transactionId] + Ids(entries), if entries == [] then 1 else |entries|)
                             else Ids(entries)
  {
    EntriesFollowHistory(entries, start, events, p);
    if p.entry.Some? {
      ExistsInIds(entries, p.entry.value.transactionId);
      if !Exists(entries, p.entry.value.transactionId) { RecentIds(entries, p.entry.value); }
    }
  }

  /** How many entries a recent list may hold once anything has happened. */
  function Room(cached: seq<Entry>): nat { if cached == [] then 1 else |cached| }

  /** The ids that have entered a list with this room, oldest first: those of full events whose transaction is not
      among the newest ids at the time. One that has fallen off may enter again. */
  function Admissions(known: seq<string>, room: nat, events: seq<Payload>): seq<string> {
    if events == [] then []
    else
      var before := Admissions(known, room, events[..|events| - 1]);
      var e := events[|events| - 1].entry;
      if e.Some? && e.value.transactionId !in Take(Reverse(before) + known, room)
      then before + [e.value.transactionId]
      else before
  }

  /** One more admission, in a list that shows the newest ones. */
  lemma WindowMoves(known: seq<string>, entered: seq<string>, room: nat, id: string)
    requires room > 0
    ensures Take([id] + Take(Reverse(entered) + known, room), room) == Take(Reverse(entered + [id]) + known, room)
  {
    ReverseAppend(entered, id);
    assert Reverse(entered + [id]) + known == [id] + (Reverse(entered) + known);
  }

  lemma {:induction false} RecentIsCurrent(cached: seq<Entry>, events: seq<Payload>)
    requires DistinctIds(cached)
    ensures FoldRecent(Some(cached), events).Some?
    ensures var after := FoldRecent(Some(cached), events).value;
            DistinctIds(after) && Current(after, cached, events)
  {
    if events == [] {
      forall i | 0 <= i < |cached| ensures IsCurrent(cached[i], cached, []) {
        FindIs(cached, i);
      }
    } else {
      var before, p := events[..|events| - 1], events[|events| - 1];
      RecentIsCurrent(cached, before);
      RecentStep(FoldRecent(Some(cached), before).value, cached, before, p);
      assert events == before + [p];
    }
  }

  predicate SomeFull(events: seq<Payload>) {
    exists i :: 0 <= i < |events| && events[i].entry.Some?
  }

  lemma SomeFullOneMore(events: seq<Payload>, p: Payload)
    ensures SomeFull(events + [p]) <==> SomeFull(events) || p.entry.Some?
  {
    if i :| 0 <= i < |events| && events[i].entry.Some? { assert (events + [p])[i].entry.Some?; }
    if p.entry.Some? { assert (events + [p])[|events|].entry.Some?; }
  }

  lemma {:induction false} FullEventsEnter(events: seq<Payload>)
    ensures Admissions([], 1, events) != [] <==> SomeFull(events)
  {
    if events != [] {
      var before, p := events[..|events| - 1], events[|events| - 1];
      FullEventsEnter(before);
      SomeFullOneMore(before, p);
      assert events == before + [p];
    }
  }

  lemma {:induction false} ReverseLength(ids: seq<string>)
    ensures |Reverse(ids)| == |ids|
  {
    if ids != [] { ReverseLength(ids[1..]); }
  }

  /** Main result: a list of recent transactions is a window on the log of what has entered it: the newest ids first,
      as many as it held at the start. So it never changes length, and what falls off is the one that
      entered first. An empty list is the exception: it grows to one entry and stays there, although the
      code's default is ten. Its entries are distinct and up to date. */
  lemma {:induction false} RecentIsAWindow(cached: seq<Entry>, events: seq<Payload>)
    requires DistinctIds(cached)
    ensures FoldRecent(Some(cached), events).Some?
    ensures var after := FoldRecent(Some(cached), events).value;
            && DistinctIds(after) && Current(after, cached, events)
            && Ids(after) == Take(Reverse(Admissions(Ids(cached), Room(cached), events)) + Ids(cached), Room(cached))
            && |after| == if cached == [] && SomeFull(events) then 1 else |cached|
  {
    RecentIsCurrent(cached, events);
    FullEventsEnter(events);
    ReverseLength(Admissions(Ids(cached), Room(cached), events));
    assert |Ids(FoldRecent(Some(cached), events).value)| == |FoldRecent(Some(cached), events).value|;
    if events != [] {
      var before, p := events[..|events| - 1], events[|events| - 1];
      RecentIsAWindow(cached, before);
      var mid := FoldRecent(Some(cached), before).value;
      RecentStep(mid, cached, before, p);
      if p.entry.Some? && p.entry.value.transactionId !in Ids(mid) {
        WindowMoves(Ids(cached), Admissions(Ids(cached), Room(cached), before), Room(cached), p.entry.value.transactionId);
      }
    }
  }

  /** A list that is not cached stays so until the first full event; from then on it is what an empty one becomes. */
  lemma {:induction false} UncachedIsLikeEmpty(events: seq<Payload>)
    ensures FoldRecent(None, events) == if SomeFull(events) then FoldRecent(Some([]), events) else None
    ensures FoldRecent(Some([]), events).Some?
    ensures !SomeFull(events) ==> FoldRecent(Some([]), events) == Some([])
  {
    if events != [] {
      var before, p := events[..|events| - 1], events[|events| - 1];
      UncachedIsLikeEmpty(before);
      if p.entry.Some? { assert Take([p.entry.value] + [], 10) == [p.entry.value]; }
      if IsPatch(p) { assert Patch([], p.transactionId.value, p.status.value) == []; }
      SomeFullOneMore(before, p);
      assert events == before + [p];
    }
  }
}
