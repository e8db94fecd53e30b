/** The transactional outbox, packages/db-postgres/src/outbox.ts.

    Claim transactions run concurrently: SELECT ... FOR UPDATE SKIP LOCKED takes row locks, the updates are
    invisible to others until COMMIT, and COMMIT or ROLLBACK gives up the locks. A worker that has
    committed a claim holds its rows until it marks each of them published or failed. The marks themselves
    look at neither status nor holder: a stray mark is one by somebody who does not hold the row. Every
    mark waits for the row's lock.
  */
module Outbox {
  import opened Options

  type Id = string
  type TxId = nat

  datatype Status = Pending | Processing | Published | Failed

  datatype Row = Row(status: Status, attempts: int, createdAt: int, availableAt: int)

  /** `updated` of the chosen rows have been updated so far. */
  datatype Tx = Tx(chosen: seq<Id>, updated: nat)

  datatype Db = Db(rows: map<Id, Row>, txs: map<TxId, Tx>, held: set<Id>)

  datatype Step =
    | Enqueue(id: Id, createdAt: int, availableAt: int)
    | Select(tx: TxId, limit: nat, now: int, chosen: seq<Id>)
    | UpdateNext(tx: TxId)
    | Commit(tx: TxId)
    | Rollback(tx: TxId)
    | MarkPublished(id: Id)
    | MarkFailed(id: Id, retryAt: int)
    | StrayPublished(id: Id)
    | StrayFailed(id: Id, retryAt: int)

  predicate Due(r: Row, now: int) {
    (r.status == Pending || r.status == Failed) && r.availableAt <= now
  }

  ghost predicate RowLocked(db: Db, id: Id) {
    exists t :: t in db.txs && id in db.txs[t].chosen
  }

  ghost predicate Claimable(db: Db, id: Id, now: int) {
    id in db.rows && Due(db.rows[id], now) && !RowLocked(db, id)
  }

  ghost predicate Distinct(ids: seq<Id>) {
    forall i, j :: 0 <= i < j < |ids| ==> ids[i] != ids[j]
  }

  /** The answer to the SELECT: due rows nobody has locked, oldest first, as many as there are up to the limit. */
  ghost predicate Answers(db: Db, limit: nat, now: int, chosen: seq<Id>) {
    && Distinct(chosen) && |chosen| <= limit
    && (forall i :: 0 <= i < |chosen| ==> Claimable(db, chosen[i], now))
    && (forall i, j :: 0 <= i < j < |chosen| ==> db.rows[chosen[i]].createdAt <= db.rows[chosen[j]].createdAt)
    && (forall id :: Claimable(db, id, now) && id !in chosen ==>
         |chosen| == limit && forall i :: 0 <= i < |chosen| ==> db.rows[chosen[i]].createdAt <= db.rows[id].createdAt)
  }

  ghost predicate Enabled(db: Db, s: Step) {
    match s
    case Enqueue(id, _, _) => id !in db.rows
    case Select(tx, limit, now, chosen) => tx !in db.txs && Answers(db, limit, now, chosen)
    case UpdateNext(tx) => tx in db.txs && db.txs[tx].updated < |db.txs[tx].chosen|
    case Commit(tx) => tx in db.txs && db.txs[tx].updated == |db.txs[tx].chosen|
    case Rollback(tx) => tx in db.txs
    case MarkPublished(id) => id in db.held && CanMark(db, id)
    case MarkFailed(id, _) => id in db.held && CanMark(db, id)
    case StrayPublished(id) => CanMark(db, id)
    case StrayFailed(id, _) => CanMark(db, id)
  }

  ghost predicate CanMark(db: Db, id: Id) {
    id in db.rows && !RowLocked(db, id)
  }

  function PublishRow(rows: map<Id, Row>, id: Id): map<Id, Row> {
    if id in rows then rows[id := rows[id].(status := Published)] else rows
  }

  function FailRow(rows: map<Id, Row>, id: Id, retryAt: int): map<Id, Row> {
    if id in rows then rows[id := rows[id].(status := Failed, availableAt := retryAt)] else rows
  }

  function Claim(r: Row): Row {
    r.(status := Processing, attempts := r.attempts + 1)
  }

  function ClaimAll(rows: map<Id, Row>, ids: set<Id>): map<Id, Row> {
    map id | id in rows :: if id in ids then Claim(rows[id]) else rows[id]
  }

  function SetOf(ids: seq<Id>): set<Id> {
    set id | id in ids
  }

  ghost function Next(db: Db, s: Step): Db
    requires Enabled(db, s)
  {
    match s
    case Enqueue(id, createdAt, availableAt) => db.(rows := db.rows[id := Row(Pending, 0, createdAt, availableAt)])
    case Select(tx, _, _, chosen) => db.(txs := db.txs[tx := Tx(chosen, 0)])
    case UpdateNext(tx) => db.(txs := db.txs[tx := db.txs[tx].(updated := db.txs[tx].updated + 1)])
    case Commit(tx) =>
      var ids := SetOf(db.txs[tx].chosen);
      Db(ClaimAll(db.rows, ids), db.txs - {tx}, db.held + ids)
    case Rollback(tx) => db.(txs := db.txs - {tx})
    case MarkPublished(id) => db.(rows := PublishRow(db.rows, id), held := db.held - {id})
    case MarkFailed(id, retryAt) => db.(rows := FailRow(db.rows, id, retryAt), held := db.held - {id})
    case StrayPublished(id) => db.(rows := PublishRow(db.rows, id))
    case StrayFailed(id, retryAt) => db.(rows := FailRow(db.rows, id, retryAt))
  }

  ghost predicate CanRun(db: Db, run: seq<Step>)
    decreases |run|
  {
    run != [] ==> Enabled(db, run[0]) && CanRun(Next(db, run[0]), run[1..])
  }

  ghost function Run(db: Db, run: seq<Step>): Db
    requires CanRun(db, run)
    decreases |run|
  {
    if run == [] then db else Run(Next(db, run[0]), run[1..])
  }

  // ---------------------------------------------------------------------------------------------
  // Exclusive claims
  // ---------------------------------------------------------------------------------------------

  ghost predicate TxsAreDisjoint(db: Db) {
    forall t, u, id :: t in db.txs && u in db.txs && id in db.txs[t].chosen && id in db.txs[u].chosen ==> t == u
  }

  /** No row is with two transactions, and no transaction has a row that is not due any more. */
  ghost predicate LocksAreExclusive(db: Db) {
    && (forall t :: t in db.txs ==> Distinct(db.txs[t].chosen))
    && TxsAreDisjoint(db)
    && (forall t, id :: t in db.txs && id in db.txs[t].chosen ==>
         id in db.rows && db.rows[id].status != Processing && db.rows[id].status != Published)
  }

  /** Nor is a row with a transaction and a worker: no row is in two hands. */
  ghost predicate OneHand(db: Db) {
    && TxsAreDisjoint(db)
    && (forall t, id :: t in db.txs && id in db.txs[t].chosen ==> id !in db.held)
  }

  /** What keeps it so while only holders mark: what a worker holds is being processed. */
  ghost predicate Exclusive(db: Db) {
    && LocksAreExclusive(db) && OneHand(db)
    && (forall id :: id in db.held ==> id in db.rows && db.rows[id].status == Processing)
  }

  /** Somebody marks a row that a worker holds. */
  predicate MarksHeld(db: Db, s: Step) {
    (s.StrayPublished? || s.StrayFailed?) && s.id in db.held
  }

  /** A SELECT takes a row that a worker holds. */
  ghost predicate TakesHeld(db: Db, s: Step) {
    s.Select? && exists id :: id in s.chosen && id in db.held
  }

  lemma SelectKeepsLocks(db: Db, s: Step)
    requires LocksAreExclusive(db) && Enabled(db, s) && s.Select?
    ensures LocksAreExclusive(Next(db, s))
  {
    forall u, id | u in db.txs && id in db.txs[u].chosen ensures id !in s.chosen {
      assert RowLocked(db, id);
    }
  }

  lemma MarkKeepsLocks(db: Db, s: Step)
    requires LocksAreExclusive(db) && Enabled(db, s)
    requires s.MarkPublished? || s.MarkFailed? || s.StrayPublished? || s.StrayFailed?
    ensures LocksAreExclusive(Next(db, s))
  {
    assert !RowLocked(db, s.id);
  }

  lemma NextKeepsLocks(db: Db, s: Step)
    requires LocksAreExclusive(db) && Enabled(db, s)
    ensures LocksAreExclusive(Next(db, s))
  {
    match s
    case Select(_, _, _, _) => SelectKeepsLocks(db, s);
    case Enqueue(_, _, _) =>
    case UpdateNext(_) =>
    case Commit(_) =>
    case Rollback(_) =>
    case _ => MarkKeepsLocks(db, s);
  }

  /** Row locks are exclusive in every run, stray marks or not. */
  lemma {:induction false} RunKeepsLocks(db: Db, run: seq<Step>)
    requires LocksAreExclusive(db) && CanRun(db, run)
    ensures LocksAreExclusive(Run(db, run))
    decreases |run|
  {
    if run != [] {
      NextKeepsLocks(db, run[0]);
      RunKeepsLocks(Next(db, run[0]), run[1..]);
    }
  }

  lemma OtherStepsKeepOneHand(db: Db, s: Step)
    requires LocksAreExclusive(db) && OneHand(db) && Enabled(db, s) && !s.Select?
    ensures OneHand(Next(db, s))
  {
  }

  lemma SelectKeepsOneHand(db: Db, s: Step)
    requires LocksAreExclusive(db) && OneHand(db) && Enabled(db, s) && s.Select?
    ensures OneHand(Next(db, s)) <==> !TakesHeld(db, s)
  {
    SelectKeepsLocks(db, s);
    if id :| id in s.chosen && id in db.held {
      assert id in Next(db, s).txs[s.tx].chosen;
    }
  }

  /** One step, of any kind, puts a row into a second hand exactly when a SELECT takes a row that a worker holds. */
  lemma SecondHandIsASelect(db: Db, s: Step)
    requires LocksAreExclusive(db) && OneHand(db) && Enabled(db, s)
    ensures OneHand(Next(db, s)) <==> !TakesHeld(db, s)
  {
    if s.Select? { SelectKeepsOneHand(db, s); } else { OtherStepsKeepOneHand(db, s); }
  }

  ghost predicate AlwaysOneHand(db: Db, run: seq<Step>)
    requires CanRun(db, run)
    decreases |run|
  {
    OneHand(db) && (run != [] ==> AlwaysOneHand(Next(db, run[0]), run[1..]))
  }

  ghost predicate SomeTakesHeld(db: Db, run: seq<Step>)
    requires CanRun(db, run)
    decreases |run|
  {
    run != [] && (TakesHeld(db, run[0]) || SomeTakesHeld(Next(db, run[0]), run[1..]))
  }

  /** Main result: no row is in two hands in any state of a run exactly when no SELECT of the run takes a row that a
      worker holds. */
  lemma {:induction false} ClaimsAreExclusive(db: Db, run: seq<Step>)
    requires LocksAreExclusive(db) && OneHand(db) && CanRun(db, run)
    ensures AlwaysOneHand(db, run) <==> !SomeTakesHeld(db, run)
    decreases |run|
  {
    if run != [] {
      SecondHandIsASelect(db, run[0]);
      NextKeepsLocks(db, run[0]);
      if !TakesHeld(db, run[0]) {
        ClaimsAreExclusive(Next(db, run[0]), run[1..]);
      }
    }
  }

  /** As long as nobody marks a row that somebody else holds, held rows are not due. */
  lemma NextKeepsExclusive(db: Db, s: Step)
    requires Exclusive(db) && Enabled(db, s) && !MarksHeld(db, s)
    ensures Exclusive(Next(db, s)) && !TakesHeld(db, s)
  {
    NextKeepsLocks(db, s);
    if s.Select? {
      forall id | id in s.chosen ensures id !in db.held {
        var i :| 0 <= i < |s.chosen| && s.chosen[i] == id;
        assert Claimable(db, id, s.now);
      }
    }
    SecondHandIsASelect(db, s);
  }

  ghost predicate RespectsHolders(db: Db, run: seq<Step>)
    requires CanRun(db, run)
    decreases |run|
  {
    run != [] ==> !MarksHeld(db, run[0]) && RespectsHolders(Next(db, run[0]), run[1..])
  }

  /** So a run in which nobody marks a row that somebody else holds keeps every row in one hand. The converse does
      not hold: a stray mark does no harm until a SELECT takes the row; see `HeldRowCanBeTaken`. */
  lemma {:induction false} RespectKeepsOneHand(db: Db, run: seq<Step>)
    requires Exclusive(db) && CanRun(db, run) && RespectsHolders(db, run)
    ensures AlwaysOneHand(db, run) && Exclusive(Run(db, run))
    decreases |run|
  {
    if run != [] {
      NextKeepsExclusive(db, run[0]);
      RespectKeepsOneHand(Next(db, run[0]), run[1..]);
    }
  }

  /** How often a transaction that claims this row commits in the run. */
  ghost function Claims(db: Db, run: seq<Step>, id: Id): nat
    requires CanRun(db, run)
    decreases |run|
  {
    if run == [] then 0
    else
      (if run[0].Commit? && id in db.txs[run[0].tx].chosen then 1 else 0)
      + Claims(Next(db, run[0]), run[1..], id)
  }

  /** A row's `attempts` counts its committed claims, whoever marks it; a rolled-back claim leaves no trace. */
  lemma {:induction false} AttemptsCountClaims(db: Db, run: seq<Step>, id: Id)
    requires LocksAreExclusive(db) && CanRun(db, run)
    ensures id in db.rows ==>
              id in Run(db, run).rows && Run(db, run).rows[id].attempts == db.rows[id].attempts + Claims(db, run, id)
    ensures id !in db.rows && id in Run(db, run).rows ==> Run(db, run).rows[id].attempts == Claims(db, run, id)
    decreases |run|
  {
    if run != [] {
      NextKeepsLocks(db, run[0]);
      AttemptsCountClaims(Next(db, run[0]), run[1..], id);
    }
  }

  // ---------------------------------------------------------------------------------------------
  // Held rows, and rows that have been marked
  // ---------------------------------------------------------------------------------------------

  /** No SELECT in the run takes this row. */
  ghost predicate NeverChosen(run: seq<Step>, id: Id) {
    forall s :: s in run && s.Select? ==> id !in s.chosen
  }

  /** Nobody, holder or not, marks this row failed. */
  ghost predicate NeverFailed(run: seq<Step>, id: Id) {
    forall s :: s in run && (s.MarkFailed? || s.StrayFailed?) ==> s.id != id
  }

  /** Claimed or published, and not locked. */
  ghost predicate Taken(db: Db, id: Id) {
    CanMark(db, id) && (db.rows[id].status == Processing || db.rows[id].status == Published)
  }

  lemma StaysTaken(db: Db, s: Step, id: Id)
    requires Taken(db, id) && Enabled(db, s) && NeverFailed([s], id)
    ensures Taken(Next(db, s), id) && NeverChosen([s], id)
  {
    assert s in [s];
    var db' := Next(db, s);
    assert s.Select? ==> id !in s.chosen;
    assert forall t :: t in db'.txs && id in db'.txs[t].chosen ==> t in db.txs && id in db.txs[t].chosen;
  }

  lemma {:induction false} TakenUntilFailed(db: Db, run: seq<Step>, id: Id)
    requires CanRun(db, run) && Taken(db, id) && NeverFailed(run, id)
    ensures NeverChosen(run, id)
    decreases |run|
  {
    if run != [] {
      assert run == [run[0]] + run[1..];
      StaysTaken(db, run[0], id);
      TakenUntilFailed(Next(db, run[0]), run[1..], id);
    }
  }

  /** A held row is not taken by anybody, however many transactions run and whoever marks other rows, until it is
      marked failed. */
  lemma HeldUntilFailed(db: Db, run: seq<Step>, id: Id)
    requires Exclusive(db) && CanRun(db, run) && id in db.held && NeverFailed(run, id)
    ensures NeverChosen(run, id)
  {
    TakenUntilFailed(db, run, id);
  }

  /** What the stray marks of a row say: its retry time, or none if it is not due. */
  type Mark = Option<int>

  function MarkAfter(mark: Mark, s: Step, id: Id): Mark {
    match s
    case StrayPublished(other) => if other == id then None else mark
    case StrayFailed(other, retryAt) => if other == id then Some(retryAt) else mark
    case _ => mark
  }

  /** The last mark after the run, `mark` being the one before. */
  function LastMark(mark: Mark, run: seq<Step>, id: Id): Mark
    decreases |run|
  {
    if run == [] then mark else LastMark(MarkAfter(mark, run[0], id), run[1..], id)
  }

  /** Nobody locks the row, and it is as it was last marked. */
  ghost predicate Marked(db: Db, id: Id, mark: Mark) {
    match mark
    case None => Taken(db, id)
    case Some(retryAt) =>
      && CanMark(db, id) && (db.rows[id].status == Failed || db.rows[id].status == Pending)
      && db.rows[id].availableAt == retryAt
  }

  /** No holder of this row marks it. */
  ghost predicate NotByHolder(run: seq<Step>, id: Id) {
    forall s :: s in run && (s.MarkPublished? || s.MarkFailed?) ==> s.id != id
  }

  lemma StaysMarked(db: Db, s: Step, id: Id, mark: Mark)
    requires Marked(db, id, mark) && Enabled(db, s) && NeverChosen([s], id)
    requires id in db.held ==> NotByHolder([s], id)
    ensures Marked(Next(db, s), id, MarkAfter(mark, s, id))
    ensures id in Next(db, s).held <==> id in db.held
  {
    assert s in [s];
    var db' := Next(db, s);
    assert forall t :: t in db'.txs && id in db'.txs[t].chosen ==> t in db.txs && id in db.txs[t].chosen;
  }

  lemma {:induction false} MarksLast(db: Db, run: seq<Step>, id: Id, mark: Mark)
    requires CanRun(db, run) && Marked(db, id, mark) && NeverChosen(run, id)
    requires id in db.held ==> NotByHolder(run, id)
    ensures Marked(Run(db, run), id, LastMark(mark, run, id))
    decreases |run|
  {
    if run != [] {
      assert run == [run[0]] + run[1..];
      StaysMarked(db, run[0], id, mark);
      MarksLast(Next(db, run[0]), run[1..], id, MarkAfter(mark, run[0], id));
    }
  }

  /** A SELECT by this transaction at this time can take the row. */
  ghost predicate CanTake(db: Db, tx: TxId, id: Id, now: int) {
    exists limit: nat, chosen :: Enabled(db, Select(tx, limit, now, chosen)) && id in chosen
  }

  /** The oldest of some rows. */
  lemma {:induction false} Oldest(rows: map<Id, Row>, ids: set<Id>) returns (id: Id)
    requires ids != {} && ids <= rows.Keys
    ensures id in ids && forall other :: other in ids ==> rows[id].createdAt <= rows[other].createdAt
    decreases ids
  {
    id :| id in ids;
    if ids != {id} {
      var rest := Oldest(rows, ids - {id});
      if rows[rest].createdAt < rows[id].createdAt { id := rest; }
    }
  }

  lemma {:induction false} InOrder(rows: map<Id, Row>, ids: set<Id>) returns (sorted: seq<Id>)
    requires ids <= rows.Keys
    ensures Distinct(sorted) && forall id :: id in sorted <==> id in ids
    ensures forall i, j :: 0 <= i < j < |sorted| ==>
              sorted[i] in rows && sorted[j] in rows && rows[sorted[i]].createdAt <= rows[sorted[j]].createdAt
    decreases ids
  {
    sorted := [];
    if ids != {} {
      var first := Oldest(rows, ids);
      var rest := InOrder(rows, ids - {first});
      sorted := [first] + rest;
    }
  }

  /** Some SELECT can take a row exactly when the row is due and not locked. */
  lemma ClaimableCanBeTaken(db: Db, tx: TxId, id: Id, now: int)
    requires tx !in db.txs
    ensures CanTake(db, tx, id, now) <==> Claimable(db, id, now)
  {
    if Claimable(db, id, now) {
      var chosen := InOrder(db.rows, set i | i in db.rows && Claimable(db, i, now));
      assert forall i :: 0 <= i < |chosen| ==> chosen[i] in chosen;
      assert Enabled(db, Select(tx, |chosen|, now, chosen));
    }
  }

  /** Main result: once a row is published, and until it is taken again, a SELECT can take it exactly when the last
      mark that somebody else has made on it since says failed, and its retry time has come. */
  lemma StrayFailureRevives(db: Db, run: seq<Step>, tx: TxId, id: Id, now: int)
    requires Exclusive(db) && id in db.rows && db.rows[id].status == Published
    requires CanRun(db, run) && NeverChosen(run, id) && tx !in Run(db, run).txs
    ensures var last := LastMark(None, run, id);
            CanTake(Run(db, run), tx, id, now) <==> last.Some? && last.value <= now
  {
    MarksLast(db, run, id, None);
    ClaimableCanBeTaken(Run(db, run), tx, id, now);
  }

  /** Main result: while a worker holds a row, and until it marks or somebody takes it, a SELECT can take the row from
      under it exactly when the last mark that somebody else has made on it says failed, and its retry time
      has come. */
  lemma HeldRowCanBeTaken(db: Db, run: seq<Step>, tx: TxId, id: Id, now: int)
    requires Exclusive(db) && id in db.held && CanRun(db, run)
    requires NeverChosen(run, id) && NotByHolder(run, id) && tx !in Run(db, run).txs
    ensures var last := LastMark(None, run, id);
            CanTake(Run(db, run), tx, id, now) <==> last.Some? && last.value <= now
    ensures id in Run(db, run).held
  {
    MarksLast(db, run, id, None);
    HeldStaysHeld(db, run, id);
    ClaimableCanBeTaken(Run(db, run), tx, id, now);
  }

  lemma {:induction false} HeldStaysHeld(db: Db, run: seq<Step>, id: Id)
    requires CanRun(db, run) && id in db.held && NotByHolder(run, id)
    ensures id in Run(db, run).held
    decreases |run|
  {
    if run != [] {
      assert run[0] in run;
      HeldStaysHeld(Next(db, run[0]), run[1..], id);
    }
  }

  lemma {:induction false} RunThen(db: Db, run: seq<Step>, s: Step)
    requires CanRun(db, run) && Enabled(Run(db, run), s)
    ensures CanRun(db, run + [s]) && Run(db, run + [s]) == Next(Run(db, run), s)
    decreases |run|
  {
    if run == [] {
      assert (run + [s])[1..] == [];
    } else {
      assert (run + [s])[1..] == run[1..] + [s];
      RunThen(Next(db, run[0]), run[1..], s);
    }
  }

  /** A row is enqueued and claimed. */
  lemma OneRowIsClaimed(id: Id) returns (run: seq<Step>)
    ensures CanRun(Db(map[], map[], {}), run)
    ensures Run(Db(map[], map[], {}), run) == Db(map[id := Row(Processing, 1, 0, 0)], map[], {id})
  {
    var db := Db(map[], map[], {});
    RunThen(db, [], Enqueue(id, 0, 0));
    run := [] + [Enqueue(id, 0, 0)];
    assert Answers(Run(db, run), 1, 0, [id]);
    RunThen(db, run, Select(0, 1, 0, [id]));
    run := run + [Select(0, 1, 0, [id])];
    RunThen(db, run, UpdateNext(0));
    run := run + [UpdateNext(0)];
    RunThen(db, run, Commit(0));
    run := run + [Commit(0)];
    assert SetOf([id]) == {id};
  }

  /** It does happen: a published row is marked failed by somebody else and taken again at once. */
  lemma PublishedRowIsTakenAgain(id: Id) returns (run: seq<Step>)
    ensures CanRun(Db(map[], map[], {}), run) && MarkPublished(id) in run
    ensures CanTake(Run(Db(map[], map[], {}), run), 0, id, 0)
  {
    var db := Db(map[], map[], {});
    var claimed := OneRowIsClaimed(id);
    RunThen(db, claimed, MarkPublished(id));
    var published := claimed + [MarkPublished(id)];
    RunThen(db, published, StrayFailed(id, 0));
    run := published + [StrayFailed(id, 0)];
    ClaimableCanBeTaken(Run(db, run), 0, id, 0);
  }

  lemma TakeIt(db: Db, tx: TxId, id: Id, now: int) returns (s: Step)
    requires CanTake(db, tx, id, now)
    ensures s.Select? && s.tx == tx && id in s.chosen && Enabled(db, s)
  {
    var limit: nat, chosen :| Enabled(db, Select(tx, limit, now, chosen)) && id in chosen;
    s := Select(tx, limit, now, chosen);
  }

  /** A claimed row is marked failed by somebody else and taken from under its holder. */
  lemma HeldRowIsTaken(id: Id) returns (run: seq<Step>)
    ensures CanRun(Db(map[], map[], {}), run)
    ensures !OneHand(Run(Db(map[], map[], {}), run))
  {
    var db := Db(map[], map[], {});
    run := OneRowIsClaimed(id);
    RunThen(db, run, StrayFailed(id, 0));
    run := run + [StrayFailed(id, 0)];
    ClaimableCanBeTaken(Run(db, run), 0, id, 0);
    var take := TakeIt(Run(db, run), 0, id, 0);
    RunThen(db, run, take);
    run := run + [take];
    assert id in Run(db, run).txs[0].chosen;
  }

  /** Nobody but holders marks this row. */
  ghost predicate NeverStray(run: seq<Step>, id: Id) {
    forall s :: s in run && (s.StrayPublished? || s.StrayFailed?) ==> s.id != id
  }

  lemma {:induction false} NoStrayNoMark(mark: Mark, run: seq<Step>, id: Id)
    requires NeverStray(run, id)
    ensures LastMark(mark, run, id) == mark
  {
    if run != [] {
      assert run[0] in run;
      NoStrayNoMark(mark, run[1..], id);
    }
  }

  /** As long as only holders mark it, a published row is never taken again and never changes. */
  lemma PublishedIsTerminal(db: Db, run: seq<Step>, id: Id)
    requires Exclusive(db) && CanRun(db, run) && id in db.rows && db.rows[id].status == Published
    requires NeverStray(run, id)
    ensures NeverChosen(run, id)
    ensures RowIs(Run(db, run), id, db.rows[id])
  {
    PublishedStays(db, run, id);
  }

  ghost predicate RowIs(db: Db, id: Id, row: Row) {
    id in db.rows && db.rows[id] == row
  }

  /** A row that nobody holds, takes or marks stays as it is. */
  lemma {:induction false} UntouchedStays(db: Db, run: seq<Step>, id: Id)
    requires CanMark(db, id) && id !in db.held
    requires CanRun(db, run) && NeverChosen(run, id) && NeverStray(run, id)
    ensures RowIs(Run(db, run), id, db.rows[id])
    decreases |run|
  {
    if run != [] {
      assert run[0] in run;
      var db' := Next(db, run[0]);
      assert forall t :: t in db'.txs && id in db'.txs[t].chosen ==> t in db.txs && id in db.txs[t].chosen;
      UntouchedStays(db', run[1..], id);
    }
  }

  lemma {:induction false} PublishedStays(db: Db, run: seq<Step>, id: Id)
    requires CanMark(db, id) && db.rows[id].status == Published && id !in db.held
    requires CanRun(db, run) && NeverStray(run, id)
    ensures NeverChosen(run, id)
    ensures RowIs(Run(db, run), id, db.rows[id])
    decreases |run|
  {
    if run != [] {
      assert run == [run[0]] + run[1..];
      StaysTaken(db, run[0], id);
      StaysMarked(db, run[0], id, None);
      PublishedStays(Next(db, run[0]), run[1..], id);
    }
  }

  /** After its holder has marked it published, and until somebody else marks it, the row is published, as it was
      otherwise, and nobody takes it. */
  lemma PublishedUntilMarked(db: Db, id: Id, run: seq<Step>)
    requires Exclusive(db) && Enabled(db, MarkPublished(id))
    requires CanRun(Next(db, MarkPublished(id)), run) && NeverStray(run, id)
    ensures RowIs(Run(Next(db, MarkPublished(id)), run), id, db.rows[id].(status := Published))
    ensures NeverChosen(run, id)
  {
    var published := Next(db, MarkPublished(id));
    assert forall t :: t in published.txs && id in published.txs[t].chosen ==> t in db.txs && id in db.txs[t].chosen;
    PublishedStays(published, run, id);
  }

  /** After it is enqueued, and until it is taken, a SELECT can take a row exactly from its available time on, if nobody
      marks it. */
  lemma EnqueuedIsTakenInTime(db: Db, id: Id, createdAt: int, availableAt: int, run: seq<Step>, tx: TxId, now: int)
    requires Exclusive(db) && Enabled(db, Enqueue(id, createdAt, availableAt))
    requires CanRun(Next(db, Enqueue(id, createdAt, availableAt)), run) && NeverChosen(run, id) && NeverStray(run, id)
    requires tx !in Run(Next(db, Enqueue(id, createdAt, availableAt)), run).txs
    ensures CanTake(Run(Next(db, Enqueue(id, createdAt, availableAt)), run), tx, id, now) <==> availableAt <= now
  {
    var enqueued := Next(db, Enqueue(id, createdAt, availableAt));
    assert forall t :: t in enqueued.txs && id in enqueued.txs[t].chosen ==> t in db.txs && id in db.txs[t].chosen;
    NoStrayNoMark(Some(availableAt), run, id);
    MarksLast(enqueued, run, id, Some(availableAt));
    ClaimableCanBeTaken(Run(enqueued, run), tx, id, now);
  }

  /** A claim that is rolled back leaves no trace: its rows can be taken again as before it. */
  lemma RolledBackRowsAreFree(db: Db, claim: TxId, id: Id, tx: TxId, now: int)
    requires LocksAreExclusive(db) && claim in db.txs && id in db.txs[claim].chosen && tx !in db.txs
    ensures Next(db, Rollback(claim)).rows == db.rows
    ensures CanTake(Next(db, Rollback(claim)), tx, id, now) <==> Due(db.rows[id], now)
  {
    var db' := Next(db, Rollback(claim));
    assert !RowLocked(db', id);
    ClaimableCanBeTaken(db', tx, id, now);
  }

  ghost predicate OldestFirst(rows: map<Id, Row>, ids: seq<Id>) {
    && (forall i :: 0 <= i < |ids| ==> ids[i] in rows)
    && (forall i, j :: 0 <= i < j < |ids| ==> rows[ids[i]].createdAt <= rows[ids[j]].createdAt)
  }

  lemma CreatedOnce(db: Db, s: Step, id: Id)
    requires Enabled(db, s) && id in db.rows
    ensures id in Next(db, s).rows && Next(db, s).rows[id].createdAt == db.rows[id].createdAt
  {
  }

  lemma {:induction false} CreationStays(db: Db, run: seq<Step>, ids: seq<Id>)
    requires LocksAreExclusive(db) && CanRun(db, run) && OldestFirst(db.rows, ids)
    ensures OldestFirst(Run(db, run).rows, ids)
    decreases |run|
  {
    if run != [] {
      var db' := Next(db, run[0]);
      NextKeepsLocks(db, run[0]);
      forall i | 0 <= i < |ids| ensures ids[i] in db'.rows && db'.rows[ids[i]].createdAt == db.rows[ids[i]].createdAt {
        CreatedOnce(db, run[0], ids[i]);
      }
      CreationStays(db', run[1..], ids);
    }
  }

  /** Every claim of a run has taken its rows oldest first, and they keep their time of creation. */
  lemma {:induction false} ClaimsAreOldestFirst(db: Db, run: seq<Step>, s: Step)
    requires LocksAreExclusive(db) && CanRun(db, run) && s in run && s.Select?
    ensures OldestFirst(Run(db, run).rows, s.chosen)
    decreases |run|
  {
    NextKeepsLocks(db, run[0]);
    if s == run[0] {
      assert forall i :: 0 <= i < |s.chosen| ==> Claimable(db, s.chosen[i], s.now);
      assert Next(db, s).rows == db.rows && OldestFirst(db.rows, s.chosen);
      CreationStays(Next(db, s), run[1..], s.chosen);
    } else {
      ClaimsAreOldestFirst(Next(db, run[0]), run[1..], s);
    }
  }

  lemma {:induction false} DistinctFit(ids: seq<Id>, all: set<Id>)
    requires Distinct(ids) && forall i :: 0 <= i < |ids| ==> ids[i] in all
    ensures |ids| <= |all|
    decreases |ids|
  {
    if ids != [] {
      var rest := ids[..|ids| - 1];
      forall i | 0 <= i < |rest| ensures rest[i] in all - {ids[|ids| - 1]} {
        assert rest[i] == ids[i];
      }
      DistinctFit(rest, all - {ids[|ids| - 1]});
    }
  }

  /** The other rows that can be claimed and are as old as this one. */
  ghost function OlderRows(db: Db, id: Id, now: int): set<Id>
    requires id in db.rows
  {
    set o | o in db.rows && o != id && Claimable(db, o, now) && db.rows[o].createdAt <= db.rows[id].createdAt
  }

  /** Oldest first: a SELECT takes every due, unlocked row that has fewer than `limit` others as old as itself. */
  lemma OldRowsGoFirst(db: Db, tx: TxId, limit: nat, now: int, chosen: seq<Id>, id: Id)
    requires Enabled(db, Select(tx, limit, now, chosen)) && Claimable(db, id, now)
    requires |OlderRows(db, id, now)| < limit
    ensures id in chosen
  {
    if id !in chosen {
      DistinctFit(chosen, OlderRows(db, id, now));
    }
  }

  /** After its holder has marked it failed, and until it is taken, a SELECT can take the row exactly from the retry
      time on, if nobody else marks it. */
  lemma RetryTimeIsKept(db: Db, id: Id, retryAt: int, run: seq<Step>, tx: TxId, now: int)
    requires Exclusive(db) && Enabled(db, MarkFailed(id, retryAt))
    requires CanRun(Next(db, MarkFailed(id, retryAt)), run) && NeverChosen(run, id) && NeverStray(run, id)
    requires tx !in Run(Next(db, MarkFailed(id, retryAt)), run).txs
    ensures CanTake(Run(Next(db, MarkFailed(id, retryAt)), run), tx, id, now) <==> retryAt <= now
    ensures RowIs(Run(Next(db, MarkFailed(id, retryAt)), run), id,
                  db.rows[id].(status := Failed, availableAt := retryAt))
  {
    var failed := Next(db, MarkFailed(id, retryAt));
    assert forall t :: t in failed.txs && id in failed.txs[t].chosen ==> t in db.txs && id in db.txs[t].chosen;
    NoStrayNoMark(Some(retryAt), run, id);
    MarksLast(failed, run, id, Some(retryAt));
    UntouchedStays(failed, run, id);
    ClaimableCanBeTaken(Run(failed, run), tx, id, now);
  }

  datatype Claimed = Claimed(id: Id, attempts: int)

  lemma OneMoreClaimed(rows: map<Id, Row>, chosen: seq<Id>, i: nat)
    requires Distinct(chosen) && i < |chosen| && chosen[i] in rows
    ensures chosen[i] !in SetOf(chosen[..i])
    ensures ClaimAll(rows, SetOf(chosen[..i + 1]))
         == ClaimAll(rows, SetOf(chosen[..i]))[chosen[i] := Claim(rows[chosen[i]])]
  {
    assert SetOf(chosen[..i + 1]) == SetOf(chosen[..i]) + {chosen[i]};
  }

  /** The table, with the transactions and holders that only the proofs know of. */
  class OutboxTable {
    var rows: map<Id, Row>
    ghost var txs: map<TxId, Tx>
    ghost var held: set<Id>

    ghost function View(): Db
      reads this
    {
      Db(rows, txs, held)
    }

    /** The update loop. */
    method UpdateRows(chosen: seq<Id>) returns (claimed: seq<Claimed>)
      requires Distinct(chosen) && forall id :: id in chosen ==> id in rows
      modifies this`rows
      ensures rows == ClaimAll(old(rows), SetOf(chosen))
      ensures |claimed| == |chosen|
      ensures forall i :: 0 <= i < |chosen| ==> claimed[i] == Claimed(chosen[i], old(rows)[chosen[i]].attempts + 1)
    {
      claimed := [];
      ghost var before := rows;
      for i := 0 to |chosen|
        invariant rows == ClaimAll(before, SetOf(chosen[..i]))
        invariant |claimed| == i
        invariant forall k :: 0 <= k < i ==> claimed[k] == Claimed(chosen[k], before[chosen[k]].attempts + 1)
      {
        var id := chosen[i];
        OneMoreClaimed(before, chosen, i);
        claimed := claimed + [Claimed(id, rows[id].attempts + 1)];
        rows := rows[id := Claim(rows[id])];
      }
      assert chosen[..|chosen|] == chosen;
    }

    /** The claim transaction after its SELECT has answered with `chosen`: all its updates, then its commit. The
        caller is told the attempts that the table now says. */
    method ClaimRows(tx: TxId, chosen: seq<Id>) returns (claimed: seq<Claimed>)
      requires LocksAreExclusive(View()) && tx in txs && txs[tx] == Tx(chosen, 0)
      modifies this
      ensures View() == Next(old(View()).(txs := old(txs)[tx := Tx(chosen, |chosen|)]), Commit(tx))
      ensures |claimed| == |chosen|
      ensures forall i :: 0 <= i < |chosen| ==>
                chosen[i] in rows && claimed[i] == Claimed(chosen[i], rows[chosen[i]].attempts)
    {
      claimed := UpdateRows(chosen);
      txs, held := txs - {tx}, held + SetOf(chosen);
    }

    /** By the holder of the row or by somebody else; without such a row nothing happens. */
    method MarkPublishedRow(id: Id, ghost holds: bool)
      requires !RowLocked(View(), id) && (holds ==> id in held)
      modifies this
      ensures id in old(rows) ==> View() == Next(old(View()), if holds then MarkPublished(id) else StrayPublished(id))
      ensures id !in old(rows) ==> rows == old(rows)
    {
      if id in rows { rows := rows[id := rows[id].(status := Published)]; }
      if holds { held := held - {id}; }
    }

    method MarkFailedRow(id: Id, retryAt: int, ghost holds: bool)
      requires !RowLocked(View(), id) && (holds ==> id in held)
      modifies this
      ensures id in old(rows) ==>
                View() == Next(old(View()), if holds then MarkFailed(id, retryAt) else StrayFailed(id, retryAt))
      ensures id !in old(rows) ==> rows == old(rows)
    {
      if id in rows { rows := rows[id := rows[id].(status := Failed, availableAt := retryAt)]; }
      if holds { held := held - {id}; }
    }
  }
}
