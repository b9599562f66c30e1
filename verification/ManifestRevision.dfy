/**
 The managed manifest and the triggers that count its changes per transfer task. A statement is a
 sequence of row changes that either all happen, triggers included, or all do not.
 */
module ManifestRevision {
  import opened Common

  const MAX_REVISION: int := 9223372036854775807

  /** A stored revision; SQLite columns may also hold a value that is not an integer. */
  datatype Revision = Int(value: int) | NonInteger

  /** The columns the update trigger watches, apart from the task itself. */
  datatype Tracked = Tracked(
    libraryId: int, downloadTaskId: string, identityRevision: int, kind: string, relativePath: string,
    providerItemId: string, providerParentId: string, size: int, managed: bool, active: bool)

  datatype Row = Row(task: string, tracked: Tracked, untracked: string)

  datatype Db = Db(items: map<int, Row>, revisions: map<string, Revision>)

  datatype RowOp =
    | InsertRow(id: int, row: Row)
    | DeleteRow(id: int)
    | UpdateRow(id: int, newId: int, row: Row)

  datatype Outcome = Done(db: Db) | Abort

  /** The guarded bump of one task; a task without a row is not updated. */
  function Bump(db: Db, task: string): Outcome {
    if task !in db.revisions then Done(db)
    else
      match db.revisions[task]
      case Int(v) => if 0 <= v < MAX_REVISION then Done(db.(revisions := db.revisions[task := Int(v + 1)])) else Abort
      case NonInteger => Abort
  }

  /** One row change followed by its trigger. */
  function ApplyRow(db: Db, op: RowOp): Outcome {
    match op
    case InsertRow(id, row) =>
      if id in db.items then Abort else Bump(db.(items := db.items[id := row]), row.task)
    case DeleteRow(id) =>
      if id !in db.items then Abort else Bump(db.(items := db.items - {id}), db.items[id].task)
    case UpdateRow(id, newId, row) =>
      if id !in db.items || (newId != id && newId in db.items) then Abort
      else
        var was := db.items[id];
        var changed := db.(items := (db.items - {id})[newId := row]);
        if was.task == row.task && was.tracked == row.tracked then Done(changed)
        else if was.task == row.task then Bump(changed, row.task)
        else
          match Bump(changed, was.task)
          case Abort => Abort
          case Done(next) => Bump(next, row.task)
  }

  function ApplyRows(db: Db, ops: seq<RowOp>): Outcome
    decreases |ops|
  {
    if ops == [] then Done(db)
    else
      match ApplyRow(db, ops[0])
      case Abort => Abort
      case Done(next) => ApplyRows(next, ops[1..])
  }

  /** A statement; `rejected` stands for any other constraint that fails it. */
  datatype Statement = Statement(ops: seq<RowOp>, rejected: bool)

  function Execute(db: Db, stmt: Statement): Db {
    var outcome := ApplyRows(db, stmt.ops);
    if stmt.rejected || outcome.Abort? then db else outcome.db
  }

  /** The change moves a row of the task to another primary key. */
  predicate Rekeys(op: RowOp, task: string) { op.UpdateRow? && op.newId != op.id && op.row.task == task }

  /** The statement rewrites no primary key of a row of the task. */
  ghost predicate KeepsKeys(stmt: Statement, task: string) {
    forall i :: 0 <= i < |stmt.ops| ==> !Rekeys(stmt.ops[i], task)
  }

  /** The tracked manifest of one task, by row. */
  function View(db: Db, task: string): map<int, Tracked> {
    map id | id in db.items && db.items[id].task == task :: db.items[id].tracked
  }

  // ---- A change of the manifest shows in the revision ---------------------------------------

  /** From a to b the task's revision stands still with its manifest, or strictly grows within the bound. */
  ghost predicate Advances(a: Db, b: Db, task: string)
    requires task in a.revisions
  {
    && task in b.revisions
    && (|| (b.revisions[task] == a.revisions[task] && View(b, task) == View(a, task))
        || (&& a.revisions[task].Int? && b.revisions[task].Int?
            && 0 <= a.revisions[task].value < b.revisions[task].value <= MAX_REVISION))
  }

  lemma AdvancesTransitive(a: Db, b: Db, c: Db, task: string)
    requires task in a.revisions && Advances(a, b, task) && Advances(b, c, task)
    ensures Advances(a, c, task)
  {
  }

  predicate Shows(db: Db, id: int, task: string, tracked: Tracked) {
    id in db.items && db.items[id].task == task && db.items[id].tracked == tracked
  }

  /** Databases that differ only in row `id`, and not in what it shows of the task. */
  lemma UntouchedView(a: Db, b: Db, id: int, task: string)
    requires forall k :: k != id ==> (k in a.items <==> k in b.items) && (k in a.items ==> a.items[k] == b.items[k])
    requires forall tracked :: Shows(a, id, task, tracked) <==> Shows(b, id, task, tracked)
    ensures View(a, task) == View(b, task)
  {
    var left, right := View(a, task), View(b, task);
    forall k ensures k in left <==> k in right {
      if k == id && k in left { assert Shows(a, id, task, left[k]); }
      if k == id && k in right { assert Shows(b, id, task, right[k]); }
    }
    forall k | k in left ensures left[k] == right[k] {
      if k == id { assert Shows(a, id, task, left[k]); }
    }
  }

  lemma RowAdvances(db: Db, op: RowOp, task: string)
    requires task in db.revisions && ApplyRow(db, op).Done? && !Rekeys(op, task)
    ensures Advances(db, ApplyRow(db, op).db, task)
  {
    RowRevision(db, op, task);
    if !Touches(db.items, op, task) { QuietRowView(db, op, task); }
  }

  lemma {:induction false} RowsAdvance(db: Db, ops: seq<RowOp>, task: string)
    requires task in db.revisions && ApplyRows(db, ops).Done?
    requires forall i :: 0 <= i < |ops| ==> !Rekeys(ops[i], task)
    ensures Advances(db, ApplyRows(db, ops).db, task)
    decreases |ops|
  {
    if ops == [] {
    } else {
      RowAdvances(db, ops[0], task);
      RowsAdvance(ApplyRow(db, ops[0]).db, ops[1..], task);
      AdvancesTransitive(db, ApplyRow(db, ops[0]).db, ApplyRows(db, ops).db, task);
    }
  }

  /** The database after the first n statements of a history. */
  function After(db: Db, history: seq<Statement>, n: nat): Db
    requires n <= |history|
  {
    if n == 0 then db else Execute(After(db, history, n - 1), history[n - 1])
  }

  lemma {:induction false} HistoryAdvances(db: Db, history: seq<Statement>, i: nat, j: nat, task: string)
    requires i <= j <= |history| && task in After(db, history, i).revisions
    requires forall k :: i <= k < j ==> KeepsKeys(history[k], task)
    ensures Advances(After(db, history, i), After(db, history, j), task)
  {
    if i == j {
    } else {
      HistoryAdvances(db, history, i, j - 1, task);
      var before, stmt := After(db, history, j - 1), history[j - 1];
      if !stmt.rejected && ApplyRows(before, stmt.ops).Done? { RowsAdvance(before, stmt.ops, task); }
      AdvancesTransitive(After(db, history, i), before, After(db, history, j), task);
    }
  }

  /**
   No ABA: a task's revision never decreases, and if it is the same at two moments between which no primary key of
   the task's rows was rewritten, the task's manifest was the same then and at every moment between.
   */
  lemma NoAba(db: Db, history: seq<Statement>, i: nat, k: nat, j: nat, task: string)
    requires i <= k <= j <= |history| && task in After(db, history, i).revisions
    requires forall n :: i <= n < j ==> KeepsKeys(history[n], task)
    ensures task in After(db, history, k).revisions && task in After(db, history, j).revisions
    ensures var a, b := After(db, history, i).revisions[task], After(db, history, j).revisions[task];
            a == b || (a.Int? && b.Int? && 0 <= a.value < b.value <= MAX_REVISION)
    ensures After(db, history, i).revisions[task] == After(db, history, j).revisions[task] ==>
              && View(After(db, history, k), task) == View(After(db, history, i), task)
              && View(After(db, history, j), task) == View(After(db, history, i), task)
  {
    HistoryAdvances(db, history, i, k, task);
    HistoryAdvances(db, history, k, j, task);
  }

  /** An update that only rewrites the primary key is not watched: the rows move and the revision stays. */
  lemma RekeyingEscapes(row: Row)
    ensures var db := Db(map[1 := row], map[row.task := Int(0)]);
            var after := Execute(db, Statement([UpdateRow(1, 2, row)], false));
            after.revisions == db.revisions && View(after, row.task) != View(db, row.task)
  {
    var db := Db(map[1 := row], map[row.task := Int(0)]);
    var ops := [UpdateRow(1, 2, row)];
    assert ops[1..] == [];
    var moved := db.(items := (db.items - {1})[2 := row]);
    assert ApplyRow(db, ops[0]) == Done(moved);
    assert ApplyRows(moved, ops[1..]) == Done(moved);
    assert 2 in View(moved, row.task) && 2 !in View(db, row.task);
  }

  // ---- The revision counts ------------------------------------------------------------------

  /** The rows after the change, triggers apart. */
  function Changed(items: map<int, Row>, op: RowOp): map<int, Row> {
    match op
    case InsertRow(id, row) => items[id := row]
    case DeleteRow(id) => items - {id}
    case UpdateRow(id, newId, row) => (items - {id})[newId := row]
  }

  /** The row to change is there and the key it gets is free. */
  predicate KeyFits(items: map<int, Row>, op: RowOp) {
    match op
    case InsertRow(id, _) => id !in items
    case DeleteRow(id) => id in items
    case UpdateRow(id, newId, _) => id in items && (newId == id || newId !in items)
  }

  /** The row change touches what the task's manifest shows. */
  predicate Touches(items: map<int, Row>, op: RowOp, task: string) {
    match op
    case InsertRow(_, row) => row.task == task
    case DeleteRow(id) => id in items && items[id].task == task
    case UpdateRow(id, _, row) =>
      id in items && (items[id].task == task || row.task == task)
      && (items[id].task != row.task || items[id].tracked != row.tracked)
  }

  function AllChanged(items: map<int, Row>, ops: seq<RowOp>): map<int, Row>
    decreases |ops|
  {
    if ops == [] then items else AllChanged(Changed(items, ops[0]), ops[1..])
  }

  predicate KeysFit(items: map<int, Row>, ops: seq<RowOp>)
    decreases |ops|
  {
    ops == [] || (KeyFits(items, ops[0]) && KeysFit(Changed(items, ops[0]), ops[1..]))
  }

  /** How many of the row changes touch the task. */
  function Touching(items: map<int, Row>, ops: seq<RowOp>, task: string): nat
    decreases |ops|
  {
    if ops == [] then 0
    else One(Touches(items, ops[0], task)) + Touching(Changed(items, ops[0]), ops[1..], task)
  }

  function Raised(r: Revision, n: nat): Revision { if r.Int? then Int(r.value + n) else r }

  /** The revision can be raised n times: it is an integer from 0 up, and the bound is not passed. */
  predicate Affords(r: Revision, n: nat) { n == 0 || (r.Int? && 0 <= r.value && r.value + n <= MAX_REVISION) }

  ghost predicate AllAfford(revisions: map<string, Revision>, items: map<int, Row>, ops: seq<RowOp>) {
    forall task :: task in revisions ==> Affords(revisions[task], Touching(items, ops, task))
  }

  function AllRaised(revisions: map<string, Revision>, items: map<int, Row>, ops: seq<RowOp>): map<string, Revision> {
    map task | task in revisions :: Raised(revisions[task], Touching(items, ops, task))
  }

  /** When one row change goes through, and what it leaves. */
  lemma RowDoneIff(db: Db, op: RowOp)
    ensures ApplyRow(db, op).Done? <==>
            && KeyFits(db.items, op)
            && forall task :: task in db.revisions ==> Affords(db.revisions[task], One(Touches(db.items, op, task)))
    ensures ApplyRow(db, op).Done? ==> ApplyRow(db, op).db.items == Changed(db.items, op)
    ensures ApplyRow(db, op).Done? ==>
              && ApplyRow(db, op).db.revisions.Keys == db.revisions.Keys
              && forall task :: task in db.revisions ==>
                   ApplyRow(db, op).db.revisions[task] == Raised(db.revisions[task], One(Touches(db.items, op, task)))
  {
  }

  lemma AffordsNext(r: Revision, first: nat, rest: nat)
    ensures Affords(r, first + rest) <==> Affords(r, first) && Affords(Raised(r, first), rest)
    ensures Raised(Raised(r, first), rest) == Raised(r, first + rest)
  {
  }

  lemma AllAffordNext(db: Db, next: Db, ops: seq<RowOp>)
    requires ops != [] && ApplyRow(db, ops[0]) == Done(next)
    ensures AllAfford(db.revisions, db.items, ops) <==> AllAfford(next.revisions, next.items, ops[1..])
    ensures AllRaised(db.revisions, db.items, ops) == AllRaised(next.revisions, next.items, ops[1..])
  {
    RowDoneIff(db, ops[0]);
    forall task | task in db.revisions
      ensures Affords(db.revisions[task], Touching(db.items, ops, task)) <==>
              Affords(next.revisions[task], Touching(next.items, ops[1..], task))
      ensures Raised(db.revisions[task], Touching(db.items, ops, task)) ==
              Raised(next.revisions[task], Touching(next.items, ops[1..], task))
    {
      AffordsNext(db.revisions[task], One(Touches(db.items, ops[0], task)), Touching(next.items, ops[1..], task));
    }
    assert next.revisions.Keys == db.revisions.Keys;
  }

  lemma FirstAffords(db: Db, ops: seq<RowOp>)
    requires ops != [] && KeyFits(db.items, ops[0]) && AllAfford(db.revisions, db.items, ops)
    ensures ApplyRow(db, ops[0]).Done?
  {
    RowDoneIff(db, ops[0]);
    forall task | task in db.revisions
      ensures Affords(db.revisions[task], One(Touches(db.items, ops[0], task)))
    {
      assert Affords(db.revisions[task], Touching(db.items, ops, task));
    }
  }

  /**
   The row changes of a statement go through exactly when every key is free or present as its change needs and every
   task that has a row affords the changes that touch it. Then the rows are the plain changes, and each task's
   revision has grown by the number of changes that touch it.
   */
  lemma {:induction false} RowsDoneIff(db: Db, ops: seq<RowOp>)
    ensures ApplyRows(db, ops).Done? <==> KeysFit(db.items, ops) && AllAfford(db.revisions, db.items, ops)
    ensures ApplyRows(db, ops).Done? ==>
              ApplyRows(db, ops).db == Db(AllChanged(db.items, ops), AllRaised(db.revisions, db.items, ops))
    decreases |ops|
  {
    if ops == [] {
      assert AllRaised(db.revisions, db.items, ops) == db.revisions;
    } else if ApplyRow(db, ops[0]).Done? {
      var next := ApplyRow(db, ops[0]).db;
      RowDoneIff(db, ops[0]);
      AllAffordNext(db, next, ops);
      RowsDoneIff(next, ops[1..]);
    } else if KeyFits(db.items, ops[0]) && AllAfford(db.revisions, db.items, ops) {
      FirstAffords(db, ops);
    }
  }

  /** A statement raises a task's revision by exactly the number of its row changes that touch the task. */
  lemma RevisionCounts(db: Db, ops: seq<RowOp>, task: string)
    requires task in db.revisions && db.revisions[task].Int? && ApplyRows(db, ops).Done?
    ensures var after := ApplyRows(db, ops).db;
            && task in after.revisions
            && after.revisions[task] == Int(db.revisions[task].value + Touching(db.items, ops, task))
  {
    RowsDoneIff(db, ops);
  }

  /** A revision of 0, as every task has at first, lets the first row in. */
  lemma FirstRowGoesIn(db: Db, id: int, row: Row)
    requires id !in db.items && row.task in db.revisions && db.revisions[row.task] == Int(0)
    ensures Execute(db, Statement([InsertRow(id, row)], false)) ==
            Db(db.items[id := row], db.revisions[row.task := Int(1)])
  {
    var ops := [InsertRow(id, row)];
    assert ops[1..] == [];
    assert ApplyRows(ApplyRow(db, ops[0]).db, ops[1..]) == ApplyRow(db, ops[0]);
  }

  // ---- Primary keys may be rewritten --------------------------------------------------------

  function Showing(db: Db, task: string, x: Tracked): set<int> {
    set id | id in db.items && Shows(db, id, task, x)
  }

  /** The task shows every tracked value on as many rows of b as of a. */
  ghost predicate SameContents(a: Db, b: Db, task: string) {
    forall x :: |Showing(a, task, x)| == |Showing(b, task, x)|
  }

  lemma RekeyedCount(a: Db, b: Db, task: string, x: Tracked, id: int, newId: int)
    requires Showing(b, task, x) == Showing(a, task, x) - {id} + {newId}
    requires id in Showing(a, task, x) && newId !in Showing(a, task, x) - {id}
    ensures |Showing(a, task, x)| == |Showing(b, task, x)|
  {
  }

  lemma QuietShowing(db: Db, op: RowOp, task: string, x: Tracked)
    requires KeyFits(db.items, op) && !Touches(db.items, op, task)
    ensures var after := Showing(Db(Changed(db.items, op), db.revisions), task, x);
            after == if op.UpdateRow? && op.id in Showing(db, task, x) then Showing(db, task, x) - {op.id} + {op.newId}
                     else Showing(db, task, x)
  {
  }

  lemma ShowingItems(a: Db, b: Db, task: string, x: Tracked)
    requires a.items == b.items
    ensures Showing(a, task, x) == Showing(b, task, x)
  {
  }

  /** A row change that does not touch the task leaves its revision and what it shows alone. */
  lemma QuietRow(db: Db, op: RowOp, task: string)
    requires ApplyRow(db, op).Done? && !Touches(db.items, op, task)
    ensures SameContents(db, ApplyRow(db, op).db, task)
  {
    var after := ApplyRow(db, op).db;
    RowDoneIff(db, op);
    forall x ensures |Showing(db, task, x)| == |Showing(after, task, x)| {
      QuietShowing(db, op, task, x);
      ShowingItems(after, Db(Changed(db.items, op), db.revisions), task, x);
      if op.UpdateRow? && op.id in Showing(db, task, x) {
        RekeyedCount(db, after, task, x, op.id, op.newId);
      }
    }
  }

  /** A value that the task shows on one row more, or on one row less, after a touching change. */
  function Moving(items: map<int, Row>, op: RowOp, task: string): Tracked
    requires KeyFits(items, op) && Touches(items, op, task)
  {
    match op
    case InsertRow(_, row) => row.tracked
    case DeleteRow(id) => items[id].tracked
    case UpdateRow(id, _, row) => if row.task == task then row.tracked else items[id].tracked
  }

  lemma MovingShows(db: Db, op: RowOp, task: string)
    requires KeyFits(db.items, op) && Touches(db.items, op, task)
    ensures var x := Moving(db.items, op, task);
            var was, now := Showing(db, task, x), Showing(Db(Changed(db.items, op), db.revisions), task, x);
            (exists id :: id !in was && now == was + {id}) || (exists id :: id in was && now == was - {id})
  {
    var x := Moving(db.items, op, task);
    var was, now := Showing(db, task, x), Showing(Db(Changed(db.items, op), db.revisions), task, x);
    match op
    case InsertRow(id, row) => assert id !in was && now == was + {id};
    case DeleteRow(id) => assert id in was && now == was - {id};
    case UpdateRow(id, newId, row) =>
      if row.task == task {
        assert newId !in was && now == was + {newId};
      } else {
        assert id in was && now == was - {id};
      }
  }

  /** A row change touches a task exactly when it changes how often the task shows some tracked value. */
  lemma TouchesIff(db: Db, op: RowOp, task: string)
    requires ApplyRow(db, op).Done?
    ensures Touches(db.items, op, task) <==> !SameContents(db, ApplyRow(db, op).db, task)
  {
    if Touches(db.items, op, task) {
      var x := Moving(db.items, op, task);
      RowDoneIff(db, op);
      MovingShows(db, op, task);
      ShowingItems(ApplyRow(db, op).db, Db(Changed(db.items, op), db.revisions), task, x);
      assert |Showing(db, task, x)| != |Showing(ApplyRow(db, op).db, task, x)|;
    } else {
      QuietRow(db, op, task);
    }
  }

  /** Keyed by row, what the task shows survives an untouching change exactly when no row of it is rekeyed. */
  lemma QuietRowView(db: Db, op: RowOp, task: string)
    requires ApplyRow(db, op).Done? && !Touches(db.items, op, task)
    ensures View(ApplyRow(db, op).db, task) == View(db, task) <==> !Rekeys(op, task)
  {
    var after := ApplyRow(db, op).db;
    if Rekeys(op, task) {
      assert op.newId in View(after, task) && op.newId !in View(db, task);
    } else if op.UpdateRow? && op.newId != op.id {
      assert View(after, task).Keys == View(db, task).Keys;
    } else {
      UntouchedView(db, after, op.id, task);
    }
  }

  /** From a to b the revision and the contents stand still, or the revision strictly grows within the bound. */
  ghost predicate Counts(a: Db, b: Db, task: string)
    requires task in a.revisions
  {
    && task in b.revisions
    && (|| (b.revisions[task] == a.revisions[task] && SameContents(a, b, task))
        || (&& a.revisions[task].Int? && b.revisions[task].Int?
            && 0 <= a.revisions[task].value < b.revisions[task].value <= MAX_REVISION))
  }

  lemma RowRevision(db: Db, op: RowOp, task: string)
    requires task in db.revisions && ApplyRow(db, op).Done?
    ensures var after := ApplyRow(db, op).db;
            && task in after.revisions
            && if Touches(db.items, op, task)
               then && db.revisions[task].Int? && 0 <= db.revisions[task].value < MAX_REVISION
                    && after.revisions[task] == Int(db.revisions[task].value + 1)
               else after.revisions[task] == db.revisions[task]
  {
  }

  lemma {:induction false} RowsCount(db: Db, ops: seq<RowOp>, task: string)
    requires task in db.revisions && ApplyRows(db, ops).Done?
    ensures Counts(db, ApplyRows(db, ops).db, task)
    decreases |ops|
  {
    if ops == [] {
    } else {
      RowRevision(db, ops[0], task);
      if !Touches(db.items, ops[0], task) { QuietRow(db, ops[0], task); }
      RowsCount(ApplyRow(db, ops[0]).db, ops[1..], task);
    }
  }

  lemma {:induction false} HistoryCounts(db: Db, history: seq<Statement>, i: nat, j: nat, task: string)
    requires i <= j <= |history| && task in After(db, history, i).revisions
    ensures Counts(After(db, history, i), After(db, history, j), task)
  {
    if i == j {
    } else {
      HistoryCounts(db, history, i, j - 1, task);
      var before, stmt := After(db, history, j - 1), history[j - 1];
      if !stmt.rejected && ApplyRows(before, stmt.ops).Done? { RowsCount(before, stmt.ops, task); }
    }
  }

  /**
   Over every history, rewritten primary keys included: equal revisions at two moments mean that the task showed the
   same tracked values, each equally often, then and at every moment between.
   */
  lemma NoAbaContents(db: Db, history: seq<Statement>, i: nat, k: nat, j: nat, task: string)
    requires i <= k <= j <= |history| && task in After(db, history, i).revisions
    ensures task in After(db, history, j).revisions
    ensures After(db, history, i).revisions[task] == After(db, history, j).revisions[task] ==>
              && SameContents(After(db, history, i), After(db, history, k), task)
              && SameContents(After(db, history, i), After(db, history, j), task)
  {
    HistoryCounts(db, history, i, k, task);
    HistoryCounts(db, history, k, j, task);
  }

  // ---- The table as the database runs it ----------------------------------------------------

  /** The two tables; a statement runs row by row and is rolled back when a trigger aborts. */
  class Tables {
    var items: map<int, Row>
    var revisions: map<string, Revision>

    ghost function Model(): Db
      reads this
    {
      Db(items, revisions)
    }

    constructor (revisions: map<string, Revision>)
      ensures Model() == Db(map[], revisions)
    {
      this.items, this.revisions := map[], revisions;
    }

    method BumpTask(task: string) returns (ok: bool)
      modifies this`revisions
      ensures ok <==> old(Bump(Model(), task)).Done?
      ensures Model() == if ok then old(Bump(Model(), task)).db else old(Model())
      ensures ok <==> task !in old(revisions) || Affords(old(revisions)[task], 1)
      ensures ok && task in old(revisions) ==> revisions == old(revisions)[task := Raised(old(revisions)[task], 1)]
    {
      if task !in revisions { return true; }
      match revisions[task] {
        case NonInteger => return false;
        case Int(v) =>
          if !(0 <= v < MAX_REVISION) { return false; }
          revisions := revisions[task := Int(v + 1)];
          return true;
      }
    }

    method RunRow(op: RowOp) returns (ok: bool)
      modifies this
      ensures ok <==> old(ApplyRow(Model(), op)).Done?
      ensures ok ==> Model() == old(ApplyRow(Model(), op)).db
    {
      match op {
        case InsertRow(id, row) =>
          if id in items { return false; }
          items := items[id := row];
          ok := BumpTask(row.task);
        case DeleteRow(id) =>
          if id !in items { return false; }
          var task := items[id].task;
          items := items - {id};
          ok := BumpTask(task);
        case UpdateRow(id, newId, row) =>
          if id !in items || (newId != id && newId in items) { return false; }
          var was := items[id];
          items := (items - {id})[newId := row];
          if was.task == row.task && was.tracked == row.tracked { return true; }
          ok := BumpTask(was.task);
          if ok && was.task != row.task { ok := BumpTask(row.task); }
      }
    }

    method Run(stmt: Statement) returns (ok: bool)
      modifies this
      ensures Model() == Execute(old(Model()), stmt)
      ensures ok <==>
              && !stmt.rejected && KeysFit(old(items), stmt.ops)
              && AllAfford(old(revisions), old(items), stmt.ops)
      ensures ok ==>
                && items == AllChanged(old(items), stmt.ops)
                && revisions == AllRaised(old(revisions), old(items), stmt.ops)
      ensures !ok ==> Model() == old(Model())
    {
      var savedItems, savedRevisions := items, revisions;
      ghost var before := Model();
      ok := !stmt.rejected;
      var i := 0;
      while ok && i < |stmt.ops|
        invariant 0 <= i <= |stmt.ops|
        invariant ok ==> !stmt.rejected && ApplyRows(Model(), stmt.ops[i..]) == ApplyRows(before, stmt.ops)
        invariant !ok ==> stmt.rejected || ApplyRows(before, stmt.ops).Abort?
      {
        assert stmt.ops[i..][1..] == stmt.ops[i + 1..];
        ok := RunRow(stmt.ops[i]);
        i := i + 1;
      }
      if !ok { items, revisions := savedItems, savedRevisions; }
      RowsDoneIff(before, stmt.ops);
    }
  }
}
