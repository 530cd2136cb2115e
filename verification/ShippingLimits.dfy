/** How long a prefix lasts when a request was built at the wrong moment. */
module ShippingLimits {
  import Times
  import opened CountTables
  import opened FillEngine
  import opened FillRuns
  import FillTheorems
  import opened FillPermanence
  import opened StoredNames
  import R = RemoteSync
  import S = Replication
  import T = ReplicationTheorems
  import opened Shipping
  import opened ShippingTheorems
  import opened ShippingRuns

  // ----- When it was not safe -----

  /** The bouncer holds a row that the sender's job can still undo. */
  ghost predicate HoldsUndoable(c: Config, me: int, j: Joint) {
    exists table, row, k ::
      IsSent(table) && row in S.RemoteRows(j.sync, me, RemoteTable(table)) && Shows(table, row, k) &&
          Undoable(c, j.system.run.db, k)
  }

  /** Nothing that may still be stored can be undone. */
  ghost predicate UnderWaySettled(c: Config, me: int, j: Joint) {
    forall table :: IsSent(table) ==> AllSettled(c, j.system.run.db, table, UnderWay(j.sync, me, RemoteTable(table)))
  }

  /** A stored row is that of some key, by way of the sender's row in its place. */
  lemma StoredIsBacked(list: seq<R.Row>, stored: seq<R.Row>, rows: Rows, table: Table, row: R.Row) returns (k: Key)
    requires Lists(list, rows, table) && S.IsFrontAlike(stored, list) && row in stored
    ensures k in rows && Shows(table, row, k)
  {
    var i :| 0 <= i < |stored| && stored[i] == row;
    assert S.Steady(row) == S.Steady(list[..|stored|][i]);
    assert list[i] in list && Backed(rows, table, list[i]);
    k :| IsRowOf(rows, table, list[i], k);
  }

  lemma PrefixIsSettled(c: Config, me: int, j: Joint)
    requires JointInv(c, me, j) && AheadEverywhere(j.sync, me) && UnderWaySettled(c, me, j) && !HoldsUndoable(c, me, j)
    ensures ReachedSettled(c, me, j)
  {
    var db := j.system.run.db;
    AheadIsPrefix(j.sync, me);
    forall table, row | IsSent(table) && row in Reached(j.sync, me, RemoteTable(table))
      ensures IsSettled(c, db, table, row)
    {
      var list, stored := S.ClientRows(j.sync, RemoteTable(table)), S.RemoteRows(j.sync, me, RemoteTable(table));
      if row in stored {
        assert S.IsPrefixUpToValues(j.sync, me, RemoteTable(table)) && Lists(list, db.rows, table);
        var k := StoredIsBacked(list, stored, db.rows, table, row);
        assert Settles(c, db, table, row, k);
      } else {
        assert row in UnderWay(j.sync, me, RemoteTable(table));
        assert AllSettled(c, db, table, UnderWay(j.sync, me, RemoteTable(table)));
      }
    }
  }

  lemma {:induction false} SettledPrefixStays(c: Config, known: set<string>, me: int, moves: seq<Move>, more: seq<Move>)
    requires ValidConfig(c) && GoesOnCarefully(c, known, me, moves, more) && Kept(c, me, Outcome(c, known, me, moves))
    ensures Kept(c, me, Outcome(c, known, me, moves + more))
  {
    if more == [] {
      assert moves + more == moves;
    } else {
      var front, m := more[..|more| - 1], more[|more| - 1];
      SettledPrefixStays(c, known, me, moves, front);
      assert moves + more == moves + front + [m];
      OutcomeAppend(c, known, me, moves + front, m);
      EveryOutcome(c, known, me, moves + front);
      MovedKeepsPrefix(c, known, me, Outcome(c, known, me, moves + front), m);
    }
  }

  function UndoMove(table: Table, p: Property, t: int): Move {
    Local(Execute, Deletion(Undoing(p, 0, t, [table])))
  }

  function UndoMoves(tables: seq<Table>, p: Property, t: int): seq<Move> {
    seq(|tables|, i requires 0 <= i < |tables| => UndoMove(tables[i], p, t))
  }

  /** The job dies, and the next run of the statistic clears the first `n` tables. */
  function CrashAndUndo(c: Config, p: Property, t: int, n: nat): seq<Move>
    requires n <= |UndoTables(c, p)|
  {
    [Local(Crash, []), Local(StartJob(p, 0), [])] + UndoMoves(UndoTables(c, p)[..n], p, t)
  }

  lemma NoEffect(c: Config, known: set<string>, me: int, j: Joint, a: Action)
    requires JointInv(c, me, j) && (a.Crash? || a.StartJob?)
    ensures Moved(c, known, me, j, Local(a, [])) == j.(system := Next(c, j.system, a))
  {
  }

  lemma UndoStarts(c: Config, known: set<string>, me: int, moves: seq<Move>, p: Property, t: int)
    requires ValidConfig(c)
    requires var fills := Outcome(c, known, me, moves).system.run.db.fills;
             p in fills && fills[p] == FillState(t, Started)
    ensures var j, after := Outcome(c, known, me, moves), Outcome(c, known, me, moves + CrashAndUndo(c, p, t, 0));
            && after.sync == j.sync && after.system.run.job == Undoing(p, 0, t, UndoTables(c, p))
  {
    var crash, start := Local(Crash, []), Local(StartJob(p, 0), []);
    EveryOutcome(c, known, me, moves);
    OutcomeAppend(c, known, me, moves, crash);
    NoEffect(c, known, me, Outcome(c, known, me, moves), Crash);
    EveryOutcome(c, known, me, moves + [crash]);
    OutcomeAppend(c, known, me, moves + [crash], start);
    NoEffect(c, known, me, Outcome(c, known, me, moves + [crash]), StartJob(p, 0));
    assert UndoMoves(UndoTables(c, p)[..0], p, t) == [];
    assert moves + CrashAndUndo(c, p, t, 0) == moves + [crash] + [start];
  }

  lemma UndoStep(c: Config, known: set<string>, me: int, j: Joint, p: Property, t: int, tables: seq<Table>)
    requires tables != [] && j.system.run.job == Undoing(p, 0, t, tables)
    ensures var after := Moved(c, known, me, j, UndoMove(tables[0], p, t));
            && after.system.run.job == Undoing(p, 0, t, tables[1..])
            && after.sync == SyncAfter(known, me, j.sync, Deletion(Undoing(p, 0, t, [tables[0]])))
            && after.sync.tables == j.sync.tables
  {
    SparedAudit(known, me, j.sync, Deletion(Undoing(p, 0, t, [tables[0]])));
  }

  /** One more table is cleared. */
  lemma UndoGoesOn(c: Config, known: set<string>, me: int, moves: seq<Move>, p: Property, t: int, n: nat)
    requires n < |UndoTables(c, p)|
    ensures var before, after := moves + CrashAndUndo(c, p, t, n), moves + CrashAndUndo(c, p, t, n + 1);
            Outcome(c, known, me, after) ==
                Moved(c, known, me, Outcome(c, known, me, before), UndoMove(UndoTables(c, p)[n], p, t))
  {
    var tables := UndoTables(c, p);
    var before := moves + CrashAndUndo(c, p, t, n);
    assert UndoMoves(tables[..n + 1], p, t) == UndoMoves(tables[..n], p, t) + [UndoMove(tables[n], p, t)];
    assert moves + CrashAndUndo(c, p, t, n + 1) == before + [UndoMove(tables[n], p, t)];
    OutcomeAppend(c, known, me, before, UndoMove(tables[n], p, t));
  }

  lemma {:induction false} UndoReaches(c: Config, known: set<string>, me: int, moves: seq<Move>, p: Property, t: int,
                                       n: nat)
    requires ValidConfig(c) && n <= |UndoTables(c, p)|
    requires var fills := Outcome(c, known, me, moves).system.run.db.fills;
             p in fills && fills[p] == FillState(t, Started)
    ensures var j, after := Outcome(c, known, me, moves), Outcome(c, known, me, moves + CrashAndUndo(c, p, t, n));
            && after.sync.tables == j.sync.tables && after.system.run.job == Undoing(p, 0, t, UndoTables(c, p)[n..])
  {
    var tables := UndoTables(c, p);
    if n == 0 {
      UndoStarts(c, known, me, moves, p, t);
    } else {
      UndoReaches(c, known, me, moves, p, t, n - 1);
      UndoGoesOn(c, known, me, moves, p, t, n - 1);
      UndoStep(c, known, me, Outcome(c, known, me, moves + CrashAndUndo(c, p, t, n - 1)), p, t, tables[n - 1..]);
    }
  }

  lemma DeletionBreaksPrefix(known: set<string>, me: int, s: S.Sync, table: Table, row: R.Row, k: Key)
    requires IsSent(table) && S.Ordered(s, me, RemoteTable(table)) && S.IsPrefixUpToValues(s, me, RemoteTable(table))
    requires row in S.RemoteRows(s, me, RemoteTable(table)) && Shows(table, row, k)
    ensures !S.IsPrefixUpToValues(SyncAfter(known, me, s, Deletion(Undoing(k.property, 0, k.endTime, [table]))), me,
                                  RemoteTable(table))
  {
    var undo := S.Undo(RemoteTable(table), PropertyName(k.property), k.endTime);
    var stored := S.RemoteRows(s, me, RemoteTable(table));
    RowIsAt(table, row, k, k.property, k.endTime);
    var i :| 0 <= i < |stored| && stored[i] == row;
    assert S.HasRowAt(stored, PropertyName(k.property), k.endTime);
    OneEffect(known, me, s, undo);
    S.StepKeepsPrefixUpToValues(known, me, s, undo, RemoteTable(table));
  }

  lemma NextTableBreaksPrefix(c: Config, known: set<string>, me: int, moves: seq<Move>, n: nat, row: R.Row, k: Key)
    requires ValidConfig(c) && n < |UndoTables(c, k.property)| && k.table == UndoTables(c, k.property)[n] &&
        IsSent(k.table)
    requires var j := Outcome(c, known, me, moves);
             row in S.RemoteRows(j.sync, me, RemoteTable(k.table)) && Shows(k.table, row, k) &&
                 Undoable(c, j.system.run.db, k)
    requires PrefixEverywhere(Outcome(c, known, me, moves + CrashAndUndo(c, k.property, k.endTime, n)).sync, me)
    ensures !PrefixEverywhere(Outcome(c, known, me, moves + CrashAndUndo(c, k.property, k.endTime, n + 1)).sync, me)
  {
    var p, t, table := k.property, k.endTime, k.table;
    var before := moves + CrashAndUndo(c, p, t, n);
    var j := Outcome(c, known, me, before);
    UndoReaches(c, known, me, moves, p, t, n);
    EveryOutcome(c, known, me, before);
    UndoGoesOn(c, known, me, moves, p, t, n);
    UndoStep(c, known, me, j, p, t, UndoTables(c, p)[n..]);
    assert S.Ordered(j.sync, me, RemoteTable(table)) && S.IsPrefixUpToValues(j.sync, me, RemoteTable(table));
    DeletionBreaksPrefix(known, me, j.sync, table, row, k);
  }

  lemma TableIsCleared(c: Config, db: Db, k: Key) returns (n: nat)
    requires Undoable(c, db, k)
    ensures n < |UndoTables(c, k.property)| && UndoTables(c, k.property)[n] == k.table
  {
    n :| 0 <= n < |UndoTables(c, k.property)| && UndoTables(c, k.property)[n] == k.table;
  }

  /** The moves are the job's, and insert nothing. */
  predicate InsertNothing(moves: seq<Move>) {
    forall i :: 0 <= i < |moves| ==>
      moves[i].Local? && forall n :: 0 <= n < |moves[i].effects| ==> !moves[i].effects[n].Grow?
  }

  lemma UndoInserts(c: Config, p: Property, t: int, n: nat)
    requires n <= |UndoTables(c, p)|
    ensures InsertNothing(CrashAndUndo(c, p, t, n))
  {
    var tables := UndoTables(c, p)[..n];
    var undos, all := UndoMoves(tables, p, t), CrashAndUndo(c, p, t, n);
    forall i | 0 <= i < |all|
      ensures all[i].Local? && forall m :: 0 <= m < |all[i].effects| ==> !all[i].effects[m].Grow?
    {
      if i >= 2 {
        assert all[i] == undos[i - 2] == UndoMove(tables[i - 2], p, t);
      }
    }
  }

  lemma {:induction false} UndoIsCareful(c: Config, known: set<string>, me: int, moves: seq<Move>, more: seq<Move>)
    requires InsertNothing(more)
    ensures GoesOnCarefully(c, known, me, moves, more)
  {
    if more != [] {
      UndoIsCareful(c, known, me, moves, more[..|more| - 1]);
      assert more[|more| - 1].Local?;
    }
  }

  /** A run of moves, without a post, after which the bouncer's rows are no longer the first rows of some table. */
  lemma UndoBreaksPrefix(c: Config, known: set<string>, me: int, moves: seq<Move>, row: R.Row, k: Key)
    returns (more: seq<Move>)
    requires ValidConfig(c) && IsSent(k.table)
    requires var j := Outcome(c, known, me, moves);
             row in S.RemoteRows(j.sync, me, RemoteTable(k.table)) && Shows(k.table, row, k) &&
                 Undoable(c, j.system.run.db, k)
    ensures InsertNothing(more) && !PrefixEverywhere(Outcome(c, known, me, moves + more).sync, me)
  {
    var n := TableIsCleared(c, Outcome(c, known, me, moves).system.run.db, k);
    more := CrashAndUndo(c, k.property, k.endTime, n);
    UndoInserts(c, k.property, k.endTime, n);
    if PrefixEverywhere(Outcome(c, known, me, moves + more).sync, me) {
      NextTableBreaksPrefix(c, known, me, moves, n, row, k);
      UndoInserts(c, k.property, k.endTime, n + 1);
      more := CrashAndUndo(c, k.property, k.endTime, n + 1);
    }
  }

  /**
   * Safety at the moment of building is what it takes: however the rows got there, if nothing under way can be undone,
   * no careful continuation breaks the prefix exactly when the bouncer holds no row of a time that is STARTED and not
   * yet DONE.
   */
  lemma PrefixLastsUnlessUndoable(c: Config, known: set<string>, me: int, moves: seq<Move>)
    requires ValidConfig(c) && AheadEverywhere(Outcome(c, known, me, moves).sync, me)
    requires UnderWaySettled(c, me, Outcome(c, known, me, moves))
    ensures (forall more :: GoesOnCarefully(c, known, me, moves, more) ==>
        PrefixEverywhere(Outcome(c, known, me, moves + more).sync, me))
       <==> !HoldsUndoable(c, me, Outcome(c, known, me, moves))
  {
    var j := Outcome(c, known, me, moves);
    if HoldsUndoable(c, me, j) {
      var table, row, k :|
        IsSent(table) && row in S.RemoteRows(j.sync, me, RemoteTable(table)) && Shows(table, row, k) &&
            Undoable(c, j.system.run.db, k);
      var more := UndoBreaksPrefix(c, known, me, moves, row, k);
      UndoIsCareful(c, known, me, moves, more);
    } else {
      EveryOutcome(c, known, me, moves);
      PrefixIsSettled(c, me, j);
      forall more | GoesOnCarefully(c, known, me, moves, more)
        ensures PrefixEverywhere(Outcome(c, known, me, moves + more).sync, me)
      {
        SettledPrefixStays(c, known, me, moves, more);
        AheadIsPrefix(Outcome(c, known, me, moves + more).sync, me);
      }
    }
  }

  // ----- A post at the wrong moment -----

  /** The moves, and then the status, the request and its delivery, one right after the other. */
  ghost function ThenPost(known: set<string>, me: int, s: S.Sync, moves: seq<Move>): seq<Move> {
    var built := S.Next(known, me, S.Next(known, me, s, S.AskStatus), S.Build);
    moves + [Remote(S.AskStatus)] + [Remote(S.Build)] + [Remote(S.Deliver(R.Whole(built.outgoing)))]
  }

  lemma RemoteAppend(c: Config, known: set<string>, me: int, moves: seq<Move>, e: S.Event)
    requires IsRemote(e)
    ensures var j := Outcome(c, known, me, moves);
            Outcome(c, known, me, moves + [Remote(e)]) == j.(sync := S.Next(known, me, j.sync, e))
  {
    OutcomeAppend(c, known, me, moves, Remote(e));
  }

  lemma PostOutcome(c: Config, known: set<string>, me: int, moves: seq<Move>)
    ensures var j := Outcome(c, known, me, moves);
            Outcome(c, known, me, ThenPost(known, me, j.sync, moves)) == j.(sync := T.PostNow(known, me, j.sync))
  {
    var s := Outcome(c, known, me, moves).sync;
    var built := S.Next(known, me, S.Next(known, me, s, S.AskStatus), S.Build);
    RemoteAppend(c, known, me, moves, S.AskStatus);
    RemoteAppend(c, known, me, moves + [Remote(S.AskStatus)], S.Build);
    RemoteAppend(c, known, me, moves + [Remote(S.AskStatus)] + [Remote(S.Build)], S.Deliver(R.Whole(built.outgoing)));
  }

  lemma PostKeepsPrefix(known: set<string>, me: int, s: S.Sync, t: R.Table)
    requires S.Ordered(s, me, t) && S.IsPrefixUpToValues(s, me, t)
    ensures S.IsPrefixUpToValues(T.PostNow(known, me, s), me, t)
    ensures S.ClientRows(T.PostNow(known, me, s), t) == S.ClientRows(s, t)
  {
    var asked := S.Next(known, me, s, S.AskStatus);
    var built := S.Next(known, me, asked, S.Build);
    var whole := S.Deliver(R.Whole(built.outgoing));
    S.OrderedStep(known, me, s, S.AskStatus, t);
    S.OrderedStep(known, me, asked, S.Build, t);
    S.StoredStays(known, me, s, S.AskStatus, t);
    S.ClientStep(known, me, s, S.AskStatus, t);
    BuildKeepsAhead(known, me, asked, t);
    S.ClientStep(known, me, asked, S.Build, t);
    DeliverKeepsAhead(known, me, built, whole.kept, t);
    S.ClientStep(known, me, built, whole, t);
    var last := S.Next(known, me, built, whole);
    FrontOfFront(S.RemoteRows(last, me, t), UnderWay(last, me, t), S.ClientRows(last, t));
  }

  lemma WholeListShows(list: seq<R.Row>, stored: seq<R.Row>, rows: Rows, table: Table, k: Key) returns (row: R.Row)
    requires Lists(list, rows, table) && S.IsFrontAlike(stored, list) && |stored| == |list| && k in rows &&
        k.table == table
    ensures row in stored && Shows(table, row, k)
  {
    assert Listed(list, rows, table, k);
    var own :| own in list && IsRowOf(rows, table, own, k);
    var i :| 0 <= i < |list| && list[i] == own;
    assert S.Steady(stored[i]) == S.Steady(list[..|stored|][i]);
    row := stored[i];
  }

  /** One post has room for all that the bouncer lacks of the job's rows. */
  ghost predicate FewLacking(s: S.Sync, me: int) {
    forall table :: IsSent(table) ==> T.Lacking(s, me, RemoteTable(table)) <= R.MAX_CLIENT_BATCH_SIZE
  }

  /** Then every row of the job's is stored. */
  lemma PostShows(c: Config, known: set<string>, me: int, j: Joint, k: Key) returns (row: R.Row)
    requires JointInv(c, me, j) && PrefixEverywhere(j.sync, me) && AllKnown(known) && FewLacking(j.sync, me)
    requires k in j.system.run.db.rows && IsSent(k.table)
    ensures row in S.RemoteRows(T.PostNow(known, me, j.sync), me, RemoteTable(k.table)) && Shows(k.table, row, k)
  {
    var t := RemoteTable(k.table);
    JointIsReady(c, known, me, j);
    assert S.Ordered(j.sync, me, t) && S.IsPrefixUpToValues(j.sync, me, t);
    assert T.Lacking(j.sync, me, t) <= R.MAX_CLIENT_BATCH_SIZE;
    assert Lists(S.ClientRows(j.sync, t), j.system.run.db.rows, k.table);
    PostKeepsPrefix(known, me, j.sync, t);
    T.ReadyPostDelivers(known, me, j.sync, t);
    row := WholeListShows(S.ClientRows(j.sync, t), S.RemoteRows(T.PostNow(known, me, j.sync), me, t),
                          j.system.run.db.rows, k.table, k);
  }

  /** A post of all that the bouncer lacks leaves it with an undoable row exactly when it was not safe. */
  lemma PostHoldsUndoable(c: Config, known: set<string>, me: int, moves: seq<Move>)
    requires ValidConfig(c) && AllKnown(known) && PrefixEverywhere(Outcome(c, known, me, moves).sync, me)
    requires FewLacking(Outcome(c, known, me, moves).sync, me)
    ensures var j := Outcome(c, known, me, moves);
            HoldsUndoable(c, me, Outcome(c, known, me, ThenPost(known, me, j.sync, moves))) <==>
                !SafeToSend(c, j.system.run.db)
  {
    var j := Outcome(c, known, me, moves);
    var db, after := j.system.run.db, T.PostNow(known, me, j.sync);
    EveryOutcome(c, known, me, moves);
    PostOutcome(c, known, me, moves);
    if k :| k in db.rows && IsSent(k.table) && Undoable(c, db, k) {
      var row := PostShows(c, known, me, j, k);
      assert HoldsUndoable(c, me, j.(sync := after));
    } else {
      assert SafeToSend(c, db);
    }
  }

  // ----- A fill that crashed after its pull, and then a post -----

  function OneRowBatch(p: Property): (int, int) -> Batch {
    (a: int, b: int) => Batch(map[Key(RealmCount, 7, p, IsBot(false), b) := Cell(7, 1)], false)
  }

  function OneRowStat(p: Property): CountStat {
    CountStat(RealmCount, Times.Daily, Times.DAY, Pulled(OneRowBatch(p)))
  }

  /** Every statistic pulls one row a day into RealmCount. */
  function OneRowConfig(): Config {
    Config(0, (p: Property) => OneRowStat(p))
  }

  lemma OneRowIsValid()
    ensures ValidConfig(OneRowConfig())
  {
  }

  function CrashedFill(p: Property): seq<Action> {
    [] + [StartJob(p, Times.DAY)] + [Execute] + [Execute] + [Execute] + [Crash]
  }

  function PulledKey(p: Property): Key {
    Key(RealmCount, 7, p, IsBot(false), Times.DAY)
  }

  lemma AfterCrashedFill(p: Property)
    ensures After(OneRowConfig(), CrashedFill(p)).run.db
         == Db(map[PulledKey(p) := Cell(7, 1)], map[p := FillState(Times.DAY, Started)])
  {
    var c := OneRowConfig();
    var h1 := [] + [StartJob(p, Times.DAY)];
    var h2 := h1 + [Execute];
    var h3 := h2 + [Execute];
    var h4 := h3 + [Execute];
    FillTheorems.AfterAppend(c, [], StartJob(p, Times.DAY));
    assert After(c, h1).run == Run(Db(map[], map[]), Creating(p, Times.DAY), false);
    FillTheorems.AfterAppend(c, h1, Execute);
    assert After(c, h2).run ==
        Run(Db(map[], map[p := FillState(0, Done)]), Filling(p, Times.DAY, Times.DAY, MarkStarted), false);
    FillTheorems.AfterAppend(c, h2, Execute);
    assert After(c, h3).run ==
        Run(Db(map[], map[p := FillState(Times.DAY, Started)]), Filling(p, Times.DAY, Times.DAY, Pull), false);
    FillTheorems.AfterAppend(c, h3, Execute);
    assert After(c, h4).run.db == Db(map[PulledKey(p) := Cell(7, 1)], map[p := FillState(Times.DAY, Started)]);
    FillTheorems.AfterAppend(c, h4, Crash);
  }

  lemma OnlyPlace(rows: Rows, table: Table, row: R.Row, k: Key)
    requires Backed(rows, table, row) && rows.Keys == {k}
    ensures Place(row) == DataOf(k, Cell(0, 0))
  {
    var other :| IsRowOf(rows, table, row, other);
    assert other in rows.Keys;
  }

  lemma OnePlaceIsShort(list: seq<R.Row>, place: R.Data)
    requires forall row :: row in list ==> Place(row) == place
    ensures AllDiffer(list) ==> |list| <= 1
  {
    if |list| > 1 {
      assert list[0] in list && list[1] in list;
    }
  }

  lemma ShortList(list: seq<R.Row>, rows: Rows, table: Table, k: Key)
    requires Lists(list, rows, table) && rows.Keys == {k}
    ensures |list| <= 1
  {
    forall row | row in list
      ensures Place(row) == DataOf(k, Cell(0, 0))
    {
      OnlyPlace(rows, table, row, k);
    }
    OnePlaceIsShort(list, DataOf(k, Cell(0, 0)));
  }

  lemma OneRowIsFew(c: Config, known: set<string>, me: int, moves: seq<Move>, k: Key)
    requires ValidConfig(c) && Outcome(c, known, me, moves).system.run.db.rows.Keys == {k}
    ensures FewLacking(Outcome(c, known, me, moves).sync, me)
  {
    var j := Outcome(c, known, me, moves);
    EveryOutcome(c, known, me, moves);
    forall table | IsSent(table)
      ensures T.Lacking(j.sync, me, RemoteTable(table)) <= R.MAX_CLIENT_BATCH_SIZE
    {
      assert Lists(S.ClientRows(j.sync, RemoteTable(table)), j.system.run.db.rows, table);
      ShortList(S.ClientRows(j.sync, RemoteTable(table)), j.system.run.db.rows, table, k);
    }
  }

  lemma OneUndoableIsSent(c: Config, known: set<string>, me: int, moves: seq<Move>, k: Key)
    requires ValidConfig(c) && AllKnown(known) && AllCareful(c, known, me, moves) && IsSent(k.table)
    requires var db := Outcome(c, known, me, moves).system.run.db; db.rows.Keys == {k} && Undoable(c, db, k)
    ensures HoldsUndoable(c, me, Outcome(c, known, me, ThenPost(known, me, Outcome(c, known, me, moves).sync, moves)))
  {
    SafeSendsReplicate(c, known, me, moves);
    OneRowIsFew(c, known, me, moves, k);
    PostHoldsUndoable(c, known, me, moves);
  }

  lemma CrashedIsUndoable(p: Property)
    ensures var db := After(OneRowConfig(), CrashedFill(p)).run.db;
            db.rows.Keys == {PulledKey(p)} && Undoable(OneRowConfig(), db, PulledKey(p))
  {
    AfterCrashedFill(p);
    assert map[PulledKey(p) := Cell(7, 1)].Keys == {PulledKey(p)};
  }

  lemma NoMoves(c: Config, known: set<string>, me: int)
    ensures AllCareful(c, known, me, []) && Actions(c, known, me, []) == []
  {
  }

  /** An outcome in which the bouncer holds a row that the next run will undo. */
  lemma CrashedFillIsSent(known: set<string>, me: int, p: Property) returns (moves: seq<Move>)
    requires AllKnown(known)
    ensures HoldsUndoable(OneRowConfig(), me, Outcome(OneRowConfig(), known, me, moves))
  {
    OneRowIsValid();
    NoMoves(OneRowConfig(), known, me);
    moves := EveryHistoryMoves(OneRowConfig(), known, me, [], CrashedFill(p));
    OutcomeIsHistory(OneRowConfig(), known, me, moves);
    assert [] + CrashedFill(p) == CrashedFill(p);
    CrashedIsUndoable(p);
    OneUndoableIsSent(OneRowConfig(), known, me, moves, PulledKey(p));
    moves := ThenPost(known, me, Outcome(OneRowConfig(), known, me, moves).sync, moves);
  }
}
