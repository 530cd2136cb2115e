/**
 * Every step of the fill job and of live requests has its effects on the sent tables: no history of theirs is left out.
 */
module ShippingRuns {
  import opened Integers
  import opened CountTables
  import opened FillEngine
  import opened FillRuns
  import R = RemoteSync
  import S = Replication
  import opened Shipping
  import opened ShippingTheorems

  lemma GrownBacked(rows: Rows, table: Table, prior: R.Row, k: Key, cell: Cell)
    requires Backed(rows, table, prior) && k !in rows
    ensures Backed(rows[k := cell], table, prior) && !Shows(table, prior, k)
  {
    var other :| IsRowOf(rows, table, prior, other);
    assert IsRowOf(rows[k := cell], table, prior, other);
    if Shows(table, prior, k) {
      ShowsOne(table, prior, k, other);
    }
  }

  lemma {:induction false} InsertedStaysDistinct(list: seq<R.Row>, row: R.Row)
    requires AllDiffer(list) && forall prior :: prior in list ==> Place(prior) != Place(row)
    ensures AllDiffer(S.Inserted(list, row))
  {
    if list != [] && row.id >= list[0].id {
      var rest := S.Inserted(list[1..], row);
      InsertedStaysDistinct(list[1..], row);
      S.InsertedMembers(list[1..], row);
      forall j | 0 <= j < |rest|
        ensures Place(rest[j]) != Place(list[0])
      {
        assert rest[j] in rest;
      }
    } else {
      assert forall j :: 0 <= j < |list| ==> list[j] in list;
    }
  }

  lemma GrownLists(list: seq<R.Row>, rows: Rows, table: Table, row: R.Row, k: Key, cell: Cell)
    requires Lists(list, rows, table) && k !in rows && k.table == table && row.data == DataOf(k, cell)
    ensures Lists(S.Inserted(list, row), rows[k := cell], table)
  {
    var longer, grown := S.Inserted(list, row), rows[k := cell];
    S.InsertedMembers(list, row);
    assert IsRowOf(grown, table, row, k) && row in longer;
    forall prior | prior in list
      ensures Backed(grown, table, prior) && Place(prior) != Place(row)
    {
      GrownBacked(rows, table, prior, k, cell);
    }
    InsertedStaysDistinct(list, row);
    forall other | other in rows && other.table == table
      ensures Listed(longer, grown, table, other)
    {
      assert Listed(list, rows, table, other);
      var prior :| prior in list && IsRowOf(rows, table, prior, other);
      assert prior in longer && IsRowOf(grown, table, prior, other);
    }
  }

  /** An id above all that the sender has, has under way or has stored. */
  ghost function NewId(s: S.Sync, me: int, t: R.Table): int {
    1 + Max(0, Max(R.LastId(S.ClientRows(s, t)), R.LastId(Reached(s, me, t))))
  }

  lemma NewIdIsFresh(s: S.Sync, me: int, t: R.Table, data: R.Data)
    ensures S.Fresh(S.ClientRows(s, t), R.Row(NewId(s, me, t), data)) && NewId(s, me, t) > R.LastId(Reached(s, me, t))
  {
    R.LastIdIsLargest(S.ClientRows(s, t));
  }

  lemma GrowthInTable(known: set<string>, me: int, s: S.Sync, rows: Rows, k: Key, cell: Cell, e: S.Event, table: Table)
    requires IsSent(table) && Lists(S.ClientRows(s, RemoteTable(table)), rows, table) && k !in rows && IsSent(k.table)
    requires e == S.Grow(RemoteTable(k.table), R.Row(NewId(s, me, RemoteTable(k.table)), DataOf(k, cell)))
    ensures Lists(S.ClientRows(S.Next(known, me, s, e), RemoteTable(table)), rows[k := cell], table)
  {
    S.ClientStep(known, me, s, e, RemoteTable(table));
    NewIdIsFresh(s, me, RemoteTable(k.table), DataOf(k, cell));
    if table == k.table {
      GrownLists(S.ClientRows(s, RemoteTable(table)), rows, table, e.row, k, cell);
    } else {
      SameTableLists(S.ClientRows(s, RemoteTable(table)), rows, rows[k := cell], table);
    }
  }

  lemma OneRowGrows(known: set<string>, me: int, s: S.Sync, rows: Rows, k: Key, cell: Cell) returns (e: S.Event)
    requires ListsBoth(s, rows) && k !in rows && IsSent(k.table)
    ensures IsGrowth([e]) && InOrder(s, me, [e]) && ListsBoth(S.Next(known, me, s, e), rows[k := cell])
  {
    NewIdIsFresh(s, me, RemoteTable(k.table), DataOf(k, cell));
    e := S.Grow(RemoteTable(k.table), R.Row(NewId(s, me, RemoteTable(k.table)), DataOf(k, cell)));
    forall table | IsSent(table)
      ensures Lists(S.ClientRows(S.Next(known, me, s, e), RemoteTable(table)), rows[k := cell], table)
    {
      GrowthInTable(known, me, s, rows, k, cell, e, table);
    }
  }

  lemma UnsentGrowth(s: S.Sync, rows: Rows, k: Key, cell: Cell)
    requires ListsBoth(s, rows) && !IsSent(k.table)
    ensures ListsBoth(s, rows[k := cell])
  {
    forall table | IsSent(table)
      ensures Lists(S.ClientRows(s, RemoteTable(table)), rows[k := cell], table)
    {
      SameTableLists(S.ClientRows(s, RemoteTable(table)), rows, rows[k := cell], table);
    }
  }

  lemma LongerInOrder(known: set<string>, me: int, s: S.Sync, effects: seq<S.Event>, e: S.Event)
    requires IsGrowth(effects) && InOrder(s, me, effects) && IsGrowth([e]) &&
        InOrder(SyncAfter(known, me, s, effects), me, [e])
    ensures IsGrowth(effects + [e]) && InOrder(s, me, effects + [e])
  {
    assert [e][0] == e;
    WritesSpareRemote(known, me, s, effects);
    SameReached(s, SyncAfter(known, me, s, effects), me, e.table);
  }

  lemma OneMoreEffect(known: set<string>, me: int, s: S.Sync, effects: seq<S.Event>, e: S.Event)
    ensures SyncAfter(known, me, s, effects + [e]) == S.Next(known, me, SyncAfter(known, me, s, effects), e)
  {
    assert (effects + [e])[..|effects|] == effects;
  }

  lemma SentGrowth(known: set<string>, me: int, s: S.Sync, effects: seq<S.Event>, rows: Rows, k: Key, cell: Cell)
      returns (longer: seq<S.Event>)
    requires IsGrowth(effects) && InOrder(s, me, effects) && ListsBoth(SyncAfter(known, me, s, effects), rows) &&
        k !in rows
    requires IsSent(k.table)
    ensures IsGrowth(longer) && InOrder(s, me, longer) && ListsBoth(SyncAfter(known, me, s, longer), rows[k := cell])
  {
    var e := OneRowGrows(known, me, SyncAfter(known, me, s, effects), rows, k, cell);
    OneMoreEffect(known, me, s, effects, e);
    LongerInOrder(known, me, s, effects, e);
    longer := effects + [e];
  }

  lemma GrowthGoesOn(known: set<string>, me: int, s: S.Sync, effects: seq<S.Event>, rows: Rows, k: Key, cell: Cell)
      returns (longer: seq<S.Event>)
    requires IsGrowth(effects) && InOrder(s, me, effects) && ListsBoth(SyncAfter(known, me, s, effects), rows) &&
        k !in rows
    ensures IsGrowth(longer) && InOrder(s, me, longer) && ListsBoth(SyncAfter(known, me, s, longer), rows[k := cell])
  {
    if IsSent(k.table) {
      longer := SentGrowth(known, me, s, effects, rows, k, cell);
    } else {
      UnsentGrowth(SyncAfter(known, me, s, effects), rows, k, cell);
      longer := effects;
    }
  }

  lemma OneFewer(rows: Rows, after: Rows, k: Key)
    requires Submap(rows, after) && k in after && k !in rows
    ensures var fewer := after - {k};
            && Submap(rows, fewer) && fewer[k := after[k]] == after &&
                |fewer.Keys - rows.Keys| < |after.Keys - rows.Keys|
  {
    var fewer := after - {k};
    SameRows(fewer[k := after[k]], after);
    assert fewer.Keys - rows.Keys == (after.Keys - rows.Keys) - {k};
  }

  lemma {:induction false} GrowthExists(known: set<string>, me: int, s: S.Sync, rows: Rows, after: Rows)
    returns (effects: seq<S.Event>)
    requires ListsBoth(s, rows) && Submap(rows, after)
    ensures IsGrowth(effects) && InOrder(s, me, effects) && ListsBoth(SyncAfter(known, me, s, effects), after)
    decreases |after.Keys - rows.Keys|
  {
    if after.Keys <= rows.Keys {
      SameRows(rows, after);
      effects := [];
    } else {
      var k :| k in after && k !in rows;
      OneFewer(rows, after, k);
      effects := GrowthExists(known, me, s, rows, after - {k});
      effects := GrowthGoesOn(known, me, s, effects, after - {k}, k, after[k]);
    }
  }

  lemma OtherWorkGrows(c: Config, r: Run)
    requires !Deletes(r, Execute)
    ensures Submap(r.db.rows, Work(c, r).db.rows)
  {
  }

  lemma OtherStepsGrow(c: Config, s: System, a: Action)
    requires !Deletes(s.run, a) && !CountsUp(s, a)
    ensures Submap(s.run.db.rows, Next(c, s, a).run.db.rows)
  {
    if a.Execute? {
      OtherWorkGrows(c, s.run);
    }
  }

  lemma CountUpExists(list: seq<R.Row>, rows: Rows, k: Key, amount: int) returns (effects: seq<S.Event>)
    requires IsSent(k.table) && Lists(list, rows, k.table) && k in rows
    ensures IsCountUp(list, k, amount, effects)
  {
    assert Listed(list, rows, k.table, k);
    var row :| row in list && IsRowOf(rows, k.table, row, k);
    effects := [S.CountUp(RemoteTable(k.table), row.id, amount)];
  }

  lemma CountUpHasEffects(c: Config, known: set<string>, me: int, j: Joint, a: Action) returns (effects: seq<S.Event>)
    requires JointInv(c, me, j) && CountsUp(j.system, a)
    ensures IsEffect(c, known, me, j, a, effects) && InOrder(j.sync, me, effects)
  {
    var rows, e := j.system.run.db.rows, j.system.pending[a.i];
    CountedKeyExists(c, j.system, a);
    effects := [];
    if IsSent(LogKey(c, e).table) {
      var table := LogKey(c, e).table;
      assert Lists(S.ClientRows(j.sync, RemoteTable(table)), rows, table);
      effects := CountUpExists(S.ClientRows(j.sync, RemoteTable(table)), rows, LogKey(c, e), e.amount);
    }
  }

  lemma EffectsExist(c: Config, known: set<string>, me: int, j: Joint, a: Action) returns (effects: seq<S.Event>)
    requires ValidConfig(c) && JointInv(c, me, j)
    ensures IsEffect(c, known, me, j, a, effects) && InOrder(j.sync, me, effects)
  {
    if Deletes(j.system.run, a) {
      effects := Deletion(j.system.run.job);
    } else if CountsUp(j.system, a) {
      effects := CountUpHasEffects(c, known, me, j, a);
    } else {
      OtherStepsGrow(c, j.system, a);
      effects := GrowthExists(known, me, j.sync, j.system.run.db.rows, Next(c, j.system, a).run.db.rows);
    }
  }

  lemma OneMoreAction(c: Config, known: set<string>, me: int, moves: seq<Move>, a: Action) returns (longer: seq<Move>)
    requires ValidConfig(c)
    ensures |longer| == |moves| + 1 && moves <= longer && longer[|moves|].Local?
    ensures AllCareful(c, known, me, moves) ==> AllCareful(c, known, me, longer)
    ensures Actions(c, known, me, longer) == Actions(c, known, me, moves) + [a]
  {
    EveryOutcome(c, known, me, moves);
    var effects := EffectsExist(c, known, me, Outcome(c, known, me, moves), a);
    longer := moves + [Local(a, effects)];
    assert longer[..|moves|] == moves;
  }

  ghost predicate OnlyLocal(moves: seq<Move>, longer: seq<Move>) {
    moves <= longer && forall i :: |moves| <= i < |longer| ==> longer[i].Local?
  }

  /** The moves go on, carefully, with those of the job and the live requests, and these do what the history says. */
  ghost predicate GoesOn(c: Config, known: set<string>, me: int, moves: seq<Move>, longer: seq<Move>,
                         history: seq<Action>) {
    && OnlyLocal(moves, longer)
    && Actions(c, known, me, longer) == Actions(c, known, me, moves) + history
    && (AllCareful(c, known, me, moves) ==> AllCareful(c, known, me, longer))
  }

  lemma OneMoreDone(done: seq<Action>, before: seq<Action>, after: seq<Action>, history: seq<Action>)
    requires history != [] && before == done + history[..|history| - 1] && after == before + [history[|history| - 1]]
    ensures after == done + history
  {
  }

  lemma LongerStill(moves: seq<Move>, front: seq<Move>, longer: seq<Move>)
    requires OnlyLocal(moves, front) && front <= longer && |longer| == |front| + 1 && longer[|front|].Local?
    ensures OnlyLocal(moves, longer)
  {
  }

  lemma OneMoreGoesOn(c: Config, known: set<string>, me: int, moves: seq<Move>, front: seq<Move>, history: seq<Action>)
      returns (longer: seq<Move>)
    requires ValidConfig(c) && history != [] && GoesOn(c, known, me, moves, front, history[..|history| - 1])
    ensures GoesOn(c, known, me, moves, longer, history)
  {
    longer := OneMoreAction(c, known, me, front, history[|history| - 1]);
    OneMoreDone(Actions(c, known, me, moves), Actions(c, known, me, front), Actions(c, known, me, longer), history);
    LongerStill(moves, front, longer);
  }

  lemma NothingGoesOn(c: Config, known: set<string>, me: int, moves: seq<Move>)
    ensures GoesOn(c, known, me, moves, moves, [])
  {
  }

  /** Whatever the job and the live requests do, before a post or after it, the joint system can do. */
  lemma {:induction false} EveryHistoryMoves(c: Config, known: set<string>, me: int, moves: seq<Move>,
                                             history: seq<Action>)
      returns (longer: seq<Move>)
    requires ValidConfig(c)
    ensures GoesOn(c, known, me, moves, longer, history)
  {
    if history == [] {
      NothingGoesOn(c, known, me, moves);
      longer := moves;
    } else {
      var front := EveryHistoryMoves(c, known, me, moves, history[..|history| - 1]);
      longer := OneMoreGoesOn(c, known, me, moves, front, history);
    }
  }
}
