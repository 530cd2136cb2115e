/**
 * The fill job and the sending of its rows as one system. The command fills every statistic and then sends; the rows
 * that travel are the rows the job wrote, under the ids the database gave them.
 */
module Shipping {
  import opened CountTables
  import opened FillEngine
  import opened FillRuns
  import opened FillPermanence
  import opened StoredNames
  import R = RemoteSync
  import S = Replication

  datatype Joint = Joint(system: System, sync: S.Sync)

  /**
   * A step of the fill job or of a live request, with the statements that reach the sent tables; or a step of the
   * sending.
   */
  datatype Move = Local(action: Action, effects: seq<S.Event>) | Remote(event: S.Event)

  // ----- Rows as they are stored and sent -----

  predicate IsSent(table: Table) {
    table == RealmCount || table == InstallationCount
  }

  function RemoteTable(table: Table): R.Table
    requires IsSent(table)
  {
    if table == RealmCount then R.RealmCounts else R.InstallationCounts
  }

  function DataOf(k: Key, cell: Cell): R.Data {
    R.Count(k.owner, PropertyName(k.property), SubgroupText(k.property, k.subgroup), k.endTime, cell.value)
  }

  /** What identifies a row. */
  function Place(row: R.Row): R.Data {
    if row.data.Count? then row.data.(value := 0) else row.data
  }

  predicate Shows(table: Table, row: R.Row, k: Key) {
    k.table == table && Place(row) == DataOf(k, Cell(0, 0))
  }

  lemma ShowsOne(table: Table, row: R.Row, k: Key, other: Key)
    requires Shows(table, row, k) && Shows(table, row, other)
    ensures k == other
  {
    NamesDiffer(k.property, other.property);
    SubgroupsDiffer(k.property, k.subgroup, other.subgroup);
  }

  predicate IsRowOf(rows: Rows, table: Table, row: R.Row, k: Key) {
    k in rows && Shows(table, row, k) && row.data == DataOf(k, rows[k])
  }

  /** Some key has the row. */
  ghost predicate Backed(rows: Rows, table: Table, row: R.Row) {
    exists k :: IsRowOf(rows, table, row, k)
  }

  /** Some row of the list is that of the key. */
  ghost predicate Listed(list: seq<R.Row>, rows: Rows, table: Table, k: Key) {
    exists row :: row in list && IsRowOf(rows, table, row, k)
  }

  predicate AllDiffer(list: seq<R.Row>) {
    forall i, j :: 0 <= i < j < |list| ==> Place(list[i]) != Place(list[j])
  }

  /** The list holds each row of the table once, and nothing else. */
  ghost predicate Lists(list: seq<R.Row>, rows: Rows, table: Table) {
    && (forall row :: row in list ==> Backed(rows, table, row))
    && (forall k :: k in rows && k.table == table ==> Listed(list, rows, table, k))
    && AllDiffer(list)
  }

  ghost predicate ListsBoth(sync: S.Sync, rows: Rows) {
    forall table :: IsSent(table) ==> Lists(S.ClientRows(sync, RemoteTable(table)), rows, table)
  }

  // ----- The joint system -----

  ghost function SyncAfter(known: set<string>, me: int, s: S.Sync, effects: seq<S.Event>): S.Sync {
    if effects == [] then s
    else S.Next(known, me, SyncAfter(known, me, s, effects[..|effects| - 1]), effects[|effects| - 1])
  }

  predicate IsGrowth(effects: seq<S.Event>) {
    forall i :: 0 <= i < |effects| ==> effects[i].Grow? && effects[i].table != R.AuditLog
  }

  /** The next statement of the job is a deletion of its undo. */
  predicate Deletes(r: Run, a: Action) {
    a.Execute? && r.job.Undoing? && r.job.tables != []
  }

  function Deletion(job: Job): seq<S.Event>
    requires job.Undoing? && job.tables != []
  {
    if IsSent(job.tables[0]) then [S.Undo(RemoteTable(job.tables[0]), PropertyName(job.p), job.endTime)] else []
  }

  /** The step adds to an existing logged row. */
  predicate CountsUp(s: System, a: Action) {
    a.FinishLog? && a.i < |s.pending|
  }

  ghost predicate IsCountUp(list: seq<R.Row>, k: Key, amount: int, effects: seq<S.Event>)
    requires IsSent(k.table)
  {
    exists row :: row in list && Shows(k.table, row, k) && effects == [S.CountUp(RemoteTable(k.table), row.id, amount)]
  }

  /** What a step does to the sent tables: delete, count one row up, or insert what is new under fresh ids. */
  ghost predicate IsEffect(c: Config, known: set<string>, me: int, j: Joint, a: Action, effects: seq<S.Event>) {
    if Deletes(j.system.run, a) then effects == Deletion(j.system.run.job)
    else if CountsUp(j.system, a) then
      var e := j.system.pending[a.i];
      var k := LogKey(c, e);
      if IsSent(k.table) then IsCountUp(S.ClientRows(j.sync, RemoteTable(k.table)), k, e.amount, effects)
      else effects == []
    else IsGrowth(effects) && ListsBoth(SyncAfter(known, me, j.sync, effects), Next(c, j.system, a).run.db.rows)
  }

  /**
   * The steps that are not the job's: status requests, building and delivering, other servers' posts, new audit rows.
   */
  predicate IsRemote(e: S.Event) {
    e.AskStatus? || e.Build? || e.Deliver? || e.OtherPost? || (e.Grow? && e.table == R.AuditLog && e.row.data.Audit?)
  }

  ghost function Moved(c: Config, known: set<string>, me: int, j: Joint, m: Move): Joint {
    match m
    case Local(a, effects) =>
      if IsEffect(c, known, me, j, a, effects) then
        Joint(Next(c, j.system, a), SyncAfter(known, me, j.sync, effects))
      else j
    case Remote(e) => if IsRemote(e) then j.(sync := S.Next(known, me, j.sync, e)) else j
  }

  ghost function Outcome(c: Config, known: set<string>, me: int, moves: seq<Move>): Joint {
    if moves == [] then Joint(Fresh, S.Nothing)
    else Moved(c, known, me, Outcome(c, known, me, moves[..|moves| - 1]), moves[|moves| - 1])
  }

  lemma OutcomeAppend(c: Config, known: set<string>, me: int, moves: seq<Move>, m: Move)
    ensures Outcome(c, known, me, moves + [m]) == Moved(c, known, me, Outcome(c, known, me, moves), m)
  {
    assert (moves + [m])[..|moves|] == moves;
  }

  // ----- Lists are kept -----

  lemma {:induction false} UndoneStaysDistinct(list: seq<R.Row>, property: string, t: int)
    requires AllDiffer(list)
    ensures AllDiffer(S.Undone(list, property, t))
  {
    if list != [] {
      var rest := S.Undone(list[1..], property, t);
      UndoneStaysDistinct(list[1..], property, t);
      S.UndoneMembers(list[1..], property, t);
      forall j | 0 <= j < |rest|
        ensures Place(rest[j]) != Place(list[0])
      {
        assert rest[j] in rest;
      }
    }
  }

  lemma RowIsAt(table: Table, row: R.Row, k: Key, p: Property, t: int)
    requires Shows(table, row, k)
    ensures S.IsAt(row, PropertyName(p), t) <==> k.property == p && k.endTime == t
  {
    if PropertyName(k.property) == PropertyName(p) {
      NamesDiffer(k.property, p);
    }
  }

  lemma UndoneBacked(rows: Rows, table: Table, row: R.Row, p: Property, t: int)
    requires Backed(rows, table, row) && !S.IsAt(row, PropertyName(p), t)
    ensures Backed(DeleteAt(rows, table, p, t), table, row)
  {
    var k :| IsRowOf(rows, table, row, k);
    RowIsAt(table, row, k, p, t);
    assert IsRowOf(DeleteAt(rows, table, p, t), table, row, k);
  }

  lemma UndoneLists(list: seq<R.Row>, rows: Rows, table: Table, p: Property, t: int)
    requires Lists(list, rows, table)
    ensures Lists(S.Undone(list, PropertyName(p), t), DeleteAt(rows, table, p, t), table)
  {
    var left, after := S.Undone(list, PropertyName(p), t), DeleteAt(rows, table, p, t);
    S.UndoneMembers(list, PropertyName(p), t);
    UndoneStaysDistinct(list, PropertyName(p), t);
    forall row | row in left
      ensures Backed(after, table, row)
    {
      assert Backed(rows, table, row);
      UndoneBacked(rows, table, row, p, t);
    }
    forall k | k in after && k.table == table
      ensures Listed(left, after, table, k)
    {
      assert Listed(list, rows, table, k);
      var row :| row in list && IsRowOf(rows, table, row, k);
      RowIsAt(table, row, k, p, t);
      assert IsRowOf(after, table, row, k);
    }
  }

  function Raised(rows: Rows, k: Key, amount: int): Rows
    requires k in rows
  {
    rows[k := rows[k].(value := rows[k].value + amount)]
  }

  /** Of all rows of a list only one shows a key, and it is the key's row. */
  lemma OneShows(list: seq<R.Row>, rows: Rows, table: Table, m: nat, k: Key)
    requires Lists(list, rows, table) && m < |list| && Shows(table, list[m], k)
    ensures IsRowOf(rows, table, list[m], k)
    ensures forall i :: 0 <= i < |list| && i != m ==> !Shows(table, list[i], k)
  {
    assert list[m] in list && Backed(rows, table, list[m]);
    var other :| IsRowOf(rows, table, list[m], other);
    ShowsOne(table, list[m], k, other);
  }

  lemma RaisedRow(rows: Rows, table: Table, row: R.Row, k: Key, amount: int)
    requires IsRowOf(rows, table, row, k)
    ensures IsRowOf(Raised(rows, k, amount), table, S.CountRow(row, row.id, amount), k)
    ensures Place(S.CountRow(row, row.id, amount)) == Place(row)
  {
  }

  lemma CountedUpListed(list: seq<R.Row>, rows: Rows, table: Table, m: nat, k: Key, amount: int, other: Key)
    requires m < |list| && IsRowOf(rows, table, list[m], k) && Listed(list, rows, table, other)
    requires forall i :: 0 <= i < |list| && i != m ==> list[i].id != list[m].id
    ensures Listed(S.CountedUp(list, list[m].id, amount), Raised(rows, k, amount), table, other)
  {
    var after := S.CountedUp(list, list[m].id, amount);
    var row :| row in list && IsRowOf(rows, table, row, other);
    var i :| 0 <= i < |list| && list[i] == row;
    RaisedRow(rows, table, list[m], k, amount);
    assert after[m] in after && after[i] in after;
    if other == k {
      assert IsRowOf(Raised(rows, k, amount), table, after[m], other);
    } else {
      if i == m {
        ShowsOne(table, row, k, other);
      }
      assert IsRowOf(Raised(rows, k, amount), table, after[i], other);
    }
  }

  lemma CountedUpBacked(list: seq<R.Row>, rows: Rows, table: Table, m: nat, k: Key, amount: int, i: nat)
    requires Lists(list, rows, table) && m < |list| && i < |list| && i != m && IsRowOf(rows, table, list[m], k)
    ensures Backed(Raised(rows, k, amount), table, list[i])
  {
    assert list[i] in list && Backed(rows, table, list[i]);
    OneShows(list, rows, table, m, k);
    var other :| IsRowOf(rows, table, list[i], other);
    assert other != k;
    assert IsRowOf(Raised(rows, k, amount), table, list[i], other);
  }

  lemma CountedUpLists(list: seq<R.Row>, rows: Rows, table: Table, m: nat, k: Key, amount: int)
    requires Lists(list, rows, table) && R.Ascending(list, 0) && m < |list| && IsRowOf(rows, table, list[m], k)
    ensures Lists(S.CountedUp(list, list[m].id, amount), Raised(rows, k, amount), table)
  {
    var after, raised := S.CountedUp(list, list[m].id, amount), Raised(rows, k, amount);
    RaisedRow(rows, table, list[m], k, amount);
    forall i | 0 <= i < |list| && i != m
      ensures list[i].id != list[m].id && after[i] == list[i]
    {
      assert i < m || m < i;
    }
    forall row | row in after
      ensures Backed(raised, table, row)
    {
      var i :| 0 <= i < |after| && after[i] == row;
      if i != m {
        CountedUpBacked(list, rows, table, m, k, amount, i);
      }
    }
    forall other | other in raised && other.table == table
      ensures Listed(after, raised, table, other)
    {
      CountedUpListed(list, rows, table, m, k, amount, other);
    }
    forall i, j | 0 <= i < j < |after|
      ensures Place(after[i]) != Place(after[j])
    {
      assert Place(after[i]) == Place(list[i]) && Place(after[j]) == Place(list[j]);
    }
  }

  ghost predicate SameTable(a: Rows, b: Rows, table: Table) {
    forall k: Key :: k.table == table ==> (k in a <==> k in b) && (k in a ==> a[k] == b[k])
  }

  lemma SameTableLists(list: seq<R.Row>, a: Rows, b: Rows, table: Table)
    requires Lists(list, a, table) && SameTable(a, b, table)
    ensures Lists(list, b, table)
  {
    forall row | row in list
      ensures Backed(b, table, row)
    {
      assert Backed(a, table, row);
      var k :| IsRowOf(a, table, row, k);
      assert IsRowOf(b, table, row, k);
    }
    forall k | k in b && k.table == table
      ensures Listed(list, b, table, k)
    {
      assert Listed(list, a, table, k);
      var row :| row in list && IsRowOf(a, table, row, k);
      assert IsRowOf(b, table, row, k);
    }
  }

  // ----- What holds of every run of the joint system -----

  ghost predicate AllOrdered(s: S.Sync, me: int) {
    forall t :: S.Ordered(s, me, t)
  }

  predicate OnlyAudit(rows: seq<R.Row>) {
    forall row :: row in rows ==> row.data.Audit?
  }

  ghost predicate JointInv(c: Config, me: int, j: Joint) {
    && SystemInv(c, j.system) && AllOrdered(j.sync, me) && ListsBoth(j.sync, j.system.run.db.rows)
    && OnlyAudit(S.ClientRows(j.sync, R.AuditLog)) && R.Constraint(j.sync.tables)
  }

  lemma OneEffect(known: set<string>, me: int, s: S.Sync, e: S.Event)
    ensures SyncAfter(known, me, s, [e]) == S.Next(known, me, s, e)
  {
    assert [e][..0] == [];
    assert SyncAfter(known, me, s, [e][..0]) == s;
  }

  lemma NextKeepsOrder(known: set<string>, me: int, s: S.Sync, e: S.Event)
    requires AllOrdered(s, me)
    ensures AllOrdered(S.Next(known, me, s, e), me)
  {
    forall t
      ensures S.Ordered(S.Next(known, me, s, e), me, t)
    {
      S.OrderedStep(known, me, s, e, t);
    }
  }

  lemma {:induction false} EffectsKeepOrder(known: set<string>, me: int, s: S.Sync, effects: seq<S.Event>)
    requires AllOrdered(s, me)
    ensures AllOrdered(SyncAfter(known, me, s, effects), me)
  {
    if effects != [] {
      var n := |effects| - 1;
      EffectsKeepOrder(known, me, s, effects[..n]);
      NextKeepsOrder(known, me, SyncAfter(known, me, s, effects[..n]), effects[n]);
    }
  }

  lemma OneEffectOnTable(known: set<string>, me: int, s: S.Sync, e: S.Event, t: R.Table)
    ensures S.ClientRows(SyncAfter(known, me, s, [e]), t) == S.RowsAfter(S.ClientRows(s, t), e, t)
  {
    OneEffect(known, me, s, e);
    S.ClientStep(known, me, s, e, t);
  }

  lemma DeletedLists(list: seq<R.Row>, rows: Rows, table: Table, deleted: Table, p: Property, t: int)
    requires Lists(list, rows, table) && IsSent(table) && IsSent(deleted)
    ensures Lists(S.RowsAfter(list, S.Undo(RemoteTable(deleted), PropertyName(p), t), RemoteTable(table)),
                  DeleteAt(rows, deleted, p, t), table)
  {
    if table == deleted {
      UndoneLists(list, rows, table, p, t);
    } else {
      SameTableLists(list, rows, DeleteAt(rows, deleted, p, t), table);
    }
  }

  lemma DeletionKeepsLists(known: set<string>, me: int, s: S.Sync, rows: Rows, job: Job, table: Table)
    requires job.Undoing? && job.tables != [] && IsSent(table)
    requires Lists(S.ClientRows(s, RemoteTable(table)), rows, table)
    ensures Lists(S.ClientRows(SyncAfter(known, me, s, Deletion(job)), RemoteTable(table)),
                  DeleteAt(rows, job.tables[0], job.p, job.endTime), table)
  {
    var list, deleted := S.ClientRows(s, RemoteTable(table)), job.tables[0];
    if IsSent(deleted) {
      OneEffectOnTable(known, me, s, S.Undo(RemoteTable(deleted), PropertyName(job.p), job.endTime),
                       RemoteTable(table));
      DeletedLists(list, rows, table, deleted, job.p, job.endTime);
    } else {
      SameTableLists(list, rows, DeleteAt(rows, deleted, job.p, job.endTime), table);
    }
  }

  lemma RaisedLists(list: seq<R.Row>, rows: Rows, table: Table, row: R.Row, k: Key, amount: int)
    requires Lists(list, rows, table) && R.Ascending(list, 0) && IsSent(table) && IsSent(k.table) && k in rows
    requires table == k.table ==> row in list && Shows(table, row, k)
    ensures Lists(S.RowsAfter(list, S.CountUp(RemoteTable(k.table), row.id, amount), RemoteTable(table)),
                  Raised(rows, k, amount), table)
  {
    if table == k.table {
      var m :| 0 <= m < |list| && list[m] == row;
      OneShows(list, rows, table, m, k);
      CountedUpLists(list, rows, table, m, k, amount);
    } else {
      SameTableLists(list, rows, Raised(rows, k, amount), table);
    }
  }

  lemma CountUpKeepsLists(known: set<string>, me: int, s: S.Sync, rows: Rows, k: Key, amount: int,
                          effects: seq<S.Event>,
                          table: Table)
    requires IsSent(table) && S.Ordered(s, me, RemoteTable(table))
    requires Lists(S.ClientRows(s, RemoteTable(table)), rows, table) && k in rows
    requires if IsSent(k.table) then IsCountUp(S.ClientRows(s, RemoteTable(k.table)), k, amount, effects)
             else effects == []
    ensures Lists(S.ClientRows(SyncAfter(known, me, s, effects), RemoteTable(table)), Raised(rows, k, amount), table)
  {
    var list := S.ClientRows(s, RemoteTable(table));
    if IsSent(k.table) {
      var row :| row in S.ClientRows(s, RemoteTable(k.table)) && Shows(k.table, row, k)
                 && effects == [S.CountUp(RemoteTable(k.table), row.id, amount)];
      OneEffectOnTable(known, me, s, effects[0], RemoteTable(table));
      RaisedLists(list, rows, table, row, k, amount);
    } else {
      SameTableLists(list, rows, Raised(rows, k, amount), table);
    }
  }

  /** The row that an increment adds to exists. */
  lemma CountedKeyExists(c: Config, s: System, a: Action)
    requires SystemInv(c, s) && CountsUp(s, a)
    ensures var e := s.pending[a.i];
            && LogKey(c, e) in s.run.db.rows && IsLogged(c, e.property)
            && Next(c, s, a).run.db.rows == Raised(s.run.db.rows, LogKey(c, e), e.amount)
            && Next(c, s, a).run.db.fills == s.run.db.fills
  {
    assert s.pending[a.i] in s.pending;
  }

  lemma LocalKeepsLists(c: Config, known: set<string>, me: int, j: Joint, a: Action, effects: seq<S.Event>)
    requires JointInv(c, me, j) && IsEffect(c, known, me, j, a, effects)
    ensures ListsBoth(SyncAfter(known, me, j.sync, effects), Next(c, j.system, a).run.db.rows)
  {
    var rows, after := j.system.run.db.rows, Next(c, j.system, a).run.db.rows;
    if Deletes(j.system.run, a) || CountsUp(j.system, a) {
      forall table | IsSent(table)
        ensures Lists(S.ClientRows(SyncAfter(known, me, j.sync, effects), RemoteTable(table)), after, table)
      {
        assert Lists(S.ClientRows(j.sync, RemoteTable(table)), rows, table);
        if Deletes(j.system.run, a) {
          DeletionKeepsLists(known, me, j.sync, rows, j.system.run.job, table);
        } else {
          var e := j.system.pending[a.i];
          CountedKeyExists(c, j.system, a);
          assert S.Ordered(j.sync, me, RemoteTable(table));
          CountUpKeepsLists(known, me, j.sync, rows, LogKey(c, e), e.amount, effects, table);
        }
      }
    }
  }

  predicate SparesAudit(effects: seq<S.Event>) {
    forall i :: 0 <= i < |effects| ==>
      match effects[i]
      case Grow(table, _) => table != R.AuditLog
      case CountUp(table, _, _) => table != R.AuditLog
      case Undo(table, _, _) => table != R.AuditLog
      case _ => false
  }

  lemma EffectsSpareAudit(c: Config, known: set<string>, me: int, j: Joint, a: Action, effects: seq<S.Event>)
    requires IsEffect(c, known, me, j, a, effects)
    ensures SparesAudit(effects)
  {
  }

  /** The steps of the job leave what is stored, and the audit rows. */
  lemma {:induction false} SparedAudit(known: set<string>, me: int, s: S.Sync, effects: seq<S.Event>)
    requires SparesAudit(effects)
    ensures var after := SyncAfter(known, me, s, effects);
            after.tables == s.tables && after.outgoing == s.outgoing &&
                S.ClientRows(after, R.AuditLog) == S.ClientRows(s, R.AuditLog)
  {
    if effects != [] {
      var n := |effects| - 1;
      SparedAudit(known, me, s, effects[..n]);
      S.ClientStep(known, me, SyncAfter(known, me, s, effects[..n]), effects[n], R.AuditLog);
      S.PostsChangeTables(known, me, SyncAfter(known, me, s, effects[..n]), effects[n]);
    }
  }

  lemma RemoteKeepsLists(known: set<string>, me: int, s: S.Sync, rows: Rows, e: S.Event)
    requires ListsBoth(s, rows) && OnlyAudit(S.ClientRows(s, R.AuditLog)) && IsRemote(e)
    ensures ListsBoth(S.Next(known, me, s, e), rows) && OnlyAudit(S.ClientRows(S.Next(known, me, s, e), R.AuditLog))
  {
    S.ClientStep(known, me, s, e, R.AuditLog);
    if e.Grow? {
      S.InsertedMembers(S.ClientRows(s, R.AuditLog), e.row);
    }
    forall table | IsSent(table)
      ensures Lists(S.ClientRows(S.Next(known, me, s, e), RemoteTable(table)), rows, table)
    {
      S.ClientStep(known, me, s, e, RemoteTable(table));
    }
  }

  lemma MovedKeepsInv(c: Config, known: set<string>, me: int, j: Joint, m: Move)
    requires ValidConfig(c) && JointInv(c, me, j)
    ensures JointInv(c, me, Moved(c, known, me, j, m))
  {
    match m
    case Local(a, effects) =>
      if IsEffect(c, known, me, j, a, effects) {
        NextKeepsInv(c, j.system, a);
        EffectsKeepOrder(known, me, j.sync, effects);
        LocalKeepsLists(c, known, me, j, a, effects);
        EffectsSpareAudit(c, known, me, j, a, effects);
        SparedAudit(known, me, j.sync, effects);
      }
    case Remote(e) =>
      if IsRemote(e) {
        NextKeepsOrder(known, me, j.sync, e);
        RemoteKeepsLists(known, me, j.sync, j.system.run.db.rows, e);
        S.PostsChangeTables(known, me, j.sync, e);
      }
  }

  lemma {:induction false} EveryOutcome(c: Config, known: set<string>, me: int, moves: seq<Move>)
    requires ValidConfig(c)
    ensures JointInv(c, me, Outcome(c, known, me, moves))
  {
    if moves == [] {
      EveryHistory(c, []);
      forall t
        ensures S.Ordered(S.Nothing, me, t)
      {
        S.EveryHistory(known, me, [], t);
      }
    } else {
      EveryOutcome(c, known, me, moves[..|moves| - 1]);
      MovedKeepsInv(c, known, me, Outcome(c, known, me, moves[..|moves| - 1]), moves[|moves| - 1]);
    }
  }

  // ----- What is stored or under way -----

  /** The rows of the request in hand, if they may still be stored. */
  ghost function UnderWay(s: S.Sync, me: int, t: R.Table): seq<R.Row> {
    var sent := R.Rows(s.outgoing, t);
    if R.Ascending(sent, R.LastId(S.RemoteRows(s, me, t))) then sent else []
  }

  ghost function Reached(s: S.Sync, me: int, t: R.Table): seq<R.Row> {
    S.RemoteRows(s, me, t) + UnderWay(s, me, t)
  }

  /** What is stored, and then what is under way, are the first rows of the sender's table, up to values. */
  ghost predicate Ahead(s: S.Sync, me: int, t: R.Table) {
    S.IsFrontAlike(Reached(s, me, t), S.ClientRows(s, t))
  }

  ghost predicate AheadEverywhere(s: S.Sync, me: int) {
    forall t :: Ahead(s, me, t)
  }

  ghost predicate PrefixEverywhere(s: S.Sync, me: int) {
    forall t :: S.IsPrefixUpToValues(s, me, t)
  }

  lemma AheadIsPrefix(s: S.Sync, me: int)
    requires AheadEverywhere(s, me)
    ensures PrefixEverywhere(s, me)
  {
    forall t
      ensures S.IsPrefixUpToValues(s, me, t)
    {
      assert Ahead(s, me, t);
      FrontOfFront(S.RemoteRows(s, me, t), UnderWay(s, me, t), S.ClientRows(s, t));
    }
  }

  lemma FrontOfFront(a: seq<R.Row>, b: seq<R.Row>, rows: seq<R.Row>)
    requires S.IsFrontAlike(a + b, rows)
    ensures S.IsFrontAlike(a, rows)
  {
    forall i | 0 <= i < |a|
      ensures S.Steady(a[i]) == S.Steady(rows[..|a|][i])
    {
      assert S.Steady((a + b)[i]) == S.Steady(rows[..|a + b|][i]);
    }
  }

  /** The writes spare what is stored or under way: no undo meets it, and new rows come after it. */
  predicate Spares(effects: seq<S.Event>, t: R.Table, reached: seq<R.Row>) {
    forall i :: 0 <= i < |effects| ==> SparesOne(effects[i], t, reached)
  }

  predicate IsWrite(e: S.Event) {
    e.Grow? || e.CountUp? || e.Undo?
  }

  /** Nothing of the bouncer's, and no request, changes. */
  predicate SameRemote(s: S.Sync, next: S.Sync) {
    next.tables == s.tables && next.outgoing == s.outgoing && next.acknowledged == s.acknowledged
  }

  lemma WriteSparesRemote(known: set<string>, me: int, s: S.Sync, e: S.Event)
    requires IsWrite(e)
    ensures SameRemote(s, S.Next(known, me, s, e))
  {
  }

  lemma {:induction false} WritesSpareRemote(known: set<string>, me: int, s: S.Sync, effects: seq<S.Event>)
    requires forall i :: 0 <= i < |effects| ==> IsWrite(effects[i])
    ensures SameRemote(s, SyncAfter(known, me, s, effects))
  {
    if effects != [] {
      var n := |effects| - 1;
      WritesSpareRemote(known, me, s, effects[..n]);
      WriteSparesRemote(known, me, SyncAfter(known, me, s, effects[..n]), effects[n]);
    }
  }

  lemma SameReached(s: S.Sync, next: S.Sync, me: int, t: R.Table)
    requires SameRemote(s, next)
    ensures Reached(next, me, t) == Reached(s, me, t) && S.RemoteRows(next, me, t) == S.RemoteRows(s, me, t)
  {
  }

  predicate SparesOne(e: S.Event, t: R.Table, reached: seq<R.Row>) {
    match e
    case Undo(table, property, endTime) => table == t ==> !S.HasRowAt(reached, property, endTime)
    case Grow(table, row) => table == t ==> row.id > R.LastId(reached)
    case _ => true
  }

  lemma WriteKeepsAhead(known: set<string>, me: int, s: S.Sync, e: S.Event, t: R.Table)
    requires S.Ordered(s, me, t) && Ahead(s, me, t) && IsWrite(e) && SparesOne(e, t, Reached(s, me, t))
    ensures Ahead(S.Next(known, me, s, e), me, t)
  {
    WriteSparesRemote(known, me, s, e);
    SameReached(s, S.Next(known, me, s, e), me, t);
    S.ClientStep(known, me, s, e, t);
    S.RowsKeepPrefixUpToValues(S.ClientRows(s, t), Reached(s, me, t), e, t);
  }

  lemma {:induction false} EffectsKeepAhead(known: set<string>, me: int, s: S.Sync, effects: seq<S.Event>, t: R.Table)
    requires AllOrdered(s, me) && Ahead(s, me, t) && Spares(effects, t, Reached(s, me, t))
    requires forall i :: 0 <= i < |effects| ==> IsWrite(effects[i])
    ensures Ahead(SyncAfter(known, me, s, effects), me, t)
  {
    if effects != [] {
      var n := |effects| - 1;
      var front := SyncAfter(known, me, s, effects[..n]);
      EffectsKeepAhead(known, me, s, effects[..n], t);
      EffectsKeepOrder(known, me, s, effects[..n]);
      assert S.Ordered(front, me, t);
      WritesSpareRemote(known, me, s, effects[..n]);
      SameReached(s, front, me, t);
      WriteKeepsAhead(known, me, front, effects[n], t);
    }
  }

  // ----- Rows that no undo can reach -----

  /** The row is that of a row of the job's which cannot be undone. */
  predicate Settles(c: Config, db: Db, table: Table, row: R.Row, k: Key) {
    k in db.rows && Shows(table, row, k) && !Undoable(c, db, k)
  }

  /** It has the value that was read, unless it is logged. */
  predicate Agrees(c: Config, db: Db, row: R.Row, k: Key)
    requires k in db.rows
  {
    !IsLoggedKey(c, k) ==> row.data == DataOf(k, db.rows[k])
  }

  ghost predicate IsSettled(c: Config, db: Db, table: Table, row: R.Row) {
    exists k :: Settles(c, db, table, row, k)
  }

  ghost predicate IsTrue(c: Config, db: Db, table: Table, row: R.Row) {
    exists k :: Settles(c, db, table, row, k) && Agrees(c, db, row, k)
  }

  ghost predicate AllSettled(c: Config, db: Db, table: Table, rows: seq<R.Row>) {
    forall row :: row in rows ==> IsSettled(c, db, table, row)
  }

  ghost predicate AllTrue(c: Config, db: Db, table: Table, rows: seq<R.Row>) {
    forall row :: row in rows ==> IsTrue(c, db, table, row)
  }

  lemma StepKeepsRow(c: Config, s: System, a: Action, table: Table, row: R.Row, k: Key)
    requires ValidConfig(c) && SystemInv(c, s) && Settles(c, s.run.db, table, row, k)
    ensures var after := Next(c, s, a).run.db;
            Settles(c, after, table, row, k) && (Agrees(c, s.run.db, row, k) ==> Agrees(c, after, row, k))
  {
    StepKeepsSettled(c, s, a, k);
  }

  lemma StepKeepsAll(c: Config, s: System, a: Action, table: Table, rows: seq<R.Row>)
    requires ValidConfig(c) && SystemInv(c, s)
    ensures AllSettled(c, s.run.db, table, rows) ==> AllSettled(c, Next(c, s, a).run.db, table, rows)
    ensures AllTrue(c, s.run.db, table, rows) ==> AllTrue(c, Next(c, s, a).run.db, table, rows)
  {
    var before, after := s.run.db, Next(c, s, a).run.db;
    forall row | row in rows
      ensures IsSettled(c, before, table, row) ==> IsSettled(c, after, table, row)
      ensures IsTrue(c, before, table, row) ==> IsTrue(c, after, table, row)
    {
      if k :| Settles(c, before, table, row, k) && (IsTrue(c, before, table, row) ==> Agrees(c, before, row, k)) {
        StepKeepsRow(c, s, a, table, row, k);
      }
    }
  }

  /** The job's undo meets no settled row. */
  lemma UndoSparesSettled(c: Config, r: Run, rows: seq<R.Row>)
    requires JobOk(c, r) && Deletes(r, Execute) && AllSettled(c, r.db, r.job.tables[0], rows)
    ensures !S.HasRowAt(rows, PropertyName(r.job.p), r.job.endTime)
  {
    var p, t, table, whole := r.job.p, r.job.endTime, r.job.tables[0], UndoTables(c, r.job.p);
    assert table == whole[|whole| - |r.job.tables|];
    if S.HasRowAt(rows, PropertyName(p), t) {
      var i :| 0 <= i < |rows| && S.IsAt(rows[i], PropertyName(p), t);
      assert rows[i] in rows && IsSettled(c, r.db, table, rows[i]);
      var k :| Settles(c, r.db, table, rows[i], k);
      RowIsAt(table, rows[i], k, p, t);
      assert false;
    }
  }

  /** Nothing that is stored or under way can be undone; and all of it has the values that were read, unless logged. */
  ghost predicate ReachedSettled(c: Config, me: int, j: Joint) {
    forall table :: IsSent(table) ==> AllSettled(c, j.system.run.db, table, Reached(j.sync, me, RemoteTable(table)))
  }

  ghost predicate ReachedTrue(c: Config, me: int, j: Joint) {
    forall table :: IsSent(table) ==> AllTrue(c, j.system.run.db, table, Reached(j.sync, me, RemoteTable(table)))
  }

  // ----- Careful moves -----

  /** No row of a sent table can be undone. */
  ghost predicate SafeToSend(c: Config, db: Db) {
    forall k :: k in db.rows && IsSent(k.table) ==> !Undoable(c, db, k)
  }

  /** When every statistic has been filled, it is safe to send. */
  lemma DoneIsSafe(c: Config, db: Db)
    requires AllDone(db.fills)
    ensures SafeToSend(c, db)
  {
  }

  /** The new rows come after all that is stored or under way. */
  ghost predicate InOrder(s: S.Sync, me: int, effects: seq<S.Event>) {
    forall i :: 0 <= i < |effects| && effects[i].Grow? ==>
        effects[i].row.id > R.LastId(Reached(s, me, effects[i].table))
  }

  /** Requests are built only when no row of a sent table can be undone, and rows become visible in order. */
  ghost predicate Careful(c: Config, me: int, j: Joint, m: Move) {
    match m
    case Local(_, effects) => InOrder(j.sync, me, effects)
    case Remote(e) => InOrder(j.sync, me, [e]) && (e.Build? ==> SafeToSend(c, j.system.run.db))
  }

  ghost predicate AllCareful(c: Config, known: set<string>, me: int, moves: seq<Move>) {
    moves == [] ||
    var front, m := moves[..|moves| - 1], moves[|moves| - 1];
    AllCareful(c, known, me, front) && Careful(c, me, Outcome(c, known, me, front), m)
  }

  /** The state is as careful moves leave it. */
  ghost predicate Kept(c: Config, me: int, j: Joint) {
    AheadEverywhere(j.sync, me) && ReachedSettled(c, me, j)
  }

  lemma EffectsAreWrites(c: Config, known: set<string>, me: int, j: Joint, a: Action, effects: seq<S.Event>)
    requires IsEffect(c, known, me, j, a, effects)
    ensures forall i :: 0 <= i < |effects| ==> IsWrite(effects[i])
  {
    EffectsSpareAudit(c, known, me, j, a, effects);
  }

  lemma DeletionSparesReached(c: Config, me: int, j: Joint, t: R.Table)
    requires JointInv(c, me, j) && ReachedSettled(c, me, j) && Deletes(j.system.run, Execute)
    ensures Spares(Deletion(j.system.run.job), t, Reached(j.sync, me, t))
  {
    var r := j.system.run;
    if IsSent(r.job.tables[0]) {
      var table := r.job.tables[0];
      assert AllSettled(c, r.db, table, Reached(j.sync, me, RemoteTable(table)));
      UndoSparesSettled(c, r, Reached(j.sync, me, RemoteTable(table)));
    }
  }

  lemma EffectsSpareReached(c: Config, known: set<string>, me: int, j: Joint, a: Action, effects: seq<S.Event>,
                            t: R.Table)
    requires JointInv(c, me, j) && ReachedSettled(c, me, j) && IsEffect(c, known, me, j, a, effects) &&
        InOrder(j.sync, me, effects)
    ensures Spares(effects, t, Reached(j.sync, me, t))
  {
    if Deletes(j.system.run, a) {
      DeletionSparesReached(c, me, j, t);
    }
  }

  /**
   * While nothing stored or under way can be undone, no orderly step of the job or of a live request breaks a prefix.
   */
  lemma LocalKeepsPrefix(c: Config, known: set<string>, me: int, j: Joint, a: Action, effects: seq<S.Event>)
    requires ValidConfig(c) && JointInv(c, me, j) && Kept(c, me, j)
    requires IsEffect(c, known, me, j, a, effects) && InOrder(j.sync, me, effects)
    ensures var after := Joint(Next(c, j.system, a), SyncAfter(known, me, j.sync, effects));
            Kept(c, me, after) && (ReachedTrue(c, me, j) ==> ReachedTrue(c, me, after))
  {
    var sync := SyncAfter(known, me, j.sync, effects);
    EffectsAreWrites(c, known, me, j, a, effects);
    forall t
      ensures Ahead(sync, me, t)
    {
      assert Ahead(j.sync, me, t);
      EffectsSpareReached(c, known, me, j, a, effects, t);
      EffectsKeepAhead(known, me, j.sync, effects, t);
    }
    forall table | IsSent(table)
      ensures var reached := Reached(j.sync, me, RemoteTable(table));
              && Reached(sync, me, RemoteTable(table)) == reached
              && (AllSettled(c, j.system.run.db, table, reached) ==>
                  AllSettled(c, Next(c, j.system, a).run.db, table, reached))
              && (AllTrue(c, j.system.run.db, table, reached) ==>
                  AllTrue(c, Next(c, j.system, a).run.db, table, reached))
    {
      WritesSpareRemote(known, me, j.sync, effects);
      SameReached(j.sync, sync, me, RemoteTable(table));
      StepKeepsAll(c, j.system, a, table, Reached(j.sync, me, RemoteTable(table)));
    }
  }

  // ----- Building and delivering -----

  lemma SafeRowIsTrue(c: Config, db: Db, table: Table, list: seq<R.Row>, row: R.Row)
    requires SafeToSend(c, db) && IsSent(table) && Lists(list, db.rows, table) && row in list
    ensures IsTrue(c, db, table, row) && IsSettled(c, db, table, row)
  {
    assert Backed(db.rows, table, row);
    var k :| IsRowOf(db.rows, table, row, k);
    assert Settles(c, db, table, row, k) && Agrees(c, db, row, k);
  }

  lemma SameCut(rows: seq<R.Row>, below: int, low: int, m: nat, n: nat)
    requires R.Ascending(rows, 0) && S.IsCut(rows, below, m) && S.IsCut(rows, low, n) && below <= low
    requires m < |rows| && rows[m].id > low
    ensures m == n
  {
    assert n <= m;
    assert n < |rows| ==> rows[n].id > low;
  }

  lemma SentComesNext(rows: seq<R.Row>, remote: seq<R.Row>, acknowledged: int)
    requires R.Ascending(rows, 0) && S.IsFrontAlike(remote, rows) && acknowledged <= R.LastId(remote)
    requires R.ToSend(rows, acknowledged) != [] && R.Ascending(R.ToSend(rows, acknowledged), R.LastId(remote))
    ensures var n, k := |remote|, |R.ToSend(rows, acknowledged)|;
            n + k <= |rows| && R.ToSend(rows, acknowledged) == rows[n..n + k]
  {
    var sent, n := R.ToSend(rows, acknowledged), |remote|;
    var m := S.AboveIsSuffix(rows, 0, acknowledged);
    S.SentIsSlice(rows, acknowledged, m, |sent|);
    assert sent[..|sent|] == sent && sent[0] == rows[m];
    S.AlikeLastId(remote, rows[..n]);
    S.CutAfterFront(rows, n);
    SameCut(rows, acknowledged, R.LastId(remote), m, n);
  }

  /** What a request has that may still be stored comes right after what is stored. */
  lemma BuiltComesNext(s: S.Sync, me: int, t: R.Table)
    requires S.Ordered(s, me, t) && S.IsPrefixUpToValues(s, me, t) && R.Rows(S.Outgoing(s), t) != []
    requires R.Ascending(R.Rows(S.Outgoing(s), t), R.LastId(S.RemoteRows(s, me, t)))
    ensures var rows, n, k := S.ClientRows(s, t), |S.RemoteRows(s, me, t)|, |R.Rows(S.Outgoing(s), t)|;
            n + k <= |rows| && R.Rows(S.Outgoing(s), t) == rows[n..n + k]
  {
    S.OutgoingRows(s, t);
    S.WasLastIsBelow(S.RemoteRows(s, me, t), S.RemoteRows(s, me, t), S.Acknowledged(s, t));
    SentComesNext(S.ClientRows(s, t), S.RemoteRows(s, me, t), S.Acknowledged(s, t));
  }

  /** After a request is built, what is stored or under way is the stored rows and the sender's next ones. */
  lemma BuiltReached(s: S.Sync, next: S.Sync, me: int, t: R.Table) returns (k: nat)
    requires S.Ordered(s, me, t) && S.IsPrefixUpToValues(s, me, t)
    requires next == s.(outgoing := S.Outgoing(s))
    ensures var rows, remote := S.ClientRows(s, t), S.RemoteRows(s, me, t);
            |remote| + k <= |rows| && Reached(next, me, t) == remote + rows[|remote|..|remote| + k]
  {
    var rows, remote, sent := S.ClientRows(s, t), S.RemoteRows(s, me, t), R.Rows(S.Outgoing(s), t);
    k := 0;
    if sent != [] && R.Ascending(sent, R.LastId(remote)) {
      BuiltComesNext(s, me, t);
      k := |sent|;
    } else {
      assert rows[|remote|..|remote|] == [];
    }
  }

  lemma NextRowsContinue(remote: seq<R.Row>, rows: seq<R.Row>, k: nat)
    requires S.IsFrontAlike(remote, rows) && |remote| + k <= |rows|
    ensures S.IsFrontAlike(remote + rows[|remote|..|remote| + k], rows)
    ensures forall row :: row in remote + rows[|remote|..|remote| + k] ==> row in remote || row in rows
  {
    S.FrontAlikeParts(remote, rows[|remote|..|remote| + k], rows);
  }

  lemma BuiltIsAhead(s: S.Sync, next: S.Sync, me: int, t: R.Table)
    requires S.Ordered(s, me, t) && S.IsPrefixUpToValues(s, me, t)
    requires next == s.(outgoing := S.Outgoing(s))
    ensures Ahead(next, me, t)
    ensures forall row :: row in Reached(next, me, t) ==> row in S.RemoteRows(s, me, t) || row in S.ClientRows(s, t)
  {
    var k := BuiltReached(s, next, me, t);
    NextRowsContinue(S.RemoteRows(s, me, t), S.ClientRows(s, t), k);
  }

  lemma BuildKeepsAhead(known: set<string>, me: int, s: S.Sync, t: R.Table)
    requires S.Ordered(s, me, t) && S.IsPrefixUpToValues(s, me, t)
    ensures Ahead(S.Next(known, me, s, S.Build), me, t)
    ensures forall row :: row in Reached(S.Next(known, me, s, S.Build), me, t) ==>
              row in S.RemoteRows(s, me, t) || row in S.ClientRows(s, t)
  {
    BuiltIsAhead(s, S.Next(known, me, s, S.Build), me, t);
  }

  /** A delivery moves rows from under way to stored. */
  lemma ArrivalShortens(s: S.Sync, next: S.Sync, me: int, t: R.Table, k: nat)
    requires next.outgoing == s.outgoing && k <= |R.Rows(s.outgoing, t)|
    requires S.RemoteRows(next, me, t) == S.RemoteRows(s, me, t) + R.Rows(s.outgoing, t)[..k]
    requires k > 0 ==> R.Ascending(R.Rows(s.outgoing, t), R.LastId(S.RemoteRows(s, me, t)))
    requires k > 0 ==> R.LastId(S.RemoteRows(next, me, t)) == R.Rows(s.outgoing, t)[k - 1].id
    ensures Reached(next, me, t) <= Reached(s, me, t)
  {
    var remote, sent := S.RemoteRows(s, me, t), R.Rows(s.outgoing, t);
    if k > 0 {
      assert sent[0].id <= sent[k - 1].id;
      assert UnderWay(next, me, t) == [];
      assert Reached(next, me, t) == remote + sent[..k] <= remote + sent;
    } else {
      assert remote + sent[..0] == remote;
    }
  }

  lemma DeliverShortens(known: set<string>, me: int, s: S.Sync, kept: R.Kept, t: R.Table)
    requires R.Ascending(S.RemoteRows(s, me, t), 0)
    ensures Reached(S.Next(known, me, s, S.Deliver(kept)), me, t) <= Reached(s, me, t)
  {
    var k := S.DeliveryArrives(known, me, s, kept, t);
    S.PostsChangeTables(known, me, s, S.Deliver(kept));
    ArrivalShortens(s, S.Next(known, me, s, S.Deliver(kept)), me, t, k);
  }

  lemma DeliverKeepsAhead(known: set<string>, me: int, s: S.Sync, kept: R.Kept, t: R.Table)
    requires S.Ordered(s, me, t) && Ahead(s, me, t)
    ensures Ahead(S.Next(known, me, s, S.Deliver(kept)), me, t)
  {
    DeliverShortens(known, me, s, kept, t);
    S.ClientStep(known, me, s, S.Deliver(kept), t);
    ShorterFront(Reached(S.Next(known, me, s, S.Deliver(kept)), me, t), Reached(s, me, t), S.ClientRows(s, t));
  }

  lemma GrowKeepsAhead(known: set<string>, me: int, s: S.Sync, e: S.Event, t: R.Table)
    requires S.Ordered(s, me, t) && Ahead(s, me, t) && e.Grow? && InOrder(s, me, [e])
    ensures Ahead(S.Next(known, me, s, e), me, t)
  {
    assert [e][0] == e;
    WriteKeepsAhead(known, me, s, e, t);
  }

  lemma OtherKeepsReached(known: set<string>, me: int, s: S.Sync, e: S.Event, t: R.Table)
    requires e.AskStatus? || e.OtherPost?
    ensures Reached(S.Next(known, me, s, e), me, t) == Reached(s, me, t)
    ensures S.ClientRows(S.Next(known, me, s, e), t) == S.ClientRows(s, t)
  {
    S.StoredStays(known, me, s, e, t);
    S.PostsChangeTables(known, me, s, e);
    S.ClientStep(known, me, s, e, t);
  }

  lemma RemoteKeepsAhead(known: set<string>, me: int, s: S.Sync, e: S.Event, t: R.Table)
    requires AllOrdered(s, me) && AheadEverywhere(s, me) && IsRemote(e) && InOrder(s, me, [e])
    ensures Ahead(S.Next(known, me, s, e), me, t)
  {
    assert S.Ordered(s, me, t) && Ahead(s, me, t);
    if e.Build? {
      AheadIsPrefix(s, me);
      assert S.IsPrefixUpToValues(s, me, t);
      BuildKeepsAhead(known, me, s, t);
    } else if e.Deliver? {
      DeliverKeepsAhead(known, me, s, e.kept, t);
    } else if e.Grow? {
      GrowKeepsAhead(known, me, s, e, t);
    } else {
      OtherKeepsReached(known, me, s, e, t);
    }
  }

  lemma ShorterFront(a: seq<R.Row>, b: seq<R.Row>, rows: seq<R.Row>)
    requires a <= b && S.IsFrontAlike(b, rows)
    ensures S.IsFrontAlike(a, rows)
  {
    assert b == a + b[|a|..];
    FrontOfFront(a, b[|a|..], rows);
  }

  /** Every row that a step brings under way or into the store was so before, or is just being read. */
  lemma RemoteReaches(known: set<string>, me: int, s: S.Sync, e: S.Event, t: R.Table, row: R.Row)
    requires S.Ordered(s, me, t) && S.IsPrefixUpToValues(s, me, t) && IsRemote(e)
    requires row in Reached(S.Next(known, me, s, e), me, t)
    ensures row in Reached(s, me, t) || (e.Build? && row in S.ClientRows(s, t))
  {
    if e.Build? {
      BuildKeepsAhead(known, me, s, t);
    } else if e.Deliver? {
      DeliverShortens(known, me, s, e.kept, t);
    } else if e.Grow? {
      WriteSparesRemote(known, me, s, e);
      SameReached(s, S.Next(known, me, s, e), me, t);
    } else {
      OtherKeepsReached(known, me, s, e, t);
    }
  }

  lemma RemoteKeepsRow(c: Config, known: set<string>, me: int, j: Joint, e: S.Event, table: Table, row: R.Row)
    requires JointInv(c, me, j) && AheadEverywhere(j.sync, me) && IsRemote(e) && IsSent(table)
    requires (e.Build? ==> SafeToSend(c, j.system.run.db)) &&
        row in Reached(S.Next(known, me, j.sync, e), me, RemoteTable(table))
    ensures row in Reached(j.sync, me, RemoteTable(table))
         || (IsSettled(c, j.system.run.db, table, row) && IsTrue(c, j.system.run.db, table, row))
  {
    AheadIsPrefix(j.sync, me);
    assert S.Ordered(j.sync, me, RemoteTable(table)) && S.IsPrefixUpToValues(j.sync, me, RemoteTable(table));
    RemoteReaches(known, me, j.sync, e, RemoteTable(table), row);
    assert Lists(S.ClientRows(j.sync, RemoteTable(table)), j.system.run.db.rows, table);
    if row !in Reached(j.sync, me, RemoteTable(table)) {
      SafeRowIsTrue(c, j.system.run.db, table, S.ClientRows(j.sync, RemoteTable(table)), row);
    }
  }

  lemma RemoteKeepsPrefix(c: Config, known: set<string>, me: int, j: Joint, e: S.Event)
    requires JointInv(c, me, j) && Kept(c, me, j) && IsRemote(e)
    requires InOrder(j.sync, me, [e]) && (e.Build? ==> SafeToSend(c, j.system.run.db))
    ensures var after := j.(sync := S.Next(known, me, j.sync, e));
            Kept(c, me, after) && (ReachedTrue(c, me, j) ==> ReachedTrue(c, me, after))
  {
    var sync := S.Next(known, me, j.sync, e);
    forall t
      ensures Ahead(sync, me, t)
    {
      RemoteKeepsAhead(known, me, j.sync, e, t);
    }
    forall table, row | IsSent(table) && row in Reached(sync, me, RemoteTable(table))
      ensures IsSettled(c, j.system.run.db, table, row)
      ensures ReachedTrue(c, me, j) ==> IsTrue(c, j.system.run.db, table, row)
    {
      assert AllSettled(c, j.system.run.db, table, Reached(j.sync, me, RemoteTable(table)));
      RemoteKeepsRow(c, known, me, j, e, table, row);
    }
  }

  lemma MovedKeepsPrefix(c: Config, known: set<string>, me: int, j: Joint, m: Move)
    requires ValidConfig(c) && JointInv(c, me, j) && Kept(c, me, j) && Careful(c, me, j, m)
    ensures var after := Moved(c, known, me, j, m);
            Kept(c, me, after) && (ReachedTrue(c, me, j) ==> ReachedTrue(c, me, after))
  {
    match m
    case Local(a, effects) =>
      if IsEffect(c, known, me, j, a, effects) {
        LocalKeepsPrefix(c, known, me, j, a, effects);
      }
    case Remote(e) =>
      if IsRemote(e) {
        RemoteKeepsPrefix(c, known, me, j, e);
      }
  }

  /**
   * When the server builds its requests only while nothing sent can be undone, and rows become visible in the order of
   * their ids, then at every moment what is stored and under way is the first rows of each table up to counted-up
   * values, none of it can ever be undone, and every value that is not logged is current.
   */
  lemma {:induction false} SafeSendsReplicate(c: Config, known: set<string>, me: int, moves: seq<Move>)
    requires ValidConfig(c) && AllCareful(c, known, me, moves)
    ensures var j := Outcome(c, known, me, moves);
            Kept(c, me, j) && ReachedTrue(c, me, j) && PrefixEverywhere(j.sync, me)
  {
    if moves != [] {
      var n := |moves| - 1;
      SafeSendsReplicate(c, known, me, moves[..n]);
      EveryOutcome(c, known, me, moves[..n]);
      MovedKeepsPrefix(c, known, me, Outcome(c, known, me, moves[..n]), moves[n]);
    }
    AheadIsPrefix(Outcome(c, known, me, moves).sync, me);
  }
}
