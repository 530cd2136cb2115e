/**
 * One post of a server's analytics rows to the bouncer: zilencer/views.py, and what zerver/lib/remote_server.py sends.
 */
module RemoteSync {
  import opened Integers
  import opened Options

  datatype Table = RealmCounts | InstallationCounts | AuditLog

  /** A count row (realm 0 for the installation table), or an audit row. */
  datatype Data =
    | Count(realm: int, property: string, subgroup: Option<string>, endTime: int, value: int)
    | Audit(realm: int, eventType: int, eventTime: int)

  datatype Row = Row(id: int, data: Data)
  datatype Stored = Stored(server: int, row: Row)

  datatype Error = InvalidProperty(property: string) | OutOfOrder | InvalidData

  type Tables = map<Table, seq<Stored>>

  function RowsIn(tables: Tables, table: Table): seq<Stored> {
    if table in tables then tables[table] else []
  }

  function Append(tables: Tables, table: Table, rows: seq<Stored>): Tables {
    tables[table := RowsIn(tables, table) + rows]
  }

  /** The rows of one POST; the audit log may be left out. */
  datatype Request = Request(realmCounts: seq<Row>, installationCounts: seq<Row>, auditLog: Option<seq<Row>>)

  function Rows(q: Request, table: Table): seq<Row> {
    match table
    case RealmCounts => q.realmCounts
    case InstallationCounts => q.installationCounts
    case AuditLog => if q.auditLog.Some? then q.auditLog.value else []
  }

  /** A table's rows from one server, in the order they were inserted. */
  function OfServer(stored: seq<Stored>, server: int): seq<Row> {
    if stored == [] then []
    else
      var last := stored[|stored| - 1];
      OfServer(stored[..|stored| - 1], server) + if last.server == server then [last.row] else []
  }

  function Tagged(server: int, rows: seq<Row>): seq<Stored> {
    seq(|rows|, i requires 0 <= i < |rows| => Stored(server, rows[i]))
  }

  /** `get_last_id_from_server`: the largest remote id, or 0. */
  function LastId(rows: seq<Row>): int {
    if rows == [] then 0
    else if |rows| == 1 then rows[0].id
    else
      var best := LastId(rows[..|rows| - 1]);
      if best < rows[|rows| - 1].id then rows[|rows| - 1].id else best
  }

  /** Each id above the one before it, and the first above `last`. */
  ghost predicate Ascending(rows: seq<Row>, last: int) {
    && (rows != [] ==> last < rows[0].id)
    && forall i, j :: 0 <= i < j < |rows| ==> rows[i].id < rows[j].id
  }

  predicate KnownProperty(known: set<string>, row: Row) {
    row.data.Count? ==> row.data.property in known
  }

  lemma {:induction false} LastOfAscending(rows: seq<Row>, last: int)
    requires Ascending(rows, last) && rows != []
    ensures LastId(rows) == rows[|rows| - 1].id
  {
    if |rows| > 1 {
      LastOfAscending(rows[..|rows| - 1], last);
    }
  }

  /** The last id is the largest. */
  lemma {:induction false} LastIdIsLargest(rows: seq<Row>)
    ensures forall i :: 0 <= i < |rows| ==> rows[i].id <= LastId(rows)
    ensures rows != [] ==> exists i :: 0 <= i < |rows| && rows[i].id == LastId(rows)
  {
    if |rows| == 1 {
      assert rows[0].id == LastId(rows);
    } else if |rows| > 1 {
      var n := |rows| - 1;
      LastIdIsLargest(rows[..n]);
      var i :| 0 <= i < n && rows[..n][i].id == LastId(rows[..n]);
      assert rows[i] == rows[..n][i] && rows[n].id == rows[n].id;
      forall j | 0 <= j < n
        ensures rows[j].id <= LastId(rows[..n])
      {
        assert rows[j] == rows[..n][j];
      }
    }
  }

  lemma {:induction false} OfServerAppend(stored: seq<Stored>, server: int, rows: seq<Row>, other: int)
    ensures OfServer(stored + Tagged(server, rows), other) == OfServer(stored, other) + if other == server then rows
                                                                                        else []
  {
    if rows == [] {
      assert stored + Tagged(server, rows) == stored;
    } else {
      var n := |rows| - 1;
      var longer := stored + Tagged(server, rows);
      assert longer[..|longer| - 1] == stored + Tagged(server, rows[..n]);
      OfServerAppend(stored, server, rows[..n], other);
      assert rows == rows[..n] + [rows[n]];
    }
  }

  // ----- Validation -----

  /** What `validate_incoming_table_data` answers when the last id stored so far is `last`. */
  function Check(known: set<string>, rows: seq<Row>, last: int): Option<Error> {
    if rows == [] then None
    else if !KnownProperty(known, rows[0]) then Some(InvalidProperty(rows[0].data.property))
    else if rows[0].id <= last then Some(OutOfOrder)
    else Check(known, rows[1..], rows[0].id)
  }

  /** Rows pass exactly when every property is known and the ids ascend from the last one stored. */
  lemma {:induction false} CheckMeaning(known: set<string>, rows: seq<Row>, last: int)
    ensures Check(known, rows, last).None?
       <==> Ascending(rows, last) && forall row :: row in rows ==> KnownProperty(known, row)
  {
    if rows != [] {
      CheckMeaning(known, rows[1..], rows[0].id);
      if Check(known, rows, last).None? {
        forall i, j | 0 <= i < j < |rows|
          ensures rows[i].id < rows[j].id
        {
          if i == 0 {
            assert rows[j] == rows[1..][j - 1];
          } else {
            assert rows[i] == rows[1..][i - 1] && rows[j] == rows[1..][j - 1];
          }
        }
      } else if Ascending(rows, last) {
        assert Ascending(rows[1..], rows[0].id);
        assert rows[0] in rows;
        assert forall row :: row in rows[1..] ==> row in rows;
      }
    }
  }

  /** The row's property is known and its id is above the one before it. */
  predicate PassesAt(known: set<string>, rows: seq<Row>, last: int, i: nat)
    requires i < |rows|
  {
    KnownProperty(known, rows[i]) && (if i == 0 then last else rows[i - 1].id) < rows[i].id
  }

  /** A failed check answers for the first row that does not pass, and for its property first. */
  lemma {:induction false} CheckAnswers(known: set<string>, rows: seq<Row>, last: int) returns (i: nat)
    requires Check(known, rows, last).Some?
    ensures i < |rows| && !PassesAt(known, rows, last, i)
    ensures forall j: nat :: j < i ==> PassesAt(known, rows, last, j)
    ensures Check(known, rows, last).value ==
              if KnownProperty(known, rows[i]) then OutOfOrder else InvalidProperty(rows[i].data.property)
  {
    if PassesAt(known, rows, last, 0) {
      var k := CheckAnswers(known, rows[1..], rows[0].id);
      i := k + 1;
      assert rows[1..][k] == rows[i];
      forall j: nat | j < i
        ensures PassesAt(known, rows, last, j)
      {
        if j > 0 {
          assert PassesAt(known, rows[1..], rows[0].id, j - 1);
        }
      }
    } else {
      i := 0;
    }
  }

  ghost predicate Acceptable(known: set<string>, tables: Tables, server: int, q: Request) {
    forall table :: Check(known, Rows(q, table), LastId(OfServer(RowsIn(tables, table), server))).None?
  }

  /** The first error found in the three tables, taken in order. */
  function ValidationError(known: set<string>, tables: Tables, server: int, q: Request): Option<Error> {
    var realm := Check(known, q.realmCounts, LastId(OfServer(RowsIn(tables, RealmCounts), server)));
    var installation := Check(known, q.installationCounts,
                              LastId(OfServer(RowsIn(tables, InstallationCounts), server)));
    if realm.Some? then realm
    else if installation.Some? then installation
    else Check(known, Rows(q, AuditLog), LastId(OfServer(RowsIn(tables, AuditLog), server)))
  }

  function TableError(known: set<string>, tables: Tables, server: int, q: Request, table: Table): Option<Error> {
    Check(known, Rows(q, table), LastId(OfServer(RowsIn(tables, table), server)))
  }

  /** The order in which the tables are checked and stored. */
  predicate ComesBefore(a: Table, b: Table) {
    (a.RealmCounts? && !b.RealmCounts?) || (a.InstallationCounts? && b.AuditLog?)
  }

  /** The answer is that of the first table with an error. */
  ghost predicate IsFirstError(known: set<string>, tables: Tables, server: int, q: Request, error: Option<Error>) {
    exists table ::
      && error.Some? && error == TableError(known, tables, server, q, table)
      && forall earlier :: ComesBefore(earlier, table) ==> TableError(known, tables, server, q, earlier).None?
  }

  lemma FirstErrorAnswers(known: set<string>, tables: Tables, server: int, q: Request)
    requires ValidationError(known, tables, server, q).Some?
    ensures IsFirstError(known, tables, server, q, ValidationError(known, tables, server, q))
  {
    var error := ValidationError(known, tables, server, q);
    if TableError(known, tables, server, q, RealmCounts).Some? {
      assert error == TableError(known, tables, server, q, RealmCounts);
    } else if TableError(known, tables, server, q, InstallationCounts).Some? {
      assert error == TableError(known, tables, server, q, InstallationCounts);
    } else {
      assert error == TableError(known, tables, server, q, AuditLog);
    }
  }

  lemma NoErrorIsAcceptable(known: set<string>, tables: Tables, server: int, q: Request)
    ensures ValidationError(known, tables, server, q).None? <==> Acceptable(known, tables, server, q)
  {
    if ValidationError(known, tables, server, q).None? {
      forall table
        ensures Check(known, Rows(q, table), LastId(OfServer(RowsIn(tables, table), server))).None?
      {
        match table
        case RealmCounts =>
        case InstallationCounts =>
        case AuditLog =>
      }
    } else {
      var bad :=
        if Check(known, q.realmCounts, LastId(OfServer(RowsIn(tables, RealmCounts), server))).Some? then RealmCounts
        else if Check(known, q.installationCounts,
                      LastId(OfServer(RowsIn(tables, InstallationCounts), server))).Some? then
          InstallationCounts
        else AuditLog;
      assert Check(known, Rows(q, bad), LastId(OfServer(RowsIn(tables, bad), server))).Some?;
    }
  }

  // ----- One post -----

  /** How many rows of each table were stored before something failed. */
  datatype Kept = Kept(realmCounts: nat, installationCounts: nat, auditLog: nat)

  function KeptOf(k: Kept, table: Table): nat {
    match table
    case RealmCounts => k.realmCounts
    case InstallationCounts => k.installationCounts
    case AuditLog => k.auditLog
  }

  /**
   * Tables are filled in order, each by a prefix of its rows, and a table is begun only when the one before is whole.
   */
  predicate InOrder(q: Request, k: Kept) {
    && k.realmCounts <= |q.realmCounts|
    && k.installationCounts <= |q.installationCounts|
    && k.auditLog <= |Rows(q, AuditLog)|
    && (k.installationCounts > 0 ==> k.realmCounts == |q.realmCounts|)
    && (k.auditLog > 0 ==> k.realmCounts == |q.realmCounts| && k.installationCounts == |q.installationCounts|)
  }

  function Whole(q: Request): Kept {
    Kept(|q.realmCounts|, |q.installationCounts|, |Rows(q, AuditLog)|)
  }

  /** The tables after a post of which `k` rows were kept. */
  function Posted(tables: Tables, server: int, q: Request, k: Kept): Tables
    requires InOrder(q, k)
  {
    var t1 := Append(tables, RealmCounts, Tagged(server, q.realmCounts[..k.realmCounts]));
    var t2 := Append(t1, InstallationCounts, Tagged(server, q.installationCounts[..k.installationCounts]));
    Append(t2, AuditLog, Tagged(server, Rows(q, AuditLog)[..k.auditLog]))
  }

  lemma PostedRows(tables: Tables, server: int, q: Request, k: Kept, table: Table, other: int)
    requires InOrder(q, k)
    ensures OfServer(RowsIn(Posted(tables, server, q, k), table), other)
         == OfServer(RowsIn(tables, table), other) + if other == server then Rows(q, table)[..KeptOf(k, table)] else []
  {
    OfServerAppend(RowsIn(tables, table), server, Rows(q, table)[..KeptOf(k, table)], other);
  }

  // ----- The bouncer's view functions -----

  const BATCH_SIZE := 1000

  /** The columns of `unique_together`; a null subgroup never conflicts, and audit rows have no constraint. */
  function UniqueColumns(row: Row): Option<(int, string, string, int)> {
    if row.data.Count? && row.data.subgroup.Some? then
      Some((row.data.realm, row.data.property, row.data.subgroup.value, row.data.endTime))
    else None
  }

  predicate Conflict(a: Stored, b: Stored) {
    a.server == b.server && UniqueColumns(a.row).Some? && UniqueColumns(a.row) == UniqueColumns(b.row)
  }

  /** Two rows of one server conflict when they differ at most in their ids and values and have a subgroup. */
  lemma ConflictMeaning(a: Stored, b: Stored)
    ensures Conflict(a, b) <==>
              && a.server == b.server && a.row.data.Count? && b.row.data.Count? && a.row.data.subgroup.Some?
              && a.row.data == b.row.data.(value := a.row.data.value)
  {
  }

  predicate Conflicts(stored: seq<Stored>, batch: seq<Stored>) {
    || (exists i, j :: 0 <= i < |stored| && 0 <= j < |batch| && Conflict(stored[i], batch[j]))
    || (exists i, j :: 0 <= i < j < |batch| && Conflict(batch[i], batch[j]))
  }

  predicate UniqueStored(stored: seq<Stored>) {
    forall i, j :: 0 <= i < j < |stored| ==> !Conflict(stored[i], stored[j])
  }

  /** `unique_together` of every table. */
  ghost predicate Constraint(tables: Tables) {
    forall table :: UniqueStored(RowsIn(tables, table))
  }

  lemma ConflictsMeaning(stored: seq<Stored>, batch: seq<Stored>)
    requires UniqueStored(stored)
    ensures UniqueStored(stored + batch) <==> !Conflicts(stored, batch)
  {
    var all, n := stored + batch, |stored|;
    if UniqueStored(all) {
      forall i, j | 0 <= i < n && 0 <= j < |batch|
        ensures !Conflict(stored[i], batch[j])
      {
        assert !Conflict(all[i], all[n + j]);
      }
      forall i, j | 0 <= i < j < |batch|
        ensures !Conflict(batch[i], batch[j])
      {
        assert !Conflict(all[n + i], all[n + j]);
      }
    }
  }

  lemma AppendConstraint(tables: Tables, table: Table, batch: seq<Stored>)
    requires Constraint(tables) && UniqueStored(RowsIn(tables, table) + batch)
    ensures Constraint(Append(tables, table, batch))
  {
    forall other
      ensures UniqueStored(RowsIn(Append(tables, table, batch), other))
    {
      assert UniqueStored(RowsIn(tables, other));
    }
  }

  /** What a post may leave: nothing of it, if it is not acceptable, or any rows in order that the constraint allows. */
  ghost function Received(known: set<string>, tables: Tables, server: int, q: Request, k: Kept): Tables {
    if Acceptable(known, tables, server, q) && InOrder(q, k) && Constraint(Posted(tables, server, q, k)) then
      Posted(tables, server, q, k)
    else tables
  }

  class Bouncer {
    const known: set<string>
    var tables: Tables
    /** How many more batches the database takes before it fails. */
    var stamina: nat

    constructor (known: set<string>, stamina: nat)
      ensures this.known == known && this.stamina == stamina && tables == map[] && Constraint(tables)
    {
      this.known := known;
      this.stamina := stamina;
      tables := map[];
    }

    method GetLastIdFromServer(server: int, table: Table) returns (last: int)
      ensures var rows := OfServer(RowsIn(tables, table), server);
              && last == LastId(rows)
              && (rows == [] ==> last == 0)
              && (rows != [] ==> exists i :: 0 <= i < |rows| && rows[i].id == last)
              && forall i :: 0 <= i < |rows| ==> rows[i].id <= last
    {
      var rows := OfServer(RowsIn(tables, table), server);
      LastIdIsLargest(rows);
      last := 0;
      for i := 0 to |rows|
        invariant last == LastId(rows[..i])
      {
        assert rows[..i + 1][..i] == rows[..i];
        if i == 0 || last < rows[i].id {
          last := rows[i].id;
        }
      }
      assert rows[..|rows|] == rows;
    }

    method ValidateIncomingTableData(server: int, table: Table, rows: seq<Row>) returns (error: Option<Error>)
      ensures error == Check(known, rows, LastId(OfServer(RowsIn(tables, table), server)))
    {
      var lastId := GetLastIdFromServer(server, table);
      ghost var first := lastId;
      for i := 0 to |rows|
        invariant Check(known, rows, first) == Check(known, rows[i..], lastId)
      {
        if !KnownProperty(known, rows[i]) {
          return Some(InvalidProperty(rows[i].data.property));
        }
        if rows[i].id <= lastId {
          return Some(OutOfOrder);
        }
        lastId := rows[i].id;
      }
      error := None;
    }

    /** `bulk_create`: all of the batch or none of it. */
    method BulkCreate(table: Table, batch: seq<Stored>) returns (ok: bool)
      requires Constraint(tables)
      modifies this
      ensures Constraint(tables)
      ensures ok <==> old(stamina) > 0 && !Conflicts(RowsIn(old(tables), table), batch)
      ensures tables == if ok then Append(old(tables), table, batch) else old(tables)
      ensures stamina == if old(stamina) > 0 then old(stamina) - 1 else 0
    {
      ok := stamina > 0 && !Conflicts(RowsIn(tables, table), batch);
      if stamina > 0 {
        stamina := stamina - 1;
      }
      if ok {
        ConflictsMeaning(RowsIn(tables, table), batch);
        AppendConstraint(tables, table, batch);
        tables := Append(tables, table, batch);
      }
    }

    /**
     * Why a table is not whole: the database gave up, or the next batch conflicts with what is stored or with itself.
     */
    ghost predicate Stuck(server: int, table: Table, rows: seq<Row>, kept: nat)
      reads this
    {
      kept < |rows| && (stamina == 0 || Conflicts(RowsIn(tables, table), Tagged(server, NextBatch(rows, kept))))
    }

    /** Batches go in one by one; the first that fails leaves the batches before it stored. */
    method BatchCreateTableData(server: int, table: Table, rows: seq<Row>)
      returns (error: Option<Error>, ghost kept: nat)
      requires Constraint(tables)
      modifies this
      ensures Constraint(tables)
      ensures kept <= |rows| && (error.None? <==> kept == |rows|) && (error.Some? ==> error.value == InvalidData)
      ensures error.Some? ==> kept % 1000 == 0 && Stuck(server, table, rows, kept)
      ensures tables == Append(old(tables), table, Tagged(server, rows[..kept]))
    {
      var rowObjects := rows;
      kept := 0;
      assert RowsIn(tables, table) + [] == RowsIn(tables, table);
      AppendConstraint(tables, table, []);
      tables := Append(tables, table, []); // An untouched table is an empty one.
      assert Tagged(server, rows[..0]) == [];
      while |rowObjects| > 0
        invariant 0 <= kept <= |rows| && rowObjects == rows[kept..]
        invariant Constraint(tables) && (kept % BATCH_SIZE == 0 || kept == |rows|)
        invariant tables == Append(old(tables), table, Tagged(server, rows[..kept]))
        decreases |rowObjects|
      {
        var size := if |rowObjects| < BATCH_SIZE then |rowObjects| else BATCH_SIZE;
        assert rowObjects[..size] == NextBatch(rows, kept);
        var ok := BulkCreate(table, Tagged(server, rowObjects[..size]));
        if !ok {
          return Some(InvalidData), kept;
        }
        MoreTagged(RowsIn(old(tables), table), server, rows, kept, size);
        kept := kept + size;
        rowObjects := rowObjects[size..];
      }
      error := None;
    }

    method ValidateAll(server: int, q: Request) returns (error: Option<Error>)
      ensures error == ValidationError(known, tables, server, q)
    {
      error := ValidateIncomingTableData(server, RealmCounts, q.realmCounts);
      if error.Some? {
        return;
      }
      error := ValidateIncomingTableData(server, InstallationCounts, q.installationCounts);
      if error.Some? {
        return;
      }
      if q.auditLog.Some? {
        error := ValidateIncomingTableData(server, AuditLog, q.auditLog.value);
      }
    }

    method StoreAll(server: int, q: Request) returns (error: Option<Error>, ghost kept: Kept)
      requires Constraint(tables)
      modifies this
      ensures Constraint(tables)
      ensures InOrder(q, kept) && (error.None? <==> kept == Whole(q)) && (error.Some? ==> error.value == InvalidData)
      ensures error.Some? ==> exists table :: Stuck(server, table, Rows(q, table), KeptOf(kept, table))
      ensures SameTables(tables, Posted(old(tables), server, q, kept))
    {
      ghost var n: nat;
      ghost var t0 := tables;
      error, n := BatchCreateTableData(server, RealmCounts, q.realmCounts);
      kept := Kept(n, 0, 0);
      ghost var t1 := tables;
      assert error.Some? ==> Stuck(server, RealmCounts, Rows(q, RealmCounts), KeptOf(kept, RealmCounts));
      if error.None? {
        error, n := BatchCreateTableData(server, InstallationCounts, q.installationCounts);
        kept := kept.(installationCounts := n);
        assert error.Some? ==>
            Stuck(server, InstallationCounts, Rows(q, InstallationCounts), KeptOf(kept, InstallationCounts));
      }
      ghost var t2 := tables;
      AppendNothing(t1, InstallationCounts);
      assert SameTables(t2,
          Append(t1, InstallationCounts, Tagged(server, q.installationCounts[..kept.installationCounts])));
      if error.None? && q.auditLog.Some? {
        error, n := BatchCreateTableData(server, AuditLog, q.auditLog.value);
        kept := kept.(auditLog := n);
        assert error.Some? ==> Stuck(server, AuditLog, Rows(q, AuditLog), KeptOf(kept, AuditLog));
      }
      AppendNothing(t2, AuditLog);
      assert SameTables(tables, Append(t2, AuditLog, Tagged(server, Rows(q, AuditLog)[..kept.auditLog])));
    }

    /** Validate all three tables, then insert them in order; the first failure ends the request. */
    method RemoteServerPostAnalytics(server: int, q: Request) returns (error: Option<Error>, ghost kept: Kept)
      requires Constraint(tables)
      modifies this
      ensures Constraint(tables) && InOrder(q, kept)
      ensures SameTables(tables, Received(known, old(tables), server, q, kept))
      ensures Acceptable(known, old(tables), server, q) ==> SameTables(tables, Posted(old(tables), server, q, kept))
      ensures !Acceptable(known, old(tables), server, q) ==>
                IsFirstError(known, old(tables), server, q, error) && tables == old(tables)
      ensures error.None? <==> Acceptable(known, old(tables), server, q) && kept == Whole(q)
      ensures Acceptable(known, old(tables), server, q) && error.Some? ==>
                error.value == InvalidData && exists table :: Stuck(server, table, Rows(q, table), KeptOf(kept, table))
    {
      kept := Kept(0, 0, 0);
      NoErrorIsAcceptable(known, tables, server, q);
      error := ValidateAll(server, q);
      if error.Some? {
        FirstErrorAnswers(known, tables, server, q);
      } else {
        ghost var before := tables;
        error, kept := StoreAll(server, q);
        SameConstraint(tables, Posted(before, server, q, kept));
      }
    }
  }

  lemma SameConstraint(a: Tables, b: Tables)
    requires SameTables(a, b) && Constraint(a)
    ensures Constraint(b)
  {
    forall table
      ensures UniqueStored(RowsIn(b, table))
    {
      assert RowsIn(a, table) == RowsIn(b, table);
    }
  }

  /** The rows of the next batch. */
  function NextBatch(rows: seq<Row>, kept: nat): seq<Row>
    requires kept <= |rows|
  {
    rows[kept..][..Min(BATCH_SIZE, |rows| - kept)]
  }

  lemma AppendNothing(tables: Tables, table: Table)
    ensures SameTables(Append(tables, table, []), tables)
  {
  }

  lemma MoreTagged(before: seq<Stored>, server: int, rows: seq<Row>, kept: nat, size: nat)
    requires kept + size <= |rows|
    ensures before + Tagged(server, rows[..kept]) + Tagged(server, rows[kept..][..size])
         == before + Tagged(server, rows[..kept + size])
  {
  }

  ghost predicate SameTables(a: Tables, b: Tables) {
    forall table :: RowsIn(a, table) == RowsIn(b, table)
  }

  // ----- The sending server -----

  const MAX_CLIENT_BATCH_SIZE := 10000

  /** The rows above the acknowledged id, oldest first, up to the limit. */
  function ToSend(rows: seq<Row>, acknowledged: int): seq<Row> {
    var newer := Above(rows, acknowledged);
    newer[..Min(MAX_CLIENT_BATCH_SIZE, |newer|)]
  }

  function Above(rows: seq<Row>, acknowledged: int): seq<Row> {
    if rows == [] then []
    else if rows[0].id > acknowledged then [rows[0]] + Above(rows[1..], acknowledged)
    else Above(rows[1..], acknowledged)
  }

  // ----- Uniqueness of one server's rows -----

  predicate SameColumns(a: Row, b: Row) {
    UniqueColumns(a).Some? && UniqueColumns(a) == UniqueColumns(b)
  }

  predicate UniqueRows(rows: seq<Row>) {
    forall i, j :: 0 <= i < j < |rows| ==> !SameColumns(rows[i], rows[j])
  }

  lemma {:induction false} OfServerMembers(stored: seq<Stored>, server: int, row: Row)
    ensures row in OfServer(stored, server) <==> Stored(server, row) in stored
  {
    if stored != [] {
      OfServerMembers(stored[..|stored| - 1], server, row);
      assert stored == stored[..|stored| - 1] + [stored[|stored| - 1]];
    }
  }

  /** The constraint keeps one server's rows distinct in their columns. */
  lemma {:induction false} StoredRowsAreUnique(stored: seq<Stored>, server: int)
    requires UniqueStored(stored)
    ensures UniqueRows(OfServer(stored, server))
  {
    if stored != [] {
      var n := |stored| - 1;
      var rows := OfServer(stored[..n], server);
      StoredRowsAreUnique(stored[..n], server);
      if stored[n].server == server {
        forall i | 0 <= i < |rows|
          ensures !SameColumns(rows[i], stored[n].row)
        {
          OfServerMembers(stored[..n], server, rows[i]);
          assert rows[i] in rows;
          var j :| 0 <= j < n && stored[..n][j] == Stored(server, rows[i]);
          assert !Conflict(stored[j], stored[n]);
        }
      }
    }
  }

  /** Rows that repeat no columns of the server's stored rows, nor of each other, never conflict. */
  lemma UniqueRowsFit(stored: seq<Stored>, server: int, rows: seq<Row>)
    requires UniqueStored(stored) && UniqueRows(OfServer(stored, server) + rows)
    ensures UniqueStored(stored + Tagged(server, rows))
  {
    var held, n := OfServer(stored, server), |stored|;
    var all := stored + Tagged(server, rows);
    forall i, j | 0 <= i < j < |all|
      ensures !Conflict(all[i], all[j])
    {
      if i >= n {
        assert !SameColumns((held + rows)[|held| + i - n], (held + rows)[|held| + j - n]);
      } else if j >= n && all[i].server == server {
        OfServerMembers(stored, server, all[i].row);
        assert stored[i] in stored;
        var m :| 0 <= m < |held| && held[m] == all[i].row;
        assert !SameColumns((held + rows)[m], (held + rows)[|held| + j - n]);
      }
    }
  }

  /** Then no batch of them conflicts: only a failing database can leave such a post stuck. */
  lemma NeverStuckByConflict(stored: seq<Stored>, server: int, rows: seq<Row>, kept: nat)
    requires UniqueStored(stored) && UniqueRows(OfServer(stored, server) + rows) && kept <= |rows|
    ensures !Conflicts(stored + Tagged(server, rows[..kept]), Tagged(server, NextBatch(rows, kept)))
  {
    var size := |NextBatch(rows, kept)|;
    var held := OfServer(stored, server);
    FrontIsUnique(held, rows, kept);
    FrontIsUnique(held, rows, kept + size);
    UniqueRowsFit(stored, server, rows[..kept]);
    UniqueRowsFit(stored, server, rows[..kept + size]);
    MoreTagged(stored, server, rows, kept, size);
    ConflictsMeaning(stored + Tagged(server, rows[..kept]), Tagged(server, NextBatch(rows, kept)));
  }

  lemma FrontIsUnique(held: seq<Row>, rows: seq<Row>, n: nat)
    requires UniqueRows(held + rows) && n <= |rows|
    ensures UniqueRows(held + rows[..n])
  {
    assert forall i :: 0 <= i < |held| + n ==> (held + rows[..n])[i] == (held + rows)[i];
  }
}
