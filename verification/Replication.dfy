/** Whole histories of one server sending its analytics rows while it goes on filling, undoing and counting. */
module Replication {
  import opened Integers
  import opened Options
  import opened RemoteSync

  /**
   * One sending server's tables, the ids it last saw acknowledged and the request it last built; and the bouncer's
   * tables.
   */
  datatype Sync = Sync(client: map<Table, seq<Row>>, acknowledged: map<Table, int>, outgoing: Request, tables: Tables)

  /**
   * A row of the sender's becomes visible, in any order of the ids; a row is counted up in place; a property is undone
   * at one time. The sender asks for the status, builds a request from what it then has, and delivers the request it
   * has built, at any later time and as often as it likes. A delivery keeps what failures and the constraint let it
   * keep. Other servers post whatever they like.
   */
  datatype Event =
    | Grow(table: Table, row: Row)
    | CountUp(table: Table, id: int, amount: int)
    | Undo(table: Table, property: string, endTime: int)
    | AskStatus
    | Build
    | Deliver(kept: Kept)
    | OtherPost(server: int, request: Request, kept: Kept)

  function ClientRows(s: Sync, table: Table): seq<Row> {
    if table in s.client then s.client[table] else []
  }

  function Acknowledged(s: Sync, table: Table): int {
    if table in s.acknowledged then s.acknowledged[table] else 0
  }

  function RemoteRows(s: Sync, me: int, table: Table): seq<Row> {
    OfServer(RowsIn(s.tables, table), me)
  }

  function Outgoing(s: Sync): Request {
    Request(
      ToSend(ClientRows(s, RealmCounts), Acknowledged(s, RealmCounts)),
      ToSend(ClientRows(s, InstallationCounts), Acknowledged(s, InstallationCounts)),
      Some(ToSend(ClientRows(s, AuditLog), Acknowledged(s, AuditLog))))
  }

  /** A new row under an id the table does not have. */
  predicate Fresh(rows: seq<Row>, row: Row) {
    row.id > 0 && forall i :: 0 <= i < |rows| ==> rows[i].id != row.id
  }

  /** Tables are read in the order of the ids. */
  function Inserted(rows: seq<Row>, row: Row): seq<Row> {
    if rows == [] || row.id < rows[0].id then [row] + rows else [rows[0]] + Inserted(rows[1..], row)
  }

  /** `row.value = F("value") + increment` on the row with the id. */
  function CountRow(row: Row, id: int, amount: int): Row {
    if row.id == id && row.data.Count? then row.(data := row.data.(value := row.data.value + amount)) else row
  }

  function CountedUp(rows: seq<Row>, id: int, amount: int): seq<Row> {
    seq(|rows|, i requires 0 <= i < |rows| => CountRow(rows[i], id, amount))
  }

  predicate IsAt(row: Row, property: string, endTime: int) {
    row.data.Count? && row.data.property == property && row.data.endTime == endTime
  }

  /** `filter(property=..., end_time=...).delete()`. */
  function Undone(rows: seq<Row>, property: string, endTime: int): seq<Row> {
    if rows == [] then []
    else (if IsAt(rows[0], property, endTime) then [] else [rows[0]]) + Undone(rows[1..], property, endTime)
  }

  /** What a step makes of the rows of one of the client's tables. */
  function RowsAfter(rows: seq<Row>, e: Event, table: Table): seq<Row> {
    match e
    case Grow(grown, row) => if grown == table && Fresh(rows, row) then Inserted(rows, row) else rows
    case CountUp(counted, id, amount) => if counted == table then CountedUp(rows, id, amount) else rows
    case Undo(undone, property, t) => if undone == table then Undone(rows, property, t) else rows
    case _ => rows
  }

  function Written(s: Sync, e: Event, table: Table): Sync {
    s.(client := s.client[table := RowsAfter(ClientRows(s, table), e, table)])
  }

  ghost function Next(known: set<string>, me: int, s: Sync, e: Event): Sync {
    match e
    case Grow(table, _) => Written(s, e, table)
    case CountUp(table, _, _) => Written(s, e, table)
    case Undo(table, _, _) => Written(s, e, table)
    case AskStatus =>
      s.(acknowledged := map[
        RealmCounts := LastId(RemoteRows(s, me, RealmCounts)),
        InstallationCounts := LastId(RemoteRows(s, me, InstallationCounts)),
        AuditLog := LastId(RemoteRows(s, me, AuditLog))])
    case Build => s.(outgoing := Outgoing(s))
    case Deliver(kept) => s.(tables := Received(known, s.tables, me, s.outgoing, kept))
    case OtherPost(server, request, kept) =>
      if server != me then s.(tables := Received(known, s.tables, server, request, kept)) else s
  }

  const Nothing := Sync(map[], map[], Request([], [], Some([])), map[])

  ghost function After(known: set<string>, me: int, history: seq<Event>): Sync {
    if history == [] then Nothing
    else Next(known, me, After(known, me, history[..|history| - 1]), history[|history| - 1])
  }

  lemma AfterAppend(known: set<string>, me: int, history: seq<Event>, e: Event)
    ensures After(known, me, history + [e]) == Next(known, me, After(known, me, history), e)
  {
    assert (history + [e])[..|history|] == history;
  }

  // ----- Rows up to their values -----

  /** A row without its value, which counting up may change. */
  function Steady(row: Row): Row {
    if row.data.Count? then row.(data := row.data.(value := 0)) else row
  }

  ghost predicate Alike(a: seq<Row>, b: seq<Row>) {
    |a| == |b| && forall i :: 0 <= i < |a| ==> Steady(a[i]) == Steady(b[i])
  }

  lemma {:induction false} AlikeLastId(a: seq<Row>, b: seq<Row>)
    requires Alike(a, b)
    ensures LastId(a) == LastId(b)
  {
    if |a| > 1 {
      assert Steady(a[|a| - 1]) == Steady(b[|b| - 1]);
      AlikeLastId(a[..|a| - 1], b[..|b| - 1]);
    } else if |a| == 1 {
      assert Steady(a[0]) == Steady(b[0]);
    }
  }

  // ----- What is sent -----

  /** The rows above an id are those from some place on. */
  lemma {:induction false} AboveIsSuffix(rows: seq<Row>, last: int, bound: int) returns (a: nat)
    requires Ascending(rows, last)
    ensures a <= |rows| && Above(rows, bound) == rows[a..]
    ensures forall i :: 0 <= i < |rows| ==> (rows[i].id > bound <==> a <= i)
  {
    if rows == [] {
      a := 0;
    } else {
      assert Ascending(rows[1..], rows[0].id);
      var b := AboveIsSuffix(rows[1..], rows[0].id, bound);
      if rows[0].id > bound {
        assert rows[1..] != [] ==> rows[1..][0].id > bound;
        a := 0;
        assert rows == [rows[0]] + rows[1..];
      } else {
        a := b + 1;
      }
      forall i | 0 < i < |rows|
        ensures rows[i].id > bound <==> a <= i
      {
        assert rows[i] == rows[1..][i - 1];
      }
    }
  }

  /** What a client sends is the stretch of its table that follows the acknowledged prefix. */
  lemma SendsStretch(rows: seq<Row>, m: nat)
    requires Ascending(rows, 0) && m <= |rows|
    ensures ToSend(rows, LastId(rows[..m])) == rows[m..][..Min(10000, |rows| - m)]
  {
    var a := AboveIsSuffix(rows, 0, LastId(rows[..m]));
    if m > 0 {
      assert Ascending(rows[..m], 0);
      LastOfAscending(rows[..m], 0);
      assert a > m - 1;
    }
    if m < |rows| {
      assert rows[m].id > LastId(rows[..m]);
    }
  }

  // ----- What holds of every history -----

  /** The id was the last of some prefix. */
  ghost predicate WasLast(remote: seq<Row>, id: int) {
    exists m: nat :: m <= |remote| && id == LastId(remote[..m])
  }

  lemma StillWasLast(remote: seq<Row>, held: seq<Row>, id: int)
    requires WasLast(remote, id) && remote <= held
    ensures WasLast(held, id)
  {
    var m: nat :| m <= |remote| && id == LastId(remote[..m]);
    assert held[..m] == remote[..m];
  }

  lemma LastWasLast(remote: seq<Row>)
    ensures WasLast(remote, LastId(remote))
  {
    assert remote[..|remote|] == remote;
  }

  /** Ids ascend on both sides, and the acknowledged id is that of some stored prefix. */
  ghost predicate Ordered(s: Sync, me: int, table: Table) {
    var rows, remote := ClientRows(s, table), RemoteRows(s, me, table);
    Ascending(rows, 0) && Ascending(remote, 0) && WasLast(remote, Acknowledged(s, table))
  }

  lemma AscendingAppend(a: seq<Row>, b: seq<Row>, k: nat)
    requires Ascending(a, 0) && Ascending(b, LastId(a)) && k <= |b|
    ensures Ascending(a + b[..k], 0)
    ensures k > 0 ==> LastId(a + b[..k]) == b[k - 1].id
  {
    if a != [] {
      LastOfAscending(a, 0);
    }
    if k > 0 {
      LastOfAscending(a + b[..k], 0);
    }
  }

  /** The new row goes after the smaller ids and before the larger ones. */
  lemma {:induction false} InsertedAt(rows: seq<Row>, last: int, row: Row) returns (j: nat)
    requires Ascending(rows, last) && row.id > last && Fresh(rows, row)
    ensures j <= |rows| && Inserted(rows, row) == rows[..j] + [row] + rows[j..]
    ensures forall i :: 0 <= i < |rows| ==> (rows[i].id < row.id <==> i < j)
  {
    if rows == [] || row.id < rows[0].id {
      j := 0;
      assert rows[..0] + [row] + rows[0..] == [row] + rows;
    } else {
      assert Ascending(rows[1..], rows[0].id);
      var rest := rows[1..];
      var i := InsertedAt(rest, rows[0].id, row);
      j := i + 1;
      assert rows[..j] == [rows[0]] + rest[..i] && rows[j..] == rest[i..];
      forall m | 0 < m < |rows|
        ensures rows[m].id < row.id <==> m < j
      {
        assert rows[m] == rows[1..][m - 1];
      }
    }
  }

  lemma {:induction false} InsertedMembers(rows: seq<Row>, row: Row)
    ensures forall other :: other in Inserted(rows, row) <==> other in rows || other == row
  {
    if rows != [] && row.id >= rows[0].id {
      InsertedMembers(rows[1..], row);
      assert rows == [rows[0]] + rows[1..];
    }
  }

  lemma InsertedAscends(rows: seq<Row>, row: Row)
    requires Ascending(rows, 0) && Fresh(rows, row)
    ensures Ascending(Inserted(rows, row), 0)
  {
    var j := InsertedAt(rows, 0, row);
  }

  lemma {:induction false} UndoneMembers(rows: seq<Row>, property: string, endTime: int)
    ensures forall row :: row in Undone(rows, property, endTime) <==> row in rows && !IsAt(row, property, endTime)
  {
    if rows != [] {
      UndoneMembers(rows[1..], property, endTime);
      assert rows == [rows[0]] + rows[1..];
    }
  }

  lemma AscendingCons(row: Row, rest: seq<Row>, last: int)
    requires last < row.id && Ascending(rest, row.id)
    ensures Ascending([row] + rest, last) && Ascending(rest, last)
  {
    assert forall i :: 0 < i < |rest| ==> rest[0].id < rest[i].id;
  }

  lemma {:induction false} UndoneAscends(rows: seq<Row>, last: int, property: string, endTime: int)
    requires Ascending(rows, last)
    ensures Ascending(Undone(rows, property, endTime), last)
  {
    if rows != [] {
      var rest := Undone(rows[1..], property, endTime);
      assert Ascending(rows[1..], rows[0].id);
      UndoneAscends(rows[1..], rows[0].id, property, endTime);
      AscendingCons(rows[0], rest, last);
    }
  }

  lemma LastIdOfPart(part: seq<Row>, rows: seq<Row>)
    requires forall row :: row in part ==> row in rows
    requires Ascending(rows, 0)
    ensures LastId(part) <= LastId(rows)
  {
    LastIdIsLargest(part);
    LastIdIsLargest(rows);
    if part != [] {
      var i :| 0 <= i < |part| && part[i].id == LastId(part);
      assert part[i] in rows;
    } else if rows != [] {
      assert rows[0].id <= LastId(rows);
    }
  }

  /** What a post adds to the rows of one table: nothing, or some first rows of a list that passed the check. */
  lemma ReceivedRows(known: set<string>, tables: Tables, server: int, q: Request, k: Kept, table: Table, other: int)
    ensures var before, after := OfServer(RowsIn(tables, table), other),
        OfServer(RowsIn(Received(known, tables, server, q, k), table), other);
            || after == before
            || (&& other == server
                && Check(known, Rows(q, table), LastId(before)).None?
                && KeptOf(k, table) <= |Rows(q, table)|
                && after == before + Rows(q, table)[..KeptOf(k, table)])
  {
    if Acceptable(known, tables, server, q) && InOrder(q, k) {
      PostedRows(tables, server, q, k, table, other);
    }
  }

  lemma OutgoingRows(s: Sync, table: Table)
    ensures Rows(Outgoing(s), table) == ToSend(ClientRows(s, table), Acknowledged(s, table))
  {
  }

  /** The only steps that change the bouncer's tables are deliveries and other posts, and they change nothing else. */
  lemma PostsChangeTables(known: set<string>, me: int, s: Sync, e: Event)
    ensures var after := Next(known, me, s, e);
            match e {
              case Deliver(kept) => after == s.(tables := Received(known, s.tables, me, s.outgoing, kept))
              case OtherPost(server, q, kept) =>
                after == s.(tables := if server != me then Received(known, s.tables, server, q, kept) else s.tables)
              case Build => after == s.(outgoing := Outgoing(s))
              case _ => after.tables == s.tables && after.outgoing == s.outgoing
            }
  {
  }

  /** A delivery extends the server's stored rows by some first rows of the request; any other step leaves them. */
  lemma StoredRowsStep(known: set<string>, me: int, s: Sync, e: Event, table: Table) returns (k: nat)
    ensures var remote, after := RemoteRows(s, me, table), RemoteRows(Next(known, me, s, e), me, table);
            var sent := Rows(s.outgoing, table);
            && k <= |sent| && after == remote + sent[..k]
            && (k > 0 ==> e.Deliver? && Check(known, sent, LastId(remote)).None?)
  {
    PostsChangeTables(known, me, s, e);
    k := 0;
    if e.Deliver? {
      ReceivedRows(known, s.tables, me, s.outgoing, e.kept, table, me);
      if RemoteRows(Next(known, me, s, e), me, table) != RemoteRows(s, me, table) {
        k := KeptOf(e.kept, table);
      }
    } else if e.OtherPost? && e.server != me {
      ReceivedRows(known, s.tables, e.server, e.request, e.kept, table, me);
    }
  }

  lemma ClientStep(known: set<string>, me: int, s: Sync, e: Event, table: Table)
    ensures ClientRows(Next(known, me, s, e), table) == RowsAfter(ClientRows(s, table), e, table)
  {
    PostsChangeTables(known, me, s, e);
  }

  lemma OrderedAlike(a: seq<Row>, b: seq<Row>)
    requires Ascending(a, 0) && Alike(a, b)
    ensures Ascending(b, 0) && LastId(b) == LastId(a)
  {
    AlikeLastId(a, b);
    forall i | 0 <= i < |b|
      ensures b[i].id == a[i].id
    {
      assert Steady(a[i]) == Steady(b[i]);
    }
  }

  lemma OrderedAfter(rows: seq<Row>, e: Event, table: Table)
    requires Ascending(rows, 0)
    ensures Ascending(RowsAfter(rows, e, table), 0)
  {
    if e.Grow? && e.table == table && Fresh(rows, e.row) {
      InsertedAscends(rows, e.row);
    } else if e.CountUp? && e.table == table {
      OrderedAlike(rows, CountedUp(rows, e.id, e.amount));
    } else if e.Undo? && e.table == table {
      UndoneAscends(rows, 0, e.property, e.endTime);
    }
  }

  lemma OrderedRemote(known: set<string>, me: int, s: Sync, e: Event, table: Table)
    requires Ascending(RemoteRows(s, me, table), 0)
    ensures var held := RemoteRows(Next(known, me, s, e), me, table);
            RemoteRows(s, me, table) <= held && Ascending(held, 0)
  {
    var remote, sent := RemoteRows(s, me, table), Rows(s.outgoing, table);
    var k := StoredRowsStep(known, me, s, e, table);
    if k > 0 {
      CheckMeaning(known, sent, LastId(remote));
      AscendingAppend(remote, sent, k);
    } else {
      assert remote + sent[..0] == remote;
    }
  }

  lemma AcknowledgedStep(known: set<string>, me: int, s: Sync, e: Event, table: Table)
    ensures Acknowledged(Next(known, me, s, e), table) == if e.AskStatus? then LastId(RemoteRows(s, me, table))
                                                          else Acknowledged(s, table)
    ensures e.AskStatus? ==> RemoteRows(Next(known, me, s, e), me, table) == RemoteRows(s, me, table)
  {
    PostsChangeTables(known, me, s, e);
  }

  lemma OrderedStep(known: set<string>, me: int, s: Sync, e: Event, table: Table)
    requires Ordered(s, me, table)
    ensures Ordered(Next(known, me, s, e), me, table)
  {
    var remote, held := RemoteRows(s, me, table), RemoteRows(Next(known, me, s, e), me, table);
    ClientStep(known, me, s, e, table);
    OrderedAfter(ClientRows(s, table), e, table);
    OrderedRemote(known, me, s, e, table);
    AcknowledgedStep(known, me, s, e, table);
    if e.AskStatus? {
      LastWasLast(remote);
    } else {
      StillWasLast(remote, held, Acknowledged(s, table));
    }
  }

  lemma {:induction false} EveryHistory(known: set<string>, me: int, history: seq<Event>, table: Table)
    ensures Ordered(After(known, me, history), me, table)
  {
    if history == [] {
      LastWasLast([]);
    } else {
      EveryHistory(known, me, history[..|history| - 1], table);
      OrderedStep(known, me, After(known, me, history[..|history| - 1]), history[|history| - 1], table);
    }
  }

  // ----- The two replication properties -----

  /** The list is, up to values, the first part of the rows. */
  ghost predicate IsFrontAlike(list: seq<Row>, rows: seq<Row>) {
    |list| <= |rows| && Alike(list, rows[..|list|])
  }

  /** The bouncer holds the first rows of the client's table. */
  ghost predicate IsPrefix(s: Sync, me: int, table: Table) {
    RemoteRows(s, me, table) <= ClientRows(s, table)
  }

  /** The bouncer holds the first rows of the client's table, up to values counted up since they were sent. */
  ghost predicate IsPrefixUpToValues(s: Sync, me: int, table: Table) {
    IsFrontAlike(RemoteRows(s, me, table), ClientRows(s, table))
  }

  // ----- Ranges of ids -----

  /** The rows with ids above `low` and not above `high`. */
  function Between(rows: seq<Row>, low: int, high: int): seq<Row> {
    if rows == [] then []
    else (if low < rows[0].id <= high then [rows[0]] else []) + Between(rows[1..], low, high)
  }

  /** The rows from `a` on are those with larger ids. */
  predicate IsCut(rows: seq<Row>, id: int, a: int) {
    0 <= a <= |rows| && forall i :: 0 <= i < |rows| ==> (rows[i].id > id <==> a <= i)
  }

  lemma SliceOfTail(rows: seq<Row>, c: nat, d: nat)
    requires c <= d < |rows|
    ensures rows[1..][c..d] == rows[1 + c..1 + d]
  {
    var tail, slice := rows[1..][c..d], rows[1 + c..1 + d];
    assert forall i :: 0 <= i < d - c ==> tail[i] == slice[i];
  }

  lemma HeadSlice(rows: seq<Row>, b: nat)
    requires 0 < b <= |rows|
    ensures rows[0..b] == [rows[0]] + rows[1..][0..b - 1]
  {
    SliceOfTail(rows, 0, b - 1);
    assert rows[0..b] == [rows[0]] + rows[1..b];
  }

  lemma {:induction false} BetweenIs(rows: seq<Row>, low: int, high: int, a: nat, b: nat)
    requires a <= b && IsCut(rows, low, a) && IsCut(rows, high, b)
    ensures Between(rows, low, high) == rows[a..b]
  {
    if rows != [] {
      var c, d := if a == 0 then 0 else a - 1, if b == 0 then 0 else b - 1;
      forall i | 0 <= i < |rows[1..]|
        ensures (rows[1..][i].id > low <==> c <= i) && (rows[1..][i].id > high <==> d <= i)
      {
        assert rows[1..][i] == rows[i + 1];
      }
      BetweenIs(rows[1..], low, high, c, d);
      assert rows[0].id > low <==> a == 0;
      assert rows[0].id > high <==> b == 0;
      if 0 < a {
        SliceOfTail(rows, c, d);
      } else if 0 < b {
        HeadSlice(rows, b);
      }
    }
  }

  lemma CutExists(rows: seq<Row>, id: int) returns (a: nat)
    requires Ascending(rows, 0)
    ensures IsCut(rows, id, a)
  {
    a := AboveIsSuffix(rows, 0, id);
  }

  lemma NothingBetween(rows: seq<Row>, low: int)
    requires Ascending(rows, 0)
    ensures Between(rows, low, low) == []
  {
    var a := CutExists(rows, low);
    BetweenIs(rows, low, low, a, a);
  }

  lemma CutAfter(rows: seq<Row>, b: nat)
    requires Ascending(rows, 0) && 0 < b <= |rows|
    ensures IsCut(rows, rows[b - 1].id, b)
  {
  }

  lemma OneCut(rows: seq<Row>, id: int, a: nat, b: nat)
    requires IsCut(rows, id, a) && IsCut(rows, id, b)
    ensures a == b
  {
    assert a < |rows| ==> rows[a].id > id;
    assert b < |rows| ==> rows[b].id > id;
  }

  lemma CutAfterFront(rows: seq<Row>, n: nat)
    requires Ascending(rows, 0) && n <= |rows|
    ensures IsCut(rows, LastId(rows[..n]), n)
  {
    if n > 0 {
      assert Ascending(rows[..n], 0);
      LastOfAscending(rows[..n], 0);
      CutAfter(rows, n);
    }
  }

  lemma SentIsSlice(rows: seq<Row>, acknowledged: int, m: nat, k: nat)
    requires m <= |rows| && Above(rows, acknowledged) == rows[m..] && k <= |ToSend(rows, acknowledged)|
    ensures m + k <= |rows| && ToSend(rows, acknowledged)[..k] == rows[m..m + k]
  {
    var newer := Above(rows, acknowledged);
    assert ToSend(rows, acknowledged) == newer[..|ToSend(rows, acknowledged)|];
    assert ToSend(rows, acknowledged)[..k] == newer[..k];
    assert rows[m..][..k] == rows[m..m + k];
  }

  lemma SliceIsBetween(rows: seq<Row>, below: int, low: int, m: nat, k: nat)
    requires Ascending(rows, 0) && below <= low && IsCut(rows, below, m) && 0 < k && m + k <= |rows| && low < rows[m].id
    ensures Between(rows, low, rows[m + k - 1].id) == rows[m..m + k]
  {
    CutAfter(rows, m + k);
    BetweenIs(rows, low, rows[m + k - 1].id, m, m + k);
  }

  /** The first rows of a request are those of the table it was built from, up to the last of them. */
  lemma SentIsBetween(rows: seq<Row>, acknowledged: int, low: int, k: nat)
    requires Ascending(rows, 0) && acknowledged <= low
    requires var sent := ToSend(rows, acknowledged); 0 < k <= |sent| && Ascending(sent, low)
    ensures var sent := ToSend(rows, acknowledged); Between(rows, low, sent[k - 1].id) == sent[..k]
  {
    var sent := ToSend(rows, acknowledged);
    var m := AboveIsSuffix(rows, 0, acknowledged);
    SentIsSlice(rows, acknowledged, m, k);
    assert sent[0] == sent[..k][0] == rows[m] && sent[k - 1] == sent[..k][k - 1] == rows[m + k - 1];
    SliceIsBetween(rows, acknowledged, low, m, k);
  }

  /** Where the range of the arriving rows lies in the sender's table. */
  lemma ArrivalRange(rows: seq<Row>, remote: seq<Row>, arriving: seq<Row>) returns (b: nat)
    requires Ascending(rows, 0) && |remote| <= |rows| && LastId(remote) == LastId(rows[..|remote|])
    requires arriving != [] && Ascending(arriving, LastId(remote))
    ensures var n, high := |remote|, arriving[|arriving| - 1].id;
            n <= b && IsCut(rows, high, b) && Between(rows, LastId(remote), high) == rows[n..b]
  {
    var n, high := |remote|, arriving[|arriving| - 1].id;
    CutAfterFront(rows, n);
    assert high >= arriving[0].id > LastId(remote);
    b := CutExists(rows, high);
    assert n > 0 ==> rows[n - 1].id <= high;
    BetweenIs(rows, LastId(remote), high, n, b);
  }

  lemma ExactRange(rows: seq<Row>, arriving: seq<Row>, n: nat, b: nat)
    requires Ascending(rows, 0) && arriving != [] && n <= b && IsCut(rows, arriving[|arriving| - 1].id, b)
    ensures var k := |arriving|;
            (n + k <= |rows| && arriving == rows[n..n + k]) <==> arriving == rows[n..b]
  {
    var k := |arriving|;
    if n + k <= |rows| && arriving == rows[n..n + k] {
      assert arriving[k - 1] == rows[n..n + k][k - 1];
      CutAfter(rows, n + k);
      OneCut(rows, arriving[k - 1].id, b, n + k);
    }
  }

  lemma FrontParts(remote: seq<Row>, arriving: seq<Row>, rows: seq<Row>)
    requires remote <= rows
    ensures var n, k := |remote|, |arriving|;
            remote + arriving <= rows <==> n + k <= |rows| && arriving == rows[n..n + k]
  {
    var n, k := |remote|, |arriving|;
    assert remote == rows[..n];
    if n + k <= |rows| {
      assert rows[..n + k] == remote + rows[n..n + k];
    }
  }

  /** Rows that arrive after a stored prefix continue it exactly when the sender has just them in their range of ids. */
  lemma ArrivalsContinue(rows: seq<Row>, remote: seq<Row>, arriving: seq<Row>)
    requires Ascending(rows, 0) && remote <= rows && arriving != [] && Ascending(arriving, LastId(remote))
    ensures remote + arriving <= rows <==> Between(rows, LastId(remote), arriving[|arriving| - 1].id) == arriving
  {
    assert remote == rows[..|remote|];
    var b := ArrivalRange(rows, remote, arriving);
    FrontParts(remote, arriving, rows);
    ExactRange(rows, arriving, |remote|, b);
  }

  lemma AlikeRange(rows: seq<Row>, arriving: seq<Row>, n: nat, b: nat)
    requires Ascending(rows, 0) && arriving != [] && n <= b && IsCut(rows, arriving[|arriving| - 1].id, b)
    ensures var k := |arriving|;
            (n + k <= |rows| && Alike(arriving, rows[n..n + k])) <==> Alike(arriving, rows[n..b])
  {
    var k := |arriving|;
    if n + k <= |rows| && Alike(arriving, rows[n..n + k]) {
      assert Steady(arriving[k - 1]) == Steady(rows[n..n + k][k - 1]);
      CutAfter(rows, n + k);
      OneCut(rows, arriving[k - 1].id, b, n + k);
    }
  }

  /** The same up to values. */
  lemma ArrivalsContinueAlike(rows: seq<Row>, remote: seq<Row>, arriving: seq<Row>)
    requires Ascending(rows, 0) && IsFrontAlike(remote, rows)
    requires arriving != [] && Ascending(arriving, LastId(remote))
    ensures IsFrontAlike(remote + arriving, rows)
       <==> Alike(arriving, Between(rows, LastId(remote), arriving[|arriving| - 1].id))
  {
    AlikeLastId(remote, rows[..|remote|]);
    var b := ArrivalRange(rows, remote, arriving);
    FrontAlikeParts(remote, arriving, rows);
    AlikeRange(rows, arriving, |remote|, b);
  }

  lemma FrontAlikeParts(remote: seq<Row>, arriving: seq<Row>, rows: seq<Row>)
    requires IsFrontAlike(remote, rows)
    ensures var n, k := |remote|, |arriving|;
            IsFrontAlike(remote + arriving, rows) <==> n + k <= |rows| && Alike(arriving, rows[n..n + k])
  {
    var n, k, all := |remote|, |arriving|, remote + arriving;
    if n + k <= |rows| {
      forall i | 0 <= i < n
        ensures Steady(all[i]) == Steady(rows[..n + k][i])
      {
        assert Steady(remote[i]) == Steady(rows[..n][i]);
      }
      if Alike(all, rows[..n + k]) {
        forall i | 0 <= i < k
          ensures Steady(arriving[i]) == Steady(rows[n..n + k][i])
        {
          assert Steady(all[n + i]) == Steady(rows[..n + k][n + i]);
        }
      } else if Alike(arriving, rows[n..n + k]) {
        forall i | n <= i < n + k
          ensures Steady(all[i]) == Steady(rows[..n + k][i])
        {
          assert Steady(arriving[i - n]) == Steady(rows[n..n + k][i - n]);
        }
        assert false;
      }
    }
  }

  // ----- What breaks a prefix -----

  predicate HasCount(rows: seq<Row>, id: int) {
    exists i :: 0 <= i < |rows| && rows[i].id == id && rows[i].data.Count?
  }

  predicate HasRowAt(rows: seq<Row>, property: string, endTime: int) {
    exists i :: 0 <= i < |rows| && IsAt(rows[i], property, endTime)
  }

  /**
   * What takes a stored row out of the sender's first rows: an undo of a property and time of which a row is stored, or
   * a row that becomes visible under an id not above the last one stored.
   */
  predicate LosesRows(rows: seq<Row>, remote: seq<Row>, e: Event, table: Table) {
    || (e.Undo? && e.table == table && HasRowAt(remote, e.property, e.endTime))
    || (e.Grow? && e.table == table && Fresh(rows, e.row) && e.row.id <= LastId(remote))
  }

  /** That, or a count-up, by some amount, of a row whose id is not above the last one stored. */
  predicate TouchesRows(rows: seq<Row>, remote: seq<Row>, e: Event, table: Table) {
    || (e.CountUp? && e.table == table && e.amount != 0 && e.id <= LastId(remote) && HasCount(rows, e.id))
    || LosesRows(rows, remote, e, table)
  }

  predicate Loses(s: Sync, me: int, e: Event, table: Table) {
    LosesRows(ClientRows(s, table), RemoteRows(s, me, table), e, table)
  }

  predicate Touches(s: Sync, me: int, e: Event, table: Table) {
    TouchesRows(ClientRows(s, table), RemoteRows(s, me, table), e, table)
  }

  lemma CountUpKeepsPrefix(rows: seq<Row>, remote: seq<Row>, id: int, amount: int)
    requires Ascending(rows, 0) && remote <= rows
    ensures remote <= CountedUp(rows, id, amount) <==> !(amount != 0 && id <= LastId(remote) && HasCount(rows, id))
  {
    var n, after := |remote|, CountedUp(rows, id, amount);
    assert remote == rows[..n];
    if n > 0 {
      assert Ascending(remote, 0);
      LastOfAscending(remote, 0);
    }
    if i :| 0 <= i < |rows| && rows[i].id == id && rows[i].data.Count? && amount != 0 {
      if i < n {
        assert remote[i] == rows[i] && after[i] != rows[i];
        assert rows[i].id <= rows[n - 1].id;
      } else {
        assert n > 0 ==> rows[n - 1].id < rows[i].id;
        assert rows[i].id > 0;
        assert forall j :: 0 <= j < n ==> rows[j].id != id;
        assert after[..n] == rows[..n];
      }
    } else {
      assert after == rows;
    }
  }

  lemma {:induction false} UndoneKeepsFront(rows: seq<Row>, n: nat, property: string, endTime: int)
    requires n <= |rows| && forall i :: 0 <= i < n ==> !IsAt(rows[i], property, endTime)
    ensures rows[..n] <= Undone(rows, property, endTime)
  {
    if n > 0 {
      assert forall i :: 0 <= i < n - 1 ==> rows[1..][i] == rows[i + 1];
      UndoneKeepsFront(rows[1..], n - 1, property, endTime);
      assert rows[..n] == [rows[0]] + rows[1..][..n - 1];
    }
  }

  /** A deleted row leaves no row with its id. */
  lemma DeletedIdIsGone(rows: seq<Row>, i: nat, property: string, endTime: int, j: nat)
    requires Ascending(rows, 0) && i < |rows| && IsAt(rows[i], property, endTime) &&
        j < |Undone(rows, property, endTime)|
    ensures Undone(rows, property, endTime)[j].id != rows[i].id
  {
    var after := Undone(rows, property, endTime);
    UndoneMembers(rows, property, endTime);
    assert after[j] in after;
    var m :| 0 <= m < |rows| && rows[m] == after[j];
    assert m != i;
  }

  lemma UndoKeepsPrefix(rows: seq<Row>, remote: seq<Row>, property: string, endTime: int)
    requires Ascending(rows, 0) && |remote| <= |rows| && Alike(remote, rows[..|remote|])
    ensures var after := Undone(rows, property, endTime);
            && (|remote| <= |after| && Alike(remote, after[..|remote|]) <==> !HasRowAt(remote, property, endTime))
            && (!HasRowAt(remote, property, endTime) ==> |remote| <= |after| && after[..|remote|] == rows[..|remote|])
  {
    var n, after := |remote|, Undone(rows, property, endTime);
    forall i | 0 <= i < n
      ensures remote[i].id == rows[i].id && (IsAt(remote[i], property, endTime) <==> IsAt(rows[i], property, endTime))
    {
      assert Steady(remote[i]) == Steady(rows[..n][i]);
    }
    if i :| 0 <= i < n && IsAt(remote[i], property, endTime) {
      if n <= |after| {
        DeletedIdIsGone(rows, i, property, endTime, i);
        assert Steady(remote[i]) != Steady(after[..n][i]);
      }
    } else {
      assert !HasRowAt(remote, property, endTime);
      UndoneKeepsFront(rows, n, property, endTime);
    }
  }

  lemma UndoKeepsExactPrefix(rows: seq<Row>, remote: seq<Row>, property: string, endTime: int)
    requires Ascending(rows, 0) && remote <= rows
    ensures remote <= Undone(rows, property, endTime) <==> !HasRowAt(remote, property, endTime)
  {
    var after := Undone(rows, property, endTime);
    assert remote == rows[..|remote|] && Alike(remote, rows[..|remote|]);
    UndoKeepsPrefix(rows, remote, property, endTime);
    if remote <= after {
      assert remote == after[..|remote|] && Alike(remote, after[..|remote|]);
    }
  }

  lemma FrontBelow(rows: seq<Row>, n: nat, row: Row, j: nat)
    requires Ascending(rows, 0) && n <= |rows| && j <= |rows| && row.id > 0 && Fresh(rows, row)
    requires forall i :: 0 <= i < |rows| ==> (rows[i].id < row.id <==> i < j)
    ensures n <= j <==> row.id > LastId(rows[..n])
  {
    if n > 0 {
      assert Ascending(rows[..n], 0);
      LastOfAscending(rows[..n], 0);
      assert LastId(rows[..n]) == rows[n - 1].id;
    }
  }

  lemma InsertKeepsPrefix(rows: seq<Row>, remote: seq<Row>, row: Row)
    requires Ascending(rows, 0) && IsFrontAlike(remote, rows) && Fresh(rows, row)
    ensures var after := Inserted(rows, row);
            && (IsFrontAlike(remote, after) <==> row.id > LastId(remote))
            && (row.id > LastId(remote) ==> |remote| <= |after| && after[..|remote|] == rows[..|remote|])
  {
    var n, after := |remote|, Inserted(rows, row);
    var j := InsertedAt(rows, 0, row);
    AlikeLastId(remote, rows[..n]);
    FrontBelow(rows, n, row, j);
    if j < n {
      assert Steady(remote[j]) == Steady(rows[..n][j]);
      assert after[..n][j] == row && rows[j].id != row.id;
      assert Steady(remote[j]) != Steady(after[..n][j]);
    } else {
      assert after[..n] == rows[..n];
    }
  }

  lemma RowsKeepPrefix(rows: seq<Row>, remote: seq<Row>, e: Event, table: Table)
    requires Ascending(rows, 0) && remote <= rows
    ensures remote <= RowsAfter(rows, e, table) <==> !TouchesRows(rows, remote, e, table)
  {
    if e.CountUp? && e.table == table {
      CountUpKeepsPrefix(rows, remote, e.id, e.amount);
    } else if e.Undo? && e.table == table {
      UndoKeepsExactPrefix(rows, remote, e.property, e.endTime);
    } else if e.Grow? && e.table == table && Fresh(rows, e.row) {
      assert remote == rows[..|remote|] && Alike(remote, rows[..|remote|]);
      InsertKeepsPrefix(rows, remote, e.row);
      if remote <= Inserted(rows, e.row) {
        assert remote == Inserted(rows, e.row)[..|remote|];
      }
    }
  }

  lemma RowsKeepPrefixUpToValues(rows: seq<Row>, remote: seq<Row>, e: Event, table: Table)
    requires Ascending(rows, 0) && IsFrontAlike(remote, rows)
    ensures IsFrontAlike(remote, RowsAfter(rows, e, table)) <==> !LosesRows(rows, remote, e, table)
  {
    if e.Undo? && e.table == table {
      UndoKeepsPrefix(rows, remote, e.property, e.endTime);
    } else if e.Grow? && e.table == table && Fresh(rows, e.row) {
      InsertKeepsPrefix(rows, remote, e.row);
    } else {
      var after := RowsAfter(rows, e, table);
      forall i | 0 <= i < |remote|
        ensures Steady(remote[i]) == Steady(after[i])
      {
        assert Steady(remote[i]) == Steady(rows[..|remote|][i]);
      }
    }
  }

  /** What is stored changes only when a request is delivered. */
  lemma StoredStays(known: set<string>, me: int, s: Sync, e: Event, table: Table)
    requires !e.Deliver?
    ensures RemoteRows(Next(known, me, s, e), me, table) == RemoteRows(s, me, table)
  {
    var k := StoredRowsStep(known, me, s, e, table);
  }

  /**
   * A step of the sender keeps the bouncer's rows a prefix of its own exactly when it neither counts up, by some
   * amount, a row whose id is not above the last id stored, nor undoes a property and time of which a row is stored,
   * nor makes a row visible under an id not above the last id stored.
   */
  lemma StepKeepsPrefix(known: set<string>, me: int, s: Sync, e: Event, table: Table)
    requires Ordered(s, me, table) && IsPrefix(s, me, table) && !e.Deliver?
    ensures IsPrefix(Next(known, me, s, e), me, table) <==> !Touches(s, me, e, table)
  {
    StoredStays(known, me, s, e, table);
    ClientStep(known, me, s, e, table);
    WritesKeepPrefix(s, me, e, Next(known, me, s, e), table);
  }

  /** `next` is the state after a step that stores nothing. */
  ghost predicate Writes(s: Sync, me: int, e: Event, next: Sync, table: Table) {
    && RemoteRows(next, me, table) == RemoteRows(s, me, table)
    && ClientRows(next, table) == RowsAfter(ClientRows(s, table), e, table)
  }

  lemma WritesKeepPrefix(s: Sync, me: int, e: Event, next: Sync, table: Table)
    requires Ordered(s, me, table) && Writes(s, me, e, next, table) && IsPrefix(s, me, table)
    ensures IsPrefix(next, me, table) <==> !Touches(s, me, e, table)
  {
    RowsKeepPrefix(ClientRows(s, table), RemoteRows(s, me, table), e, table);
  }

  lemma WritesKeepPrefixUpToValues(s: Sync, me: int, e: Event, next: Sync, table: Table)
    requires Ordered(s, me, table) && Writes(s, me, e, next, table) && IsPrefixUpToValues(s, me, table)
    ensures IsPrefixUpToValues(next, me, table) <==> !Loses(s, me, e, table)
  {
    RowsKeepPrefixUpToValues(ClientRows(s, table), RemoteRows(s, me, table), e, table);
  }

  /** Up to values, a count-up does no harm. */
  lemma StepKeepsPrefixUpToValues(known: set<string>, me: int, s: Sync, e: Event, table: Table)
    requires Ordered(s, me, table) && IsPrefixUpToValues(s, me, table) && !e.Deliver?
    ensures IsPrefixUpToValues(Next(known, me, s, e), me, table) <==> !Loses(s, me, e, table)
  {
    StoredStays(known, me, s, e, table);
    ClientStep(known, me, s, e, table);
    WritesKeepPrefixUpToValues(s, me, e, Next(known, me, s, e), table);
  }

  // ----- Between building a request and delivering it -----

  /** The moment at which the request in hand was built. */
  function BuiltAt(history: seq<Event>): (n: nat)
    ensures n <= |history|
  {
    if history == [] then 0
    else if history[|history| - 1].Build? then |history| - 1
    else BuiltAt(history[..|history| - 1])
  }

  lemma {:induction false} BuiltRequest(known: set<string>, me: int, history: seq<Event>)
    ensures After(known, me, history).outgoing == Outgoing(After(known, me, history[..BuiltAt(history)]))
  {
    if history == [] {
      assert history[..BuiltAt(history)] == [];
    } else {
      var front := history[..|history| - 1];
      BuiltRequest(known, me, front);
      PostsChangeTables(known, me, After(known, me, front), history[|history| - 1]);
      assert history[..BuiltAt(front)] == front[..BuiltAt(front)];
    }
  }

  /** The ids a delivery stores: those above the first result, up to the second. */
  ghost function Arriving(known: set<string>, me: int, s: Sync, kept: Kept, table: Table): (int, int) {
    (LastId(RemoteRows(s, me, table)), LastId(RemoteRows(Next(known, me, s, Deliver(kept)), me, table)))
  }

  /** Where the delivery stores rows, the sender's table is what it was when the request was built. */
  ghost predicate DeliversCurrent(known: set<string>, me: int, history: seq<Event>, kept: Kept, table: Table) {
    var s, built := After(known, me, history), After(known, me, history[..BuiltAt(history)]);
    var (low, high) := Arriving(known, me, s, kept, table);
    Between(ClientRows(built, table), low, high) == Between(ClientRows(s, table), low, high)
  }

  ghost predicate DeliversCurrentUpToValues(known: set<string>, me: int, history: seq<Event>, kept: Kept,
                                            table: Table) {
    var s, built := After(known, me, history), After(known, me, history[..BuiltAt(history)]);
    var (low, high) := Arriving(known, me, s, kept, table);
    Alike(Between(ClientRows(built, table), low, high), Between(ClientRows(s, table), low, high))
  }

  /** What is stored is only ever added to. */
  lemma {:induction false} StoredForGood(known: set<string>, me: int, history: seq<Event>, more: seq<Event>,
                                         table: Table)
    ensures RemoteRows(After(known, me, history), me, table) <= RemoteRows(After(known, me, history + more), me, table)
  {
    if more == [] {
      assert history + more == history;
    } else {
      var front, e := more[..|more| - 1], more[|more| - 1];
      var s := After(known, me, history + front);
      StoredForGood(known, me, history, front, table);
      assert history + more == history + front + [e];
      AfterAppend(known, me, history + front, e);
      var k := StoredRowsStep(known, me, s, e, table);
    }
  }

  /** The id acknowledged when the request was built is not above the last one stored now. */
  lemma BuiltOnStored(known: set<string>, me: int, history: seq<Event>, n: nat, table: Table)
    requires n <= |history|
    ensures var before, now := After(known, me, history[..n]), After(known, me, history);
            Acknowledged(before, table) <= LastId(RemoteRows(now, me, table))
  {
    var front := history[..n];
    EveryHistory(known, me, front, table);
    EveryHistory(known, me, history, table);
    StoredSince(known, me, front, history, table);
    WasLastIsBelow(RemoteRows(After(known, me, front), me, table), RemoteRows(After(known, me, history), me, table),
      Acknowledged(After(known, me, front), table));
  }

  lemma StoredSince(known: set<string>, me: int, front: seq<Event>, history: seq<Event>, table: Table)
    requires front <= history
    ensures RemoteRows(After(known, me, front), me, table) <= RemoteRows(After(known, me, history), me, table)
  {
    assert history == front + history[|front|..];
    StoredForGood(known, me, front, history[|front|..], table);
  }

  lemma WasLastIsBelow(remote: seq<Row>, held: seq<Row>, id: int)
    requires WasLast(remote, id) && remote <= held && Ascending(held, 0)
    ensures id <= LastId(held)
  {
    var m: nat :| m <= |remote| && id == LastId(remote[..m]);
    assert remote[..m] == held[..m];
    LastIdOfPart(held[..m], held);
  }

  lemma FrontOfRequest(built: Sync, stored: seq<Row>, table: Table, k: nat)
    requires Ascending(ClientRows(built, table), 0) && Acknowledged(built, table) <= LastId(stored)
    requires var sent := Rows(Outgoing(built), table); 0 < k <= |sent| && Ascending(sent, LastId(stored))
    ensures var sent := Rows(Outgoing(built), table);
            Between(ClientRows(built, table), LastId(stored), sent[k - 1].id) == sent[..k]
  {
    OutgoingRows(built, table);
    SentIsBetween(ClientRows(built, table), Acknowledged(built, table), LastId(stored), k);
  }

  /** The rows a delivery stores. */
  ghost predicate Arrives(s: Sync, next: Sync, me: int, table: Table, arriving: seq<Row>) {
    && RemoteRows(next, me, table) == RemoteRows(s, me, table) + arriving
    && Ascending(arriving, LastId(RemoteRows(s, me, table)))
    && LastId(RemoteRows(next, me, table))
         == if arriving == [] then LastId(RemoteRows(s, me, table)) else arriving[|arriving| - 1].id
  }

  lemma DeliveryArrives(known: set<string>, me: int, s: Sync, kept: Kept, table: Table) returns (k: nat)
    requires Ascending(RemoteRows(s, me, table), 0)
    ensures k <= |Rows(s.outgoing, table)|
    ensures Arrives(s, Next(known, me, s, Deliver(kept)), me, table, Rows(s.outgoing, table)[..k])
    ensures k > 0 ==> Ascending(Rows(s.outgoing, table), LastId(RemoteRows(s, me, table)))
  {
    var remote, sent := RemoteRows(s, me, table), Rows(s.outgoing, table);
    k := StoredRowsStep(known, me, s, Deliver(kept), table);
    if k > 0 {
      CheckMeaning(known, sent, LastId(remote));
      AscendingAppend(remote, sent, k);
    } else {
      assert remote + sent[..0] == remote;
    }
  }

  /** They are what the sender had, in their range of ids, when the request was built. */
  lemma ArrivalsWereBuilt(known: set<string>, me: int, history: seq<Event>, kept: Kept, table: Table)
    returns (arriving: seq<Row>)
    ensures var s := After(known, me, history);
            var (low, high) := Arriving(known, me, s, kept, table);
            && Arrives(s, Next(known, me, s, Deliver(kept)), me, table, arriving)
            && arriving == Between(ClientRows(After(known, me, history[..BuiltAt(history)]), table), low, high)
  {
    var s, built := After(known, me, history), After(known, me, history[..BuiltAt(history)]);
    EveryHistory(known, me, history, table);
    EveryHistory(known, me, history[..BuiltAt(history)], table);
    BuiltRequest(known, me, history);
    var k := DeliveryArrives(known, me, s, kept, table);
    arriving := Rows(s.outgoing, table)[..k];
    if k > 0 {
      BuiltOnStored(known, me, history, BuiltAt(history), table);
      FrontOfRequest(built, RemoteRows(s, me, table), table, k);
    } else {
      NothingBetween(ClientRows(built, table), LastId(RemoteRows(s, me, table)));
    }
  }

  /**
   * A delivery keeps the prefix exactly when the sender's table has not changed, in the range of ids that the delivery
   * stores, since the request was built.
   */
  lemma DeliveryKeepsPrefix(known: set<string>, me: int, history: seq<Event>, kept: Kept, table: Table)
    requires IsPrefix(After(known, me, history), me, table)
    ensures IsPrefix(After(known, me, history + [Deliver(kept)]), me, table)
       <==> DeliversCurrent(known, me, history, kept, table)
  {
    var s := After(known, me, history);
    AfterAppend(known, me, history, Deliver(kept));
    ClientStep(known, me, s, Deliver(kept), table);
    EveryHistory(known, me, history, table);
    var arriving := ArrivalsWereBuilt(known, me, history, kept, table);
    if arriving == [] {
      assert RemoteRows(s, me, table) + arriving == RemoteRows(s, me, table);
      NothingBetween(ClientRows(s, table), LastId(RemoteRows(s, me, table)));
    } else {
      ArrivalsContinue(ClientRows(s, table), RemoteRows(s, me, table), arriving);
    }
  }

  lemma DeliveryKeepsPrefixUpToValues(known: set<string>, me: int, history: seq<Event>, kept: Kept, table: Table)
    requires IsPrefixUpToValues(After(known, me, history), me, table)
    ensures IsPrefixUpToValues(After(known, me, history + [Deliver(kept)]), me, table)
       <==> DeliversCurrentUpToValues(known, me, history, kept, table)
  {
    var s := After(known, me, history);
    AfterAppend(known, me, history, Deliver(kept));
    ClientStep(known, me, s, Deliver(kept), table);
    EveryHistory(known, me, history, table);
    var arriving := ArrivalsWereBuilt(known, me, history, kept, table);
    if arriving == [] {
      assert RemoteRows(s, me, table) + arriving == RemoteRows(s, me, table);
      NothingBetween(ClientRows(s, table), LastId(RemoteRows(s, me, table)));
    } else {
      ArrivalsContinueAlike(ClientRows(s, table), RemoteRows(s, me, table), arriving);
    }
  }

  /** The step neither touches what is stored nor stores what has changed since it was built. */
  ghost predicate Harmless(known: set<string>, me: int, history: seq<Event>, e: Event, table: Table) {
    if e.Deliver? then DeliversCurrent(known, me, history, e.kept, table)
    else !Touches(After(known, me, history), me, e, table)
  }

  ghost predicate HarmlessUpToValues(known: set<string>, me: int, history: seq<Event>, e: Event, table: Table) {
    if e.Deliver? then DeliversCurrentUpToValues(known, me, history, e.kept, table)
    else !Loses(After(known, me, history), me, e, table)
  }

  ghost predicate AllHarmless(known: set<string>, me: int, history: seq<Event>, table: Table) {
    history == [] ||
    var front := history[..|history| - 1];
    AllHarmless(known, me, front, table) && Harmless(known, me, front, history[|history| - 1], table)
  }

  ghost predicate AllHarmlessUpToValues(known: set<string>, me: int, history: seq<Event>, table: Table) {
    history == [] ||
    var front := history[..|history| - 1];
    AllHarmlessUpToValues(known, me, front, table) &&
        HarmlessUpToValues(known, me, front, history[|history| - 1], table)
  }

  /** The property holds now and held at every moment before. */
  ghost predicate AlwaysPrefix(known: set<string>, me: int, history: seq<Event>, table: Table) {
    && IsPrefix(After(known, me, history), me, table)
    && (history == [] || AlwaysPrefix(known, me, history[..|history| - 1], table))
  }

  ghost predicate AlwaysPrefixUpToValues(known: set<string>, me: int, history: seq<Event>, table: Table) {
    && IsPrefixUpToValues(After(known, me, history), me, table)
    && (history == [] || AlwaysPrefixUpToValues(known, me, history[..|history| - 1], table))
  }

  lemma HarmlessKeepsPrefix(known: set<string>, me: int, front: seq<Event>, e: Event, table: Table)
    requires IsPrefix(After(known, me, front), me, table)
    ensures IsPrefix(After(known, me, front + [e]), me, table) <==> Harmless(known, me, front, e, table)
  {
    if e.Deliver? {
      DeliveryKeepsPrefix(known, me, front, e.kept, table);
    } else {
      AfterAppend(known, me, front, e);
      EveryHistory(known, me, front, table);
      StepKeepsPrefix(known, me, After(known, me, front), e, table);
    }
  }

  lemma HarmlessKeepsPrefixUpToValues(known: set<string>, me: int, front: seq<Event>, e: Event, table: Table)
    requires IsPrefixUpToValues(After(known, me, front), me, table)
    ensures IsPrefixUpToValues(After(known, me, front + [e]), me, table)
       <==> HarmlessUpToValues(known, me, front, e, table)
  {
    if e.Deliver? {
      DeliveryKeepsPrefixUpToValues(known, me, front, e.kept, table);
    } else {
      AfterAppend(known, me, front, e);
      EveryHistory(known, me, front, table);
      StepKeepsPrefixUpToValues(known, me, After(known, me, front), e, table);
    }
  }

  /**
   * Exactly-once replication. Through growth in any order, status requests, late, repeated and partly failed deliveries
   * and posts of other servers, each stored table is at every moment a prefix of the sender's exactly when no step of
   * the sender touches what is already stored, and no delivery stores rows that changed since their request was built.
   */
  lemma {:induction false} ExactlyOnce(known: set<string>, me: int, history: seq<Event>, table: Table)
    ensures AlwaysPrefix(known, me, history, table) <==> AllHarmless(known, me, history, table)
  {
    if history != [] {
      var front, e := history[..|history| - 1], history[|history| - 1];
      assert front + [e] == history;
      ExactlyOnce(known, me, front, table);
      if AlwaysPrefix(known, me, front, table) {
        HarmlessKeepsPrefix(known, me, front, e, table);
      }
    }
  }

  /** Up to values counted up since, count-ups do no harm, neither of stored rows nor of rows under way. */
  lemma {:induction false} ExactlyOnceUpToValues(known: set<string>, me: int, history: seq<Event>, table: Table)
    ensures AlwaysPrefixUpToValues(known, me, history, table) <==> AllHarmlessUpToValues(known, me, history, table)
  {
    if history != [] {
      var front, e := history[..|history| - 1], history[|history| - 1];
      assert front + [e] == history;
      ExactlyOnceUpToValues(known, me, front, table);
      if AlwaysPrefixUpToValues(known, me, front, table) {
        HarmlessKeepsPrefixUpToValues(known, me, front, e, table);
      }
    }
  }
}
