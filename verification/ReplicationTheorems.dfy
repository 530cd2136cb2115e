/** What follows for the bouncer: what never arrives, what blocks a table, and what a current post brings. */
module ReplicationTheorems {
  import opened Integers
  import opened Options
  import opened RemoteSync
  import opened Replication

  // ----- Whatever the sender does -----

  /** Whatever a server posts, its stored ids stay strictly ascending. */
  lemma AnyPostAscends(known: set<string>, tables: Tables, server: int, q: Request, k: Kept, table: Table, other: int)
    requires Ascending(OfServer(RowsIn(tables, table), other), 0)
    ensures Ascending(OfServer(RowsIn(Received(known, tables, server, q, k), table), other), 0)
  {
    ReceivedRows(known, tables, server, q, k, table, other);
    var held := OfServer(RowsIn(tables, table), other);
    if OfServer(RowsIn(Received(known, tables, server, q, k), table), other) != held {
      CheckMeaning(known, Rows(q, table), LastId(held));
      AscendingAppend(held, Rows(q, table), KeptOf(k, table));
    }
  }

  lemma StepAscends(known: set<string>, me: int, s: Sync, e: Event, after: Tables, table: Table, other: int)
    requires Ascending(OfServer(RowsIn(s.tables, table), other), 0) && after == Next(known, me, s, e).tables
    ensures Ascending(OfServer(RowsIn(after, table), other), 0)
  {
    PostsChangeTables(known, me, s, e);
    if e.Deliver? {
      AnyPostAscends(known, s.tables, me, s.outgoing, e.kept, table, other);
    } else if e.OtherPost? {
      AnyPostAscends(known, s.tables, e.server, e.request, e.kept, table, other);
    }
  }

  /** Whatever becomes of the sender's tables, no remote id is ever stored twice or out of order, for any server. */
  lemma {:induction false} IdsAscend(known: set<string>, me: int, history: seq<Event>, table: Table, other: int)
    ensures Ascending(OfServer(RowsIn(After(known, me, history).tables, table), other), 0)
  {
    if history != [] {
      var n := |history| - 1;
      IdsAscend(known, me, history[..n], table, other);
      StepAscends(known, me, After(known, me, history[..n]), history[n], After(known, me, history).tables, table,
                  other);
    }
  }

  /** A count-up of a stored row never reaches the bouncer: the stored value stays what it was when the row was sent. */
  lemma CountUpNeverArrives(known: set<string>, me: int, history: seq<Event>, table: Table, id: int, amount: int,
                            more: seq<Event>, i: nat)
    requires i < |RemoteRows(After(known, me, history), me, table)|
    ensures var held := RemoteRows(After(known, me, history + [CountUp(table, id, amount)] + more), me, table);
            i < |held| && held[i] == RemoteRows(After(known, me, history), me, table)[i]
  {
    StoredForGood(known, me, history, [CountUp(table, id, amount)] + more, table);
    assert history + [CountUp(table, id, amount)] + more == history + ([CountUp(table, id, amount)] + more);
  }

  /** A row that becomes visible under an id not above the last one stored never arrives. */
  lemma LateRowNeverArrives(known: set<string>, me: int, history: seq<Event>, table: Table, row: Row, more: seq<Event>)
    requires row.id <= LastId(RemoteRows(After(known, me, history), me, table))
    requires row !in RemoteRows(After(known, me, history), me, table)
    ensures row !in RemoteRows(After(known, me, history + [Grow(table, row)] + more), me, table)
  {
    var before := RemoteRows(After(known, me, history), me, table);
    var after := RemoteRows(After(known, me, history + ([Grow(table, row)] + more)), me, table);
    StoredForGood(known, me, history, [Grow(table, row)] + more, table);
    assert history + [Grow(table, row)] + more == history + ([Grow(table, row)] + more);
    EveryHistory(known, me, history + ([Grow(table, row)] + more), table);
    assert after[..|before|] == before;
    CutAfterFront(after, |before|);
    forall i | 0 <= i < |after|
      ensures after[i] != row
    {
      assert i < |before| ==> after[i] == before[i];
    }
  }

  // ----- Some histories -----

  function InvitesSent(value: int): Row {
    Row(1, Count(7, "invites_sent::day", None, 86400, value))
  }

  function OneRow(row: Row): Request {
    Request([row], [], Some([]))
  }

  lemma RowIsStored(known: set<string>, s: Sync, row: Row)
    requires KnownProperty(known, row) && row.id > 0 && s.tables == map[] && s.outgoing == OneRow(row)
    ensures var after := Next(known, 5, s, Deliver(Kept(1, 0, 0)));
            && after == s.(tables := after.tables) && RemoteRows(after, 5, RealmCounts) == [row]
            && RemoteRows(after, 5, InstallationCounts) == [] && RemoteRows(after, 5, AuditLog) == []
  {
    var q, k := s.outgoing, Kept(1, 0, 0);
    assert [row][1..] == [] && Check(known, [row], 0).None?;
    assert ValidationError(known, s.tables, 5, q).None?;
    NoErrorIsAcceptable(known, s.tables, 5, q);
    var posted := Posted(s.tables, 5, q, k);
    assert q.realmCounts[..1] == [row] && Tagged(5, [row]) == [Stored(5, row)];
    assert RowsIn(posted, RealmCounts) == [Stored(5, row)];
    assert RowsIn(posted, InstallationCounts) == [] && RowsIn(posted, AuditLog) == [];
    forall table
      ensures UniqueStored(RowsIn(posted, table))
    {
      match table
      case RealmCounts =>
      case InstallationCounts =>
      case AuditLog =>
    }
    assert Acceptable(known, s.tables, 5, q) && InOrder(q, k) && Constraint(posted);
    PostedRows(s.tables, 5, q, k, RealmCounts, 5);
    PostedRows(s.tables, 5, q, k, InstallationCounts, 5);
    PostedRows(s.tables, 5, q, k, AuditLog, 5);
  }

  lemma SendOne(row: Row, acknowledged: int)
    ensures ToSend([row], acknowledged) == if row.id > acknowledged then [row] else []
    ensures ToSend([], acknowledged) == []
  {
    assert [row][1..] == [] && Above([row], acknowledged) == if row.id > acknowledged then [row] else [];
  }

  /** The sender has the one row, asks for the status and builds a request. */
  lemma OneRowBuilt(known: set<string>, s: Sync, row: Row)
    requires ClientRows(s, RealmCounts) == [row] && ClientRows(s, InstallationCounts) == [] &&
        ClientRows(s, AuditLog) == []
    ensures var last := LastId(RemoteRows(s, 5, RealmCounts));
            var built := Next(known, 5, Next(known, 5, s, AskStatus), Build);
            && built.outgoing == Request(if row.id > last then [row] else [], [], Some([]))
            && built.client == s.client && built.tables == s.tables
  {
    SendOne(row, LastId(RemoteRows(s, 5, RealmCounts)));
    SendOne(row, LastId(RemoteRows(s, 5, InstallationCounts)));
    SendOne(row, LastId(RemoteRows(s, 5, AuditLog)));
  }

  function RowBuilt(row: Row): seq<Event> {
    [] + [Grow(RealmCounts, row)] + [AskStatus] + [Build]
  }

  lemma AfterRowGrown(known: set<string>, row: Row)
    requires row.id > 0
    ensures After(known, 5, [] + [Grow(RealmCounts, row)]) == Nothing.(client := map[RealmCounts := [row]])
  {
    AfterAppend(known, 5, [], Grow(RealmCounts, row));
    assert Inserted([], row) == [row] && Fresh([], row);
  }

  lemma AfterRowBuilt(known: set<string>, row: Row)
    requires row.id > 0
    ensures var s := After(known, 5, RowBuilt(row));
            s.client == map[RealmCounts := [row]] && s.outgoing == OneRow(row) && s.tables == map[]
  {
    var grown: seq<Event> := [] + [Grow(RealmCounts, row)];
    AfterRowGrown(known, row);
    AfterAppend(known, 5, grown, AskStatus);
    AfterAppend(known, 5, grown + [AskStatus], Build);
    OneRowBuilt(known, After(known, 5, grown), row);
  }

  function RowSent(row: Row): seq<Event> {
    RowBuilt(row) + [Deliver(Kept(1, 0, 0))]
  }

  lemma AfterRowSent(known: set<string>, row: Row)
    requires KnownProperty(known, row) && row.id > 0
    ensures var s := After(known, 5, RowSent(row));
            && s.client == map[RealmCounts := [row]] && RemoteRows(s, 5, RealmCounts) == [row]
            && RemoteRows(s, 5, InstallationCounts) == [] && RemoteRows(s, 5, AuditLog) == []
  {
    AfterRowBuilt(known, row);
    AfterAppend(known, 5, RowBuilt(row), Deliver(Kept(1, 0, 0)));
    RowIsStored(known, After(known, 5, RowBuilt(row)), row);
  }

  /**
   * The everyday case: one invitation is counted and sent, a second one is counted, and the next request has nothing to
   * send.
   */
  lemma InvitationsAfterSending(known: set<string>)
    requires "invites_sent::day" in known
    ensures var s := After(known, 5, RowSent(InvitesSent(1)) + [CountUp(RealmCounts, 1, 1)] + [AskStatus] + [Build]);
            && RemoteRows(s, 5, RealmCounts) == [InvitesSent(1)] && ClientRows(s, RealmCounts) == [InvitesSent(2)]
            && s.outgoing == Request([], [], Some([])) && !IsPrefix(s, 5, RealmCounts)
  {
    var sent := RowSent(InvitesSent(1));
    var counted := sent + [CountUp(RealmCounts, 1, 1)];
    AfterRowSent(known, InvitesSent(1));
    AfterAppend(known, 5, sent, CountUp(RealmCounts, 1, 1));
    assert ClientRows(After(known, 5, counted), RealmCounts) == [InvitesSent(2)];
    AfterAppend(known, 5, counted, AskStatus);
    AfterAppend(known, 5, counted + [AskStatus], Build);
    OneRowBuilt(known, After(known, 5, counted), InvitesSent(2));
  }

  /**
   * The second invitation may also be counted while the request is under way: no stored row is touched, and yet it is
   * lost.
   */
  lemma InvitationWhileSending(known: set<string>)
    requires "invites_sent::day" in known
    ensures var built := RowBuilt(InvitesSent(1));
            var counted := built + [CountUp(RealmCounts, 1, 1)];
            var s := After(known, 5, counted + [Deliver(Kept(1, 0, 0))]);
            && !Touches(After(known, 5, built), 5, CountUp(RealmCounts, 1, 1), RealmCounts)
            && !DeliversCurrent(known, 5, counted, Kept(1, 0, 0), RealmCounts)
            && RemoteRows(s, 5, RealmCounts) == [InvitesSent(1)] && ClientRows(s, RealmCounts) == [InvitesSent(2)]
  {
    var built := RowBuilt(InvitesSent(1));
    var counted := built + [CountUp(RealmCounts, 1, 1)];
    AfterRowBuilt(known, InvitesSent(1));
    AfterAppend(known, 5, built, CountUp(RealmCounts, 1, 1));
    assert ClientRows(After(known, 5, counted), RealmCounts) == [InvitesSent(2)];
    AfterAppend(known, 5, counted, Deliver(Kept(1, 0, 0)));
    RowIsStored(known, After(known, 5, counted), InvitesSent(1));
    assert RemoteRows(After(known, 5, counted), 5, RealmCounts) == [];
    DeliveryKeepsPrefix(known, 5, counted, Kept(1, 0, 0), RealmCounts);
  }

  /**
   * A row of a count by day is sent, and then its day is undone: the bouncer holds a row that the sender no longer has.
   */
  lemma UndoneAfterSending(known: set<string>, row: Row)
    requires KnownProperty(known, row) && row.id > 0 && row.data.Count?
    ensures var s := After(known, 5, RowSent(row) + [Undo(RealmCounts, row.data.property, row.data.endTime)]);
            && RemoteRows(s, 5, RealmCounts) == [row] && ClientRows(s, RealmCounts) == []
            && !IsPrefixUpToValues(s, 5, RealmCounts)
  {
    var undo := Undo(RealmCounts, row.data.property, row.data.endTime);
    AfterRowSent(known, row);
    AfterAppend(known, 5, RowSent(row), undo);
    assert [row][1..] == [] && Undone([row], row.data.property, row.data.endTime) == [];
  }

  // ----- A row that was deleted and filled again -----

  lemma {:induction false} ConstraintHolds(known: set<string>, me: int, history: seq<Event>)
    ensures Constraint(After(known, me, history).tables)
  {
    if history != [] {
      var n := |history| - 1;
      ConstraintHolds(known, me, history[..n]);
      PostsChangeTables(known, me, After(known, me, history[..n]), history[n]);
    }
  }

  lemma UniqueAfter(known: set<string>, me: int, history: seq<Event>, table: Table)
    ensures UniqueRows(RemoteRows(After(known, me, history), me, table))
  {
    ConstraintHolds(known, me, history);
    StoredRowsAreUnique(RowsIn(After(known, me, history).tables, table), me);
  }

  /** A row of the client's, up to its value. */
  ghost predicate Holds(rows: seq<Row>, row: Row) {
    exists i :: 0 <= i < |rows| && Steady(rows[i]) == Steady(row)
  }

  lemma UndoneStillHolds(rows: seq<Row>, row: Row, property: string, endTime: int)
    requires Holds(rows, row) && !IsAt(row, property, endTime)
    ensures Holds(Undone(rows, property, endTime), row)
  {
    var i :| 0 <= i < |rows| && Steady(rows[i]) == Steady(row);
    var after := Undone(rows, property, endTime);
    UndoneMembers(rows, property, endTime);
    assert rows[i] in rows && !IsAt(rows[i], property, endTime);
    var j :| 0 <= j < |after| && after[j] == rows[i];
    assert Steady(after[j]) == Steady(row);
  }

  lemma InsertedStillHolds(rows: seq<Row>, row: Row, added: Row)
    requires Ascending(rows, 0) && Holds(rows, row) && Fresh(rows, added)
    ensures Holds(Inserted(rows, added), row)
  {
    var i :| 0 <= i < |rows| && Steady(rows[i]) == Steady(row);
    var j := InsertedAt(rows, 0, added);
    var m := if i < j then i else i + 1;
    assert Inserted(rows, added)[m] == rows[i];
    assert Steady(Inserted(rows, added)[m]) == Steady(row);
  }

  lemma CountedStillHolds(rows: seq<Row>, row: Row, id: int, amount: int)
    requires Holds(rows, row)
    ensures Holds(CountedUp(rows, id, amount), row)
  {
    var i :| 0 <= i < |rows| && Steady(rows[i]) == Steady(row);
    assert Steady(CountedUp(rows, id, amount)[i]) == Steady(row);
  }

  lemma RowsStillHold(rows: seq<Row>, e: Event, table: Table, row: Row)
    requires Ascending(rows, 0) && Holds(rows, row) &&
        !(e.Undo? && e.table == table && IsAt(row, e.property, e.endTime))
    ensures Holds(RowsAfter(rows, e, table), row)
  {
    match e
    case Grow(grown, added) =>
      if grown == table && Fresh(rows, added) {
        InsertedStillHolds(rows, row, added);
      }
    case CountUp(_, id, amount) => CountedStillHolds(rows, row, id, amount);
    case Undo(undone, property, t) =>
      if undone == table {
        UndoneStillHolds(rows, row, property, t);
      }
    case _ =>
  }

  /** To send a row from `row` on is to send `row`: the sent rows are consecutive. */
  lemma SliceHolds(rows: seq<Row>, a: nat, k: nat, below: int, row: Row)
    requires Ascending(rows, 0) && IsCut(rows, below, a) && below < row.id && Holds(rows, row)
    requires 0 < k && a + k <= |rows| && row.id <= rows[a + k - 1].id
    ensures Holds(rows[a..a + k], row)
  {
    var i :| 0 <= i < |rows| && Steady(rows[i]) == Steady(row);
    assert rows[i].id == row.id && a <= i <= a + k - 1;
    assert Steady(rows[a..a + k][i - a]) == Steady(row);
  }

  lemma SentPast(rows: seq<Row>, acknowledged: int, row: Row, k: nat)
    requires Ascending(rows, 0) && Holds(rows, row) && acknowledged < row.id
    requires 0 < k <= |ToSend(rows, acknowledged)| && row.id <= ToSend(rows, acknowledged)[k - 1].id
    ensures Holds(ToSend(rows, acknowledged)[..k], row)
  {
    var sent := ToSend(rows, acknowledged);
    var a := AboveIsSuffix(rows, 0, acknowledged);
    SentIsSlice(rows, acknowledged, a, k);
    assert sent[k - 1] == sent[..k][k - 1];
    SliceHolds(rows, a, k, acknowledged, row);
  }

  /** A request that goes as far as the row's id has the row. */
  ghost predicate Guards(sent: seq<Row>, row: Row) {
    forall i :: 0 <= i < |sent| && row.id <= sent[i].id ==> Holds(sent[..i + 1], row)
  }

  /**
   * The row is in the sender's table and repeats the columns of a stored row, nothing from it on is stored, and the
   * request under way does not get past it without it.
   */
  ghost predicate Blocked(s: Sync, me: int, table: Table, held: Row, row: Row) {
    && SameColumns(held, row) && held in RemoteRows(s, me, table)
    && Holds(ClientRows(s, table), row) && LastId(RemoteRows(s, me, table)) < row.id
    && Guards(Rows(s.outgoing, table), row)
  }

  lemma RowRepeats(remote: seq<Row>, arriving: seq<Row>, held: Row, row: Row)
    requires held in remote && SameColumns(held, row) && Holds(arriving, row)
    ensures !UniqueRows(remote + arriving)
  {
    var all := remote + arriving;
    var i :| 0 <= i < |remote| && remote[i] == held;
    var j :| 0 <= j < |arriving| && Steady(arriving[j]) == Steady(row);
    assert SameColumns(all[i], all[|remote| + j]);
  }

  lemma BlockedPost(remote: seq<Row>, sent: seq<Row>, held: Row, row: Row, k: nat)
    requires held in remote && SameColumns(held, row) && LastId(remote) < row.id && Guards(sent, row)
    requires k <= |sent| && Ascending(remote + sent[..k], 0) && UniqueRows(remote + sent[..k])
    ensures LastId(remote + sent[..k]) < row.id
  {
    var after := remote + sent[..k];
    if k > 0 {
      LastOfAscending(after, 0);
      if sent[k - 1].id >= row.id {
        RowRepeats(remote, sent[..k], held, row);
        assert false;
      }
    } else {
      assert after == remote;
    }
  }

  /** A request built while the row is there and not acknowledged does not get past it either. */
  lemma BuiltGuards(s: Sync, me: int, table: Table, row: Row)
    requires Ordered(s, me, table) && Holds(ClientRows(s, table), row) && LastId(RemoteRows(s, me, table)) < row.id
    ensures Guards(Rows(Outgoing(s), table), row)
  {
    var rows, remote, acknowledged := ClientRows(s, table), RemoteRows(s, me, table), Acknowledged(s, table);
    var m: nat :| m <= |remote| && acknowledged == LastId(remote[..m]);
    LastIdOfPart(remote[..m], remote);
    OutgoingRows(s, table);
    var sent := ToSend(rows, acknowledged);
    forall i | 0 <= i < |sent| && row.id <= sent[i].id
      ensures Holds(sent[..i + 1], row)
    {
      SentPast(rows, acknowledged, row, i + 1);
    }
  }

  lemma BlockedStep(known: set<string>, me: int, s: Sync, e: Event, next: Sync, table: Table, held: Row, row: Row)
    requires Ordered(s, me, table) && Blocked(s, me, table, held, row)
    requires next == Next(known, me, s, e) && Ordered(next, me, table) && UniqueRows(RemoteRows(next, me, table))
    requires !(e.Undo? && e.table == table && IsAt(row, e.property, e.endTime))
    ensures Blocked(next, me, table, held, row)
  {
    var k := StoredRowsStep(known, me, s, e, table);
    ClientStep(known, me, s, e, table);
    RowsStillHold(ClientRows(s, table), e, table, row);
    BlockedPost(RemoteRows(s, me, table), Rows(s.outgoing, table), held, row, k);
    PostsChangeTables(known, me, s, e);
    if e.Build? {
      BuiltGuards(s, me, table, row);
    }
  }

  predicate Spares(more: seq<Event>, table: Table, row: Row) {
    forall i :: 0 <= i < |more| && more[i].Undo? && more[i].table == table ==>
        !IsAt(row, more[i].property, more[i].endTime)
  }

  lemma BlockedOneMore(known: set<string>, me: int, history: seq<Event>, e: Event, table: Table, held: Row, row: Row)
    requires Blocked(After(known, me, history), me, table, held, row)
    requires !(e.Undo? && e.table == table && IsAt(row, e.property, e.endTime))
    ensures Blocked(After(known, me, history + [e]), me, table, held, row)
  {
    AfterAppend(known, me, history, e);
    EveryHistory(known, me, history, table);
    EveryHistory(known, me, history + [e], table);
    UniqueAfter(known, me, history + [e], table);
    BlockedStep(known, me, After(known, me, history), e, After(known, me, history + [e]), table, held, row);
  }

  /**
   * A row that repeats the columns of a stored row stops the replication of its table: as long as it is not itself
   * undone, nothing from it on is ever stored.
   */
  lemma {:induction false} BlockedForGood(known: set<string>, me: int, history: seq<Event>, table: Table, held: Row,
                                          row: Row,
                                          more: seq<Event>)
    requires Blocked(After(known, me, history), me, table, held, row) && Spares(more, table, row)
    ensures Blocked(After(known, me, history + more), me, table, held, row)
  {
    if more == [] {
      assert history + more == history;
    } else {
      var front, e := more[..|more| - 1], more[|more| - 1];
      var before := history + front;
      BlockedForGood(known, me, history, table, held, row, front);
      assert history + more == before + [e];
      BlockedOneMore(known, me, before, e, table, held, row);
    }
  }

  /** The id is above all that the sender has, has under way or has stored. */
  predicate Beyond(s: Sync, me: int, table: Table, id: int) {
    && LastId(ClientRows(s, table)) < id && LastId(RemoteRows(s, me, table)) < id
    && forall row :: row in Rows(s.outgoing, table) ==> row.id < id
  }

  lemma RefilledIsHeld(rows: seq<Row>, row: Row, property: string, endTime: int)
    requires Ascending(rows, 0) && row.id > 0 && LastId(rows) < row.id
    ensures var left := Undone(rows, property, endTime); Fresh(left, row) && Holds(Inserted(left, row), row)
  {
    var left := Undone(rows, property, endTime);
    UndoneMembers(rows, property, endTime);
    UndoneAscends(rows, 0, property, endTime);
    LastIdIsLargest(rows);
    assert forall i :: 0 <= i < |left| ==> left[i] in rows;
    var j := InsertedAt(left, 0, row);
    assert Steady(Inserted(left, row)[j]) == Steady(row);
  }

  lemma NothingPast(sent: seq<Row>, row: Row)
    requires forall earlier :: earlier in sent ==> earlier.id < row.id
    ensures Guards(sent, row)
  {
    assert forall i :: 0 <= i < |sent| ==> sent[i] in sent;
  }

  lemma RefilledIsBlocked(known: set<string>, me: int, s: Sync, table: Table, held: Row, row: Row, t: Sync)
    requires Ordered(s, me, table) && held in RemoteRows(s, me, table) && SameColumns(held, row) &&
        Beyond(s, me, table, row.id)
    requires t == Next(known, me, Next(known, me, s, Undo(table, held.data.property, held.data.endTime)),
                       Grow(table, row))
    ensures Blocked(t, me, table, held, row)
  {
    var undo := Undo(table, held.data.property, held.data.endTime);
    var undone := Next(known, me, s, undo);
    ClientStep(known, me, s, undo, table);
    StoredStays(known, me, s, undo, table);
    ClientStep(known, me, undone, Grow(table, row), table);
    StoredStays(known, me, undone, Grow(table, row), table);
    LastIdIsLargest(RemoteRows(s, me, table));
    RefilledIsHeld(ClientRows(s, table), row, undo.property, undo.endTime);
    NothingPast(Rows(s.outgoing, table), row);
  }

  /**
   * After any history: undo a stored row with a subgroup and fill it again, and no later delivery gets past the new
   * row.
   */
  lemma RefillBlocks(known: set<string>, me: int, history: seq<Event>, table: Table, held: Row, row: Row,
                     more: seq<Event>)
    requires held in RemoteRows(After(known, me, history), me, table)
    requires held.data.Count? && held.data.subgroup.Some? && row.data.Count?
    requires row.data == held.data.(value := row.data.value)
    requires Beyond(After(known, me, history), me, table, row.id) && Spares(more, table, row)
    ensures var refilled := history + [Undo(table, held.data.property, held.data.endTime)] + [Grow(table, row)];
            Blocked(After(known, me, refilled + more), me, table, held, row)
  {
    var undo := Undo(table, held.data.property, held.data.endTime);
    EveryHistory(known, me, history, table);
    AfterAppend(known, me, history, undo);
    AfterAppend(known, me, history + [undo], Grow(table, row));
    RefilledIsBlocked(known, me, After(known, me, history), table, held, row,
                      After(known, me, history + [undo] + [Grow(table, row)]));
    BlockedForGood(known, me, history + [undo] + [Grow(table, row)], table, held, row, more);
  }

  // ----- What a current post brings -----

  /** How many rows of the client's table the bouncer lacks. */
  function Lacking(s: Sync, me: int, t: Table): nat {
    if |RemoteRows(s, me, t)| < |ClientRows(s, t)| then |ClientRows(s, t)| - |RemoteRows(s, me, t)| else 0
  }

  lemma StretchChecks(known: set<string>, rows: seq<Row>, n: nat, size: nat)
    requires Ascending(rows, 0) && n + size <= |rows|
    requires forall row :: row in rows ==> KnownProperty(known, row)
    ensures Check(known, rows[n..][..size], LastId(rows[..n])).None?
  {
    var sent := rows[n..][..size];
    CheckMeaning(known, sent, LastId(rows[..n]));
    if n > 0 {
      assert Ascending(rows[..n], 0);
      LastOfAscending(rows[..n], 0);
    }
    assert forall row :: row in sent ==> row in rows;
  }

  lemma AlikeIsUnique(remote: seq<Row>, rows: seq<Row>, k: nat)
    requires UniqueRows(rows) && |remote| + k <= |rows| && Alike(remote, rows[..|remote|])
    ensures UniqueRows(remote + rows[|remote|..][..k])
  {
    var all := remote + rows[|remote|..][..k];
    forall i | 0 <= i < |all|
      ensures Steady(all[i]) == Steady(rows[i])
    {
      assert i < |remote| ==> Steady(remote[i]) == Steady(rows[..|remote|][i]);
    }
    forall i, j | 0 <= i < j < |all|
      ensures !SameColumns(all[i], all[j])
    {
      assert !SameColumns(rows[i], rows[j]);
    }
  }

  /** The sender's table is what its constraint makes it, and its properties are known. */
  ghost predicate Sendable(known: set<string>, s: Sync, t: Table) {
    UniqueRows(ClientRows(s, t)) && forall row :: row in ClientRows(s, t) ==> KnownProperty(known, row)
  }

  /** With a current status a table's outgoing rows are those the bouncer lacks, they pass the check, and they fit. */
  lemma CurrentStretch(known: set<string>, me: int, s: Sync, t: Table)
    requires Ordered(s, me, t) && IsPrefixUpToValues(s, me, t) && Sendable(known, s, t)
    requires Acknowledged(s, t) == LastId(RemoteRows(s, me, t))
    ensures var sent := Rows(Outgoing(s), t);
            |sent| == Min(MAX_CLIENT_BATCH_SIZE, Lacking(s, me, t)) && Fits(known, me, s, sent, t)
  {
    var rows, remote := ClientRows(s, t), RemoteRows(s, me, t);
    var n := |remote|;
    var size := Min(MAX_CLIENT_BATCH_SIZE, |rows| - n);
    OutgoingRows(s, t);
    AlikeLastId(remote, rows[..n]);
    SendsStretch(rows, n);
    StretchChecks(known, rows, n, size);
    AlikeIsUnique(remote, rows, size);
  }

  ghost predicate Fits(known: set<string>, me: int, s: Sync, rows: seq<Row>, t: Table) {
    Check(known, rows, LastId(RemoteRows(s, me, t))).None? && UniqueRows(RemoteRows(s, me, t) + rows)
  }

  lemma WholePosted(tables: Tables, server: int, q: Request, t: Table)
    ensures RowsIn(Posted(tables, server, q, Whole(q)), t) == RowsIn(tables, t) + Tagged(server, Rows(q, t))
  {
    match t
    case RealmCounts => assert q.realmCounts[..|q.realmCounts|] == q.realmCounts;
    case InstallationCounts => assert q.installationCounts[..|q.installationCounts|] == q.installationCounts;
    case AuditLog => assert Rows(q, AuditLog)[..|Rows(q, AuditLog)|] == Rows(q, AuditLog);
  }

  lemma FittingIsAcceptable(known: set<string>, me: int, s: Sync, q: Request)
    requires forall t :: Fits(known, me, s, Rows(q, t), t)
    ensures Acceptable(known, s.tables, me, q)
  {
    forall t
      ensures Check(known, Rows(q, t), LastId(OfServer(RowsIn(s.tables, t), me))).None?
    {
      assert Fits(known, me, s, Rows(q, t), t);
    }
  }

  lemma FittingKeepsConstraint(known: set<string>, me: int, s: Sync, q: Request)
    requires Constraint(s.tables) && forall t :: Fits(known, me, s, Rows(q, t), t)
    ensures Constraint(Posted(s.tables, me, q, Whole(q)))
  {
    forall t
      ensures UniqueStored(RowsIn(Posted(s.tables, me, q, Whole(q)), t))
    {
      assert UniqueStored(RowsIn(s.tables, t)) && Fits(known, me, s, Rows(q, t), t);
      UniqueRowsFit(RowsIn(s.tables, t), me, Rows(q, t));
      WholePosted(s.tables, me, q, t);
    }
  }

  /** A post that fits is stored whole. */
  lemma FittingIsStored(known: set<string>, me: int, s: Sync, q: Request, t: Table)
    requires Constraint(s.tables) && forall u :: Fits(known, me, s, Rows(q, u), u)
    ensures |OfServer(RowsIn(Received(known, s.tables, me, q, Whole(q)), t), me)| ==
        |RemoteRows(s, me, t)| + |Rows(q, t)|
  {
    FittingIsAcceptable(known, me, s, q);
    FittingKeepsConstraint(known, me, s, q);
    PostedRows(s.tables, me, q, Whole(q), t, me);
  }

  /** What the sender and the constraint are when a post is made. */
  ghost predicate Ready(known: set<string>, me: int, s: Sync) {
    && Constraint(s.tables)
    && forall t :: Ordered(s, me, t) && IsPrefixUpToValues(s, me, t) && Sendable(known, s, t)
  }

  /** The status is current, and the request fits what is stored. */
  ghost predicate AllFit(known: set<string>, me: int, s: Sync, q: Request) {
    Constraint(s.tables) && forall t :: Fits(known, me, s, Rows(q, t), t)
  }

  ghost predicate Informed(s: Sync, me: int) {
    forall t :: Acknowledged(s, t) == LastId(RemoteRows(s, me, t))
  }

  /** A request built on a current status fits, and has all that the bouncer lacks, up to the limit. */
  lemma CurrentRequestFits(known: set<string>, me: int, s: Sync)
    requires Ready(known, me, s) && Informed(s, me)
    ensures AllFit(known, me, s, Outgoing(s))
    ensures forall t :: |Rows(Outgoing(s), t)| == Min(MAX_CLIENT_BATCH_SIZE, Lacking(s, me, t))
  {
    forall t
      ensures Fits(known, me, s, Rows(Outgoing(s), t), t)
      ensures |Rows(Outgoing(s), t)| == Min(MAX_CLIENT_BATCH_SIZE, Lacking(s, me, t))
    {
      assert Ordered(s, me, t) && IsPrefixUpToValues(s, me, t) && Sendable(known, s, t);
      assert Acknowledged(s, t) == LastId(RemoteRows(s, me, t));
      CurrentStretch(known, me, s, t);
    }
  }

  /** A request that fits is stored whole, unless the database fails. */
  lemma WholeDelivery(known: set<string>, me: int, s: Sync, t: Table)
    requires AllFit(known, me, s, s.outgoing)
    ensures |RemoteRows(Next(known, me, s, Deliver(Whole(s.outgoing))), me, t)| ==
        |RemoteRows(s, me, t)| + |Rows(s.outgoing, t)|
  {
    PostsChangeTables(known, me, s, Deliver(Whole(s.outgoing)));
    FittingIsStored(known, me, s, s.outgoing, t);
  }

  lemma StatusInforms(known: set<string>, me: int, s: Sync)
    ensures Informed(Next(known, me, s, AskStatus), me)
    ensures var after := Next(known, me, s, AskStatus); after == s.(acknowledged := after.acknowledged)
  {
    forall t
      ensures Acknowledged(Next(known, me, s, AskStatus), t) == LastId(RemoteRows(Next(known, me, s, AskStatus), me, t))
    {
      AcknowledgedStep(known, me, s, AskStatus, t);
    }
  }

  /** The sender asks for the status, builds and delivers at once, and nothing fails. */
  ghost function PostNow(known: set<string>, me: int, s: Sync): Sync {
    var built := Next(known, me, Next(known, me, s, AskStatus), Build);
    Next(known, me, built, Deliver(Whole(built.outgoing)))
  }

  lemma SameReady(known: set<string>, me: int, s: Sync)
    requires Ready(known, me, s)
    ensures Ready(known, me, Next(known, me, s, AskStatus))
  {
    forall t
      ensures var after := Next(known, me, s, AskStatus);
              Ordered(after, me, t) && IsPrefixUpToValues(after, me, t) && Sendable(known, after, t)
    {
      assert Ordered(s, me, t) && IsPrefixUpToValues(s, me, t) && Sendable(known, s, t);
      OrderedStep(known, me, s, AskStatus, t);
    }
  }

  /** What fits still fits while this server's stored rows stay. */
  lemma SameFit(known: set<string>, me: int, s: Sync, later: Sync)
    requires AllFit(known, me, s, Outgoing(s)) && later.outgoing == Outgoing(s) && Constraint(later.tables)
    requires forall t :: RemoteRows(later, me, t) == RemoteRows(s, me, t)
    ensures AllFit(known, me, later, later.outgoing)
  {
    forall t
      ensures Fits(known, me, later, Rows(later.outgoing, t), t)
    {
      assert Fits(known, me, s, Rows(Outgoing(s), t), t);
    }
  }

  /** Built and delivered at once on a current status. */
  lemma BuiltDelivers(known: set<string>, me: int, s: Sync, t: Table)
    requires Ready(known, me, s) && Informed(s, me)
    ensures var built := Next(known, me, s, Build);
            |RemoteRows(Next(known, me, built, Deliver(Whole(built.outgoing))), me, t)|
              == |RemoteRows(s, me, t)| + Min(MAX_CLIENT_BATCH_SIZE, Lacking(s, me, t))
  {
    var built := Next(known, me, s, Build);
    CurrentRequestFits(known, me, s);
    SameFit(known, me, s, built);
    WholeDelivery(known, me, built, t);
  }

  lemma ReadyPostDelivers(known: set<string>, me: int, s: Sync, t: Table)
    requires Ready(known, me, s)
    ensures |RemoteRows(PostNow(known, me, s), me, t)| ==
        |RemoteRows(s, me, t)| + Min(MAX_CLIENT_BATCH_SIZE, Lacking(s, me, t))
  {
    StatusInforms(known, me, s);
    SameReady(known, me, s);
    BuiltDelivers(known, me, Next(known, me, s, AskStatus), t);
  }

  /**
   * While the prefix is kept up to values, a post based on the current status is accepted, conflicts with nothing, and
   * brings every table what it lacked, up to the limit.
   */
  lemma CurrentPostDelivers(known: set<string>, me: int, history: seq<Event>, t: Table)
    requires forall u :: AlwaysPrefixUpToValues(known, me, history, u) && Sendable(known, After(known, me, history), u)
    ensures var s := After(known, me, history);
            |RemoteRows(PostNow(known, me, s), me, t)| ==
                |RemoteRows(s, me, t)| + Min(MAX_CLIENT_BATCH_SIZE, Lacking(s, me, t))
  {
    var s := After(known, me, history);
    ConstraintHolds(known, me, history);
    forall u
      ensures Ordered(s, me, u) && IsPrefixUpToValues(s, me, u) && Sendable(known, s, u)
    {
      EveryHistory(known, me, history, u);
      assert AlwaysPrefixUpToValues(known, me, history, u);
    }
    ReadyPostDelivers(known, me, s, t);
  }
}
