/** What the bouncer's rows say about the sender's, and how long that lasts. */
module ShippingTheorems {
  import opened Integers
  import Times
  import opened CountTables
  import opened FillEngine
  import opened FillRuns
  import FillTheorems
  import opened FillPermanence
  import opened StoredNames
  import R = RemoteSync
  import S = Replication
  import T = ReplicationTheorems
  import opened Shipping

  // ----- What the bouncer's rows say -----

  lemma TrueRowIsCurrent(c: Config, db: Db, table: Table, row: R.Row, client: R.Row)
    requires IsTrue(c, db, table, row) && Backed(db.rows, table, client) && S.Steady(row) == S.Steady(client)
    ensures row == client || exists k :: Shows(table, row, k) && IsLoggedKey(c, k)
  {
    var k :| Settles(c, db, table, row, k) && Agrees(c, db, row, k);
    var other :| IsRowOf(db.rows, table, client, other);
    assert Place(client) == Place(row);
    ShowsOne(table, client, k, other);
  }

  ghost predicate IsLoggedRow(c: Config, table: Table, row: R.Row) {
    exists k :: Shows(table, row, k) && IsLoggedKey(c, k)
  }

  lemma StoredIsTrue(c: Config, me: int, j: Joint, table: Table, row: R.Row)
    requires ReachedTrue(c, me, j) && IsSent(table) && row in S.RemoteRows(j.sync, me, RemoteTable(table))
    ensures IsTrue(c, j.system.run.db, table, row)
  {
    assert AllTrue(c, j.system.run.db, table, Reached(j.sync, me, RemoteTable(table)));
    assert row in Reached(j.sync, me, RemoteTable(table));
  }

  /** Only the values of logged rows can be behind the sender's. */
  lemma OnlyLoggedValuesLag(c: Config, known: set<string>, me: int, moves: seq<Move>, table: Table, i: nat)
    requires ValidConfig(c) && AllCareful(c, known, me, moves) && IsSent(table)
    requires i < |S.RemoteRows(Outcome(c, known, me, moves).sync, me, RemoteTable(table))|
    ensures var sync := Outcome(c, known, me, moves).sync;
            var list, stored := S.ClientRows(sync, RemoteTable(table)), S.RemoteRows(sync, me, RemoteTable(table));
            i < |list| && (stored[i] == list[i] || IsLoggedRow(c, table, stored[i]))
  {
    var j := Outcome(c, known, me, moves);
    var list, stored := S.ClientRows(j.sync, RemoteTable(table)), S.RemoteRows(j.sync, me, RemoteTable(table));
    EveryOutcome(c, known, me, moves);
    SafeSendsReplicate(c, known, me, moves);
    assert S.IsPrefixUpToValues(j.sync, me, RemoteTable(table));
    assert S.Steady(stored[i]) == S.Steady(list[..|stored|][i]);
    assert list[i] in list && Backed(j.system.run.db.rows, table, list[i]);
    StoredIsTrue(c, me, j, table, stored[i]);
    TrueRowIsCurrent(c, j.system.run.db, table, stored[i], list[i]);
  }

  lemma LoggedIsNotInstallation(c: Config, row: R.Row)
    requires ValidConfig(c)
    ensures !IsLoggedRow(c, InstallationCount, row)
  {
    forall k | Shows(InstallationCount, row, k)
      ensures !IsLoggedKey(c, k)
    {
      assert ValidStat(c, k.property);
    }
  }

  /** So the installation counts and the audit log are replicated exactly. */
  lemma ExactElsewhere(c: Config, known: set<string>, me: int, moves: seq<Move>)
    requires ValidConfig(c) && AllCareful(c, known, me, moves)
    ensures S.IsPrefix(Outcome(c, known, me, moves).sync, me, R.InstallationCounts)
    ensures S.IsPrefix(Outcome(c, known, me, moves).sync, me, R.AuditLog)
  {
    var sync := Outcome(c, known, me, moves).sync;
    var list, stored := S.ClientRows(sync, R.InstallationCounts), S.RemoteRows(sync, me, R.InstallationCounts);
    EveryOutcome(c, known, me, moves);
    SafeSendsReplicate(c, known, me, moves);
    assert S.IsPrefixUpToValues(sync, me, R.InstallationCounts) && S.IsPrefixUpToValues(sync, me, R.AuditLog);
    forall i | 0 <= i < |stored|
      ensures stored[i] == list[i]
    {
      OnlyLoggedValuesLag(c, known, me, moves, InstallationCount, i);
      LoggedIsNotInstallation(c, stored[i]);
    }
    var audits, held := S.ClientRows(sync, R.AuditLog), S.RemoteRows(sync, me, R.AuditLog);
    forall i | 0 <= i < |held|
      ensures held[i] == audits[i]
    {
      assert S.Steady(held[i]) == S.Steady(audits[..|held|][i]);
      assert audits[i] in audits;
    }
  }

  /** The row is one that an undisturbed fill of its statistic and time leaves. */
  ghost predicate IsFilled(c: Config, table: Table, row: R.Row, k: Key) {
    IsRowOf(Complete(c, k.property, k.endTime), table, row, k)
  }

  /** A row of a pulled or dependent statistic that cannot be undone belongs to a complete fill. */
  lemma SettledIsComplete(c: Config, s: System, k: Key)
    requires ValidConfig(c) && SystemInv(c, s) && !IsLogged(c, k.property)
    requires k in s.run.db.rows && !Undoable(c, s.run.db, k)
    ensures var complete := Complete(c, k.property, k.endTime); k in complete && complete[k] == s.run.db.rows[k]
  {
    SettledRow(c, s, k);
    assert SliceOk(c, s.run, k.property, k.endTime);
    assert k in Slice(s.run.db.rows, k.property, k.endTime);
  }

  lemma TrueRowIsFilled(c: Config, s: System, table: Table, row: R.Row) returns (k: Key)
    requires ValidConfig(c) && SystemInv(c, s) && IsTrue(c, s.run.db, table, row)
    ensures k in s.run.db.rows && Shows(table, row, k) && (!IsLogged(c, k.property) ==> IsFilled(c, table, row, k))
  {
    k :| Settles(c, s.run.db, table, row, k) && Agrees(c, s.run.db, row, k);
    if !IsLogged(c, k.property) {
      SettledIsComplete(c, s, k);
    }
  }

  /**
   * From fills to the bouncer: through crashes, undos, failing, late and repeated posts, each stored row of a pulled or
   * dependent statistic has the value that one undisturbed fill of its time gives it.
   */
  lemma StoredIsFilled(c: Config, known: set<string>, me: int, moves: seq<Move>, table: Table, row: R.Row)
    returns (k: Key)
    requires ValidConfig(c) && AllCareful(c, known, me, moves) && IsSent(table)
    requires row in S.RemoteRows(Outcome(c, known, me, moves).sync, me, RemoteTable(table))
    ensures k in Outcome(c, known, me, moves).system.run.db.rows && Shows(table, row, k)
    ensures !IsLogged(c, k.property) ==> IsFilled(c, table, row, k)
  {
    var j := Outcome(c, known, me, moves);
    EveryOutcome(c, known, me, moves);
    SafeSendsReplicate(c, known, me, moves);
    StoredIsTrue(c, me, j, table, row);
    k := TrueRowIsFilled(c, j.system, table, row);
  }

  // ----- The command -----

  /** What the job and the live requests did. */
  ghost function Actions(c: Config, known: set<string>, me: int, moves: seq<Move>): seq<Action> {
    if moves == [] then []
    else
      var front, m := moves[..|moves| - 1], moves[|moves| - 1];
      Actions(c, known, me, front) +
      if m.Local? && IsEffect(c, known, me, Outcome(c, known, me, front), m.action, m.effects) then [m.action] else []
  }

  lemma {:induction false} OutcomeIsHistory(c: Config, known: set<string>, me: int, moves: seq<Move>)
    ensures Outcome(c, known, me, moves).system == After(c, Actions(c, known, me, moves))
  {
    if moves != [] {
      var front := moves[..|moves| - 1];
      OutcomeIsHistory(c, known, me, front);
      var actions := Actions(c, known, me, moves);
      assert actions != [] ==> actions[..|actions| - 1] + [actions[|actions| - 1]] == actions;
      assert actions != Actions(c, known, me, front) ==> actions[..|actions| - 1] == Actions(c, known, me, front);
    }
  }

  lemma DistinctIsUnique(list: seq<R.Row>)
    requires AllDiffer(list)
    ensures R.UniqueRows(list)
  {
    forall i, j | 0 <= i < j < |list|
      ensures !R.SameColumns(list[i], list[j])
    {
      assert Place(list[i]) != Place(list[j]);
    }
  }

  predicate AllKnown(known: set<string>) {
    forall p :: PropertyName(p) in known
  }

  lemma ListIsSendable(known: set<string>, s: S.Sync, rows: Rows, table: Table)
    requires AllKnown(known) && IsSent(table) && Lists(S.ClientRows(s, RemoteTable(table)), rows, table)
    ensures T.Sendable(known, s, RemoteTable(table))
  {
    var list := S.ClientRows(s, RemoteTable(table));
    DistinctIsUnique(list);
    forall row | row in list
      ensures R.KnownProperty(known, row)
    {
      assert Backed(rows, table, row);
      var k :| IsRowOf(rows, table, row, k);
      assert PropertyName(k.property) in known;
    }
  }

  lemma AuditIsSendable(known: set<string>, s: S.Sync)
    requires OnlyAudit(S.ClientRows(s, R.AuditLog))
    ensures T.Sendable(known, s, R.AuditLog)
  {
    var rows := S.ClientRows(s, R.AuditLog);
    forall i, j | 0 <= i < j < |rows|
      ensures !R.SameColumns(rows[i], rows[j])
    {
      assert rows[i] in rows;
    }
  }

  lemma JointIsReady(c: Config, known: set<string>, me: int, j: Joint)
    requires JointInv(c, me, j) && PrefixEverywhere(j.sync, me) && AllKnown(known)
    ensures T.Ready(known, me, j.sync)
  {
    forall t
      ensures S.Ordered(j.sync, me, t) && S.IsPrefixUpToValues(j.sync, me, t) && T.Sendable(known, j.sync, t)
    {
      match t
      case RealmCounts => ListIsSendable(known, j.sync, j.system.run.db.rows, RealmCount);
      case InstallationCounts => ListIsSendable(known, j.sync, j.system.run.db.rows, InstallationCount);
      case AuditLog => AuditIsSendable(known, j.sync);
    }
  }

  // ----- Increments and other servers while the command sends -----

  /** Moves that may fall between the command's own: increments, new audit rows and other servers' posts. */
  predicate IsMeanwhile(m: Move) {
    match m
    case Local(a, _) => FillTheorems.IsLogAction(a)
    case Remote(e) => e.OtherPost? || e.Grow?
  }

  predicate AllMeanwhile(moves: seq<Move>) {
    forall m :: m in moves ==> IsMeanwhile(m)
  }

  /** Every further move is careful at its time. */
  ghost predicate GoesOnCarefully(c: Config, known: set<string>, me: int, moves: seq<Move>, more: seq<Move>) {
    more == [] ||
    var front, m := more[..|more| - 1], more[|more| - 1];
    GoesOnCarefully(c, known, me, moves, front) && Careful(c, me, Outcome(c, known, me, moves + front), m)
  }

  lemma CarefulAppend(c: Config, known: set<string>, me: int, moves: seq<Move>, m: Move, longer: seq<Move>)
    requires longer == moves + [m]
    ensures AllCareful(c, known, me, longer) <==>
        AllCareful(c, known, me, moves) && Careful(c, me, Outcome(c, known, me, moves), m)
  {
    assert longer[..|longer| - 1] == moves;
  }

  lemma GoesOnAppend(c: Config, known: set<string>, me: int, moves: seq<Move>, more: seq<Move>, m: Move,
                     longer: seq<Move>)
    requires longer == more + [m]
    ensures GoesOnCarefully(c, known, me, moves, longer) <==>
        GoesOnCarefully(c, known, me, moves, more) && Careful(c, me, Outcome(c, known, me, moves + more), m)
  {
    assert longer[..|longer| - 1] == more;
  }

  lemma {:induction false} CarefulTogether(c: Config, known: set<string>, me: int, moves: seq<Move>, more: seq<Move>)
    ensures AllCareful(c, known, me, moves + more) <==>
        AllCareful(c, known, me, moves) && GoesOnCarefully(c, known, me, moves, more)
  {
    if more == [] {
      assert moves + more == moves;
    } else {
      var front, m := more[..|more| - 1], more[|more| - 1];
      CarefulTogether(c, known, me, moves, front);
      assert moves + more == (moves + front) + [m];
      CarefulAppend(c, known, me, moves + front, m, moves + more);
      GoesOnAppend(c, known, me, moves, front, m, more);
    }
  }

  /** The fill states, this server's stored rows, its status and its request are as they were. */
  ghost predicate Undisturbed(j: Joint, later: Joint, me: int) {
    && later.system.run.db.fills == j.system.run.db.fills
    && later.sync.acknowledged == j.sync.acknowledged && later.sync.outgoing == j.sync.outgoing
    && forall t :: S.RemoteRows(later.sync, me, t) == S.RemoteRows(j.sync, me, t)
  }

  lemma MeanwhileMove(c: Config, known: set<string>, me: int, j: Joint, m: Move)
    requires IsMeanwhile(m)
    ensures Undisturbed(j, Moved(c, known, me, j, m), me)
  {
    match m
    case Local(a, effects) =>
      if IsEffect(c, known, me, j, a, effects) {
        FillTheorems.LogSparesJob(c, j.system, a);
        EffectsAreWrites(c, known, me, j, a, effects);
        WritesSpareRemote(known, me, j.sync, effects);
      }
    case Remote(e) =>
      if IsRemote(e) {
        S.PostsChangeTables(known, me, j.sync, e);
        forall t
          ensures S.RemoteRows(S.Next(known, me, j.sync, e), me, t) == S.RemoteRows(j.sync, me, t)
        {
          S.StoredStays(known, me, j.sync, e, t);
        }
        if e.Grow? {
          WriteSparesRemote(known, me, j.sync, e);
        }
      }
  }

  lemma {:induction false} MeanwhileMoves(c: Config, known: set<string>, me: int, moves: seq<Move>, more: seq<Move>)
    requires AllMeanwhile(more)
    ensures Undisturbed(Outcome(c, known, me, moves), Outcome(c, known, me, moves + more), me)
  {
    if more == [] {
      assert moves + more == moves;
    } else {
      var front, m := more[..|more| - 1], more[|more| - 1];
      assert m in more;
      MeanwhileMoves(c, known, me, moves, front);
      assert moves + more == moves + front + [m];
      OutcomeAppend(c, known, me, moves + front, m);
      MeanwhileMove(c, known, me, Outcome(c, known, me, moves + front), m);
    }
  }

  /** The status, some time, the request, some time; and then the delivery. */
  function Sending(moves: seq<Move>, asking: seq<Move>, waiting: seq<Move>): seq<Move> {
    moves + [Remote(S.AskStatus)] + asking + [Remote(S.Build)] + waiting
  }

  lemma StatusAsked(c: Config, known: set<string>, me: int, moves: seq<Move>, asking: seq<Move>)
    requires ValidConfig(c) && AllMeanwhile(asking)
    ensures var j, later := Outcome(c, known, me, moves), Outcome(c, known, me, moves + [Remote(S.AskStatus)] + asking);
            && later.system.run.db.fills == j.system.run.db.fills && T.Informed(later.sync, me)
            && forall t :: S.RemoteRows(later.sync, me, t) == S.RemoteRows(j.sync, me, t)
  {
    var j, asked := Outcome(c, known, me, moves), moves + [Remote(S.AskStatus)];
    OutcomeAppend(c, known, me, moves, Remote(S.AskStatus));
    T.StatusInforms(known, me, j.sync);
    MeanwhileMoves(c, known, me, asked, asking);
    var informed, later := Outcome(c, known, me, asked).sync, Outcome(c, known, me, asked + asking).sync;
    forall t
      ensures S.Acknowledged(later, t) == R.LastId(S.RemoteRows(later, me, t))
    {
      assert S.Acknowledged(informed, t) == R.LastId(S.RemoteRows(informed, me, t));
    }
  }

  lemma RequestBuilt(c: Config, known: set<string>, me: int, moves: seq<Move>, waiting: seq<Move>)
    requires ValidConfig(c) && AllKnown(known) && AllCareful(c, known, me, moves) && AllMeanwhile(waiting)
    requires T.Informed(Outcome(c, known, me, moves).sync, me)
    ensures var s, later := Outcome(c, known, me, moves).sync,
        Outcome(c, known, me, moves + [Remote(S.Build)] + waiting).sync;
            && T.AllFit(known, me, later, later.outgoing)
            && forall t :: |S.RemoteRows(later, me, t)| + |R.Rows(later.outgoing, t)|
                         == |S.RemoteRows(s, me, t)| + Min(R.MAX_CLIENT_BATCH_SIZE, T.Lacking(s, me, t))
  {
    var j, built := Outcome(c, known, me, moves), moves + [Remote(S.Build)];
    EveryOutcome(c, known, me, moves);
    EveryOutcome(c, known, me, built + waiting);
    SafeSendsReplicate(c, known, me, moves);
    JointIsReady(c, known, me, j);
    T.CurrentRequestFits(known, me, j.sync);
    OutcomeAppend(c, known, me, moves, Remote(S.Build));
    MeanwhileMoves(c, known, me, built, waiting);
    T.SameFit(known, me, j.sync, Outcome(c, known, me, built + waiting).sync);
  }

  /**
   * The command, after whatever happened before, amid live increments: it runs every statistic, asks for the status,
   * builds a request and delivers it. All of that is careful, and the bouncer then holds what it lacked when the
   * request was built, up to the limit.
   */
  lemma CommandDelivers(c: Config, known: set<string>, me: int, moves: seq<Move>, history: seq<Action>,
                        turns: seq<FillTheorems.Turn>, fillTo: int, asking: seq<Move>, waiting: seq<Move>, t: R.Table)
    requires ValidConfig(c) && AllKnown(known) && AllCareful(c, known, me, moves)
    requires fillTo % Times.HOUR == 0 && After(c, history).run.job.Idle? &&
        FillTheorems.Unhurried(c, history, turns, fillTo)
    requires forall p: Property :: p in FillTheorems.Turned(turns)
    requires Actions(c, known, me, moves) == FillTheorems.RunsInTurn(history, turns, fillTo)
    requires AllMeanwhile(asking) && GoesOnCarefully(c, known, me, moves + [Remote(S.AskStatus)], asking)
    requires AllMeanwhile(waiting)
    requires GoesOnCarefully(c, known, me, moves + [Remote(S.AskStatus)] + asking + [Remote(S.Build)], waiting)
    ensures var s := Outcome(c, known, me, moves + [Remote(S.AskStatus)] + asking).sync;
            var sent := Sending(moves, asking, waiting);
            var whole := Remote(S.Deliver(R.Whole(Outcome(c, known, me, sent).sync.outgoing)));
            && AllCareful(c, known, me, sent + [whole])
            && |S.RemoteRows(Outcome(c, known, me, sent + [whole]).sync, me, t)|
                 == |S.RemoteRows(s, me, t)| + Min(R.MAX_CLIENT_BATCH_SIZE, T.Lacking(s, me, t))
  {
    var asked := moves + [Remote(S.AskStatus)] + asking;
    var sent := Sending(moves, asking, waiting);
    var last := Outcome(c, known, me, sent).sync;
    var whole := Remote(S.Deliver(R.Whole(last.outgoing)));
    CommandIsSafe(c, known, me, moves, history, turns, fillTo);
    StatusAsked(c, known, me, moves, asking);
    CommandIsCareful(c, known, me, moves, asking, waiting);
    RequestBuilt(c, known, me, asked, waiting);
    T.WholeDelivery(known, me, last, t);
    OutcomeAppend(c, known, me, sent, whole);
    assert (sent + [whole])[..|sent|] == sent;
  }

  lemma CommandIsSafe(c: Config, known: set<string>, me: int, moves: seq<Move>, history: seq<Action>,
                      turns: seq<FillTheorems.Turn>, fillTo: int)
    requires ValidConfig(c)
    requires fillTo % Times.HOUR == 0 && After(c, history).run.job.Idle? &&
        FillTheorems.Unhurried(c, history, turns, fillTo)
    requires forall p: Property :: p in FillTheorems.Turned(turns)
    requires Actions(c, known, me, moves) == FillTheorems.RunsInTurn(history, turns, fillTo)
    ensures AllDone(Outcome(c, known, me, moves).system.run.db.fills)
  {
    OutcomeIsHistory(c, known, me, moves);
    FullRunEndsDone(c, history, turns, fillTo);
  }

  lemma CommandIsCareful(c: Config, known: set<string>, me: int, moves: seq<Move>, asking: seq<Move>,
                         waiting: seq<Move>)
    requires AllCareful(c, known, me, moves) && GoesOnCarefully(c, known, me, moves + [Remote(S.AskStatus)], asking)
    requires AllDone(Outcome(c, known, me, moves + [Remote(S.AskStatus)] + asking).system.run.db.fills)
    requires GoesOnCarefully(c, known, me, moves + [Remote(S.AskStatus)] + asking + [Remote(S.Build)], waiting)
    ensures AllCareful(c, known, me, moves + [Remote(S.AskStatus)] + asking)
    ensures AllCareful(c, known, me, Sending(moves, asking, waiting))
  {
    var ask, build := moves + [Remote(S.AskStatus)], moves + [Remote(S.AskStatus)] + asking + [Remote(S.Build)];
    assert ask[..|ask| - 1] == moves && AllCareful(c, known, me, ask);
    CarefulTogether(c, known, me, ask, asking);
    DoneIsSafe(c, Outcome(c, known, me, ask + asking).system.run.db);
    assert build[..|build| - 1] == ask + asking && AllCareful(c, known, me, build);
    CarefulTogether(c, known, me, build, waiting);
  }
}
