/**
 * Whole histories of the fill job: any number of runs of any statistics, crashes between any two statements, and live
 * increments of the logged statistics in between. One job runs at a time; the cron job holds a lock.
 */
module FillRuns {
  import opened Times
  import opened CountTables
  import opened FillEngine
  import opened FillInvariant

  /** One call of `do_increment_logging_stat`. */
  datatype LogEntry = LogEntry(property: Property, owner: int, realm: int, subgroup: Subgroup, eventTime: int,
                               amount: int)

  /**
   * `issued` are the increments begun so far. Each is either `applied`, or `pending` between `get_or_create` and the
   * atomic add, or `abandoned` because its process died in between.
   */
  datatype System = System(run: Run, issued: seq<LogEntry>, applied: seq<LogEntry>, pending: seq<LogEntry>,
                           abandoned: seq<LogEntry>)

  datatype Action =
    | StartJob(p: Property, fillTo: int)
    | Execute
    | Crash
    | BeginLog(entry: LogEntry)
    | FinishLog(i: nat)
    | AbandonLog(i: nat)

  function LogKey(c: Config, e: LogEntry): Key {
    Key(c.stats(e.property).output, e.owner, e.property, e.subgroup, Ceiling(e.eventTime, Step(c, e.property)))
  }

  function SetRows(r: Run, rows: Rows): Run {
    r.(db := r.db.(rows := rows))
  }

  function Without<T>(s: seq<T>, i: nat): seq<T>
    requires i < |s|
  {
    s[..i] + s[i + 1..]
  }

  /** `get_or_create`: the row is made with the whole amount, or it exists and the add is still to come. */
  function Begin(c: Config, s: System, e: LogEntry): System {
    var k := LogKey(c, e);
    if e.amount == 0 || !IsLogged(c, e.property) then s
    else if k in s.run.db.rows then s.(issued := s.issued + [e], pending := s.pending + [e])
    else s.(run := SetRows(s.run, s.run.db.rows[k := Cell(e.realm, e.amount)]), issued := s.issued + [e],
            applied := s.applied + [e])
  }

  /** `UPDATE ... SET value = value + amount`. An update of a missing row raises and adds nothing. */
  function Finish(c: Config, s: System, i: nat): System
    requires i < |s.pending|
  {
    var e, k := s.pending[i], LogKey(c, s.pending[i]);
    if k in s.run.db.rows then
      var cell := s.run.db.rows[k];
      s.(run := SetRows(s.run, s.run.db.rows[k := cell.(value := cell.value + e.amount)]),
         applied := s.applied + [e], pending := Without(s.pending, i))
    else s.(abandoned := s.abandoned + [e], pending := Without(s.pending, i))
  }

  ghost function Next(c: Config, s: System, a: Action): System {
    match a
    case StartJob(p, fillTo) =>
      if s.run.job.Idle? then s.(run := s.run.(job := Start(c, s.run.db.fills, p, fillTo))) else s
    case Execute => s.(run := Work(c, s.run))
    case Crash => s.(run := s.run.(job := Idle))
    case BeginLog(e) => Begin(c, s, e)
    case FinishLog(i) => if i < |s.pending| then Finish(c, s, i) else s
    case AbandonLog(i) =>
      if i < |s.pending| then s.(abandoned := s.abandoned + [s.pending[i]], pending := Without(s.pending, i)) else s
  }

  const Fresh := System(Run(Db(map[], map[]), Idle, false), [], [], [], [])

  /** The state after a history, from an empty database. */
  ghost function After(c: Config, history: seq<Action>): System {
    if history == [] then Fresh else Next(c, After(c, history[..|history| - 1]), history[|history| - 1])
  }

  // ----- Logged rows -----

  predicate IsLoggedKey(c: Config, k: Key) {
    IsLogged(c, k.property) && k.table == c.stats(k.property).output
  }

  /** The total of the entries whose bucket is `k`. */
  function LoggedSum(c: Config, entries: seq<LogEntry>, k: Key): int {
    if entries == [] then 0
    else
      LoggedSum(c, entries[..|entries| - 1], k)
      + if LogKey(c, entries[|entries| - 1]) == k then entries[|entries| - 1].amount else 0
  }

  predicate HasEntry(c: Config, entries: seq<LogEntry>, k: Key) {
    exists i :: 0 <= i < |entries| && LogKey(c, entries[i]) == k
  }

  /** A logged row exists for exactly the buckets with an applied entry, and holds their total. */
  ghost predicate LoggedRowsOk(c: Config, rows: Rows, applied: seq<LogEntry>) {
    forall k :: IsLoggedKey(c, k) ==>
      (k in rows <==> HasEntry(c, applied, k)) && ValueAt(rows, k) == LoggedSum(c, applied, k)
  }

  ghost predicate PendingOk(c: Config, rows: Rows, pending: seq<LogEntry>) {
    forall e :: e in pending ==> IsLogged(c, e.property) && LogKey(c, e) in rows
  }

  ghost predicate Accounted(s: System) {
    multiset(s.issued) == multiset(s.applied) + multiset(s.pending) + multiset(s.abandoned)
  }

  ghost predicate LoggedOk(c: Config, s: System) {
    LoggedRowsOk(c, s.run.db.rows, s.applied) && PendingOk(c, s.run.db.rows, s.pending) && Accounted(s)
  }

  /** A logged statistic has rows in its own table and in the tables its fills sum into, and in no other. */
  ghost predicate Homed(c: Config, rows: Rows) {
    forall k :: k in rows && IsLogged(c, k.property) ==> IsLoggedKey(c, k) || IsDerivedKey(c, k)
  }

  ghost predicate SystemInv(c: Config, s: System) {
    Inv(c, s.run) && LoggedOk(c, s) && Homed(c, s.run.db.rows)
  }

  lemma WorkKeepsHomes(c: Config, r: Run)
    requires ValidConfig(c) && Inv(c, r) && Homed(c, r.db.rows)
    ensures Homed(c, Work(c, r).db.rows)
  {
    if r.job.Filling? {
      var p, t, rows := r.job.p, r.job.endTime, r.db.rows;
      match r.job.stage
      case MarkStarted =>
      case Pull =>
        PullIsBase(c, r);
        CompleteWithin(c, p, t);
      case ToRealm =>
        AggregateWithin(InTable(Slice(rows, p, t), c.stats(p).output), RealmCount, p, t);
      case ToInstallation =>
        AggregateWithin(InTable(Slice(rows, p, t), RealmCount), InstallationCount, p, t);
      case MarkDone =>
    }
  }

  /** No statement of the job touches a logged row: undo and aggregation remove and add derived rows only. */
  lemma WorkKeepsLoggedRow(c: Config, r: Run, k: Key)
    requires ValidConfig(c) && Inv(c, r) && IsLoggedKey(c, k)
    ensures k in Work(c, r).db.rows <==> k in r.db.rows
    ensures k in r.db.rows ==> Work(c, r).db.rows[k] == r.db.rows[k]
  {
    assert ValidStat(c, k.property);
    if r.job.Undoing? && r.job.tables != [] {
      var whole := UndoTables(c, r.job.p);
      assert r.job.tables[0] == whole[|whole| - |r.job.tables|];
    } else if r.job.Filling? {
      var p, t, rows := r.job.p, r.job.endTime, r.db.rows;
      match r.job.stage
      case MarkStarted =>
      case Pull =>
        PullIsBase(c, r);
        CompleteWithin(c, p, t);
      case ToRealm =>
        AggregateWithin(InTable(Slice(rows, p, t), c.stats(p).output), RealmCount, p, t);
      case ToInstallation =>
        AggregateWithin(InTable(Slice(rows, p, t), RealmCount), InstallationCount, p, t);
      case MarkDone =>
    }
  }

  lemma WorkKeepsSystemInv(c: Config, s: System)
    requires ValidConfig(c) && SystemInv(c, s)
    ensures SystemInv(c, Next(c, s, Execute))
  {
    WorkKeepsInv(c, s.run);
    WorkKeepsHomes(c, s.run);
    forall k | IsLoggedKey(c, k)
      ensures k in Work(c, s.run).db.rows <==> k in s.run.db.rows
      ensures ValueAt(Work(c, s.run).db.rows, k) == ValueAt(s.run.db.rows, k)
    {
      WorkKeepsLoggedRow(c, s.run, k);
    }
    forall e | e in s.pending
      ensures LogKey(c, e) in Work(c, s.run).db.rows
    {
      WorkKeepsLoggedRow(c, s.run, LogKey(c, e));
    }
  }

  /** A change of one logged row leaves every pulled slice and every derived row alone. */
  lemma LoggedWriteKeepsInv(c: Config, r: Run, k: Key, cell: Cell)
    requires ValidConfig(c) && Inv(c, r) && IsLoggedKey(c, k)
    ensures Inv(c, SetRows(r, r.db.rows[k := cell]))
  {
    var w := SetRows(r, r.db.rows[k := cell]);
    assert ValidStat(c, k.property);
    forall q, u | !IsLogged(c, q)
      ensures SliceOk(c, w, q, u)
    {
      assert SliceOk(c, r, q, u);
      SameRows(Slice(w.db.rows, q, u), Slice(r.db.rows, q, u));
    }
    forall d | d in w.db.rows && IsDerivedKey(c, d)
      ensures DerivedOk(c, w, d)
    {
      assert d != k;
      assert DerivedOk(c, r, d);
    }
  }

  lemma LoggedSumAppend(c: Config, entries: seq<LogEntry>, e: LogEntry, k: Key)
    ensures LoggedSum(c, entries + [e], k) == LoggedSum(c, entries, k) + if LogKey(c, e) == k then e.amount else 0
    ensures HasEntry(c, entries + [e], k) <==> HasEntry(c, entries, k) || LogKey(c, e) == k
  {
    var more := entries + [e];
    assert more[..|more| - 1] == entries;
    assert more[|more| - 1] == e;
    if HasEntry(c, entries, k) {
      var i :| 0 <= i < |entries| && LogKey(c, entries[i]) == k;
      assert more[i] == entries[i];
    }
    if HasEntry(c, more, k) && LogKey(c, e) != k {
      var i :| 0 <= i < |more| && LogKey(c, more[i]) == k;
      assert entries[i] == more[i];
    }
  }

  lemma WithoutMultiset<T>(s: seq<T>, i: nat)
    requires i < |s|
    ensures multiset(s) == multiset(Without(s, i)) + multiset{s[i]}
  {
    assert s == s[..i] + [s[i]] + s[i + 1..];
  }

  lemma AppliedEntry(c: Config, rows: Rows, applied: seq<LogEntry>, e: LogEntry, cell: Cell)
    requires LoggedRowsOk(c, rows, applied)
    requires cell.value == ValueAt(rows, LogKey(c, e)) + e.amount
    ensures LoggedRowsOk(c, rows[LogKey(c, e) := cell], applied + [e])
  {
    var k, after := LogKey(c, e), rows[LogKey(c, e) := cell];
    forall j | IsLoggedKey(c, j)
      ensures j in after <==> HasEntry(c, applied + [e], j)
      ensures ValueAt(after, j) == LoggedSum(c, applied + [e], j)
    {
      LoggedSumAppend(c, applied, e, j);
    }
  }

  lemma BeginKeepsSystemInv(c: Config, s: System, e: LogEntry)
    requires ValidConfig(c) && SystemInv(c, s)
    ensures SystemInv(c, Begin(c, s, e))
  {
    var k := LogKey(c, e);
    if e.amount != 0 && IsLogged(c, e.property) && k !in s.run.db.rows {
      LoggedWriteKeepsInv(c, s.run, k, Cell(e.realm, e.amount));
      AppliedEntry(c, s.run.db.rows, s.applied, e, Cell(e.realm, e.amount));
    }
  }

  lemma FinishKeepsSystemInv(c: Config, s: System, i: nat)
    requires ValidConfig(c) && SystemInv(c, s) && i < |s.pending|
    ensures SystemInv(c, Finish(c, s, i))
  {
    var e, k := s.pending[i], LogKey(c, s.pending[i]);
    assert e in s.pending;
    var cell := s.run.db.rows[k].(value := s.run.db.rows[k].value + e.amount);
    LoggedWriteKeepsInv(c, s.run, k, cell);
    AppliedEntry(c, s.run.db.rows, s.applied, e, cell);
    WithoutMultiset(s.pending, i);
  }

  lemma AbandonKeepsSystemInv(c: Config, s: System, i: nat)
    requires ValidConfig(c) && SystemInv(c, s)
    ensures SystemInv(c, Next(c, s, AbandonLog(i)))
  {
    if i < |s.pending| {
      WithoutMultiset(s.pending, i);
    }
  }

  lemma NextKeepsInv(c: Config, s: System, a: Action)
    requires ValidConfig(c) && SystemInv(c, s)
    ensures SystemInv(c, Next(c, s, a))
  {
    match a
    case StartJob(p, fillTo) =>
      if s.run.job.Idle? {
        StartKeepsInv(c, s.run, p, fillTo);
      }
    case Execute => WorkKeepsSystemInv(c, s);
    case Crash => CrashKeepsInv(c, s.run);
    case BeginLog(e) => BeginKeepsSystemInv(c, s, e);
    case FinishLog(i) =>
      if i < |s.pending| {
        FinishKeepsSystemInv(c, s, i);
      }
    case AbandonLog(i) =>
      AbandonKeepsSystemInv(c, s, i);
  }

  // ----- Theorems over every history -----

  lemma {:induction false} EveryHistory(c: Config, history: seq<Action>)
    requires ValidConfig(c)
    ensures SystemInv(c, After(c, history))
  {
    if history != [] {
      EveryHistory(c, history[..|history| - 1]);
      NextKeepsInv(c, After(c, history[..|history| - 1]), history[|history| - 1]);
    }
  }

  /** No pull and no aggregation ever violates a uniqueness constraint. */
  lemma NoInsertCollides(c: Config, history: seq<Action>)
    requires ValidConfig(c)
    ensures !After(c, history).run.collided
  {
    EveryHistory(c, history);
  }

  /**
   * The crash invariant. Up to the last successful fill every grid time holds exactly one complete fill; a started time
   * holds a part of one; there is nothing anywhere else.
   */
  lemma CrashInvariant(c: Config, history: seq<Action>, p: Property, t: int)
    requires ValidConfig(c) && !IsLogged(c, p)
    ensures var db := After(c, history).run.db;
            var filled := p in db.fills && OnGrid(c, p, t) && t <= LastFill(c, db.fills, p);
            var started := p in db.fills && db.fills[p] == FillState(t, Started);
            && (filled ==> Slice(db.rows, p, t) == Complete(c, p, t))
            && (started ==> !filled && Submap(Slice(db.rows, p, t), Complete(c, p, t)))
            && (!filled && !started ==> Slice(db.rows, p, t) == map[])
  {
    EveryHistory(c, history);
    var r := After(c, history).run;
    assert SliceOk(c, r, p, t);
    if IsFilling(r.job, p, t) {
      StagesAreParts(c, p, t, r.job.stage);
    }
  }

  /** The entries a history begins: those for a logged statistic that add something. */
  function Begun(c: Config, history: seq<Action>): seq<LogEntry> {
    if history == [] then []
    else
      Begun(c, history[..|history| - 1]) +
      match history[|history| - 1]
      case BeginLog(e) => if e.amount != 0 && IsLogged(c, e.property) then [e] else []
      case _ => []
  }

  lemma {:induction false} IssuedIsBegun(c: Config, history: seq<Action>)
    ensures After(c, history).issued == Begun(c, history)
  {
    if history != [] {
      IssuedIsBegun(c, history[..|history| - 1]);
    }
  }

  /**
   * Logged statistics lose nothing. Through crashes, undos and aggregations every logged row is the total of the
   * applied entries of its bucket, and every entry begun is applied, still pending, or died with its process.
   */
  lemma LoggedRowsAreSums(c: Config, history: seq<Action>, k: Key)
    requires ValidConfig(c) && IsLoggedKey(c, k)
    ensures var s := After(c, history);
            && (k in s.run.db.rows <==> HasEntry(c, s.applied, k))
            && ValueAt(s.run.db.rows, k) == LoggedSum(c, s.applied, k)
            && multiset(Begun(c, history)) == multiset(s.applied) + multiset(s.pending) + multiset(s.abandoned)
  {
    EveryHistory(c, history);
    IssuedIsBegun(c, history);
  }

  /** The bucket of an entry is the one boundary whose interval contains its event. */
  lemma OneBucket(c: Config, e: LogEntry, b: int)
    ensures LogKey(c, e).endTime == b <==> b % Step(c, e.property) == 0 && b - Step(c, e.property) < e.eventTime <= b
  {
    CeilingUnique(e.eventTime, Step(c, e.property), b);
  }

  /** Whatever the job does next, each logged row is the same afterwards. */
  lemma JobSparesLoggedRows(c: Config, history: seq<Action>, k: Key)
    requires ValidConfig(c) && IsLoggedKey(c, k)
    ensures var before, after := After(c, history).run.db.rows, After(c, history + [Execute]).run.db.rows;
            (k in before <==> k in after) && (k in before ==> after[k] == before[k])
  {
    EveryHistory(c, history);
    WorkKeepsLoggedRow(c, After(c, history).run, k);
    assert (history + [Execute])[..|history|] == history;
  }
}
