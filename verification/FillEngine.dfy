/**
 * The crash-recovering fill job of analytics/lib/counts.py as a machine that executes one database statement at a time.
 * The job may die between any two statements; live traffic increments the logged statistics in between.
 */
module FillEngine {
  import opened Options
  import opened Times
  import opened CountTables

  /** The rows one pull statement tries to insert; `duplicateKey` when two of them share a key. */
  datatype Batch = Batch(rows: Rows, duplicateKey: bool)

  /**
   * `CountStat`, `LoggingCountStat` and `DependentCountStat`, told apart by where their rows come from.
   * A dependent statistic joins the rows its dependencies have at the time being filled, one slice for each.
   */
  datatype Collector =
    | Pulled(query: (int, int) -> Batch)
    | Logged
    | Dependent(join: (int, seq<Rows>) -> Batch, dependencies: seq<Property>)

  datatype CountStat = CountStat(output: Table, frequency: Frequency, interval: int, collector: Collector)

  /** The installation epoch and the declarations in `COUNT_STATS`. Source data is fixed inside the queries. */
  datatype Config = Config(epoch: int, stats: Property -> CountStat)

  function Step(c: Config, p: Property): (step: int)
    ensures step > 0
  {
    TimeIncrement(c.stats(p).frequency)
  }

  predicate IsLogged(c: Config, p: Property) {
    c.stats(p).collector.Logged?
  }

  predicate SumsToRealm(c: Config, p: Property) {
    c.stats(p).output == UserCount || c.stats(p).output == StreamCount
  }

  function Dependencies(c: Config, p: Property): seq<Property> {
    if c.stats(p).collector.Dependent? then c.stats(p).collector.dependencies else []
  }

  predicate ValidBatch(c: Config, p: Property, t: int, batch: Batch) {
    && !batch.duplicateKey
    && Within(batch.rows, p, t)
    && forall k :: k in batch.rows ==> k.table == c.stats(p).output
  }

  ghost predicate ValidStat(c: Config, p: Property) {
    && c.stats(p).output != InstallationCount
    && match c.stats(p).collector {
      case Pulled(query) => forall a, b :: ValidBatch(c, p, b, query(a, b))
      case Logged => true
      case Dependent(join, deps) =>
        && (forall d :: d in deps ==> c.stats(d).collector.Pulled? && Step(c, p) % Step(c, d) == 0)
        && (forall t, slices :: |slices| == |deps| ==> ValidBatch(c, p, t, join(t, slices)))
    }
  }

  /** What the engine asks of the declarations. CountStats.Declarations shows that those of `COUNT_STATS` provide it. */
  ghost predicate ValidConfig(c: Config) {
    && c.epoch % DAY == 0
    && forall p :: ValidStat(c, p)
  }

  // ----- One complete fill -----

  /** A pull's rows with their realm sums, and then with their installation sums. */
  ghost function WithRealm(c: Config, p: Property, base: Rows): Rows {
    if SumsToRealm(c, p) then base + Aggregate(base, RealmCount) else base
  }

  ghost function WithInstallation(rows: Rows): Rows {
    rows + Aggregate(InTable(rows, RealmCount), InstallationCount)
  }

  ghost function PulledFill(c: Config, p: Property, t: int): Rows {
    match c.stats(p).collector
    case Pulled(query) => WithInstallation(WithRealm(c, p, query(t - c.stats(p).interval, t).rows))
    case _ => map[]
  }

  ghost function DependencyFills(c: Config, deps: seq<Property>, t: int): seq<Rows> {
    seq(|deps|, i requires 0 <= i < |deps| => PulledFill(c, deps[i], t))
  }

  ghost function Base(c: Config, p: Property, t: int): Rows {
    match c.stats(p).collector
    case Pulled(query) => query(t - c.stats(p).interval, t).rows
    case Logged => map[]
    case Dependent(join, deps) => join(t, DependencyFills(c, deps, t)).rows
  }

  /** Exactly the rows that one undisturbed fill of statistic `p` leaves at time `t`. */
  ghost function Complete(c: Config, p: Property, t: int): Rows {
    WithInstallation(WithRealm(c, p, Base(c, p, t)))
  }

  // ----- The machine -----

  datatype Status = Done | Started
  datatype FillState = FillState(endTime: int, status: Status)
  datatype Db = Db(rows: Rows, fills: map<Property, FillState>)

  datatype Stage = MarkStarted | Pull | ToRealm | ToInstallation | MarkDone

  /** Where `process_count_stat` stands: the statement it executes next. */
  datatype Job =
    | Idle
    | Creating(p: Property, fillTo: int)
    | Undoing(p: Property, fillTo: int, endTime: int, tables: seq<Table>)
    | Filling(p: Property, target: int, endTime: int, stage: Stage)

  /** `collided` records an IntegrityError, which ends the job. */
  datatype Run = Run(db: Db, job: Job, collided: bool)

  /** `CountStat.last_successful_fill`, given that a FillState exists. */
  function LastFill(c: Config, fills: map<Property, FillState>, p: Property): int
    requires p in fills
  {
    if fills[p].status == Done then fills[p].endTime else fills[p].endTime - Step(c, p)
  }

  /** `fill_to_time` lowered to the dependencies' last fills; None when a dependency never ran. */
  function Clamp(c: Config, fills: map<Property, FillState>, deps: seq<Property>, fillTo: int): Option<int> {
    if deps == [] then Some(fillTo)
    else if deps[0] !in fills then None
    else
      var last := LastFill(c, fills, deps[0]);
      Clamp(c, fills, deps[1..], if last < fillTo then last else fillTo)
  }

  /** The tables `do_delete_counts_at_hour` clears, in its order. */
  function UndoTables(c: Config, p: Property): seq<Table> {
    if !IsLogged(c, p) then [UserCount, StreamCount, RealmCount, InstallationCount]
    else if SumsToRealm(c, p) then [InstallationCount, RealmCount]
    else [InstallationCount]
  }

  function StageAfterPull(c: Config, p: Property): Stage {
    if SumsToRealm(c, p) then ToRealm else ToInstallation
  }

  function StageAfterMark(c: Config, p: Property): Stage {
    if IsLogged(c, p) then StageAfterPull(c, p) else Pull
  }

  /** The head of the fill loop. */
  function Loop(p: Property, target: int, t: int): Job {
    if t <= target then Filling(p, target, t, MarkStarted) else Idle
  }

  /** From a settled fill state into the loop, past the dependency check. */
  function Enter(c: Config, fills: map<Property, FillState>, p: Property, fillTo: int): Job
    requires p in fills
  {
    match Clamp(c, fills, Dependencies(c, p), fillTo)
    case None => Idle
    case Some(target) => Loop(p, target, fills[p].endTime + Step(c, p))
  }

  /** The call of `process_count_stat`, up to its first write. A time off the hour is refused. */
  function Start(c: Config, fills: map<Property, FillState>, p: Property, fillTo: int): Job {
    if fillTo % HOUR != 0 then Idle
    else if p !in fills then Creating(p, fillTo)
    else if fills[p].status == Started then Undoing(p, fillTo, fills[p].endTime, UndoTables(c, p))
    else Enter(c, fills, p, fillTo)
  }

  function Insert(r: Run, added: Rows, duplicateKey: bool, next: Job): Run {
    if duplicateKey || !(added.Keys !! r.db.rows.Keys) then r.(job := Idle, collided := true)
    else r.(db := r.db.(rows := r.db.rows + added), job := next)
  }

  function DependencySlices(rows: Rows, deps: seq<Property>, t: int): seq<Rows> {
    seq(|deps|, i requires 0 <= i < |deps| => Slice(rows, deps[i], t))
  }

  function PullBatch(c: Config, rows: Rows, p: Property, t: int): Batch {
    match c.stats(p).collector
    case Pulled(query) => query(t - c.stats(p).interval, t)
    case Logged => Batch(map[], false)
    case Dependent(join, deps) => join(t, DependencySlices(rows, deps, t))
  }

  ghost function RealmSums(c: Config, rows: Rows, p: Property, t: int): Rows {
    Aggregate(InTable(Slice(rows, p, t), c.stats(p).output), RealmCount)
  }

  ghost function InstallationSums(rows: Rows, p: Property, t: int): Rows {
    Aggregate(InTable(Slice(rows, p, t), RealmCount), InstallationCount)
  }

  /** Execute one database statement. */
  ghost function Work(c: Config, r: Run): Run {
    var rows, fills := r.db.rows, r.db.fills;
    match r.job
    case Idle => r
    case Creating(p, fillTo) =>
      var saved := fills[p := FillState(c.epoch, Done)];
      r.(db := Db(rows, saved), job := Enter(c, saved, p, fillTo))
    case Undoing(p, fillTo, t, tables) =>
      if tables != [] then
        r.(db := Db(DeleteAt(rows, tables[0], p, t), fills), job := Undoing(p, fillTo, t, tables[1..]))
      else
        var saved := fills[p := FillState(t - Step(c, p), Done)];
        r.(db := Db(rows, saved), job := Enter(c, saved, p, fillTo))
    case Filling(p, target, t, stage) =>
      match stage {
        case MarkStarted =>
          r.(db := Db(rows, fills[p := FillState(t, Started)]), job := Filling(p, target, t, StageAfterMark(c, p)))
        case Pull =>
          var batch := PullBatch(c, rows, p, t);
          Insert(r, batch.rows, batch.duplicateKey, Filling(p, target, t, StageAfterPull(c, p)))
        case ToRealm =>
          Insert(r, RealmSums(c, rows, p, t), false, Filling(p, target, t, ToInstallation))
        case ToInstallation =>
          Insert(r, InstallationSums(rows, p, t), false, Filling(p, target, t, MarkDone))
        case MarkDone =>
          r.(db := Db(rows, fills[p := FillState(t, Done)]), job := Loop(p, target, t + Step(c, p)))
      }
  }

  ghost function IterateWork(c: Config, r: Run, n: nat): Run {
    if n == 0 then r else Work(c, IterateWork(c, r, n - 1))
  }

  // ----- The invariant -----

  predicate OnGrid(c: Config, p: Property, t: int) {
    t > c.epoch && t % Step(c, p) == 0
  }

  ghost predicate FillsOk(c: Config, fills: map<Property, FillState>) {
    forall p :: p in fills ==>
      && fills[p].endTime % Step(c, p) == 0
      && fills[p].endTime >= c.epoch
      && (fills[p].status == Started ==> fills[p].endTime > c.epoch)
  }

  predicate DepOk(c: Config, fills: map<Property, FillState>, p: Property, d: Property) {
    p in fills && fills[p] != FillState(c.epoch, Done) ==> d in fills && fills[p].endTime <= LastFill(c, fills, d)
  }

  ghost predicate DepsOk(c: Config, fills: map<Property, FillState>) {
    forall p, d :: d in Dependencies(c, p) ==> DepOk(c, fills, p, d)
  }

  predicate IsSuffix(tables: seq<Table>, whole: seq<Table>) {
    |tables| <= |whole| && tables == whole[|whole| - |tables|..]
  }

  predicate StageExists(c: Config, p: Property, stage: Stage) {
    (stage == Pull ==> !IsLogged(c, p)) && (stage == ToRealm ==> SumsToRealm(c, p))
  }

  ghost predicate JobOk(c: Config, r: Run) {
    var fills := r.db.fills;
    match r.job
    case Idle => true
    case Creating(p, _) => p !in fills
    case Undoing(p, _, t, tables) =>
      && p in fills && fills[p] == FillState(t, Started)
      && IsSuffix(tables, UndoTables(c, p))
    case Filling(p, target, t, stage) =>
      && t <= target && OnGrid(c, p, t) && StageExists(c, p, stage)
      && p in fills
      && fills[p] == (if stage == MarkStarted then FillState(t - Step(c, p), Done) else FillState(t, Started))
      && (forall d :: d in Dependencies(c, p) ==> d in fills && target <= LastFill(c, fills, d))
  }

  /** The rows present at `t` when a fill is about to execute the statement of `stage`. */
  ghost function StageRows(c: Config, p: Property, t: int, stage: Stage): Rows {
    match stage
    case MarkStarted => map[]
    case Pull => map[]
    case ToRealm => Base(c, p, t)
    case ToInstallation => WithRealm(c, p, Base(c, p, t))
    case MarkDone => Complete(c, p, t)
  }

  predicate IsFilling(job: Job, p: Property, t: int) {
    job.Filling? && job.p == p && job.endTime == t
  }

  predicate IsUndoing(job: Job, p: Property, t: int) {
    job.Undoing? && job.p == p && job.endTime == t
  }

  /** A pulled or dependent statistic at time `t`: complete, partial or empty, as its fill state says. */
  ghost predicate SliceOk(c: Config, r: Run, p: Property, t: int) {
    var s, fills := Slice(r.db.rows, p, t), r.db.fills;
    if p !in fills then s == map[]
    else if OnGrid(c, p, t) && t <= LastFill(c, fills, p) then s == Complete(c, p, t)
    else if fills[p] == FillState(t, Started) then
      if IsFilling(r.job, p, t) then s == StageRows(c, p, t, r.job.stage)
      else
        && Submap(s, Complete(c, p, t))
        && (IsUndoing(r.job, p, t) ==> forall k :: k in s ==> k.table in r.job.tables)
    else s == map[]
  }

  /** A derived row of a logged statistic may exist only where a fill put it and no undo removed it. */
  ghost predicate DerivedOk(c: Config, r: Run, k: Key) {
    var p, t, fills := k.property, k.endTime, r.db.fills;
    && p in fills
    && if OnGrid(c, p, t) && t <= LastFill(c, fills, p) then true
       else
         && fills[p] == FillState(t, Started)
         && (IsUndoing(r.job, p, t) ==> k.table in r.job.tables)
         && (IsFilling(r.job, p, t) ==>
               r.job.stage == MarkDone || (r.job.stage == ToInstallation && k.table == RealmCount))
  }

  predicate IsDerivedKey(c: Config, k: Key) {
    IsLogged(c, k.property) && k.table in UndoTables(c, k.property)
  }

  ghost predicate RowsOk(c: Config, r: Run) {
    && (forall p, t :: !IsLogged(c, p) ==> SliceOk(c, r, p, t))
    && (forall k :: k in r.db.rows && IsDerivedKey(c, k) ==> DerivedOk(c, r, k))
  }

  ghost predicate Inv(c: Config, r: Run) {
    !r.collided && FillsOk(c, r.db.fills) && DepsOk(c, r.db.fills) && JobOk(c, r) && RowsOk(c, r)
  }
}
