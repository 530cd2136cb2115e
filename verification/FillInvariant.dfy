/** Every statement of a fill job keeps the invariant of FillEngine, and so no insert ever collides. */
module FillInvariant {
  import opened Times
  import opened CountTables
  import opened FillEngine

  // ----- The grid -----

  lemma EpochOnBoundary(c: Config, p: Property)
    requires ValidConfig(c)
    ensures c.epoch % Step(c, p) == 0
  {
    CoarserBoundary(c.epoch, DAY, Step(c, p));
  }

  lemma NextOnGrid(c: Config, p: Property, t: int)
    requires t % Step(c, p) == 0
    ensures (t + Step(c, p)) % Step(c, p) == 0 && (t - Step(c, p)) % Step(c, p) == 0
  {
    SumOfMultiples(t, Step(c, p), Step(c, p));
  }

  lemma NoGridBetween(c: Config, p: Property, t: int, u: int)
    requires t % Step(c, p) == 0 && u % Step(c, p) == 0
    ensures u < t ==> u <= t - Step(c, p)
    ensures u > t - Step(c, p) ==> u >= t
  {
    if t - Step(c, p) < u < t {
      BoundariesApart(t, u, Step(c, p));
    }
  }

  // ----- Rows of one fill -----

  lemma CompleteWithin(c: Config, p: Property, t: int)
    requires ValidConfig(c)
    ensures Within(Base(c, p, t), p, t) && Within(WithRealm(c, p, Base(c, p, t)), p, t) &&
        Within(Complete(c, p, t), p, t)
    ensures forall k :: k in Base(c, p, t) ==> k.table == c.stats(p).output
  {
    assert ValidStat(c, p);
    var base := Base(c, p, t);
    AggregateWithin(base, RealmCount, p, t);
    var r := WithRealm(c, p, base);
    AggregateWithin(InTable(r, RealmCount), InstallationCount, p, t);
  }

  // ----- Entering the loop -----

  lemma {:induction false} ClampOk(c: Config, fills: map<Property, FillState>, deps: seq<Property>, fillTo: int)
    ensures Clamp(c, fills, deps, fillTo).None? <==> exists d :: d in deps && d !in fills
    ensures var target := Clamp(c, fills, deps, fillTo);
            target.Some? ==>
              && target.value <= fillTo
              && (forall d :: d in deps ==> d in fills && target.value <= LastFill(c, fills, d))
              && (target.value == fillTo || exists d ::
                  d in deps && d in fills && target.value == LastFill(c, fills, d))
  {
    if deps != [] && deps[0] in fills {
      var last := LastFill(c, fills, deps[0]);
      ClampOk(c, fills, deps[1..], if last < fillTo then last else fillTo);
      forall d | d in deps
        ensures d == deps[0] || d in deps[1..]
      {
      }
    }
  }

  lemma EnterOk(c: Config, r: Run, p: Property, fillTo: int)
    requires ValidConfig(c) && FillsOk(c, r.db.fills)
    requires p in r.db.fills && r.db.fills[p].status == Done
    requires r.job == Enter(c, r.db.fills, p, fillTo)
    ensures JobOk(c, r)
  {
    ClampOk(c, r.db.fills, Dependencies(c, p), fillTo);
    NextOnGrid(c, p, r.db.fills[p].endTime);
  }

  lemma LoopOk(c: Config, r: Run, p: Property, target: int, t: int)
    requires ValidConfig(c) && FillsOk(c, r.db.fills)
    requires p in r.db.fills && r.db.fills[p] == FillState(t, Done)
    requires forall d :: d in Dependencies(c, p) ==> d in r.db.fills && target <= LastFill(c, r.db.fills, d)
    requires r.job == Loop(p, target, t + Step(c, p))
    ensures JobOk(c, r)
  {
    NextOnGrid(c, p, t);
  }

  lemma NotItsOwnDependency(c: Config, p: Property)
    requires ValidConfig(c)
    ensures p !in Dependencies(c, p)
  {
    assert ValidStat(c, p);
  }

  // ----- Settling a fill state -----

  lemma SettleFills(c: Config, fills: map<Property, FillState>, p: Property, x: int)
    requires ValidConfig(c) && FillsOk(c, fills) && DepsOk(c, fills)
    requires x >= c.epoch && x % Step(c, p) == 0
    requires p in fills ==> LastFill(c, fills, p) <= x
    requires x == c.epoch || forall d :: d in Dependencies(c, p) ==> d in fills && x <= LastFill(c, fills, d)
    ensures FillsOk(c, fills[p := FillState(x, Done)])
    ensures DepsOk(c, fills[p := FillState(x, Done)])
  {
    var after := fills[p := FillState(x, Done)];
    forall q, d | d in Dependencies(c, q)
      ensures DepOk(c, after, q, d)
    {
      assert DepOk(c, fills, q, d);
      NotItsOwnDependency(c, q);
    }
  }

  lemma UndoneRows(c: Config, r: Run, w: Run)
    requires ValidConfig(c) && Inv(c, r) && r.job.Undoing? && r.job.tables == []
    requires w.db == Db(r.db.rows, r.db.fills[r.job.p := FillState(r.job.endTime - Step(c, r.job.p), Done)])
    requires !w.job.Undoing? && (w.job.Filling? ==> w.job.p == r.job.p && w.job.stage == MarkStarted)
    ensures RowsOk(c, w)
  {
    forall q, u | !IsLogged(c, q)
      ensures SliceOk(c, w, q, u)
    {
      assert SliceOk(c, r, q, u);
    }
    forall k | k in w.db.rows && IsDerivedKey(c, k)
      ensures DerivedOk(c, w, k)
    {
      assert DerivedOk(c, r, k);
    }
  }

  lemma FinishedRows(c: Config, r: Run, w: Run)
    requires ValidConfig(c) && Inv(c, r) && r.job.Filling? && r.job.stage == MarkDone
    requires w.db == Db(r.db.rows, r.db.fills[r.job.p := FillState(r.job.endTime, Done)])
    requires !w.job.Undoing? && (w.job.Filling? ==> w.job.p == r.job.p && w.job.stage == MarkStarted)
    ensures RowsOk(c, w)
  {
    var p, t := r.job.p, r.job.endTime;
    forall q, u | !IsLogged(c, q)
      ensures SliceOk(c, w, q, u)
    {
      assert SliceOk(c, r, q, u);
      if q == p && u % Step(c, p) == 0 {
        NoGridBetween(c, p, t, u);
      }
    }
    forall k | k in w.db.rows && IsDerivedKey(c, k)
      ensures DerivedOk(c, w, k)
    {
      assert DerivedOk(c, r, k);
    }
  }

  // ----- One statement at a time -----

  lemma CreatingKeepsInv(c: Config, r: Run)
    requires ValidConfig(c) && Inv(c, r) && r.job.Creating?
    ensures Inv(c, Work(c, r))
  {
    var p, w := r.job.p, Work(c, r);
    EpochOnBoundary(c, p);
    SettleFills(c, r.db.fills, p, c.epoch);
    EnterOk(c, w, p, r.job.fillTo);
    forall q, u | !IsLogged(c, q)
      ensures SliceOk(c, w, q, u)
    {
      assert SliceOk(c, r, q, u);
    }
    forall k | k in w.db.rows && IsDerivedKey(c, k)
      ensures DerivedOk(c, w, k)
    {
      assert DerivedOk(c, r, k);
    }
  }

  lemma TailMember<T>(s: seq<T>, x: T)
    requires x in s && x != s[0]
    ensures x in s[1..]
  {
  }

  lemma DeletingRows(c: Config, r: Run)
    requires ValidConfig(c) && Inv(c, r) && r.job.Undoing? && r.job.tables != []
    ensures RowsOk(c, Work(c, r))
  {
    var p, t, tables, w := r.job.p, r.job.endTime, r.job.tables, Work(c, r);
    forall q, u | !IsLogged(c, q)
      ensures SliceOk(c, w, q, u)
    {
      assert SliceOk(c, r, q, u);
      if q == p && u == t {
        DeleteSlice(r.db.rows, tables[0], p, t);
        forall k | k in Slice(w.db.rows, p, t)
          ensures k.table in tables[1..]
        {
          TailMember(tables, k.table);
        }
      } else {
        DeleteOtherSlice(r.db.rows, tables[0], p, t, q, u);
      }
    }
    forall k | k in w.db.rows && IsDerivedKey(c, k)
      ensures DerivedOk(c, w, k)
    {
      assert DerivedOk(c, r, k);
      if IsUndoing(r.job, k.property, k.endTime) {
        TailMember(tables, k.table);
      }
    }
  }

  lemma DeletingJob(c: Config, r: Run, w: Run)
    requires JobOk(c, r) && r.job.Undoing? && r.job.tables != []
    requires w.job == r.job.(tables := r.job.tables[1..]) && w.db.fills == r.db.fills
    ensures JobOk(c, w)
  {
    var whole := UndoTables(c, r.job.p);
    assert w.job.tables == whole[|whole| - |r.job.tables| + 1..];
  }

  lemma DeletingKeepsInv(c: Config, r: Run)
    requires ValidConfig(c) && Inv(c, r) && r.job.Undoing? && r.job.tables != []
    ensures Inv(c, Work(c, r))
  {
    DeletingRows(c, r);
    DeletingJob(c, r, Work(c, r));
  }

  lemma UndoneKeepsInv(c: Config, r: Run)
    requires ValidConfig(c) && Inv(c, r) && r.job.Undoing? && r.job.tables == []
    ensures Inv(c, Work(c, r))
  {
    var p, t, w := r.job.p, r.job.endTime, Work(c, r);
    NextOnGrid(c, p, t);
    EpochOnBoundary(c, p);
    NoGridBetween(c, p, t, c.epoch);
    SettleFills(c, r.db.fills, p, t - Step(c, p));
    EnterOk(c, w, p, r.job.fillTo);
    UndoneRows(c, r, w);
  }

  lemma MarkingFills(c: Config, fills: map<Property, FillState>, p: Property, t: int)
    requires ValidConfig(c) && FillsOk(c, fills) && DepsOk(c, fills) && OnGrid(c, p, t)
    requires p in fills && fills[p] == FillState(t - Step(c, p), Done)
    requires forall d :: d in Dependencies(c, p) ==> d in fills && t <= LastFill(c, fills, d)
    ensures FillsOk(c, fills[p := FillState(t, Started)]) && DepsOk(c, fills[p := FillState(t, Started)])
  {
    var after := fills[p := FillState(t, Started)];
    forall q, d | d in Dependencies(c, q)
      ensures DepOk(c, after, q, d)
    {
      assert DepOk(c, fills, q, d);
      NotItsOwnDependency(c, q);
    }
  }

  lemma StartingRows(c: Config, r: Run)
    requires ValidConfig(c) && Inv(c, r) && r.job.Filling? && r.job.stage == MarkStarted
    ensures RowsOk(c, Work(c, r))
  {
    var w := Work(c, r);
    forall q, u | !IsLogged(c, q)
      ensures SliceOk(c, w, q, u)
    {
      assert SliceOk(c, r, q, u);
    }
    forall k | k in w.db.rows && IsDerivedKey(c, k)
      ensures DerivedOk(c, w, k)
    {
      assert DerivedOk(c, r, k);
    }
  }

  lemma StartingKeepsInv(c: Config, r: Run)
    requires ValidConfig(c) && Inv(c, r) && r.job.Filling? && r.job.stage == MarkStarted
    ensures Inv(c, Work(c, r))
  {
    MarkingFills(c, r.db.fills, r.job.p, r.job.endTime);
    StartingRows(c, r);
    assert ValidStat(c, r.job.p);
  }

  lemma FinishingKeepsInv(c: Config, r: Run)
    requires ValidConfig(c) && Inv(c, r) && r.job.Filling? && r.job.stage == MarkDone
    ensures Inv(c, Work(c, r))
  {
    var p, t, w := r.job.p, r.job.endTime, Work(c, r);
    SettleFills(c, r.db.fills, p, t);
    NotItsOwnDependency(c, p);
    LoopOk(c, w, p, r.job.target, t);
    FinishedRows(c, r, w);
  }

  lemma InsertKeepsInv(c: Config, r: Run, added: Rows, next: Stage)
    requires ValidConfig(c) && Inv(c, r) && r.job.Filling? && r.job.stage != MarkStarted
    requires Within(added, r.job.p, r.job.endTime) && added.Keys !! Slice(r.db.rows, r.job.p, r.job.endTime).Keys
    requires StageExists(c, r.job.p, next) && next != MarkStarted
    requires !IsLogged(c, r.job.p) ==>
               Slice(r.db.rows, r.job.p, r.job.endTime) + added == StageRows(c, r.job.p, r.job.endTime, next)
    requires IsLogged(c, r.job.p) ==>
               next == MarkDone || (r.job.stage == ToRealm && next == ToInstallation && forall k :: k in added ==>
                   k.table == RealmCount)
    ensures Inv(c, Insert(r, added, false, r.job.(stage := next)))
  {
    var p, t, w := r.job.p, r.job.endTime, Insert(r, added, false, r.job.(stage := next));
    forall k | k in added
      ensures k !in r.db.rows
    {
      assert k !in Slice(r.db.rows, p, t);
    }
    forall q, u | !IsLogged(c, q)
      ensures SliceOk(c, w, q, u)
    {
      assert SliceOk(c, r, q, u);
      InsertSlice(r.db.rows, added, p, t, q, u);
    }
    forall k | k in w.db.rows && IsDerivedKey(c, k)
      ensures DerivedOk(c, w, k)
    {
      if k in r.db.rows {
        assert DerivedOk(c, r, k);
      }
    }
  }

  /** The join of a dependent statistic sees complete dependency rows. */
  lemma DependenciesComplete(c: Config, r: Run)
    requires ValidConfig(c) && Inv(c, r) && r.job.Filling?
    ensures forall d :: d in Dependencies(c, r.job.p) ==>
              && !IsLogged(c, d)
              && OnGrid(c, d, r.job.endTime) && r.job.endTime <= LastFill(c, r.db.fills, d)
              && Slice(r.db.rows, d, r.job.endTime) == Complete(c, d, r.job.endTime)
  {
    var p, t := r.job.p, r.job.endTime;
    forall d | d in Dependencies(c, p)
      ensures !IsLogged(c, d) && OnGrid(c, d, t) && t <= LastFill(c, r.db.fills, d)
      ensures Slice(r.db.rows, d, t) == Complete(c, d, t)
    {
      assert ValidStat(c, p);
      CoarserBoundary(t, Step(c, p), Step(c, d));
      assert SliceOk(c, r, d, t);
    }
  }

  lemma PullOfComplete(c: Config, rows: Rows, p: Property, t: int)
    requires ValidConfig(c) && !IsLogged(c, p)
    requires forall d :: d in Dependencies(c, p) ==> Slice(rows, d, t) == Complete(c, d, t)
    ensures PullBatch(c, rows, p, t) == Batch(Base(c, p, t), false)
  {
    var stat := c.stats(p);
    assert ValidStat(c, p);
    if stat.collector.Dependent? {
      var deps := stat.collector.dependencies;
      forall i | 0 <= i < |deps|
        ensures DependencySlices(rows, deps, t)[i] == DependencyFills(c, deps, t)[i]
      {
        assert deps[i] in Dependencies(c, p);
      }
      assert DependencySlices(rows, deps, t) == DependencyFills(c, deps, t);
    }
  }

  lemma PullIsBase(c: Config, r: Run)
    requires ValidConfig(c) && Inv(c, r) && r.job.Filling? && r.job.stage == Pull
    ensures PullBatch(c, r.db.rows, r.job.p, r.job.endTime) == Batch(Base(c, r.job.p, r.job.endTime), false)
  {
    DependenciesComplete(c, r);
    PullOfComplete(c, r.db.rows, r.job.p, r.job.endTime);
  }

  lemma PullSlice(c: Config, r: Run)
    requires ValidConfig(c) && Inv(c, r) && r.job.Filling? && r.job.stage == Pull
    ensures Slice(r.db.rows, r.job.p, r.job.endTime) == map[]
    ensures map[] + Base(c, r.job.p, r.job.endTime) == StageRows(c, r.job.p, r.job.endTime, StageAfterPull(c, r.job.p))
  {
    assert SliceOk(c, r, r.job.p, r.job.endTime);
    assert map[] + Base(c, r.job.p, r.job.endTime) == Base(c, r.job.p, r.job.endTime);
  }

  lemma PullKeepsInv(c: Config, r: Run)
    requires ValidConfig(c) && Inv(c, r) && r.job.Filling? && r.job.stage == Pull
    ensures Inv(c, Work(c, r))
  {
    var base := Base(c, r.job.p, r.job.endTime);
    PullIsBase(c, r);
    PullSlice(c, r);
    CompleteWithin(c, r.job.p, r.job.endTime);
    InsertKeepsInv(c, r, base, StageAfterPull(c, r.job.p));
  }

  lemma NoRealmRowsYet(c: Config, r: Run)
    requires ValidConfig(c) && Inv(c, r) && r.job.Filling? && r.job.stage == ToRealm
    ensures forall k :: k in Slice(r.db.rows, r.job.p, r.job.endTime) ==> k.table != RealmCount
  {
    var p, t := r.job.p, r.job.endTime;
    CompleteWithin(c, p, t);
    assert SliceOk(c, r, p, t) || IsLogged(c, p);
    forall k | k in Slice(r.db.rows, p, t)
      ensures k.table != RealmCount
    {
      assert IsDerivedKey(c, k) ==> DerivedOk(c, r, k);
    }
  }

  lemma NoInstallationRowsYet(c: Config, r: Run)
    requires ValidConfig(c) && Inv(c, r) && r.job.Filling? && r.job.stage == ToInstallation
    ensures forall k :: k in Slice(r.db.rows, r.job.p, r.job.endTime) ==> k.table != InstallationCount
  {
    var p, t := r.job.p, r.job.endTime;
    assert ValidStat(c, p);
    CompleteWithin(c, p, t);
    assert SliceOk(c, r, p, t) || IsLogged(c, p);
    forall k | k in Slice(r.db.rows, p, t)
      ensures k.table != InstallationCount
    {
      assert IsDerivedKey(c, k) ==> DerivedOk(c, r, k);
    }
  }

  lemma RealmSumsOfBase(c: Config, rows: Rows, p: Property, t: int)
    requires ValidConfig(c) && Slice(rows, p, t) == Base(c, p, t)
    ensures RealmSums(c, rows, p, t) == Aggregate(Base(c, p, t), RealmCount)
  {
    CompleteWithin(c, p, t);
    SameRows(InTable(Slice(rows, p, t), c.stats(p).output), Base(c, p, t));
  }

  lemma RealmSumsFit(c: Config, r: Run)
    requires ValidConfig(c) && Inv(c, r) && r.job.Filling? && r.job.stage == ToRealm
    ensures var p, t, rows := r.job.p, r.job.endTime, r.db.rows;
            var added := RealmSums(c, rows, p, t);
            && Within(added, p, t) && added.Keys !! Slice(rows, p, t).Keys &&
                (forall k :: k in added ==> k.table == RealmCount)
            && (!IsLogged(c, p) ==> Slice(rows, p, t) + added == StageRows(c, p, t, ToInstallation))
  {
    var p, t, rows := r.job.p, r.job.endTime, r.db.rows;
    AggregateWithin(InTable(Slice(rows, p, t), c.stats(p).output), RealmCount, p, t);
    NoRealmRowsYet(c, r);
    if !IsLogged(c, p) {
      assert SliceOk(c, r, p, t);
      RealmSumsOfBase(c, rows, p, t);
    }
  }

  lemma ToRealmKeepsInv(c: Config, r: Run)
    requires ValidConfig(c) && Inv(c, r) && r.job.Filling? && r.job.stage == ToRealm
    ensures Inv(c, Work(c, r))
  {
    RealmSumsFit(c, r);
    InsertKeepsInv(c, r, RealmSums(c, r.db.rows, r.job.p, r.job.endTime), ToInstallation);
  }

  lemma ToInstallationKeepsInv(c: Config, r: Run)
    requires ValidConfig(c) && Inv(c, r) && r.job.Filling? && r.job.stage == ToInstallation
    ensures Inv(c, Work(c, r))
  {
    var p, t, rows := r.job.p, r.job.endTime, r.db.rows;
    var source := InTable(Slice(rows, p, t), RealmCount);
    AggregateWithin(source, InstallationCount, p, t);
    NoInstallationRowsYet(c, r);
    assert !IsLogged(c, p) ==> SliceOk(c, r, p, t);
    InsertKeepsInv(c, r, Aggregate(source, InstallationCount), MarkDone);
  }

  /** Whatever statement comes next, the invariant survives it; in particular the statement never collides. */
  lemma WorkKeepsInv(c: Config, r: Run)
    requires ValidConfig(c) && Inv(c, r)
    ensures Inv(c, Work(c, r))
  {
    match r.job
    case Idle =>
    case Creating(_, _) => CreatingKeepsInv(c, r);
    case Undoing(_, _, _, tables) =>
      if tables != [] {
        DeletingKeepsInv(c, r);
      } else {
        UndoneKeepsInv(c, r);
      }
    case Filling(_, _, _, stage) =>
      match stage {
        case MarkStarted => StartingKeepsInv(c, r);
        case Pull => PullKeepsInv(c, r);
        case ToRealm => ToRealmKeepsInv(c, r);
        case ToInstallation => ToInstallationKeepsInv(c, r);
        case MarkDone => FinishingKeepsInv(c, r);
      }
  }

  lemma StartKeepsInv(c: Config, r: Run, p: Property, fillTo: int)
    requires ValidConfig(c) && Inv(c, r) && r.job.Idle?
    ensures Inv(c, r.(job := Start(c, r.db.fills, p, fillTo)))
  {
    StartOk(c, r, p, fillTo);
    StartKeepsRows(c, r, r.(job := Start(c, r.db.fills, p, fillTo)));
  }

  lemma StartOk(c: Config, r: Run, p: Property, fillTo: int)
    requires ValidConfig(c) && FillsOk(c, r.db.fills)
    ensures var w := r.(job := Start(c, r.db.fills, p, fillTo));
            && JobOk(c, w) && (w.job.Filling? ==> w.job.stage == MarkStarted)
            && (w.job.Undoing? ==> w.job.tables == UndoTables(c, w.job.p))
  {
    if fillTo % HOUR == 0 && p in r.db.fills && r.db.fills[p].status == Done {
      EnterOk(c, r.(job := Start(c, r.db.fills, p, fillTo)), p, fillTo);
    }
  }

  lemma StartKeepsRows(c: Config, r: Run, w: Run)
    requires RowsOk(c, r) && r.job.Idle? && w.db == r.db
    requires JobOk(c, w) && (w.job.Filling? ==> w.job.stage == MarkStarted)
    requires w.job.Undoing? ==> w.job.tables == UndoTables(c, w.job.p)
    ensures RowsOk(c, w)
  {
    forall q, u | !IsLogged(c, q)
      ensures SliceOk(c, w, q, u)
    {
      assert SliceOk(c, r, q, u);
      SliceSurvivesStart(c, r, w, q, u);
    }
    forall k | k in w.db.rows && IsDerivedKey(c, k)
      ensures DerivedOk(c, w, k)
    {
      assert DerivedOk(c, r, k);
    }
  }

  lemma SliceSurvivesStart(c: Config, r: Run, w: Run, q: Property, u: int)
    requires !IsLogged(c, q) && r.job.Idle? && SliceOk(c, r, q, u)
    requires w.db == r.db && (w.job.Filling? ==> w.job.stage == MarkStarted && JobOk(c, w))
    requires w.job.Undoing? ==> w.job.tables == UndoTables(c, w.job.p)
    ensures SliceOk(c, w, q, u)
  {
    EveryTable();
  }

  lemma EveryTable()
    ensures forall table: Table :: table in [UserCount, StreamCount, RealmCount, InstallationCount]
  {
    forall table: Table
      ensures table in [UserCount, StreamCount, RealmCount, InstallationCount]
    {
      match table
      case UserCount =>
      case StreamCount =>
      case RealmCount =>
      case InstallationCount =>
    }
  }

  /** A crash forgets the job and nothing else. */
  lemma CrashKeepsInv(c: Config, r: Run)
    requires ValidConfig(c) && Inv(c, r)
    ensures Inv(c, r.(job := Idle))
  {
    var w := r.(job := Idle);
    forall q, u | !IsLogged(c, q)
      ensures SliceOk(c, w, q, u)
    {
      assert SliceOk(c, r, q, u);
      if IsFilling(r.job, q, u) {
        StagesAreParts(c, q, u, r.job.stage);
      }
    }
    forall k | k in w.db.rows && IsDerivedKey(c, k)
      ensures DerivedOk(c, w, k)
    {
      assert DerivedOk(c, r, k);
    }
  }

  lemma StagesAreParts(c: Config, p: Property, t: int, stage: Stage)
    requires ValidConfig(c) && StageExists(c, p, stage)
    ensures Submap(StageRows(c, p, t, stage), Complete(c, p, t))
  {
    CompleteWithin(c, p, t);
    assert ValidStat(c, p);
  }
}
