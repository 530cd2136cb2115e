/**
 * What the summary rows of a filled time hold, whatever happened before and since: by realm and by installation, for
 * each subgroup, the total of the rows of the statistic's own table.
 */
module SummaryRows {
  import opened SetSums
  import opened CountTables
  import opened FillEngine
  import opened FillInvariant
  import opened FillRuns
  import opened FillTheorems

  function WithSubgroup(base: Rows, s: Subgroup): set<Key> {
    set k | k in base && k.subgroup == s
  }

  function InRealm(base: Rows, realm: int, s: Subgroup): set<Key> {
    set k | k in base && base[k].realm == realm && k.subgroup == s
  }

  /** For each subgroup that occurs in `base` one installation row, with the total of the rows it occurs in. */
  ghost predicate InstallationSummed(rows: Rows, base: Rows, p: Property, t: int) {
    forall s ::
      && (Key(InstallationCount, 0, p, s, t) in rows <==> WithSubgroup(base, s) != {})
      && ValueAt(rows, Key(InstallationCount, 0, p, s, t)) == Sum(WithSubgroup(base, s), Values(base))
  }

  /** The same for each realm. */
  ghost predicate RealmsSummed(rows: Rows, base: Rows, p: Property, t: int) {
    forall realm, s ::
      && (Key(RealmCount, realm, p, s, t) in rows <==> InRealm(base, realm, s) != {})
      && ValueAt(rows, Key(RealmCount, realm, p, s, t)) == Sum(InRealm(base, realm, s), Values(base))
  }

  /** The rows of the statistic's own table. */
  function OwnRows(c: Config, rows: Rows, p: Property, t: int): Rows {
    InTable(Slice(rows, p, t), c.stats(p).output)
  }

  // ----- One statement -----

  /** The realm rows, unless the statistic is kept by realm, are those of a `GROUP BY` over `base`. */
  ghost predicate RealmsFrom(c: Config, rows: Rows, base: Rows, p: Property, t: int) {
    c.stats(p).output != RealmCount ==> InTable(Slice(rows, p, t), RealmCount) == Aggregate(base, RealmCount)
  }

  ghost predicate InstallationFrom(rows: Rows, base: Rows, p: Property, t: int) {
    InTable(Slice(rows, p, t), InstallationCount) == Aggregate(base, InstallationCount)
  }

  lemma RealmsFromAreSums(c: Config, rows: Rows, base: Rows, p: Property, t: int)
    requires RealmsFrom(c, rows, base, p, t) && Within(base, p, t) && c.stats(p).output != RealmCount
    ensures RealmsSummed(rows, base, p, t)
  {
    SumsAreGroupedBy(base, RealmCount);
    forall realm, s
      ensures Key(RealmCount, realm, p, s, t) in rows <==> InRealm(base, realm, s) != {}
      ensures ValueAt(rows, Key(RealmCount, realm, p, s, t)) == Sum(InRealm(base, realm, s), Values(base))
    {
      var g := Key(RealmCount, realm, p, s, t);
      assert GroupedWith(base, RealmCount, g) == InRealm(base, realm, s);
      assert g in rows <==> g in InTable(Slice(rows, p, t), RealmCount);
    }
  }

  lemma InstallationFromIsSum(rows: Rows, base: Rows, p: Property, t: int)
    requires InstallationFrom(rows, base, p, t) && Within(base, p, t)
    ensures InstallationSummed(rows, base, p, t)
  {
    SumsAreGroupedBy(base, InstallationCount);
    forall s
      ensures Key(InstallationCount, 0, p, s, t) in rows <==> WithSubgroup(base, s) != {}
      ensures ValueAt(rows, Key(InstallationCount, 0, p, s, t)) == Sum(WithSubgroup(base, s), Values(base))
    {
      var g := Key(InstallationCount, 0, p, s, t);
      assert GroupedWith(base, InstallationCount, g) == WithSubgroup(base, s);
      assert g in rows <==> g in InTable(Slice(rows, p, t), InstallationCount);
    }
  }

  /** A pulled or dependent statistic: the sums are those of the rows stored now. */
  lemma FilledFrom(c: Config, history: seq<Action>, p: Property, t: int)
    requires ValidConfig(c) && !IsLogged(c, p) && FilledAt(c, After(c, history).run.db, p, t)
    ensures var rows := After(c, history).run.db.rows;
            RealmsFrom(c, rows, OwnRows(c, rows, p, t), p, t) && InstallationFrom(rows, OwnRows(c, rows, p, t), p, t)
  {
    CrashInvariant(c, history, p, t);
    CompleteIsDirectSum(c, p, t);
    BasePart(c, p, t);
    assert ValidStat(c, p);
  }

  // ----- Logged statistics -----

  /** The job has executed the realm statement at (`p`, `t`), and not yet the installation statement. */
  predicate RealmsDone(job: Job, p: Property, t: int) {
    IsFilling(job, p, t) && job.stage == ToInstallation
  }

  /** Both statements have been executed, and no undo has begun since. */
  predicate BothDone(c: Config, r: Run, p: Property, t: int) {
    FilledAt(c, r.db, p, t) || (IsFilling(r.job, p, t) && r.job.stage == MarkDone)
  }

  predicate AtSumming(job: Job, p: Property, t: int) {
    IsFilling(job, p, t) && (job.stage == ToRealm || job.stage == ToInstallation)
  }

  /** The summary rows of (`p`, `t`) are the same. */
  predicate SameSummaries(c: Config, a: Rows, b: Rows, p: Property, t: int) {
    && (c.stats(p).output != RealmCount ==>
          InTable(Slice(a, p, t), RealmCount) == InTable(Slice(b, p, t), RealmCount))
    && InTable(Slice(a, p, t), InstallationCount) == InTable(Slice(b, p, t), InstallationCount)
  }

  lemma SameKeysSameSummaries(c: Config, a: Rows, b: Rows, p: Property, t: int)
    requires forall k: Key :: k.property == p && k.endTime == t && k.table != c.stats(p).output ==>
               (k in a <==> k in b) && (k in a && k in b ==> a[k] == b[k])
    requires c.stats(p).output != InstallationCount
    ensures SameSummaries(c, a, b, p, t)
  {
    if c.stats(p).output != RealmCount {
      SameRows(InTable(Slice(a, p, t), RealmCount), InTable(Slice(b, p, t), RealmCount));
    }
    SameRows(InTable(Slice(a, p, t), InstallationCount), InTable(Slice(b, p, t), InstallationCount));
  }

  lemma WorkSparesSummaries(c: Config, r: Run, p: Property, t: int)
    requires ValidConfig(c) && Inv(c, r) && IsLogged(c, p)
    requires !AtSumming(r.job, p, t) && !IsUndoing(r.job, p, t)
    ensures SameSummaries(c, Work(c, r).db.rows, r.db.rows, p, t)
  {
    assert ValidStat(c, p);
    if r.job.Filling? {
      FillingSparesSummaries(c, r, p, t);
    }
    SameKeysSameSummaries(c, Work(c, r).db.rows, r.db.rows, p, t);
  }

  lemma FillingSparesSummaries(c: Config, r: Run, p: Property, t: int)
    requires ValidConfig(c) && Inv(c, r) && IsLogged(c, p) && r.job.Filling? && !AtSumming(r.job, p, t)
    ensures forall k: Key :: k.property == p && k.endTime == t && k.table != c.stats(p).output ==>
              (k in Work(c, r).db.rows <==> k in r.db.rows) &&
              (k in r.db.rows ==> Work(c, r).db.rows[k] == r.db.rows[k])
  {
    var q, u, rows := r.job.p, r.job.endTime, r.db.rows;
    match r.job.stage
    case MarkStarted =>
    case Pull =>
      PullIsBase(c, r);
      CompleteWithin(c, q, u);
    case ToRealm =>
      AggregateWithin(InTable(Slice(rows, q, u), c.stats(q).output), RealmCount, q, u);
    case ToInstallation =>
      AggregateWithin(InTable(Slice(rows, q, u), RealmCount), InstallationCount, q, u);
    case MarkDone =>
  }

  lemma LogSparesSummaries(c: Config, s: System, a: Action, p: Property, t: int)
    requires ValidConfig(c) && !a.Execute?
    ensures SameSummaries(c, Next(c, s, a).run.db.rows, s.run.db.rows, p, t)
  {
    assert ValidStat(c, p);
    SameKeysSameSummaries(c, Next(c, s, a).run.db.rows, s.run.db.rows, p, t);
  }

  lemma SettlingFilledBefore(c: Config, r: Run, p: Property, t: int)
    requires ValidConfig(c) && Inv(c, r) && !r.job.Filling? && FilledAt(c, Work(c, r).db, p, t)
    ensures FilledAt(c, r.db, p, t) && !IsUndoing(r.job, p, t)
  {
  }

  lemma FillingFilledBefore(c: Config, r: Run, p: Property, t: int)
    requires ValidConfig(c) && Inv(c, r) && r.job.Filling? && FilledAt(c, Work(c, r).db, p, t)
    ensures FilledAt(c, r.db, p, t) || (IsFilling(r.job, p, t) && r.job.stage == MarkDone)
  {
    if r.job.p == p {
      NoGridBetween(c, p, r.job.endTime, t);
    }
  }

  lemma MarkingDoneBefore(c: Config, r: Run, p: Property, t: int)
    requires ValidConfig(c) && Inv(c, r) && IsFilling(Work(c, r).job, p, t) && Work(c, r).job.stage == MarkDone
    ensures AtSumming(r.job, p, t)
  {
  }

  /** A step other than the two statements finds done what it leaves done. */
  lemma DoneBefore(c: Config, s: System, a: Action, p: Property, t: int)
    requires ValidConfig(c) && SystemInv(c, s) && !(a.Execute? && AtSumming(s.run.job, p, t))
    requires BothDone(c, Next(c, s, a).run, p, t)
    ensures BothDone(c, s.run, p, t) && (a.Execute? ==> !IsUndoing(s.run.job, p, t))
  {
    if a.Execute? {
      NextExecute(c, s);
      if !FilledAt(c, Work(c, s.run).db, p, t) {
        MarkingDoneBefore(c, s.run, p, t);
      } else if s.run.job.Filling? {
        FillingFilledBefore(c, s.run, p, t);
      } else {
        SettlingFilledBefore(c, s.run, p, t);
      }
    } else {
      OthersSpareJob(c, s, a, p, t);
    }
  }

  lemma OthersSpareJob(c: Config, s: System, a: Action, p: Property, t: int)
    requires !a.Execute?
    ensures Next(c, s, a).run.db.fills == s.run.db.fills
    ensures var job := Next(c, s, a).run.job; IsFilling(job, p, t) && job.stage != MarkStarted ==> job == s.run.job
  {
  }

  lemma RealmsDoneBefore(c: Config, s: System, a: Action, p: Property, t: int)
    requires ValidConfig(c) && SystemInv(c, s) && IsLogged(c, p) && c.stats(p).output != RealmCount
    requires !(a.Execute? && AtSumming(s.run.job, p, t))
    requires RealmsDone(Next(c, s, a).run.job, p, t)
    ensures RealmsDone(s.run.job, p, t) && !a.Execute?
  {
    if a.Execute? {
      NextExecute(c, s);
      assert ValidStat(c, p);
    }
  }

  lemma ToRealmFrom(c: Config, r: Run, w: Run, p: Property, t: int)
    requires ValidConfig(c) && Inv(c, r) && AtSumming(r.job, p, t) && w == Work(c, r) && !w.collided
    requires RealmsDone(w.job, p, t)
    ensures RealmsFrom(c, w.db.rows, OwnRows(c, r.db.rows, p, t), p, t)
  {
    if r.job.stage == ToRealm {
      ToRealmRows(c, r);
    }
  }

  lemma ToInstallationFrom(c: Config, r: Run, w: Run, base: Rows, p: Property, t: int)
    requires ValidConfig(c) && Inv(c, r) && AtSumming(r.job, p, t) && w == Work(c, r) && !w.collided
    requires r.job.stage == ToInstallation && RealmsFrom(c, r.db.rows, base, p, t)
    requires c.stats(p).output == RealmCount ==> base == OwnRows(c, r.db.rows, p, t)
    ensures RealmsFrom(c, w.db.rows, base, p, t) && InstallationFrom(w.db.rows, base, p, t)
  {
    ToInstallationRows(c, r);
    TwoLevelsAreOne(base);
    var sums := InstallationSums(r.db.rows, p, t);
    AggregateWithin(InTable(Slice(r.db.rows, p, t), RealmCount), InstallationCount, p, t);
    SameRows(InTable(Slice(w.db.rows, p, t), RealmCount), InTable(Slice(r.db.rows, p, t), RealmCount));
  }

  lemma NotYetDone(c: Config, r: Run, w: Run, p: Property, t: int)
    requires ValidConfig(c) && Inv(c, r) && AtSumming(r.job, p, t) && w == Work(c, r) && BothDone(c, w, p, t)
    ensures r.job.stage == ToInstallation
  {
  }

  /** The moment at which the fill of (`p`, `t`) was at one of its summing statements. */
  ghost predicate Summing(c: Config, history: seq<Action>, n: nat, p: Property, t: int) {
    n <= |history| && AtSumming(After(c, history[..n]).run.job, p, t)
  }

  ghost function OwnThen(c: Config, history: seq<Action>, n: nat, p: Property, t: int): Rows
    requires n <= |history|
  {
    OwnRows(c, After(c, history[..n]).run.db.rows, p, t)
  }

  lemma {:induction false} RealmsSince(c: Config, history: seq<Action>, p: Property, t: int) returns (n: nat)
    requires ValidConfig(c) && IsLogged(c, p) && c.stats(p).output != RealmCount
    requires RealmsDone(After(c, history).run.job, p, t)
    ensures Summing(c, history, n, p, t)
    ensures RealmsFrom(c, After(c, history).run.db.rows, OwnThen(c, history, n, p, t), p, t)
  {
    var front, a := history[..|history| - 1], history[|history| - 1];
    var s := After(c, front);
    EveryHistory(c, front);
    NoInsertCollides(c, history);
    if a.Execute? && AtSumming(s.run.job, p, t) {
      n := |front|;
      NextExecute(c, s);
      ToRealmFrom(c, s.run, Work(c, s.run), p, t);
    } else {
      RealmsDoneBefore(c, s, a, p, t);
      n := RealmsSince(c, front, p, t);
      LogSparesSummaries(c, s, a, p, t);
      assert front[..n] == history[..n];
    }
  }

  ghost predicate BothFrom(c: Config, rows: Rows, base: Rows, p: Property, t: int) {
    RealmsFrom(c, rows, base, p, t) && InstallationFrom(rows, base, p, t)
  }

  lemma SameBothFrom(c: Config, a: Rows, b: Rows, base: Rows, p: Property, t: int)
    requires SameSummaries(c, a, b, p, t) && BothFrom(c, b, base, p, t)
    ensures BothFrom(c, a, base, p, t)
  {
  }

  /** The installation statement finds the realm rows of some moment before, or the statistic's own. */
  lemma SummedNow(c: Config, front: seq<Action>, p: Property, t: int) returns (n: nat)
    requires ValidConfig(c) && IsLogged(c, p) && AtSumming(After(c, front).run.job, p, t)
    requires var w := Work(c, After(c, front).run); !w.collided && BothDone(c, w, p, t)
    ensures Summing(c, front, n, p, t)
    ensures BothFrom(c, Work(c, After(c, front).run).db.rows, OwnThen(c, front, n, p, t), p, t)
  {
    var r := After(c, front).run;
    EveryHistory(c, front);
    NotYetDone(c, r, Work(c, r), p, t);
    if c.stats(p).output == RealmCount {
      n := |front|;
      assert front[..n] == front;
    } else {
      n := RealmsSince(c, front, p, t);
    }
    ToInstallationFrom(c, r, Work(c, r), OwnThen(c, front, n, p, t), p, t);
  }

  lemma {:induction false} SummedSince(c: Config, history: seq<Action>, p: Property, t: int) returns (n: nat)
    requires ValidConfig(c) && IsLogged(c, p) && BothDone(c, After(c, history).run, p, t)
    ensures Summing(c, history, n, p, t)
    ensures BothFrom(c, After(c, history).run.db.rows, OwnThen(c, history, n, p, t), p, t)
  {
    assert history != [];
    var front, a := history[..|history| - 1], history[|history| - 1];
    var s := After(c, front);
    EveryHistory(c, front);
    NoInsertCollides(c, history);
    if a.Execute? && AtSumming(s.run.job, p, t) {
      NextExecute(c, s);
      n := SummedNow(c, front, p, t);
    } else {
      DoneBefore(c, s, a, p, t);
      n := SummedSince(c, front, p, t);
      StepSparesSummaries(c, s, a, p, t);
      SameBothFrom(c, Next(c, s, a).run.db.rows, s.run.db.rows, OwnThen(c, front, n, p, t), p, t);
    }
    assert front[..n] == history[..n];
  }

  lemma StepSparesSummaries(c: Config, s: System, a: Action, p: Property, t: int)
    requires ValidConfig(c) && SystemInv(c, s) && IsLogged(c, p)
    requires a.Execute? ==> !AtSumming(s.run.job, p, t) && !IsUndoing(s.run.job, p, t)
    ensures SameSummaries(c, Next(c, s, a).run.db.rows, s.run.db.rows, p, t)
  {
    if a.Execute? {
      NextExecute(c, s);
      WorkSparesSummaries(c, s.run, p, t);
    } else {
      LogSparesSummaries(c, s, a, p, t);
    }
  }

  /**
   * After any history, the summary rows of a filled time are the totals by realm and by installation, for each
   * subgroup, of the rows in the statistic's own table: those stored now or, for a logged statistic, which may have
   * been incremented since, those stored when its fill summed them.
   */
  lemma StoredSummaries(c: Config, history: seq<Action>, p: Property, t: int) returns (n: nat)
    requires ValidConfig(c) && FilledAt(c, After(c, history).run.db, p, t)
    ensures if IsLogged(c, p) then Summing(c, history, n, p, t) else n == |history|
    ensures var rows, base := After(c, history).run.db.rows, OwnThen(c, history, n, p, t);
            InstallationSummed(rows, base, p, t) && (c.stats(p).output != RealmCount ==> RealmsSummed(rows, base, p, t))
  {
    if IsLogged(c, p) {
      n := SummedSince(c, history, p, t);
    } else {
      n := |history|;
      assert history[..n] == history;
      FilledFrom(c, history, p, t);
    }
    var rows, base := After(c, history).run.db.rows, OwnThen(c, history, n, p, t);
    InstallationFromIsSum(rows, base, p, t);
    if c.stats(p).output != RealmCount {
      RealmsFromAreSums(c, rows, base, p, t);
    }
  }
}
