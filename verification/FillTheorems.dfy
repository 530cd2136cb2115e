/** What a completed run guarantees, whatever crashes came before it. */
module FillTheorems {
  import opened Options
  import opened Times
  import opened CountTables
  import opened FillEngine
  import opened FillInvariant
  import opened FillRuns

  // ----- Where a run ends -----

  /** From the last settled fill, the last grid point not after the clamped time, or no move at all. */
  function Goal(c: Config, fills: map<Property, FillState>, p: Property, fillTo: int, last: int): int {
    match Clamp(c, fills, Dependencies(c, p), fillTo)
    case None => last
    case Some(target) => var b := Floor(target, Step(c, p)); if b < last then last else b
  }

  /** The fill `process_count_stat` resumes from. */
  function ResumePoint(c: Config, fills: map<Property, FillState>, p: Property): int {
    if p in fills then LastFill(c, fills, p) else c.epoch
  }

  /** The job works on `p` and will leave it DONE at `goal`. */
  ghost predicate Heading(c: Config, r: Run, p: Property, goal: int) {
    var fills := r.db.fills;
    match r.job
    case Idle => p in fills && fills[p] == FillState(goal, Done)
    case Creating(q, fillTo) => q == p && goal == Goal(c, fills, p, fillTo, c.epoch)
    case Undoing(q, fillTo, t, _) => q == p && goal == Goal(c, fills, p, fillTo, t - Step(c, p))
    case Filling(q, target, _, _) => q == p && goal == Floor(target, Step(c, p))
  }

  lemma {:induction false} ClampSameFills(c: Config, a: map<Property, FillState>, b: map<Property, FillState>,
                                          deps: seq<Property>, fillTo: int)
    requires forall d :: d in deps ==> (d in a <==> d in b) && (d in a ==> a[d] == b[d])
    ensures Clamp(c, a, deps, fillTo) == Clamp(c, b, deps, fillTo)
  {
    if deps != [] && deps[0] in a {
      var last := LastFill(c, a, deps[0]);
      ClampSameFills(c, a, b, deps[1..], if last < fillTo then last else fillTo);
    }
  }

  lemma LoopHeading(c: Config, r: Run, p: Property, target: int, t: int)
    requires r.job == Loop(p, target, t + Step(c, p))
    requires p in r.db.fills && r.db.fills[p] == FillState(t, Done) && t % Step(c, p) == 0
    ensures Heading(c, r, p, var b := Floor(target, Step(c, p)); if b < t then t else b)
  {
    NoGridBetween(c, p, t + Step(c, p), Floor(target, Step(c, p))) by {
      NextOnGrid(c, p, t);
    }
  }

  lemma EnterHeading(c: Config, r: Run, before: map<Property, FillState>, p: Property, fillTo: int, t: int)
    requires ValidConfig(c) && r.db.fills == before[p := FillState(t, Done)] && t % Step(c, p) == 0
    requires r.job == Enter(c, r.db.fills, p, fillTo)
    ensures Heading(c, r, p, Goal(c, before, p, fillTo, t))
  {
    NotItsOwnDependency(c, p);
    ClampSameFills(c, before, r.db.fills, Dependencies(c, p), fillTo);
    match Clamp(c, before, Dependencies(c, p), fillTo)
    case None =>
    case Some(target) => LoopHeading(c, r, p, target, t);
  }

  lemma CreatingKeepsHeading(c: Config, r: Run, p: Property, goal: int)
    requires ValidConfig(c) && r.job.Creating? && Heading(c, r, p, goal)
    ensures Heading(c, Work(c, r), p, goal)
  {
    EpochOnBoundary(c, p);
    EnterHeading(c, Work(c, r), r.db.fills, p, r.job.fillTo, c.epoch);
  }

  lemma UndoingKeepsHeading(c: Config, r: Run, p: Property, goal: int)
    requires ValidConfig(c) && r.job.Undoing? && Heading(c, r, p, goal) && r.job.endTime % Step(c, p) == 0
    ensures Heading(c, Work(c, r), p, goal)
  {
    if r.job.tables == [] {
      NextOnGrid(c, p, r.job.endTime);
      EnterHeading(c, Work(c, r), r.db.fills, p, r.job.fillTo, r.job.endTime - Step(c, p));
    }
  }

  lemma FillingKeepsHeading(c: Config, r: Run, p: Property, goal: int)
    requires r.job.Filling? && Heading(c, r, p, goal) && !Work(c, r).collided
    requires r.job.endTime <= r.job.target && r.job.endTime % Step(c, p) == 0
    ensures Heading(c, Work(c, r), p, goal)
  {
    if r.job.stage == MarkDone {
      LoopHeading(c, Work(c, r), p, r.job.target, r.job.endTime);
      NoGridBetween(c, p, r.job.endTime, Floor(r.job.target, Step(c, p)));
    }
  }

  lemma WorkKeepsHeading(c: Config, r: Run, p: Property, goal: int)
    requires ValidConfig(c) && Inv(c, r) && !Work(c, r).collided && Heading(c, r, p, goal)
    ensures Heading(c, Work(c, r), p, goal)
  {
    match r.job
    case Idle =>
    case Creating(_, _) => CreatingKeepsHeading(c, r, p, goal);
    case Undoing(_, _, _, _) => UndoingKeepsHeading(c, r, p, goal);
    case Filling(_, _, _, _) => FillingKeepsHeading(c, r, p, goal);
  }

  lemma StartHeading(c: Config, r: Run, p: Property, fillTo: int)
    requires ValidConfig(c) && Inv(c, r) && r.job.Idle? && fillTo % HOUR == 0
    ensures Heading(c, r.(job := Start(c, r.db.fills, p, fillTo)), p,
                    Goal(c, r.db.fills, p, fillTo, ResumePoint(c, r.db.fills, p)))
  {
    var fills := r.db.fills;
    if p in fills && fills[p].status == Done {
      assert fills == fills[p := FillState(fills[p].endTime, Done)];
      EnterHeading(c, r.(job := Start(c, fills, p, fillTo)), fills, p, fillTo, fills[p].endTime);
    }
  }

  // ----- Termination -----

  function Positive(x: int): nat {
    if x < 0 then 0 else x
  }

  /** The loop measure: every statement brings it down. */
  function Remaining(c: Config, job: Job): nat {
    match job
    case Idle => 0
    case Creating(p, fillTo) => 1 + 5 * Positive(fillTo - c.epoch)
    case Undoing(p, fillTo, t, tables) => 1 + |tables| + 5 * Positive(fillTo - (t - Step(c, p)))
    case Filling(_, target, t, stage) =>
      5 * Positive(target - t) +
      match stage {
        case MarkStarted => 5
        case Pull => 4
        case ToRealm => 3
        case ToInstallation => 2
        case MarkDone => 1
      }
  }

  lemma EnterRemaining(c: Config, fills: map<Property, FillState>, p: Property, fillTo: int)
    requires p in fills
    ensures Remaining(c, Enter(c, fills, p, fillTo)) <= 5 * Positive(fillTo - fills[p].endTime)
  {
    ClampOk(c, fills, Dependencies(c, p), fillTo);
  }

  lemma WorkTerminates(c: Config, r: Run)
    requires !r.job.Idle?
    ensures Remaining(c, Work(c, r).job) < Remaining(c, r.job)
  {
    match r.job
    case Creating(p, fillTo) => EnterRemaining(c, Work(c, r).db.fills, p, fillTo);
    case Undoing(p, fillTo, _, tables) =>
      if tables == [] {
        EnterRemaining(c, Work(c, r).db.fills, p, fillTo);
      }
    case Filling(_, _, _, _) =>
  }

  lemma HeadingGoesOn(c: Config, r: Run, p: Property, goal: int)
    requires ValidConfig(c) && Inv(c, r) && Heading(c, r, p, goal)
    ensures Heading(c, Work(c, r), p, goal)
  {
    WorkKeepsInv(c, r);
    WorkKeepsHeading(c, r, p, goal);
  }

  // ----- Histories that end in a completed run -----

  function Executes(n: nat): seq<Action> {
    seq(n, _ => Execute)
  }

  lemma AfterAppend(c: Config, history: seq<Action>, a: Action)
    ensures After(c, history + [a]) == Next(c, After(c, history), a)
  {
    assert (history + [a])[..|history|] == history;
  }

  lemma NextExecute(c: Config, s: System)
    ensures Next(c, s, Execute).run == Work(c, s.run)
  {
  }

  lemma {:induction false} AfterExecutes(c: Config, history: seq<Action>, n: nat)
    ensures After(c, history + Executes(n)).run == IterateWork(c, After(c, history).run, n)
  {
    if n == 0 {
      assert history + Executes(0) == history;
    } else {
      AfterExecutes(c, history, n - 1);
      assert history + Executes(n) == history + Executes(n - 1) + [Execute];
      AfterAppend(c, history + Executes(n - 1), Execute);
      NextExecute(c, After(c, history + Executes(n - 1)));
    }
  }

  predicate IsLogAction(a: Action) {
    a.BeginLog? || a.FinishLog? || a.AbandonLog?
  }

  /** The steps of one run: statements of the job, and increments that land before, between and after them. */
  predicate IsCourse(steps: seq<Action>) {
    forall a :: a in steps ==> a.Execute? || IsLogAction(a)
  }

  function Cost(a: Action): nat {
    if a.Execute? then 1 else 0
  }

  /** How many of them are statements of the job. */
  function Statements(steps: seq<Action>): nat {
    if steps == [] then 0 else Statements(steps[..|steps| - 1]) + Cost(steps[|steps| - 1])
  }

  /** A history, and then one run of `p`. If a job was at work the history ends with its crash. */
  function ThenRun(history: seq<Action>, p: Property, fillTo: int, steps: seq<Action>): seq<Action> {
    history + [StartJob(p, fillTo)] + steps
  }

  predicate SameFill(a: map<Property, FillState>, b: map<Property, FillState>, q: Property) {
    (q in a <==> q in b) && (q in a ==> a[q] == b[q])
  }

  lemma LogSparesJob(c: Config, s: System, a: Action)
    requires IsLogAction(a)
    ensures Next(c, s, a).run.job == s.run.job && Next(c, s, a).run.db.fills == s.run.db.fills
  {
  }

  lemma FillingSparesOthers(c: Config, r: Run, q: Property)
    requires r.job.Filling? && q != r.job.p
    ensures SameFill(Work(c, r).db.fills, r.db.fills, q)
  {
  }

  lemma WorkSparesOthers(c: Config, r: Run, p: Property, goal: int, q: Property)
    requires Heading(c, r, p, goal) && q != p
    ensures SameFill(Work(c, r).db.fills, r.db.fills, q)
  {
    if r.job.Filling? {
      FillingSparesOthers(c, r, q);
    }
  }

  /** The job works on `p`, will leave it DONE at `goal`, and has at most `left` statements to go. */
  ghost predicate Heads(c: Config, r: Run, p: Property, goal: int, left: int) {
    Heading(c, r, p, goal) && Remaining(c, r.job) <= Positive(left)
  }

  /** One step of the run of `p`: the goal stays, and a statement brings it nearer. */
  lemma CourseStep(c: Config, s: System, a: Action, p: Property, goal: int, left: int)
    requires ValidConfig(c) && SystemInv(c, s) && Heads(c, s.run, p, goal, left) && (a.Execute? || IsLogAction(a))
    ensures Heads(c, Next(c, s, a).run, p, goal, left - Cost(a))
  {
    if a.Execute? {
      NextExecute(c, s);
      HeadingGoesOn(c, s.run, p, goal);
      if !s.run.job.Idle? {
        WorkTerminates(c, s.run);
      }
    } else {
      LogSparesJob(c, s, a);
    }
  }

  lemma StepSparesOthers(c: Config, s: System, a: Action, p: Property, goal: int, q: Property)
    requires Heading(c, s.run, p, goal) && (a.Execute? || IsLogAction(a)) && q != p
    ensures SameFill(Next(c, s, a).run.db.fills, s.run.db.fills, q)
  {
    if a.Execute? {
      NextExecute(c, s);
      WorkSparesOthers(c, s.run, p, goal, q);
    } else {
      LogSparesJob(c, s, a);
    }
  }

  lemma {:induction false} CourseHeads(c: Config, started: seq<Action>, steps: seq<Action>, p: Property, goal: int,
                                       left: int)
    requires ValidConfig(c) && IsCourse(steps) && Heads(c, After(c, started).run, p, goal, left)
    ensures Heads(c, After(c, started + steps).run, p, goal, left - Statements(steps))
  {
    if steps == [] {
      assert started + steps == started;
    } else {
      var front, a := steps[..|steps| - 1], steps[|steps| - 1];
      assert a in steps;
      CourseHeads(c, started, front, p, goal, left);
      assert started + steps == started + front + [a];
      AfterAppend(c, started + front, a);
      EveryHistory(c, started + front);
      CourseStep(c, After(c, started + front), a, p, goal, left - Statements(front));
    }
  }

  lemma {:induction false} CourseSparesOthers(c: Config, started: seq<Action>, steps: seq<Action>, p: Property,
                                              goal: int, q: Property)
    requires ValidConfig(c) && IsCourse(steps) && Heading(c, After(c, started).run, p, goal) && q != p
    ensures SameFill(After(c, started + steps).run.db.fills, After(c, started).run.db.fills, q)
  {
    if steps == [] {
      assert started + steps == started;
    } else {
      var front, a := steps[..|steps| - 1], steps[|steps| - 1];
      assert a in steps;
      CourseSparesOthers(c, started, front, p, goal, q);
      CourseHeads(c, started, front, p, goal, Remaining(c, After(c, started).run.job));
      assert started + steps == started + front + [a];
      AfterAppend(c, started + front, a);
      StepSparesOthers(c, After(c, started + front), a, p, goal, q);
    }
  }

  lemma RunStarts(c: Config, history: seq<Action>, p: Property, fillTo: int)
    requires ValidConfig(c) && fillTo % HOUR == 0 && After(c, history).run.job.Idle?
    ensures var before, started := After(c, history).run.db.fills, After(c, history + [StartJob(p, fillTo)]).run;
            && Heads(c, started, p, Goal(c, before, p, fillTo, ResumePoint(c, before, p)),
                     Enough(c, history, p, fillTo))
            && started.db.fills == before
  {
    EveryHistory(c, history);
    StartHeading(c, After(c, history).run, p, fillTo);
    AfterAppend(c, history, StartJob(p, fillTo));
  }

  /** Enough statements for a run started after `history`. */
  ghost function Enough(c: Config, history: seq<Action>, p: Property, fillTo: int): nat {
    Remaining(c, Start(c, After(c, history).run.db.fills, p, fillTo))
  }

  lemma HeadsEnd(c: Config, r: Run, p: Property, goal: int, left: int)
    requires Heads(c, r, p, goal, left) && left <= 0
    ensures r.job.Idle? && p in r.db.fills && r.db.fills[p] == FillState(goal, Done)
  {
  }

  /**
   * A run that is not cut short ends, whatever increments land meanwhile, and leaves its statistic DONE at the last
   * grid point not after the clamped fill time, or where it was if it was already past that.
   */
  lemma CompletedRun(c: Config, history: seq<Action>, p: Property, fillTo: int, steps: seq<Action>)
    requires ValidConfig(c) && fillTo % HOUR == 0 && After(c, history).run.job.Idle?
    requires IsCourse(steps) && Statements(steps) >= Enough(c, history, p, fillTo)
    ensures var before := After(c, history).run.db.fills;
            var after := After(c, ThenRun(history, p, fillTo, steps)).run;
            && after.job.Idle?
            && p in after.db.fills
            && after.db.fills[p] == FillState(Goal(c, before, p, fillTo, ResumePoint(c, before, p)), Done)
  {
    var fills, enough := After(c, history).run.db.fills, Enough(c, history, p, fillTo);
    var goal := Goal(c, fills, p, fillTo, ResumePoint(c, fills, p));
    RunStarts(c, history, p, fillTo);
    CourseHeads(c, history + [StartJob(p, fillTo)], steps, p, goal, enough);
    HeadsEnd(c, After(c, ThenRun(history, p, fillTo, steps)).run, p, goal, enough - Statements(steps));
  }

  /** A run of one statistic, however far it gets and whatever lands meanwhile, leaves every other fill state alone. */
  lemma RunSparesOthers(c: Config, history: seq<Action>, p: Property, fillTo: int, steps: seq<Action>, q: Property)
    requires ValidConfig(c) && fillTo % HOUR == 0 && After(c, history).run.job.Idle? && IsCourse(steps) && q != p
    ensures SameFill(After(c, ThenRun(history, p, fillTo, steps)).run.db.fills, After(c, history).run.db.fills, q)
  {
    var fills := After(c, history).run.db.fills;
    RunStarts(c, history, p, fillTo);
    CourseSparesOthers(c, history + [StartJob(p, fillTo)], steps, p,
                       Goal(c, fills, p, fillTo, ResumePoint(c, fills, p)), q);
  }

  /** Two histories that leave a statistic DONE at the same time leave the same rows for it. */
  lemma RowsFollowFillState(c: Config, a: Run, b: Run, p: Property)
    requires ValidConfig(c) && Inv(c, a) && Inv(c, b) && !IsLogged(c, p)
    requires p in a.db.fills && p in b.db.fills && a.db.fills[p] == b.db.fills[p] && a.db.fills[p].status == Done
    ensures Of(a.db.rows, p) == Of(b.db.rows, p)
  {
    forall k: Key | k.property == p
      ensures k in a.db.rows <==> k in b.db.rows
      ensures k in a.db.rows ==> a.db.rows[k] == b.db.rows[k]
    {
      assert SliceOk(c, a, p, k.endTime) && SliceOk(c, b, p, k.endTime);
      assert Slice(a.db.rows, p, k.endTime) == Slice(b.db.rows, p, k.endTime);
      assert k in a.db.rows <==> k in Slice(a.db.rows, p, k.endTime);
      assert k in b.db.rows <==> k in Slice(b.db.rows, p, k.endTime);
    }
  }

  lemma HistoryIndependence(c: Config, a: seq<Action>, b: seq<Action>, p: Property)
    requires ValidConfig(c) && !IsLogged(c, p)
    requires p in After(c, a).run.db.fills && p in After(c, b).run.db.fills
    requires After(c, a).run.db.fills[p] == After(c, b).run.db.fills[p]
    requires After(c, a).run.db.fills[p].status == Done
    ensures Of(After(c, a).run.db.rows, p) == Of(After(c, b).run.db.rows, p)
  {
    EveryHistory(c, a);
    EveryHistory(c, b);
    RowsFollowFillState(c, After(c, a).run, After(c, b).run, p);
  }

  // ----- Runs in turn -----

  /** One run of one statistic. */
  datatype Turn = Turn(p: Property, steps: seq<Action>)

  function Turned(turns: seq<Turn>): seq<Property> {
    seq(|turns|, i requires 0 <= i < |turns| => turns[i].p)
  }

  /** After `history`, one run after the other, all to the same time. */
  function RunsInTurn(history: seq<Action>, turns: seq<Turn>, t: int): seq<Action> {
    if turns == [] then history
    else
      var last := turns[|turns| - 1];
      ThenRun(RunsInTurn(history, turns[..|turns| - 1], t), last.p, t, last.steps)
  }

  /** No run is cut short. */
  ghost predicate Unhurried(c: Config, history: seq<Action>, turns: seq<Turn>, t: int) {
    turns == [] ||
    var front, last := turns[..|turns| - 1], turns[|turns| - 1];
    && Unhurried(c, history, front, t)
    && IsCourse(last.steps) && Statements(last.steps) >= Enough(c, RunsInTurn(history, front, t), last.p, t)
  }

  /** No run needs more than five statements for each unit of time since the epoch, and those of one undo. */
  lemma EnoughBound(c: Config, history: seq<Action>, p: Property, t: int)
    requires ValidConfig(c)
    ensures Enough(c, history, p, t) <= 5 + 5 * Positive(t - c.epoch)
  {
    EveryHistory(c, history);
    var fills := After(c, history).run.db.fills;
    if p in fills {
      EpochOnBoundary(c, p);
      if fills[p].status == Started {
        BackAtLeastEpoch(c, p, fills[p].endTime);
      } else {
        EnterRemaining(c, fills, p, t);
      }
    }
  }

  lemma BackAtLeastEpoch(c: Config, p: Property, t: int)
    requires ValidConfig(c) && t > c.epoch && t % Step(c, p) == 0
    ensures t - Step(c, p) >= c.epoch
  {
    EpochOnBoundary(c, p);
    if t - c.epoch < Step(c, p) {
      BoundariesApart(t, c.epoch, Step(c, p));
    }
  }

  /** So that many statements are enough for any number of runs in turn. */
  lemma {:induction false} PlentyIsUnhurried(c: Config, history: seq<Action>, turns: seq<Turn>, t: int)
    requires ValidConfig(c)
    requires forall turn :: turn in turns ==>
        IsCourse(turn.steps) && Statements(turn.steps) >= 5 + 5 * Positive(t - c.epoch)
    ensures Unhurried(c, history, turns, t)
  {
    if turns != [] {
      var front, last := turns[..|turns| - 1], turns[|turns| - 1];
      assert last in turns;
      PlentyIsUnhurried(c, history, front, t);
      EnoughBound(c, RunsInTurn(history, front, t), last.p, t);
    }
  }

  lemma TurnsEndIdle(c: Config, history: seq<Action>, turns: seq<Turn>, t: int)
    requires ValidConfig(c) && t % HOUR == 0 && After(c, history).run.job.Idle? && Unhurried(c, history, turns, t)
    ensures After(c, RunsInTurn(history, turns, t)).run.job.Idle?
  {
    if turns != [] {
      var front, last := turns[..|turns| - 1], turns[|turns| - 1];
      TurnsEndIdle(c, history, front, t);
      CompletedRun(c, RunsInTurn(history, front, t), last.p, t, last.steps);
    }
  }

  /** The fill state a run in turn leaves its own statistic, and that it leaves the others. */
  lemma LastInTurn(c: Config, history: seq<Action>, turns: seq<Turn>, t: int, q: Property)
    requires ValidConfig(c) && t % HOUR == 0 && turns != [] && After(c, history).run.job.Idle? &&
        Unhurried(c, history, turns, t)
    ensures var before := After(c, RunsInTurn(history, turns[..|turns| - 1], t)).run.db.fills;
            var after := After(c, RunsInTurn(history, turns, t)).run.db.fills;
            if q == turns[|turns| - 1].p then
              q in after && after[q] == FillState(Goal(c, before, q, t, ResumePoint(c, before, q)), Done)
            else SameFill(after, before, q)
  {
    var front, last := turns[..|turns| - 1], turns[|turns| - 1];
    TurnsEndIdle(c, history, front, t);
    if q == last.p {
      CompletedRun(c, RunsInTurn(history, front, t), q, t, last.steps);
    } else {
      RunSparesOthers(c, RunsInTurn(history, front, t), last.p, t, last.steps, q);
    }
  }

  predicate IsDone(fills: map<Property, FillState>, p: Property) {
    p in fills && fills[p].status == Done
  }

  lemma LastIsDone(c: Config, history: seq<Action>, turns: seq<Turn>, t: int, q: Property)
    requires ValidConfig(c) && t % HOUR == 0 && turns != [] && After(c, history).run.job.Idle? &&
        Unhurried(c, history, turns, t)
    requires q != turns[|turns| - 1].p ==>
        IsDone(After(c, RunsInTurn(history, turns[..|turns| - 1], t)).run.db.fills, q)
    ensures IsDone(After(c, RunsInTurn(history, turns, t)).run.db.fills, q)
  {
    LastInTurn(c, history, turns, t, q);
  }

  /** Runs in turn leave each of their statistics DONE. */
  lemma {:induction false} RunsEndDone(c: Config, history: seq<Action>, turns: seq<Turn>, t: int, q: Property)
    requires ValidConfig(c) && t % HOUR == 0 && After(c, history).run.job.Idle? && Unhurried(c, history, turns, t)
    requires q in Turned(turns)
    ensures IsDone(After(c, RunsInTurn(history, turns, t)).run.db.fills, q)
  {
    var front, last := turns[..|turns| - 1], turns[|turns| - 1];
    if q != last.p {
      assert Turned(turns) == Turned(front) + [last.p];
      RunsEndDone(c, history, front, t, q);
    }
    LastIsDone(c, history, turns, t, q);
  }

  lemma GoalReached(c: Config, fills: map<Property, FillState>, p: Property, t: int)
    requires Clamp(c, fills, Dependencies(c, p), t) == Some(t) && t % Step(c, p) == 0 && ResumePoint(c, fills, p) <= t
    ensures Goal(c, fills, p, t, ResumePoint(c, fills, p)) == t
  {
    BoundariesApart(t, Floor(t, Step(c, p)), Step(c, p));
  }

  /** On an empty database pulled statistics reach the time they are run to. */
  lemma {:induction false} RunsReach(c: Config, turns: seq<Turn>, t: int, q: Property)
    requires ValidConfig(c) && t >= c.epoch && t % HOUR == 0 && Unhurried(c, [], turns, t)
    requires forall p :: p in Turned(turns) ==> c.stats(p).collector.Pulled? && t % Step(c, p) == 0
    ensures var fills := After(c, RunsInTurn([], turns, t)).run.db.fills;
            (q in fills <==> q in Turned(turns)) && (q in fills ==> fills[q] == FillState(t, Done))
  {
    if turns != [] {
      var front, last := turns[..|turns| - 1], turns[|turns| - 1];
      assert Turned(turns) == Turned(front) + [last.p];
      RunsReach(c, front, t, q);
      LastInTurn(c, [], turns, t, q);
      if q == last.p {
        GoalReached(c, After(c, RunsInTurn([], front, t)).run.db.fills, q, t);
      }
    }
  }

  lemma EmptyReaches(c: Config, p: Property, t: int, turns: seq<Turn>)
    requires ValidConfig(c) && !IsLogged(c, p) && t >= c.epoch && t % Step(c, p) == 0
    requires Turned(turns) == Dependencies(c, p) + [p] && Unhurried(c, [], turns, t)
    ensures var fills := After(c, RunsInTurn([], turns, t)).run.db.fills;
            p in fills && fills[p] == FillState(t, Done)
  {
    var deps, front := Dependencies(c, p), turns[..|turns| - 1];
    assert |turns| == |deps| + 1 && turns[|turns| - 1].p == Turned(turns)[|deps|];
    assert Turned(front) == Turned(turns)[..|deps|] == deps;
    assert ValidStat(c, p);
    CoarserBoundary(t, Step(c, p), HOUR);
    forall q | q in deps
      ensures c.stats(q).collector.Pulled? && t % Step(c, q) == 0
    {
      CoarserBoundary(t, Step(c, p), Step(c, q));
    }
    var before := After(c, RunsInTurn([], front, t)).run.db.fills;
    forall q
      ensures (q in before <==> q in deps) && (q in before ==> before[q] == FillState(t, Done))
    {
      RunsReach(c, front, t, q);
    }
    NotItsOwnDependency(c, p);
    ClampOk(c, before, deps, t);
    GoalReached(c, before, p, t);
    LastInTurn(c, [], turns, t, p);
  }

  /**
   * Resume equivalence. Whatever crashed before and whatever increments land meanwhile, one complete run leaves the
   * rows and the fill state that one run on an empty database, to the time reached, would have left; for a dependent
   * statistic, after one run of each dependency there.
   */
  lemma ResumeEquivalence(c: Config, history: seq<Action>, p: Property, fillTo: int, steps: seq<Action>,
                          turns: seq<Turn>)
    requires ValidConfig(c) && !IsLogged(c, p) && fillTo % HOUR == 0 && After(c, history).run.job.Idle?
    requires IsCourse(steps) && Statements(steps) >= Enough(c, history, p, fillTo)
    requires var before := After(c, history).run.db.fills;
             Unhurried(c, [], turns, Goal(c, before, p, fillTo, ResumePoint(c, before, p)))
    requires Turned(turns) == Dependencies(c, p) + [p]
    ensures var resumed := After(c, ThenRun(history, p, fillTo, steps)).run.db;
            && p in resumed.fills
            && var empty := After(c, RunsInTurn([], turns, resumed.fills[p].endTime)).run.db;
            && p in empty.fills
            && resumed.fills[p] == empty.fills[p]
            && Of(resumed.rows, p) == Of(empty.rows, p)
  {
    CompletedRun(c, history, p, fillTo, steps);
    EveryHistory(c, ThenRun(history, p, fillTo, steps));
    var t := After(c, ThenRun(history, p, fillTo, steps)).run.db.fills[p].endTime;
    assert t % Step(c, p) == 0 && t >= c.epoch;
    EmptyReaches(c, p, t, turns);
    HistoryIndependence(c, ThenRun(history, p, fillTo, steps), RunsInTurn([], turns, t), p);
  }

  // ----- Dependent statistics -----

  /** Statistic `p` has been filled through `t`. */
  predicate FilledAt(c: Config, db: Db, p: Property, t: int) {
    p in db.fills && OnGrid(c, p, t) && t <= LastFill(c, db.fills, p)
  }

  /**
   * A dependent statistic never passes the last fill of a dependency, so undoing a dependency's started time removes no
   * rows the dependent used; and joining the dependency rows present now gives back exactly the stored rows.
   */
  lemma DependencySafety(c: Config, history: seq<Action>, p: Property, d: Property)
    requires ValidConfig(c) && d in Dependencies(c, p)
    ensures var db := After(c, history).run.db;
            && (p in db.fills && db.fills[p] != FillState(c.epoch, Done) ==>
                  d in db.fills && db.fills[p].endTime <= LastFill(c, db.fills, d))
            && (forall k :: k in db.rows && k.property == p ==>
                  d in db.fills && k.endTime <= LastFill(c, db.fills, d))
            && (forall k, t ::
                  k in db.rows && k.property == p && d in db.fills && db.fills[d] == FillState(t, Started) ==>
                  k.endTime < t)
  {
    EveryHistory(c, history);
    var r := After(c, history).run;
    var db := r.db;
    assert ValidStat(c, p);
    forall k | k in db.rows && k.property == p
      ensures p in db.fills && k.endTime <= db.fills[p].endTime && k.endTime > c.epoch
    {
      assert SliceOk(c, r, p, k.endTime);
      assert k in Slice(db.rows, p, k.endTime);
    }
  }

  lemma DependentRowsAreJoins(c: Config, history: seq<Action>, p: Property, t: int)
    requires ValidConfig(c) && c.stats(p).collector.Dependent?
    requires FilledAt(c, After(c, history).run.db, p, t)
    ensures var rows := After(c, history).run.db.rows;
            && Slice(rows, p, t) == WithInstallation(WithRealm(c, p, PullBatch(c, rows, p, t).rows))
            && forall d :: d in Dependencies(c, p) ==> Slice(rows, d, t) == Complete(c, d, t)
  {
    EveryHistory(c, history);
    var r := After(c, history).run;
    forall d | d in Dependencies(c, p)
      ensures Slice(r.db.rows, d, t) == Complete(c, d, t)
    {
      assert ValidStat(c, p);
      CoarserBoundary(t, Step(c, p), Step(c, d));
      assert SliceOk(c, r, d, t);
    }
    PullOfComplete(c, r.db.rows, p, t);
    assert SliceOk(c, r, p, t);
  }

  // ----- Sums -----

  lemma BasePart(c: Config, p: Property, t: int)
    requires ValidConfig(c)
    ensures InTable(Complete(c, p, t), c.stats(p).output) == Base(c, p, t)
  {
    CompleteWithin(c, p, t);
    assert ValidStat(c, p);
    var base := Base(c, p, t);
    var r := WithRealm(c, p, base);
    assert forall k :: k in Aggregate(base, RealmCount) ==> k.table == RealmCount;
    assert forall k :: k in Aggregate(InTable(r, RealmCount), InstallationCount) ==> k.table == InstallationCount;
    SameRows(InTable(Complete(c, p, t), c.stats(p).output), base);
  }

  lemma InstallationPart(rows: Rows)
    requires forall k :: k in rows ==> k.table != InstallationCount
    ensures InTable(WithInstallation(rows), InstallationCount) ==
        Aggregate(InTable(rows, RealmCount), InstallationCount)
    ensures InTable(WithInstallation(rows), RealmCount) == InTable(rows, RealmCount)
  {
    var sums := Aggregate(InTable(rows, RealmCount), InstallationCount);
    assert forall k :: k in sums ==> k.table == InstallationCount;
    SameRows(InTable(WithInstallation(rows), InstallationCount), sums);
    SameRows(InTable(WithInstallation(rows), RealmCount), InTable(rows, RealmCount));
  }

  lemma RealmPart(c: Config, p: Property, base: Rows)
    requires forall k :: k in base ==> k.table == c.stats(p).output
    requires c.stats(p).output != InstallationCount
    ensures InTable(WithRealm(c, p, base), RealmCount) == if SumsToRealm(c, p) then Aggregate(base, RealmCount)
                                                          else base
    ensures forall k :: k in WithRealm(c, p, base) ==> k.table != InstallationCount
  {
    var sums := Aggregate(base, RealmCount);
    assert forall k :: k in sums ==> k.table == RealmCount;
    SameRows(InTable(WithRealm(c, p, base), RealmCount), if SumsToRealm(c, p) then sums else base);
  }

  /** In a complete fill the realm and installation rows are direct one-level sums of the pulled rows. */
  lemma CompleteIsDirectSum(c: Config, p: Property, t: int)
    requires ValidConfig(c)
    ensures SumsToRealm(c, p) ==> InTable(Complete(c, p, t), RealmCount) == Aggregate(Base(c, p, t), RealmCount)
    ensures InTable(Complete(c, p, t), InstallationCount) == Aggregate(Base(c, p, t), InstallationCount)
    ensures c.stats(p).output != RealmCount ==>
              IsGroupBy(InTable(Complete(c, p, t), RealmCount), Base(c, p, t), RealmCount)
    ensures IsGroupBy(InTable(Complete(c, p, t), InstallationCount), Base(c, p, t), InstallationCount)
  {
    CompleteWithin(c, p, t);
    assert ValidStat(c, p);
    var base := Base(c, p, t);
    RealmPart(c, p, base);
    InstallationPart(WithRealm(c, p, base));
    TwoLevelsAreOne(base);
    SumsAreGroupedBy(base, RealmCount);
    SumsAreGroupedBy(base, InstallationCount);
  }

  lemma BeginSparesRealmRows(c: Config, s: System, e: LogEntry, p: Property, t: int)
    requires SumsToRealm(c, p)
    ensures Begin(c, s, e).run.job == s.run.job
    ensures InTable(Slice(Begin(c, s, e).run.db.rows, p, t), RealmCount) ==
        InTable(Slice(s.run.db.rows, p, t), RealmCount)
  {
    OneRowElsewhere(s.run.db.rows, LogKey(c, e), Cell(e.realm, e.amount), p, t);
  }

  lemma FinishSparesRealmRows(c: Config, s: System, i: nat, p: Property, t: int)
    requires SumsToRealm(c, p) && i < |s.pending|
    ensures Finish(c, s, i).run.job == s.run.job
    ensures InTable(Slice(Finish(c, s, i).run.db.rows, p, t), RealmCount) ==
        InTable(Slice(s.run.db.rows, p, t), RealmCount)
  {
    var k, after := LogKey(c, s.pending[i]), Finish(c, s, i).run.db.rows;
    if k in s.run.db.rows {
      OneRowElsewhere(s.run.db.rows, k, after[k], p, t);
      assert after == s.run.db.rows[k := after[k]];
    }
  }

  /** The job is the same, and so are the realm rows of one statistic at one time. */
  ghost predicate SameRealmRows(a: Run, b: Run, p: Property, t: int) {
    a.job == b.job && InTable(Slice(a.db.rows, p, t), RealmCount) == InTable(Slice(b.db.rows, p, t), RealmCount)
  }

  /** A log action leaves the job and the derived realm rows as they are. */
  lemma LogActionSparesRealmRows(c: Config, s: System, a: Action, p: Property, t: int)
    requires SumsToRealm(c, p) && IsLogAction(a)
    ensures SameRealmRows(Next(c, s, a).run, s.run, p, t)
  {
    match a
    case BeginLog(e) => BeginSparesRealmRows(c, s, e, p, t);
    case FinishLog(i) =>
      if i < |s.pending| {
        FinishSparesRealmRows(c, s, i, p, t);
      }
    case AbandonLog(_) =>
  }

  lemma OneRowElsewhere(rows: Rows, k: Key, cell: Cell, p: Property, t: int)
    requires k.property != p || k.table != RealmCount
    ensures InTable(Slice(rows[k := cell], p, t), RealmCount) == InTable(Slice(rows, p, t), RealmCount)
  {
    SameRows(InTable(Slice(rows[k := cell], p, t), RealmCount), InTable(Slice(rows, p, t), RealmCount));
  }

  lemma {:induction false} LogActionsSpareRealmRows(c: Config, history: seq<Action>, logs: seq<Action>, p: Property,
                                                    t: int)
    requires SumsToRealm(c, p)
    requires forall a :: a in logs ==> IsLogAction(a)
    ensures SameRealmRows(After(c, history + logs).run, After(c, history).run, p, t)
  {
    if logs == [] {
      assert history + logs == history;
    } else {
      var front, a := logs[..|logs| - 1], logs[|logs| - 1];
      assert a in logs;
      LogActionsSpareRealmRows(c, history, front, p, t);
      var before := history + front;
      assert history + logs == before + [a];
      AfterAppend(c, before, a);
      LogActionSparesRealmRows(c, After(c, before), a, p, t);
    }
  }

  /**
   * For any statistic kept per user or stream, logged ones included: the realm rows are the sums of the rows present
   * when the realm statement ran, and so are the installation rows, however many increments land between the two
   * statements.
   */
  lemma FillIsDirectSum(c: Config, history: seq<Action>, logs: seq<Action>)
    requires ValidConfig(c)
    requires var job := After(c, history).run.job; job.Filling? && job.stage == ToRealm
    requires forall a :: a in logs ==> IsLogAction(a)
    ensures var r := After(c, history).run;
            var p, t := r.job.p, r.job.endTime;
            var source := InTable(Slice(r.db.rows, p, t), c.stats(p).output);
            var summed := Slice(After(c, history + [Execute]).run.db.rows, p, t);
            var final := Slice(After(c, history + [Execute] + logs + [Execute]).run.db.rows, p, t);
            && IsGroupBy(InTable(summed, RealmCount), source, RealmCount)
            && IsGroupBy(InTable(final, InstallationCount), source, InstallationCount)
  {
    EveryHistory(c, history);
    var s := After(c, history);
    var p, t := s.run.job.p, s.run.job.endTime;
    var source := InTable(Slice(s.run.db.rows, p, t), c.stats(p).output);
    AfterAppend(c, history, Execute);
    NoInsertCollides(c, history + [Execute]);
    ToRealmRows(c, s.run);
    LogActionsSpareRealmRows(c, history + [Execute], logs, p, t);
    EveryHistory(c, history + [Execute] + logs);
    AfterAppend(c, history + [Execute] + logs, Execute);
    NoInsertCollides(c, history + [Execute] + logs + [Execute]);
    ToInstallationRows(c, After(c, history + [Execute] + logs).run);
    TwoLevelsAreOne(source);
    SumsAreGroupedBy(source, RealmCount);
    SumsAreGroupedBy(source, InstallationCount);
  }

  /** A statistic kept in RealmCount has no realm statement: its installation rows are the sums of its realm rows. */
  lemma InstallationIsDirectSum(c: Config, history: seq<Action>)
    requires ValidConfig(c)
    requires var job := After(c, history).run.job;
             job.Filling? && job.stage == ToInstallation && c.stats(job.p).output == RealmCount
    ensures var r := After(c, history).run;
            var p, t := r.job.p, r.job.endTime;
            IsGroupBy(InTable(Slice(After(c, history + [Execute]).run.db.rows, p, t), InstallationCount),
                      InTable(Slice(r.db.rows, p, t), c.stats(p).output), InstallationCount)
  {
    var r := After(c, history).run;
    EveryHistory(c, history);
    AfterAppend(c, history, Execute);
    NoInsertCollides(c, history + [Execute]);
    ToInstallationRows(c, r);
    SumsAreGroupedBy(InTable(Slice(r.db.rows, r.job.p, r.job.endTime), RealmCount), InstallationCount);
  }

  lemma InsertedTable(rows: Rows, added: Rows, p: Property, t: int, table: Table)
    requires rows.Keys !! added.Keys && Within(added, p, t)
    requires forall k :: k in added ==> k.table == table
    requires forall k :: k in Slice(rows, p, t) ==> k.table != table
    ensures InTable(Slice(rows + added, p, t), table) == added
  {
    InsertSlice(rows, added, p, t, p, t);
    SameRows(InTable(Slice(rows + added, p, t), table), added);
  }

  lemma ToRealmRows(c: Config, r: Run)
    requires ValidConfig(c) && Inv(c, r) && r.job.Filling? && r.job.stage == ToRealm && !Work(c, r).collided
    ensures var p, t := r.job.p, r.job.endTime;
            && Work(c, r).job == r.job.(stage := ToInstallation)
            && InTable(Slice(Work(c, r).db.rows, p, t), RealmCount) == RealmSums(c, r.db.rows, p, t)
  {
    var p, t := r.job.p, r.job.endTime;
    NoRealmRowsYet(c, r);
    AggregateWithin(InTable(Slice(r.db.rows, p, t), c.stats(p).output), RealmCount, p, t);
    InsertedTable(r.db.rows, RealmSums(c, r.db.rows, p, t), p, t, RealmCount);
  }

  lemma ToInstallationRows(c: Config, r: Run)
    requires ValidConfig(c) && Inv(c, r) && r.job.Filling? && r.job.stage == ToInstallation && !Work(c, r).collided
    ensures var p, t := r.job.p, r.job.endTime;
            InTable(Slice(Work(c, r).db.rows, p, t), InstallationCount) == InstallationSums(r.db.rows, p, t)
  {
    var p, t := r.job.p, r.job.endTime;
    NoInstallationRowsYet(c, r);
    AggregateWithin(InTable(Slice(r.db.rows, p, t), RealmCount), InstallationCount, p, t);
    InsertedTable(r.db.rows, InstallationSums(r.db.rows, p, t), p, t, InstallationCount);
  }
}
