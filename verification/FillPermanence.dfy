/** Which rows the fill job can still delete: exactly those of a time that is STARTED and not yet DONE. */
module FillPermanence {
  import opened Times
  import opened CountTables
  import opened FillEngine
  import opened FillInvariant
  import opened FillRuns
  import opened FillTheorems

  /** The row belongs to a started time, in a table that an undo of its statistic clears. */
  predicate Undoable(c: Config, db: Db, k: Key) {
    && k in db.rows && k.property in db.fills
    && db.fills[k.property] == FillState(k.endTime, Started)
    && k.table in UndoTables(c, k.property)
  }

  predicate AllDone(fills: map<Property, FillState>) {
    forall p :: p in fills ==> fills[p].status == Done
  }

  /** A row that cannot be undone is logged in place, or lies within the last successful fill. */
  lemma SettledRow(c: Config, s: System, k: Key)
    requires ValidConfig(c) && SystemInv(c, s) && k in s.run.db.rows
    ensures !Undoable(c, s.run.db, k) <==>
              || IsLoggedKey(c, k)
              || (k.property in s.run.db.fills && k.endTime <= LastFill(c, s.run.db.fills, k.property))
  {
    var p, t, r := k.property, k.endTime, s.run;
    assert ValidStat(c, p);
    if IsLogged(c, p) {
      if !IsLoggedKey(c, k) {
        assert DerivedOk(c, r, k);
      }
    } else {
      assert SliceOk(c, r, p, t) && k in Slice(r.db.rows, p, t);
      EveryTable();
    }
  }

  lemma WorkFillsGrow(c: Config, r: Run, p: Property)
    requires ValidConfig(c) && Inv(c, r) && p in r.db.fills
    ensures p in Work(c, r).db.fills && LastFill(c, Work(c, r).db.fills, p) >= LastFill(c, r.db.fills, p)
  {
  }

  /** A statement of the job keeps every row within the last successful fill, unchanged. */
  lemma WorkKeepsFilled(c: Config, r: Run, k: Key)
    requires ValidConfig(c) && Inv(c, r) && k in r.db.rows
    requires k.property in r.db.fills && k.endTime <= LastFill(c, r.db.fills, k.property)
    ensures k in Work(c, r).db.rows && Work(c, r).db.rows[k] == r.db.rows[k]
  {
  }

  /** Only statements of the job delete rows or change fill states; an increment changes one logged row. */
  lemma OthersKeepRows(c: Config, s: System, a: Action, k: Key)
    requires SystemInv(c, s) && !a.Execute? && k in s.run.db.rows
    ensures var after := Next(c, s, a).run.db;
            after.fills == s.run.db.fills && k in after.rows &&
                (!IsLoggedKey(c, k) ==> after.rows[k] == s.run.db.rows[k])
  {
    if a.FinishLog? && a.i < |s.pending| {
      assert s.pending[a.i] in s.pending;
    }
  }

  lemma WorkKeepsSettled(c: Config, s: System, k: Key)
    requires ValidConfig(c) && SystemInv(c, s) && k in s.run.db.rows
    requires IsLoggedKey(c, k) || (k.property in s.run.db.fills && k.endTime <= LastFill(c, s.run.db.fills, k.property))
    ensures var after := Work(c, s.run).db;
            && k in after.rows && (!IsLoggedKey(c, k) ==> after.rows[k] == s.run.db.rows[k])
            && (IsLoggedKey(c, k) || (k.property in after.fills && k.endTime <= LastFill(c, after.fills, k.property)))
  {
    if IsLoggedKey(c, k) {
      WorkKeepsLoggedRow(c, s.run, k);
    } else {
      WorkKeepsFilled(c, s.run, k);
      WorkFillsGrow(c, s.run, k.property);
    }
  }

  /** No action deletes a row that cannot be undone, nor makes it one that can. */
  lemma StepKeepsSettled(c: Config, s: System, a: Action, k: Key)
    requires ValidConfig(c) && SystemInv(c, s) && k in s.run.db.rows && !Undoable(c, s.run.db, k)
    ensures var after := Next(c, s, a).run.db;
            k in after.rows && !Undoable(c, after, k) && (!IsLoggedKey(c, k) ==> after.rows[k] == s.run.db.rows[k])
  {
    SettledRow(c, s, k);
    NextKeepsInv(c, s, a);
    if a.Execute? {
      WorkKeepsSettled(c, s, k);
      NextExecute(c, s);
    } else {
      OthersKeepRows(c, s, a, k);
    }
    SettledRow(c, Next(c, s, a), k);
  }

  lemma {:induction false} SettledForGood(c: Config, history: seq<Action>, more: seq<Action>, k: Key)
    requires ValidConfig(c)
    requires var db := After(c, history).run.db; k in db.rows && !Undoable(c, db, k)
    ensures var before, after := After(c, history).run.db, After(c, history + more).run.db;
            k in after.rows && !Undoable(c, after, k) && (!IsLoggedKey(c, k) ==> after.rows[k] == before.rows[k])
  {
    if more == [] {
      assert history + more == history;
    } else {
      var front, a := more[..|more| - 1], more[|more| - 1];
      SettledForGood(c, history, front, k);
      assert history + more == history + front + [a];
      AfterAppend(c, history + front, a);
      EveryHistory(c, history + front);
      StepKeepsSettled(c, After(c, history + front), a, k);
    }
  }

  // ----- The undo that deletes the others -----

  lemma {:induction false} UndoClears(c: Config, r: Run, n: nat, k: Key)
    requires r.job.Undoing? && n <= |r.job.tables|
    ensures var done := IterateWork(c, r, n);
            && done.job == r.job.(tables := r.job.tables[n..])
            && (k.property == r.job.p && k.endTime == r.job.endTime && k.table in r.job.tables[..n] ==>
                k !in done.db.rows)
  {
    if n > 0 {
      UndoClears(c, r, n - 1, k);
      assert r.job.tables[..n] == r.job.tables[..n - 1] + [r.job.tables[n - 1]];
      assert r.job.tables[n - 1..][0] == r.job.tables[n - 1] && r.job.tables[n - 1..][1..] == r.job.tables[n..];
    }
  }

  /** The next run of the statistic, after a crash, undoes its started time. */
  function NextUndo(c: Config, history: seq<Action>, p: Property): seq<Action> {
    history + [Crash] + [StartJob(p, 0)] + Executes(|UndoTables(c, p)|)
  }

  lemma NextUndoDeletes(c: Config, history: seq<Action>, k: Key)
    requires Undoable(c, After(c, history).run.db, k)
    ensures k !in After(c, NextUndo(c, history, k.property)).run.db.rows
  {
    var p := k.property;
    var started := history + [Crash] + [StartJob(p, 0)];
    AfterAppend(c, history, Crash);
    AfterAppend(c, history + [Crash], StartJob(p, 0));
    AfterExecutes(c, started, |UndoTables(c, p)|);
    var r := After(c, started).run;
    assert r.job == Undoing(p, 0, k.endTime, UndoTables(c, p));
    UndoClears(c, r, |r.job.tables|, k);
    assert r.job.tables[..|r.job.tables|] == r.job.tables;
  }

  /** A row present now survives every continuation exactly when it cannot be undone now. */
  lemma PermanentUnlessStarted(c: Config, history: seq<Action>, k: Key)
    requires ValidConfig(c) && k in After(c, history).run.db.rows
    ensures (forall more :: k in After(c, history + more).run.db.rows) <==> !Undoable(c, After(c, history).run.db, k)
  {
    if Undoable(c, After(c, history).run.db, k) {
      var more := [Crash] + [StartJob(k.property, 0)] + Executes(|UndoTables(c, k.property)|);
      NextUndoDeletes(c, history, k);
      assert NextUndo(c, history, k.property) == history + more;
    } else {
      forall more
        ensures k in After(c, history + more).run.db.rows
      {
        SettledForGood(c, history, more, k);
      }
    }
  }

  // ----- When everything is done -----

  /**
   * Runs of every statistic in turn, as the cron command makes them amid live increments, leave every fill state DONE.
   */
  lemma FullRunEndsDone(c: Config, history: seq<Action>, turns: seq<Turn>, fillTo: int)
    requires ValidConfig(c) && fillTo % HOUR == 0 && After(c, history).run.job.Idle? &&
        Unhurried(c, history, turns, fillTo)
    requires forall p: Property :: p in Turned(turns)
    ensures AllDone(After(c, RunsInTurn(history, turns, fillTo)).run.db.fills)
  {
    var fills := After(c, RunsInTurn(history, turns, fillTo)).run.db.fills;
    forall p | p in fills
      ensures fills[p].status == Done
    {
      RunsEndDone(c, history, turns, fillTo, p);
    }
  }

  /** Rows present while every fill state is DONE are never deleted, and only the logged ones ever change. */
  lemma DoneRowsStay(c: Config, history: seq<Action>, more: seq<Action>, k: Key)
    requires ValidConfig(c) && AllDone(After(c, history).run.db.fills) && k in After(c, history).run.db.rows
    ensures k in After(c, history + more).run.db.rows
    ensures !IsLoggedKey(c, k) ==> After(c, history + more).run.db.rows[k] == After(c, history).run.db.rows[k]
  {
    SettledForGood(c, history, more, k);
  }
}
