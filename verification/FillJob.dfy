/** `process_count_stat` and the functions it calls, on mutable tables, one database statement after another. */
module FillJob {
  import opened Options
  import opened Times
  import opened SetSums
  import opened CountTables
  import opened FillEngine
  import opened FillRuns

  // ----- Summing loops -----

  lemma MembersOfMore(part: Rows, k: Key, cell: Cell, table: Table, g: Key)
    requires k !in part
    ensures Sum(Members(part[k := cell], table, g), Values(part[k := cell]))
         == Sum(Members(part, table, g), Values(part)) + if GroupKey(table, k, cell) == g then cell.value else 0
  {
    var more := part[k := cell];
    var before, after := Members(part, table, g), Members(more, table, g);
    SumAgree(before, Values(part), Values(more));
    if GroupKey(table, k, cell) == g {
      assert after - {k} == before;
      SumRemove(after, Values(more), k);
    } else {
      assert after == before;
    }
  }

  lemma GroupOfMore(part: Rows, k: Key, cell: Cell, table: Table, h: Key)
    requires k !in part && h in Groups(part[k := cell], table)
    ensures Aggregate(part[k := cell], table)[h]
         == Cell(h.owner, ValueAt(Aggregate(part, table), h) + if h == GroupKey(table, k, cell) then cell.value else 0)
  {
    MembersOfMore(part, k, cell, table, h);
    if h !in Groups(part, table) {
      assert Members(part, table, h) == {};
    }
  }

  /** The sums with one more row counted in. */
  function AddRow(sums: Rows, g: Key, value: int): Rows {
    sums[g := Cell(g.owner, ValueAt(sums, g) + value)]
  }

  lemma AggregateOfMore(part: Rows, k: Key, cell: Cell, table: Table, g: Key)
    requires k !in part && g == GroupKey(table, k, cell)
    ensures Aggregate(part[k := cell], table) == AddRow(Aggregate(part, table), g, cell.value)
  {
    GroupsOfMore(part, k, cell, table);
    forall h | h in Groups(part[k := cell], table)
      ensures Aggregate(part[k := cell], table)[h] == AddRow(Aggregate(part, table), g, cell.value)[h]
    {
      GroupOfMore(part, k, cell, table, h);
    }
    SameRows(Aggregate(part[k := cell], table), AddRow(Aggregate(part, table), g, cell.value));
  }

  lemma GroupsOfMore(part: Rows, k: Key, cell: Cell, table: Table)
    requires k !in part
    ensures Groups(part[k := cell], table) == Groups(part, table) + {GroupKey(table, k, cell)}
  {
    var more := part[k := cell];
    assert k in more && more[k] == cell;
    forall g | g in Groups(part, table)
      ensures g in Groups(more, table)
    {
      var j :| j in part && GroupKey(table, j, part[j]) == g;
      assert j in more && more[j] == part[j];
    }
  }

  /** The rows of `source` that a loop has seen when `todo` is left. */
  function Seen(source: Rows, todo: set<Key>): Rows {
    map k | k in source && k !in todo :: source[k]
  }

  lemma SeeOne(source: Rows, todo: set<Key>, k: Key, table: Table, g: Key)
    requires k in todo && k in source && g == GroupKey(table, k, source[k])
    ensures SumsSoFar(source, todo - {k}, table) == AddRow(SumsSoFar(source, todo, table), g, source[k].value)
  {
    SameRows(Seen(source, todo - {k}), Seen(source, todo)[k := source[k]]);
    AggregateOfMore(Seen(source, todo), k, source[k], table, g);
  }

  /** The sums a loop has computed when `todo` is left. */
  ghost function SumsSoFar(source: Rows, todo: set<Key>, table: Table): Rows {
    Aggregate(Seen(source, todo), table)
  }

  lemma SumsAtEnds(source: Rows, table: Table)
    ensures SumsSoFar(source, source.Keys, table) == map[] && SumsSoFar(source, {}, table) == Aggregate(source, table)
  {
    SameRows(Seen(source, {}), source);
    assert Seen(source, source.Keys) == map[];
    assert Groups(map[], table) == {};
  }

  /** The `INSERT ... SELECT sum(value) ... GROUP BY` of `do_aggregate_to_summary_table`, row by row in any order. */
  method SumInto(source: Rows, table: Table) returns (sums: Rows)
    ensures IsGroupBy(sums, source, table)
    ensures sums == Aggregate(source, table)
  {
    SumsAreGroupedBy(source, table);
    sums := map[];
    var todo := source.Keys;
    SumsAtEnds(source, table);
    while todo != {}
      invariant todo <= source.Keys
      invariant sums == SumsSoFar(source, todo, table)
    {
      var k :| k in todo;
      var g := GroupKey(table, k, source[k]);
      SeeOne(source, todo, k, table, g);
      sums := AddRow(sums, g, source[k].value);
      todo := todo - {k};
    }
  }

  // ----- Traces of the machine -----

  ghost predicate FollowsAt(c: Config, trace: seq<Run>, i: int)
    requires 0 < i < |trace|
  {
    trace[i] == Work(c, trace[i - 1])
  }

  /** Each state is the machine's next after the one before. */
  ghost predicate IsTrace(c: Config, trace: seq<Run>) {
    trace != [] && forall i :: 0 < i < |trace| ==> FollowsAt(c, trace, i)
  }

  lemma ExtendTrace(c: Config, trace: seq<Run>, next: Run)
    requires IsTrace(c, trace) && next == Work(c, trace[|trace| - 1])
    ensures IsTrace(c, trace + [next])
  {
    var longer := trace + [next];
    forall i | 0 < i < |longer|
      ensures FollowsAt(c, longer, i)
    {
      if i < |trace| {
        assert FollowsAt(c, trace, i);
      }
    }
  }

  lemma {:induction false} TraceIterates(c: Config, trace: seq<Run>, i: nat)
    requires IsTrace(c, trace) && i < |trace|
    ensures trace[i] == IterateWork(c, trace[0], i)
  {
    if i > 0 {
      TraceIterates(c, trace, i - 1);
      assert FollowsAt(c, trace, i);
    }
  }

  lemma {:induction false} IdleStays(c: Config, r: Run, m: nat, n: nat)
    requires IterateWork(c, r, m).job.Idle?
    ensures IterateWork(c, r, m + n) == IterateWork(c, r, m)
  {
    if n > 0 {
      IdleStays(c, r, m, n - 1);
    }
  }

  /** Begin one increment and finish it, as one call of `do_increment_logging_stat` does. */
  function LogWhole(c: Config, s: System, e: LogEntry): System {
    var begun := Begin(c, s, e);
    if |begun.pending| > |s.pending| then Finish(c, begun, |begun.pending| - 1) else begun
  }

  /** A time of the grid up to `last` holds a complete fill, and any other holds nothing unless it is STARTED. */
  ghost predicate FilledUpTo(c: Config, db: Db, p: Property, last: Option<int>, t: int) {
    if last.Some? && OnGrid(c, p, t) && t <= last.value then Slice(db.rows, p, t) == Complete(c, p, t)
    else (p in db.fills && db.fills[p] == FillState(t, Started)) || Slice(db.rows, p, t) == map[]
  }

  lemma LastFillMeaning(c: Config, r: Run, p: Property)
    requires Inv(c, r) && !IsLogged(c, p)
    ensures var last := if p in r.db.fills then Some(LastFill(c, r.db.fills, p)) else None;
            forall t :: FilledUpTo(c, r.db, p, last, t)
  {
    var last := if p in r.db.fills then Some(LastFill(c, r.db.fills, p)) else None;
    forall t
      ensures FilledUpTo(c, r.db, p, last, t)
    {
      assert SliceOk(c, r, p, t);
    }
  }

  /** How a call ends: at its end, refused for a time off the hour, or stopped by a crash or a failed statement. */
  datatype Outcome = Completed | ValueError | Interrupted

  class Analytics {
    const c: Config
    var rows: Rows
    var fills: map<Property, FillState>
    /** How many more statements the process lives to execute; a crash is running out of them. */
    var lifetime: nat
    /** The states of the machine of FillEngine since the current job was called. */
    ghost var trace: seq<Run>

    ghost predicate Valid()
      reads this
    {
      IsTrace(c, trace) && Now().db == Db(rows, fills)
    }

    ghost function Now(): Run
      reads this
      requires trace != []
    {
      trace[|trace| - 1]
    }

    constructor (c: Config, lifetime: nat)
      ensures Valid() && this.c == c && this.lifetime == lifetime
      ensures rows == map[] && fills == map[] && trace == [Fresh.run]
    {
      this.c := c;
      this.lifetime := lifetime;
      rows, fills := map[], map[];
      trace := [Fresh.run];
    }

    /**
     * The machine made one step for every statement executed, and stopped short only by dying or by an IntegrityError.
     */
    twostate predicate Followed(alive: bool)
      reads this
    {
      && Valid()
      && old(trace) != [] && trace[0] == old(trace[0])
      && |trace| + lifetime == old(|trace| + lifetime)
      && (alive || lifetime == 0 || Now().job.Idle?)
    }

    // ----- Single statements -----

    method SaveFillState(p: Property, endTime: int, status: Status, ghost next: Job) returns (alive: bool)
      requires Valid()
      requires Work(c, Now()) == Now().(db := Db(rows, fills[p := FillState(endTime, status)]), job := next)
      modifies this
      ensures Followed(alive)
      ensures alive ==> Now().job == next && rows == old(rows) && fills == old(fills)[p := FillState(endTime, status)]
    {
      alive := lifetime > 0;
      if alive {
        ExtendTrace(c, trace, Work(c, Now()));
        trace := trace + [Work(c, Now())];
        fills := fills[p := FillState(endTime, status)];
        lifetime := lifetime - 1;
      }
    }

    method DeleteCounts(table: Table, p: Property, t: int, ghost next: Job) returns (alive: bool)
      requires Valid()
      requires Work(c, Now()) == Now().(db := Db(DeleteAt(rows, table, p, t), fills), job := next)
      modifies this
      ensures Followed(alive) && fills == old(fills)
      ensures alive ==> Now().job == next && rows == DeleteAt(old(rows), table, p, t)
    {
      alive := lifetime > 0;
      if alive {
        ExtendTrace(c, trace, Work(c, Now()));
        trace := trace + [Work(c, Now())];
        rows := DeleteAt(rows, table, p, t);
        lifetime := lifetime - 1;
      }
    }

    /** Insert a batch whole, or raise IntegrityError and insert none of it. */
    method InsertRows(added: Rows, duplicateKey: bool, ghost next: Job) returns (alive: bool)
      requires Valid() && Work(c, Now()) == Insert(Now(), added, duplicateKey, next)
      modifies this
      ensures Followed(alive) && fills == old(fills)
      ensures alive ==> Now().job == next && rows == old(rows) + added && added.Keys !! old(rows.Keys)
    {
      if lifetime == 0 {
        return false;
      }
      alive := !duplicateKey && forall k :: k in added ==> k !in rows;
      ExtendTrace(c, trace, Work(c, Now()));
      trace := trace + [Work(c, Now())];
      if alive {
        rows := rows + added;
      }
      lifetime := lifetime - 1;
    }

    // ----- Sequences of statements -----

    method DeleteCountsAtHour(p: Property, t: int, ghost fillTo: int) returns (alive: bool)
      requires Valid() && Now().job == Undoing(p, fillTo, t, UndoTables(c, p))
      modifies this
      ensures Followed(alive) && fills == old(fills)
      ensures alive ==> Now().job == Undoing(p, fillTo, t, [])
    {
      var tables := UndoTables(c, p);
      while tables != []
        invariant Followed(true) && fills == old(fills)
        invariant Now().job == Undoing(p, fillTo, t, tables)
        decreases |tables|
      {
        alive := DeleteCounts(tables[0], p, t, Undoing(p, fillTo, t, tables[1..]));
        if !alive {
          return;
        }
        tables := tables[1..];
      }
      alive := true;
    }

    method AggregateToRealms(p: Property, t: int, ghost target: int) returns (alive: bool, ghost realms: Rows)
      requires Valid() && Now().job == Filling(p, target, t, ToRealm)
      modifies this
      ensures Followed(alive) && fills == old(fills)
      ensures alive ==> Now().job == Filling(p, target, t, ToInstallation) && rows == old(rows) + realms
      ensures IsGroupBy(realms, InTable(Slice(old(rows), p, t), c.stats(p).output), RealmCount)
    {
      var sums := SumInto(InTable(Slice(rows, p, t), c.stats(p).output), RealmCount);
      realms := sums;
      alive := InsertRows(sums, false, Filling(p, target, t, ToInstallation));
    }

    method AggregateToInstallation(p: Property, t: int, ghost target: int)
      returns (alive: bool, ghost installation: Rows)
      requires Valid() && Now().job == Filling(p, target, t, ToInstallation)
      modifies this
      ensures Followed(alive) && fills == old(fills)
      ensures alive ==> Now().job == Filling(p, target, t, MarkDone) && rows == old(rows) + installation
      ensures IsGroupBy(installation, InTable(Slice(old(rows), p, t), RealmCount), InstallationCount)
    {
      var sums := SumInto(InTable(Slice(rows, p, t), RealmCount), InstallationCount);
      installation := sums;
      alive := InsertRows(sums, false, Filling(p, target, t, MarkDone));
    }

    /** The realm sums of a user or stream statistic, and then the installation sums of its realm rows. */
    method AggregateToSummaryTable(p: Property, t: int, ghost target: int)
      returns (alive: bool, ghost realms: Rows, ghost installation: Rows)
      requires Valid() && Now().job == Filling(p, target, t, StageAfterPull(c, p))
      modifies this
      ensures Followed(alive) && fills == old(fills)
      ensures alive ==> Now().job == Filling(p, target, t, MarkDone)
      ensures alive ==> rows == old(rows) + realms + installation
      ensures alive ==> if c.stats(p).output == UserCount || c.stats(p).output == StreamCount then
                          IsGroupBy(realms, InTable(Slice(old(rows), p, t), c.stats(p).output), RealmCount)
                        else realms == map[]
      ensures alive ==>
                IsGroupBy(installation, InTable(Slice(old(rows) + realms, p, t), RealmCount), InstallationCount)
    {
      realms, installation := map[], map[];
      if SumsToRealm(c, p) {
        alive, realms := AggregateToRealms(p, t, target);
        if !alive {
          return;
        }
      }
      assert rows == old(rows) + realms;
      alive, installation := AggregateToInstallation(p, t, target);
    }

    method FillCountStatAtHour(p: Property, t: int, ghost target: int) returns (alive: bool)
      requires Valid() && Now().job == Filling(p, target, t, StageAfterMark(c, p))
      modifies this
      ensures Followed(alive) && fills == old(fills)
      ensures alive ==> Now().job == Filling(p, target, t, MarkDone)
    {
      if !IsLogged(c, p) {
        var batch := PullBatch(c, rows, p, t);
        alive := InsertRows(batch.rows, batch.duplicateKey, Filling(p, target, t, StageAfterPull(c, p)));
        if !alive {
          return;
        }
      }
      ghost var realms, installation;
      alive, realms, installation := AggregateToSummaryTable(p, t, target);
    }

    /** Create the fill state, or undo a half-finished fill, or take the fill state as it is. */
    method Settle(p: Property, fillTo: int) returns (alive: bool, currentlyFilled: int)
      requires Valid() && Now().job == Start(c, fills, p, fillTo) && fillTo % HOUR == 0
      modifies this
      ensures Followed(alive)
      ensures alive ==> p in fills && fills[p] == FillState(currentlyFilled, Done)
      ensures alive ==> Now().job == Enter(c, fills, p, fillTo)
    {
      if p !in fills {
        currentlyFilled := c.epoch;
        alive := SaveFillState(p, currentlyFilled, Done, Enter(c, fills[p := FillState(c.epoch, Done)], p, fillTo));
      } else if fills[p].status == Started {
        currentlyFilled := fills[p].endTime - Step(c, p);
        alive := DeleteCountsAtHour(p, fills[p].endTime, fillTo);
        if alive {
          alive := SaveFillState(p, currentlyFilled, Done,
                                 Enter(c, fills[p := FillState(currentlyFilled, Done)], p, fillTo));
        }
      } else {
        currentlyFilled := fills[p].endTime;
        alive := true;
      }
    }

    /** `fill_to_time`, lowered to the last fill of every dependency; None as soon as one has never run. */
    method ClampToDependencies(p: Property, fillTo: int) returns (target: Option<int>)
      ensures target == Clamp(c, fills, Dependencies(c, p), fillTo)
    {
      var lowered, deps := fillTo, Dependencies(c, p);
      while deps != []
        invariant Clamp(c, fills, deps, lowered) == Clamp(c, fills, Dependencies(c, p), fillTo)
        decreases |deps|
      {
        if deps[0] !in fills {
          return None;
        }
        var last := LastFill(c, fills, deps[0]);
        lowered := if last < lowered then last else lowered;
        deps := deps[1..];
      }
      target := Some(lowered);
    }

    /** One round of the fill loop: mark the time started, fill it, mark it done. */
    method FillOne(p: Property, t: int, target: int) returns (alive: bool)
      requires Valid() && Now().job == Filling(p, target, t, MarkStarted)
      modifies this
      ensures Followed(alive)
      ensures alive ==> Now().job == Loop(p, target, t + Step(c, p))
    {
      alive := SaveFillState(p, t, Started, Filling(p, target, t, StageAfterMark(c, p)));
      if !alive {
        return;
      }
      alive := FillCountStatAtHour(p, t, target);
      if alive {
        alive := SaveFillState(p, t, Done, Loop(p, target, t + Step(c, p)));
      }
    }

    method FillLoop(p: Property, first: int, target: int) returns (alive: bool)
      requires Valid() && Now().job == Loop(p, target, first)
      modifies this
      ensures Followed(false)
      ensures alive ==> Now().job.Idle?
    {
      var currentlyFilled := first;
      while currentlyFilled <= target
        invariant Followed(true) && Now().job == Loop(p, target, currentlyFilled)
        decreases target - currentlyFilled
      {
        alive := FillOne(p, currentlyFilled, target);
        if !alive {
          return;
        }
        currentlyFilled := currentlyFilled + Step(c, p);
      }
      alive := true;
    }

    /** Either the process died, or what is left of its life changes nothing. */
    lemma JobEnds(started: Run, lifetime0: nat)
      requires Valid() && trace[0] == started && |trace| - 1 + lifetime == lifetime0
      requires lifetime == 0 || Now().job.Idle?
      ensures Now() == IterateWork(c, started, lifetime0)
    {
      TraceIterates(c, trace, |trace| - 1);
      if lifetime > 0 {
        IdleStays(c, started, |trace| - 1, lifetime);
      }
    }

    /**
     * `process_count_stat`. Executed to the end or cut short by a crash, it leaves the tables that the machine of
     * FillEngine leaves after as many statements; all theorems about the machine are theorems about this method.
     */
    method ProcessCountStat(p: Property, fillTo: int) returns (outcome: Outcome)
      requires Valid() && Now().job.Idle?
      modifies this
      ensures Valid()
      ensures Now() == IterateWork(c, old(Now()).(job := Start(c, old(fills), p, fillTo)), old(lifetime))
      ensures outcome == ValueError <==> fillTo % HOUR != 0
      ensures outcome == ValueError ==> rows == old(rows) && fills == old(fills)
      ensures outcome == Completed ==> Now().job.Idle?
    {
      ghost var started := Now().(job := Start(c, fills, p, fillTo));
      trace := [started];
      if fillTo % HOUR != 0 {
        JobEnds(started, old(lifetime));
        return ValueError;
      }
      var alive, currentlyFilled := Settle(p, fillTo);
      if alive {
        var target := ClampToDependencies(p, fillTo);
        if target.Some? {
          alive := FillLoop(p, currentlyFilled + Step(c, p), target.value);
        }
      }
      JobEnds(started, old(lifetime));
      outcome := if alive then Completed else Interrupted;
    }

    /**
     * `CountStat.last_successful_fill`: for a pulled or dependent statistic, every grid time up to it holds a complete
     * fill, and no other time holds anything unless it is STARTED; None when nothing was ever filled.
     */
    method LastSuccessfulFill(p: Property) returns (last: Option<int>)
      requires Valid() && Inv(c, Now())
      ensures last.None? <==> p !in fills
      ensures last.Some? ==> last.value == LastFill(c, fills, p)
      ensures !IsLogged(c, p) ==> forall t :: FilledUpTo(c, Db(rows, fills), p, last, t)
    {
      if !IsLogged(c, p) {
        LastFillMeaning(c, Now(), p);
      }
      if p !in fills {
        last := None;
      } else if fills[p].status == Done {
        last := Some(fills[p].endTime);
      } else {
        last := Some(fills[p].endTime - Step(c, p));
      }
    }

    /**
     * `do_increment_logging_stat`, left undisturbed between its two phases: the one row of the owner, the subgroup and
     * the boundary whose interval holds the event is made or raised.
     */
    method IncrementLoggingStat(e: LogEntry) returns (ghost endTime: int)
      requires Valid() && Now().job.Idle? && IsLogged(c, e.property)
      modifies this
      ensures Valid() && fills == old(fills) && lifetime == old(lifetime)
      ensures Now() == LogWhole(c, System(old(Now()), [], [], [], []), e).run
      ensures endTime % Step(c, e.property) == 0 && endTime - Step(c, e.property) < e.eventTime <= endTime
      ensures var k := Key(c.stats(e.property).output, e.owner, e.property, e.subgroup, endTime);
              rows == if e.amount == 0 then old(rows)
                      else old(rows)[k := if k in old(rows) then Cell(old(rows)[k].realm, old(rows)[k].value + e.amount)
                                          else Cell(e.realm, e.amount)]
    {
      endTime := Ceiling(e.eventTime, Step(c, e.property));
      if e.amount == 0 {
        return;
      }
      var k := LogKey(c, e);
      var created := k !in rows;
      if created {
        rows := rows[k := Cell(e.realm, e.amount)];
      }
      if !created {
        rows := rows[k := rows[k].(value := rows[k].value + e.amount)];
      }
      trace := [SetRows(Now(), rows)];
    }
  }
}
