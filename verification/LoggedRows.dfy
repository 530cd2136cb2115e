/** What the rows of the logged statistics hold: every increment once, in the row of its owner, subgroup and time. */
module LoggedRows {
  import opened Times
  import opened SetSums
  import opened CountTables
  import opened FillEngine
  import opened FillRuns
  import opened FillTheorems

  /** An entry of one owner and one subgroup whose event lies after `a` and not after `b`. */
  predicate IsOf(e: LogEntry, p: Property, owner: int, s: Subgroup, a: int, b: int) {
    e.property == p && e.owner == owner && e.subgroup == s && a < e.eventTime <= b
  }

  function Entries(entries: seq<LogEntry>, p: Property, owner: int, s: Subgroup, a: int, b: int): set<int> {
    set i | 0 <= i < |entries| && IsOf(entries[i], p, owner, s, a, b)
  }

  function Amounts(entries: seq<LogEntry>): int -> int {
    i => if 0 <= i < |entries| then entries[i].amount else 0
  }

  lemma SameBucket(c: Config, e: LogEntry, p: Property, owner: int, s: Subgroup, b: int)
    requires b % Step(c, p) == 0
    ensures LogKey(c, e) == Key(c.stats(p).output, owner, p, s, b) <==> IsOf(e, p, owner, s, b - Step(c, p), b)
  {
    CeilingUnique(e.eventTime, Step(c, p), b);
  }

  lemma OneMoreEntry(front: seq<LogEntry>, e: LogEntry, p: Property, owner: int, s: Subgroup, a: int, b: int)
    ensures var before, after := Entries(front, p, owner, s, a, b), Entries(front + [e], p, owner, s, a, b);
            && (after != {} <==> IsOf(e, p, owner, s, a, b) || before != {})
            && Sum(after, Amounts(front + [e]))
                 == Sum(before, Amounts(front)) + if IsOf(e, p, owner, s, a, b) then e.amount else 0
  {
    var more := front + [e];
    var before, after := Entries(front, p, owner, s, a, b), Entries(more, p, owner, s, a, b);
    assert forall i :: 0 <= i < |front| ==> more[i] == front[i];
    assert forall i :: i in after <==> i in before || (i == |front| && IsOf(e, p, owner, s, a, b));
    SumAgree(before, Amounts(front), Amounts(more));
    if IsOf(e, p, owner, s, a, b) {
      assert after - {|front|} == before;
      SumRemove(after, Amounts(more), |front|);
    } else {
      assert after == before;
    }
  }

  /** The bucket of a boundary holds exactly those entries. */
  lemma {:induction false} BucketHolds(c: Config, entries: seq<LogEntry>, p: Property, owner: int, s: Subgroup, b: int)
    requires b % Step(c, p) == 0
    ensures var k, mine := Key(c.stats(p).output, owner, p, s, b), Entries(entries, p, owner, s, b - Step(c, p), b);
            && (HasEntry(c, entries, k) <==> mine != {})
            && LoggedSum(c, entries, k) == Sum(mine, Amounts(entries))
  {
    if entries == [] {
      assert Entries(entries, p, owner, s, b - Step(c, p), b) == {};
    } else {
      var front, e := entries[..|entries| - 1], entries[|entries| - 1];
      assert entries == front + [e];
      BucketHolds(c, front, p, owner, s, b);
      SameBucket(c, e, p, owner, s, b);
      LoggedSumAppend(c, front, e, Key(c.stats(p).output, owner, p, s, b));
      OneMoreEntry(front, e, p, owner, s, b - Step(c, p), b);
    }
  }

  /** The entry `i` is one of the bucket, and the row carries its realm. */
  ghost predicate GaveRealm(c: Config, s: System, k: Key, i: int) {
    0 <= i < |s.applied| && LogKey(c, s.applied[i]) == k && k in s.run.db.rows &&
        s.run.db.rows[k].realm == s.applied[i].realm
  }

  lemma RealmStays(c: Config, s: System, a: Action, k: Key, i: int)
    requires ValidConfig(c) && SystemInv(c, s) && IsLoggedKey(c, k) && GaveRealm(c, s, k, i)
    ensures GaveRealm(c, Next(c, s, a), k, i)
  {
    if a.Execute? {
      NextExecute(c, s);
      WorkKeepsLoggedRow(c, s.run, k);
    }
  }

  lemma FirstGivesRealm(c: Config, s: System, a: Action, k: Key)
    requires ValidConfig(c) && SystemInv(c, s) && IsLoggedKey(c, k)
    requires k !in s.run.db.rows && k in Next(c, s, a).run.db.rows
    ensures GaveRealm(c, Next(c, s, a), k, |s.applied|)
  {
    if a.Execute? {
      NextExecute(c, s);
      WorkKeepsLoggedRow(c, s.run, k);
    }
  }

  lemma {:induction false} RealmOfRow(c: Config, history: seq<Action>, k: Key) returns (i: int)
    requires ValidConfig(c) && IsLoggedKey(c, k) && k in After(c, history).run.db.rows
    ensures GaveRealm(c, After(c, history), k, i)
  {
    var front, a := history[..|history| - 1], history[|history| - 1];
    EveryHistory(c, front);
    if k in After(c, front).run.db.rows {
      i := RealmOfRow(c, front, k);
      RealmStays(c, After(c, front), a, k, i);
    } else {
      i := |After(c, front).applied|;
      FirstGivesRealm(c, After(c, front), a, k);
    }
  }

  /**
   * Logged statistics lose nothing and mix up nothing. Through crashes, undos and aggregations, the row of an owner, a
   * subgroup and a boundary exists exactly when an entry of that owner and subgroup, with its event in the interval
   * that the boundary ends, was applied; it holds the total of those entries and the realm of one of them. Every entry
   * begun is applied, still pending, or died with its process.
   */
  lemma LoggingLosesNothing(c: Config, history: seq<Action>, p: Property, owner: int, s: Subgroup, b: int)
    requires ValidConfig(c) && IsLogged(c, p) && b % Step(c, p) == 0
    ensures var now, k := After(c, history), Key(c.stats(p).output, owner, p, s, b);
            var mine := Entries(now.applied, p, owner, s, b - Step(c, p), b);
            && (k in now.run.db.rows <==> mine != {})
            && ValueAt(now.run.db.rows, k) == Sum(mine, Amounts(now.applied))
            && (k in now.run.db.rows ==> exists i :: i in mine && now.run.db.rows[k].realm == now.applied[i].realm)
            && multiset(Begun(c, history)) == multiset(now.applied) + multiset(now.pending) + multiset(now.abandoned)
  {
    var now, k := After(c, history), Key(c.stats(p).output, owner, p, s, b);
    LoggedRowsAreSums(c, history, k);
    BucketHolds(c, now.applied, p, owner, s, b);
    if k in now.run.db.rows {
      var i := RealmOfRow(c, history, k);
      SameBucket(c, now.applied[i], p, owner, s, b);
      assert i in Entries(now.applied, p, owner, s, b - Step(c, p), b);
    }
  }
}
