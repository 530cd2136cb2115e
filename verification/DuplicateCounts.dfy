/** The repair of duplicated rows, analytics/migrations/0015_clear_duplicate_counts.py, on one count table. */
module DuplicateCounts {
  import opened Options
  import opened SetSums

  /** What the migration groups by; the installation table has no owner, here 0. */
  datatype Key = Key(owner: int, property: string, endTime: int)

  datatype CountRow = CountRow(key: Key, subgroup: Option<string>, value: int)

  /** Rows by primary key. */
  type Rows = map<int, CountRow>

  predicate At(rows: Rows, id: int, key: Key) {
    id in rows && rows[id].key == key
  }

  /** The rows of a key, whatever their subgroup: what `filter(**count)` finds. */
  function Ids(rows: Rows, key: Key): set<int> {
    set id | id in rows && At(rows, id, key)
  }

  function NullIds(rows: Rows, key: Key): set<int> {
    set id | id in rows && At(rows, id, key) && rows[id].subgroup.None?
  }

  function ValueOf(rows: Rows): int -> int {
    id => if id in rows then rows[id].value else 0
  }

  ghost function NullTotal(rows: Rows, key: Key): int {
    Sum(NullIds(rows, key), ValueOf(rows))
  }

  /** The properties whose duplicates the migration adds up. */
  predicate AddedUp(property: string) {
    property in ["invites_sent::day", "active_users_log:is_bot:day"]
  }

  predicate IsDuplicated(rows: Rows, key: Key) {
    |NullIds(rows, key)| > 1
  }

  ghost predicate SameAt(before: Rows, after: Rows, key: Key) {
    forall id :: (At(before, id, key) <==> At(after, id, key)) && (At(before, id, key) ==> after[id] == before[id])
  }

  /** Of a duplicated key one row survives, whichever the database lists first, with the total or with its own value. */
  ghost predicate IsCleared(before: Rows, after: Rows, key: Key) {
    if IsDuplicated(before, key) then
      exists first :: At(before, first, key) && ReducedTo(before, after, key, first)
    else SameAt(before, after, key)
  }

  ghost predicate ReducedTo(before: Rows, after: Rows, key: Key, first: int)
    requires At(before, first, key)
  {
    && At(after, first, key) && (forall id :: At(after, id, key) ==> id == first)
    && after[first] == before[first].(
         value := if AddedUp(key.property) then NullTotal(before, key) else before[first].value)
  }

  // ----- What the repair achieves -----

  /** The constraint that the next migration adds. */
  predicate NullsUnique(rows: Rows, key: Key) {
    |NullIds(rows, key)| <= 1
  }

  lemma ConstraintHolds(before: Rows, after: Rows, key: Key)
    requires IsCleared(before, after, key)
    ensures NullsUnique(after, key)
  {
    if IsDuplicated(before, key) {
      var first :| At(before, first, key) && ReducedTo(before, after, key, first);
      assert NullIds(after, key) == if before[first].subgroup.None? then {first} else {};
    } else {
      assert NullIds(after, key) == NullIds(before, key);
    }
  }

  /** One null row is left if there was any, it was there before, and the rows with a subgroup are untouched. */
  ghost predicate Repaired(before: Rows, after: Rows, key: Key) {
    && |NullIds(after, key)| == (if NullIds(before, key) == {} then 0 else 1)
    && NullIds(after, key) <= NullIds(before, key)
    && (!AddedUp(key.property) ==> forall id :: id in NullIds(after, key) ==> after[id] == before[id])
    && forall id :: id in Ids(before, key) - NullIds(before, key) ==> id in after && after[id] == before[id]
  }

  predicate Mixed(rows: Rows, key: Key) {
    IsDuplicated(rows, key) && NullIds(rows, key) != Ids(rows, key)
  }

  /**
   * The deletion does not look at the subgroup. So the repair is right exactly for the keys that do not combine several
   * null rows with a row that has a subgroup.
   */
  lemma RepairedUnlessMixed(before: Rows, after: Rows, key: Key)
    requires IsCleared(before, after, key)
    ensures Repaired(before, after, key) <==> !Mixed(before, key)
  {
    if IsDuplicated(before, key) {
      var first :| At(before, first, key) && ReducedTo(before, after, key, first);
      assert NullIds(after, key) == if before[first].subgroup.None? then {first} else {};
      if Mixed(before, key) {
        assert NullIds(before, key) <= Ids(before, key);
        var id := OneMore(NullIds(before, key), Ids(before, key));
        assert id in after && after[id] == before[id] ==> At(after, id, key);
      } else {
        assert first in Ids(before, key);
      }
    } else {
      assert NullIds(after, key) == NullIds(before, key);
      SmallSet(NullIds(before, key));
    }
  }

  lemma SmallSet(a: set<int>)
    requires |a| <= 1
    ensures |a| == if a == {} then 0 else 1
  {
  }

  predicate NullsAreZero(rows: Rows, key: Key) {
    forall id :: id in NullIds(rows, key) ==> rows[id].value == 0
  }

  /** What the migration would have to check first. */
  ghost predicate KeepsTotal(rows: Rows, key: Key) {
    || !IsDuplicated(rows, key) || NullsAreZero(rows, key)
    || (AddedUp(key.property) && (Mixed(rows, key) ==> NullTotal(rows, key) == 0))
  }

  lemma TotalOfSurvivor(before: Rows, after: Rows, key: Key, first: int)
    requires At(before, first, key) && ReducedTo(before, after, key, first)
    ensures NullTotal(after, key)
         == if before[first].subgroup.Some? then 0
            else if AddedUp(key.property) then NullTotal(before, key) else before[first].value
  {
    assert first in Ids(before, key);
    if before[first].subgroup.None? {
      assert NullIds(after, key) == {first};
      SumOne(first, ValueOf(after));
    } else {
      assert NullIds(after, key) == {};
    }
  }

  lemma TotalSurvives(before: Rows, after: Rows, key: Key)
    requires IsCleared(before, after, key) && KeepsTotal(before, key)
    ensures NullTotal(after, key) == NullTotal(before, key)
  {
    if IsDuplicated(before, key) {
      var first :| At(before, first, key) && ReducedTo(before, after, key, first);
      TotalOfSurvivor(before, after, key, first);
      if NullsAreZero(before, key) {
        SumConst(NullIds(before, key), ValueOf(before), 0);
        assert before[first].subgroup.None? ==> first in NullIds(before, key);
      } else if before[first].subgroup.Some? {
        assert first in Ids(before, key) && first !in NullIds(before, key);
      }
    } else {
      SameNulls(before, after, key);
    }
  }

  /** The database may list any row of the key first. */
  lemma AnyRowMaySurvive(before: Rows, key: Key, first: int) returns (after: Rows)
    requires IsDuplicated(before, key) && At(before, first, key)
    ensures IsCleared(before, after, key) && ReducedTo(before, after, key, first)
  {
    after := map[first := before[first].(
                   value := if AddedUp(key.property) then NullTotal(before, key) else before[first].value)];
  }

  lemma TimesItself(total: int, n: int)
    requires total * n == total && n > 1
    ensures total == 0
  {
    assert total * (n - 1) == 0;
  }

  lemma OneMore(part: set<int>, whole: set<int>) returns (id: int)
    requires part <= whole && part != whole
    ensures id in whole && id !in part
  {
    EmptySet(whole - part);
    if whole - part == {} {
      forall other | other in whole
        ensures other in part
      {
        assert other !in whole - part;
      }
    }
    id :| id in whole - part;
  }

  /** Some survivor would carry another total. */
  lemma TotalMayBeLost(before: Rows, key: Key) returns (after: Rows)
    requires !KeepsTotal(before, key)
    ensures IsCleared(before, after, key) && NullTotal(after, key) != NullTotal(before, key)
  {
    var nulls, total := NullIds(before, key), NullTotal(before, key);
    var first: int;
    if AddedUp(key.property) {
      assert nulls <= Ids(before, key);
      first := OneMore(nulls, Ids(before, key));
    } else if id :| id in nulls && before[id].value != total {
      first := id;
    } else {
      SumConst(nulls, ValueOf(before), total);
      TimesItself(total, |nulls|);
      assert false;
    }
    after := AnyRowMaySurvive(before, key, first);
    TotalOfSurvivor(before, after, key, first);
  }

  /**
   * Whichever row is listed first, the total of a key's null rows survives exactly when there is nothing to clear, or
   * they are all 0, or the property is one of the two and no row with a subgroup takes the place of a total other than
   * 0.
   */
  lemma TotalKept(before: Rows, key: Key)
    ensures (forall after :: IsCleared(before, after, key) ==> NullTotal(after, key) == NullTotal(before, key))
       <==> KeepsTotal(before, key)
  {
    if KeepsTotal(before, key) {
      forall after | IsCleared(before, after, key)
        ensures NullTotal(after, key) == NullTotal(before, key)
      {
        TotalSurvives(before, after, key);
      }
    } else {
      var after := TotalMayBeLost(before, key);
    }
  }

  /** Duplicates that all have the value they should leave that value. */
  lemma EqualDuplicates(before: Rows, after: Rows, key: Key, value: int)
    requires IsCleared(before, after, key) && !Mixed(before, key) && !AddedUp(key.property) &&
        NullIds(before, key) != {}
    requires forall id :: id in NullIds(before, key) ==> before[id].value == value
    ensures NullTotal(after, key) == value
  {
    if IsDuplicated(before, key) {
      var first :| At(before, first, key) && ReducedTo(before, after, key, first);
      assert first in Ids(before, key);
      TotalOfSurvivor(before, after, key, first);
    } else {
      SameNulls(before, after, key);
      SmallSet(NullIds(before, key));
      SumConst(NullIds(before, key), ValueOf(before), value);
    }
  }

  lemma SumOne(id: int, f: int -> int)
    ensures Sum({id}, f) == f(id)
  {
    SumRemove({id}, f, id);
    assert {id} - {id} == {};
  }

  /** `messages_read::hour` is logged too, but is not added up: its parts 3 and 4 do not become 7. */
  lemma MessagesReadIsNotAddedUp(after: Rows)
    requires var key := Key(1, "messages_read::hour", 0);
             IsCleared(map[1 := CountRow(key, None, 3), 2 := CountRow(key, None, 4)], after, key)
    ensures var key := Key(1, "messages_read::hour", 0);
            NullTotal(after, key) in {3, 4}
  {
    var key := Key(1, "messages_read::hour", 0);
    var before := map[1 := CountRow(key, None, 3), 2 := CountRow(key, None, 4)];
    assert NullIds(before, key) == {1, 2} == Ids(before, key);
    var first :| At(before, first, key) && ReducedTo(before, after, key, first);
    TotalOfSurvivor(before, after, key, first);
  }

  /** A mixed key loses its row with a subgroup, or its null rows. */
  lemma MixedKeyLoses(after: Rows)
    requires var key := Key(1, "invites_sent::day", 0);
             IsCleared(map[1 := CountRow(key, None, 3), 2 := CountRow(key, None, 4), 3 := CountRow(key, Some("x"), 5)],
                       after, key)
    ensures !Repaired(map[1 := CountRow(Key(1, "invites_sent::day", 0), None, 3),
                          2 := CountRow(Key(1, "invites_sent::day", 0), None, 4),
                          3 := CountRow(Key(1, "invites_sent::day", 0), Some("x"), 5)], after,
                              Key(1, "invites_sent::day", 0))
  {
    var key := Key(1, "invites_sent::day", 0);
    var before := map[1 := CountRow(key, None, 3), 2 := CountRow(key, None, 4), 3 := CountRow(key, Some("x"), 5)];
    assert NullIds(before, key) == {1, 2} && 3 in Ids(before, key);
    RepairedUnlessMixed(before, after, key);
  }

  // ----- The migration -----

  class CountTable {
    var rows: Rows

    constructor (rows: Rows)
      ensures this.rows == rows
    {
      this.rows := rows;
    }

    /** `Sum("value")` over the null rows of a key. */
    method AnnotatedSum(key: Key) returns (total: int)
      ensures total == NullTotal(rows, key)
    {
      total := 0;
      var todo := NullIds(rows, key);
      while todo != {}
        invariant todo <= NullIds(rows, key)
        invariant total + Sum(todo, ValueOf(rows)) == NullTotal(rows, key)
        decreases |todo|
      {
        var id := Pick(todo);
        SumRemove(todo, ValueOf(rows), id);
        total := total + rows[id].value;
        todo := todo - {id};
      }
    }

    /** The grouping query: every key with more than one null row, and their total. */
    method DuplicatedKeys() returns (counts: map<Key, int>)
      ensures forall key :: key in counts <==> IsDuplicated(rows, key)
      ensures forall key :: key in counts ==> counts[key] == NullTotal(rows, key)
    {
      counts := map[];
      var todo := set id | id in rows :: rows[id].key;
      ghost var all := todo;
      while todo != {}
        invariant todo <= all
        invariant forall key :: key in counts <==> key in all - todo && IsDuplicated(rows, key)
        invariant forall key :: key in counts ==> counts[key] == NullTotal(rows, key)
        decreases |todo|
      {
        var key :| key in todo;
        if IsDuplicated(rows, key) {
          var total := AnnotatedSum(key);
          counts := counts[key := total];
        }
        todo := todo - {key};
      }
      forall key | IsDuplicated(rows, key)
        ensures key in all
      {
        EmptySet(NullIds(rows, key));
        var id :| id in NullIds(rows, key);
      }
    }

    method DeleteRows(ids: set<int>)
      modifies this
      ensures rows == old(rows) - ids
    {
      var toCleanup := ids;
      while toCleanup != {}
        invariant toCleanup <= ids && rows == old(rows) - (ids - toCleanup)
        decreases |toCleanup|
      {
        var id := Pick(toCleanup);
        rows := rows - {id};
        toCleanup := toCleanup - {id};
      }
    }

    /** One pass of the outer loop. */
    method ClearKey(key: Key, total: int)
      requires IsDuplicated(rows, key) && total == NullTotal(rows, key)
      modifies this
      ensures IsCleared(old(rows), rows, key)
      ensures forall other :: other != key ==> SameAt(old(rows), rows, other)
    {
      var duplicateCounts := Ids(rows, key);
      assert NullIds(rows, key) <= duplicateCounts;
      var first := Pick(duplicateCounts);
      if AddedUp(key.property) {
        rows := rows[first := rows[first].(value := total)];
      }
      DeleteRows(duplicateCounts - {first});
      ReducedBy(old(rows), rows, key, first);
    }

    /** `clear_duplicate_counts` on this table. */
    method ClearDuplicateCounts()
      modifies this
      ensures forall key :: IsCleared(old(rows), rows, key)
    {
      var counts := DuplicatedKeys();
      var todo := counts.Keys;
      while todo != {}
        invariant todo <= counts.Keys
        invariant forall key :: key !in todo ==> IsCleared(old(rows), rows, key)
        invariant forall key :: key in todo ==> SameAt(old(rows), rows, key)
        decreases |todo|
      {
        var key :| key in todo;
        ClearOne(key, counts[key], old(rows), todo);
        todo := todo - {key};
      }
    }

    /** The same pass, seen from the rows as they were before the loop. */
    method ClearOne(key: Key, total: int, ghost start: Rows, ghost todo: set<Key>)
      requires key in todo && SameAt(start, rows, key) && IsDuplicated(start, key)
      requires total == NullTotal(start, key)
      requires forall other :: other !in todo ==> IsCleared(start, rows, other)
      requires forall other :: other in todo ==> SameAt(start, rows, other)
      modifies this
      ensures forall other :: other !in todo - {key} ==> IsCleared(start, rows, other)
      ensures forall other :: other in todo - {key} ==> SameAt(start, rows, other)
    {
      SameNulls(start, rows, key);
      ghost var before := rows;
      ClearKey(key, total);
      forall other | other !in todo - {key}
        ensures IsCleared(start, rows, other)
      {
        ClearedStill(start, before, rows, other, key);
      }
      forall other | other in todo - {key}
        ensures SameAt(start, rows, other)
      {
        SameTwice(start, before, rows, other);
      }
    }
  }

  lemma SameTwice(start: Rows, before: Rows, after: Rows, key: Key)
    requires SameAt(start, before, key) && SameAt(before, after, key)
    ensures SameAt(start, after, key)
  {
  }

  lemma ReducedBy(before: Rows, after: Rows, key: Key, first: int)
    requires At(before, first, key) && after.Keys == before.Keys - (Ids(before, key) - {first})
    requires forall id :: id in after && id != first ==> after[id] == before[id]
    requires after[first] == before[first].(
               value := if AddedUp(key.property) then NullTotal(before, key) else before[first].value)
    ensures ReducedTo(before, after, key, first)
    ensures forall other :: other != key ==> SameAt(before, after, other)
  {
    forall id | At(after, id, key)
      ensures id == first
    {
      assert id != first ==> id in Ids(before, key);
    }
  }

  lemma SameNulls(before: Rows, after: Rows, key: Key)
    requires SameAt(before, after, key)
    ensures NullIds(after, key) == NullIds(before, key)
    ensures NullTotal(after, key) == NullTotal(before, key)
  {
    forall id
      ensures id in NullIds(after, key) <==> id in NullIds(before, key)
    {
      assert id in Ids(after, key) <==> id in Ids(before, key);
    }
    SumAgree(NullIds(before, key), ValueOf(after), ValueOf(before));
  }

  /** Clearing one key completes that key and leaves every other as it was. */
  lemma ClearedStill(start: Rows, before: Rows, after: Rows, key: Key, cleared: Key)
    requires if key == cleared then SameAt(start, before, key) && IsCleared(before, after, key)
             else IsCleared(start, before, key) && SameAt(before, after, key)
    ensures IsCleared(start, after, key)
  {
    if key == cleared {
      SameNulls(start, before, key);
      if IsDuplicated(before, key) {
        var first :| At(before, first, key) && ReducedTo(before, after, key, first);
        assert first in Ids(before, key);
        assert ReducedTo(start, after, key, first);
      }
    } else if IsDuplicated(start, key) {
      var first :| At(start, first, key) && ReducedTo(start, before, key, first);
      assert first in Ids(after, key);
      assert ReducedTo(start, after, key, first);
    }
  }
}
