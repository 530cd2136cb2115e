/** `do_pull_minutes_active`: how long each user was active within a window, in whole minutes. */
module MinutesActive {
  import opened Integers
  import opened Times
  import opened SetSums
  import opened CountTables

  datatype Interval = Interval(user: int, start: int, end: int)

  predicate Overlaps(iv: Interval, a: int, b: int) {
    iv.end > a && iv.start < b
  }

  function Clipped(iv: Interval, a: int, b: int): int {
    if Overlaps(iv, a, b) then Min(b, iv.end) - Max(a, iv.start) else 0
  }

  /** Total overlap of the user's intervals with the window. */
  function Seconds(intervals: seq<Interval>, u: int, a: int, b: int): int {
    if intervals == [] then 0
    else
      var last := intervals[|intervals| - 1];
      Seconds(intervals[..|intervals| - 1], u, a, b) + if last.user == u then Clipped(last, a, b) else 0
  }

  predicate Forward(intervals: seq<Interval>) {
    forall iv :: iv in intervals ==> iv.start <= iv.end
  }

  function Users(intervals: seq<Interval>): set<int> {
    set iv | iv in intervals :: iv.user
  }

  /** The rows inserted for the window that ends at `b`. */
  function MinutesRows(intervals: seq<Interval>, realmOf: int -> int, p: Property, a: int, b: int): Rows {
    map k | k in (set u | u in Users(intervals) && Seconds(intervals, u, a, b) >= 60 ::
        Key(UserCount, u, p, NoSubgroup, b))
      :: Cell(realmOf(k.owner), Seconds(intervals, k.owner, a, b) / 60)
  }

  // ----- What the clipped time is -----

  predicate IsActive(iv: Interval, x: int) {
    iv.start <= x < iv.end
  }

  /** The seconds of the window that lie in the interval. */
  function Overlap(iv: Interval, a: int, b: int): set<int> {
    set x | a <= x < b && IsActive(iv, x)
  }

  function OverlapSizes(intervals: seq<Interval>, a: int, b: int): int -> int {
    i => if 0 <= i < |intervals| then |Overlap(intervals[i], a, b)| else 0
  }

  function IntervalsOf(intervals: seq<Interval>, u: int): set<int> {
    set i | 0 <= i < |intervals| && intervals[i].user == u
  }

  /** The time the user was active within the window, interval by interval. */
  ghost function ActiveTime(intervals: seq<Interval>, u: int, a: int, b: int): int {
    Sum(IntervalsOf(intervals, u), OverlapSizes(intervals, a, b))
  }

  lemma {:induction false} ClippedIsOverlap(iv: Interval, a: int, b: int)
    requires iv.start <= iv.end && a <= b
    ensures Clipped(iv, a, b) == |Overlap(iv, a, b)|
    decreases b - a
  {
    if a == b {
      assert Overlap(iv, a, b) == {};
    } else {
      ClippedIsOverlap(iv, a, b - 1);
      assert Overlap(iv, a, b) == Overlap(iv, a, b - 1) + if IsActive(iv, b - 1) then {b - 1} else {};
    }
  }

  lemma IntervalsAppend(front: seq<Interval>, iv: Interval, u: int)
    ensures IntervalsOf(front + [iv], u) == IntervalsOf(front, u) + if iv.user == u then {|front|} else {}
  {
    var more := front + [iv];
    assert forall i :: 0 <= i < |front| ==> more[i] == front[i];
  }

  lemma SizesAppend(front: seq<Interval>, iv: Interval, a: int, b: int)
    ensures forall i :: 0 <= i < |front| ==> OverlapSizes(front + [iv], a, b)(i) == OverlapSizes(front, a, b)(i)
    ensures OverlapSizes(front + [iv], a, b)(|front|) == |Overlap(iv, a, b)|
  {
  }

  lemma ActiveTimeAppend(front: seq<Interval>, iv: Interval, u: int, a: int, b: int)
    ensures ActiveTime(front + [iv], u, a, b)
         == ActiveTime(front, u, a, b) + if iv.user == u then |Overlap(iv, a, b)| else 0
  {
    var before, after := IntervalsOf(front, u), IntervalsOf(front + [iv], u);
    var sizes := OverlapSizes(front + [iv], a, b);
    IntervalsAppend(front, iv, u);
    SizesAppend(front, iv, a, b);
    SumAgree(before, OverlapSizes(front, a, b), sizes);
    if iv.user == u {
      SumRemove(after, sizes, |front|);
      assert after - {|front|} == before;
    } else {
      assert after == before;
    }
  }

  lemma {:induction false} SecondsAreActiveTime(intervals: seq<Interval>, u: int, a: int, b: int)
    requires Forward(intervals) && a <= b
    ensures Seconds(intervals, u, a, b) == ActiveTime(intervals, u, a, b)
  {
    if intervals == [] {
      assert IntervalsOf(intervals, u) == {};
    } else {
      var front, last := intervals[..|intervals| - 1], intervals[|intervals| - 1];
      assert last in intervals && forall iv :: iv in front ==> iv in intervals;
      SecondsAreActiveTime(front, u, a, b);
      ClippedIsOverlap(last, a, b);
      ActiveTimeAppend(front, last, u, a, b);
      assert intervals == front + [last];
    }
  }

  /** The row is there exactly for a time of at least a minute, and holds its whole minutes. */
  predicate HoldsMinutes(rows: Rows, k: Key, time: int, realm: int) {
    && (k in rows <==> time >= 60)
    && (k in rows ==> rows[k].realm == realm && 60 * rows[k].value <= time < 60 * rows[k].value + 60)
  }

  /** Each user has the row of the active time, and there is no other row. */
  ghost predicate StoresMinutes(rows: Rows, intervals: seq<Interval>, realmOf: int -> int, p: Property, a: int,
                                b: int) {
    && (forall k :: k in rows ==> k == Key(UserCount, k.owner, p, NoSubgroup, b))
    && forall u :: HoldsMinutes(rows, Key(UserCount, u, p, NoSubgroup, b), ActiveTime(intervals, u, a, b), realmOf(u))
  }

  lemma MinutesAreStored(intervals: seq<Interval>, realmOf: int -> int, p: Property, a: int, b: int)
    requires Forward(intervals) && a <= b
    ensures StoresMinutes(MinutesRows(intervals, realmOf, p, a, b), intervals, realmOf, p, a, b)
  {
    var rows := MinutesRows(intervals, realmOf, p, a, b);
    forall u
      ensures HoldsMinutes(rows, Key(UserCount, u, p, NoSubgroup, b), ActiveTime(intervals, u, a, b), realmOf(u))
    {
      SecondsAreActiveTime(intervals, u, a, b);
      if u !in Users(intervals) {
        SecondsOfStranger(intervals, u, a, b);
      }
    }
  }

  // ----- The loop -----

  lemma SecondsAppend(intervals: seq<Interval>, i: nat, u: int, a: int, b: int)
    requires i < |intervals|
    ensures Seconds(intervals[..i + 1], u, a, b)
         == Seconds(intervals[..i], u, a, b) + if intervals[i].user == u then Clipped(intervals[i], a, b) else 0
  {
    assert intervals[..i + 1][..i] == intervals[..i];
  }

  lemma {:induction false} SecondsOfStranger(intervals: seq<Interval>, u: int, a: int, b: int)
    requires u !in Users(intervals)
    ensures Seconds(intervals, u, a, b) == 0
  {
    if intervals != [] {
      var rest := intervals[..|intervals| - 1];
      assert forall iv :: iv in rest ==> iv in intervals;
      assert intervals[|intervals| - 1] in intervals;
      SecondsOfStranger(rest, u, a, b);
    }
  }

  method PullMinutesActive(intervals: seq<Interval>, realmOf: int -> int, p: Property, a: int, b: int)
    returns (rows: Rows)
    ensures rows == MinutesRows(intervals, realmOf, p, a, b)
    ensures Forward(intervals) && a <= b ==> StoresMinutes(rows, intervals, realmOf, p, a, b)
  {
    var secondsActive: map<int, int> := map[];
    for i := 0 to |intervals|
      invariant forall u :: u in secondsActive ==> u in Users(intervals)
      invariant forall u :: (if u in secondsActive then secondsActive[u] else 0) == Seconds(intervals[..i], u, a, b)
    {
      var iv := intervals[i];
      forall u
        ensures Seconds(intervals[..i + 1], u, a, b)
             == Seconds(intervals[..i], u, a, b) + if iv.user == u then Clipped(iv, a, b) else 0
      {
        SecondsAppend(intervals, i, u, a, b);
      }
      if Overlaps(iv, a, b) {
        var start, end := Max(a, iv.start), Min(b, iv.end);
        var before := if iv.user in secondsActive then secondsActive[iv.user] else 0;
        secondsActive := secondsActive[iv.user := before + (end - start)];
      }
    }
    assert intervals[..|intervals|] == intervals;
    rows := map k | k in (set u | u in secondsActive && secondsActive[u] >= 60 :: Key(UserCount, u, p, NoSubgroup, b))
      :: Cell(realmOf(k.owner), secondsActive[k.owner] / 60);
    forall k
      ensures k in rows <==> k in MinutesRows(intervals, realmOf, p, a, b)
    {
      assert k in rows <==>
             k == Key(UserCount, k.owner, p, NoSubgroup, b) && k.owner in secondsActive && secondsActive[k.owner] >= 60;
    }
    SameRows(rows, MinutesRows(intervals, realmOf, p, a, b));
    if Forward(intervals) && a <= b {
      MinutesAreStored(intervals, realmOf, p, a, b);
    }
  }

  // ----- The bound -----

  lemma ClippedSplits(iv: Interval, a: int, b: int, c: int)
    requires iv.start <= iv.end && a <= b <= c
    ensures Clipped(iv, a, b) + Clipped(iv, b, c) == Clipped(iv, a, c)
    ensures 0 <= Clipped(iv, a, b) <= b - a
  {
  }

  lemma {:induction false} SecondsSplit(intervals: seq<Interval>, u: int, a: int, b: int, c: int)
    requires Forward(intervals) && a <= b <= c
    ensures Seconds(intervals, u, a, b) + Seconds(intervals, u, b, c) == Seconds(intervals, u, a, c)
    ensures Seconds(intervals, u, a, b) >= 0
  {
    if intervals != [] {
      ClippedSplits(intervals[|intervals| - 1], a, b, c);
      assert forall iv :: iv in intervals[..|intervals| - 1] ==> iv in intervals;
      SecondsSplit(intervals[..|intervals| - 1], u, a, b, c);
    }
  }

  /** The minutes on record for the window that ends at `b`; nothing is stored below one minute. */
  function StoredMinutes(intervals: seq<Interval>, u: int, a: int, b: int): int {
    ValueAt(MinutesRows(intervals, _ => 0, MinutesActiveDay, a, b), Key(UserCount, u, MinutesActiveDay, NoSubgroup, b))
  }

  lemma StoredIsWholeMinutes(intervals: seq<Interval>, u: int, a: int, b: int)
    requires Forward(intervals) && a <= b
    ensures StoredMinutes(intervals, u, a, b) == Seconds(intervals, u, a, b) / 60
  {
    SecondsSplit(intervals, u, a, a, b);
    var k := Key(UserCount, u, MinutesActiveDay, NoSubgroup, b);
    if u !in Users(intervals) {
      SecondsOfStranger(intervals, u, a, b);
    }
    assert k in MinutesRows(intervals, _ => 0, MinutesActiveDay, a, b)
      <==> u in Users(intervals) && Seconds(intervals, u, a, b) >= 60;
  }

  /** The stored minutes of `n` consecutive days from `a`. */
  function DailyMinutes(intervals: seq<Interval>, u: int, a: int, n: nat): int {
    if n == 0 then 0
    else DailyMinutes(intervals, u, a, n - 1) + StoredMinutes(intervals, u, a + (n - 1) * DAY, a + n * DAY)
  }

  lemma {:induction false} DailyMinutesBound(intervals: seq<Interval>, u: int, a: int, n: nat)
    requires Forward(intervals)
    ensures 60 * DailyMinutes(intervals, u, a, n) <= Seconds(intervals, u, a, a + n * DAY)
    ensures Seconds(intervals, u, a, a + n * DAY) <= 60 * DailyMinutes(intervals, u, a, n) + 59 * n
  {
    if n == 0 {
      SecondsSplit(intervals, u, a, a, a);
    } else {
      DailyMinutesBound(intervals, u, a, n - 1);
      SecondsSplit(intervals, u, a, a + (n - 1) * DAY, a + n * DAY);
      StoredIsWholeMinutes(intervals, u, a + (n - 1) * DAY, a + n * DAY);
    }
  }

  /** Of the time a user was active in consecutive days, the stored minutes miss less than one minute a day. */
  lemma MinutesActiveBound(intervals: seq<Interval>, u: int, a: int, n: nat)
    requires Forward(intervals)
    ensures 60 * DailyMinutes(intervals, u, a, n) <= ActiveTime(intervals, u, a, a + n * DAY)
    ensures ActiveTime(intervals, u, a, a + n * DAY) <= 60 * DailyMinutes(intervals, u, a, n) + 59 * n
  {
    DailyMinutesBound(intervals, u, a, n);
    SecondsAreActiveTime(intervals, u, a, a + n * DAY);
  }

  // ----- Disjoint intervals -----

  predicate Apart(x: Interval, y: Interval) {
    x.end <= y.start || y.end <= x.start
  }

  predicate DisjointFor(intervals: seq<Interval>, u: int) {
    forall i, j :: 0 <= i < j < |intervals| && intervals[i].user == u && intervals[j].user == u ==>
        Apart(intervals[i], intervals[j])
  }

  lemma {:induction false} NoTimeInside(intervals: seq<Interval>, u: int, x: Interval, a: int, b: int)
    requires Forward(intervals) && x.start <= a <= b <= x.end
    requires forall iv :: iv in intervals && iv.user == u ==> Apart(iv, x)
    ensures Seconds(intervals, u, a, b) == 0
  {
    if intervals != [] {
      var last := intervals[|intervals| - 1];
      assert last in intervals;
      assert forall iv :: iv in intervals[..|intervals| - 1] ==> iv in intervals;
      NoTimeInside(intervals[..|intervals| - 1], u, x, a, b);
    }
  }

  /** Disjoint intervals never cover more than the window. */
  lemma {:induction false} DisjointFitsWindow(intervals: seq<Interval>, u: int, a: int, b: int)
    requires Forward(intervals) && DisjointFor(intervals, u) && a <= b
    ensures Seconds(intervals, u, a, b) <= b - a
  {
    if intervals != [] {
      var n := |intervals| - 1;
      var rest, x := intervals[..n], intervals[n];
      assert forall iv :: iv in rest ==> iv in intervals;
      assert DisjointFor(rest, u);
      if x.user == u && Overlaps(x, a, b) {
        assert x in intervals;
        var s, e := Max(a, x.start), Min(b, x.end);
        assert forall iv :: iv in rest && iv.user == u ==> Apart(iv, x);
        NoTimeInside(rest, u, x, s, e);
        SecondsSplit(rest, u, a, s, b);
        SecondsSplit(rest, u, s, e, b);
        DisjointFitsWindow(rest, u, a, s);
        DisjointFitsWindow(rest, u, e, b);
      } else {
        DisjointFitsWindow(rest, u, a, b);
      }
    }
  }

  lemma AtMostADay(intervals: seq<Interval>, u: int, b: int)
    requires Forward(intervals) && DisjointFor(intervals, u)
    ensures StoredMinutes(intervals, u, b - DAY, b) <= 1440
  {
    DisjointFitsWindow(intervals, u, b - DAY, b);
    StoredIsWholeMinutes(intervals, u, b - DAY, b);
  }
}
