/** `time_range` of analytics/lib/time_utils.py: the end times a chart shows. */
module ChartTimes {
  import opened Options
  import opened Times

  /** The earliest time asked for, once `min_length` has pushed it back. */
  function PaddedStart(start: int, last: int, step: int, minLength: Option<int>): int {
    match minLength
    case None => start
    case Some(n) => if last - (n - 1) * step < start then last - (n - 1) * step else start
  }

  /** How many boundaries lie from `start` to the boundary `last`. */
  function Boundaries(start: int, last: int, step: int): nat
    requires step > 0
  {
    if last < start then 0 else (last - start) / step + 1
  }

  function Reverse<T>(s: seq<T>): (r: seq<T>)
    ensures |r| == |s| && forall i :: 0 <= i < |s| ==> r[i] == s[|s| - 1 - i]
  {
    if s == [] then [] else Reverse(s[1..]) + [s[0]]
  }

  ghost predicate IsTimeRange(times: seq<int>, start: int, end: int, step: int, minLength: Option<int>)
    requires step > 0
  {
    var last := Floor(end, step);
    && |times| == Boundaries(PaddedStart(start, last, step, minLength), last, step)
    && forall i :: 0 <= i < |times| ==> times[i] == last - (|times| - 1 - i) * step
  }

  /** Ascending, one step apart, ending at the floor of `end`, and exactly as long as the padded start makes it. */
  method TimeRange(start: int, end: int, frequency: Frequency, minLength: Option<int>) returns (times: seq<int>)
    ensures IsTimeRange(times, start, end, TimeIncrement(frequency), minLength)
    ensures forall t :: t in times <==>
              t % TimeIncrement(frequency) == 0 && Covers(start, end, TimeIncrement(frequency), minLength, t)
  {
    var step := TimeIncrement(frequency);
    var last := Floor(end, step);
    var first := PaddedStart(start, last, step, minLength);
    var backwards: seq<int> := [];
    var current := last;
    while current >= first
      invariant current == last - |backwards| * step
      invariant forall i :: 0 <= i < |backwards| ==> backwards[i] == last - i * step
      invariant |backwards| > 0 ==> current + step >= first
    {
      backwards := backwards + [current];
      current := current - step;
    }
    CountedDown(first, last, step, |backwards|);
    times := Reverse(backwards);
    forall t
      ensures t in times <==> t % step == 0 && Covers(start, end, step, minLength, t)
    {
      RangeMembers(start, end, step, minLength, times, t);
    }
  }

  lemma CountedDown(first: int, last: int, step: int, n: nat)
    requires step > 0 && last - n * step < first && (n > 0 ==> last - n * step + step >= first)
    ensures n == Boundaries(first, last, step)
  {
    if n > 0 {
      assert last - first - (n - 1) * step < step;
      Quotient(last - first, n - 1, step);
    }
  }

  lemma Quotient(x: int, q: int, step: int)
    requires step > 0 && 0 <= x - q * step < step
    ensures x / step == q
  {
    var d := x / step - q;
    SmallMultiple(d, step);
    assert x == x / step * step + x % step;
    assert d * step == x / step * step - q * step;
  }

  /**
   * The range a chart is asked for: from `start` to `end`, and with a `min_length` also what is less than that many
   * steps before the last boundary.
   */
  predicate Covers(start: int, end: int, step: int, minLength: Option<int>, t: int)
    requires step > 0
  {
    t <= end && (start <= t || (minLength.Some? && Floor(end, step) - t < minLength.value * step))
  }

  lemma PaddedCovers(start: int, end: int, step: int, minLength: Option<int>, t: int)
    requires step > 0 && t % step == 0
    ensures Covers(start, end, step, minLength, t) <==>
              PaddedStart(start, Floor(end, step), step, minLength) <= t <= end
  {
    var last := Floor(end, step);
    SumOfMultiples(last, t, step);
    var back := (last - t) / step;
    assert last - t == back * step;
    if minLength.Some? {
      SmallMultiple(minLength.value - back, step);
      assert (minLength.value - back) * step == minLength.value * step - (last - t);
    }
    if t <= end && t > last {
      BoundariesApart(t, last, step);
    }
  }

  /** The list holds exactly the boundaries of that range. */
  lemma RangeMembers(start: int, end: int, step: int, minLength: Option<int>, times: seq<int>, t: int)
    requires step > 0 && IsTimeRange(times, start, end, step, minLength)
    ensures t in times <==> t % step == 0 && Covers(start, end, step, minLength, t)
  {
    var last := Floor(end, step);
    var first := PaddedStart(start, last, step, minLength);
    if t in times {
      var i :| 0 <= i < |times| && times[i] == t;
      BackInRange(first, last, step, |times| - 1 - i);
      PaddedCovers(start, end, step, minLength, t);
    }
    if t % step == 0 && Covers(start, end, step, minLength, t) {
      PaddedCovers(start, end, step, minLength, t);
      if t > last {
        BoundariesApart(t, last, step);
      }
      var back := StepsBack(first, last, step, t);
      assert times[|times| - 1 - back] == t;
    }
  }

  lemma BackInRange(first: int, last: int, step: int, back: nat)
    requires step > 0 && last % step == 0 && back < Boundaries(first, last, step)
    ensures (last - back * step) % step == 0 && first <= last - back * step <= last
  {
    MultipleMod(back, step);
    SumOfMultiples(last, back * step, step);
    SmallMultiple(back, step);
    SmallMultiple((last - first) / step - back, step);
    assert ((last - first) / step - back) * step == (last - first) / step * step - back * step;
  }

  lemma StepsBack(first: int, last: int, step: int, t: int) returns (back: nat)
    requires step > 0 && last % step == 0 && t % step == 0 && first <= t <= last
    ensures back < Boundaries(first, last, step) && last - back * step == t
  {
    SumOfMultiples(last, t, step);
    back := (last - t) / step;
    QuotientMonotone(last - t, last - first, step);
  }

  lemma QuotientMonotone(x: int, y: int, step: int)
    requires step > 0 && x <= y
    ensures x / step <= y / step
  {
    var d := x / step - y / step;
    SmallMultiple(d, step);
    assert d * step == x / step * step - y / step * step;
    assert x == x / step * step + x % step && y == y / step * step + y % step;
  }

  /** A positive `min_length` is a lower bound on the length and nothing more; any other value changes nothing. */
  lemma MinLength(start: int, last: int, step: int, n: int)
    requires step > 0
    ensures var plain := Boundaries(start, last, step);
            Boundaries(PaddedStart(start, last, step, Some(n)), last, step) == if n > plain then n else plain
  {
    var plain, padded := Boundaries(start, last, step), last - (n - 1) * step;
    SmallMultiple(n - 1, step);
    if padded < start {
      if n > 0 {
        Quotient(last - padded, n - 1, step);
        if last >= start {
          QuotientMonotone(last - start, last - padded, step);
        }
      }
    } else if last >= start {
      QuotientMonotone(last - padded, last - start, step);
      Quotient(last - padded, n - 1, step);
    }
  }

  lemma Ascends(times: seq<int>, last: int, step: int)
    requires step > 0
    requires forall i :: 0 <= i < |times| ==> times[i] == last - (|times| - 1 - i) * step
    ensures forall i, j :: 0 <= i < j < |times| ==> times[i] < times[j]
  {
    forall i, j | 0 <= i < j < |times|
      ensures times[i] < times[j]
    {
      SmallMultiple(j - i, step);
      assert times[j] - times[i] == (j - i) * step;
    }
  }
}
