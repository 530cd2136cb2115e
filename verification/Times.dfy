/** UTC instants as whole seconds, and the hour and day boundaries of zerver/lib/timestamp.py. */
module Times {

  const HOUR := 3600
  const DAY := 86400

  datatype Frequency = Hourly | Daily

  /** `CountStat.time_increment`. */
  function TimeIncrement(frequency: Frequency): (step: int)
    ensures step > 0 && step % HOUR == 0 && DAY % step == 0
  {
    if frequency == Hourly then HOUR else DAY
  }

  /** `floor_to_hour` / `floor_to_day`: the last boundary not after `x`. */
  function Floor(x: int, step: int): (b: int)
    requires step > 0
    ensures b % step == 0
    ensures b <= x < b + step
  {
    FloorIsBoundary(x, step);
    x - x % step
  }

  /** `ceiling_to_hour` / `ceiling_to_day`: one step past the floor, unless already on a boundary. */
  function Ceiling(x: int, step: int): (b: int)
    requires step > 0
    ensures b % step == 0
    ensures b - step < x <= b
  {
    NextBoundary(x, step);
    if Floor(x, step) == x then x else Floor(x, step) + step
  }

  lemma SmallMultiple(k: int, step: int)
    requires step > 0
    ensures k >= 1 ==> k * step >= step
    ensures k <= -1 ==> k * step <= -step
  {
  }

  lemma MultipleMod(k: int, step: int)
    requires step > 0
    ensures (k * step) % step == 0
  {
    var q, r := (k * step) / step, (k * step) % step;
    SmallMultiple(k - q, step);
    assert (k - q) * step == r;
  }

  lemma FloorIsBoundary(x: int, step: int)
    requires step > 0
    ensures (x - x % step) % step == 0
  {
    assert x - x % step == x / step * step;
    MultipleMod(x / step, step);
  }

  lemma NextBoundary(x: int, step: int)
    requires step > 0
    ensures (Floor(x, step) + step) % step == 0
  {
    SumOfMultiples(Floor(x, step), step, step);
  }

  lemma SumOfMultiples(a: int, b: int, step: int)
    requires step > 0 && a % step == 0 && b % step == 0
    ensures (a + b) % step == 0 && (a - b) % step == 0
  {
    assert a == a / step * step && b == b / step * step;
    assert a + b == (a / step + b / step) * step;
    assert a - b == (a / step - b / step) * step;
    MultipleMod(a / step + b / step, step);
    MultipleMod(a / step - b / step, step);
  }

  /** Two boundaries less than one step apart are the same boundary. */
  lemma BoundariesApart(a: int, b: int, step: int)
    requires step > 0 && a % step == 0 && b % step == 0
    requires -step < a - b < step
    ensures a == b
  {
    var i, j := a / step, b / step;
    SmallMultiple(i - j, step);
    assert a == i * step && b == j * step;
    assert a - b == (i - j) * step;
  }

  /** Every instant belongs to the bucket of exactly one boundary. */
  lemma CeilingUnique(x: int, step: int, b: int)
    requires step > 0
    ensures b == Ceiling(x, step) <==> b % step == 0 && b - step < x <= b
  {
    if b % step == 0 && b - step < x <= b {
      BoundariesApart(b, Ceiling(x, step), step);
    }
  }

  /** Every multiple of a day is a multiple of a smaller increment. */
  lemma CoarserBoundary(x: int, coarse: int, fine: int)
    requires coarse > 0 && fine > 0
    requires x % coarse == 0 && coarse % fine == 0
    ensures x % fine == 0
  {
    assert coarse == coarse / fine * fine;
    assert x == x / coarse * coarse == (x / coarse * (coarse / fine)) * fine;
    MultipleMod(x / coarse * (coarse / fine), fine);
  }
}
