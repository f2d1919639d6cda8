/** The process-wide rounding switch of pygame_widgets/_internal.py. */
module Overflow {
  import opened Wrappers

  datatype OverflowBehavior = Overflow | Underflow

  /** `math.floor(x / y)` computed exactly. Dafny's `/` is Euclidean, which is
      the floor only for a positive divisor, so a negative divisor is turned
      around first. */
  function FloorDiv(x: int, y: int): (q: int)
    requires y != 0
    ensures y > 0 ==> q * y <= x < q * y + y
    ensures y < 0 ==> q * y + y < x <= q * y
  {
    if y > 0 then x / y else (-x) / (-y)
  }

  /** `math.ceil(x / y)` computed exactly. */
  function CeilDiv(x: int, y: int): (q: int)
    requires y != 0
    ensures y > 0 ==> q * y - y < x <= q * y
    ensures y < 0 ==> q * y <= x < q * y - y
  {
    -FloorDiv(-x, y)
  }

  /** `divide_with_overflow`: ceil under OVERFLOW, floor under UNDERFLOW; a zero
      divisor is not guarded, so Python's true division raises. */
  function DivideWithOverflow(behavior: OverflowBehavior, x: int, y: int): (r: Result<int>)
    ensures r.Failure? <==> y == 0
    ensures r.Failure? ==> r.error == ZeroDivisionError
    ensures r.Success? && behavior == Underflow ==> r.value == FloorDiv(x, y)
    ensures r.Success? && behavior == Overflow ==> r.value == CeilDiv(x, y)
  {
    if y == 0 then Failure(ZeroDivisionError)
    else if behavior == Overflow then Success(CeilDiv(x, y))
    else Success(FloorDiv(x, y))
  }

  /** Halving, the one division the layouts perform through the switch. */
  function Half(behavior: OverflowBehavior, x: int): (r: int)
    ensures behavior == Underflow ==> 2 * r <= x < 2 * r + 2
    ensures behavior == Overflow ==> 2 * r - 2 < x <= 2 * r
  {
    DivideWithOverflow(behavior, x, 2).value
  }

  /** The two roundings agree exactly when `y` divides `x`, and otherwise the
      ceiling is one above the floor. */
  lemma {:induction false} RoundingsDifferByAtMostOne(x: int, y: int)
    requires y != 0
    ensures CeilDiv(x, y) == FloorDiv(x, y) <==> FloorDiv(x, y) * y == x
    ensures CeilDiv(x, y) != FloorDiv(x, y) ==> CeilDiv(x, y) == FloorDiv(x, y) + 1
  {
    var f, c := FloorDiv(x, y), CeilDiv(x, y);
    if y > 0 {
      SubtractScaled(c, f, y);
      MultipleBounds(c - f, y);
    } else {
      SubtractScaled(c, f, -y);
      assert c * (-y) == -(c * y) && f * (-y) == -(f * y);
      MultipleBounds(c - f, -y);
    }
  }

  /** A multiple of a positive number strictly between `-d` and `2 * d` is `0` or `d`. */
  lemma MultipleBounds(k: int, d: int)
    requires d > 0 && -d < k * d < 2 * d
    ensures k == 0 || k == 1
  {
    ScaleMonotone(k, -1, d);
    ScaleMonotone(2, k, d);
  }

  lemma SubtractScaled(a: int, b: int, d: int)
    ensures (a - b) * d == a * d - b * d
  {
  }

  lemma ScaleMonotone(a: int, b: int, d: int)
    requires d > 0
    ensures a <= b ==> a * d <= b * d
  {
    assert (b - a) * d == b * d - a * d;
  }

  /** The switch itself: one object per process, UNDERFLOW until it is set. */
  class OverflowSetting {
    var behavior: OverflowBehavior

    constructor ()
      ensures behavior == Underflow
    {
      behavior := Underflow;
    }

    /** `set_overflow_behavior`: every later division uses the new rule. */
    method SetOverflowBehavior(b: OverflowBehavior)
      modifies this
      ensures behavior == b
    {
      behavior := b;
    }

    /** `divide_with_overflow` under the current setting. */
    method Divide(x: int, y: int) returns (r: Result<int>)
      ensures y != 0 && behavior == Underflow ==> r == Success(FloorDiv(x, y))
      ensures y != 0 && behavior == Overflow ==> r == Success(CeilDiv(x, y))
      ensures y == 0 ==> r == Failure(ZeroDivisionError)
    {
      r := DivideWithOverflow(behavior, x, y);
    }
  }

  /** 100 / 3 rounds to 33 by default and to 34 once OVERFLOW is selected, and
      the choice holds for every later division until it is set again. */
  method SettingAffectsLaterDivisions() returns (before: Result<int>, after: Result<int>)
    ensures before == Success(33) && after == Success(34)
  {
    var setting := new OverflowSetting();
    before := setting.Divide(100, 3);
    setting.SetOverflowBehavior(Overflow);
    after := setting.Divide(100, 3);
  }
}
