/** Normalised two-part times: seconds and a fraction counted in units per second (10^6 or 10^9), with the add,
    subtract and multiply macros that write their result field by field, possibly over one of their operands. */
module TimeOps {
  import Bits

  const SEC_TO_NSEC := 1000000000

  datatype Ts = Ts(sec: int, frac: int)

  function Total(t: Ts, unit: int): int {
    t.sec * unit + t.frac
  }

  predicate Normal(t: Ts, unit: int) {
    0 <= t.frac < unit
  }

  // ---- C arithmetic ---------------------------------------------------------------------------------------

  /** Division that drops the fraction, and the remainder that goes with it. */
  function CDiv(a: int, b: int): int
    requires b > 0
  {
    if a >= 0 then a / b else -((-a) / b)
  }

  function CRem(a: int, b: int): int
    requires b > 0
  {
    a - CDiv(a, b) * b
  }

  /** Conversion of a floating-point product to an integer. */
  function Trunc(x: real): int {
    if x >= 0.0 then x.Floor else -((-x).Floor)
  }

  lemma TruncBounds(x: real)
    ensures x >= 0.0 ==> Trunc(x) >= 0 && Trunc(x) as real <= x < (Trunc(x) + 1) as real
    ensures x <= 0.0 ==> Trunc(x) <= 0 && (Trunc(x) - 1) as real < x <= Trunc(x) as real
  {
  }

  lemma TruncMonotone(x: real, y: real)
    requires x <= y
    ensures Trunc(x) <= Trunc(y)
  {
    TruncBounds(x);
    TruncBounds(y);
  }

  /** c times n units, the fraction of a unit dropped. */
  function Scaled(c: real, n: int): int {
    Trunc(c * n as real)
  }

  // ---- the three operations on values ---------------------------------------------------------------------

  function Add(a: Ts, b: Ts, unit: int): Ts {
    var f := a.frac + b.frac;
    if f >= unit then Ts(a.sec + b.sec + 1, f - unit) else Ts(a.sec + b.sec, f)
  }

  function Sub(a: Ts, b: Ts, unit: int): Ts {
    var f := a.frac - b.frac;
    if f < 0 then Ts(a.sec - b.sec - 1, f + unit) else Ts(a.sec - b.sec, f)
  }

  function Mul(a: Ts, c: real, unit: int): Ts
    requires unit > 0
  {
    Cut(Scaled(c, Total(a, unit)), unit)
  }

  /** A number of units cut into seconds and a fraction that is never negative. */
  function Cut(t: int, unit: int): Ts
    requires unit > 0
  {
    var f := CRem(t, unit);
    var s := CDiv(t - f, unit);
    if f < 0 then Ts(s - 1, f + unit) else Ts(s, f)
  }

  lemma AddExact(a: Ts, b: Ts, unit: int)
    requires Normal(a, unit) && Normal(b, unit)
    ensures Normal(Add(a, b, unit), unit) && Total(Add(a, b, unit), unit) == Total(a, unit) + Total(b, unit)
  {
    assert (a.sec + b.sec) * unit == a.sec * unit + b.sec * unit;
    assert (a.sec + b.sec + 1) * unit == (a.sec + b.sec) * unit + unit;
  }

  lemma SubExact(a: Ts, b: Ts, unit: int)
    requires Normal(a, unit) && Normal(b, unit)
    ensures Normal(Sub(a, b, unit), unit) && Total(Sub(a, b, unit), unit) == Total(a, unit) - Total(b, unit)
  {
    assert (a.sec - b.sec) * unit == a.sec * unit - b.sec * unit;
    assert (a.sec - b.sec - 1) * unit == (a.sec - b.sec) * unit - unit;
  }

  lemma CRemRange(t: int, unit: int)
    requires unit > 0
    ensures -unit < CRem(t, unit) < unit
    ensures CDiv(t - CRem(t, unit), unit) * unit == t - CRem(t, unit)
  {
    var q := CDiv(t, unit);
    if t >= 0 {
      assert t == (t / unit) * unit + t % unit;
    } else {
      assert -t == ((-t) / unit) * unit + (-t) % unit;
    }
    MultipleDivides(q, unit);
  }

  lemma MultipleDivides(q: int, unit: int)
    requires unit > 0
    ensures CDiv(q * unit, unit) == q
  {
    Bits.DivModUnique(q * unit, unit, q, 0);
    assert (-q) * unit == -(q * unit);
    Bits.DivModUnique(-(q * unit), unit, -q, 0);
  }

  lemma CutExact(t: int, unit: int)
    requires unit > 0
    ensures Normal(Cut(t, unit), unit) && Total(Cut(t, unit), unit) == t
  {
    var f := CRem(t, unit);
    CRemRange(t, unit);
    var s := CDiv(t - f, unit);
    assert (s - 1) * unit == s * unit - unit;
  }

  /** The product is exact up to dropping the fraction of a unit toward zero, and its fraction part is never
      negative, even when the product is. */
  lemma MulExact(a: Ts, c: real, unit: int)
    requires unit > 0
    ensures Normal(Mul(a, c, unit), unit)
    ensures Total(Mul(a, c, unit), unit) == Scaled(c, Total(a, unit))
  {
    CutExact(Scaled(c, Total(a, unit)), unit);
  }

  /** A time is determined by its total. */
  lemma TotalInjective(a: Ts, b: Ts, unit: int)
    requires Normal(a, unit) && Normal(b, unit) && Total(a, unit) == Total(b, unit)
    ensures a == b
  {
    Bits.DivModUnique(Total(a, unit), unit, a.sec, a.frac);
    Bits.DivModUnique(Total(a, unit), unit, b.sec, b.frac);
  }

  // ---- the macros -----------------------------------------------------------------------------------------

  /** struct timespec or struct timeval, written in place. */
  class Timespec {
    var sec: int
    var frac: int

    constructor (value: Ts)
      ensures Value() == value
    {
      sec, frac := value.sec, value.frac;
    }

    function Value(): Ts
      reads this
    {
      Ts(sec, frac)
    }

    method Set(value: Ts)
      modifies this
      ensures Value() == value
    {
      sec := value.sec;
      frac := value.frac;
    }
  }

  /** timeradd2; `result` may be either operand. */
  method TimerAdd(a: Timespec, b: Timespec, result: Timespec, unit: int)
    modifies result
    ensures result.Value() == Add(old(a.Value()), old(b.Value()), unit)
    ensures old(Normal(a.Value(), unit) && Normal(b.Value(), unit)) ==>
              Normal(result.Value(), unit)
              && Total(result.Value(), unit) == Total(old(a.Value()), unit) + Total(old(b.Value()), unit)
  {
    if Normal(a.Value(), unit) && Normal(b.Value(), unit) {
      AddExact(a.Value(), b.Value(), unit);
    }
    result.sec := a.sec + b.sec;
    result.frac := a.frac + b.frac;
    if result.frac >= unit {
      result.sec := result.sec + 1;
      result.frac := result.frac - unit;
    }
  }

  /** timersub2; `result` may be either operand. */
  method TimerSub(a: Timespec, b: Timespec, result: Timespec, unit: int)
    modifies result
    ensures result.Value() == Sub(old(a.Value()), old(b.Value()), unit)
    ensures old(Normal(a.Value(), unit) && Normal(b.Value(), unit)) ==>
              Normal(result.Value(), unit)
              && Total(result.Value(), unit) == Total(old(a.Value()), unit) - Total(old(b.Value()), unit)
  {
    if Normal(a.Value(), unit) && Normal(b.Value(), unit) {
      SubExact(a.Value(), b.Value(), unit);
    }
    result.sec := a.sec - b.sec;
    result.frac := a.frac - b.frac;
    if result.frac < 0 {
      result.sec := result.sec - 1;
      result.frac := result.frac + unit;
    }
  }

  /** timermul2; `result` may be the operand. */
  method TimerMul(a: Timespec, c: real, result: Timespec, unit: int)
    requires unit > 0
    modifies result
    ensures result.Value() == Mul(old(a.Value()), c, unit)
    ensures Normal(result.Value(), unit)
    ensures Total(result.Value(), unit) == Scaled(c, Total(old(a.Value()), unit))
  {
    MulExact(a.Value(), c, unit);
    var tmp := Scaled(c, a.sec * unit + a.frac);
    CutInto(tmp, result, unit);
  }

  method CutInto(tmp: int, result: Timespec, unit: int)
    requires unit > 0
    modifies result
    ensures result.Value() == Cut(tmp, unit)
  {
    result.frac := CRem(tmp, unit);
    result.sec := CDiv(tmp - result.frac, unit);
    if result.frac < 0 {
      result.frac := result.frac + unit;
      result.sec := result.sec - 1;
    }
  }
}
