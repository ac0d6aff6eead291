/**
 * Redis compares the stored and the incoming (time, seq) as Lua numbers, which are IEEE doubles:
 * integers up to 2^53 are exact, larger ones are rounded to the nearest representable value,
 * ties to the even one.
 */
module LuaNumber {

  const EXACT: nat := 9007199254740992

  /** The nearest multiple of `unit`, ties to the even multiple. */
  function RoundTo(n: nat, unit: nat): nat
    requires unit > 0
  {
    var q, r := n / unit, n % unit;
    if 2 * r < unit || (2 * r == unit && q % 2 == 0) then q * unit else q * unit + unit
  }

  /** Between EXACT * unit / 2 and EXACT * unit doubles are `unit` apart. */
  function RoundFrom(n: nat, unit: nat): nat
    requires unit > 0
    decreases n - unit
  {
    if n <= EXACT * unit then RoundTo(n, unit) else RoundFrom(n, 2 * unit)
  }

  function ToNumber(n: int): int {
    if n < 0 then 0 - RoundFrom(-n, 1) else RoundFrom(n, 1)
  }

  lemma ExactBelow(n: int)
    requires 0 - EXACT <= n <= EXACT
    ensures ToNumber(n) == n
  {}

  lemma {:induction false} MulOrder(a: nat, b: nat, unit: nat)
    ensures a <= b ==> a * unit <= b * unit
    ensures a < b ==> a * unit + unit <= b * unit
  {
    if a < b {
      MulOrder(a, b - 1, unit);
      assert b * unit == (b - 1) * unit + unit;
    }
  }

  lemma DivMonotone(a: nat, b: nat, unit: nat)
    requires a <= b && unit > 0
    ensures a / unit <= b / unit
    ensures a == a / unit * unit + a % unit && b == b / unit * unit + b % unit
    ensures a / unit < b / unit ==> a / unit * unit + unit <= b / unit * unit
    ensures a / unit == b / unit ==> a % unit <= b % unit
  {
    MulOrder(a / unit, b / unit, unit);
    MulOrder(b / unit, a / unit, unit);
  }

  /** Nothing of that spacing is nearer, and of two equally near the even multiple is taken. */
  lemma RoundToNearest(n: nat, unit: nat)
    requires unit > 0
    ensures RoundTo(n, unit) % unit == 0
    ensures 0 - unit <= 2 * (RoundTo(n, unit) - n) <= unit
    ensures 2 * (RoundTo(n, unit) - n) in {unit, 0 - unit} ==> RoundTo(n, unit) / unit % 2 == 0
  {
    var q, r := n / unit, n % unit;
    assert n == q * unit + r && q * unit + unit == (q + 1) * unit;
    MultipleOf(q, unit);
    MultipleOf(q + 1, unit);
  }

  lemma MultipleOf(q: nat, unit: nat)
    requires unit > 0
    ensures q * unit % unit == 0 && q * unit / unit == q
  {
    MulOrder(q * unit / unit, q, unit);
    MulOrder(q, q * unit / unit, unit);
    assert q * unit == q * unit / unit * unit + q * unit % unit;
  }

  /** Where doubles are `unit` apart. */
  ghost predicate Spaced(n: nat, unit: nat) {
    unit > 0 && n <= EXACT * unit && (unit == 1 || EXACT * unit < 2 * n)
  }

  lemma {:induction false} RoundFromSpaced(n: nat, from: nat) returns (unit: nat)
    requires from > 0 && (from == 1 || EXACT * from < 2 * n)
    ensures Spaced(n, unit) && RoundFrom(n, from) == RoundTo(n, unit)
    decreases n - from
  {
    if n <= EXACT * from { unit := from; } else { unit := RoundFromSpaced(n, 2 * from); }
  }

  /** Every number becomes the nearest multiple of the spacing of doubles around it. */
  lemma NearestDouble(n: int) returns (unit: nat)
    ensures var m: nat := if n < 0 then -n else n;
            Spaced(m, unit) && ToNumber(n) == if n < 0 then 0 - RoundTo(m, unit) else RoundTo(m, unit)
    ensures 0 - unit <= 2 * (ToNumber(n) - n) <= unit
  {
    var m: nat := if n < 0 then -n else n;
    unit := RoundFromSpaced(m, 1);
    RoundToNearest(m, unit);
  }

  lemma RoundToMonotone(a: nat, b: nat, unit: nat)
    requires a <= b && unit > 0
    ensures RoundTo(a, unit) <= RoundTo(b, unit)
  {
    DivMonotone(a, b, unit);
  }

  /** Rounding never crosses a multiple of the unit. */
  lemma RoundToBound(n: nat, unit: nat, m: nat)
    requires unit > 0
    ensures n <= m * unit ==> RoundTo(n, unit) <= m * unit
    ensures n >= m * unit ==> RoundTo(n, unit) >= m * unit
  {
    var q := n / unit;
    assert n == q * unit + n % unit;
    MulOrder(q, m, unit);
    MulOrder(m, q, unit);
  }

  lemma {:induction false} RoundFromAbove(n: nat, unit: nat)
    requires unit > 0 && n > EXACT * unit
    ensures RoundFrom(n, unit) >= EXACT * unit
    decreases n - unit
  {
    if n <= EXACT * (2 * unit) {
      assert EXACT / 2 * (2 * unit) == EXACT * unit;
      RoundToBound(n, 2 * unit, EXACT / 2);
    } else {
      RoundFromAbove(n, 2 * unit);
    }
  }

  lemma {:induction false} RoundFromMonotone(a: nat, b: nat, unit: nat)
    requires unit > 0 && a <= b
    ensures RoundFrom(a, unit) <= RoundFrom(b, unit)
    decreases b - unit
  {
    if b <= EXACT * unit {
      RoundToMonotone(a, b, unit);
    } else if a <= EXACT * unit {
      RoundToBound(a, unit, EXACT);
      RoundFromAbove(b, unit);
    } else {
      RoundFromMonotone(a, b, 2 * unit);
    }
  }

  /** The rounding keeps order, so only distinct numbers that collapse can be confused. */
  lemma ToNumberMonotone(a: int, b: int)
    requires a <= b
    ensures ToNumber(a) <= ToNumber(b)
  {
    if a < 0 && b < 0 {
      RoundFromMonotone(-b, -a, 1);
    } else if a >= 0 {
      RoundFromMonotone(a, b, 1);
    }
  }
}
