/**
 Rounded money. Amounts are exact reals; the only loss is the explicit rounding to a cent.
 */
module Money {

  /** Rounds half up, towards plus infinity, as `Math.round` does. */
  function Round(x: real): int {
    (x + 0.5).Floor
  }

  /** `Math.round(x * 100) / 100`. */
  function Cents(x: real): real {
    Round(x * 100.0) as real / 100.0
  }

  /** Rounding to a cent moves an amount by at most half a cent, keeps its sign, and is stable. */
  lemma CentsIsClose(x: real)
    ensures -0.005 < Cents(x) - x <= 0.005
    ensures x >= 0.0 ==> Cents(x) >= 0.0
    ensures Cents(Cents(x)) == Cents(x)
  {
    var n := Round(x * 100.0);
    assert Cents(x) * 100.0 == n as real;
    assert Round(n as real) == n;
  }

  /** A gain as a percentage of what was put in; nothing put in counts as no gain. */
  function Percent(gain: real, initial: real): real {
    if initial > 0.0 then gain / initial * 100.0 else 0.0
  }

  function Max(x: real, y: real): real {
    if x < y then y else x
  }

  function Min(x: real, y: real): real {
    if x < y then x else y
  }
}
