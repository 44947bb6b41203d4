/** Rounding to cents, on exact reals. */
module Money {
  /** The nearest whole number, ties to even. */
  function RoundHalfEven(y: real): int {
    var below := y.Floor;
    var rest := y - below as real;
    if rest < 0.5 || (rest == 0.5 && below % 2 == 0) then below else below + 1
  }

  /** `round(x, 2)`. */
  function Round2(x: real): real {
    RoundHalfEven(x * 100.0) as real / 100.0
  }

  lemma RoundHalfEvenIsMonotone(a: real, b: real)
    requires a <= b
    ensures RoundHalfEven(a) <= RoundHalfEven(b)
  {
    assert a.Floor <= b.Floor;
  }

  /** Rounding preserves order, moves a value by at most half a cent and keeps its sign. */
  lemma Round2Faithful(a: real, b: real)
    requires a <= b
    ensures Round2(a) <= Round2(b)
    ensures -0.005 <= Round2(a) - a <= 0.005
    ensures a >= 0.0 ==> Round2(a) >= 0.0
  {
    RoundHalfEvenIsMonotone(a * 100.0, b * 100.0);
  }
}
