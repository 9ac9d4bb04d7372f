/** Python's `round`: to the nearest integer, ties to the even one. */
module Rounding {

  function Round(x: real): int {
    var low := x.Floor;
    var part := x - low as real;
    if part < 0.5 || (part == 0.5 && low % 2 == 0) then low else low + 1
  }

  lemma RoundIsMonotone(x: real, y: real)
    requires x <= y
    ensures Round(x) <= Round(y)
  {
    assert x.Floor <= y.Floor;
  }

  /** Rounding moves a number by at most a half, and a tie goes to the even neighbour. */
  lemma RoundIsNearest(x: real)
    ensures x - 0.5 <= Round(x) as real <= x + 0.5
    ensures (Round(x) as real == x - 0.5 || Round(x) as real == x + 0.5) ==> Round(x) % 2 == 0
  {
  }

  /** `round(x, 3)`. */
  function RoundTo3(x: real): real {
    Round(x * 1000.0) as real / 1000.0
  }

  /** Rounding to three places moves a number by at most half a thousandth, to a whole number of thousandths. */
  lemma RoundTo3IsNearest(x: real)
    ensures -0.0005 <= RoundTo3(x) - x <= 0.0005
    ensures (RoundTo3(x) * 1000.0).Floor as real == RoundTo3(x) * 1000.0
  {
    hide Round;
    RoundIsNearest(x * 1000.0);
    assert RoundTo3(x) * 1000.0 == Round(x * 1000.0) as real;
  }

  lemma RoundTo3IsMonotone(x: real, y: real)
    requires x <= y
    ensures RoundTo3(x) <= RoundTo3(y)
  {
    RoundIsMonotone(x * 1000.0, y * 1000.0);
  }
}
