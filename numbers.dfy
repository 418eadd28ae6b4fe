/** JavaScript numbers as the screens use them. Finite numbers are exact
    reals: IEEE-754 rounding is not modelled, only the non-finite values
    (NaN and the two infinities) that `Number.isFinite` guards against. */
module Numbers {

  datatype JsNumber = Finite(value: real) | NaN | PosInfinity | NegInfinity

  /** `Number.isFinite(n)` */
  predicate IsFinite(n: JsNumber) {
    n.Finite?
  }

  /** `Math.round(x)`: the integer nearest to `x`, halves going up. */
  function Round(x: real): (r: int)
    ensures r as real - 0.5 <= x < r as real + 0.5
  {
    (x + 0.5).Floor
  }

  /** `Math.round` is determined by its contract: any integer within half a
      unit below-inclusive / above-exclusive of `x` is the rounded value. */
  lemma RoundUnique(x: real, n: int)
    requires n as real - 0.5 <= x < n as real + 0.5
    ensures Round(x) == n
  {
  }

  /** `Math.round(w / 7)` for a non-negative integer `w` in integer terms. */
  lemma RoundDivSeven(w: int)
    requires w >= 0
    ensures Round(w as real / 7.0) == (2 * w + 7) / 14
  {
    var q := (2 * w + 7) / 14;
    assert 14 * q <= 2 * w + 7 < 14 * q + 14;
    assert q as real - 0.5 <= w as real / 7.0 < q as real + 0.5;
    RoundUnique(w as real / 7.0, q);
  }

  /** Rounding keeps a value that lies in an integer interval inside it. */
  lemma RoundWithin(x: real, lo: int, hi: int)
    requires lo as real <= x <= hi as real
    ensures lo <= Round(x) <= hi
  {
  }

  /** `Math.min(1, x)` on reals. */
  function MinOne(x: real): (r: real)
    ensures r <= 1.0 && (r == x || r == 1.0)
    ensures x <= 1.0 ==> r == x
  {
    if x < 1.0 then x else 1.0
  }

  /** `goal > 0 ? Math.min(1, used / goal) : 0`: the share of a goal that
      has been used, capped at the whole goal. */
  function GoalFraction(used: real, goal: real): (r: real)
    ensures goal <= 0.0 ==> r == 0.0
    ensures goal > 0.0 ==> (r == 1.0 <==> used >= goal)
    ensures goal > 0.0 && used < goal ==> r * goal == used
    ensures r <= 1.0
    ensures used >= 0.0 ==> 0.0 <= r
  {
    if goal > 0.0 then MinOne(used / goal) else 0.0
  }

  /** `n || 0`: NaN and zero are falsy and become zero. */
  function OrZero(n: JsNumber): (r: JsNumber)
    ensures r != NaN
    ensures n.Finite? && n.value != 0.0 ==> r == n
    ensures n.PosInfinity? || n.NegInfinity? ==> r == n
  {
    if n == NaN || n == Finite(0.0) then Finite(0.0) else n
  }
}
