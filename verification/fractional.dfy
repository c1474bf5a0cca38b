/** Midpoints and the rebalance threshold, over the reals. */
module Fractional {
  const MIN_GAP: real := 0.001
  const MIN_SPACING: real := 0.0005
  const STEP: real := 1000.0

  predicate NeedsRebalance(below: real, above: real) {
    above - below < MIN_GAP
  }

  function Between(below: real, above: real): real {
    (below + above) / 2.0
  }

  /** Inserting again and again into the gap that is left on one side of the last insert. */
  function Nested(below: real, above: real, lower: seq<bool>): (real, real) {
    if lower == [] then (below, above)
    else
      var (b, a) := Nested(below, above, lower[..|lower| - 1]);
      if lower[|lower| - 1] then (b, Between(b, a)) else (Between(b, a), a)
  }

  function Halved(gap: real, times: nat): real {
    if times == 0 then gap else Halved(gap, times - 1) / 2.0
  }

  lemma {:induction false} NestedGap(below: real, above: real, lower: seq<bool>)
    ensures var (b, a) := Nested(below, above, lower); a - b == Halved(above - below, |lower|)
  {
    if lower != [] {
      NestedGap(below, above, lower[..|lower| - 1]);
    }
  }

  lemma {:induction false} HalvedShrinks(gap: real, less: nat, more: nat)
    requires gap >= 0.0 && less <= more
    ensures 0.0 <= Halved(gap, more) <= Halved(gap, less)
    decreases more
  {
    if less < more {
      HalvedShrinks(gap, less, more - 1);
    } else if more > 0 {
      HalvedShrinks(gap, less - 1, more - 1);
    }
  }

  lemma HalvedTwentyTimes()
    ensures Halved(STEP, 19) >= MIN_GAP > Halved(STEP, 20)
  {
    assert Halved(STEP, 5) == 31.25;
    assert Halved(STEP, 10) == 0.9765625;
    assert Halved(STEP, 15) == 0.030517578125;
    assert Halved(STEP, 19) == 0.0019073486328125;
  }

  /**
   A fresh gap takes exactly twenty nested inserts, whichever half each one leaves: the
   rebalance is due from then on, not after the thirty halvings the source's comment expects.
   */
  lemma RebalanceDueAfterTwenty(below: real, lower: seq<bool>)
    ensures var (b, a) := Nested(below, below + STEP, lower); NeedsRebalance(b, a) <==> |lower| >= 20
  {
    NestedGap(below, below + STEP, lower);
    HalvedTwentyTimes();
    if |lower| >= 20 {
      HalvedShrinks(STEP, 20, |lower|);
    } else {
      HalvedShrinks(STEP, |lower|, 19);
    }
  }
}
