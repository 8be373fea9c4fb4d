// The contribution a screen derives back from a budget and a fee rate.
module FeeMirror {
  import opened Arithmetic
  import opened Programme

  // `deriveFee`, over bigints.
  function DeriveFee(budget: int, feeBps: int): int {
    var rate := BPS_DENOMINATOR - feeBps;
    if rate <= 0 then 0
    else
      var contributed := Truncated(budget * BPS_DENOMINATOR + rate - 1, rate);
      contributed - budget
  }

  function DerivedContribution(budget: int, feeBps: int): int {
    budget + DeriveFee(budget, feeBps)
  }

  // The contract's budget is the contribution's share at the complementary rate, rounded up.
  lemma BudgetRoundsUp(contributed: int, feeBps: nat)
    requires 0 <= contributed && feeBps <= BPS_DENOMINATOR
    ensures var scaled := contributed * (BPS_DENOMINATOR - feeBps);
            var budget := BudgetOf(contributed, feeBps);
            && 0 <= budget
            && scaled <= budget * BPS_DENOMINATOR < scaled + BPS_DENOMINATOR
  {
    var fee := FeeOn(contributed, feeBps);
    DivBounds(contributed * feeBps, BPS_DENOMINATOR);
    assert contributed * (BPS_DENOMINATOR - feeBps) == contributed * BPS_DENOMINATOR - contributed * feeBps;
    MulMonotone(0, contributed, BPS_DENOMINATOR - feeBps);
  }

  // The derived contribution is the least that covers the budget.
  lemma DerivedRoundsUp(budget: int, feeBps: nat)
    requires 0 <= budget && feeBps < BPS_DENOMINATOR
    ensures var rate, derived := BPS_DENOMINATOR - feeBps, DerivedContribution(budget, feeBps);
            && budget * BPS_DENOMINATOR <= derived * rate < budget * BPS_DENOMINATOR + rate
            && 0 <= derived
  {
    var rate := BPS_DENOMINATOR - feeBps;
    DivBounds(budget * BPS_DENOMINATOR + rate - 1, rate);
    DivAtLeast(budget * BPS_DENOMINATOR + rate - 1, rate, 0);
  }

  // For every rate the contract allows and every contribution: the screen shows at least what was
  // given and at most two stroops more, and what it shows has the contract's own budget or one stroop
  // more.
  lemma {:induction false} DerivedIsClose(contributed: int, feeBps: nat)
    requires 0 <= contributed && feeBps <= MAX_FEE_BPS
    ensures var budget := BudgetOf(contributed, feeBps);
            var derived := DerivedContribution(budget, feeBps);
            && contributed <= derived <= contributed + 2
            && budget <= BudgetOf(derived, feeBps) <= budget + 1
  {
    var rate, budget := BPS_DENOMINATOR - feeBps, BudgetOf(contributed, feeBps);
    var derived := DerivedContribution(budget, feeBps);
    BudgetRoundsUp(contributed, feeBps);
    DerivedRoundsUp(budget, feeBps);
    BudgetRoundsUp(derived, feeBps);
    hide BudgetOf, DerivedContribution;
    Between(contributed, derived, rate);
  }

  lemma Between(low: int, high: int, rate: int)
    requires 9_000 <= rate <= 10_000
    requires low * rate <= high * rate < low * rate + 10_000 + rate
    ensures low <= high <= low + 2
  {
    assert (high + 1) * rate == high * rate + rate;
    assert (low + 3) * rate == low * rate + 3 * rate;
    MulStrict(low, high + 1, rate);
    MulStrict(high, low + 3, rate);
  }

  // Both bounds are met: ten stroops given at 999 basis points are shown as twelve.
  lemma BoundsAreMet()
    ensures DerivedContribution(BudgetOf(10, 999), 999) == 12
    ensures BudgetOf(12, 999) == BudgetOf(10, 999) + 1
  {
  }

  // Without a fee the figure is exact.
  lemma FreeIsExact(contributed: int)
    requires 0 <= contributed
    ensures DerivedContribution(BudgetOf(contributed, 0), 0) == contributed
  {
  }
}
