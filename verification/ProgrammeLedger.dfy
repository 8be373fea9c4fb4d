// Conservation of money: what the programme holds is what it owes, in every reachable state.
module ProgrammeLedger {
  import opened Results
  import opened Ledger
  import opened MapSums
  import opened Arithmetic
  import opened Programme
  import opened ProgrammeTerms

  // Tokens that reached the programme other than by a contribution: sent to it by others, or
  // paid by it to itself.
  function Strays(transfers: seq<Transfer>, self: Address): int {
    if transfers == [] then 0
    else
      var t := transfers[|transfers| - 1];
      Strays(transfers[..|transfers| - 1], self) + if t.to == self && t.reason != Deposit then t.amount else 0
  }

  function UnsweptFee(p: Storage): int {
    if p.feeSwept then 0 else FeeOn(p.contributed, p.config.feeBps)
  }

  // Budget neither released nor refunded yet.
  function Unpaid(p: Storage): int {
    BudgetOf(p.contributed, p.config.feeBps) - p.released - p.refundedTotal
  }

  ghost function Owed(p: Storage): int {
    Sum(p.allocations) + UnsweptFee(p) + Unpaid(p)
  }

  ghost predicate Conserved(w: World) {
    && 0 <= w.p.sweptTotal && 0 <= w.p.contributed
    && (w.p.feeSwept ==> PhaseOf(w.p, w.now) != Opened)
    && (w.p.sweptTotal == 0 ==> Get(w.balances, w.self) == Owed(w.p) + Strays(w.transfers, w.self))
  }

  // One transfer moves the programme's balance and its strays together, except for its own deposits
  // and payments.
  lemma MoveEffect(w: World, from: Address, to: Address, amount: int, reason: Reason)
    requires MoveToken(w, from, to, amount, reason).Ok?
    ensures var next := MoveToken(w, from, to, amount, reason).value;
            && next == w.(balances := next.balances, transfers := next.transfers)
            && Get(next.balances, w.self) - Strays(next.transfers, w.self) ==
               Get(w.balances, w.self) - Strays(w.transfers, w.self)
               - (if from == w.self then amount else 0)
               + (if to == w.self && reason == Deposit then amount else 0)
  {
    var t := Transfer(from, to, amount, reason);
    assert (w.transfers + [t])[..|w.transfers|] == w.transfers;
  }

  lemma FeeNonNegative(contributed: int, feeBps: nat)
    requires 0 <= contributed
    ensures 0 <= FeeOn(contributed, feeBps)
  {
    MulMonotone(0, contributed, feeBps);
    DivAtLeast(contributed * feeBps, BPS_DENOMINATOR, 0);
  }

  lemma ContributeConserves(w: World, donor: Address, amount: int)
    requires Conserved(w) && donor != w.self
    requires Contribute(w, donor, amount).Ok?
    ensures Conserved(Contribute(w, donor, amount).value)
  {
    hide MoveToken, Moved, Strays, FeeOn, Sum;
    MoveEffect(w, donor, w.self, amount, Deposit);
  }

  lemma SpendConserves(w: World, recipient: Address, payee: Address, amount: int)
    requires Conserved(w)
    requires Spend(w, recipient, payee, amount).Ok?
    ensures Conserved(Spend(w, recipient, payee, amount).value.0)
  {
    hide MoveToken, Moved, Strays, FeeOn, Sum;
    MoveEffect(w, w.self, payee, amount, Directed(recipient));
    SumUpdate(w.p.allocations, recipient, Get(w.p.allocations, recipient) - amount);
  }

  // A paid-out tranche leaves the balance or enters an allocation; booking it took it from the budget.
  lemma PayOutEffect(w: World, a: Award, amount: int)
    requires PayOut(w, a, amount).Ok?
    ensures var next := PayOut(w, a, amount).value;
            Get(next.balances, w.self) - Strays(next.transfers, w.self) - Sum(next.p.allocations) ==
            Get(w.balances, w.self) - Strays(w.transfers, w.self) - Sum(w.p.allocations) - amount
  {
    hide MoveToken, Moved, Strays, Sum;
    if a.mode == Allocated {
      SumUpdate(w.p.allocations, a.recipient, Get(w.p.allocations, a.recipient) + amount);
    } else {
      MoveEffect(w, w.self, a.payee, amount, Tranche(a.recipient));
    }
  }

  lemma DisburseConserves(w: World, recipient: Address, a: Award, uid: Uid)
    requires Conserved(w)
    requires Disburse(w, recipient, a, uid).Ok?
    ensures Conserved(Disburse(w, recipient, a, uid).value)
  {
    hide PayOut, Credited, NextTranche, Strays, FeeOn, Sum;
    var booked := Booked(w, recipient, a, uid);
    PayOutEffect(booked, booked.p.awards[recipient], NextTranche(a));
  }

  lemma {:induction false} EachConserves(w: World, recipient: Address, uids: seq<Uid>, attester: Address)
    requires Conserved(w)
    requires ReleaseEach(w, recipient, uids, attester).Ok?
    ensures Conserved(ReleaseEach(w, recipient, uids, attester).value.0)
    decreases |uids|
  {
    hide Conserved, Disburse, ProofGuard;
    if uids != [] {
      var a := w.p.awards[recipient];
      DisburseConserves(w, recipient, a, uids[0]);
      EachConserves(Disburse(w, recipient, a, uids[0]).value, recipient, uids[1..], attester);
    }
  }

  // Marking the fee swept while the balance falls by it.
  lemma FeeGone(w: World, v: World)
    requires Conserved(w) && !w.p.feeSwept && PhaseOf(w.p, w.now) != Opened
    requires v == w.(balances := v.balances, transfers := v.transfers, p := w.p.(feeSwept := true))
    requires Get(v.balances, w.self) - Strays(v.transfers, w.self) ==
             Get(w.balances, w.self) - Strays(w.transfers, w.self) - FeeOn(w.p.contributed, w.p.config.feeBps)
    ensures Conserved(v)
  {
    hide Strays, FeeOn, Sum, Get;
  }

  lemma SweepFeeConserves(w: World)
    requires Conserved(w)
    requires SweepFee(w).Ok?
    ensures Conserved(SweepFee(w).value.0)
  {
    var fee, marked := FeeOn(w.p.contributed, w.p.config.feeBps), w.(p := w.p.(feeSwept := true));
    FeeNonNegative(w.p.contributed, w.p.config.feeBps);
    hide MoveToken, Strays, FeeOn, Owed, PhaseOf;
    if 0 < fee {
      MoveEffect(marked, w.self, w.p.config.treasury, fee, Fee);
    }
    hide Conserved;
    FeeGone(w, SweepFee(w).value.0);
  }

  lemma RefundConserves(w: World, donor: Address, requested: Option<int>)
    requires Conserved(w)
    requires ClaimRefund(w, donor, requested).Ok?
    ensures Conserved(ClaimRefund(w, donor, requested).value.0)
  {
    hide RefundDue, MoveToken, Moved, Strays, FeeOn, Sum;
    MoveEffect(w, w.self, donor, RefundDue(w, donor, requested).value, Refund);
  }

  lemma OutsideConserves(w: World, from: Address, to: Address, amount: int)
    requires Conserved(w) && from != w.self
    requires MoveToken(w, from, to, amount, Outside).Ok?
    ensures Conserved(MoveToken(w, from, to, amount, Outside).value)
  {
    hide Moved, Strays, FeeOn, Sum;
    MoveEffect(w, from, to, amount, Outside);
    hide MoveToken;
  }

  lemma SweepConserves(w: World)
    requires Conserved(w) && TermsSane(w.p.config)
    requires SweepUnclaimed(w).Ok?
    ensures Conserved(SweepUnclaimed(w).value.0)
  {
    hide Moved, Strays, FeeOn, Sum;
  }

  lemma MoverConserves(w: World, call: Call)
    requires Conserved(w) && TermsSane(w.p.config) && Legal(w, call)
    requires IsMoney(call) || IsRelease(call)
    requires Step(w, call).Ok?
    ensures Conserved(Step(w, call).value)
  {
    hide Conserved, Contribute, Spend, Disburse, ReleaseEach, SweepFee, ClaimRefund, SweepUnclaimed, MoveToken, ProofGuard;
    match call
    case CallContribute(d, n) => ContributeConserves(w, d, n);
    case CallSpend(r, p, n) => SpendConserves(w, r, p, n);
    case CallRelease(r, u, a) => DisburseConserves(w, r, w.p.awards[r], u);
    case CallReleaseBatch(r, us, a) => EachConserves(w, r, us, a);
    case CallSweepFee => SweepFeeConserves(w);
    case CallRefund(d, n) => RefundConserves(w, d, n);
    case CallSweepUnclaimed => SweepConserves(w);
    case TokenMove(f, t, n) => OutsideConserves(w, f, t, n);
  }

  // Nothing about money differs, and the open phase has not come back.
  ghost predicate MoneyUntouched(w: World, v: World) {
    && v.self == w.self && v.balances == w.balances && v.transfers == w.transfers
    && v.p.contributed == w.p.contributed && v.p.released == w.p.released && v.p.allocations == w.p.allocations
    && v.p.refundedTotal == w.p.refundedTotal && v.p.sweptTotal == w.p.sweptTotal && v.p.feeSwept == w.p.feeSwept
    && v.p.config.feeBps == w.p.config.feeBps
    && (PhaseOf(v.p, v.now) == Opened ==> PhaseOf(w.p, w.now) == Opened)
  }

  lemma ConservedByFields(w: World, v: World)
    requires Conserved(w) && MoneyUntouched(w, v)
    ensures Conserved(v)
  {
    hide Strays, FeeOn, Sum, PhaseOf;
  }

  lemma FollowsUntouched(w: World, v: World)
    requires Follows(w, v)
    requires v == w.(now := v.now, p := w.p.(config := v.p.config, cancelled := v.p.cancelled))
    ensures MoneyUntouched(w, v)
  {
  }

  lemma QuietLeavesMoney(w: World, call: Call)
    requires !IsMoney(call) && !IsRelease(call)
    ensures MoneyUntouched(w, Next(w, call))
  {
    hide Next, Follows;
    if IsPeople(call) {
      PeopleFrame(w, call);
    } else if MovesClock(call) {
      ClockFrame(w, call);
      FollowsUntouched(w, Next(w, call));
    } else {
      ControlFrame(w, call);
    }
  }

  lemma {:induction false} NextConserves(w: World, call: Call)
    requires Conserved(w) && TermsSane(w.p.config) && Legal(w, call)
    ensures Conserved(Next(w, call))
  {
    hide Step, Conserved, MoneyUntouched;
    if IsMoney(call) || IsRelease(call) {
      if Step(w, call).Ok? {
        MoverConserves(w, call);
      }
    } else {
      hide Next;
      QuietLeavesMoney(w, call);
      ConservedByFields(w, Next(w, call));
    }
  }
}
