// Refunds: once open they stay open, every donor's entitlement is a constant, and no interleaving of
// claims pays anyone more than it or the donors together more than was left.
module ProgrammeRefunds {
  import opened Results
  import opened Ledger
  import opened MapSums
  import opened Arithmetic
  import opened Shares
  import opened Programme
  import opened ProgrammeTerms
  import opened ProgrammeLedger
  import opened ProgrammeAwards
  import opened ProgrammeTranches
  import opened ProgrammeRuns

  // What refunds divide: the budget that was never released.
  function Pool(p: Storage): int {
    BudgetOf(p.contributed, p.config.feeBps) - p.released
  }

  // A donor's whole share of it.
  function Entitlement(p: Storage, donor: Address): int {
    if p.contributed <= 0 || Pool(p) <= 0 then 0 else Share(Get(p.donors, donor), Pool(p), p.contributed)
  }

  // What the token contract was asked to pay back to `donor`.
  function Returned(transfers: seq<Transfer>, donor: Address): int {
    if transfers == [] then 0
    else
      var t := transfers[|transfers| - 1];
      Returned(transfers[..|transfers| - 1], donor) + if t.reason == Refund && t.to == donor then t.amount else 0
  }

  ghost predicate Claims(p: Storage) {
    && p.contributed == Sum(p.donors)
    && p.refundedTotal == Sum(p.refunded)
    && 0 <= p.released
    && (forall d :: d in p.donors ==> 0 < p.donors[d])
    && (forall d :: d in p.refunded ==> 0 < p.refunded[d] <= Entitlement(p, d))
  }

  ghost predicate PaidBack(w: World) {
    forall d :: Returned(w.transfers, d) == Get(w.p.refunded, d)
  }

  ghost predicate RefundsSound(w: World) {
    Claims(w.p) && PaidBack(w) && (!RefundsOpen(w) ==> w.p.refunded == map[])
  }

  // ---- one call ----

  lemma {:induction false} MoveReturns(w: World, from: Address, to: Address, amount: int, reason: Reason, donor: Address)
    requires MoveToken(w, from, to, amount, reason).Ok?
    ensures Returned(MoveToken(w, from, to, amount, reason).value.transfers, donor) ==
            Returned(w.transfers, donor) + if reason == Refund && to == donor then amount else 0
  {
    var t := Transfer(from, to, amount, reason);
    assert (w.transfers + [t])[..|w.transfers|] == w.transfers;
  }

  lemma MoveKeepsReturned(w: World, from: Address, to: Address, amount: int, reason: Reason)
    requires MoveToken(w, from, to, amount, reason).Ok? && reason != Refund
    ensures forall d :: Returned(MoveToken(w, from, to, amount, reason).value.transfers, d) == Returned(w.transfers, d)
  {
    forall d
      ensures Returned(MoveToken(w, from, to, amount, reason).value.transfers, d) == Returned(w.transfers, d)
    {
      MoveReturns(w, from, to, amount, reason, d);
    }
  }

  lemma EntitlementBounds(p: Storage, donor: Address)
    requires Claims(p) && TermsSane(p.config)
    ensures 0 <= Entitlement(p, donor) <= Get(p.donors, donor)
  {
    SumNonNegative(p.donors);
    BudgetGrows(p.contributed, p.contributed, p.config.feeBps);
    if 0 < p.contributed && 0 < Pool(p) {
      ShareBounds(Get(p.donors, donor), Pool(p), p.contributed);
    }
  }

  // A claim pays something, and no more than is left of the share.
  lemma DueWithinEntitlement(w: World, donor: Address, asked: Option<int>)
    requires RefundDue(w, donor, asked).Ok?
    ensures RefundsOpen(w) && 0 < w.p.contributed && 0 < Pool(w.p)
    ensures 0 < RefundDue(w, donor, asked).value <= Entitlement(w.p, donor) - Get(w.p.refunded, donor)
    ensures asked.None? ==> RefundDue(w, donor, asked).value == Entitlement(w.p, donor) - Get(w.p.refunded, donor)
    ensures asked.Some? ==> RefundDue(w, donor, asked).value == asked.value
  {
  }

  lemma ContributeKeepsClaims(w: World, donor: Address, amount: int)
    requires RefundsSound(w) && TermsSane(w.p.config)
    requires Contribute(w, donor, amount).Ok?
    ensures RefundsSound(Contribute(w, donor, amount).value)
  {
    hide Moved, Returned, Entitlement;
    MoveKeepsReturned(w, donor, w.self, amount, Deposit);
    SumUpdate(w.p.donors, donor, Get(w.p.donors, donor) + amount);
  }

  lemma RefundKeepsClaims(w: World, donor: Address, asked: Option<int>)
    requires Claims(w.p)
    requires ClaimRefund(w, donor, asked).Ok?
    ensures Claims(ClaimRefund(w, donor, asked).value.0.p)
  {
    var amount := RefundDue(w, donor, asked).value;
    DueWithinEntitlement(w, donor, asked);
    SumUpdate(w.p.refunded, donor, Get(w.p.refunded, donor) + amount);
    hide RefundDue, Moved, Share, BudgetOf, Sum;
  }

  lemma RefundKeepsPaid(w: World, donor: Address, asked: Option<int>)
    requires PaidBack(w)
    requires ClaimRefund(w, donor, asked).Ok?
    ensures PaidBack(ClaimRefund(w, donor, asked).value.0)
  {
    hide RefundDue, Moved, Returned;
    var amount := RefundDue(w, donor, asked).value;
    forall d
      ensures Returned(ClaimRefund(w, donor, asked).value.0.transfers, d) ==
              Returned(w.transfers, d) + if d == donor then amount else 0
    {
      MoveReturns(w, w.self, donor, amount, Refund, d);
    }
  }

  lemma PayOutKeepsReturned(w: World, a: Award, amount: int)
    requires PayOut(w, a, amount).Ok?
    ensures forall d :: Returned(PayOut(w, a, amount).value.transfers, d) == Returned(w.transfers, d)
  {
    hide Returned, MoveToken;
    if a.mode != Allocated {
      MoveKeepsReturned(w, w.self, a.payee, amount, Tranche(a.recipient));
    }
  }

  ghost predicate OnlyReleases(w: World, v: World) {
    w.p.released <= v.p.released && forall d :: Returned(v.transfers, d) == Returned(w.transfers, d)
  }

  lemma DisburseOnlyReleases(w: World, recipient: Address, a: Award, uid: Uid)
    requires Disburse(w, recipient, a, uid).Ok?
    ensures OnlyReleases(w, Disburse(w, recipient, a, uid).value)
  {
    DisburseBooks(w, recipient, a, uid);
    hide PayOut, Credited, NextTranche, Returned;
    var booked := Booked(w, recipient, a, uid);
    PayOutKeepsReturned(booked, booked.p.awards[recipient], NextTranche(a));
  }

  lemma {:induction false} EachOnlyReleases(w: World, recipient: Address, uids: seq<Uid>, attester: Address)
    requires ReleaseEach(w, recipient, uids, attester).Ok?
    ensures OnlyReleases(w, ReleaseEach(w, recipient, uids, attester).value.0)
    decreases |uids|
  {
    hide Disburse, ProofGuard, Returned;
    if uids != [] {
      DisburseOnlyReleases(w, recipient, w.p.awards[recipient], uids[0]);
      EachOnlyReleases(Disburse(w, recipient, w.p.awards[recipient], uids[0]).value, recipient, uids[1..], attester);
    }
  }

  lemma ReleaseKeepsClaims(w: World, call: Call)
    requires RefundsSound(w) && IsRelease(call)
    ensures RefundsSound(Next(w, call))
  {
    hide Disburse, ReleaseEach, ProofGuard, Returned, Entitlement;
    ReleaseFrame(w, call);
    if Step(w, call).Ok? {
      if call.CallRelease? {
        DisburseOnlyReleases(w, call.recipient, w.p.awards[call.recipient], call.uid);
      } else {
        EachOnlyReleases(w, call.recipient, call.uids, call.attester);
      }
    }
  }

  lemma FeeKeepsReturned(w: World)
    requires SweepFee(w).Ok?
    ensures var v := SweepFee(w).value.0;
            && (forall d :: Returned(v.transfers, d) == Returned(w.transfers, d))
            && v.p == w.p.(feeSwept := true)
  {
    hide Moved, Returned, FeeOn;
    var fee := FeeOn(w.p.contributed, w.p.config.feeBps);
    if 0 < fee {
      MoveKeepsReturned(w.(p := w.p.(feeSwept := true)), w.self, w.p.config.treasury, fee, Fee);
    }
  }

  lemma SpendKeepsReturned(w: World, recipient: Address, payee: Address, amount: int)
    requires Spend(w, recipient, payee, amount).Ok?
    ensures var v := Spend(w, recipient, payee, amount).value.0;
            && (forall d :: Returned(v.transfers, d) == Returned(w.transfers, d))
            && v.p == w.p.(allocations := v.p.allocations)
  {
    hide Moved, Returned;
    MoveKeepsReturned(w, w.self, payee, amount, Directed(recipient));
  }

  lemma PaymentKeepsReturned(w: World, call: Call)
    requires IsMoney(call) && !call.CallContribute? && !call.CallRefund?
    ensures forall d :: Returned(Next(w, call).transfers, d) == Returned(w.transfers, d)
    ensures Next(w, call).p.contributed == w.p.contributed && Next(w, call).p.donors == w.p.donors
    ensures Next(w, call).p.refunded == w.p.refunded && Next(w, call).p.refundedTotal == w.p.refundedTotal
  {
    hide Moved, Returned, SweepFee, Spend;
    if Step(w, call).Ok? {
      match call
      case CallSpend(r, p, n) => SpendKeepsReturned(w, r, p, n);
      case CallSweepFee => FeeKeepsReturned(w);
      case CallSweepUnclaimed => MoveKeepsReturned(w, w.self, w.p.config.treasury, Get(w.balances, w.self), Sweep);
      case TokenMove(f, t, n) => MoveKeepsReturned(w, f, t, n, Outside);
    }
  }

  lemma ClaimsByFields(w: World, v: World)
    requires RefundsSound(w)
    requires RefundsOpen(w) ==> RefundsOpen(v)
    requires forall d :: Returned(v.transfers, d) == Returned(w.transfers, d)
    requires v.p.contributed == w.p.contributed && v.p.donors == w.p.donors && v.p.released == w.p.released
    requires v.p.refunded == w.p.refunded && v.p.refundedTotal == w.p.refundedTotal
    requires v.p.config.feeBps == w.p.config.feeBps
    ensures RefundsSound(v)
  {
    hide Share, Returned;
    assert forall d :: Entitlement(v.p, d) == Entitlement(w.p, d);
  }

  lemma OthersKeepClaimFields(w: World, call: Call)
    requires !IsRelease(call) && !IsMoney(call)
    ensures var p, q := w.p, Next(w, call).p;
            && Next(w, call).transfers == w.transfers
            && q.contributed == p.contributed && q.donors == p.donors && q.released == p.released
            && q.refunded == p.refunded && q.refundedTotal == p.refundedTotal && q.config.feeBps == p.config.feeBps
  {
    hide Next;
    if IsPeople(call) {
      PeopleFrame(w, call);
    } else if MovesClock(call) {
      ClockFrame(w, call);
    } else {
      ControlFrame(w, call);
    }
  }

  lemma OthersKeepClaims(w: World, call: Call)
    requires RefundsSound(w)
    requires !IsRelease(call) && !call.CallContribute? && !call.CallRefund?
    ensures RefundsSound(Next(w, call))
  {
    hide Next, RefundsSound, RefundsOpen, TermsSane, Returned;
    if RefundsOpen(w) {
      OpenStaysOpen(w, call);
    }
    if IsMoney(call) {
      MoneyFrame(w, call);
      PaymentKeepsReturned(w, call);
    } else {
      OthersKeepClaimFields(w, call);
    }
    ClaimsByFields(w, Next(w, call));
  }

  lemma OpenStaysOpen(w: World, call: Call)
    requires RefundsOpen(w)
    ensures RefundsOpen(Next(w, call))
  {
    hide Next;
    NextFollows(w, call);
  }

  lemma {:induction false} NextKeepsClaims(w: World, call: Call)
    requires RefundsSound(w) && TermsSane(w.p.config)
    ensures RefundsSound(Next(w, call))
  {
    if call.CallContribute? {
      hide Contribute, RefundsSound;
      if Step(w, call).Ok? {
        ContributeKeepsClaims(w, call.donor, call.amount);
      }
    } else if call.CallRefund? {
      hide RefundDue, Claims, PaidBack, Moved;
      if Step(w, call).Ok? {
        DueWithinEntitlement(w, call.donor, call.asked);
        RefundKeepsClaims(w, call.donor, call.asked);
        RefundKeepsPaid(w, call.donor, call.asked);
      }
    } else if IsRelease(call) {
      ReleaseKeepsClaims(w, call);
    } else {
      OthersKeepClaims(w, call);
    }
  }

  lemma DeployedClaims(w: World)
    requires Deployed(w)
    ensures RefundsSound(w)
  {
    hide Record.BookSound, Attest.Sound;
  }

  lemma {:induction false} RunKeepsClaims(w: World, calls: seq<Call>)
    requires Deployed(w)
    requires AllLegal(w, calls)
    ensures RefundsSound(Exec(w, calls))
    decreases |calls|
  {
    hide RefundsSound, Deployed, Next, Sound, TermsSane;
    if calls == [] {
      DeployedClaims(w);
    } else {
      RunKeepsClaims(w, calls[..|calls| - 1]);
      RunKeepsSound(w, calls[..|calls| - 1]);
      SoundGivesTerms(Exec(w, calls[..|calls| - 1]));
      NextKeepsClaims(Exec(w, calls[..|calls| - 1]), calls[|calls| - 1]);
    }
  }

  lemma SoundGivesTerms(w: World)
    requires Sound(w)
    ensures TermsSane(w.p.config) && Conserved(w) && Funded(w)
  {
  }
}
