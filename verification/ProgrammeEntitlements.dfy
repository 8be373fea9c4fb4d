// What donors can count on over whole runs, and the screen's mirror of it.
module ProgrammeEntitlements {
  import opened Results
  import opened Ledger
  import opened MapSums
  import opened Arithmetic
  import opened Shares
  import opened Programme
  import opened ProgrammeTerms
  import opened ProgrammeLedger
  import opened ProgrammeAwards
  import opened ProgrammeRuns
  import opened ProgrammeRefunds

  // ---- refunds never close again ----

  predicate TakesOrReleases(call: Call) {
    call.CallContribute? || IsRelease(call)
  }

  ghost predicate SamePool(p: Storage, q: Storage) {
    && q.contributed == p.contributed && q.donors == p.donors && q.released == p.released
    && q.config.feeBps == p.config.feeBps
  }

  lemma OpenRefundsRefuse(w: World, call: Call)
    requires TermsSane(w.p.config) && RefundsOpen(w)
    requires TakesOrReleases(call)
    ensures Step(w, call).Err?
  {
    hide MoveToken, ReleaseEach, Disburse, ProofGuard;
  }

  lemma OpenRefundsFreeze(w: World, call: Call)
    requires TermsSane(w.p.config) && RefundsOpen(w)
    ensures SamePool(w.p, Next(w, call).p) && RefundsOpen(Next(w, call))
  {
    hide RefundsOpen, Step;
    NextFollows(w, call);
    if TakesOrReleases(call) {
      OpenRefundsRefuse(w, call);
    } else {
      OthersKeepPool(w, call);
    }
  }

  lemma OthersKeepPool(w: World, call: Call)
    requires !TakesOrReleases(call)
    ensures SamePool(w.p, Next(w, call).p)
  {
    hide Next;
    if IsPeople(call) {
      PeopleFrame(w, call);
    } else if IsMoney(call) {
      PaymentsKeepPool(w, call);
    } else if MovesClock(call) {
      ClockFrame(w, call);
    } else {
      ControlFrame(w, call);
    }
  }

  lemma PaymentsKeepPool(w: World, call: Call)
    requires IsMoney(call) && !call.CallContribute?
    ensures Next(w, call).p.contributed == w.p.contributed && Next(w, call).p.donors == w.p.donors
    ensures Next(w, call).p.released == w.p.released && Next(w, call).p.config == w.p.config
  {
    hide RefundDue, MoveToken;
    MoneyFrame(w, call);
    hide Step;
    if call.CallRefund? {
      RefundKeepsGifts(w, call.donor, call.asked);
    } else {
      PaymentKeepsReturned(w, call);
    }
  }

  lemma RefundKeepsGifts(w: World, donor: Address, asked: Option<int>)
    ensures var v := Next(w, CallRefund(donor, asked)); v.p.contributed == w.p.contributed && v.p.donors == w.p.donors
  {
    hide RefundDue, Moved;
  }

  // Whatever follows, extensions and cancellations included: nobody contributes or releases again,
  // refunds stay open, and every donor's entitlement is the same number.
  lemma {:induction false} EntitlementsAreConstant(w: World, calls: seq<Call>)
    requires TermsSane(w.p.config) && RefundsOpen(w)
    ensures var v := Exec(w, calls);
            && RefundsOpen(v) && TermsSane(v.p.config) && SamePool(w.p, v.p)
            && (forall call :: TakesOrReleases(call) ==> Step(v, call).Err?)
            && (forall d :: Entitlement(v.p, d) == Entitlement(w.p, d))
    decreases |calls|
  {
    hide Next, RefundsOpen, TermsSane, Step, Share;
    if calls != [] {
      var before := Exec(w, calls[..|calls| - 1]);
      EntitlementsAreConstant(w, calls[..|calls| - 1]);
      OpenRefundsFreeze(before, calls[|calls| - 1]);
      NextFollows(before, calls[|calls| - 1]);
    }
    forall call | TakesOrReleases(call)
      ensures Step(Exec(w, calls), call).Err?
    {
      OpenRefundsRefuse(Exec(w, calls), call);
    }
  }

  // ---- never overpaid, alone or together ----

  // Over any run, what a donor was paid back is what the books say, at most their entitlement, and
  // never more than they gave.
  lemma {:induction false} NeverOverpaid(w: World, calls: seq<Call>, donor: Address)
    requires Deployed(w)
    requires AllLegal(w, calls)
    ensures var v := Exec(w, calls);
            && Returned(v.transfers, donor) == Get(v.p.refunded, donor)
            && 0 <= Get(v.p.refunded, donor) <= Entitlement(v.p, donor) <= Get(v.p.donors, donor)
  {
    hide Exec, Deployed, Sound, Returned;
    var v := Exec(w, calls);
    RunKeepsClaims(w, calls);
    RunKeepsSound(w, calls);
    SoundGivesTerms(v);
    EntitlementBounds(v.p, donor);
    hide Entitlement;
  }

  // All donors' entitlements together.
  ghost function AllShares(p: Storage): int {
    if Pool(p) <= 0 then 0 else SumOf(p.donors, ShareOf(Pool(p), p.contributed))
  }

  lemma EntitlementIsShare(p: Storage, donor: Address)
    requires Claims(p) && donor in p.donors && 0 < Pool(p)
    ensures 0 < p.contributed
    ensures Entitlement(p, donor) == ShareOf(Pool(p), p.contributed)(p.donors[donor])
  {
    SumNonNegative(p.donors);
  }

  lemma OnlyDonorsAreEntitled(p: Storage, donor: Address)
    requires 0 < Entitlement(p, donor)
    ensures donor in p.donors && 0 < Pool(p)
  {
    assert donor !in p.donors ==> Get(p.donors, donor) * Pool(p) == 0;
  }

  lemma AllSharesFit(p: Storage)
    requires Claims(p)
    ensures 0 < Pool(p) ==> AllShares(p) <= Pool(p)
    ensures 0 < Pool(p) && p.donors != map[] ==> Pool(p) - AllShares(p) < |p.donors|
  {
    if 0 < Pool(p) && p.donors != map[] {
      SharesCoverPool(p.donors, Pool(p));
    }
  }

  // Claimed so far, with one donor's claim brought up to the whole share, is within all shares.
  lemma ClaimsWithinShares(p: Storage, donor: Address)
    requires Claims(p)
    ensures p.refundedTotal + Entitlement(p, donor) - Get(p.refunded, donor) <= AllShares(p)
    ensures p.refundedTotal <= AllShares(p)
  {
    var topped := if 0 < Entitlement(p, donor) then p.refunded[donor := Entitlement(p, donor)] else p.refunded;
    SumUpdate(p.refunded, donor, Entitlement(p, donor));
    var f := ShareOf(Pool(p), p.contributed);
    forall d
      ensures d in topped || d in p.refunded ==> d in p.donors && 0 < Pool(p) && Get(topped, d) <= f(p.donors[d]) && Get(p.refunded, d) <= f(p.donors[d])
      ensures d in p.donors && 0 < Pool(p) ==> 0 <= f(p.donors[d])
    {
      if d in topped || d in p.refunded {
        OnlyDonorsAreEntitled(p, d);
      }
      if d in p.donors && 0 < Pool(p) {
        EntitlementIsShare(p, d);
        ShareBounds(p.donors[d], Pool(p), p.contributed);
      }
    }
    hide Entitlement, Share, Pool;
    if 0 < Pool(p) {
      SumOfAtMost(topped, Identity, p.donors, f);
      SumOfAtMost(p.refunded, Identity, p.donors, f);
    } else {
      assert topped == map[] && p.refunded == map[];
    }
  }

  // Together all claims stay within the pool ...
  lemma {:induction false} RefundsWithinPool(w: World, calls: seq<Call>)
    requires Deployed(w)
    requires AllLegal(w, calls)
    ensures var p := Exec(w, calls).p;
            && 0 <= p.refundedTotal
            && (0 < p.refundedTotal ==> p.refundedTotal <= Pool(p))
  {
    hide Exec, Deployed, Pool, Entitlement, Returned;
    var p := Exec(w, calls).p;
    RunKeepsClaims(w, calls);
    SumNonNegative(p.refunded);
    ClaimsWithinShares(p, Address(0));
    AllSharesFit(p);
  }

  ghost predicate AllClaimed(p: Storage) {
    forall d :: d in p.donors ==> Get(p.refunded, d) == Entitlement(p, d)
  }

  // ... and once every donor has claimed in full, less than one stroop a donor is left.
  lemma {:induction false} DustAfterAllClaims(w: World, calls: seq<Call>)
    requires Deployed(w)
    requires AllLegal(w, calls)
    requires AllClaimed(Exec(w, calls).p)
    ensures var p := Exec(w, calls).p;
            0 < Pool(p) && p.donors != map[] ==>
              p.refundedTotal <= Pool(p) && Pool(p) - p.refundedTotal < |p.donors|
  {
    hide Exec, Deployed, Returned;
    var p := Exec(w, calls).p;
    RunKeepsClaims(w, calls);
    ClaimsWithinShares(p, Address(0));
    AllSharesFit(p);
    if 0 < Pool(p) && p.donors != map[] {
      var f := ShareOf(Pool(p), p.contributed);
      forall d | d in p.donors
        ensures f(p.donors[d]) <= if d in p.refunded then p.refunded[d] else 0
      {
        EntitlementIsShare(p, d);
      }
      hide Entitlement, Share, Pool;
      SumOfAtMost(p.donors, f, p.refunded, Identity);
    }
  }

  // ---- exactly when a claim succeeds ----

  // On this path nothing overflows while contributions stay within 2^63 stroops.
  lemma NoOverflowBelow63Bits(p: Storage, donor: Address)
    requires Claims(p) && TermsSane(p.config)
    requires p.contributed <= 0x8000_0000_0000_0000
    ensures p.contributed * p.config.feeBps <= I128_MAX
    ensures Get(p.donors, donor) * Pool(p) <= I128_MAX
    ensures 0 < Get(p.donors, donor) ==> 0 < p.contributed
    ensures Pool(p) <= p.contributed
  {
    SumNonNegative(p.donors);
    MulMonotone(p.config.feeBps, MAX_FEE_BPS, p.contributed);
    BudgetGrows(p.contributed, p.contributed, p.config.feeBps);
    var c, pool, limit := Get(p.donors, donor), Pool(p), 0x8000_0000_0000_0000;
    if 0 <= pool {
      MulMonotone(c, limit, pool);
      MulMonotone(pool, limit, limit);
    } else {
      MulMonotone(pool, 0, c);
    }
  }

  // The whole check of a claim: open, asked for something, and within what is left of the share.
  lemma DueExactly(w: World, donor: Address, asked: Option<int>)
    requires Claims(w.p) && TermsSane(w.p.config)
    requires w.p.contributed <= 0x8000_0000_0000_0000
    ensures var left := Entitlement(w.p, donor) - Get(w.p.refunded, donor);
            RefundDue(w, donor, asked).Ok? <==>
              RefundsOpen(w) && 0 < left && (asked.Some? ==> 0 < asked.value <= left)
    ensures RefundDue(w, donor, asked) != Err(Overflow)
  {
    NoOverflowBelow63Bits(w.p, donor);
    EntitlementBounds(w.p, donor);
    if donor in w.p.donors {
      SumNonNegative(w.p.donors);
    } else {
      assert Get(w.p.donors, donor) * Pool(w.p) == 0;
    }
  }

  // Before the sweep the programme's balance covers whatever a claim is due.
  lemma ClaimIsCovered(w: World, donor: Address, asked: Option<int>)
    requires RefundsSound(w) && Sound(w) && w.p.sweptTotal == 0
    requires w.p.contributed <= 0x8000_0000_0000_0000
    requires RefundDue(w, donor, asked).Ok?
    ensures ClaimRefund(w, donor, asked).Ok?
  {
    DueWithinEntitlement(w, donor, asked);
    ClaimsWithinShares(w.p, donor);
    AllSharesFit(w.p);
    NoOverflowBelow63Bits(w.p, donor);
    SoundGivesTerms(w);
    SumNonNegative(w.p.allocations);
    BudgetGrows(w.p.contributed, w.p.contributed, w.p.config.feeBps);
    hide RefundDue, AllShares, Entitlement, Sound, Moved, Strays, BudgetOf, FeeOn;
  }

  lemma ClaimPaysWhatIsDue(w: World, donor: Address, asked: Option<int>)
    requires ClaimRefund(w, donor, asked).Ok?
    ensures RefundDue(w, donor, asked).Ok?
    ensures ClaimRefund(w, donor, asked).value.1 == RefundDue(w, donor, asked).value
  {
    hide RefundDue;
  }

  // In every reachable state before the sweep a claim succeeds exactly when refunds are open and what
  // is asked is left of the share: no order of other claims, releases or spending can block it.
  lemma {:induction false} ClaimSucceedsExactly(w: World, calls: seq<Call>, donor: Address, asked: Option<int>)
    requires Deployed(w)
    requires AllLegal(w, calls)
    requires Exec(w, calls).p.sweptTotal == 0
    requires Exec(w, calls).p.contributed <= 0x8000_0000_0000_0000
    ensures var v := Exec(w, calls);
            var left := Entitlement(v.p, donor) - Get(v.p.refunded, donor);
            && (ClaimRefund(v, donor, asked).Ok? <==>
                  RefundsOpen(v) && 0 < left && (asked.Some? ==> 0 < asked.value <= left))
            && (ClaimRefund(v, donor, asked).Ok? ==>
                  ClaimRefund(v, donor, asked).value.1 == if asked.Some? then asked.value else left)
  {
    var v := Exec(w, calls);
    RunKeepsClaims(w, calls);
    RunKeepsSound(w, calls);
    SoundGivesTerms(v);
    hide Exec, Deployed, Entitlement, Sound, RefundsOpen, Returned, RefundDue, ClaimRefund;
    DueExactly(v, donor, asked);
    if RefundDue(v, donor, asked).Ok? {
      DueWithinEntitlement(v, donor, asked);
      ClaimIsCovered(v, donor, asked);
    }
    if ClaimRefund(v, donor, asked).Ok? {
      ClaimPaysWhatIsDue(v, donor, asked);
    }
  }

  // ---- the screen's figure ----

  // `claimableRefund`, over bigints, whose division truncates toward zero.
  function ClaimableRefund(donorContributed: int, totalContributed: int, feeBps: int, totalReleased: int,
                           alreadyRefunded: int, refundsOpen: bool): int {
    if !refundsOpen then 0
    else if totalContributed <= 0 || donorContributed <= 0 then 0
    else
      var fee := Truncated(totalContributed * feeBps, BPS_DENOMINATOR);
      var budget := totalContributed - fee;
      var unpaid := budget - totalReleased;
      if unpaid <= 0 then 0
      else
        var share := Truncated(donorContributed * unpaid, totalContributed);
        if share <= 0 then 0
        else
          var remaining := share - alreadyRefunded;
          if 0 < remaining then remaining else 0
  }

  function ClaimableShown(w: World, donor: Address): int {
    ClaimableRefund(Get(w.p.donors, donor), w.p.contributed, w.p.config.feeBps, w.p.released,
                    Get(w.p.refunded, donor), RefundsOpen(w))
  }

  // The mirror shows what is left of the entitlement while refunds are open, otherwise nothing.
  lemma ShownIsLeft(w: World, donor: Address)
    requires Claims(w.p) && TermsSane(w.p.config)
    ensures var left := Entitlement(w.p, donor) - Get(w.p.refunded, donor);
            ClaimableShown(w, donor) == if RefundsOpen(w) && 0 < left then left else 0
  {
    SumNonNegative(w.p.donors);
    MulMonotone(0, w.p.contributed, w.p.config.feeBps);
    EntitlementBounds(w.p, donor);
    if donor in w.p.donors && 0 < Pool(w.p) {
      MulMonotone(0, w.p.donors[donor], Pool(w.p));
    }
    assert donor in w.p.refunded ==> 0 < w.p.refunded[donor];
  }

  // So in every reachable state before the sweep it is exactly what a full claim pays, and zero
  // exactly when a claim is refused.
  lemma {:induction false} MirrorIsExact(w: World, calls: seq<Call>, donor: Address)
    requires Deployed(w)
    requires AllLegal(w, calls)
    requires Exec(w, calls).p.sweptTotal == 0
    requires Exec(w, calls).p.contributed <= 0x8000_0000_0000_0000
    ensures var v := Exec(w, calls);
            var r := ClaimRefund(v, donor, None);
            ClaimableShown(v, donor) == if r.Ok? then r.value.1 else 0
    ensures ClaimRefund(Exec(w, calls), donor, None).Ok? ==> 0 < ClaimableShown(Exec(w, calls), donor)
  {
    var v := Exec(w, calls);
    RunKeepsClaims(w, calls);
    RunKeepsSound(w, calls);
    SoundGivesTerms(v);
    ClaimSucceedsExactly(w, calls, donor, None);
    ShownIsLeft(v, donor);
    hide Exec, Deployed, Entitlement, Sound, RefundsOpen, Returned, ClaimRefund, ClaimableShown;
  }
}
