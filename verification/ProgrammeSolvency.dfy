// Solvency: until the final sweep every part of what the programme owes is non-negative and held, so
// none of its own payments can ever lack cover.
module ProgrammeSolvency {
  import opened Results
  import opened Ledger
  import opened MapSums
  import opened Arithmetic
  import opened Programme
  import opened ProgrammeTerms
  import opened ProgrammeLedger
  import opened ProgrammeVotes
  import opened ProgrammeAwards
  import opened ProgrammeTranches
  import opened ProgrammeRuns
  import opened ProgrammeRefunds
  import opened ProgrammeEntitlements

  ghost predicate Solvent(w: World) {
    && Get(w.balances, w.self) == Sum(w.p.allocations) + UnsweptFee(w.p) + Unpaid(w.p) + Strays(w.transfers, w.self)
    && (forall r :: Get(w.p.allocations, r) <= Sum(w.p.allocations))
    && 0 <= Sum(w.p.allocations)
    && 0 <= UnsweptFee(w.p)
    && 0 <= Unpaid(w.p)
    && 0 <= Strays(w.transfers, w.self)
  }

  lemma PartsGiveSolvent(w: World)
    requires Conserved(w) && Funded(w) && WithinBudget(w.p) && TermsSane(w.p.config)
    requires w.p.released <= w.p.granted
    requires 0 < w.p.refundedTotal ==> w.p.refundedTotal <= Pool(w.p)
    requires w.p.sweptTotal == 0
    ensures Solvent(w)
  {
    SumNonNegative(w.p.allocations);
    BudgetGrows(w.p.contributed, w.p.contributed, w.p.config.feeBps);
    hide FeeOn, Strays;
  }

  // In every reachable state before the sweep, where batches fit.
  lemma {:induction false} SolventUntilSwept(w: World, calls: seq<Call>)
    requires Deployed(w)
    requires AllLegal(w, calls) && AllFit(w, calls)
    requires Exec(w, calls).p.sweptTotal == 0
    ensures Solvent(Exec(w, calls))
  {
    var v := Exec(w, calls);
    hide Exec, Deployed, AllLegal, AllFit, AllOnSchedule, Pool;
    RunKeepsSound(w, calls);
    RunKeepsSchedule(w, calls);
    ReleasedWithinGranted(v.p);
    RefundsWithinPool(w, calls);
    PartsGiveSolvent(v);
  }

  // ---- one release ----

  // What a release leans on while the release window is open.
  ghost predicate Releasing(w: World) {
    && Conserved(w) && Funded(w) && TermsSane(w.p.config) && w.p.sweptTotal == 0
    && AllAwardsSound(w.p) && TotalsAddUp(w.p) && WithinBudget(w.p)
    && AllOnSchedule(w.p)
    && w.p.refundedTotal == 0
  }

  // The next tranche of any award is covered by the unreleased budget.
  lemma TrancheIsCovered(w: World, recipient: Address)
    requires Releasing(w)
    requires recipient in w.p.awards && w.p.awards[recipient].tranchesReleased < w.p.awards[recipient].tranches
    ensures 0 <= NextTranche(w.p.awards[recipient]) <= Get(w.balances, w.self)
  {
    ReleasedWithinGranted(w.p);
    PartsGiveSolvent(w);
    NextOnSchedule(w.p.awards[recipient]);
    hide NextTranche, FeeOn, Strays, AllOnSchedule, OnSchedule;
  }

  lemma DisburseIsCovered(w: World, recipient: Address, uid: Uid)
    requires Releasing(w)
    requires recipient in w.p.awards && w.p.awards[recipient].tranchesReleased < w.p.awards[recipient].tranches
    ensures Disburse(w, recipient, w.p.awards[recipient], uid) != Err(TokenFailed)
  {
    TrancheIsCovered(w, recipient);
    hide NextTranche, Releasing;
  }

  lemma DisburseKeepsReleasing(w: World, recipient: Address, uid: Uid)
    requires Releasing(w) && uid !in w.p.used
    requires recipient in w.p.awards && w.p.awards[recipient].tranchesReleased < w.p.awards[recipient].tranches
    requires Disburse(w, recipient, w.p.awards[recipient], uid).Ok?
    ensures var next := Disburse(w, recipient, w.p.awards[recipient], uid).value;
            Releasing(next) && recipient in next.p.awards && next.p.awards[recipient] == Advanced(w.p.awards[recipient])
  {
    DisburseConserves(w, recipient, w.p.awards[recipient], uid);
    DisburseKeepsFunded(w, recipient, w.p.awards[recipient], uid);
    DisburseKeepsAwards(w, recipient, uid);
    DisburseKeepsSchedule(w, recipient, uid);
    DisburseBooks(w, recipient, w.p.awards[recipient], uid);
    hide Conserved, Funded, AllAwardsSound, TotalsAddUp, AllOnSchedule, Disburse, TermsSane, NextTranche;
  }

  lemma {:induction false} EachIsCovered(w: World, recipient: Address, uids: seq<Uid>, attester: Address)
    requires Releasing(w)
    requires recipient in w.p.awards
    requires |uids| <= w.p.awards[recipient].tranches - w.p.awards[recipient].tranchesReleased
    ensures ReleaseEach(w, recipient, uids, attester) != Err(TokenFailed)
    decreases |uids|
  {
    hide Disburse, Releasing;
    if uids != [] && ProofGuard(w, recipient, uids[0], attester).Pass? {
      DisburseIsCovered(w, recipient, uids[0]);
      if Disburse(w, recipient, w.p.awards[recipient], uids[0]).Ok? {
        DisburseKeepsReleasing(w, recipient, uids[0]);
        EachIsCovered(Disburse(w, recipient, w.p.awards[recipient], uids[0]).value, recipient, uids[1..], attester);
      }
    }
  }

  // ---- every payment ----

  predicate PaysOut(call: Call) {
    IsRelease(call) || call.CallSpend? || call.CallSweepFee? || call.CallRefund?
  }

  lemma ReleaseIsCovered(w: World, call: Call)
    requires RefundsOpen(w) || Releasing(w)
    requires IsRelease(call) && Fits(w, call)
    ensures Step(w, call) != Err(TokenFailed)
  {
    hide Disburse, Releasing, ReleaseEach;
    if Releasing(w) {
      if call.CallRelease? {
        if AwardGuard(w, call.recipient).Pass? {
          DisburseIsCovered(w, call.recipient, call.uid);
        }
      } else if call.recipient in w.p.awards {
        EachIsCovered(w, call.recipient, call.uids, call.attester);
      }
    }
  }

  lemma SpendIsCovered(w: World, recipient: Address, payee: Address, amount: int)
    requires Solvent(w)
    ensures Spend(w, recipient, payee, amount) != Err(TokenFailed)
  {
    hide FeeOn, Strays;
  }

  lemma FeeIsCovered(w: World)
    requires Solvent(w)
    ensures SweepFee(w) != Err(TokenFailed)
  {
    hide Strays;
  }

  lemma RefundIsCovered(w: World, donor: Address, asked: Option<int>)
    requires RefundsSound(w) && Solvent(w)
    ensures ClaimRefund(w, donor, asked) != Err(TokenFailed)
  {
    if RefundDue(w, donor, asked).Ok? {
      DueWithinEntitlement(w, donor, asked);
      ClaimsWithinShares(w.p, donor);
      AllSharesFit(w.p);
      hide RefundDue, Entitlement, AllShares, FeeOn, Strays, PaidBack;
    } else {
      DueErrors(w, donor, asked);
    }
  }

  lemma DueErrors(w: World, donor: Address, asked: Option<int>)
    ensures RefundDue(w, donor, asked) != Err(TokenFailed)
  {
    hide FeeOn;
  }

  // No release, fitting batch, directed spend, fee sweep or refund is ever refused for lack of cover,
  // in any interleaving, until the programme is swept.
  lemma {:induction false} EveryPaymentIsCovered(w: World, calls: seq<Call>, call: Call)
    requires Deployed(w)
    requires AllLegal(w, calls) && AllFit(w, calls)
    requires Exec(w, calls).p.sweptTotal == 0
    requires PaysOut(call) && Fits(Exec(w, calls), call)
    ensures Step(Exec(w, calls), call) != Err(TokenFailed)
  {
    var v := Exec(w, calls);
    hide Exec, Deployed, AllLegal, AllFit, Fits, Solvent, Spend, SweepFee, ClaimRefund, Release, ReleaseBatch;
    SolventUntilSwept(w, calls);
    RunKeepsClaims(w, calls);
    if IsRelease(call) {
      hide Step;
      WindowOpenOrRefunds(w, calls);
      ReleaseIsCovered(v, call);
    } else {
      match call
      case CallSpend(r, p, n) => SpendIsCovered(v, r, p, n);
      case CallSweepFee => FeeIsCovered(v);
      case CallRefund(d, n) => RefundIsCovered(v, d, n);
    }
  }

  lemma {:induction false} WindowOpenOrRefunds(w: World, calls: seq<Call>)
    requires Deployed(w)
    requires AllLegal(w, calls) && AllFit(w, calls)
    requires Exec(w, calls).p.sweptTotal == 0
    ensures RefundsOpen(Exec(w, calls)) || Releasing(Exec(w, calls))
  {
    hide Exec, Deployed, AllLegal, AllFit, AllOnSchedule, AllAwardsSound, TotalsAddUp, Conserved, Funded, RefundsOpen, PaidBack;
    RunKeepsSound(w, calls);
    RunKeepsSchedule(w, calls);
    RunKeepsClaims(w, calls);
  }
}
