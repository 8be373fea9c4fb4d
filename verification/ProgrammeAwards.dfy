// Awards over any run: what is granted, released and proved adds up, and never exceeds the budget.
module ProgrammeAwards {
  import opened Results
  import opened Ledger
  import opened MapSums
  import opened Arithmetic
  import opened Votes
  import opened Programme
  import opened ProgrammeTerms
  import opened ProgrammeVotes

  function GrantedOf(a: Award): int { a.granted }
  function ReleasedOf(a: Award): int { a.released }
  function TranchesOf(a: Award): int { a.tranchesReleased }

  // An award is what its application settled on, under the programme's terms.
  ghost predicate AwardSound(p: Storage, r: Address) {
    r in p.awards ==>
      var a := p.awards[r];
      && a.recipient == r
      && a.tranches == p.config.tranches
      && 0 < a.granted && p.config.minimumAward <= a.granted
      && (a.mode == Open ==> a.payee == r)
      && r in p.applications && p.applications[r].finalized
      && 0 < p.config.quorum <= |p.applications[r].votes|
      && a.granted == p.applications[r].votes[AwardIndex(p.config.quorum)]
  }

  ghost predicate AllAwardsSound(p: Storage) {
    && (forall r :: AwardSound(p, r))
    && (forall r :: r in p.applications && p.applications[r].finalized ==> r in p.awards)
  }

  // The running totals are the sums over the awards; each used proof released one tranche.
  ghost predicate TotalsAddUp(p: Storage) {
    && p.granted == SumOf(p.awards, GrantedOf)
    && p.released == SumOf(p.awards, ReleasedOf)
    && |p.used| == SumOf(p.awards, TranchesOf)
  }

  predicate WithinBudget(p: Storage) {
    && 0 <= p.contributed
    && p.granted <= BudgetOf(p.contributed, p.config.feeBps)
  }

  // ---- finalize ----

  lemma FinalizeKeepsAwards(w: World, applicant: Address, payee: Address, mode: Mode)
    requires AllAwardsSound(w.p) && AllVotesSound(w.p)
    requires Finalize(w, applicant, payee, mode).Ok?
    ensures AllAwardsSound(Finalize(w, applicant, payee, mode).value.0.p)
  {
    var next := Finalize(w, applicant, payee, mode).value.0.p;
    var a := w.p.applications[applicant];
    assert VotesSound(w.p, applicant);
    forall r
      ensures AwardSound(next, r)
    {
      assert AwardSound(w.p, r);
    }
  }

  lemma FinalizeKeepsTotals(w: World, applicant: Address, payee: Address, mode: Mode)
    requires AllAwardsSound(w.p) && TotalsAddUp(w.p) && WithinBudget(w.p)
    requires Finalize(w, applicant, payee, mode).Ok?
    ensures var next := Finalize(w, applicant, payee, mode).value.0.p; TotalsAddUp(next) && WithinBudget(next)
  {
    var award := Finalize(w, applicant, payee, mode).value.1;
    assert AwardSound(w.p, applicant);
    SumOfUpdate(w.p.awards, GrantedOf, applicant, award);
    SumOfUpdate(w.p.awards, ReleasedOf, applicant, award);
    SumOfUpdate(w.p.awards, TranchesOf, applicant, award);
  }

  // ---- release ----

  // What releasing a tranche leaves in the programme's own books.
  lemma DisburseBooks(w: World, recipient: Address, a: Award, uid: Uid)
    requires Disburse(w, recipient, a, uid).Ok?
    ensures var next := Disburse(w, recipient, a, uid).value;
            && ReleaseFramed(w, next)
            && next.p.awards == w.p.awards[recipient :=
                 a.(tranchesReleased := a.tranchesReleased + 1, released := a.released + NextTranche(a))]
            && next.p.used == w.p.used + {uid}
            && next.p.released == w.p.released + NextTranche(a)
            && 0 < NextTranche(a)
  {
    hide PayOut, NextTranche;
  }

  lemma DisburseKeepsAwards(w: World, recipient: Address, uid: Uid)
    requires AllAwardsSound(w.p) && TotalsAddUp(w.p)
    requires recipient in w.p.awards && uid !in w.p.used
    requires Disburse(w, recipient, w.p.awards[recipient], uid).Ok?
    ensures var next := Disburse(w, recipient, w.p.awards[recipient], uid).value.p;
            AllAwardsSound(next) && TotalsAddUp(next) && next.granted == w.p.granted
  {
    var a := w.p.awards[recipient];
    var next := Disburse(w, recipient, a, uid).value.p;
    DisburseBooks(w, recipient, a, uid);
    hide Disburse, NextTranche;
    SumOfUpdate(w.p.awards, GrantedOf, recipient, next.awards[recipient]);
    SumOfUpdate(w.p.awards, ReleasedOf, recipient, next.awards[recipient]);
    SumOfUpdate(w.p.awards, TranchesOf, recipient, next.awards[recipient]);
    forall r
      ensures AwardSound(next, r)
    {
      assert AwardSound(w.p, r);
    }
  }

  lemma {:induction false} EachKeepsAwards(w: World, recipient: Address, uids: seq<Uid>, attester: Address)
    requires AllAwardsSound(w.p) && TotalsAddUp(w.p)
    requires ReleaseEach(w, recipient, uids, attester).Ok?
    ensures var next := ReleaseEach(w, recipient, uids, attester).value.0.p;
            AllAwardsSound(next) && TotalsAddUp(next) && next.granted == w.p.granted
    decreases |uids|
  {
    hide Disburse, AllAwardsSound, TotalsAddUp;
    if uids != [] {
      DisburseKeepsAwards(w, recipient, uids[0]);
      EachKeepsAwards(Disburse(w, recipient, w.p.awards[recipient], uids[0]).value, recipient, uids[1..], attester);
    }
  }

  // ---- everything else ----

  lemma BudgetGrows(c: int, d: int, feeBps: nat)
    requires 0 <= c <= d && feeBps <= BPS_DENOMINATOR
    ensures BudgetOf(c, feeBps) <= BudgetOf(d, feeBps)
    ensures 0 <= FeeOn(c, feeBps) <= c
  {
    MulMonotone(c, d, feeBps);
    MulMonotone(0, c, feeBps);
    MulMonotone(feeBps, BPS_DENOMINATOR, d - c);
    MulMonotone(feeBps, BPS_DENOMINATOR, c);
    assert d * feeBps <= c * feeBps + (d - c) * BPS_DENOMINATOR;
    DivMonotone(d * feeBps, c * feeBps + (d - c) * BPS_DENOMINATOR, BPS_DENOMINATOR);
    assert (c * feeBps + (d - c) * BPS_DENOMINATOR) / BPS_DENOMINATOR == c * feeBps / BPS_DENOMINATOR + (d - c);
  }

  lemma SameAwards(p: Storage, q: Storage)
    requires AllAwardsSound(p)
    requires q.awards == p.awards
    requires q.config.tranches == p.config.tranches && q.config.quorum == p.config.quorum
    requires q.config.minimumAward == p.config.minimumAward
    requires forall r :: r in p.applications && p.applications[r].finalized ==>
               r in q.applications && q.applications[r] == p.applications[r]
    requires forall r :: r in q.applications && q.applications[r].finalized ==>
               r in p.applications && p.applications[r].finalized
    ensures AllAwardsSound(q)
  {
    forall r
      ensures AwardSound(q, r)
    {
      assert AwardSound(p, r);
    }
  }

  // Applying, voting and withdrawing leave what has been settled as it was.
  ghost predicate SettledUntouched(p: Storage, q: Storage) {
    && q.awards == p.awards && q.granted == p.granted && q.config == p.config
    && (forall r :: r in p.applications && p.applications[r].finalized ==>
          r in q.applications && q.applications[r] == p.applications[r])
    && (forall r :: r in q.applications && q.applications[r].finalized ==>
          r in p.applications && p.applications[r].finalized)
  }

  lemma ApplyLeavesSettled(w: World, applicant: Address, requested: int)
    requires Apply(w, applicant, requested).Ok?
    ensures SettledUntouched(w.p, Apply(w, applicant, requested).value.p)
  {
  }

  lemma ReviewLeavesSettled(w: World, reviewer: Address, applicant: Address, approved: int)
    requires Reviewed(w, reviewer, applicant, approved).Ok?
    ensures SettledUntouched(w.p, Reviewed(w, reviewer, applicant, approved).value.p)
  {
    hide Inserted, Removed, VotesFor;
  }

  lemma WithdrawLeavesSettled(w: World, applicant: Address)
    requires Withdraw(w, applicant).Ok?
    ensures SettledUntouched(w.p, Withdraw(w, applicant).value.p)
  {
  }

  lemma PeopleKeepAwards(w: World, call: Call)
    requires IsPeople(call) && !call.CallFinalize?
    requires AllAwardsSound(w.p)
    ensures AllAwardsSound(Next(w, call).p)
    ensures Next(w, call).p.awards == w.p.awards && Next(w, call).p.granted == w.p.granted
  {
    hide AllAwardsSound, Apply, Reviewed, Withdraw;
    if Step(w, call).Ok? {
      match call
      case CallApply(a, n) => ApplyLeavesSettled(w, a, n);
      case CallReview(v, a, n) => ReviewLeavesSettled(w, v, a, n);
      case CallWithdraw(a) => WithdrawLeavesSettled(w, a);
    }
    SameAwards(w.p, Next(w, call).p);
  }

  ghost predicate Accounts(p: Storage) {
    AllAwardsSound(p) && TotalsAddUp(p) && WithinBudget(p)
  }

  lemma OthersKeepFields(w: World, call: Call)
    requires !IsPeople(call) && !IsRelease(call)
    ensures var q := Next(w, call).p;
            && q.awards == w.p.awards && q.applications == w.p.applications && q.used == w.p.used
            && q.granted == w.p.granted && q.released == w.p.released
  {
    hide Next;
    if IsMoney(call) {
      MoneyFrame(w, call);
    } else if MovesClock(call) {
      ClockFrame(w, call);
    } else {
      ControlFrame(w, call);
    }
  }

  lemma OthersKeepAccounts(w: World, call: Call)
    requires !IsPeople(call) && !IsRelease(call)
    requires Accounts(w.p) && TermsSane(w.p.config)
    ensures Accounts(Next(w, call).p)
  {
    hide Next, AllAwardsSound, TotalsAddUp;
    var next := Next(w, call);
    OthersKeepFields(w, call);
    ContributedOnlyGrows(w, call);
    NextFollows(w, call);
    SameAwards(w.p, next.p);
    TotalsByFields(w.p, next.p);
    BudgetGrows(w.p.contributed, next.p.contributed, w.p.config.feeBps);
  }

  lemma {:induction false} ContributedOnlyGrows(w: World, call: Call)
    ensures w.p.contributed <= Next(w, call).p.contributed
    // The budget is fixed once contributions have closed.
    ensures Next(w, call).p.contributed != w.p.contributed ==> PhaseOf(w.p, w.now) == Opened && call.CallContribute?
  {
    if IsPeople(call) {
      PeopleFrame(w, call);
      hide Next;
    } else if IsRelease(call) {
      ReleaseFrame(w, call);
      hide Next;
    } else if MovesClock(call) {
      ClockFrame(w, call);
      hide Next;
    } else if IsControl(call) {
      ControlFrame(w, call);
      hide Next;
    } else {
      hide RefundDue, Moved;
    }
  }

  lemma {:induction false} NextKeepsAccounts(w: World, call: Call)
    requires Accounts(w.p) && AllVotesSound(w.p) && TermsSane(w.p.config)
    ensures Accounts(Next(w, call).p)
  {
    hide AllAwardsSound, TotalsAddUp, AllVotesSound, ReleaseEach, Disburse, Finalize, ProofGuard;
    if call.CallFinalize? {
      if Step(w, call).Ok? {
        FinalizeKeepsAwards(w, call.applicant, call.payee, call.mode);
        FinalizeKeepsTotals(w, call.applicant, call.payee, call.mode);
      }
    } else if IsRelease(call) {
      ReleaseKeepsAccounts(w, call);
    } else if IsPeople(call) {
      PeopleKeepAwards(w, call);
      PeopleFrame(w, call);
      hide Next;
      TotalsByFields(w.p, Next(w, call).p);
    } else {
      OthersKeepAccounts(w, call);
    }
  }

  lemma TotalsByFields(p: Storage, q: Storage)
    requires TotalsAddUp(p)
    requires q.granted == p.granted && q.released == p.released && q.used == p.used && q.awards == p.awards
    ensures TotalsAddUp(q)
  {
  }

  lemma ReleaseKeepsAccounts(w: World, call: Call)
    requires IsRelease(call)
    requires Accounts(w.p)
    ensures Accounts(Next(w, call).p)
  {
    hide AllAwardsSound, TotalsAddUp, Disburse, ReleaseEach;
    if Step(w, call).Ok? {
      ReleaseFrame(w, call);
      if call.CallRelease? {
        DisburseKeepsAwards(w, call.recipient, call.uid);
      } else {
        EachKeepsAwards(w, call.recipient, call.uids, call.attester);
      }
    }
  }
}
