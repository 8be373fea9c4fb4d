// What a call answers: the amount it returns when it goes through, and an error that is true of the
// state when it does not.
module ProgrammeAnswers {
  import opened Results
  import opened Ledger
  import opened MapSums
  import opened Votes
  import opened Programme
  import opened ProgrammeTerms
  import opened ProgrammeAwards
  import opened ProgrammeTranches
  import opened ProgrammeRuns
  import opened ProgrammeBooks
  import Attest
  import Record

  // ---- amounts ----

  // Each amount returned is what the call moved, or what it left.
  lemma AmountsAreTrue(w: World, recipient: Address, uid: Uid, uids: seq<Uid>, attester: Address,
                       payee: Address, amount: int, mode: Mode)
    ensures var r := Release(w, recipient, uid, attester);
            r.Ok? ==> r.value.1 == r.value.0.p.released - w.p.released
    ensures var r := ReleaseBatch(w, recipient, uids, attester);
            r.Ok? ==> r.value.1 == r.value.0.p.released - w.p.released
    ensures var r := Spend(w, recipient, payee, amount);
            r.Ok? ==> r.value.1 == Get(r.value.0.p.allocations, recipient) == Get(w.p.allocations, recipient) - amount
    ensures var r := Finalize(w, recipient, payee, mode);
            r.Ok? ==> recipient in r.value.0.p.awards && r.value.1 == r.value.0.p.awards[recipient]
  {
    hide Disburse, ProofGuard, ReleaseEach, AwardDue, NextTranche, Moved;
    if Release(w, recipient, uid, attester).Ok? {
      DisburseBooks(w, recipient, w.p.awards[recipient], uid);
    }
    if ReleaseBatch(w, recipient, uids, attester).Ok? {
      EachReturnsTotal(w, recipient, uids, attester);
    }
  }

  lemma {:induction false} EachReturnsTotal(w: World, recipient: Address, uids: seq<Uid>, attester: Address)
    requires ReleaseEach(w, recipient, uids, attester).Ok?
    ensures var r := ReleaseEach(w, recipient, uids, attester);
            r.value.1 == r.value.0.p.released - w.p.released
    decreases |uids|
  {
    hide Disburse, ProofGuard, NextTranche;
    if uids != [] {
      DisburseBooks(w, recipient, w.p.awards[recipient], uids[0]);
      EachReturnsTotal(Disburse(w, recipient, w.p.awards[recipient], uids[0]).value, recipient, uids[1..], attester);
    }
  }

  // What the sweeps return is what leaves the balance, the treasury being another account; a fee sweep
  // of nothing moves nothing.
  lemma SweepsAreTrue(w: World)
    requires w.p.config.treasury != w.self && 0 <= FeeOn(w.p.contributed, w.p.config.feeBps)
    ensures SweepFee(w).Ok? ==> SweepFee(w).value.1 == Get(w.balances, w.self) - Get(SweepFee(w).value.0.balances, w.self)
    ensures SweepUnclaimed(w).Ok? ==>
              && SweepUnclaimed(w).value.1 == Get(w.balances, w.self)
              && Get(SweepUnclaimed(w).value.0.balances, w.self) == 0
  {
    hide FeeOn, PhaseOf;
  }

  // ---- errors ----

  // A claim of more than a full claim would pay.
  predicate MoreThanLeft(w: World, donor: Address, amount: int) {
    RefundDue(w, donor, None).Ok? && RefundDue(w, donor, None).value < amount
  }

  // What each error claims about the call it refuses.
  ghost predicate Explains(w: World, call: Call, e: Error) {
    var p, c := w.p, w.p.config;
    match e
    case Paused => p.paused
    case Cancelled => p.cancelled
    case NotCancellable => call.CallCancel? && p.released != 0
    case WrongPhase =>
      && !(call.CallContribute? && w.now < c.applyDeadline)
      && !(call.CallApply? && w.now < c.applyDeadline)
      && !(call.CallReview? && c.applyDeadline <= w.now < c.reviewDeadline)
      && !(call.CallFinalize? && c.applyDeadline <= w.now)
      && !(call.CallSweepFee? && c.applyDeadline <= w.now)
    case NotAuthorized =>
      || (call.CallReview? && call.reviewer !in p.reviewers)
      || (IsRelease(call) && call.attester !in p.verifiers)
    case InvalidAmount =>
      || (call.CallContribute? && call.amount <= 0)
      || (call.CallApply? && call.requested <= 0)
      || (call.CallReview? && call.approved <= 0)
      || (call.CallSpend? && call.amount <= 0)
      || (call.CallReleaseBatch? && call.uids == [])
      || (call.CallRefund? && call.asked.Some? && (call.asked.value <= 0 || MoreThanLeft(w, call.donor, call.asked.value)))
    case InvalidDeadlines => call.CallExtendReleaseDeadline? && call.deadline <= c.releaseDeadline
    case ApplicationNotFound => (call.CallReview? || call.CallWithdraw? || call.CallFinalize?) && call.applicant !in p.applications
    case AlreadyApplied => call.CallApply? && call.applicant in p.applications
    case ExceedsRequested =>
      call.CallReview? && call.applicant in p.applications && p.applications[call.applicant].requested < call.approved
    case AlreadyFinalized => IsPeople(call) && call.applicant in p.applications && p.applications[call.applicant].finalized
    case Withdrawn => IsPeople(call) && call.applicant in p.applications && p.applications[call.applicant].withdrawn
    case QuorumNotReached =>
      call.CallFinalize? && call.applicant in p.applications &&
      (c.quorum == 0 || |p.applications[call.applicant].votes| < c.quorum)
    case BelowMinimumAward =>
      call.CallFinalize? && call.applicant in p.applications && 0 < c.quorum <= |p.applications[call.applicant].votes| &&
      p.applications[call.applicant].votes[(c.quorum - 1) / 2] < c.minimumAward
    case PayeeNotVerified =>
      (call.CallFinalize? || call.CallSpend?) && (call.CallFinalize? ==> call.mode == Direct) && call.payee !in p.payees
    case OpenPayeeNotRecipient => call.CallFinalize? && call.mode == Open && call.payee != call.applicant
    case InsufficientBudget =>
      call.CallFinalize? && call.applicant in p.applications && 0 < c.quorum <= |p.applications[call.applicant].votes| &&
      BudgetOf(p.contributed, c.feeBps) < p.granted + p.applications[call.applicant].votes[(c.quorum - 1) / 2]
    case AlreadyPayee =>
      || (call.CallAllowPayee? && call.payee in p.payees)
      || (call.CallAddVerifier? && call.verifier in p.verifiers)
    case NotPayee =>
      || (call.CallDenyPayee? && call.payee !in p.payees)
      || (call.CallRemoveVerifier? && call.verifier !in p.verifiers)
    case SpendWindowClosed => call.CallSpend? && c.sweepDeadline <= w.now
    case InsufficientAllocation => call.CallSpend? && Get(p.allocations, call.recipient) < call.amount
    case ReleaseWindowClosed => IsRelease(call) && c.releaseDeadline <= w.now
    case AwardNotFound => IsRelease(call) && call.recipient !in p.awards
    case AwardFullyReleased =>
      IsRelease(call) && call.recipient in p.awards && p.awards[call.recipient].tranches <= p.awards[call.recipient].tranchesReleased
    case AttestationAlreadyUsed =>
      || (call.CallRelease? && call.uid in p.used)
      || (call.CallReleaseBatch? && exists i :: 0 <= i < |call.uids| && (call.uids[i] in p.used || call.uids[i] in call.uids[..i]))
    case AttestationInvalid =>
      || (call.CallRelease? && !LiveProof(w, call.uid, call.recipient, call.attester))
      || (call.CallReleaseBatch? && exists u :: u in call.uids && !LiveProof(w, u, call.recipient, call.attester))
    case PolicyNotInstalled =>
      && IsRelease(call) && call.recipient in p.awards && p.awards[call.recipient].mode == Restricted
      && p.awards[call.recipient].payee !in w.installed
    case BatchTooLarge => call.CallReleaseBatch? && 50 < |call.uids|
    case FeeAlreadySwept => call.CallSweepFee? && p.feeSwept
    case RefundsNotOpen =>
      || (call.CallRefund? && !p.cancelled && w.now < c.releaseDeadline)
      || (call.CallExtendReleaseDeadline? && c.releaseDeadline <= w.now)
    case SweepNotOpen => call.CallSweepUnclaimed? && w.now < c.sweepDeadline
    case NothingToSweep => call.CallSweepUnclaimed? && Get(w.balances, w.self) <= 0
    case NothingToRefund =>
      call.CallRefund? &&
      (|| Get(p.donors, call.donor) == 0
       || BudgetOf(p.contributed, c.feeBps) <= p.released
       || (0 < p.contributed &&
           Get(p.donors, call.donor) * (BudgetOf(p.contributed, c.feeBps) - p.released) / p.contributed <= 0))
    case AlreadyRefunded =>
      call.CallRefund? && 0 < p.contributed &&
      Get(p.donors, call.donor) * (BudgetOf(p.contributed, c.feeBps) - p.released) / p.contributed <= Get(p.refunded, call.donor)
    case TokenFailed => IsMoney(call) || IsRelease(call)
    case CreditRejected(_) => IsRelease(call)
    case Overflow => IsMoney(call) || IsRelease(call) || call.CallFinalize?
    case _ => false
  }

  lemma ApplyErrors(w: World, applicant: Address, requested: int)
    requires Apply(w, applicant, requested).Err?
    ensures Explains(w, CallApply(applicant, requested), Apply(w, applicant, requested).error)
  {
    hide FeeOn, RefundDue;
  }

  lemma ReviewErrors(w: World, reviewer: Address, applicant: Address, approved: int)
    requires Reviewed(w, reviewer, applicant, approved).Err?
    ensures Explains(w, CallReview(reviewer, applicant, approved), Reviewed(w, reviewer, applicant, approved).error)
  {
    hide Inserted, Removed, VotesFor, RefundDue;
  }

  lemma WithdrawErrors(w: World, applicant: Address)
    requires Withdraw(w, applicant).Err?
    ensures Explains(w, CallWithdraw(applicant), Withdraw(w, applicant).error)
  {
    hide FeeOn, RefundDue;
  }

  lemma DueAwardErrors(w: World, applicant: Address, payee: Address, mode: Mode)
    requires AwardDue(w, applicant, payee, mode).Err?
    ensures Explains(w, CallFinalize(applicant, payee, mode), AwardDue(w, applicant, payee, mode).error)
  {
    hide RefundDue, BudgetOf, PayeeGuard;
    PayeeErrors(w, applicant, payee, mode);
  }

  lemma PayeeErrors(w: World, applicant: Address, payee: Address, mode: Mode)
    ensures var guard := PayeeGuard(w.p, applicant, payee, mode);
            guard.Stop? ==> Explains(w, CallFinalize(applicant, payee, mode), guard.error)
  {
    hide RefundDue, BudgetOf;
  }

  lemma FinalizeErrors(w: World, applicant: Address, payee: Address, mode: Mode)
    requires Finalize(w, applicant, payee, mode).Err?
    ensures Explains(w, CallFinalize(applicant, payee, mode), Finalize(w, applicant, payee, mode).error)
  {
    hide AwardDue, Explains;
    DueAwardErrors(w, applicant, payee, mode);
  }

  lemma ContributeErrors(w: World, donor: Address, amount: int)
    requires Contribute(w, donor, amount).Err?
    ensures Explains(w, CallContribute(donor, amount), Contribute(w, donor, amount).error)
  {
    hide Moved, FeeOn, RefundDue;
  }

  lemma SpendErrors(w: World, recipient: Address, payee: Address, amount: int)
    requires Spend(w, recipient, payee, amount).Err?
    ensures Explains(w, CallSpend(recipient, payee, amount), Spend(w, recipient, payee, amount).error)
  {
    hide Moved, FeeOn, RefundDue;
  }

  lemma SweepFeeErrors(w: World)
    requires SweepFee(w).Err?
    ensures Explains(w, CallSweepFee, SweepFee(w).error)
  {
    hide Moved, FeeOn, RefundDue;
  }

  lemma SweepErrors(w: World)
    requires SweepUnclaimed(w).Err?
    ensures Explains(w, CallSweepUnclaimed, SweepUnclaimed(w).error)
  {
    hide Moved, FeeOn, RefundDue;
  }

  lemma DueErrors(w: World, donor: Address, asked: Option<int>)
    requires RefundDue(w, donor, asked).Err?
    ensures Explains(w, CallRefund(donor, asked), RefundDue(w, donor, asked).error)
  {
    hide FeeOn;
  }

  lemma RefundErrors(w: World, donor: Address, asked: Option<int>)
    requires ClaimRefund(w, donor, asked).Err?
    ensures Explains(w, CallRefund(donor, asked), ClaimRefund(w, donor, asked).error)
  {
    if RefundDue(w, donor, asked).Err? {
      DueErrors(w, donor, asked);
      hide Explains, RefundDue;
    } else {
      hide RefundDue, Moved;
    }
  }

  lemma ControlErrors(w: World, call: Call)
    requires IsControl(call) && Step(w, call).Err?
    ensures Explains(w, call, Step(w, call).error)
  {
    hide RefundDue, FeeOn, Attest.Next, Record.Next;
  }

  // The errors a proof or its payment can meet on the way, whichever world of the loop it is.
  ghost predicate ExplainsEach(w: World, recipient: Address, uids: seq<Uid>, attester: Address, e: Error) {
    match e
    case AttestationAlreadyUsed => exists i :: 0 <= i < |uids| && (uids[i] in w.p.used || uids[i] in uids[..i])
    case AttestationInvalid =>
      exists u :: u in uids && !LiveProof(w, u, recipient, attester)
    case PolicyNotInstalled =>
      recipient in w.p.awards && w.p.awards[recipient].mode == Restricted && w.p.awards[recipient].payee !in w.installed
    case TokenFailed => true
    case CreditRejected(_) => true
    case Overflow => true
    case _ => false
  }

  lemma InvalidIsNotLive(w: World, recipient: Address, uid: Uid, attester: Address)
    ensures ProofGuard(w, recipient, uid, attester) == Stop(AttestationInvalid) ==> !LiveProof(w, uid, recipient, attester)
    ensures ProofGuard(w, recipient, uid, attester) == Stop(AttestationAlreadyUsed) ==> uid in w.p.used
    ensures ProofGuard(w, recipient, uid, attester) in
            {Pass, Stop(AttestationInvalid), Stop(AttestationAlreadyUsed)}
  {
    Attest.VerifiesExactly(w.attest, w.now, uid, recipient, w.p.config.schema, attester);
    hide Attest.Verify;
  }

  lemma DisburseErrors(w: World, recipient: Address, uid: Uid)
    requires recipient in w.p.awards
    requires Disburse(w, recipient, w.p.awards[recipient], uid).Err?
    ensures var e := Disburse(w, recipient, w.p.awards[recipient], uid).error;
            || e == TokenFailed || e.CreditRejected? || e == Overflow
            || (e == PolicyNotInstalled && w.p.awards[recipient].mode == Restricted &&
                w.p.awards[recipient].payee !in w.installed)
  {
    hide NextTranche, Moved;
  }

  lemma ShiftErrors(w: World, next: World, recipient: Address, uids: seq<Uid>, attester: Address, e: Error)
    requires uids != [] && recipient in w.p.awards
    requires ExplainsEach(next, recipient, uids[1..], attester, e)
    requires next.p.used == w.p.used + {uids[0]} && next.attest == w.attest && next.now == w.now
    requires next.p.config == w.p.config && next.installed == w.installed
    requires recipient in next.p.awards
    requires next.p.awards[recipient].mode == w.p.awards[recipient].mode
    requires next.p.awards[recipient].payee == w.p.awards[recipient].payee
    ensures ExplainsEach(w, recipient, uids, attester, e)
  {
    assert forall i :: 0 <= i < |uids[1..]| ==> uids[1..][i] == uids[i + 1];
    if e == AttestationAlreadyUsed {
      var i :| 0 <= i < |uids[1..]| && (uids[1..][i] in next.p.used || uids[1..][i] in uids[1..][..i]);
      assert uids[..i + 1] == [uids[0]] + uids[1..][..i];
      assert uids[i + 1] in w.p.used || uids[i + 1] in uids[..i + 1];
    } else if e == AttestationInvalid {
      var u :| u in uids[1..] && !LiveProof(next, u, recipient, attester);
      assert u in uids && !LiveProof(w, u, recipient, attester);
    }
  }

  lemma {:induction false} EachErrors(w: World, recipient: Address, uids: seq<Uid>, attester: Address)
    requires recipient in w.p.awards
    requires ReleaseEach(w, recipient, uids, attester).Err?
    ensures ExplainsEach(w, recipient, uids, attester, ReleaseEach(w, recipient, uids, attester).error)
    decreases |uids|
  {
    hide Disburse, ReleaseEach, NextTranche, LiveProof, ProofGuard;
    if uids == [] {
      EachOfNone(w, recipient, attester);
    } else {
      EachUnfolds(w, recipient, uids, attester);
      InvalidIsNotLive(w, recipient, uids[0], attester);
      if ProofGuard(w, recipient, uids[0], attester).Pass? {
        var next := Disburse(w, recipient, w.p.awards[recipient], uids[0]);
        if next.Ok? {
          DisburseBooks(w, recipient, w.p.awards[recipient], uids[0]);
          EachErrors(next.value, recipient, uids[1..], attester);
          ShiftErrors(w, next.value, recipient, uids, attester, ReleaseEach(w, recipient, uids, attester).error);
        } else {
          DisburseErrors(w, recipient, uids[0]);
        }
      }
    }
  }

  lemma ReleaseGuardErrors(w: World, call: Call)
    requires IsRelease(call)
    ensures ReleaseGuard(w, call.attester).Stop? ==> Explains(w, call, ReleaseGuard(w, call.attester).error)
    ensures w.p.paused ==> Explains(w, call, Paused)
  {
    hide LiveProof, RefundDue, BudgetOf;
  }

  lemma AwardGuardErrors(w: World, call: Call)
    requires IsRelease(call)
    ensures AwardGuard(w, call.recipient).Stop? ==> Explains(w, call, AwardGuard(w, call.recipient).error)
  {
    hide LiveProof, RefundDue, BudgetOf;
  }

  lemma ProofGuardErrors(w: World, recipient: Address, uid: Uid, attester: Address)
    ensures var guard := ProofGuard(w, recipient, uid, attester);
            guard.Stop? ==> Explains(w, CallRelease(recipient, uid, attester), guard.error)
  {
    hide LiveProof, RefundDue, BudgetOf, ProofGuard;
    InvalidIsNotLive(w, recipient, uid, attester);
  }

  lemma OneErrors(w: World, recipient: Address, uid: Uid, attester: Address)
    requires recipient in w.p.awards
    requires Disburse(w, recipient, w.p.awards[recipient], uid).Err?
    ensures Explains(w, CallRelease(recipient, uid, attester), Disburse(w, recipient, w.p.awards[recipient], uid).error)
  {
    hide Disburse, LiveProof, RefundDue, FeeOn;
    DisburseErrors(w, recipient, uid);
  }

  lemma SingleErrors(w: World, recipient: Address, uid: Uid, attester: Address)
    requires Release(w, recipient, uid, attester).Err?
    ensures Explains(w, CallRelease(recipient, uid, attester), Release(w, recipient, uid, attester).error)
  {
    hide Disburse, NextTranche, Explains, ReleaseGuard, ProofGuard;
    ReleaseGuardErrors(w, CallRelease(recipient, uid, attester));
    AwardGuardErrors(w, CallRelease(recipient, uid, attester));
    ProofGuardErrors(w, recipient, uid, attester);
    if recipient in w.p.awards && Disburse(w, recipient, w.p.awards[recipient], uid).Err? {
      OneErrors(w, recipient, uid, attester);
    }
  }

  lemma LoopErrors(w: World, recipient: Address, uids: seq<Uid>, attester: Address)
    requires recipient in w.p.awards
    requires ReleaseEach(w, recipient, uids, attester).Err?
    ensures Explains(w, CallReleaseBatch(recipient, uids, attester), ReleaseEach(w, recipient, uids, attester).error)
  {
    hide ReleaseEach, LiveProof, RefundDue, FeeOn;
    EachErrors(w, recipient, uids, attester);
  }

  lemma BatchErrors(w: World, recipient: Address, uids: seq<Uid>, attester: Address)
    requires ReleaseBatch(w, recipient, uids, attester).Err?
    ensures Explains(w, CallReleaseBatch(recipient, uids, attester), ReleaseBatch(w, recipient, uids, attester).error)
  {
    hide ReleaseEach, ReleaseGuard, LiveProof, RefundDue, FeeOn;
    ReleaseGuardErrors(w, CallReleaseBatch(recipient, uids, attester));
    AwardGuardErrors(w, CallReleaseBatch(recipient, uids, attester));
    if recipient in w.p.awards && ReleaseEach(w, recipient, uids, attester).Err? {
      LoopErrors(w, recipient, uids, attester);
    }
  }

  // No error is ever false: whatever a call is refused with holds of the state and of the call.
  lemma ErrorsAreTrue(w: World, call: Call)
    requires Step(w, call).Err?
    ensures Explains(w, call, Step(w, call).error)
  {
    hide Explains, Apply, Reviewed, Withdraw, Finalize, Contribute, Spend, SweepFee, SweepUnclaimed, ClaimRefund;
    hide Release, ReleaseBatch;
    match call
    case CallContribute(d, n) => ContributeErrors(w, d, n);
    case CallApply(a, n) => ApplyErrors(w, a, n);
    case CallReview(r, a, n) => ReviewErrors(w, r, a, n);
    case CallWithdraw(a) => WithdrawErrors(w, a);
    case CallFinalize(a, p, m) => FinalizeErrors(w, a, p, m);
    case CallSpend(r, p, n) => SpendErrors(w, r, p, n);
    case CallRelease(r, u, a) => SingleErrors(w, r, u, a);
    case CallReleaseBatch(r, us, a) => BatchErrors(w, r, us, a);
    case CallSweepFee => SweepFeeErrors(w);
    case CallRefund(d, n) => RefundErrors(w, d, n);
    case CallSweepUnclaimed => SweepErrors(w);
    case TokenMove(f, t, n) => MoveErrors(w, f, t, n);
    case _ => ControlErrors(w, call);
  }

  lemma MoveErrors(w: World, from: Address, to: Address, amount: int)
    requires Step(w, TokenMove(from, to, amount)).Err?
    ensures Explains(w, TokenMove(from, to, amount), Step(w, TokenMove(from, to, amount)).error)
  {
    hide Moved, FeeOn, RefundDue;
  }

  // Nor is an error of the constructor.
  lemma ConstructorErrorsAreTrue(config: Config, reviewers: seq<Address>, verifiers: seq<Address>,
                                 registry: Attest.Registry, now: nat)
    requires Create(config, reviewers, verifiers, registry, now).Err?
    ensures match Create(config, reviewers, verifiers, registry, now).error
            case FeeTooHigh => 1_000 < config.feeBps
            case InvalidDeadlines =>
              config.applyDeadline <= now || config.reviewDeadline <= config.applyDeadline ||
              config.releaseDeadline <= config.reviewDeadline || config.sweepDeadline <= config.releaseDeadline
            case NoReviewers => reviewers == []
            case NoVerifiers => verifiers == []
            case InvalidQuorum => config.quorum == 0 || 16 < config.quorum || |reviewers| < config.quorum
            case InvalidAmount => config.tranches == 0 || config.minimumAward < 0 || 0 < config.minimumAward < config.tranches
            case SchemaNotFound => config.schema !in registry.schemas
            case SchemaAuthorityNotVerifier =>
              config.schema in registry.schemas && registry.schemas[config.schema].restricted &&
              registry.schemas[config.schema].authority !in verifiers
            case _ => false
  {
  }
}
