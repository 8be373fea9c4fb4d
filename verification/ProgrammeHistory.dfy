// The state of a programme read off its history: what each flag, set and date says about the calls
// that were made, and how long a control lasts.
module ProgrammeHistory {
  import opened Results
  import opened Ledger
  import opened MapSums
  import opened Histories
  import opened Programme
  import opened ProgrammeTerms
  import opened ProgrammeVotes
  import opened ProgrammeAwards
  import opened ProgrammeTranches
  import opened ProgrammeRuns
  import opened ProgrammePause
  import opened ProgrammeBooks
  import opened ProgrammeRefunds
  import opened ProgrammeEntitlements
  import opened ProgrammeDestinations
  import Record
  import Attest

  // The world a run leaves.
  function Runs(w: World): seq<Call> -> World {
    calls => Exec(w, calls)
  }

  lemma ExecLast(w: World, calls: seq<Call>)
    requires calls != []
    ensures Exec(w, calls) == Next(Exec(w, calls[..|calls| - 1]), calls[|calls| - 1])
  {
  }

  lemma ExecNone(w: World)
    ensures Runs(w)([]) == w
  {
  }

  // What a programme just deployed has not done yet.
  lemma DeployedIsBlank(w: World)
    requires Deployed(w)
    ensures var p := w.p;
            && !p.paused && !p.cancelled && !p.feeSwept
            && p.payees == {} && p.used == {} && p.applications == map[]
  {
    hide Record.BookSound, Attest.Sound;
  }

  // ---- the trust sets and the pause ----

  predicate Allows(call: Call, payee: Address) { call == CallAllowPayee(payee) }
  predicate Denies(call: Call, payee: Address) { call == CallDenyPayee(payee) }
  predicate Trusts(call: Call, verifier: Address) { call == CallAddVerifier(verifier) }
  predicate Distrusts(call: Call, verifier: Address) { call == CallRemoveVerifier(verifier) }

  lemma OthersKeepTrust(w: World, call: Call)
    requires !IsControl(call) || MovesClock(call)
    ensures var p, q := w.p, Next(w, call).p;
            q.payees == p.payees && q.verifiers == p.verifiers && q.paused == p.paused
  {
    hide Next;
    if IsPeople(call) {
      PeopleFrame(w, call);
    } else if IsRelease(call) {
      ReleaseFrame(w, call);
    } else if IsMoney(call) {
      MoneyFrame(w, call);
    } else {
      ClockFrame(w, call);
    }
  }

  lemma NextOnTrust(w: World, call: Call)
    ensures var p, q := w.p, Next(w, call).p;
            && q.payees == (match call
                            case CallAllowPayee(a) => p.payees + {a}
                            case CallDenyPayee(a) => p.payees - {a}
                            case _ => p.payees)
            && q.verifiers == (match call
                               case CallAddVerifier(v) => p.verifiers + {v}
                               case CallRemoveVerifier(v) => p.verifiers - {v}
                               case _ => p.verifiers)
            && (q.paused <==> (call.CallPause? && !p.cancelled) || (p.paused && !call.CallUnpause?))
  {
    if !IsControl(call) || MovesClock(call) {
      hide Next;
      OthersKeepTrust(w, call);
    }
  }

  lemma PayeeStep(w: World, call: Call, payee: Address)
    ensures payee in Next(w, call).p.payees <==>
            Allows(call, payee) || (payee in w.p.payees && !Denies(call, payee))
  {
    hide Next;
    NextOnTrust(w, call);
  }

  lemma VerifierStep(w: World, call: Call, verifier: Address)
    ensures verifier in Next(w, call).p.verifiers <==>
            Trusts(call, verifier) || (verifier in w.p.verifiers && !Distrusts(call, verifier))
  {
    hide Next;
    NextOnTrust(w, call);
  }

  lemma PauseStep(w: World, call: Call)
    ensures Next(w, call).p.paused <==> (call.CallPause? && !w.p.cancelled) || (w.p.paused && !call.CallUnpause?)
  {
    hide Next;
    NextOnTrust(w, call);
  }

  // The verified payees are those allowed by a call and denied by none since.
  lemma {:induction false} PayeesByHistory(w: World, calls: seq<Call>, payee: Address)
    requires Deployed(w)
    ensures payee in Exec(w, calls).p.payees <==>
            Since(Runs(w), calls, (v: World, c: Call) => Allows(c, payee), (v: World, c: Call) => Denies(c, payee))
  {
    hide Allows, Denies, Next, Exec, Deployed, Since;
    var on, off := (v: World, c: Call) => Allows(c, payee), (v: World, c: Call) => Denies(c, payee);
    var holds := (v: World) => payee in v.p.payees;
    forall n | 0 < n <= |calls|
      ensures Decides(Runs(w), calls[..n], on, off, holds)
    {
      ExecLast(w, calls[..n]);
      PayeeStep(Exec(w, calls[..n][..n - 1]), calls[..n][n - 1], payee);
    }
    ExecNone(w);
    DeployedIsBlank(w);
    HoldsSince(Runs(w), calls, on, off, holds);
  }

  // The trusted verifiers are those named at construction or added since, and not removed since.
  lemma {:induction false} VerifiersByHistory(w: World, calls: seq<Call>, verifier: Address)
    ensures verifier in Exec(w, calls).p.verifiers <==>
            || Since(Runs(w), calls, (v: World, c: Call) => Trusts(c, verifier),
                     (v: World, c: Call) => Distrusts(c, verifier))
            || (verifier in w.p.verifiers && Never(Runs(w), calls, (v: World, c: Call) => Distrusts(c, verifier)))
  {
    hide Trusts, Distrusts, Next, Exec, Since, Never;
    var on, off := (v: World, c: Call) => Trusts(c, verifier), (v: World, c: Call) => Distrusts(c, verifier);
    var holds := (v: World) => verifier in v.p.verifiers;
    forall n | 0 < n <= |calls|
      ensures Decides(Runs(w), calls[..n], on, off, holds)
    {
      ExecLast(w, calls[..n]);
      VerifierStep(Exec(w, calls[..n][..n - 1]), calls[..n][n - 1], verifier);
    }
    ExecNone(w);
    HoldsSinceOrAlways(Runs(w), calls, on, off, holds);
  }

  // A programme is paused exactly since a pause made before it was cancelled, until it is unpaused.
  lemma {:induction false} PausedByHistory(w: World, calls: seq<Call>)
    requires Deployed(w)
    ensures Exec(w, calls).p.paused <==>
            Since(Runs(w), calls, (v: World, c: Call) => c.CallPause? && !v.p.cancelled, (v: World, c: Call) => c.CallUnpause?)
  {
    hide Next, Exec, Deployed, Since;
    var on, off := (v: World, c: Call) => c.CallPause? && !v.p.cancelled, (v: World, c: Call) => c.CallUnpause?;
    var holds := (v: World) => v.p.paused;
    forall n | 0 < n <= |calls|
      ensures Decides(Runs(w), calls[..n], on, off, holds)
    {
      ExecLast(w, calls[..n]);
      PauseStep(Exec(w, calls[..n][..n - 1]), calls[..n][n - 1]);
    }
    ExecNone(w);
    DeployedIsBlank(w);
    HoldsSince(Runs(w), calls, on, off, holds);
  }

  // ---- cancelling and the dates ----

  lemma NextOnClock(w: World, call: Call)
    ensures var p, q := w.p, Next(w, call).p;
            && (q.cancelled <==> p.cancelled || (call.CallCancel? && p.released == 0))
            && (if call.CallExtendReleaseDeadline? && w.now < p.config.releaseDeadline < call.deadline
                then q.config == p.config.(releaseDeadline := call.deadline,
                                           sweepDeadline := if p.config.sweepDeadline < call.deadline then call.deadline
                                                            else p.config.sweepDeadline)
                else q.config == p.config)
  {
    if !MovesClock(call) {
      hide Next;
      OthersKeepClock(w, call);
    }
  }

  lemma OthersKeepClock(w: World, call: Call)
    requires !MovesClock(call)
    ensures Next(w, call).p.cancelled == w.p.cancelled && Next(w, call).p.config == w.p.config
  {
    hide Next;
    if IsPeople(call) {
      PeopleFrame(w, call);
    } else if IsRelease(call) {
      ReleaseFrame(w, call);
    } else if IsMoney(call) {
      MoneyFrame(w, call);
    } else {
      ControlFrame(w, call);
    }
  }

  // A programme is cancelled exactly if a call of the run cancelled it while nothing had been released.
  lemma {:induction false} CancelledByHistory(w: World, calls: seq<Call>)
    requires Deployed(w)
    ensures Exec(w, calls).p.cancelled <==>
            Since(Runs(w), calls, (v: World, c: Call) => c.CallCancel? && v.p.released == 0, (v: World, c: Call) => false)
  {
    hide Next, Exec, Deployed, Since;
    var on, off := (v: World, c: Call) => c.CallCancel? && v.p.released == 0, (v: World, c: Call) => false;
    var holds := (v: World) => v.p.cancelled;
    forall n | 0 < n <= |calls|
      ensures Decides(Runs(w), calls[..n], on, off, holds)
    {
      ExecLast(w, calls[..n]);
      NextOnClock(Exec(w, calls[..n][..n - 1]), calls[..n][n - 1]);
    }
    ExecNone(w);
    DeployedIsBlank(w);
    HoldsSince(Runs(w), calls, on, off, holds);
  }

  predicate Extends(w: World, call: Call) {
    call.CallExtendReleaseDeadline? && w.now < w.p.config.releaseDeadline < call.deadline
  }

  // The release deadline is that of the last extension made in time and to a later date, or the
  // original; the sweep deadline is the original or, where that has been passed, the release deadline.
  lemma {:induction false} DeadlinesByHistory(w: World, calls: seq<Call>, deadline: nat)
    requires TermsSane(w.p.config)
    ensures var c := Exec(w, calls).p.config;
            && (c.releaseDeadline == deadline <==>
                  || Since(Runs(w), calls, (v: World, c: Call) => Extends(v, c) && c.deadline == deadline,
                           (v: World, c: Call) => Extends(v, c))
                  || (w.p.config.releaseDeadline == deadline && Never(Runs(w), calls, (v: World, c: Call) => Extends(v, c))))
            && c.sweepDeadline == if w.p.config.sweepDeadline < c.releaseDeadline then c.releaseDeadline
                                  else w.p.config.sweepDeadline
  {
    hide Next, Exec, Since, Never, TermsSane;
    var on, off := (v: World, c: Call) => Extends(v, c) && c.deadline == deadline, (v: World, c: Call) => Extends(v, c);
    var holds := (v: World) => v.p.config.releaseDeadline == deadline;
    forall n | 0 < n <= |calls|
      ensures Decides(Runs(w), calls[..n], on, off, holds)
    {
      ExecLast(w, calls[..n]);
      NextOnClock(Exec(w, calls[..n][..n - 1]), calls[..n][n - 1]);
    }
    ExecNone(w);
    HoldsSinceOrAlways(Runs(w), calls, on, off, holds);
    SweepFollowsRelease(w, calls);
  }

  lemma {:induction false} SweepFollowsRelease(w: World, calls: seq<Call>)
    requires TermsSane(w.p.config)
    ensures var c, s := Exec(w, calls).p.config, w.p.config.sweepDeadline;
            c.sweepDeadline == if s < c.releaseDeadline then c.releaseDeadline else s
    decreases |calls|
  {
    hide Next;
    if calls != [] {
      hide TermsSane;
      SweepFollowsRelease(w, calls[..|calls| - 1]);
      NextOnClock(Exec(w, calls[..|calls| - 1]), calls[|calls| - 1]);
    }
  }

  // ---- applications ----

  // An application that is accepted: in time, for something, and the applicant's first.
  predicate Applies(w: World, call: Call, applicant: Address, requested: int, at: nat) {
    && call == CallApply(applicant, requested) && w.now == at
    && !w.p.paused && !w.p.cancelled && at < w.p.config.applyDeadline
    && 0 < requested && applicant !in w.p.applications
  }

  predicate HasApplied(w: World, applicant: Address, requested: int, at: nat) {
    && applicant in w.p.applications
    && w.p.applications[applicant].requested == requested && w.p.applications[applicant].submittedAt == at
  }

  // A withdrawal that is accepted: of an application not yet settled.
  predicate Withdraws(w: World, call: Call, applicant: Address) {
    call == CallWithdraw(applicant) && applicant in w.p.applications && !w.p.applications[applicant].finalized
  }

  predicate HasWithdrawn(w: World, applicant: Address) {
    applicant in w.p.applications && w.p.applications[applicant].withdrawn
  }

  lemma OthersKeepApplications(w: World, call: Call)
    requires !IsPeople(call)
    ensures Next(w, call).p.applications == w.p.applications
  {
    hide Next;
    if IsRelease(call) {
      ReleaseFrame(w, call);
    } else if IsMoney(call) {
      MoneyFrame(w, call);
    } else if MovesClock(call) {
      ClockFrame(w, call);
    } else {
      ControlFrame(w, call);
    }
  }

  // What one call may do to an application's record but for its votes.
  ghost predicate AppliesOrWithdraws(w: World, call: Call, v: World, applicant: Address) {
    && (forall requested, at ::
          HasApplied(v, applicant, requested, at) <==>
          Applies(w, call, applicant, requested, at) || HasApplied(w, applicant, requested, at))
    && (HasWithdrawn(v, applicant) <==> Withdraws(w, call, applicant) || HasWithdrawn(w, applicant))
  }

  lemma ApplyOnApplications(w: World, name: Address, amount: int, applicant: Address)
    ensures AppliesOrWithdraws(w, CallApply(name, amount), Next(w, CallApply(name, amount)), applicant)
  {
  }

  lemma WithdrawOnApplications(w: World, name: Address, applicant: Address)
    ensures AppliesOrWithdraws(w, CallWithdraw(name), Next(w, CallWithdraw(name)), applicant)
  {
  }

  lemma VotesOnApplications(w: World, call: Call, applicant: Address)
    requires call.CallReview? || call.CallFinalize?
    ensures AppliesOrWithdraws(w, call, Next(w, call), applicant)
  {
    hide Reviewed, Finalize;
    if Step(w, call).Ok? {
      if call.CallReview? {
        ReviewOnApplications(w, call.reviewer, call.applicant, call.approved);
      } else {
        FinalizeOnApplications(w, call.applicant, call.payee, call.mode);
      }
    }
  }

  lemma ReviewOnApplications(w: World, reviewer: Address, applicant: Address, approved: int)
    requires Reviewed(w, reviewer, applicant, approved).Ok?
    ensures var v := Reviewed(w, reviewer, applicant, approved).value;
            && applicant in w.p.applications && applicant in v.p.applications
            && v.p.applications == w.p.applications[applicant :=
                 w.p.applications[applicant].(votes := v.p.applications[applicant].votes)]
  {
    hide RequirePhase, VotesFor;
  }

  lemma FinalizeOnApplications(w: World, applicant: Address, payee: Address, mode: Mode)
    requires Finalize(w, applicant, payee, mode).Ok?
    ensures applicant in w.p.applications
    ensures Finalize(w, applicant, payee, mode).value.0.p.applications ==
            w.p.applications[applicant := w.p.applications[applicant].(finalized := true)]
  {
  }

  lemma NextOnApplications(w: World, call: Call, applicant: Address)
    ensures AppliesOrWithdraws(w, call, Next(w, call), applicant)
  {
    hide Next, AppliesOrWithdraws;
    match call
    case CallApply(a, n) => ApplyOnApplications(w, a, n, applicant);
    case CallWithdraw(a) => WithdrawOnApplications(w, a, applicant);
    case CallReview(_, _, _) => VotesOnApplications(w, call, applicant);
    case CallFinalize(_, _, _) => VotesOnApplications(w, call, applicant);
    case _ =>
      OthersKeepApplications(w, call);
      SameApplications(w, call, Next(w, call), applicant);
  }

  lemma SameApplications(w: World, call: Call, v: World, applicant: Address)
    requires !IsPeople(call) && v.p.applications == w.p.applications
    ensures AppliesOrWithdraws(w, call, v, applicant)
  {
  }

  // An application stands as it was made: by one call, in time, with what was asked and when.
  lemma {:induction false} ApplicationsByHistory(w: World, calls: seq<Call>, applicant: Address, requested: int, at: nat)
    requires Deployed(w)
    ensures HasApplied(Exec(w, calls), applicant, requested, at) <==>
            Since(Runs(w), calls, (v: World, c: Call) => Applies(v, c, applicant, requested, at), (v: World, c: Call) => false)
  {
    hide Next, Exec, Deployed, Since, Applies;
    var on, off := (v: World, c: Call) => Applies(v, c, applicant, requested, at), (v: World, c: Call) => false;
    var holds := (v: World) => HasApplied(v, applicant, requested, at);
    forall n | 0 < n <= |calls|
      ensures Decides(Runs(w), calls[..n], on, off, holds)
    {
      ExecLast(w, calls[..n]);
      NextOnApplications(Exec(w, calls[..n][..n - 1]), calls[..n][n - 1], applicant);
    }
    ExecNone(w);
    DeployedIsBlank(w);
    HoldsSince(Runs(w), calls, on, off, holds);
  }

  // It is withdrawn exactly if a call of the run withdrew it before it was settled.
  lemma {:induction false} WithdrawnByHistory(w: World, calls: seq<Call>, applicant: Address)
    requires Deployed(w)
    ensures HasWithdrawn(Exec(w, calls), applicant) <==>
            Since(Runs(w), calls, (v: World, c: Call) => Withdraws(v, c, applicant), (v: World, c: Call) => false)
  {
    hide Next, Exec, Deployed, Since, Withdraws;
    var on, off := (v: World, c: Call) => Withdraws(v, c, applicant), (v: World, c: Call) => false;
    var holds := (v: World) => HasWithdrawn(v, applicant);
    forall n | 0 < n <= |calls|
      ensures Decides(Runs(w), calls[..n], on, off, holds)
    {
      ExecLast(w, calls[..n]);
      NextOnApplications(Exec(w, calls[..n][..n - 1]), calls[..n][n - 1], applicant);
    }
    ExecNone(w);
    DeployedIsBlank(w);
    HoldsSince(Runs(w), calls, on, off, holds);
  }

  // ---- the fee, and the proofs used ----

  predicate TakesFee(w: World, call: Call) {
    (call.CallSweepFee? || call.CallSweepUnclaimed?) && Step(w, call).Ok?
  }

  lemma NextOnFee(w: World, call: Call)
    ensures Next(w, call).p.feeSwept <==> TakesFee(w, call) || w.p.feeSwept
  {
    hide Next;
    if IsPeople(call) {
      PeopleFrame(w, call);
    } else if IsRelease(call) {
      ReleaseFrame(w, call);
    } else if IsMoney(call) {
      MoneyOnFee(w, call);
    } else if MovesClock(call) {
      ClockFrame(w, call);
    } else {
      ControlFrame(w, call);
    }
  }

  lemma MoneyOnFee(w: World, call: Call)
    requires IsMoney(call)
    ensures Next(w, call).p.feeSwept <==> TakesFee(w, call) || w.p.feeSwept
  {
    hide Contribute, Spend, SweepFee, ClaimRefund, SweepUnclaimed, MoveToken;
    if Step(w, call).Ok? {
      match call
      case CallContribute(d, n) => ContributeLeavesFee(w, d, n);
      case CallSpend(r, p, n) => SpendLeavesFee(w, r, p, n);
      case CallSweepFee => SweepFeeTakes(w);
      case CallRefund(d, n) => RefundLeavesFee(w, d, n);
      case CallSweepUnclaimed => SweepTakes(w);
      case TokenMove(f, t, n) => MoveFrame(w, f, t, n, Outside);
    }
  }

  lemma ContributeLeavesFee(w: World, donor: Address, amount: int)
    requires Contribute(w, donor, amount).Ok?
    ensures Contribute(w, donor, amount).value.p.feeSwept == w.p.feeSwept
  {
    hide Moved;
  }

  lemma SpendLeavesFee(w: World, recipient: Address, payee: Address, amount: int)
    requires Spend(w, recipient, payee, amount).Ok?
    ensures Spend(w, recipient, payee, amount).value.0.p.feeSwept == w.p.feeSwept
  {
    hide Moved;
  }

  lemma RefundLeavesFee(w: World, donor: Address, asked: Option<int>)
    requires ClaimRefund(w, donor, asked).Ok?
    ensures ClaimRefund(w, donor, asked).value.0.p.feeSwept == w.p.feeSwept
  {
    hide Moved, RefundDue;
  }

  lemma SweepFeeTakes(w: World)
    requires SweepFee(w).Ok?
    ensures SweepFee(w).value.0.p.feeSwept
  {
    hide MoveToken, FeeOn, PhaseOf;
    var marked, fee := w.(p := w.p.(feeSwept := true)), FeeOn(w.p.contributed, w.p.config.feeBps);
    if 0 < fee {
      MoveFrame(marked, w.self, w.p.config.treasury, fee, Fee);
    }
  }

  lemma SweepTakes(w: World)
    requires SweepUnclaimed(w).Ok?
    ensures SweepUnclaimed(w).value.0.p.feeSwept
  {
    hide Moved;
  }

  // The fee counts as swept exactly since a call swept it, or swept everything.
  lemma {:induction false} FeeByHistory(w: World, calls: seq<Call>)
    requires Deployed(w)
    ensures Exec(w, calls).p.feeSwept <==>
            Since(Runs(w), calls, (v: World, c: Call) => TakesFee(v, c), (v: World, c: Call) => false)
  {
    hide Next, Exec, Deployed, Since, TakesFee;
    var on, off := (v: World, c: Call) => TakesFee(v, c), (v: World, c: Call) => false;
    var holds := (v: World) => v.p.feeSwept;
    forall n | 0 < n <= |calls|
      ensures Decides(Runs(w), calls[..n], on, off, holds)
    {
      ExecLast(w, calls[..n]);
      NextOnFee(Exec(w, calls[..n][..n - 1]), calls[..n][n - 1]);
    }
    ExecNone(w);
    DeployedIsBlank(w);
    HoldsSince(Runs(w), calls, on, off, holds);
  }

  lemma NextOnProofs(w: World, call: Call, uid: Uid)
    ensures uid in Next(w, call).p.used <==> Unlocks(w, call, uid) || uid in w.p.used
  {
    hide Next, Unlocks;
    if IsRelease(call) {
      ReleaseOnProofs(w, call, uid);
    } else {
      OthersUseNothing(w, call);
      OnlyReleasesUnlock(w, call, uid);
    }
  }

  lemma OnlyReleasesUnlock(w: World, call: Call, uid: Uid)
    requires !IsRelease(call)
    ensures !Unlocks(w, call, uid)
  {
  }

  lemma ReleaseOnProofs(w: World, call: Call, uid: Uid)
    requires IsRelease(call)
    ensures uid in Next(w, call).p.used <==> Unlocks(w, call, uid) || uid in w.p.used
  {
    hide Disburse, ReleaseEach, LiveProof;
    if Step(w, call).Ok? {
      if call.CallRelease? {
        DisburseBooks(w, call.recipient, w.p.awards[call.recipient], call.uid);
      } else {
        EachUnlocks(w, call.recipient, call.uids, call.attester);
      }
      if uid in Next(w, call).p.used && uid !in w.p.used {
        ReleaseUnlocks(w, call, uid);
      }
    }
  }

  // A proof is spent exactly if a call of the run unlocked a tranche with it.
  lemma {:induction false} ProofsByHistory(w: World, calls: seq<Call>, uid: Uid)
    requires Deployed(w)
    ensures uid in Exec(w, calls).p.used <==>
            Since(Runs(w), calls, (v: World, c: Call) => Unlocks(v, c, uid), (v: World, c: Call) => false)
  {
    hide Next, Exec, Deployed, Since, Unlocks;
    var on, off := (v: World, c: Call) => Unlocks(v, c, uid), (v: World, c: Call) => false;
    var holds := (v: World) => uid in v.p.used;
    forall n | 0 < n <= |calls|
      ensures Decides(Runs(w), calls[..n], on, off, holds)
    {
      ExecLast(w, calls[..n]);
      NextOnProofs(Exec(w, calls[..n][..n - 1]), calls[..n][n - 1], uid);
    }
    ExecNone(w);
    DeployedIsBlank(w);
    HoldsSince(Runs(w), calls, on, off, holds);
  }

  // ---- what each donor gave ----

  // What the token's log says `donor` deposited.
  function Given(transfers: seq<Transfer>, donor: Address): int {
    if transfers == [] then 0
    else
      var t := transfers[|transfers| - 1];
      Given(transfers[..|transfers| - 1], donor) + if t.reason == Deposit && t.from == donor then t.amount else 0
  }

  // The log goes on without a deposit.
  ghost predicate NoDeposits(before: seq<Transfer>, after: seq<Transfer>) {
    && |before| <= |after| && after[..|before|] == before
    && forall k :: |before| <= k < |after| ==> after[k].reason != Deposit
  }

  lemma {:induction false} NothingGiven(before: seq<Transfer>, after: seq<Transfer>, donor: Address)
    requires NoDeposits(before, after)
    ensures Given(after, donor) == Given(before, donor)
    decreases |after|
  {
    if |after| == |before| {
      assert after == before;
    } else {
      var shorter := after[..|after| - 1];
      assert shorter[..|before|] == before;
      NothingGiven(before, shorter, donor);
    }
  }

  lemma ContributeGives(w: World, giver: Address, amount: int, donor: Address)
    requires Contribute(w, giver, amount).Ok?
    ensures var v := Contribute(w, giver, amount).value;
            && Given(v.transfers, donor) == Given(w.transfers, donor) + (if giver == donor then amount else 0)
            && Get(v.p.donors, donor) == Get(w.p.donors, donor) + (if giver == donor then amount else 0)
  {
    hide Moved;
    var t := Transfer(giver, w.self, amount, Deposit);
    assert (w.transfers + [t])[..|w.transfers|] == w.transfers;
  }

  lemma PaymentsDepositNothing(w: World, call: Call)
    requires IsMoney(call) && !call.CallContribute?
    ensures NoDeposits(w.transfers, Next(w, call).transfers)
  {
    hide Spend, SweepFee, ClaimRefund, SweepUnclaimed, MoveToken;
    if Step(w, call).Ok? {
      match call
      case CallSpend(r, p, n) => SpendLogs(w, r, p, n);
      case CallSweepFee => SweepFeeLogs(w);
      case CallRefund(d, n) => RefundLogs(w, d, n);
      case CallSweepUnclaimed => SweepLogs(w);
      case TokenMove(f, t, n) => MoveLogs(w, f, t, n, Outside);
    }
  }

  lemma MoveLogs(w: World, from: Address, to: Address, amount: int, reason: Reason)
    requires MoveToken(w, from, to, amount, reason).Ok?
    ensures MoveToken(w, from, to, amount, reason).value.transfers == w.transfers + [Transfer(from, to, amount, reason)]
  {
    hide Moved;
  }

  lemma SpendLogs(w: World, recipient: Address, payee: Address, amount: int)
    requires Spend(w, recipient, payee, amount).Ok?
    ensures NoDeposits(w.transfers, Spend(w, recipient, payee, amount).value.0.transfers)
  {
    hide MoveToken;
    MoveLogs(w, w.self, payee, amount, Directed(recipient));
  }

  lemma SweepFeeLogs(w: World)
    requires SweepFee(w).Ok?
    ensures NoDeposits(w.transfers, SweepFee(w).value.0.transfers)
  {
    hide MoveToken, FeeOn, PhaseOf;
    var marked, fee := w.(p := w.p.(feeSwept := true)), FeeOn(w.p.contributed, w.p.config.feeBps);
    if 0 < fee {
      MoveLogs(marked, w.self, w.p.config.treasury, fee, Fee);
    }
  }

  lemma RefundLogs(w: World, donor: Address, asked: Option<int>)
    requires ClaimRefund(w, donor, asked).Ok?
    ensures NoDeposits(w.transfers, ClaimRefund(w, donor, asked).value.0.transfers)
  {
    hide MoveToken, RefundDue;
    MoveLogs(w, w.self, donor, RefundDue(w, donor, asked).value, Refund);
  }

  lemma SweepLogs(w: World)
    requires SweepUnclaimed(w).Ok?
    ensures NoDeposits(w.transfers, SweepUnclaimed(w).value.0.transfers)
  {
    hide MoveToken;
    MoveLogs(w, w.self, w.p.config.treasury, Get(w.balances, w.self), Sweep);
  }

  lemma ReleasesDepositNothing(w: World, call: Call)
    requires AllAwardsSound(w.p) && IsRelease(call)
    ensures NoDeposits(w.transfers, Next(w, call).transfers)
  {
    hide Step, AllAwardsSound;
    if Step(w, call).Ok? {
      ReleasePaysOnly(w, call);
    }
  }

  lemma OthersDepositNothing(w: World, call: Call)
    requires AllAwardsSound(w.p) && !call.CallContribute?
    ensures NoDeposits(w.transfers, Next(w, call).transfers)
    ensures Next(w, call).p.donors == w.p.donors
  {
    hide Next, AllAwardsSound;
    OthersKeepDonors(w, call);
    if IsRelease(call) {
      ReleasesDepositNothing(w, call);
    } else if IsMoney(call) {
      PaymentsDepositNothing(w, call);
    } else {
      QuietKeepsPayments(w, call);
    }
  }

  lemma OthersKeepDonors(w: World, call: Call)
    requires !call.CallContribute?
    ensures Next(w, call).p.donors == w.p.donors
  {
    hide Next;
    if IsRelease(call) {
      ReleaseFrame(w, call);
    } else {
      OthersKeepPool(w, call);
    }
  }

  lemma NextOnGifts(w: World, call: Call, donor: Address)
    requires AllAwardsSound(w.p)
    requires Get(w.p.donors, donor) == Given(w.transfers, donor)
    ensures Get(Next(w, call).p.donors, donor) == Given(Next(w, call).transfers, donor)
  {
    hide AllAwardsSound, Given;
    if call.CallContribute? {
      hide Contribute;
      if Step(w, call).Ok? {
        ContributeGives(w, call.donor, call.amount, donor);
      }
    } else {
      hide Next;
      OthersDepositNothing(w, call);
      NothingGiven(w.transfers, Next(w, call).transfers, donor);
    }
  }

  // Over any run each donor is credited with exactly what the token's log says they deposited, so the
  // entitlements divide the pool by what was really given.
  lemma {:induction false} GiftsAreRecorded(w: World, calls: seq<Call>, donor: Address)
    requires Deployed(w)
    requires AllLegal(w, calls)
    ensures var v := Exec(w, calls); Get(v.p.donors, donor) == Given(v.transfers, donor)
    decreases |calls|
  {
    hide Next, Deployed, Sound, AllAwardsSound, Given;
    if calls == [] {
      NothingGivenYet(w, donor);
    } else {
      var before := Exec(w, calls[..|calls| - 1]);
      GiftsAreRecorded(w, calls[..|calls| - 1], donor);
      RunKeepsSound(w, calls[..|calls| - 1]);
      SoundGivesAwards(before);
      NextOnGifts(before, calls[|calls| - 1], donor);
    }
  }

  lemma NothingGivenYet(w: World, donor: Address)
    requires Deployed(w)
    ensures Get(w.p.donors, donor) == Given(w.transfers, donor) == 0
  {
    hide Record.BookSound, Attest.Sound;
  }

  // ---- what the record was told ----

  // A credit of the programme's own: for the recipient of the release, for this programme, at that time,
  // against a proof the release named.
  predicate CreditedFor(w: World, call: Call, c: Record.Credit) {
    && IsRelease(call) && Step(w, call).Ok?
    && c.writer == w.self && c.programme == w.self && c.subject == call.recipient && c.at == w.now
    && c.attestation in ProofsOf(call)
    && 0 < c.amount
  }

  // The record's log goes on with the programme's own credits for these proofs.
  ghost predicate CreditsFor(w: World, v: World, recipient: Address, uids: seq<Uid>) {
    var before, after := w.record.credits, v.record.credits;
    && |before| <= |after| && after[..|before|] == before
    && forall k :: |before| <= k < |after| ==>
         && after[k].writer == w.self && after[k].programme == w.self
         && after[k].subject == recipient && after[k].at == w.now
         && after[k].attestation in uids && 0 < after[k].amount
  }

  lemma DisburseRecords(w: World, recipient: Address, a: Award, uid: Uid)
    requires Disburse(w, recipient, a, uid).Ok?
    ensures CreditsFor(w, Disburse(w, recipient, a, uid).value, recipient, [uid])
    ensures var v := Disburse(w, recipient, a, uid).value; v.self == w.self && v.now == w.now
  {
    hide PayOut, NextTranche;
  }

  lemma CreditsForTwice(u: World, v: World, w: World, recipient: Address, uids: seq<Uid>)
    requires uids != [] && v.self == u.self && v.now == u.now
    requires CreditsFor(u, v, recipient, [uids[0]]) && CreditsFor(v, w, recipient, uids[1..])
    ensures CreditsFor(u, w, recipient, uids)
  {
    var a, b, c := u.record.credits, v.record.credits, w.record.credits;
    assert c[..|a|] == c[..|b|][..|a|];
    forall k | |a| <= k < |c|
      ensures c[k].attestation in uids
    {
      if k < |b| {
        assert c[k] == c[..|b|][k];
      }
    }
    assert forall k :: |a| <= k < |b| ==> c[k] == c[..|b|][k] == b[k];
  }

  lemma {:induction false} EachRecords(w: World, recipient: Address, uids: seq<Uid>, attester: Address)
    requires ReleaseEach(w, recipient, uids, attester).Ok?
    ensures CreditsFor(w, ReleaseEach(w, recipient, uids, attester).value.0, recipient, uids)
    decreases |uids|
  {
    hide Disburse, ProofGuard, CreditsFor, NextTranche;
    if uids == [] {
      SameRecord(w, recipient);
    } else {
      var next := Disburse(w, recipient, w.p.awards[recipient], uids[0]).value;
      DisburseRecords(w, recipient, w.p.awards[recipient], uids[0]);
      EachRecords(next, recipient, uids[1..], attester);
      CreditsForTwice(w, next, ReleaseEach(next, recipient, uids[1..], attester).value.0, recipient, uids);
    }
  }

  lemma SameRecord(w: World, recipient: Address)
    ensures CreditsFor(w, w, recipient, [])
  {
  }

  lemma ReleaseRecords(w: World, call: Call)
    requires IsRelease(call) && Step(w, call).Ok?
    ensures CreditsFor(w, Next(w, call), call.recipient, ProofsOf(call))
  {
    hide Disburse, ReleaseEach, ProofGuard, CreditsFor, NextTranche;
    if call.CallRelease? {
      DisburseRecords(w, call.recipient, w.p.awards[call.recipient], call.uid);
    } else {
      EachRecords(w, call.recipient, call.uids, call.attester);
    }
  }

  // What any other call may add to the record's log is not the programme's own.
  lemma OthersRecord(w: World, call: Call)
    requires !IsRelease(call) && Legal(w, call)
    ensures var before, after := w.record.credits, Next(w, call).record.credits;
            || after == before
            || (|after| == |before| + 1 && after[..|before|] == before && after[|before|].writer != w.self)
  {
    hide Next;
    if call.RecordStep? {
      RecordStepRecords(w, call.recordCall);
    } else if IsPeople(call) {
      PeopleFrame(w, call);
    } else if IsMoney(call) {
      MoneyFrame(w, call);
    } else if MovesClock(call) {
      ClockFrame(w, call);
    } else {
      ControlsKeepRecord(w, call);
    }
  }

  lemma ControlsKeepRecord(w: World, call: Call)
    requires IsControl(call) && !MovesClock(call) && !call.RecordStep?
    ensures Next(w, call).record == w.record
  {
  }

  lemma RecordStepRecords(w: World, call: Record.Call)
    requires Legal(w, RecordStep(call))
    ensures var before, after := w.record.credits, Next(w, RecordStep(call)).record.credits;
            || after == before
            || (|after| == |before| + 1 && after[..|before|] == before && after[|before|].writer != w.self)
  {
    Record.NextOnCredits(w.codec, w.record, call);
    hide Record.CreditTranche;
  }

  // Every credit this programme has in the standing record was made by a release of the run that went
  // through: about its recipient, for this programme, at its time, against one of its proofs.
  lemma {:induction false} EveryCreditIsTraced(w: World, calls: seq<Call>, j: nat)
    requires Deployed(w)
    requires AllLegal(w, calls)
    requires j < |Exec(w, calls).record.credits| && Exec(w, calls).record.credits[j].writer == w.self
    ensures exists i :: 0 <= i < |calls| && CreditedFor(Exec(w, calls[..i]), calls[i], Exec(w, calls).record.credits[j])
    decreases |calls|
  {
    hide Next, Step, CreditedFor, Legal;
    if calls != [] {
      hide Deployed;
      var n := |calls| - 1;
      var before, c := Exec(w, calls[..n]), Exec(w, calls).record.credits[j];
      SelfKept(w, calls[..n]);
      if IsRelease(calls[n]) && Step(before, calls[n]).Ok? {
        ReleaseRecords(before, calls[n]);
        if |before.record.credits| <= j {
          CreditIsItsOwn(before, calls[n], j);
          assert CreditedFor(Exec(w, calls[..n]), calls[n], c);
        }
      } else if IsRelease(calls[n]) {
        FailsKeep(before, calls[n]);
      } else {
        OthersRecord(before, calls[n]);
      }
      if j < |before.record.credits| {
        assert c == Exec(w, calls).record.credits[..|before.record.credits|][j] == before.record.credits[j];
        EveryCreditIsTraced(w, calls[..n], j);
        var i :| 0 <= i < n && CreditedFor(Exec(w, calls[..n][..i]), calls[..n][i], c);
        assert calls[..n][..i] == calls[..i];
        assert CreditedFor(Exec(w, calls[..i]), calls[i], c);
      }
    }
  }

  lemma CreditIsItsOwn(w: World, call: Call, k: nat)
    requires IsRelease(call) && Step(w, call).Ok?
    requires CreditsFor(w, Next(w, call), call.recipient, ProofsOf(call))
    requires |w.record.credits| <= k < |Next(w, call).record.credits|
    ensures CreditedFor(w, call, Next(w, call).record.credits[k])
  {
    hide Step;
  }

  lemma FailsKeep(w: World, call: Call)
    requires Step(w, call).Err?
    ensures Next(w, call) == w
  {
  }

  // ---- how long a control lasts ----

  // A payee denied is shut out until allowed again: nothing can be spent to it, and no award settled
  // on it directly.
  lemma {:induction false} DeniedPayeeIsShutOut(w: World, payee: Address, calls: seq<Call>,
                                                recipient: Address, amount: int, applicant: Address)
    requires Step(w, CallDenyPayee(payee)).Ok?
    requires CallAllowPayee(payee) !in calls
    ensures var v := Exec(Next(w, CallDenyPayee(payee)), calls);
            && payee !in v.p.payees
            && Step(v, CallSpend(recipient, payee, amount)).Err?
            && Step(v, CallFinalize(applicant, payee, Direct)).Err?
  {
    var u := Next(w, CallDenyPayee(payee));
    NextOnTrust(w, CallDenyPayee(payee));
    StaysDenied(u, payee, calls);
    hide Exec, Next, MoveToken;
  }

  lemma {:induction false} StaysDenied(w: World, payee: Address, calls: seq<Call>)
    requires payee !in w.p.payees && CallAllowPayee(payee) !in calls
    ensures payee !in Exec(w, calls).p.payees
    decreases |calls|
  {
    hide Next;
    if calls != [] {
      StaysDenied(w, payee, calls[..|calls| - 1]);
      PayeeStep(Exec(w, calls[..|calls| - 1]), calls[|calls| - 1], payee);
    }
  }

  // A verifier removed unlocks nothing until added again.
  lemma {:induction false} RemovedVerifierIsShutOut(w: World, verifier: Address, calls: seq<Call>,
                                                    recipient: Address, uid: Uid, uids: seq<Uid>)
    requires Step(w, CallRemoveVerifier(verifier)).Ok?
    requires CallAddVerifier(verifier) !in calls
    ensures var v := Exec(Next(w, CallRemoveVerifier(verifier)), calls);
            && verifier !in v.p.verifiers
            && Step(v, CallRelease(recipient, uid, verifier)).Err?
            && Step(v, CallReleaseBatch(recipient, uids, verifier)).Err?
  {
    var u := Next(w, CallRemoveVerifier(verifier));
    NextOnTrust(w, CallRemoveVerifier(verifier));
    StaysRemoved(u, verifier, calls);
    hide Exec, Next, Disburse, ReleaseEach, ProofGuard;
  }

  lemma {:induction false} StaysRemoved(w: World, verifier: Address, calls: seq<Call>)
    requires verifier !in w.p.verifiers && CallAddVerifier(verifier) !in calls
    ensures verifier !in Exec(w, calls).p.verifiers
    decreases |calls|
  {
    hide Next;
    if calls != [] {
      StaysRemoved(w, verifier, calls[..|calls| - 1]);
      VerifierStep(Exec(w, calls[..|calls| - 1]), calls[|calls| - 1], verifier);
    }
  }

  // A pause refuses every forward call until it is lifted, and lifting it is always possible.
  lemma {:induction false} PauseLasts(w: World, calls: seq<Call>, call: Call)
    requires Step(w, CallPause).Ok?
    requires CallUnpause !in calls
    requires IsForward(call)
    ensures var v := Exec(Next(w, CallPause), calls);
            && v.p.paused && Step(v, call) == Err(Paused)
            && Step(v, CallUnpause).Ok? && !Next(v, CallUnpause).p.paused
  {
    NextOnTrust(w, CallPause);
    StaysPaused(Next(w, CallPause), calls);
    var v := Exec(Next(w, CallPause), calls);
    NextOnTrust(v, CallUnpause);
    hide Exec, Next;
    PauseIsContained(v, call);
    assert WithPause(v, true) == v;
    hide Step;
    CanUnpause(v);
  }

  lemma CanUnpause(w: World)
    ensures Step(w, CallUnpause).Ok?
  {
  }

  lemma {:induction false} StaysPaused(w: World, calls: seq<Call>)
    requires w.p.paused && CallUnpause !in calls
    ensures Exec(w, calls).p.paused
    decreases |calls|
  {
    hide Next;
    if calls != [] {
      StaysPaused(w, calls[..|calls| - 1]);
      PauseStep(Exec(w, calls[..|calls| - 1]), calls[|calls| - 1]);
    }
  }

  // A withdrawal that goes through marks its application, which is then closed for good.
  lemma {:induction false} WithdrawalCloses(w: World, applicant: Address, calls: seq<Call>, reviewer: Address, amount: int,
                                            payee: Address, mode: Mode)
    requires Step(w, CallWithdraw(applicant)).Ok?
    ensures var v := Exec(Next(w, CallWithdraw(applicant)), calls);
            && HasWithdrawn(v, applicant)
            && Step(v, CallReview(reviewer, applicant, amount)).Err?
            && Step(v, CallFinalize(applicant, payee, mode)).Err?
  {
    WithdrawOnApplications(w, applicant, applicant);
    ClosedIsFinal(Next(w, CallWithdraw(applicant)), calls, applicant);
    hide Next, Exec, Reviewed, AwardDue;
  }
}
