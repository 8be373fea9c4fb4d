// What no call ever changes: the terms, apart from deadlines moving later, and the arrow of time.
module ProgrammeTerms {
  import opened Results
  import opened Ledger
  import opened MapSums
  import opened Programme
  import Attest

  // The constructor's checks, as extensions leave them: release and sweep may come to coincide.
  ghost predicate TermsSane(c: Config) {
    && c.feeBps <= MAX_FEE_BPS
    && c.applyDeadline < c.reviewDeadline < c.releaseDeadline <= c.sweepDeadline
    && 0 < c.quorum <= MAX_QUORUM
    && 0 < c.tranches
    && 0 <= c.minimumAward
    && (c.minimumAward == 0 || c.tranches <= c.minimumAward)
  }

  // `v` comes after `w`.
  ghost predicate Follows(w: World, v: World) {
    && v.self == w.self && v.codec == w.codec && w.now <= v.now
    && v.p.config == w.p.config.(releaseDeadline := v.p.config.releaseDeadline, sweepDeadline := v.p.config.sweepDeadline)
    && w.p.config.releaseDeadline <= v.p.config.releaseDeadline
    && w.p.config.sweepDeadline <= v.p.config.sweepDeadline
    && (w.p.cancelled ==> v.p.cancelled)
    && v.p.reviewers == w.p.reviewers
    // Once refunds are open they stay open.
    && (RefundsOpen(w) ==> RefundsOpen(v))
  }

  // ---- which parts of the world each kind of call writes ----

  predicate IsPeople(call: Call) {
    call.CallApply? || call.CallReview? || call.CallWithdraw? || call.CallFinalize?
  }

  predicate IsRelease(call: Call) {
    call.CallRelease? || call.CallReleaseBatch?
  }

  predicate IsMoney(call: Call) {
    || call.CallContribute? || call.CallSpend? || call.CallSweepFee? || call.CallRefund?
    || call.CallSweepUnclaimed? || call.TokenMove?
  }

  predicate IsControl(call: Call) {
    !IsPeople(call) && !IsRelease(call) && !IsMoney(call)
  }

  lemma ReviewFrame(w: World, reviewer: Address, applicant: Address, approved: int)
    requires Reviewed(w, reviewer, applicant, approved).Ok?
    ensures var v := Reviewed(w, reviewer, applicant, approved).value;
            && v == w.(p := w.p.(applications := v.p.applications, voted := v.p.voted))
            && v.p.voted == w.p.voted[applicant := VotesFor(w.p, applicant)[reviewer := approved]]
  {
    hide RequirePhase, VotesFor;
  }

  lemma FinalizeFrame(w: World, applicant: Address, payee: Address, mode: Mode)
    requires Finalize(w, applicant, payee, mode).Ok?
    ensures var v := Finalize(w, applicant, payee, mode).value.0;
            v == w.(p := w.p.(applications := v.p.applications, granted := v.p.granted, awards := v.p.awards))
  {
    hide AwardDue;
  }

  lemma PeopleFrame(w: World, call: Call)
    requires IsPeople(call)
    ensures var v := Next(w, call);
            v == w.(p := w.p.(applications := v.p.applications, voted := v.p.voted,
                              granted := v.p.granted, awards := v.p.awards))
  {
    hide Reviewed, Finalize;
    if Step(w, call).Ok? {
      if call.CallReview? {
        ReviewFrame(w, call.reviewer, call.applicant, call.approved);
      } else if call.CallFinalize? {
        FinalizeFrame(w, call.applicant, call.payee, call.mode);
      }
    }
  }

  ghost predicate ReleaseFramed(w: World, v: World) {
    v == w.(balances := v.balances, transfers := v.transfers, record := v.record,
            p := w.p.(awards := v.p.awards, used := v.p.used, released := v.p.released, allocations := v.p.allocations))
  }

  lemma DisburseFrame(w: World, recipient: Address, a: Award, uid: Uid)
    requires Disburse(w, recipient, a, uid).Ok?
    ensures ReleaseFramed(w, Disburse(w, recipient, a, uid).value)
  {
    hide PayOut, Credited, NextTranche;
  }

  lemma {:induction false} EachFrame(w: World, recipient: Address, uids: seq<Uid>, attester: Address)
    requires ReleaseEach(w, recipient, uids, attester).Ok?
    ensures ReleaseFramed(w, ReleaseEach(w, recipient, uids, attester).value.0)
    decreases |uids|
  {
    hide Disburse, ProofGuard, NextTranche;
    if uids != [] {
      DisburseFrame(w, recipient, w.p.awards[recipient], uids[0]);
      EachFrame(Disburse(w, recipient, w.p.awards[recipient], uids[0]).value, recipient, uids[1..], attester);
    }
  }

  lemma ReleaseFrame(w: World, call: Call)
    requires IsRelease(call)
    ensures ReleaseFramed(w, Next(w, call))
  {
    hide Disburse, ReleaseEach, ProofGuard, ReleaseGuard;
    if Step(w, call).Ok? {
      if call.CallReleaseBatch? {
        EachFrame(w, call.recipient, call.uids, call.attester);
      } else {
        DisburseFrame(w, call.recipient, w.p.awards[call.recipient], call.uid);
      }
    }
  }

  ghost predicate MoneyFramed(w: World, v: World) {
    v == w.(balances := v.balances, transfers := v.transfers,
            p := w.p.(contributed := v.p.contributed, donors := v.p.donors, refunded := v.p.refunded,
                      refundedTotal := v.p.refundedTotal, sweptTotal := v.p.sweptTotal,
                      feeSwept := v.p.feeSwept, allocations := v.p.allocations))
  }

  lemma MoveFrame(w: World, from: Address, to: Address, amount: int, reason: Reason)
    requires MoveToken(w, from, to, amount, reason).Ok?
    ensures var v := MoveToken(w, from, to, amount, reason).value;
            v == w.(balances := v.balances, transfers := v.transfers)
  {
    hide Moved;
  }

  lemma ContributeFrame(w: World, donor: Address, amount: int)
    requires Contribute(w, donor, amount).Ok?
    ensures MoneyFramed(w, Contribute(w, donor, amount).value)
  {
    hide MoveToken;
    MoveFrame(w, donor, w.self, amount, Deposit);
  }

  lemma SpendFrame(w: World, recipient: Address, payee: Address, amount: int)
    requires Spend(w, recipient, payee, amount).Ok?
    ensures MoneyFramed(w, Spend(w, recipient, payee, amount).value.0)
  {
    hide MoveToken;
    MoveFrame(w, w.self, payee, amount, Directed(recipient));
  }

  lemma SweepFeeFrame(w: World)
    requires SweepFee(w).Ok?
    ensures MoneyFramed(w, SweepFee(w).value.0)
  {
    hide Moved;
  }

  lemma RefundFrame(w: World, donor: Address, asked: Option<int>)
    requires ClaimRefund(w, donor, asked).Ok?
    ensures MoneyFramed(w, ClaimRefund(w, donor, asked).value.0)
  {
    hide MoveToken, RefundDue;
    MoveFrame(w, w.self, donor, RefundDue(w, donor, asked).value, Refund);
  }

  lemma SweepFrame(w: World)
    requires SweepUnclaimed(w).Ok?
    ensures MoneyFramed(w, SweepUnclaimed(w).value.0)
  {
    hide MoveToken;
    MoveFrame(w, w.self, w.p.config.treasury, Get(w.balances, w.self), Sweep);
  }

  lemma MoneyFrame(w: World, call: Call)
    requires IsMoney(call)
    ensures MoneyFramed(w, Next(w, call))
  {
    hide Contribute, Spend, SweepFee, ClaimRefund, SweepUnclaimed, MoveToken;
    if Step(w, call).Ok? {
      match call
      case CallContribute(d, n) => ContributeFrame(w, d, n);
      case CallSpend(r, p, n) => SpendFrame(w, r, p, n);
      case CallSweepFee => SweepFeeFrame(w);
      case CallRefund(d, n) => RefundFrame(w, d, n);
      case CallSweepUnclaimed => SweepFrame(w);
      case TokenMove(f, t, n) => MoveFrame(w, f, t, n, Outside);
    }
  }

  predicate MovesClock(call: Call) {
    call.CallCancel? || call.CallExtendReleaseDeadline? || call.Tick?
  }

  // The world at a later time, under later deadlines or cancelled.
  function Later(w: World, now: nat, release: nat, sweep: nat, cancelled: bool): World {
    w.(now := now, p := w.p.(config := w.p.config.(releaseDeadline := release, sweepDeadline := sweep), cancelled := cancelled))
  }

  lemma LaterFollows(w: World, now: nat, release: nat, sweep: nat, cancelled: bool)
    requires w.now <= now && (w.p.cancelled ==> cancelled)
    requires w.p.config.releaseDeadline <= release && w.p.config.sweepDeadline <= sweep
    requires release == w.p.config.releaseDeadline || w.now < w.p.config.releaseDeadline
    requires w.p.config.releaseDeadline <= w.p.config.sweepDeadline ==> release <= sweep
    ensures Follows(w, Later(w, now, release, sweep, cancelled))
    ensures TermsSane(w.p.config) ==> TermsSane(Later(w, now, release, sweep, cancelled).p.config)
  {
  }

  // What the clock and the controls over it do: nothing, or one of these.
  lemma ClockMoves(w: World, call: Call)
    requires MovesClock(call)
    ensures var c, v := w.p.config, Next(w, call);
            && (call.Tick? ==> v == Later(w, if w.now < call.later then call.later else w.now,
                                          c.releaseDeadline, c.sweepDeadline, w.p.cancelled))
            && (call.CallCancel? ==> v == Later(w, w.now, c.releaseDeadline, c.sweepDeadline, true) || v == w)
            && (call.CallExtendReleaseDeadline? ==>
                  || v == w
                  || (&& w.now < c.releaseDeadline < call.deadline
                      && v == Later(w, w.now, call.deadline,
                                    if c.sweepDeadline < call.deadline then call.deadline else c.sweepDeadline, w.p.cancelled)))
  {
  }

  lemma ClockFrame(w: World, call: Call)
    requires MovesClock(call)
    ensures var v := Next(w, call);
            && v == w.(now := v.now, p := w.p.(config := v.p.config, cancelled := v.p.cancelled))
            && Follows(w, v)
            && (TermsSane(w.p.config) ==> TermsSane(v.p.config))
  {
    hide Next, Follows, TermsSane;
    ClockMoves(w, call);
    var c, v := w.p.config, Next(w, call);
    LaterFollows(w, w.now, c.releaseDeadline, c.sweepDeadline, w.p.cancelled);
    assert w == Later(w, w.now, c.releaseDeadline, c.sweepDeadline, w.p.cancelled);
    LaterFollows(w, v.now, v.p.config.releaseDeadline, v.p.config.sweepDeadline, v.p.cancelled);
  }

  lemma ControlFrame(w: World, call: Call)
    requires IsControl(call) && !MovesClock(call)
    ensures var v := Next(w, call);
            v == w.(attest := v.attest, record := v.record, installed := v.installed,
                    p := w.p.(paused := v.p.paused, payees := v.p.payees, verifiers := v.p.verifiers))
  {
  }

  lemma NextFollows(w: World, call: Call)
    ensures Follows(w, Next(w, call))
    ensures TermsSane(w.p.config) ==> TermsSane(Next(w, call).p.config)
  {
    hide Next;
    if IsPeople(call) {
      PeopleFrame(w, call);
    } else if IsRelease(call) {
      ReleaseFrame(w, call);
    } else if IsMoney(call) {
      MoneyFrame(w, call);
    } else if MovesClock(call) {
      ClockFrame(w, call);
    } else {
      ControlFrame(w, call);
    }
  }

  lemma FollowsTwice(u: World, v: World, w: World)
    requires Follows(u, v) && Follows(v, w)
    ensures Follows(u, w)
  {
    hide RefundsOpen;
  }

  // Over any run the terms donors gave under stay as they were, deadlines only ever move later, and
  // neither cancellation nor the opening of refunds is undone.
  lemma {:induction false} TermsArePermanent(w: World, calls: seq<Call>)
    ensures Follows(w, Exec(w, calls))
    ensures TermsSane(w.p.config) ==> TermsSane(Exec(w, calls).p.config)
    decreases |calls|
  {
    if calls == [] {
    } else {
      var n := |calls| - 1;
      hide Follows, Next, TermsSane;
      TermsArePermanent(w, calls[..n]);
      NextFollows(Exec(w, calls[..n]), calls[n]);
      FollowsTwice(w, Exec(w, calls[..n]), Exec(w, calls));
    }
  }

  // An extension is documented to keep release strictly before sweep. It does exactly when it stays
  // short of the old sweep deadline; otherwise the two coincide.
  lemma ExtensionKeepsOrderExactly(w: World, deadline: nat)
    requires TermsSane(w.p.config)
    requires ExtendReleaseDeadline(w, deadline).Ok?
    ensures var c := ExtendReleaseDeadline(w, deadline).value.p.config;
            && c.releaseDeadline <= c.sweepDeadline
            && (c.releaseDeadline < c.sweepDeadline <==> deadline < w.p.config.sweepDeadline)
  {
  }
}
