// The timeline: when each call can succeed, that no window reopens, and what holds once a programme
// is cancelled, swept, or deployed with too small a panel.
module ProgrammeWindows {
  import opened Results
  import opened Ledger
  import opened MapSums
  import opened Votes
  import opened Shares
  import opened Programme
  import opened ProgrammeTerms
  import opened ProgrammeVotes
  import opened ProgrammeAwards
  import opened ProgrammeTranches
  import opened ProgrammeRuns
  import opened ProgrammeRefunds
  import opened ProgrammeEntitlements
  import Attest

  function Rank(phase: Phase): nat {
    match phase
    case Opened => 0
    case Review => 1
    case Settled => 2
    case Abandoned => 3
  }

  predicate InWindow(w: World, call: Call) {
    match call
    case CallContribute(_, _) => PhaseOf(w.p, w.now) == Opened
    case CallApply(_, _) => PhaseOf(w.p, w.now) == Opened
    case CallReview(_, _, _) => PhaseOf(w.p, w.now) == Review
    case CallFinalize(_, _, _) => PhaseOf(w.p, w.now) == Review || PhaseOf(w.p, w.now) == Settled
    case CallRelease(_, _, _) => !RefundsOpen(w)
    case CallReleaseBatch(_, _, _) => !RefundsOpen(w)
    case CallSpend(_, _, _) => w.now < w.p.config.sweepDeadline
    case CallSweepFee => PhaseOf(w.p, w.now) != Opened
    case CallRefund(_, _) => RefundsOpen(w)
    case CallSweepUnclaimed => w.p.config.sweepDeadline <= w.now
    case CallExtendReleaseDeadline(_) => w.now < w.p.config.releaseDeadline
    case _ => true
  }

  lemma OnlyInWindow(w: World, call: Call)
    requires Step(w, call).Ok?
    ensures InWindow(w, call)
  {
    hide MoveToken, Disburse, ReleaseEach, ProofGuard, Inserted, Removed, FeeOn;
  }

  lemma FollowsAdvances(w: World, v: World)
    requires Follows(w, v) && TermsSane(w.p.config)
    ensures Rank(PhaseOf(w.p, w.now)) <= Rank(PhaseOf(v.p, v.now))
  {
  }

  // The phases only advance, and a window of giving, applying or voting that has passed is closed for
  // good, whatever else happens.
  lemma {:induction false} WindowsNeverReopen(w: World, calls: seq<Call>, call: Call)
    requires TermsSane(w.p.config)
    ensures var v := Exec(w, calls);
            && Rank(PhaseOf(w.p, w.now)) <= Rank(PhaseOf(v.p, v.now))
            && (call.CallContribute? || call.CallApply? ==> 0 < Rank(PhaseOf(w.p, w.now)) ==> Step(v, call).Err?)
            && (call.CallReview? ==> 1 < Rank(PhaseOf(w.p, w.now)) ==> Step(v, call).Err?)
            && (call.CallFinalize? ==> w.p.cancelled ==> Step(v, call).Err?)
  {
    var v := Exec(w, calls);
    TermsArePermanent(w, calls);
    FollowsAdvances(w, v);
    hide Exec, Follows, TermsSane, Step;
    if Step(v, call).Ok? {
      OnlyInWindow(v, call);
    }
  }

  // ---- cancelled and swept programmes ----

  // Nothing had been released when a programme was cancelled, and nothing is swept before its time.
  ghost predicate InOrder(w: World) {
    && (w.p.cancelled ==> w.p.released == 0)
    && (0 < w.p.sweptTotal ==> w.p.config.sweepDeadline <= w.now)
  }

  lemma ReleaseInOrder(w: World, call: Call)
    requires IsRelease(call) && InOrder(w)
    ensures InOrder(Next(w, call))
  {
    hide Step;
    if Step(w, call).Ok? {
      ReleaseFrame(w, call);
      OnlyInWindow(w, call);
    }
  }

  lemma MoneyInOrder(w: World, call: Call)
    requires IsMoney(call) && InOrder(w)
    ensures InOrder(Next(w, call))
  {
    MoneyFrame(w, call);
    if call.CallSweepUnclaimed? {
      hide Moved;
    } else {
      OthersSweepNothing(w, call);
      hide Next;
    }
  }

  lemma OthersSweepNothing(w: World, call: Call)
    requires IsMoney(call) && !call.CallSweepUnclaimed?
    ensures Next(w, call).p.sweptTotal == w.p.sweptTotal
  {
    hide Moved, Contribute, Spend, SweepFee, ClaimRefund;
    if Step(w, call).Ok? {
      match call
      case CallContribute(d, n) => ContributeSweepsNothing(w, d, n);
      case CallSpend(r, p, n) => SpendSweepsNothing(w, r, p, n);
      case CallSweepFee => FeeSweepsNothing(w);
      case CallRefund(d, n) => RefundSweepsNothing(w, d, n);
      case TokenMove(_, _, _) =>
    }
  }

  lemma ContributeSweepsNothing(w: World, donor: Address, amount: int)
    requires Contribute(w, donor, amount).Ok?
    ensures Contribute(w, donor, amount).value.p.sweptTotal == w.p.sweptTotal
  {
    hide Moved;
  }

  lemma SpendSweepsNothing(w: World, recipient: Address, payee: Address, amount: int)
    requires Spend(w, recipient, payee, amount).Ok?
    ensures Spend(w, recipient, payee, amount).value.0.p.sweptTotal == w.p.sweptTotal
  {
    hide Moved;
  }

  lemma FeeSweepsNothing(w: World)
    requires SweepFee(w).Ok?
    ensures SweepFee(w).value.0.p.sweptTotal == w.p.sweptTotal
  {
    hide MoveToken, FeeOn, PhaseOf;
    var marked, fee := w.(p := w.p.(feeSwept := true)), FeeOn(w.p.contributed, w.p.config.feeBps);
    if 0 < fee {
      MoveFrame(marked, w.self, w.p.config.treasury, fee, Fee);
    }
  }

  lemma RefundSweepsNothing(w: World, donor: Address, asked: Option<int>)
    requires ClaimRefund(w, donor, asked).Ok?
    ensures ClaimRefund(w, donor, asked).value.0.p.sweptTotal == w.p.sweptTotal
  {
    hide Moved, RefundDue;
  }

  lemma ClockInOrder(w: World, call: Call)
    requires MovesClock(call) && InOrder(w) && TermsSane(w.p.config)
    ensures InOrder(Next(w, call))
  {
  }

  lemma NextInOrder(w: World, call: Call)
    requires InOrder(w) && TermsSane(w.p.config)
    ensures InOrder(Next(w, call))
  {
    hide Next;
    if IsPeople(call) {
      PeopleFrame(w, call);
    } else if IsRelease(call) {
      ReleaseInOrder(w, call);
    } else if IsMoney(call) {
      MoneyInOrder(w, call);
    } else if MovesClock(call) {
      ClockInOrder(w, call);
    } else {
      ControlFrame(w, call);
    }
  }

  lemma DeployedInOrder(w: World)
    requires Deployed(w)
    ensures InOrder(w)
  {
    hide Record.BookSound, Attest.Sound;
  }

  lemma {:induction false} RunInOrder(w: World, calls: seq<Call>)
    requires Deployed(w)
    requires AllLegal(w, calls)
    ensures InOrder(Exec(w, calls))
    decreases |calls|
  {
    hide InOrder, Next, Sound, TermsSane, Record.BookSound, Attest.Sound;
    if calls == [] {
      DeployedInOrder(w);
    } else {
      hide Deployed;
      RunInOrder(w, calls[..|calls| - 1]);
      RunKeepsSound(w, calls[..|calls| - 1]);
      SoundGivesTerms(Exec(w, calls[..|calls| - 1]));
      NextInOrder(Exec(w, calls[..|calls| - 1]), calls[|calls| - 1]);
    }
  }

  // A cancelled programme owes its whole budget back: nothing was or will be released, refunds are
  // open, and each donor is entitled to their share of all of it.
  lemma {:induction false} CancellingReturnsEverything(w: World, calls: seq<Call>, donor: Address)
    requires Deployed(w)
    requires AllLegal(w, calls)
    requires Exec(w, calls).p.cancelled
    ensures var v := Exec(w, calls);
            && RefundsOpen(v) && v.p.released == 0
            && Pool(v.p) == BudgetOf(v.p.contributed, v.p.config.feeBps)
            && (0 < v.p.contributed && 0 < Pool(v.p) ==>
                  Entitlement(v.p, donor) ==
                  Share(Get(v.p.donors, donor), BudgetOf(v.p.contributed, v.p.config.feeBps), v.p.contributed))
  {
    RunInOrder(w, calls);
    hide Exec, Deployed, AllLegal;
  }

  // ---- a panel smaller than its quorum ----

  // Nothing is ever settled by fewer distinct reviewers than the quorum: at least so many of the panel
  // have their last vote on that very application.
  lemma {:induction false} QuorumNeedsPanel(w: World, calls: seq<Call>, applicant: Address, payee: Address, mode: Mode)
    requires Deployed(w)
    requires AwardDue(Exec(w, calls), applicant, payee, mode).Ok?
    ensures var last := LastVotes(w, calls, applicant);
            && last.Keys <= w.p.reviewers
            && w.p.config.quorum <= |last.Keys| <= |w.p.reviewers|
  {
    var v := Exec(w, calls);
    TermsArePermanent(w, calls);
    assert applicant in v.p.applications && v.p.config.quorum <= |v.p.applications[applicant].votes|;
    hide Exec, Deployed, LastVotes, AwardDue, Follows;
    VotersOnVector(w, calls, applicant);
  }

  lemma {:induction false} VotersOnVector(w: World, calls: seq<Call>, applicant: Address)
    requires Deployed(w)
    requires applicant in Exec(w, calls).p.applications
    ensures var last := LastVotes(w, calls, applicant);
            && last.Keys <= w.p.reviewers
            && |Exec(w, calls).p.applications[applicant].votes| == |last.Keys| <= |w.p.reviewers|
  {
    VectorIsLastVotes(w, calls, applicant);
    hide Exec, Deployed, LastVotes, HoldsValues, Ascending;
    var last := LastVotes(w, calls, applicant);
    SubsetIsSmaller(last.Keys, w.p.reviewers);
    assert |last| == |last.Keys|;
  }

  // An award, too, has at least a quorum of distinct reviewers behind it.
  lemma {:induction false} AwardNeedsPanel(w: World, calls: seq<Call>, applicant: Address)
    requires Deployed(w)
    requires AllLegal(w, calls)
    requires applicant in Exec(w, calls).p.awards
    ensures w.p.config.quorum <= |LastVotes(w, calls, applicant).Keys| <= |w.p.reviewers|
  {
    var v := Exec(w, calls);
    RunKeepsSound(w, calls);
    SoundGivesAwards(v);
    TermsArePermanent(w, calls);
    assert AwardSound(v.p, applicant);
    assert v.p.config.quorum == w.p.config.quorum;
    hide Exec, Deployed, LastVotes, Follows, Sound, AllAwardsSound;
    VotersOnVector(w, calls, applicant);
  }

  lemma {:induction false} SubsetIsSmaller<T>(a: set<T>, b: set<T>)
    requires a <= b
    ensures |a| <= |b|
  {
    assert a + (b - a) == b;
  }

  lemma {:induction false} DistinctAsMany(names: seq<Address>)
    requires forall i, j :: 0 <= i < j < |names| ==> names[i] != names[j]
    ensures |set r | r in names| == |names|
  {
    if names != [] {
      var n := |names| - 1;
      DistinctAsMany(names[..n]);
      assert (set r | r in names) == (set r | r in names[..n]) + {names[n]};
      assert names[n] !in names[..n];
    }
  }

  // The constructor's check against a quorum nobody can meet works for a list of distinct reviewers ...
  lemma DistinctPanelMeetsQuorum(config: Config, reviewers: seq<Address>, verifiers: seq<Address>,
                                 registry: Attest.Registry, now: nat)
    requires Create(config, reviewers, verifiers, registry, now).Ok?
    requires forall i, j :: 0 <= i < j < |reviewers| ==> reviewers[i] != reviewers[j]
    ensures var p := Create(config, reviewers, verifiers, registry, now).value; p.config.quorum <= |p.reviewers|
  {
    DistinctAsMany(reviewers);
  }

  // ... but counts a reviewer named twice as two: one reviewer and a quorum of two are accepted.
  lemma RepeatedReviewersPass(registry: Attest.Registry, schema: Uid)
    requires schema in registry.schemas && !registry.schemas[schema].restricted
    ensures var config := Config(Address(0), Address(1), schema, 0, 1, 2, 3, 4, 2, 1, 0);
            var p := Create(config, [Address(2), Address(2)], [Address(3)], registry, 0);
            p.Ok? && |p.value.reviewers| < p.value.config.quorum
  {
    var reviewers := [Address(2), Address(2)];
    assert (set r | r in reviewers) == {Address(2)};
  }
}
