// Runs that exist: a panel as large as its quorum can settle, and a batch can overpay.
module ProgrammeReach {
  import opened Results
  import opened Ledger
  import opened MapSums
  import opened HashChain
  import opened Votes
  import opened Programme
  import opened ProgrammeTerms
  import opened ProgrammeVotes
  import opened ProgrammeAwards
  import opened ProgrammeTranches
  import opened ProgrammeRuns
  import opened ProgrammeWindows
  import Attest
  import Record

  // ---- extending a run ----

  ghost predicate Reached(w: World, calls: seq<Call>, v: World) {
    AllLegal(w, calls) && Exec(w, calls) == v
  }

  lemma RunOn(w: World, calls: seq<Call>, v: World, call: Call)
    requires Reached(w, calls, v) && Legal(v, call)
    ensures Reached(w, calls + [call], Next(v, call))
  {
    hide Next, Legal;
    assert (calls + [call])[..|calls|] == calls;
  }

  // ---- a panel that can settle ----

  // The least amount that can be awarded.
  function LeastAward(c: Config): int {
    if c.minimumAward < 1 then 1 else c.minimumAward
  }

  // Someone other than the programme holds a gift whose budget covers it, within machine range.
  ghost predicate Affordable(w: World, donor: Address, gift: int) {
    && donor != w.self
    && 0 < gift <= Get(w.balances, donor)
    && gift <= I128_MAX && gift * w.p.config.feeBps <= I128_MAX
    && LeastAward(w.p.config) <= BudgetOf(gift, w.p.config.feeBps) <= I128_MAX
  }

  // `gift` has been given, `applicant` asks for the least award, and the reviewers in `voted` have each
  // approved all of it.
  ghost predicate Panelled(w: World, v: World, gift: int, applicant: Address, voted: set<Address>) {
    && v.p.config == w.p.config && v.p.reviewers == w.p.reviewers
    && !v.p.paused && PhaseOf(v.p, v.now) == Review
    && v.p.contributed == gift && v.p.granted == 0
    && applicant in v.p.applications
    && var a := v.p.applications[applicant];
    && a.requested == LeastAward(w.p.config) && !a.finalized && !a.withdrawn
    && |a.votes| == |voted| && (forall i :: 0 <= i < |a.votes| ==> a.votes[i] == LeastAward(w.p.config))
    && VotesFor(v.p, applicant).Keys == voted && voted <= w.p.reviewers
  }

  lemma GiftTaken(w: World, donor: Address, gift: int)
    requires Deployed(w) && Affordable(w, donor, gift)
    ensures Legal(w, CallContribute(donor, gift)) && Step(w, CallContribute(donor, gift)).Ok?
    ensures var v := Next(w, CallContribute(donor, gift));
            && v == w.(balances := v.balances, transfers := v.transfers,
                       p := w.p.(donors := v.p.donors, contributed := gift))
  {
    hide BudgetOf, Moved;
  }

  lemma DeployedStart(w: World)
    requires Deployed(w)
    ensures PhaseOf(w.p, w.now) == Opened && !w.p.paused && !w.p.cancelled && w.p.granted == 0
    ensures w.p.applications == map[] && w.p.voted == map[]
    ensures TermsSane(w.p.config) && w.p.config.applyDeadline <= U64_MAX
  {
  }

  // Open, unpaused and without applications.
  ghost predicate OpenAndEmpty(w: World) {
    && PhaseOf(w.p, w.now) == Opened && !w.p.paused && TermsSane(w.p.config)
    && w.p.config.applyDeadline <= U64_MAX
    && w.p.applications == map[] && w.p.voted == map[] && w.p.granted == 0
  }

  lemma GiftLeavesOpen(w: World, donor: Address, gift: int)
    requires Deployed(w) && Affordable(w, donor, gift)
    ensures Legal(w, CallContribute(donor, gift))
    ensures var given := Next(w, CallContribute(donor, gift));
            && OpenAndEmpty(given) && given.p.contributed == gift
            && given.p.config == w.p.config && given.p.reviewers == w.p.reviewers
  {
    hide Deployed, Affordable, Next, Legal, TermsSane, Step;
    DeployedStart(w);
    GiftTaken(w, donor, gift);
  }

  lemma AppliedAndClosed(w: World, applicant: Address)
    requires OpenAndEmpty(w)
    ensures var v := Next(w, CallApply(applicant, LeastAward(w.p.config)));
            && Legal(w, CallApply(applicant, LeastAward(w.p.config)))
            && Legal(v, Tick(w.p.config.applyDeadline))
            && Panelled(w, Next(v, Tick(w.p.config.applyDeadline)), w.p.contributed, applicant, {})
  {
  }

  // What a first vote writes.
  lemma FirstVote(v: World, reviewer: Address, applicant: Address, approved: int)
    requires !v.p.paused && PhaseOf(v.p, v.now) == Review && reviewer in v.p.reviewers
    requires applicant in v.p.applications
    requires !v.p.applications[applicant].finalized && !v.p.applications[applicant].withdrawn
    requires 0 < approved <= v.p.applications[applicant].requested
    requires reviewer !in VotesFor(v.p, applicant)
    ensures var a := v.p.applications[applicant];
            Next(v, CallReview(reviewer, applicant, approved)) == v.(p := v.p.(
              applications := v.p.applications[applicant := a.(votes := Inserted(a.votes, approved))],
              voted := v.p.voted[applicant := VotesFor(v.p, applicant)[reviewer := approved]]))
  {
    hide Inserted, Removed;
  }

  lemma InsertSame(votes: seq<int>, v: int)
    requires forall i :: 0 <= i < |votes| ==> votes[i] == v
    ensures |Inserted(votes, v)| == |votes| + 1
    ensures forall i :: 0 <= i < |Inserted(votes, v)| ==> Inserted(votes, v)[i] == v
  {
    InsertIndexed(votes, v);
  }

  lemma PanelGrows(w: World, v: World, gift: int, applicant: Address, voted: set<Address>, reviewer: Address, votes: seq<int>)
    requires Panelled(w, v, gift, applicant, voted)
    requires reviewer in w.p.reviewers && reviewer !in voted
    requires |votes| == |voted| + 1 && forall i :: 0 <= i < |votes| ==> votes[i] == LeastAward(w.p.config)
    ensures Panelled(w, v.(p := v.p.(
              applications := v.p.applications[applicant := v.p.applications[applicant].(votes := votes)],
              voted := v.p.voted[applicant := VotesFor(v.p, applicant)[reviewer := LeastAward(w.p.config)]])),
              gift, applicant, voted + {reviewer})
  {
  }

  // One more reviewer approves the whole of it.
  lemma OneMoreVote(w: World, v: World, gift: int, applicant: Address, voted: set<Address>, reviewer: Address)
    requires Panelled(w, v, gift, applicant, voted)
    requires reviewer in w.p.reviewers && reviewer !in voted
    ensures Panelled(w, Next(v, CallReview(reviewer, applicant, LeastAward(w.p.config))), gift, applicant, voted + {reviewer})
  {
    hide Next, Inserted, PhaseOf, VotesFor;
    var votes, amount := v.p.applications[applicant].votes, LeastAward(w.p.config);
    InsertSame(votes, amount);
    FirstVote(v, reviewer, applicant, amount);
    PanelGrows(w, v, gift, applicant, voted, reviewer, Inserted(votes, amount));
  }

  lemma {:induction false} PanelVotes(w: World, calls: seq<Call>, v: World, gift: int, applicant: Address,
                                      voted: set<Address>, waiting: set<Address>, count: nat)
    requires Reached(w, calls, v) && Panelled(w, v, gift, applicant, voted)
    requires voted + waiting == w.p.reviewers && voted !! waiting && |voted| <= count <= |w.p.reviewers|
    ensures exists more, u, all :: Reached(w, more, u) && Panelled(w, u, gift, applicant, all) && |all| == count
    decreases |waiting|
  {
    hide Panelled, Reached, Next;
    if |voted| == count {
      assert Reached(w, calls, v) && Panelled(w, v, gift, applicant, voted) && |voted| == count;
    } else {
      assert waiting == {} ==> voted == w.p.reviewers;
      var reviewer :| reviewer in waiting;
      var call := CallReview(reviewer, applicant, LeastAward(w.p.config));
      OneMoreVote(w, v, gift, applicant, voted, reviewer);
      RunOn(w, calls, v, call);
      assert (voted + {reviewer}) + (waiting - {reviewer}) == w.p.reviewers;
      PanelVotes(w, calls + [call], Next(v, call), gift, applicant, voted + {reviewer}, waiting - {reviewer}, count);
    }
  }

  lemma PanelSettlesNow(w: World, v: World, donor: Address, gift: int, applicant: Address, voted: set<Address>)
    requires Panelled(w, v, gift, applicant, voted) && Affordable(w, donor, gift)
    requires TermsSane(w.p.config) && w.p.config.quorum <= |voted|
    ensures applicant in Next(v, CallFinalize(applicant, applicant, Mode.Open)).p.awards
  {
    hide FeeOn;
  }

  lemma NoCalls(w: World)
    ensures Reached(w, [], w)
  {
  }

  lemma {:induction false} PanelOpens(w: World, donor: Address, gift: int, applicant: Address)
    requires Deployed(w) && Affordable(w, donor, gift)
    ensures exists calls, v :: Reached(w, calls, v) && Panelled(w, v, gift, applicant, {})
  {
    hide Deployed, Panelled, Reached, Next, Legal, Affordable, OpenAndEmpty, LeastAward;
    var give, ask, close := CallContribute(donor, gift), CallApply(applicant, LeastAward(w.p.config)), Tick(w.p.config.applyDeadline);
    NoCalls(w);
    GiftLeavesOpen(w, donor, gift);
    var given := Next(w, give);
    AppliedAndClosed(given, applicant);
    RunOn(w, [], w, give);
    RunOn(w, [] + [give], given, ask);
    RunOn(w, [] + [give] + [ask], Next(given, ask), close);
    SameStart(w, given, Next(Next(given, ask), close), gift, applicant);
  }

  // From every deployed programme whose panel is at least its quorum, and any gift that covers the
  // least award, some run settles an award for whoever applies.
  lemma {:induction false} PanelSettles(w: World, donor: Address, gift: int, applicant: Address)
    requires Deployed(w) && Affordable(w, donor, gift)
    requires w.p.config.quorum <= |w.p.reviewers|
    ensures exists calls :: AllLegal(w, calls) && applicant in Exec(w, calls).p.awards
  {
    hide Deployed, Panelled, Reached, Next, Legal, Affordable, TermsSane, Exec, AllLegal;
    DeployedStart(w);
    PanelOpens(w, donor, gift, applicant);
    var calls, v :| Reached(w, calls, v) && Panelled(w, v, gift, applicant, {});
    PanelVotes(w, calls, v, gift, applicant, {}, w.p.reviewers, w.p.config.quorum);
    var more, u, all :| Reached(w, more, u) && Panelled(w, u, gift, applicant, all) && |all| == w.p.config.quorum;
    PanelSettlesNow(w, u, donor, gift, applicant, all);
    var settle := CallFinalize(applicant, applicant, Mode.Open);
    SettlingIsLegal(u, settle);
    RunOn(w, more, u, settle);
    ReachedMeans(w, more + [settle], Next(u, settle));
  }

  lemma SettlingIsLegal(v: World, call: Call)
    requires call.CallFinalize?
    ensures Legal(v, call)
  {
  }

  lemma {:induction false} ReachedMeans(w: World, calls: seq<Call>, v: World)
    requires Reached(w, calls, v)
    ensures AllLegal(w, calls) && Exec(w, calls) == v
  {
  }

  lemma SameStart(w: World, given: World, v: World, gift: int, applicant: Address)
    requires given.p.config == w.p.config && given.p.reviewers == w.p.reviewers && given.p.contributed == gift
    requires Panelled(given, v, given.p.contributed, applicant, {})
    ensures Panelled(w, v, gift, applicant, {})
  {
  }

  // What the constructor's check is for, exactly: provided someone can give enough, some run settles an
  // application if and only if the distinct reviewers are at least as many as the quorum.
  lemma {:induction false} SettlesExactly(w: World, donor: Address, gift: int, applicant: Address)
    requires Deployed(w) && Affordable(w, donor, gift)
    ensures (exists calls :: AllLegal(w, calls) && applicant in Exec(w, calls).p.awards) <==>
            w.p.config.quorum <= |w.p.reviewers|
  {
    hide Exec, AllLegal, Deployed, Affordable;
    if w.p.config.quorum <= |w.p.reviewers| {
      PanelSettles(w, donor, gift, applicant);
    }
    forall calls | AllLegal(w, calls) && applicant in Exec(w, calls).p.awards
      ensures w.p.config.quorum <= |w.p.reviewers|
    {
      AwardNeedsPanel(w, calls, applicant);
    }
  }

  // ---- a run whose batch overpays ----

  const GIVER := Address(3)
  const WINNER := Address(4)
  const REVIEWER := Address(1)
  const VERIFIER := Address(2)

  // One tranche, one reviewer, and a donor with a thousand.
  function Start(codec: Codec): World {
    FreshProgramme(codec, GIVER, 1000, 1)
  }

  function Given(codec: Codec): World {
    var w := Start(codec);
    w.(balances := Moved(w.balances, GIVER, w.self, 1000),
       transfers := w.transfers + [Transfer(GIVER, w.self, 1000, Deposit)],
       p := w.p.(donors := w.p.donors[GIVER := 1000], contributed := 1000))
  }

  function Asked(codec: Codec): World {
    var w := Given(codec);
    w.(p := w.p.(applications := w.p.applications[WINNER := Application(100, 5, [], false, false)]))
  }

  function InReview(codec: Codec): World {
    Asked(codec).(now := 10)
  }

  function Voted(codec: Codec): World {
    var w := InReview(codec);
    w.(p := w.p.(applications := w.p.applications[WINNER := Application(100, 5, [100], false, false)],
                 voted := w.p.voted[WINNER := map[REVIEWER := 100]]))
  }

  function Awarded(codec: Codec): World {
    var w := Voted(codec);
    w.(p := w.p.(applications := w.p.applications[WINNER := Application(100, 5, [100], true, false)],
                 granted := 100,
                 awards := w.p.awards[WINNER := Award(WINNER, 100, 0, 1, 0, WINNER, Allocated)]))
  }

  function Proof(codec: Codec, n: nat): Uid {
    ClaimUid(Start(codec).p.config.schema, VERIFIER, WINNER, n)
  }

  function ClaimOf(codec: Codec, n: nat): Attest.Attestation {
    Attest.Attestation(Proof(codec, n), Start(codec).p.config.schema, VERIFIER, WINNER, Opaque(n), 10, None, None)
  }

  // The verifier has attested twice about the winner.
  function Proved(codec: Codec): World {
    var w := Awarded(codec);
    w.(attest := w.attest.(
         attestations := w.attest.attestations[Proof(codec, 0) := ClaimOf(codec, 0)][Proof(codec, 1) := ClaimOf(codec, 1)],
         nonce := 2))
  }

  function Attesting(codec: Codec, n: nat): Call {
    AttestStep(Attest.CallClaim(VERIFIER, Start(codec).p.config.schema, WINNER, Opaque(n), None))
  }

  lemma GivenNext(codec: Codec)
    ensures Legal(Start(codec), CallContribute(GIVER, 1000))
    ensures Next(Start(codec), CallContribute(GIVER, 1000)) == Given(codec)
  {
    hide Moved;
  }

  lemma AskedNext(codec: Codec)
    ensures Next(Given(codec), CallApply(WINNER, 100)) == Asked(codec)
  {
    hide Moved;
  }

  lemma InReviewNext(codec: Codec)
    ensures Next(Asked(codec), Tick(10)) == InReview(codec)
  {
    hide Moved;
  }

  lemma VotedNext(codec: Codec)
    ensures Next(InReview(codec), CallReview(REVIEWER, WINNER, 100)) == Voted(codec)
  {
    FirstVote(InReview(codec), REVIEWER, WINNER, 100);
    hide Next, Moved;
    var none: seq<int> := [];
    assert Inserted(none, 100) == [100];
  }

  lemma AwardedNext(codec: Codec)
    ensures Next(Voted(codec), CallFinalize(WINNER, WINNER, Allocated)) == Awarded(codec)
  {
    hide Moved;
    assert AwardDue(Voted(codec), WINNER, WINNER, Allocated) == Ok(100);
  }

  lemma ProvedNext(codec: Codec)
    ensures Next(Next(Awarded(codec), Attesting(codec, 0)), Attesting(codec, 1)) == Proved(codec)
  {
    hide Moved;
  }

  lemma {:induction false} InReviewIsReached(codec: Codec)
    ensures exists calls :: Reached(Start(codec), calls, InReview(codec))
  {
    var w := Start(codec);
    GivenNext(codec);
    AskedNext(codec);
    InReviewNext(codec);
    NoCalls(w);
    hide Reached, Next, Start, Given, Asked, InReview;
    var give, ask, close := CallContribute(GIVER, 1000), CallApply(WINNER, 100), Tick(10);
    RunOn(w, [], w, give);
    RunOn(w, [] + [give], Given(codec), ask);
    RunOn(w, [] + [give] + [ask], Asked(codec), close);
  }

  lemma {:induction false} ProvedIsReached(codec: Codec)
    ensures exists calls :: Reached(Start(codec), calls, Proved(codec))
  {
    hide Reached, Next, Start, InReview, Voted, Awarded, Proved;
    InReviewIsReached(codec);
    VotedNext(codec);
    AwardedNext(codec);
    ProvedNext(codec);
    var w := Start(codec);
    var calls :| Reached(w, calls, InReview(codec));
    var vote, settle := CallReview(REVIEWER, WINNER, 100), CallFinalize(WINNER, WINNER, Allocated);
    RunOn(w, calls, InReview(codec), vote);
    RunOn(w, calls + [vote], Voted(codec), settle);
    var first, second := Attesting(codec, 0), Attesting(codec, 1);
    RunOn(w, calls + [vote] + [settle], Awarded(codec), first);
    RunOn(w, calls + [vote] + [settle] + [first], Next(Awarded(codec), first), second);
  }

  function ProvedAward(codec: Codec): Award {
    Award(WINNER, 100, 0, 1, 0, WINNER, Allocated)
  }

  // The award's only tranche, paid in full.
  lemma FirstProof(codec: Codec)
    ensures var w := Proved(codec);
            var r := Disburse(w, WINNER, ProvedAward(codec), Proof(codec, 0));
            && WINNER in w.p.awards && w.p.awards[WINNER] == ProvedAward(codec)
            && ReleaseGuard(w, VERIFIER).Pass? && ProofGuard(w, WINNER, Proof(codec, 0), VERIFIER).Pass?
            && r.Ok?
            && r.value.p.awards == w.p.awards[WINNER := ProvedAward(codec).(tranchesReleased := 1, released := 100)]
            && r.value.p.used == {Proof(codec, 0)} && r.value.p.released == 100
            && r.value.record.writers == {w.self} && r.value.record.standings.Keys == {WINNER}
            && r.value.record.standings[WINNER].totalReceived == 100
            && r.value.record.standings[WINNER].tranches == 1 && (WINNER, w.self) in r.value.record.seen
            && Get(r.value.p.allocations, WINNER) == 100
            && r.value.attest == w.attest && r.value.now == w.now && r.value.self == w.self
            && r.value.p.config == w.p.config
  {
    hide Moved, Fold, Attest.Verify;
    FirstProofValid(codec);
  }

  lemma FirstProofValid(codec: Codec)
    ensures var w := Proved(codec);
            Attest.Verify(w.attest, w.now, Proof(codec, 0), WINNER, w.p.config.schema, VERIFIER)
  {
    hide Moved;
  }

  // The second proof is paid an equal part again: the whole of it.
  lemma SecondProof(codec: Codec)
    ensures var first := Disburse(Proved(codec), WINNER, ProvedAward(codec), Proof(codec, 0)).value;
            var paid := ProvedAward(codec).(tranchesReleased := 1, released := 100);
            var r := Disburse(first, WINNER, paid, Proof(codec, 1));
            && ProofGuard(first, WINNER, Proof(codec, 1), VERIFIER).Pass?
            && r.Ok?
            && r.value.p.awards == first.p.awards[WINNER := paid.(tranchesReleased := 2, released := 200)]
  {
    FirstProof(codec);
    var first := Disburse(Proved(codec), WINNER, ProvedAward(codec), Proof(codec, 0)).value;
    SecondProofValid(codec);
    hide Moved, Fold, ProofGuard;
    var paid := ProvedAward(codec).(tranchesReleased := 1, released := 100);
    PaidAgain(first, paid, Proof(codec, 1));
  }

  lemma SecondProofValid(codec: Codec)
    ensures var w := Proved(codec);
            && Proof(codec, 1) != Proof(codec, 0)
            && Attest.Verify(w.attest, w.now, Proof(codec, 1), WINNER, w.p.config.schema, VERIFIER)
  {
    hide Moved;
  }

  lemma PaidAgain(w: World, a: Award, uid: Uid)
    requires a == Award(WINNER, 100, 100, 1, 1, WINNER, Allocated)
    requires w.p.released == 100 && Get(w.p.allocations, WINNER) == 100
    requires w.self in w.record.writers && WINNER in w.record.standings && (WINNER, w.self) in w.record.seen
    requires w.record.standings[WINNER].totalReceived == 100 && w.record.standings[WINNER].tranches == 1
    ensures var r := Disburse(w, WINNER, a, uid);
            r.Ok? && r.value.p.awards == w.p.awards[WINNER := a.(tranchesReleased := 2, released := 200)]
  {
    hide Fold;
  }

  lemma {:induction false} TwoRounds(w: World, r: Address, u: Uid, v: Uid, attester: Address)
    requires r in w.p.awards && ProofGuard(w, r, u, attester).Pass? && Disburse(w, r, w.p.awards[r], u).Ok?
    requires var first := Disburse(w, r, w.p.awards[r], u).value;
             r in first.p.awards && ProofGuard(first, r, v, attester).Pass? && Disburse(first, r, first.p.awards[r], v).Ok?
    ensures var first := Disburse(w, r, w.p.awards[r], u).value;
            var each := ReleaseEach(w, r, [u, v], attester);
            each.Ok? && each.value.0 == Disburse(first, r, first.p.awards[r], v).value
  {
    hide Disburse, ProofGuard, ReleaseEach, NextTranche;
    var first := Disburse(w, r, w.p.awards[r], u).value;
    var uids, last, none: seq<Uid> := [u, v], [v], [];
    EachUnfolds(w, r, uids, attester);
    EachUnfolds(first, r, last, attester);
    EachOfNone(Disburse(first, r, first.p.awards[r], v).value, r, attester);
    assert uids[1..] == last && last[1..] == none;
  }

  // Two proofs in one batch release twice what was granted.
  lemma BatchOfTwo(codec: Codec)
    ensures var r := ReleaseBatch(Proved(codec), WINNER, [Proof(codec, 0), Proof(codec, 1)], VERIFIER);
            r.Ok? && WINNER in r.value.0.p.awards && r.value.0.p.awards[WINNER].released == 200
            && r.value.0.p.awards[WINNER].granted == 100
  {
    var w, paid := Proved(codec), ProvedAward(codec).(tranchesReleased := 1, released := 100);
    FirstProof(codec);
    SecondProof(codec);
    hide Proved, Disburse, ProofGuard, ReleaseGuard, ReleaseEach, Proof, NextTranche, Moved, Fold;
    TwoRounds(w, WINNER, Proof(codec, 0), Proof(codec, 1), VERIFIER);
  }

  lemma StartIsDeployed(codec: Codec)
    ensures Deployed(Start(codec))
  {
    FreshIsDeployed(codec, GIVER, 1000, 1);
  }

  // From a deployed programme a legal run, everyone's calls included, ends with an award that has
  // released twice what it was granted.
  lemma {:induction false} BatchCanOverpay(codec: Codec)
    ensures var w := Start(codec);
            && Deployed(w)
            && exists calls ::
                 && AllLegal(w, calls)
                 && var p := Exec(w, calls).p;
                 WINNER in p.awards && p.awards[WINNER].granted == 100 && p.awards[WINNER].released == 200
  {
    hide Deployed, Reached, Start, Proved, ReleaseBatch, Next, Exec, AllLegal, Proof, Legal;
    StartIsDeployed(codec);
    ProvedIsReached(codec);
    BatchOfTwo(codec);
    var w, batch := Start(codec), CallReleaseBatch(WINNER, [Proof(codec, 0), Proof(codec, 1)], VERIFIER);
    BatchNext(Proved(codec), batch);
    var calls :| Reached(w, calls, Proved(codec));
    RunOn(w, calls, Proved(codec), batch);
    ReachedMeans(w, calls + [batch], Next(Proved(codec), batch));
  }

  lemma BatchNext(w: World, call: Call)
    requires call.CallReleaseBatch?
    requires ReleaseBatch(w, call.recipient, call.uids, call.attester).Ok?
    ensures Legal(w, call)
    ensures Next(w, call) == ReleaseBatch(w, call.recipient, call.uids, call.attester).value.0
  {
    hide ReleaseBatch;
  }
}
