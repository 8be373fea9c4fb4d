// Exactly when each call goes through, in every state a programme can be in: conditions on what a
// caller can read beforehand, with the checks that never decide left out.
module ProgrammeOutcomes {
  import opened Results
  import opened Ledger
  import opened MapSums
  import opened Votes
  import opened Programme
  import opened ProgrammeTerms
  import opened ProgrammeLedger
  import opened ProgrammeVotes
  import opened ProgrammeAwards
  import opened ProgrammeTranches
  import opened ProgrammeRuns
  import opened ProgrammeRefunds
  import opened ProgrammeEntitlements
  import opened ProgrammeBooks
  import opened ProgrammeBudget
  import Attest
  import Record

  // ---- construction ----

  // Which programmes can be deployed, and how each begins: with nothing given, asked, granted or paid,
  // and neither paused nor cancelled. That somebody reviews follows from the quorum.
  lemma CreatesExactly(config: Config, reviewers: seq<Address>, verifiers: seq<Address>, registry: Attest.Registry, now: nat)
    ensures var r := Create(config, reviewers, verifiers, registry, now);
            && (r.Ok? <==>
                  && config.feeBps <= 1_000
                  && now < config.applyDeadline < config.reviewDeadline < config.releaseDeadline < config.sweepDeadline
                  && 1 <= config.quorum <= 16 && config.quorum <= |reviewers|
                  && verifiers != []
                  && 1 <= config.tranches
                  && (config.minimumAward == 0 || config.tranches <= config.minimumAward)
                  && config.schema in registry.schemas
                  && (registry.schemas[config.schema].restricted ==> registry.schemas[config.schema].authority in verifiers))
            && (r.Ok? ==>
                  var p := r.value;
                  && p.config == config && !p.paused && !p.cancelled && !p.feeSwept
                  && p.contributed == 0 && p.granted == 0 && p.released == 0 && p.refundedTotal == 0 && p.sweptTotal == 0
                  && p.donors == map[] && p.refunded == map[] && p.allocations == map[]
                  && p.applications == map[] && p.voted == map[] && p.awards == map[] && p.used == {} && p.payees == {}
                  && (forall a :: a in p.reviewers <==> a in reviewers)
                  && (forall a :: a in p.verifiers <==> a in verifiers))
  {
  }

  // A claim is what a tranche needs, and from the start some trusted verifier can make it about anyone:
  // the programme's schema is registered and open to them.
  lemma {:induction false} SomeVerifierCanAttest(w: World, subject: Address, dataHash: Uid)
    requires Deployed(w) && w.attest.nonce < U64_MAX
    ensures exists v :: v in w.p.verifiers &&
                        var step := AttestStep(Attest.CallClaim(v, w.p.config.schema, subject, dataHash, None));
                        LiveProof(Next(w, step), ClaimUid(w.p.config.schema, v, subject, w.attest.nonce), subject, v)
  {
    var v := SchemaIsOpen(w);
    AttestingGivesProof(w, v, subject, dataHash);
    hide Next, LiveProof, Deployed;
    var step := AttestStep(Attest.CallClaim(v, w.p.config.schema, subject, dataHash, None));
    assert v in w.p.verifiers &&
           LiveProof(Next(w, step), ClaimUid(w.p.config.schema, v, subject, w.attest.nonce), subject, v);
  }

  ghost predicate MayAttest(w: World, v: Address) {
    var schemas := w.attest.schemas;
    w.p.config.schema in schemas && (schemas[w.p.config.schema].restricted ==> schemas[w.p.config.schema].authority == v)
  }

  lemma SchemaIsOpen(w: World) returns (v: Address)
    requires Deployed(w)
    ensures v in w.p.verifiers && MayAttest(w, v)
  {
    hide Attest.Sound, Record.BookSound;
    var reviewers, verifiers :| Create(w.p.config, reviewers, verifiers, w.attest, w.now) == Ok(w.p);
    CreatesExactly(w.p.config, reviewers, verifiers, w.attest, w.now);
    hide Create;
    var schema := w.attest.schemas[w.p.config.schema];
    v := if schema.restricted then schema.authority else verifiers[0];
  }

  lemma AttestingGivesProof(w: World, v: Address, subject: Address, dataHash: Uid)
    requires MayAttest(w, v) && w.attest.nonce < U64_MAX
    ensures var step := AttestStep(Attest.CallClaim(v, w.p.config.schema, subject, dataHash, None));
            LiveProof(Next(w, step), ClaimUid(w.p.config.schema, v, subject, w.attest.nonce), subject, v)
  {
    Attest.ClaimsExactly(w.attest, w.now, v, w.p.config.schema, subject, dataHash, None);
    hide Attest.MakeClaim;
  }

  // ---- every call but the batch ----

  // What an award pays next.
  function Part(a: Award): int {
    if a.tranchesReleased + 1 == a.tranches then a.granted - a.released
    else if a.tranches == 0 then 0
    else a.granted / a.tranches
  }

  // What its votes settle an application on.
  function Settles(p: Storage, applicant: Address): int
    requires applicant in p.applications && 0 < p.config.quorum <= |p.applications[applicant].votes|
  {
    p.applications[applicant].votes[(p.config.quorum - 1) / 2]
  }

  function Balance(w: World): int {
    Get(w.balances, w.self)
  }

  // The record takes a credit from this programme for this subject.
  ghost predicate Creditable(w: World, subject: Address, amount: int) {
    var log := Record.LogOf(w.record.credits, subject);
    && w.self in w.record.writers
    && 0 < amount
    && Record.Received(log) + amount <= I128_MAX
    && |log| < Record.U32_MAX
  }

  // Where the award pays, the tranche can go.
  predicate Payable(w: World, a: Award, amount: int) {
    match a.mode
    case Allocated => Get(w.p.allocations, a.recipient) + amount <= I128_MAX
    case Restricted => a.payee in w.installed && amount <= Balance(w)
    case Direct => amount <= Balance(w)
    case Open => amount <= Balance(w)
  }

  ghost predicate Releasable(w: World, recipient: Address, uid: Uid, attester: Address) {
    && !w.p.paused && !w.p.cancelled && w.now < w.p.config.releaseDeadline
    && attester in w.p.verifiers
    && uid !in w.p.used && LiveProof(w, uid, recipient, attester)
    && recipient in w.p.awards
    && var a := w.p.awards[recipient];
    && a.tranchesReleased < a.tranches
    && w.p.released + Part(a) <= I128_MAX
    && Payable(w, a, Part(a))
    && Creditable(w, recipient, Part(a))
  }

  ghost predicate Claimable(w: World, donor: Address, asked: Option<int>) {
    var left := Entitlement(w.p, donor) - Get(w.p.refunded, donor);
    && (w.p.cancelled || w.p.config.releaseDeadline <= w.now)
    && 0 < left && (asked.Some? ==> 0 < asked.value <= left)
    && (if asked.Some? then asked.value else left) <= Balance(w)
    && w.p.contributed * w.p.config.feeBps <= I128_MAX
    && Get(w.p.donors, donor) * Pool(w.p) <= I128_MAX
  }

  // The conditions, call by call.
  ghost predicate Allowed(w: World, call: Call) {
    var p, c := w.p, w.p.config;
    match call
    case CallContribute(donor, amount) =>
      && !p.paused && !p.cancelled && w.now < c.applyDeadline
      && 0 < amount <= Get(w.balances, donor) && p.contributed + amount <= I128_MAX
    case CallApply(applicant, requested) =>
      && !p.paused && !p.cancelled && w.now < c.applyDeadline
      && 0 < requested && applicant !in p.applications
    case CallReview(reviewer, applicant, approved) =>
      && !p.paused && !p.cancelled && c.applyDeadline <= w.now < c.reviewDeadline
      && reviewer in p.reviewers && applicant in p.applications
      && !p.applications[applicant].finalized && !p.applications[applicant].withdrawn
      && 0 < approved <= p.applications[applicant].requested
    case CallWithdraw(applicant) =>
      applicant in p.applications && !p.applications[applicant].finalized && !p.applications[applicant].withdrawn
    case CallFinalize(applicant, payee, mode) =>
      && !p.paused && !p.cancelled && c.applyDeadline <= w.now
      && applicant in p.applications
      && !p.applications[applicant].finalized && !p.applications[applicant].withdrawn
      && 0 < c.quorum <= |p.applications[applicant].votes|
      && c.minimumAward <= Settles(p, applicant)
      && (mode == Direct ==> payee in p.payees) && (mode == Open ==> payee == applicant)
      && p.contributed * c.feeBps <= I128_MAX
      && p.granted + Settles(p, applicant) <= p.contributed - p.contributed * c.feeBps / 10_000
    case CallAllowPayee(payee) => payee !in p.payees
    case CallDenyPayee(payee) => payee in p.payees
    case CallAddVerifier(verifier) => verifier !in p.verifiers
    case CallRemoveVerifier(verifier) => verifier in p.verifiers
    case CallSpend(recipient, payee, amount) =>
      && !p.paused && w.now < c.sweepDeadline
      && 0 < amount <= Get(p.allocations, recipient) && amount <= Balance(w)
      && payee in p.payees
    case CallRelease(recipient, uid, attester) => Releasable(w, recipient, uid, attester)
    case CallReleaseBatch(_, _, _) => false
    case CallSweepFee =>
      var fee := p.contributed * c.feeBps / 10_000;
      && (p.cancelled || c.applyDeadline <= w.now) && !p.feeSwept
      && p.contributed * c.feeBps <= I128_MAX && (fee == 0 || fee <= Balance(w))
    case CallRefund(donor, asked) => Claimable(w, donor, asked)
    case CallSweepUnclaimed => c.sweepDeadline <= w.now && 0 < Balance(w) && p.sweptTotal + Balance(w) <= I128_MAX
    case CallCancel => !p.cancelled && p.released == 0
    case CallExtendReleaseDeadline(deadline) => w.now < c.releaseDeadline < deadline
    case CallPause => !p.paused && !p.cancelled
    case TokenMove(from, _, amount) => 0 <= amount <= Get(w.balances, from)
    case _ => true
  }

  // What reachable states have in common that the conditions lean on.
  ghost predicate Reachable(w: World) {
    && Sound(w) && RefundsSound(w) && Neighbours(w) && Representable(w.p)
  }

  lemma {:induction false} RunIsReachable(w: World, calls: seq<Call>)
    requires Deployed(w)
    requires AllLegal(w, calls)
    ensures Reachable(Exec(w, calls))
  {
    hide Exec, Deployed, AllLegal, Sound, RefundsSound, Neighbours, Representable, AllAccounted, Credits;
    RunKeepsSound(w, calls);
    RunKeepsClaims(w, calls);
    RunKeepsBooks(w, calls);
    ReachableIsRepresentable(w, calls);
  }

  lemma ContributesExactly(w: World, donor: Address, amount: int)
    requires Claims(w.p)
    ensures Contribute(w, donor, amount).Ok? <==> Allowed(w, CallContribute(donor, amount))
  {
    SumNonNegative(w.p.donors);
    hide Moved, Entitlement, Sum;
  }

  lemma PeopleExactly(w: World, call: Call)
    requires call.CallApply? || call.CallReview? || call.CallWithdraw?
    requires TermsSane(w.p.config)
    ensures Step(w, call).Ok? <==> Allowed(w, call)
  {
    hide Inserted, Removed, VotesFor;
  }

  lemma FinalizesExactly(w: World, applicant: Address, payee: Address, mode: Mode)
    requires TermsSane(w.p.config) && Representable(w.p)
    ensures Finalize(w, applicant, payee, mode).Ok? <==> Allowed(w, CallFinalize(applicant, payee, mode))
  {
    BudgetGrows(w.p.contributed, w.p.contributed, w.p.config.feeBps);
  }

  lemma SpendsExactly(w: World, recipient: Address, payee: Address, amount: int)
    ensures Spend(w, recipient, payee, amount).Ok? <==> Allowed(w, CallSpend(recipient, payee, amount))
  {
    hide Moved;
  }

  lemma SweepsFeeExactly(w: World)
    requires Representable(w.p)
    ensures SweepFee(w).Ok? <==> Allowed(w, CallSweepFee)
  {
    hide Moved;
    BudgetGrows(w.p.contributed, w.p.contributed, w.p.config.feeBps);
    SweepFeeCases(w);
    hide SweepFee;
  }

  lemma SweepFeeCases(w: World)
    ensures var fee := FeeOn(w.p.contributed, w.p.config.feeBps);
            SweepFee(w).Ok? <==>
              && PhaseOf(w.p, w.now) != Opened && !w.p.feeSwept
              && w.p.contributed * w.p.config.feeBps <= I128_MAX
              && (fee <= 0 || fee <= Get(w.balances, w.self))
  {
    hide Moved, FeeOn, PhaseOf;
  }

  lemma SweepsExactly(w: World)
    ensures SweepUnclaimed(w).Ok? <==> Allowed(w, CallSweepUnclaimed)
  {
    hide Moved;
  }

  lemma ControlsExactly(w: World, call: Call)
    requires IsControl(call)
    ensures Step(w, call).Ok? <==> Allowed(w, call)
  {
  }

  lemma MovesExactly(w: World, from: Address, to: Address, amount: int)
    ensures Step(w, TokenMove(from, to, amount)).Ok? <==> Allowed(w, TokenMove(from, to, amount))
  {
    hide Moved;
  }

  // A claim whatever the size of the programme: the two products must fit.
  lemma DueInGeneral(w: World, donor: Address, asked: Option<int>)
    requires Claims(w.p) && TermsSane(w.p.config)
    ensures var left := Entitlement(w.p, donor) - Get(w.p.refunded, donor);
            RefundDue(w, donor, asked).Ok? <==>
              && RefundsOpen(w) && 0 < left && (asked.Some? ==> 0 < asked.value <= left)
              && w.p.contributed * w.p.config.feeBps <= I128_MAX
              && Get(w.p.donors, donor) * Pool(w.p) <= I128_MAX
  {
    EntitlementBounds(w.p, donor);
    if donor in w.p.donors {
      SumNonNegative(w.p.donors);
    } else {
      assert Get(w.p.donors, donor) * Pool(w.p) == 0;
    }
  }

  lemma ClaimsExactly(w: World, donor: Address, asked: Option<int>)
    requires Claims(w.p) && TermsSane(w.p.config) && Representable(w.p)
    ensures ClaimRefund(w, donor, asked).Ok? <==> Allowed(w, CallRefund(donor, asked))
  {
    DueInGeneral(w, donor, asked);
    if RefundDue(w, donor, asked).Ok? {
      DueWithinEntitlement(w, donor, asked);
      ClaimsWithinShares(w.p, donor);
      AllSharesFit(w.p);
      BudgetGrows(w.p.contributed, w.p.contributed, w.p.config.feeBps);
    }
    hide RefundDue, AllShares, Entitlement, Moved;
  }

  lemma DisbursesExactly(w: World, recipient: Address, uid: Uid)
    requires recipient in w.p.awards && w.p.awards[recipient].recipient == recipient
    requires Record.BookSound(w.codec, w.record)
    ensures var a := w.p.awards[recipient];
            Disburse(w, recipient, a, uid).Ok? <==>
              w.p.released + Part(a) <= I128_MAX && Payable(w, a, Part(a)) && Creditable(w, recipient, Part(a))
  {
    var a := w.p.awards[recipient];
    DisbursesInParts(w, recipient, a, uid);
    CreditsWhen(w, recipient, Part(a), uid);
    hide Record.BookSound, PayOut, Disburse, Credited, Creditable;
    assert NextTranche(a) == Part(a);
    hide NextTranche, Part;
    if 0 < Part(a) {
      PaysExactly(Booked(w, recipient, a, uid), Booked(w, recipient, a, uid).p.awards[recipient], Part(a));
    } else {
      OnlyPositiveCredits(w, recipient, Part(a));
    }
  }

  lemma DisbursesInParts(w: World, recipient: Address, a: Award, uid: Uid)
    ensures var booked, amount := Booked(w, recipient, a, uid), NextTranche(a);
            Disburse(w, recipient, a, uid).Ok? <==>
              && w.p.released + amount <= I128_MAX
              && PayOut(booked, booked.p.awards[recipient], amount).Ok?
              && Credited(w, recipient, amount, uid).Ok?
  {
    hide PayOut, NextTranche, Record.CreditTranche;
  }

  lemma CreditsWhen(w: World, recipient: Address, amount: int, uid: Uid)
    requires Record.BookSound(w.codec, w.record)
    ensures Credited(w, recipient, amount, uid).Ok? <==> Creditable(w, recipient, amount)
  {
    hide Record.BookSound, Record.CreditTranche;
    Record.CreditsExactly(w.codec, w.record, Record.Credit(w.self, recipient, w.self, amount, uid, w.now));
  }

  lemma OnlyPositiveCredits(w: World, recipient: Address, amount: int)
    requires amount <= 0
    ensures !Creditable(w, recipient, amount)
  {
  }

  lemma PaysExactly(w: World, a: Award, amount: int)
    requires 0 < amount
    ensures PayOut(w, a, amount).Ok? <==> Payable(w, a, amount)
  {
    hide Moved;
  }

  lemma ReleasesExactly(w: World, recipient: Address, uid: Uid, attester: Address)
    requires AllAwardsSound(w.p) && Record.BookSound(w.codec, w.record) && TermsSane(w.p.config)
    ensures Release(w, recipient, uid, attester).Ok? <==> Releasable(w, recipient, uid, attester)
  {
    hide Record.BookSound, Disburse, Attest.Verify, NextTranche, Part, Payable, Creditable, LiveProof;
    ProofsExactly(w, recipient, uid, attester);
    if recipient in w.p.awards {
      assert AwardSound(w.p, recipient);
      DisbursesExactly(w, recipient, uid);
    }
  }

  lemma ProofsExactly(w: World, recipient: Address, uid: Uid, attester: Address)
    ensures ProofGuard(w, recipient, uid, attester).Pass? <==> uid !in w.p.used && LiveProof(w, uid, recipient, attester)
  {
    Attest.VerifiesExactly(w.attest, w.now, uid, recipient, w.p.config.schema, attester);
  }

  lemma ReachableParts(w: World)
    requires Reachable(w)
    ensures TermsSane(w.p.config) && Claims(w.p) && Record.BookSound(w.codec, w.record)
    ensures AllAwardsSound(w.p) && Representable(w.p)
  {
    hide Conserved, AllVotesSound, TotalsAddUp, Funded, Attest.Sound;
  }

  lemma StepsExactly(w: World, call: Call)
    requires Reachable(w) && !call.CallReleaseBatch?
    ensures Step(w, call).Ok? <==> Allowed(w, call)
  {
    hide Reachable, Allowed, TermsSane, Claims, Record.BookSound, AllAwardsSound, Representable;
    hide Contribute, Finalize, Spend, Release, ReleaseBatch, SweepFee, ClaimRefund, SweepUnclaimed;
    ReachableParts(w);
    match call
    case CallContribute(d, n) => ContributesExactly(w, d, n);
    case CallApply(_, _) => PeopleExactly(w, call);
    case CallReview(_, _, _) => PeopleExactly(w, call);
    case CallWithdraw(_) => PeopleExactly(w, call);
    case CallFinalize(a, p, m) => FinalizesExactly(w, a, p, m);
    case CallSpend(r, p, n) => SpendsExactly(w, r, p, n);
    case CallRelease(r, u, a) => ReleasesExactly(w, r, u, a); ReleaseAllowed(w, r, u, a);
    case CallSweepFee => SweepsFeeExactly(w);
    case CallRefund(d, asked) => ClaimsExactly(w, d, asked);
    case CallSweepUnclaimed => SweepsExactly(w);
    case TokenMove(f, t, n) => MovesExactly(w, f, t, n);
    case _ => ControlsExactly(w, call);
  }

  lemma ReleaseAllowed(w: World, recipient: Address, uid: Uid, attester: Address)
    ensures Allowed(w, CallRelease(recipient, uid, attester)) <==> Releasable(w, recipient, uid, attester)
  {
  }

  // In every reachable state, whatever was called before: each call goes through exactly under its
  // conditions. Batches are told by their single releases.
  lemma {:induction false} SucceedsExactly(w: World, calls: seq<Call>, call: Call)
    requires Deployed(w)
    requires AllLegal(w, calls)
    requires !call.CallReleaseBatch?
    ensures Step(Exec(w, calls), call).Ok? <==> Allowed(Exec(w, calls), call)
  {
    hide Exec, Deployed, AllLegal, Step, Allowed, Reachable;
    RunIsReachable(w, calls);
    StepsExactly(Exec(w, calls), call);
  }

  // ---- cancelling ----

  lemma CancelTakesEffect(w: World)
    ensures Step(w, CallCancel).Ok? <==> !w.p.cancelled && w.p.released == 0
    ensures Step(w, CallCancel).Ok? ==> Next(w, CallCancel) == w.(p := w.p.(cancelled := true))
  {
  }

  // A cancellation that goes through opens refunds at once and for good, and nothing is given or
  // released again, whatever follows.
  lemma {:induction false} CancellingIsFinal(w: World, calls: seq<Call>, call: Call)
    requires TermsSane(w.p.config) && Step(w, CallCancel).Ok?
    requires TakesOrReleases(call)
    ensures var v := Exec(Next(w, CallCancel), calls);
            v.p.cancelled && RefundsOpen(v) && v.p.released == 0 && Step(v, call).Err?
  {
    var u := Next(w, CallCancel);
    CancelTakesEffect(w);
    EntitlementsAreConstant(u, calls);
    TermsArePermanent(u, calls);
    hide Exec, Next, Step;
  }

  // A cancellation before the sweep puts the whole budget up for refund, and each donor with anything
  // left of their share of it can claim all of that at once.
  lemma {:induction false} CancellingPaysBack(w: World, calls: seq<Call>, donor: Address)
    requires Deployed(w)
    requires AllLegal(w, calls)
    requires Exec(w, calls).p.sweptTotal == 0
    requires Exec(w, calls).p.contributed <= 0x8000_0000_0000_0000
    requires Step(Exec(w, calls), CallCancel).Ok?
    ensures var v := Next(Exec(w, calls), CallCancel);
            var left := Entitlement(v.p, donor) - Get(v.p.refunded, donor);
            && Pool(v.p) == BudgetOf(v.p.contributed, v.p.config.feeBps)
            && (0 < left ==> ClaimRefund(v, donor, None).Ok? && ClaimRefund(v, donor, None).value.1 == left)
  {
    var u, more := Exec(w, calls), calls + [CallCancel];
    var v := Next(u, CallCancel);
    assert more[..|calls|] == calls;
    assert Exec(w, more) == v && AllLegal(w, more);
    CancelTakesEffect(u);
    hide Exec, Next, Step, Deployed, AllLegal, Entitlement, ClaimRefund;
    ClaimSucceedsExactly(w, more, donor, None);
  }
}
