// One funding round as a state machine: storage, the token and the contracts it calls, and what
// every entry point does to them. A failing call leaves everything as it was.
module Programme {
  import opened Results
  import opened Ledger
  import opened MapSums
  import opened Votes
  import opened HashChain
  import Attest
  import Record

  datatype Error =
    | NotAuthorized | WrongPhase | InvalidAmount | InvalidDeadlines | InvalidQuorum | FeeTooHigh
    | NoReviewers | ApplicationNotFound | AlreadyApplied | ExceedsRequested | QuorumNotReached
    | AlreadyFinalized | InsufficientBudget | Overflow | Cancelled | NotCancellable | NoVerifiers
    | AwardNotFound | AwardFullyReleased | AttestationInvalid | AttestationAlreadyUsed
    | ReleaseWindowClosed | FeeAlreadySwept | RefundsNotOpen | AlreadyRefunded | NothingToRefund
    | SweepNotOpen | NothingToSweep | PayeeNotVerified | AlreadyPayee | NotPayee
    | InsufficientAllocation | PolicyNotInstalled | SpendWindowClosed | BatchTooLarge | Withdrawn
    | BelowMinimumAward | Paused | SchemaAuthorityNotVerifier | SchemaNotFound | OpenPayeeNotRecipient
    // A call into another contract failed, which fails the whole call.
    | TokenFailed | CreditRejected(cause: Record.Error)

  datatype Mode = Direct | Allocated | Restricted | Open

  datatype Phase = Opened | Review | Settled | Abandoned

  datatype Config = Config(
    creator: Address, treasury: Address, schema: Uid, feeBps: nat,
    applyDeadline: nat, reviewDeadline: nat, releaseDeadline: nat, sweepDeadline: nat,
    quorum: nat, tranches: nat, minimumAward: int)

  datatype Application = Application(
    requested: int, submittedAt: nat, votes: seq<int>, finalized: bool, withdrawn: bool)

  datatype Award = Award(
    recipient: Address, granted: int, released: int, tranches: nat, tranchesReleased: nat,
    payee: Address, mode: Mode)

  datatype Storage = Storage(
    config: Config, cancelled: bool, paused: bool, feeSwept: bool,
    contributed: int, granted: int, released: int, refundedTotal: int, sweptTotal: int,
    donors: map<Address, int>, refunded: map<Address, int>,
    reviewers: set<Address>, verifiers: set<Address>, payees: set<Address>,
    applications: map<Address, Application>, voted: map<Address, map<Address, int>>,
    awards: map<Address, Award>, used: set<Uid>, allocations: map<Address, int>)

  // Why tokens moved: into the programme, or out of it and for whom.
  datatype Reason = Deposit | Outside | Tranche(recipient: Address) | Directed(recipient: Address) | Refund | Fee | Sweep

  datatype Transfer = Transfer(from: Address, to: Address, amount: int, reason: Reason)

  datatype World = World(
    self: Address, now: nat, balances: map<Address, int>, transfers: seq<Transfer>,
    attest: Attest.Registry, codec: Codec, record: Record.Book, installed: set<Address>, p: Storage)

  const MAX_QUORUM: nat := 16
  const MAX_FEE_BPS: nat := 1_000
  const MAX_PAYEE_BATCH: nat := 50
  const BPS_DENOMINATOR: nat := 10_000

  // ---- reading the state ----

  function PhaseOf(p: Storage, now: nat): Phase {
    if p.cancelled then Abandoned
    else if now < p.config.applyDeadline then Opened
    else if now < p.config.reviewDeadline then Review
    else Settled
  }

  function FeeOn(contributed: int, feeBps: nat): int {
    contributed * feeBps / BPS_DENOMINATOR
  }

  function BudgetOf(contributed: int, feeBps: nat): int {
    contributed - FeeOn(contributed, feeBps)
  }

  function Available(p: Storage): Result<int, Error> {
    if I128_MAX < p.contributed * p.config.feeBps then Err(Overflow)
    else
      Ok(BudgetOf(p.contributed, p.config.feeBps))
  }

  function RequirePhase(p: Storage, now: nat, expected: Phase): Guard<Error> {
    if PhaseOf(p, now) == Abandoned then Stop(Cancelled) else Need(PhaseOf(p, now) == expected, WrongPhase)
  }

  // ---- the token ----

  function Moved(balances: map<Address, int>, from: Address, to: Address, amount: int): map<Address, int> {
    var debited := balances[from := Get(balances, from) - amount];
    debited[to := Get(debited, to) + amount]
  }

  function MoveToken(w: World, from: Address, to: Address, amount: int, reason: Reason): Result<World, Error> {
    if amount < 0 || Get(w.balances, from) < amount then Err(TokenFailed)
    else
      Ok(w.(balances := Moved(w.balances, from, to, amount),
            transfers := w.transfers + [Transfer(from, to, amount, reason)]))
  }

  // ---- the constructor ----

  function Create(config: Config, reviewers: seq<Address>, verifiers: seq<Address>,
                  registry: Attest.Registry, now: nat): Result<Storage, Error> {
    if MAX_FEE_BPS < config.feeBps then Err(FeeTooHigh)
    else
      :- Need(now < config.applyDeadline < config.reviewDeadline < config.releaseDeadline < config.sweepDeadline,
              InvalidDeadlines);
      :- Need(reviewers != [], NoReviewers);
      :- Need(verifiers != [], NoVerifiers);
      :- Need(0 < config.quorum <= MAX_QUORUM && config.quorum <= |reviewers|, InvalidQuorum);
      :- Need(0 < config.tranches, InvalidAmount);
      :- Need(0 <= config.minimumAward, InvalidAmount);
      :- Need(config.minimumAward == 0 || config.tranches <= config.minimumAward, InvalidAmount);
      :- Need(config.schema in registry.schemas, SchemaNotFound);
      :- Need(registry.schemas[config.schema].restricted ==> registry.schemas[config.schema].authority in verifiers,
              SchemaAuthorityNotVerifier);
      Ok(Storage(config, false, false, false, 0, 0, 0, 0, 0, map[], map[],
                 set r | r in reviewers, set v | v in verifiers, {}, map[], map[], map[], {}, map[]))
  }

  // ---- money in, applications and votes ----

  function Contribute(w: World, donor: Address, amount: int): Result<World, Error> {
    if w.p.paused then Err(Paused)
    else
      :- RequirePhase(w.p, w.now, Opened);
      :- Need(0 < amount, InvalidAmount);
      var paid :- MoveToken(w, donor, w.self, amount, Deposit);
      :- Need(Get(w.p.donors, donor) + amount <= I128_MAX, Overflow);
      :- Need(w.p.contributed + amount <= I128_MAX, Overflow);
      Ok(paid.(p := w.p.(donors := w.p.donors[donor := Get(w.p.donors, donor) + amount],
                         contributed := w.p.contributed + amount)))
  }

  function Apply(w: World, applicant: Address, requested: int): Result<World, Error> {
    if w.p.paused then Err(Paused)
    else
      :- RequirePhase(w.p, w.now, Opened);
      :- Need(0 < requested, InvalidAmount);
      :- Need(applicant !in w.p.applications, AlreadyApplied);
      Ok(w.(p := w.p.(applications := w.p.applications[applicant := Application(requested, w.now, [], false, false)])))
  }

  function VotesFor(p: Storage, applicant: Address): map<Address, int> {
    if applicant in p.voted then p.voted[applicant] else map[]
  }

  function Reviewed(w: World, reviewer: Address, applicant: Address, approved: int): Result<World, Error> {
    if w.p.paused then Err(Paused)
    else
      :- RequirePhase(w.p, w.now, Review);
      :- Need(reviewer in w.p.reviewers, NotAuthorized);
      :- Need(applicant in w.p.applications, ApplicationNotFound);
      var a := w.p.applications[applicant];
      :- Need(!a.finalized, AlreadyFinalized);
      :- Need(!a.withdrawn, Withdrawn);
      :- Need(0 < approved, InvalidAmount);
      :- Need(approved <= a.requested, ExceedsRequested);
      var ballots := VotesFor(w.p, applicant);
      var kept := if reviewer in ballots then Removed(a.votes, ballots[reviewer]) else a.votes;
      Ok(w.(p := w.p.(
        applications := w.p.applications[applicant := a.(votes := Inserted(kept, approved))],
        voted := w.p.voted[applicant := ballots[reviewer := approved]])))
  }

  function Withdraw(w: World, applicant: Address): Result<World, Error> {
    if applicant !in w.p.applications then Err(ApplicationNotFound)
    else
      var a := w.p.applications[applicant];
      :- Need(!a.finalized, AlreadyFinalized);
      :- Need(!a.withdrawn, Withdrawn);
      Ok(w.(p := w.p.(applications := w.p.applications[applicant := a.(withdrawn := true)])))
  }

  // ---- settling an application ----

  function PayeeGuard(p: Storage, applicant: Address, payee: Address, mode: Mode): Guard<Error> {
    match mode
    case Direct => Need(payee in p.payees, PayeeNotVerified)
    case Open => Need(payee == applicant, OpenPayeeNotRecipient)
    case Allocated => Pass
    case Restricted => Pass
  }

  // What the application would settle on now, or why it cannot.
  function AwardDue(w: World, applicant: Address, payee: Address, mode: Mode): Result<int, Error> {
    if w.p.paused then Err(Paused)
    else
      :- Need(PhaseOf(w.p, w.now) != Abandoned, Cancelled);
      :- Need(PhaseOf(w.p, w.now) != Opened, WrongPhase);
      :- Need(applicant in w.p.applications, ApplicationNotFound);
      var a := w.p.applications[applicant];
      :- Need(!a.finalized, AlreadyFinalized);
      :- Need(!a.withdrawn, Withdrawn);
      // A quorum of zero would trap; the constructor excludes it.
      :- Need(0 < w.p.config.quorum <= |a.votes|, QuorumNotReached);
      var granted := a.votes[AwardIndex(w.p.config.quorum)];
      :- Need(w.p.config.minimumAward <= granted, BelowMinimumAward);
      :- PayeeGuard(w.p, applicant, payee, mode);
      :- Need(w.p.granted + granted <= I128_MAX, Overflow);
      var available :- Available(w.p);
      :- Need(w.p.granted + granted <= available, InsufficientBudget);
      Ok(granted)
  }

  function Finalize(w: World, applicant: Address, payee: Address, mode: Mode): Result<(World, Award), Error> {
    var granted :- AwardDue(w, applicant, payee, mode);
    var a := w.p.applications[applicant];
    var award := Award(applicant, granted, 0, w.p.config.tranches, 0, payee, mode);
    Ok((w.(p := w.p.(
          applications := w.p.applications[applicant := a.(finalized := true)],
          granted := w.p.granted + granted,
          awards := w.p.awards[applicant := award])),
        award))
  }

  // ---- trust sets ----

  function AllowPayee(w: World, payee: Address): Result<World, Error> {
    if payee in w.p.payees then Err(AlreadyPayee)
    else
      Ok(w.(p := w.p.(payees := w.p.payees + {payee})))
  }

  function DenyPayee(w: World, payee: Address): Result<World, Error> {
    if payee !in w.p.payees then Err(NotPayee)
    else
      Ok(w.(p := w.p.(payees := w.p.payees - {payee})))
  }

  function AddVerifier(w: World, verifier: Address): Result<World, Error> {
    if verifier in w.p.verifiers then Err(AlreadyPayee)
    else
      Ok(w.(p := w.p.(verifiers := w.p.verifiers + {verifier})))
  }

  function RemoveVerifier(w: World, verifier: Address): Result<World, Error> {
    if verifier !in w.p.verifiers then Err(NotPayee)
    else
      Ok(w.(p := w.p.(verifiers := w.p.verifiers - {verifier})))
  }

  // ---- money out ----

  function Spend(w: World, recipient: Address, payee: Address, amount: int): Result<(World, int), Error> {
    if w.p.paused then Err(Paused)
    else
      :- Need(w.now < w.p.config.sweepDeadline, SpendWindowClosed);
      :- Need(0 < amount, InvalidAmount);
      :- Need(payee in w.p.payees, PayeeNotVerified);
      var allocation := Get(w.p.allocations, recipient);
      :- Need(amount <= allocation, InsufficientAllocation);
      var paid :- MoveToken(w, w.self, payee, amount, Directed(recipient));
      Ok((paid.(p := w.p.(allocations := w.p.allocations[recipient := allocation - amount])), allocation - amount))
  }

  // The amount of an award's next tranche: the last one takes the remainder.
  function NextTranche(a: Award): int {
    if a.tranchesReleased + 1 == a.tranches then a.granted - a.released
    else if 0 < a.tranches then a.granted / a.tranches
    else 0
  }

  function PayOut(w: World, a: Award, amount: int): (r: Result<World, Error>)
    ensures r.Ok? ==> r.value == w.(balances := r.value.balances, transfers := r.value.transfers,
                                    p := w.p.(allocations := r.value.p.allocations))
  {
    match a.mode
    case Allocated =>
      :- Need(Get(w.p.allocations, a.recipient) + amount <= I128_MAX, Overflow);
      Ok(w.(p := w.p.(allocations := w.p.allocations[a.recipient := Get(w.p.allocations, a.recipient) + amount])))
    case Restricted =>
      :- Need(a.payee in w.installed, PolicyNotInstalled);
      MoveToken(w, w.self, a.payee, amount, Tranche(a.recipient))
    case Direct => MoveToken(w, w.self, a.payee, amount, Tranche(a.recipient))
    case Open => MoveToken(w, w.self, a.payee, amount, Tranche(a.recipient))
  }

  // Write one released tranche of `a` down: the award, the spent proof and the running total.
  function Booked(w: World, recipient: Address, a: Award, uid: Uid): World {
    var amount := NextTranche(a);
    w.(p := w.p.(
      awards := w.p.awards[recipient := a.(tranchesReleased := a.tranchesReleased + 1, released := a.released + amount)],
      used := w.p.used + {uid},
      released := w.p.released + amount))
  }

  function Credited(w: World, recipient: Address, amount: int, uid: Uid): (r: Result<World, Error>)
    ensures r.Ok? ==> r.value == w.(record := r.value.record)
  {
    match Record.CreditTranche(w.codec, w.record, Record.Credit(w.self, recipient, w.self, amount, uid, w.now))
    case Ok(book) => Ok(w.(record := book))
    case Err(e) => Err(CreditRejected(e))
  }

  // Release the next tranche of award `a` against proof `uid`.
  function Disburse(w: World, recipient: Address, a: Award, uid: Uid): Result<World, Error> {
    var amount := NextTranche(a);
    :- Need(w.p.released + amount <= I128_MAX, Overflow);
    var booked := Booked(w, recipient, a, uid);
    var paid :- PayOut(booked, booked.p.awards[recipient], amount);
    Credited(paid, recipient, amount, uid)
  }

  function ReleaseGuard(w: World, attester: Address): Guard<Error> {
    if PhaseOf(w.p, w.now) == Abandoned then Stop(Cancelled)
    else if w.p.config.releaseDeadline <= w.now then Stop(ReleaseWindowClosed)
    else Need(attester in w.p.verifiers, NotAuthorized)
  }

  function ProofGuard(w: World, recipient: Address, uid: Uid, attester: Address): Guard<Error> {
    if uid in w.p.used then Stop(AttestationAlreadyUsed)
    else Need(Attest.Verify(w.attest, w.now, uid, recipient, w.p.config.schema, attester), AttestationInvalid)
  }

  function AwardGuard(w: World, recipient: Address): Guard<Error> {
    if recipient !in w.p.awards then Stop(AwardNotFound)
    else Need(w.p.awards[recipient].tranchesReleased < w.p.awards[recipient].tranches, AwardFullyReleased)
  }

  function Release(w: World, recipient: Address, uid: Uid, attester: Address): Result<(World, int), Error> {
    if w.p.paused then Err(Paused)
    else
      :- ReleaseGuard(w, attester);
      :- ProofGuard(w, recipient, uid, attester);
      :- AwardGuard(w, recipient);
      var a := w.p.awards[recipient];
      var next :- Disburse(w, recipient, a, uid);
      Ok((next, NextTranche(a)))
  }

  // The loop of `release_batch`: the award is not asked again whether it is fully released.
  function ReleaseEach(w: World, recipient: Address, uids: seq<Uid>, attester: Address): Result<(World, int), Error>
    decreases |uids|
  {
    if uids == [] then Ok((w, 0))
    else if recipient !in w.p.awards then Err(AwardNotFound)
    else
      :- ProofGuard(w, recipient, uids[0], attester);
      var a := w.p.awards[recipient];
      var next :- Disburse(w, recipient, a, uids[0]);
      AddTotal(NextTranche(a), ReleaseEach(next, recipient, uids[1..], attester))
  }

  function AddTotal(amount: int, rest: Result<(World, int), Error>): Result<(World, int), Error> {
    match rest
    case Ok(pair) => Ok((pair.0, amount + pair.1))
    case Err(e) => Err(e)
  }

  lemma {:induction false} EachUnfolds(w: World, recipient: Address, uids: seq<Uid>, attester: Address)
    requires uids != [] && recipient in w.p.awards
    ensures ProofGuard(w, recipient, uids[0], attester).Stop? ==>
              ReleaseEach(w, recipient, uids, attester) == Err(ProofGuard(w, recipient, uids[0], attester).error)
    ensures ProofGuard(w, recipient, uids[0], attester).Pass? ==>
              var a := w.p.awards[recipient];
              var next := Disburse(w, recipient, a, uids[0]);
              && (next.Err? ==> ReleaseEach(w, recipient, uids, attester) == Err(next.error))
              && (next.Ok? ==> ReleaseEach(w, recipient, uids, attester) ==
                               AddTotal(NextTranche(a), ReleaseEach(next.value, recipient, uids[1..], attester)))
  {
  }

  lemma {:induction false} EachOfNone(w: World, recipient: Address, attester: Address)
    ensures ReleaseEach(w, recipient, [], attester) == Ok((w, 0))
  {
  }

  function ReleaseBatch(w: World, recipient: Address, uids: seq<Uid>, attester: Address): Result<(World, int), Error> {
    if MAX_PAYEE_BATCH < |uids| then Err(BatchTooLarge)
    else
      :- Need(uids != [], InvalidAmount);
      :- ReleaseGuard(w, attester);
      :- AwardGuard(w, recipient);
      ReleaseEach(w, recipient, uids, attester)
  }

  function SweepFee(w: World): Result<(World, int), Error> {
    if PhaseOf(w.p, w.now) == Opened then Err(WrongPhase)
    else
      :- Need(!w.p.feeSwept, FeeAlreadySwept);
      :- Need(w.p.contributed * w.p.config.feeBps <= I128_MAX, Overflow);
      var fee := FeeOn(w.p.contributed, w.p.config.feeBps);
      var marked := w.(p := w.p.(feeSwept := true));
      if fee <= 0 then Ok((marked, fee))
      else
        var paid :- MoveToken(marked, w.self, w.p.config.treasury, fee, Fee);
        Ok((paid, fee))
  }

  predicate RefundsOpen(w: World) {
    w.p.cancelled || w.p.config.releaseDeadline <= w.now
  }

  // What one claim pays: all that is left of the donor's share, or `requested` of it.
  function RefundDue(w: World, donor: Address, requested: Option<int>): Result<int, Error> {
    if requested.Some? && requested.value <= 0 then Err(InvalidAmount)
    else
      :- Need(RefundsOpen(w), RefundsNotOpen);
      var contributed := Get(w.p.donors, donor);
      :- Need(contributed != 0, NothingToRefund);
      var available :- Available(w.p);
      var unpaid := available - w.p.released;
      :- Need(0 < unpaid, NothingToRefund);
      :- Need(contributed * unpaid <= I128_MAX && 0 < w.p.contributed, Overflow);
      var share := contributed * unpaid / w.p.contributed;
      :- Need(0 < share, NothingToRefund);
      var remaining := share - Get(w.p.refunded, donor);
      :- Need(0 < remaining, AlreadyRefunded);
      :- Need(requested.Some? ==> requested.value <= remaining, InvalidAmount);
      Ok(if requested.Some? then requested.value else remaining)
  }

  function ClaimRefund(w: World, donor: Address, requested: Option<int>): Result<(World, int), Error> {
    var amount :- RefundDue(w, donor, requested);
    :- Need(w.p.refundedTotal + amount <= I128_MAX, Overflow);
    var paid :- MoveToken(w, w.self, donor, amount, Refund);
    Ok((paid.(p := w.p.(refunded := w.p.refunded[donor := Get(w.p.refunded, donor) + amount],
                        refundedTotal := w.p.refundedTotal + amount)),
        amount))
  }

  function SweepUnclaimed(w: World): Result<(World, int), Error> {
    if w.now < w.p.config.sweepDeadline then Err(SweepNotOpen)
    else
      var remaining := Get(w.balances, w.self);
      :- Need(0 < remaining, NothingToSweep);
      var paid :- MoveToken(w, w.self, w.p.config.treasury, remaining, Sweep);
      :- Need(w.p.sweptTotal + remaining <= I128_MAX, Overflow);
      Ok((paid.(p := w.p.(feeSwept := true, sweptTotal := w.p.sweptTotal + remaining)), remaining))
  }

  // ---- the creator's controls ----

  function Cancel(w: World): Result<World, Error> {
    if w.p.cancelled then Err(Cancelled)
    else
      :- Need(w.p.released == 0, NotCancellable);
      Ok(w.(p := w.p.(cancelled := true)))
  }

  function ExtendReleaseDeadline(w: World, deadline: nat): Result<World, Error> {
    if w.p.config.releaseDeadline <= w.now then Err(RefundsNotOpen)
    else
      :- Need(w.p.config.releaseDeadline < deadline, InvalidDeadlines);
      var sweep := if w.p.config.sweepDeadline < deadline then deadline else w.p.config.sweepDeadline;
      Ok(w.(p := w.p.(config := w.p.config.(releaseDeadline := deadline, sweepDeadline := sweep))))
  }

  function Pause(w: World): Result<World, Error> {
    if w.p.paused then Err(Paused)
    else
      :- Need(!w.p.cancelled, Cancelled);
      Ok(w.(p := w.p.(paused := true)))
  }

  function Unpause(w: World): Result<World, Error> {
    Ok(w.(p := w.p.(paused := false)))
  }

  // ---- runs ----

  // The entry points, and what the rest of the ledger may do in between.
  datatype Call =
    | CallContribute(donor: Address, amount: int)
    | CallApply(applicant: Address, requested: int)
    | CallReview(reviewer: Address, applicant: Address, approved: int)
    | CallWithdraw(applicant: Address)
    | CallFinalize(applicant: Address, payee: Address, mode: Mode)
    | CallAllowPayee(payee: Address)
    | CallDenyPayee(payee: Address)
    | CallAddVerifier(verifier: Address)
    | CallRemoveVerifier(verifier: Address)
    | CallSpend(recipient: Address, payee: Address, amount: int)
    | CallRelease(recipient: Address, uid: Uid, attester: Address)
    | CallReleaseBatch(recipient: Address, uids: seq<Uid>, attester: Address)
    | CallSweepFee
    | CallRefund(donor: Address, asked: Option<int>)
    | CallSweepUnclaimed
    | CallCancel
    | CallExtendReleaseDeadline(deadline: nat)
    | CallPause
    | CallUnpause
    | Tick(later: nat)
    | AttestStep(attestCall: Attest.Call)
    | RecordStep(recordCall: Record.Call)
    | SetInstalled(wallets: set<Address>)
    | TokenMove(from: Address, to: Address, amount: int)

  function First<A, B, E>(r: Result<(A, B), E>): Result<A, E> {
    match r
    case Ok(pair) => Ok(pair.0)
    case Err(e) => Err(e)
  }

  function Step(w: World, call: Call): Result<World, Error> {
    match call
    case CallContribute(d, n) => Contribute(w, d, n)
    case CallApply(a, n) => Apply(w, a, n)
    case CallReview(r, a, n) => Reviewed(w, r, a, n)
    case CallWithdraw(a) => Withdraw(w, a)
    case CallFinalize(a, p, m) => First(Finalize(w, a, p, m))
    case CallAllowPayee(p) => AllowPayee(w, p)
    case CallDenyPayee(p) => DenyPayee(w, p)
    case CallAddVerifier(v) => AddVerifier(w, v)
    case CallRemoveVerifier(v) => RemoveVerifier(w, v)
    case CallSpend(r, p, n) => First(Spend(w, r, p, n))
    case CallRelease(r, u, a) => First(Release(w, r, u, a))
    case CallReleaseBatch(r, us, a) => First(ReleaseBatch(w, r, us, a))
    case CallSweepFee => First(SweepFee(w))
    case CallRefund(d, n) => First(ClaimRefund(w, d, n))
    case CallSweepUnclaimed => First(SweepUnclaimed(w))
    case CallCancel => Cancel(w)
    case CallExtendReleaseDeadline(t) => ExtendReleaseDeadline(w, t)
    case CallPause => Pause(w)
    case CallUnpause => Unpause(w)
    case Tick(t) => Ok(w.(now := if w.now < t then t else w.now))
    case AttestStep(c) => Ok(w.(attest := Attest.Next(w.attest, w.now, c)))
    case RecordStep(c) => Ok(w.(record := Record.Next(w.codec, w.record, c)))
    case SetInstalled(s) => Ok(w.(installed := s))
    case TokenMove(f, t, n) => MoveToken(w, f, t, n, Outside)
  }

  function Next(w: World, call: Call): World {
    match Step(w, call)
    case Ok(next) => next
    case Err(_) => w
  }

  // Nobody else can sign for the programme: not to give, to move its tokens, or to credit as it.
  predicate Legal(w: World, call: Call) {
    match call
    case CallContribute(d, _) => d != w.self
    case TokenMove(f, _, _) => f != w.self
    case RecordStep(CallCredit(c)) => c.writer != w.self && c.at == w.now && Record.WellTyped(Record.CallCredit(c))
    case Tick(t) => t <= U64_MAX
    case _ => true
  }

  // The world after a sequence of calls.
  function Exec(w: World, calls: seq<Call>): World
    decreases |calls|
  {
    if calls == [] then w
    else Next(Exec(w, calls[..|calls| - 1]), calls[|calls| - 1])
  }

  predicate AllLegal(w: World, calls: seq<Call>)
    decreases |calls|
  {
    calls == [] ||
    (AllLegal(w, calls[..|calls| - 1]) && Legal(Exec(w, calls[..|calls| - 1]), calls[|calls| - 1]))
  }

  // A programme just constructed, holding nothing yet.
  ghost predicate Deployed(w: World) {
    && (exists reviewers, verifiers :: Create(w.p.config, reviewers, verifiers, w.attest, w.now) == Ok(w.p))
    && Get(w.balances, w.self) == 0
    && w.transfers == []
    && w.now <= U64_MAX && w.p.config.sweepDeadline <= U64_MAX
    && Record.BookSound(w.codec, w.record)
    && Attest.Sound(w.attest)
    && (forall i :: 0 <= i < |w.record.credits| ==> w.record.credits[i].writer != w.self)
  }
}
