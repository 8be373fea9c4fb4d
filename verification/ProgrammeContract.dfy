// The contract itself: storage entries updated in place by each entry point, on a host that
// undoes a call that fails.
module ProgrammeContract {
  import opened Results
  import opened Ledger
  import opened MapSums
  import opened Votes
  import opened HashChain
  import opened Programme
  import Attest
  import Record

  class Contract {
    const self: Address
    const codec: Codec

    // The contract's storage entries.
    var p: Storage

    // The host: its clock, the token and the contracts called from here.
    var now: nat
    var balances: map<Address, int>
    var transfers: seq<Transfer>
    var attest: Attest.Registry
    var record: Record.Book
    var installed: set<Address>

    function View(): World
      reads this
    {
      World(self, now, balances, transfers, attest, codec, record, installed, p)
    }

    constructor (w: World)
      ensures View() == w
    {
      self, codec, p := w.self, w.codec, w.p;
      now, balances, transfers := w.now, w.balances, w.transfers;
      attest, record, installed := w.attest, w.record, w.installed;
    }

    // What the host does when a call fails.
    method Rollback(w: World)
      requires w.self == self && w.codec == codec
      modifies this
      ensures View() == w
    {
      p, now, balances, transfers := w.p, w.now, w.balances, w.transfers;
      attest, record, installed := w.attest, w.record, w.installed;
    }

    method TransferToken(from: Address, to: Address, amount: int, reason: Reason) returns (r: Result<(), Error>)
      modifies this
      ensures match MoveToken(old(View()), from, to, amount, reason)
              case Ok(next) => r.Ok? && View() == next
              case Err(e) => r == Err(e)
    {
      if amount < 0 || Get(balances, from) < amount {
        return Err(TokenFailed);
      }
      balances := balances[from := Get(balances, from) - amount];
      balances := balances[to := Get(balances, to) + amount];
      transfers := transfers + [Transfer(from, to, amount, reason)];
      r := Ok(());
    }

    method Contribute(donor: Address, amount: int) returns (r: Result<(), Error>)
      modifies this
      ensures match Programme.Contribute(old(View()), donor, amount)
              case Ok(next) => r.Ok? && View() == next
              case Err(e) => r == Err(e)
    {
      if p.paused {
        return Err(Paused);
      }
      var phase := RequirePhase(p, now, Opened);
      if phase.Stop? {
        return Err(phase.error);
      }
      if amount <= 0 {
        return Err(InvalidAmount);
      }
      var paid := TransferToken(donor, self, amount, Deposit);
      if paid.Err? {
        return paid;
      }
      var prior := Get(p.donors, donor);
      if prior + amount > I128_MAX {
        return Err(Overflow);
      }
      p := p.(donors := p.donors[donor := prior + amount]);
      if p.contributed + amount > I128_MAX {
        return Err(Overflow);
      }
      p := p.(contributed := p.contributed + amount);
      r := Ok(());
    }

    method Apply(applicant: Address, requested: int) returns (r: Result<(), Error>)
      modifies this
      ensures match Programme.Apply(old(View()), applicant, requested)
              case Ok(next) => r.Ok? && View() == next
              case Err(e) => r == Err(e)
    {
      if p.paused {
        return Err(Paused);
      }
      var phase := RequirePhase(p, now, Opened);
      if phase.Stop? {
        return Err(phase.error);
      }
      if requested <= 0 {
        return Err(InvalidAmount);
      }
      if applicant in p.applications {
        return Err(AlreadyApplied);
      }
      p := p.(applications := p.applications[applicant := Application(requested, now, [], false, false)]);
      r := Ok(());
    }

    method CastVote(reviewer: Address, applicant: Address, approved: int) returns (r: Result<(), Error>)
      modifies this
      ensures match Reviewed(old(View()), reviewer, applicant, approved)
              case Ok(next) => r.Ok? && View() == next
              case Err(e) => r == Err(e)
    {
      if p.paused {
        return Err(Paused);
      }
      var phase := RequirePhase(p, now, Review);
      if phase.Stop? {
        return Err(phase.error);
      }
      if reviewer !in p.reviewers {
        return Err(NotAuthorized);
      }
      if applicant !in p.applications {
        return Err(ApplicationNotFound);
      }
      var application := p.applications[applicant];
      if application.finalized {
        return Err(AlreadyFinalized);
      }
      if application.withdrawn {
        return Err(Withdrawn);
      }
      if approved <= 0 {
        return Err(InvalidAmount);
      }
      if approved > application.requested {
        return Err(ExceedsRequested);
      }
      var ballots := VotesFor(p, applicant);
      var votes := application.votes;
      if reviewer in ballots {
        votes := RemoveVote(votes, ballots[reviewer]);
      }
      votes := InsertVote(votes, approved);
      p := p.(applications := p.applications[applicant := application.(votes := votes)]);
      p := p.(voted := p.voted[applicant := ballots[reviewer := approved]]);
      r := Ok(());
    }

    method WithdrawApplication(applicant: Address) returns (r: Result<(), Error>)
      modifies this
      ensures match Withdraw(old(View()), applicant)
              case Ok(next) => r.Ok? && View() == next
              case Err(e) => r == Err(e)
    {
      if applicant !in p.applications {
        return Err(ApplicationNotFound);
      }
      var application := p.applications[applicant];
      if application.finalized {
        return Err(AlreadyFinalized);
      }
      if application.withdrawn {
        return Err(Withdrawn);
      }
      p := p.(applications := p.applications[applicant := application.(withdrawn := true)]);
      r := Ok(());
    }

    // Every check of `finalize`: nothing is written before the budget has been found to cover it.
    method CheckAward(applicant: Address, payee: Address, mode: Mode) returns (r: Result<int, Error>)
      ensures r == AwardDue(View(), applicant, payee, mode)
    {
      if p.paused {
        return Err(Paused);
      }
      match PhaseOf(p, now) {
        case Review =>
        case Settled =>
        case Abandoned => return Err(Cancelled);
        case Opened => return Err(WrongPhase);
      }
      if applicant !in p.applications {
        return Err(ApplicationNotFound);
      }
      var application := p.applications[applicant];
      if application.finalized {
        return Err(AlreadyFinalized);
      }
      if application.withdrawn {
        return Err(Withdrawn);
      }
      if p.config.quorum == 0 || |application.votes| < p.config.quorum {
        return Err(QuorumNotReached);
      }
      var amount := application.votes[(p.config.quorum - 1) / 2];
      if amount < p.config.minimumAward {
        return Err(BelowMinimumAward);
      }
      var destination := PayeeGuard(p, applicant, payee, mode);
      if destination.Stop? {
        return Err(destination.error);
      }
      var committed := p.granted + amount;
      if committed > I128_MAX {
        return Err(Overflow);
      }
      var available := Available(p);
      if available.Err? {
        return Err(available.error);
      }
      if committed > available.value {
        return Err(InsufficientBudget);
      }
      r := Ok(amount);
    }

    method Settle(applicant: Address, payee: Address, mode: Mode) returns (r: Result<Award, Error>)
      modifies this
      ensures match Finalize(old(View()), applicant, payee, mode)
              case Ok((next, award)) => r == Ok(award) && View() == next
              case Err(e) => r == Err(e)
    {
      var amount := CheckAward(applicant, payee, mode);
      if amount.Err? {
        return Err(amount.error);
      }
      var application := p.applications[applicant];
      application := application.(finalized := true);
      p := p.(applications := p.applications[applicant := application]);
      p := p.(granted := p.granted + amount.value);
      var award := Award(applicant, amount.value, 0, p.config.tranches, 0, payee, mode);
      p := p.(awards := p.awards[applicant := award]);
      r := Ok(award);
    }

    method SpendAllocation(recipient: Address, payee: Address, amount: int) returns (r: Result<int, Error>)
      modifies this
      ensures match Spend(old(View()), recipient, payee, amount)
              case Ok((next, left)) => r == Ok(left) && View() == next
              case Err(e) => r == Err(e)
    {
      if p.paused {
        return Err(Paused);
      }
      if now >= p.config.sweepDeadline {
        return Err(SpendWindowClosed);
      }
      if amount <= 0 {
        return Err(InvalidAmount);
      }
      if payee !in p.payees {
        return Err(PayeeNotVerified);
      }
      var allocation := Get(p.allocations, recipient);
      if allocation < amount {
        return Err(InsufficientAllocation);
      }
      var remaining := allocation - amount;
      p := p.(allocations := p.allocations[recipient := remaining]);
      var paid := TransferToken(self, payee, amount, Directed(recipient));
      if paid.Err? {
        return Err(paid.error);
      }
      r := Ok(remaining);
    }

    // Put one released tranche where its mode says it goes.
    method PayTranche(award: Award, amount: int) returns (r: Result<(), Error>)
      modifies this
      ensures match PayOut(old(View()), award, amount)
              case Ok(next) => r.Ok? && View() == next
              case Err(e) => r == Err(e)
    {
      match award.mode {
        case Allocated =>
          var allocation := Get(p.allocations, award.recipient) + amount;
          if allocation > I128_MAX {
            return Err(Overflow);
          }
          p := p.(allocations := p.allocations[award.recipient := allocation]);
          r := Ok(());
        case Restricted =>
          if award.payee !in installed {
            return Err(PolicyNotInstalled);
          }
          r := TransferToken(self, award.payee, amount, Tranche(award.recipient));
        case Direct =>
          r := TransferToken(self, award.payee, amount, Tranche(award.recipient));
        case Open =>
          r := TransferToken(self, award.payee, amount, Tranche(award.recipient));
      }
    }

    // The tranche an award has come to: the last takes the remainder.
    method CountTranche(award: Award) returns (amount: int, updated: Award)
      ensures amount == NextTranche(award)
      ensures updated == award.(tranchesReleased := award.tranchesReleased + 1, released := award.released + amount)
    {
      updated := award.(tranchesReleased := award.tranchesReleased + 1);
      amount := 0;
      if updated.tranchesReleased == updated.tranches {
        amount := updated.granted - updated.released;
      } else if updated.tranches > 0 {
        amount := updated.granted / updated.tranches;
      }
      updated := updated.(released := updated.released + amount);
    }

    // Write one tranche down: the award, the spent proof and the running total.
    method BookTranche(recipient: Address, award: Award, uid: Uid) returns (r: Result<int, Error>, updated: Award)
      modifies this
      ensures r == if old(p.released) + NextTranche(award) <= I128_MAX then Ok(NextTranche(award)) else Err(Overflow)
      ensures r.Ok? ==> View() == Booked(old(View()), recipient, award, uid) && updated == p.awards[recipient]
    {
      hide NextTranche;
      var amount;
      amount, updated := CountTranche(award);
      p := p.(awards := p.awards[recipient := updated]);
      p := p.(used := p.used + {uid});
      if p.released + amount > I128_MAX {
        return Err(Overflow), updated;
      }
      p := p.(released := p.released + amount);
      r := Ok(amount);
    }

    method CreditStanding(recipient: Address, amount: int, uid: Uid) returns (r: Result<(), Error>)
      modifies this
      ensures match Credited(old(View()), recipient, amount, uid)
              case Ok(next) => r.Ok? && View() == next
              case Err(e) => r == Err(e)
    {
      var credit := Record.CreditTranche(codec, record, Record.Credit(self, recipient, self, amount, uid, now));
      if credit.Err? {
        return Err(CreditRejected(credit.error));
      }
      record := credit.value;
      r := Ok(());
    }

    // The part of a release that writes: the books, the payment, the credit.
    method ReleaseTranche(recipient: Address, award: Award, uid: Uid) returns (r: Result<int, Error>, updated: Award)
      modifies this
      ensures match Disburse(old(View()), recipient, award, uid)
              case Ok(next) => r == Ok(NextTranche(award)) && View() == next && next.p.awards == old(p.awards)[recipient := updated]
              case Err(e) => r == Err(e)
    {
      hide PayOut, Credited, NextTranche;
      r, updated := BookTranche(recipient, award, uid);
      if r.Err? {
        return r, updated;
      }
      var paid := PayTranche(updated, r.value);
      if paid.Err? {
        return Err(paid.error), updated;
      }
      var credited := CreditStanding(recipient, r.value, uid);
      if credited.Err? {
        return Err(credited.error), updated;
      }
    }

    method ReleaseOne(recipient: Address, uid: Uid, attester: Address) returns (r: Result<int, Error>)
      modifies this
      ensures match Release(old(View()), recipient, uid, attester)
              case Ok((next, amount)) => r == Ok(amount) && View() == next
              case Err(e) => r == Err(e)
    {
      if p.paused {
        return Err(Paused);
      }
      if PhaseOf(p, now) == Abandoned {
        return Err(Cancelled);
      }
      if now >= p.config.releaseDeadline {
        return Err(ReleaseWindowClosed);
      }
      if attester !in p.verifiers {
        return Err(NotAuthorized);
      }
      if uid in p.used {
        return Err(AttestationAlreadyUsed);
      }
      if !Attest.Verify(attest, now, uid, recipient, p.config.schema, attester) {
        return Err(AttestationInvalid);
      }
      if recipient !in p.awards {
        return Err(AwardNotFound);
      }
      var award := p.awards[recipient];
      if award.tranchesReleased >= award.tranches {
        return Err(AwardFullyReleased);
      }
      r, award := ReleaseTranche(recipient, award, uid);
    }

    // All proofs or none: the award is read once, kept in a local and written every round.
    method ReleaseMany(recipient: Address, uids: seq<Uid>, attester: Address) returns (r: Result<int, Error>)
      modifies this
      ensures match ReleaseBatch(old(View()), recipient, uids, attester)
              case Ok((next, total)) => r == Ok(total) && View() == next
              case Err(e) => r == Err(e)
    {
      if |uids| > MAX_PAYEE_BATCH {
        return Err(BatchTooLarge);
      }
      if |uids| == 0 {
        return Err(InvalidAmount);
      }
      var guard := ReleaseGuard(View(), attester);
      if guard.Stop? {
        return Err(guard.error);
      }
      if recipient !in p.awards {
        return Err(AwardNotFound);
      }
      var award := p.awards[recipient];
      if award.tranchesReleased >= award.tranches {
        return Err(AwardFullyReleased);
      }
      r := ReleaseProofs(recipient, award, uids, attester);
    }

    method ReleaseProofs(recipient: Address, held: Award, uids: seq<Uid>, attester: Address) returns (r: Result<int, Error>)
      requires recipient in p.awards && p.awards[recipient] == held
      modifies this
      ensures match ReleaseEach(old(View()), recipient, uids, attester)
              case Ok((next, total)) => r == Ok(total) && View() == next
              case Err(e) => r == Err(e)
    {
      hide Disburse, ReleaseEach, ProofGuard, NextTranche;
      var award := held;
      var total := 0;
      var i := 0;
      ghost var all := ReleaseEach(View(), recipient, uids, attester);
      assert uids[0..] == uids;
      while i < |uids|
        invariant 0 <= i <= |uids|
        invariant recipient in p.awards && award == p.awards[recipient]
        invariant all == AddTotal(total, ReleaseEach(View(), recipient, uids[i..], attester))
      {
        ghost var rest := uids[i..];
        EachUnfolds(View(), recipient, rest, attester);
        assert rest[0] == uids[i] && rest[1..] == uids[i + 1..];
        var proof := ProofGuard(View(), recipient, uids[i], attester);
        if proof.Stop? {
          return Err(proof.error);
        }
        var amount;
        amount, award := ReleaseTranche(recipient, award, uids[i]);
        if amount.Err? {
          return Err(amount.error);
        }
        total := total + amount.value;
        i := i + 1;
      }
      assert uids[i..] == [];
      EachOfNone(View(), recipient, attester);
      r := Ok(total);
    }

    method SweepProtocolFee() returns (r: Result<int, Error>)
      modifies this
      ensures match SweepFee(old(View()))
              case Ok((next, fee)) => r == Ok(fee) && View() == next
              case Err(e) => r == Err(e)
    {
      if PhaseOf(p, now) == Opened {
        return Err(WrongPhase);
      }
      if p.feeSwept {
        return Err(FeeAlreadySwept);
      }
      if p.contributed * p.config.feeBps > I128_MAX {
        return Err(Overflow);
      }
      var fee := p.contributed * p.config.feeBps / BPS_DENOMINATOR;
      p := p.(feeSwept := true);
      if fee > 0 {
        var paid := TransferToken(self, p.config.treasury, fee, Fee);
        if paid.Err? {
          return Err(paid.error);
        }
      }
      r := Ok(fee);
    }

    // The share still due to a donor, and the amount one claim takes of it.
    method CheckRefund(donor: Address, requested: Option<int>) returns (r: Result<int, Error>)
      ensures r == RefundDue(View(), donor, requested)
    {
      if requested.Some? && requested.value <= 0 {
        return Err(InvalidAmount);
      }
      if PhaseOf(p, now) != Abandoned && now < p.config.releaseDeadline {
        return Err(RefundsNotOpen);
      }
      var mine := Get(p.donors, donor);
      if mine == 0 {
        return Err(NothingToRefund);
      }
      var available := Available(p);
      if available.Err? {
        return Err(available.error);
      }
      var unpaid := available.value - p.released;
      if unpaid <= 0 {
        return Err(NothingToRefund);
      }
      if mine * unpaid > I128_MAX || p.contributed <= 0 {
        return Err(Overflow);
      }
      var totalShare := mine * unpaid / p.contributed;
      if totalShare <= 0 {
        return Err(NothingToRefund);
      }
      var claimed := Get(p.refunded, donor);
      var remaining := totalShare - claimed;
      if remaining <= 0 {
        return Err(AlreadyRefunded);
      }
      var amount := remaining;
      if requested.Some? {
        if requested.value > remaining {
          return Err(InvalidAmount);
        }
        amount := requested.value;
      }
      r := Ok(amount);
    }

    method ExecuteRefund(donor: Address, requested: Option<int>) returns (r: Result<int, Error>)
      modifies this
      ensures match ClaimRefund(old(View()), donor, requested)
              case Ok((next, amount)) => r == Ok(amount) && View() == next
              case Err(e) => r == Err(e)
    {
      hide RefundDue, Moved;
      var due := CheckRefund(donor, requested);
      if due.Err? {
        return due;
      }
      var amount := due.value;
      p := p.(refunded := p.refunded[donor := Get(p.refunded, donor) + amount]);
      if p.refundedTotal + amount > I128_MAX {
        return Err(Overflow);
      }
      p := p.(refundedTotal := p.refundedTotal + amount);
      var paid := TransferToken(self, donor, amount, Refund);
      if paid.Err? {
        return Err(paid.error);
      }
      r := Ok(amount);
    }

    method SweepRemainder() returns (r: Result<int, Error>)
      modifies this
      ensures match SweepUnclaimed(old(View()))
              case Ok((next, amount)) => r == Ok(amount) && View() == next
              case Err(e) => r == Err(e)
    {
      if now < p.config.sweepDeadline {
        return Err(SweepNotOpen);
      }
      var remaining := Get(balances, self);
      if !p.feeSwept {
        p := p.(feeSwept := true);
      }
      if remaining <= 0 {
        return Err(NothingToSweep);
      }
      var paid := TransferToken(self, p.config.treasury, remaining, Sweep);
      if paid.Err? {
        return Err(TokenFailed);
      }
      if p.sweptTotal + remaining > I128_MAX {
        return Err(Overflow);
      }
      p := p.(sweptTotal := p.sweptTotal + remaining);
      r := Ok(remaining);
    }

    method CancelProgramme() returns (r: Result<(), Error>)
      modifies this
      ensures match Cancel(old(View()))
              case Ok(next) => r.Ok? && View() == next
              case Err(e) => r == Err(e)
    {
      if p.cancelled {
        return Err(Cancelled);
      }
      if p.released != 0 {
        return Err(NotCancellable);
      }
      p := p.(cancelled := true);
      r := Ok(());
    }

    method ExtendDeadline(deadline: nat) returns (r: Result<(), Error>)
      modifies this
      ensures match ExtendReleaseDeadline(old(View()), deadline)
              case Ok(next) => r.Ok? && View() == next
              case Err(e) => r == Err(e)
    {
      if now >= p.config.releaseDeadline {
        return Err(RefundsNotOpen);
      }
      if deadline <= p.config.releaseDeadline {
        return Err(InvalidDeadlines);
      }
      var sweep := p.config.sweepDeadline;
      if deadline > p.config.sweepDeadline {
        sweep := deadline;
      }
      p := p.(config := p.config.(releaseDeadline := deadline, sweepDeadline := sweep));
      r := Ok(());
    }

    method SetPaused(on: bool) returns (r: Result<(), Error>)
      modifies this
      ensures match if on then Pause(old(View())) else Unpause(old(View()))
              case Ok(next) => r.Ok? && View() == next
              case Err(e) => r == Err(e)
    {
      if on {
        if p.paused {
          return Err(Paused);
        }
        if p.cancelled {
          return Err(Cancelled);
        }
      }
      p := p.(paused := on);
      r := Ok(());
    }

    method SetPayee(payee: Address, verified: bool) returns (r: Result<(), Error>)
      modifies this
      ensures match if verified then AllowPayee(old(View()), payee) else DenyPayee(old(View()), payee)
              case Ok(next) => r.Ok? && View() == next
              case Err(e) => r == Err(e)
    {
      if verified {
        if payee in p.payees {
          return Err(AlreadyPayee);
        }
        p := p.(payees := p.payees + {payee});
      } else {
        if payee !in p.payees {
          return Err(NotPayee);
        }
        p := p.(payees := p.payees - {payee});
      }
      r := Ok(());
    }

    method SetVerifier(verifier: Address, trusted: bool) returns (r: Result<(), Error>)
      modifies this
      ensures match if trusted then AddVerifier(old(View()), verifier) else RemoveVerifier(old(View()), verifier)
              case Ok(next) => r.Ok? && View() == next
              case Err(e) => r == Err(e)
    {
      if trusted {
        if verifier in p.verifiers {
          return Err(AlreadyPayee);
        }
        p := p.(verifiers := p.verifiers + {verifier});
      } else {
        if verifier !in p.verifiers {
          return Err(NotPayee);
        }
        p := p.(verifiers := p.verifiers - {verifier});
      }
      r := Ok(());
    }
    // Dispatch of the calls that move money or settle awards ...
    method Perform(call: Call) returns (ok: bool)
      requires IsEntryPoint(call) && !IsCreatorControl(call)
      modifies this
      ensures ok <==> Step(old(View()), call).Ok?
      ensures ok ==> View() == Step(old(View()), call).value
    {
      hide Programme.Contribute, Programme.Apply, Reviewed, Withdraw, Finalize, Spend, Release, ReleaseBatch;
      hide SweepFee, ClaimRefund, SweepUnclaimed;
      match call {
        case CallContribute(d, n) => var r := Contribute(d, n); ok := r.Ok?;
        case CallApply(a, n) => var r := Apply(a, n); ok := r.Ok?;
        case CallReview(v, a, n) => var r := CastVote(v, a, n); ok := r.Ok?;
        case CallWithdraw(a) => var r := WithdrawApplication(a); ok := r.Ok?;
        case CallFinalize(a, to, m) => var r := Settle(a, to, m); ok := r.Ok?;
        case CallSpend(a, to, n) => var r := SpendAllocation(a, to, n); ok := r.Ok?;
        case CallRelease(a, u, v) => var r := ReleaseOne(a, u, v); ok := r.Ok?;
        case CallReleaseBatch(a, us, v) => var r := ReleaseMany(a, us, v); ok := r.Ok?;
        case CallSweepFee => var r := SweepProtocolFee(); ok := r.Ok?;
        case CallRefund(d, n) => var r := ExecuteRefund(d, n); ok := r.Ok?;
        case CallSweepUnclaimed => var r := SweepRemainder(); ok := r.Ok?;
      }
    }

    // ... and of the creator's controls.
    method Control(call: Call) returns (ok: bool)
      requires IsCreatorControl(call)
      modifies this
      ensures ok <==> Step(old(View()), call).Ok?
      ensures ok ==> View() == Step(old(View()), call).value
    {
      hide Cancel, ExtendReleaseDeadline, Pause, Unpause, AllowPayee, DenyPayee, AddVerifier, RemoveVerifier;
      match call {
        case CallAllowPayee(a) => var r := SetPayee(a, true); ok := r.Ok?;
        case CallDenyPayee(a) => var r := SetPayee(a, false); ok := r.Ok?;
        case CallAddVerifier(v) => var r := SetVerifier(v, true); ok := r.Ok?;
        case CallRemoveVerifier(v) => var r := SetVerifier(v, false); ok := r.Ok?;
        case CallCancel => var r := CancelProgramme(); ok := r.Ok?;
        case CallExtendReleaseDeadline(t) => var r := ExtendDeadline(t); ok := r.Ok?;
        case CallPause => var r := SetPaused(true); ok := r.Ok?;
        case CallUnpause => var r := SetPaused(false); ok := r.Ok?;
      }
    }

    // One transaction: the entry point runs, and the host undoes everything it wrote if it fails.
    method Invoke(call: Call) returns (ok: bool)
      requires IsEntryPoint(call)
      modifies this
      ensures View() == Next(old(View()), call)
      ensures ok <==> Step(old(View()), call).Ok?
    {
      hide Step;
      var before := View();
      if IsCreatorControl(call) {
        ok := Control(call);
      } else {
        ok := Perform(call);
      }
      if !ok {
        Rollback(before);
      }
    }
  }

  predicate IsCreatorControl(call: Call) {
    || call.CallAllowPayee? || call.CallDenyPayee? || call.CallAddVerifier? || call.CallRemoveVerifier?
    || call.CallCancel? || call.CallExtendReleaseDeadline? || call.CallPause? || call.CallUnpause?
  }

  predicate IsEntryPoint(call: Call) {
    !call.Tick? && !call.AttestStep? && !call.RecordStep? && !call.SetInstalled? && !call.TokenMove?
  }
}
