// The programme's books against the contracts it calls: payments and escrow per award, credits in the
// standing record, and the proofs behind them.
module ProgrammeBooks {
  import opened Results
  import opened Ledger
  import opened MapSums
  import opened HashChain
  import opened Votes
  import opened Programme
  import opened ProgrammeTerms
  import opened ProgrammeVotes
  import opened ProgrammeAwards
  import opened ProgrammeTranches
  import opened ProgrammeRuns
  import Attest
  import Record

  // ---- each award's amount, paid out or in escrow ----

  function PaidFor(transfers: seq<Transfer>, r: Address): int {
    if transfers == [] then 0
    else
      var t := transfers[|transfers| - 1];
      PaidFor(transfers[..|transfers| - 1], r) + if t.reason == Tranche(r) then t.amount else 0
  }

  function SpentFor(transfers: seq<Transfer>, r: Address): int {
    if transfers == [] then 0
    else
      var t := transfers[|transfers| - 1];
      SpentFor(transfers[..|transfers| - 1], r) + if t.reason == Directed(r) then t.amount else 0
  }

  function ReleasedTo(p: Storage, r: Address): int {
    if r in p.awards then p.awards[r].released else 0
  }

  predicate Escrowed(p: Storage, r: Address) {
    r in p.awards && p.awards[r].mode == Allocated
  }

  // What an award released was paid out tranche by tranche, or sits in escrow less what was directed.
  ghost predicate Accounted(w: World, r: Address) {
    && PaidFor(w.transfers, r) == (if Escrowed(w.p, r) then 0 else ReleasedTo(w.p, r))
    && Get(w.p.allocations, r) == (if Escrowed(w.p, r) then ReleasedTo(w.p, r) else 0) - SpentFor(w.transfers, r)
  }

  ghost predicate AllAccounted(w: World) {
    forall r :: Accounted(w, r)
  }

  lemma {:induction false} MovePays(w: World, from: Address, to: Address, amount: int, reason: Reason, r: Address)
    requires MoveToken(w, from, to, amount, reason).Ok?
    ensures var v := MoveToken(w, from, to, amount, reason).value;
            && PaidFor(v.transfers, r) == PaidFor(w.transfers, r) + (if reason == Tranche(r) then amount else 0)
            && SpentFor(v.transfers, r) == SpentFor(w.transfers, r) + (if reason == Directed(r) then amount else 0)
  {
    var t := Transfer(from, to, amount, reason);
    assert (w.transfers + [t])[..|w.transfers|] == w.transfers;
  }

  lemma {:induction false} PayOutPays(w: World, a: Award, amount: int, r: Address)
    requires PayOut(w, a, amount).Ok?
    ensures var v := PayOut(w, a, amount).value;
            && PaidFor(v.transfers, r) ==
               PaidFor(w.transfers, r) + (if a.recipient == r && a.mode != Allocated then amount else 0)
            && SpentFor(v.transfers, r) == SpentFor(w.transfers, r)
            && Get(v.p.allocations, r) ==
               Get(w.p.allocations, r) + (if a.recipient == r && a.mode == Allocated then amount else 0)
  {
    hide PaidFor, SpentFor, Moved;
    if a.mode != Allocated {
      MovePays(w, w.self, a.payee, amount, Tranche(a.recipient), r);
    }
  }

  lemma DisburseAccounts(w: World, recipient: Address, uid: Uid)
    requires AllAccounted(w)
    requires recipient in w.p.awards && w.p.awards[recipient].recipient == recipient
    requires Disburse(w, recipient, w.p.awards[recipient], uid).Ok?
    ensures AllAccounted(Disburse(w, recipient, w.p.awards[recipient], uid).value)
  {
    var a := w.p.awards[recipient];
    var booked := Booked(w, recipient, a, uid);
    DisburseBooks(w, recipient, a, uid);
    hide PayOut, NextTranche, Credited, PaidFor, SpentFor;
    forall r
      ensures Accounted(Disburse(w, recipient, a, uid).value, r)
    {
      assert Accounted(w, r);
      PayOutPays(booked, booked.p.awards[recipient], NextTranche(a), r);
    }
  }

  lemma {:induction false} EachAccounts(w: World, recipient: Address, uids: seq<Uid>, attester: Address)
    requires AllAccounted(w)
    requires recipient in w.p.awards && w.p.awards[recipient].recipient == recipient
    requires ReleaseEach(w, recipient, uids, attester).Ok?
    ensures AllAccounted(ReleaseEach(w, recipient, uids, attester).value.0)
    decreases |uids|
  {
    hide Disburse, ProofGuard, AllAccounted;
    if uids != [] {
      DisburseAccounts(w, recipient, uids[0]);
      DisburseBooks(w, recipient, w.p.awards[recipient], uids[0]);
      EachAccounts(Disburse(w, recipient, w.p.awards[recipient], uids[0]).value, recipient, uids[1..], attester);
    }
  }

  ghost predicate SamePayments(before: seq<Transfer>, after: seq<Transfer>) {
    forall r :: PaidFor(after, r) == PaidFor(before, r) && SpentFor(after, r) == SpentFor(before, r)
  }

  lemma OtherMove(w: World, from: Address, to: Address, amount: int, reason: Reason)
    requires MoveToken(w, from, to, amount, reason).Ok? && !reason.Tranche? && !reason.Directed?
    ensures SamePayments(w.transfers, MoveToken(w, from, to, amount, reason).value.transfers)
  {
    hide PaidFor, SpentFor, MoveToken;
    forall r {
      MovePays(w, from, to, amount, reason, r);
    }
  }

  lemma SpendAccounts(w: World, recipient: Address, payee: Address, amount: int)
    requires AllAccounted(w)
    requires Spend(w, recipient, payee, amount).Ok?
    ensures AllAccounted(Spend(w, recipient, payee, amount).value.0)
  {
    hide PaidFor, SpentFor, Moved;
    forall r
      ensures Accounted(Spend(w, recipient, payee, amount).value.0, r)
    {
      assert Accounted(w, r);
      MovePays(w, w.self, payee, amount, Directed(recipient), r);
    }
  }

  lemma OtherPayments(w: World, call: Call)
    requires IsMoney(call) && !call.CallSpend?
    ensures SamePayments(w.transfers, Next(w, call).transfers)
    ensures Next(w, call).p.allocations == w.p.allocations
  {
    hide Moved, RefundDue, SamePayments;
    SameAsItself(w);
    if Step(w, call).Ok? {
      match call
      case CallContribute(d, n) => OtherMove(w, d, w.self, n, Deposit);
      case CallSweepFee =>
        var fee := FeeOn(w.p.contributed, w.p.config.feeBps);
        if 0 < fee {
          OtherMove(w.(p := w.p.(feeSwept := true)), w.self, w.p.config.treasury, fee, Fee);
        }
      case CallRefund(d, n) => OtherMove(w, w.self, d, RefundDue(w, d, n).value, Refund);
      case CallSweepUnclaimed => OtherMove(w, w.self, w.p.config.treasury, Get(w.balances, w.self), Sweep);
      case TokenMove(f, t, n) => OtherMove(w, f, t, n, Outside);
    }
  }

  lemma SameAsItself(w: World)
    ensures SamePayments(w.transfers, w.transfers)
  {
  }

  lemma AccountedByFields(w: World, v: World)
    requires AllAccounted(w)
    requires SamePayments(w.transfers, v.transfers)
    requires v.p.awards == w.p.awards && v.p.allocations == w.p.allocations
    ensures AllAccounted(v)
  {
    hide PaidFor, SpentFor;
    forall r
      ensures Accounted(v, r)
    {
      assert Accounted(w, r);
    }
  }

  lemma FinalizeAccounts(w: World, applicant: Address, payee: Address, mode: Mode)
    requires AllAccounted(w) && AllAwardsSound(w.p)
    requires Finalize(w, applicant, payee, mode).Ok?
    ensures AllAccounted(Finalize(w, applicant, payee, mode).value.0)
  {
    hide PaidFor, SpentFor;
    assert AwardSound(w.p, applicant);
    forall r
      ensures Accounted(Finalize(w, applicant, payee, mode).value.0, r)
    {
      assert Accounted(w, r);
    }
  }

  lemma QuietKeepsPayments(w: World, call: Call)
    requires !IsRelease(call) && !IsMoney(call)
    ensures Next(w, call).transfers == w.transfers && Next(w, call).p.allocations == w.p.allocations
  {
    hide Next;
    if IsPeople(call) {
      PeopleFrame(w, call);
    } else if MovesClock(call) {
      ClockFrame(w, call);
    } else {
      ControlFrame(w, call);
    }
  }

  lemma ReleaseAccounts(w: World, call: Call)
    requires IsRelease(call) && Step(w, call).Ok?
    requires AllAccounted(w) && AllAwardsSound(w.p)
    ensures AllAccounted(Next(w, call))
  {
    assert AwardSound(w.p, call.recipient);
    hide AllAccounted, AllAwardsSound, AwardSound, Disburse, ReleaseEach, ProofGuard;
    if call.CallRelease? {
      DisburseAccounts(w, call.recipient, call.uid);
    } else {
      EachAccounts(w, call.recipient, call.uids, call.attester);
    }
  }

  lemma NextAccounts(w: World, call: Call)
    requires AllAccounted(w) && AllAwardsSound(w.p)
    ensures AllAccounted(Next(w, call))
  {
    hide AllAccounted, AllAwardsSound, Finalize, Spend, SamePayments;
    if IsRelease(call) {
      hide Step;
      if Step(w, call).Ok? {
        ReleaseAccounts(w, call);
      }
    } else if call.CallFinalize? {
      if Step(w, call).Ok? {
        FinalizeAccounts(w, call.applicant, call.payee, call.mode);
      }
    } else if call.CallSpend? {
      if Step(w, call).Ok? {
        SpendAccounts(w, call.recipient, call.payee, call.amount);
      }
    } else {
      hide Next;
      OthersKeepAwardMap(w, call);
      if IsMoney(call) {
        OtherPayments(w, call);
      } else {
        QuietKeepsPayments(w, call);
        SameAsItself(w);
      }
      AccountedByFields(w, Next(w, call));
    }
  }

  // ---- credits in the standing record ----

  function CreditedBy(credits: seq<Record.Credit>, writer: Address): int {
    if credits == [] then 0
    else
      var c := credits[|credits| - 1];
      CreditedBy(credits[..|credits| - 1], writer) + if c.writer == writer then c.amount else 0
  }

  function TimesCredited(credits: seq<Record.Credit>, writer: Address, uid: Uid): nat {
    if credits == [] then 0
    else
      var c := credits[|credits| - 1];
      TimesCredited(credits[..|credits| - 1], writer, uid) + if c.writer == writer && c.attestation == uid then 1 else 0
  }

  // The record holds one credit of ours for each proof used, and together they are what was released.
  ghost predicate Credits(w: World) {
    && CreditedBy(w.record.credits, w.self) == w.p.released
    && (forall u :: TimesCredited(w.record.credits, w.self, u) == if u in w.p.used then 1 else 0)
  }

  // The contracts this one calls keep their own invariants.
  ghost predicate Neighbours(w: World) {
    && Record.BookSound(w.codec, w.record)
    && Attest.Sound(w.attest)
    && w.now <= U64_MAX
    && 0 <= w.p.released
  }

  lemma {:induction false} AppendCredits(credits: seq<Record.Credit>, c: Record.Credit, writer: Address)
    ensures CreditedBy(credits + [c], writer) == CreditedBy(credits, writer) + if c.writer == writer then c.amount else 0
    ensures forall u :: TimesCredited(credits + [c], writer, u) ==
                        TimesCredited(credits, writer, u) + if c.writer == writer && c.attestation == u then 1 else 0
  {
    assert (credits + [c])[..|credits|] == credits;
  }

  lemma DisburseCredits(w: World, recipient: Address, a: Award, uid: Uid)
    requires Credits(w) && uid !in w.p.used
    requires Disburse(w, recipient, a, uid).Ok?
    ensures Credits(Disburse(w, recipient, a, uid).value)
  {
    DisburseBooks(w, recipient, a, uid);
    hide PayOut, NextTranche, CreditedBy, TimesCredited;
    AppendCredits(w.record.credits, Record.Credit(w.self, recipient, w.self, NextTranche(a), uid, w.now), w.self);
  }

  lemma DisburseKeepsNeighbours(w: World, recipient: Address, a: Award, uid: Uid)
    requires Neighbours(w)
    requires Disburse(w, recipient, a, uid).Ok?
    ensures Neighbours(Disburse(w, recipient, a, uid).value)
  {
    DisburseBooks(w, recipient, a, uid);
    hide PayOut, NextTranche, Record.BookSound, Attest.Sound;
    Record.CreditKeepsBook(w.codec, w.record, Record.Credit(w.self, recipient, w.self, NextTranche(a), uid, w.now));
  }

  lemma {:induction false} EachCredits(w: World, recipient: Address, uids: seq<Uid>, attester: Address)
    requires Credits(w) && Neighbours(w)
    requires ReleaseEach(w, recipient, uids, attester).Ok?
    ensures var v := ReleaseEach(w, recipient, uids, attester).value.0; Credits(v) && Neighbours(v)
    decreases |uids|
  {
    hide Disburse, Credits, Neighbours;
    if uids != [] {
      DisburseCredits(w, recipient, w.p.awards[recipient], uids[0]);
      DisburseKeepsNeighbours(w, recipient, w.p.awards[recipient], uids[0]);
      EachCredits(Disburse(w, recipient, w.p.awards[recipient], uids[0]).value, recipient, uids[1..], attester);
    }
  }

  lemma ReleaseCredits(w: World, call: Call)
    requires IsRelease(call) && Step(w, call).Ok?
    requires Credits(w) && Neighbours(w)
    ensures Credits(Next(w, call)) && Neighbours(Next(w, call))
  {
    hide Credits, Neighbours, Disburse, ReleaseEach;
    if call.CallRelease? {
      DisburseCredits(w, call.recipient, w.p.awards[call.recipient], call.uid);
      DisburseKeepsNeighbours(w, call.recipient, w.p.awards[call.recipient], call.uid);
    } else {
      EachCredits(w, call.recipient, call.uids, call.attester);
    }
  }

  lemma RecordStepCredits(w: World, call: Record.Call)
    requires Legal(w, RecordStep(call))
    requires Credits(w) && Neighbours(w)
    ensures var v := Next(w, RecordStep(call)); Credits(v) && Neighbours(v)
  {
    hide Record.BookSound, Attest.Sound, CreditedBy, TimesCredited;
    Record.NextKeepsBook(w.codec, w.record, call);
    if call.CallCredit? {
      AppendCredits(w.record.credits, call.credit, w.self);
    }
  }

  lemma AttestStepCredits(w: World, call: Attest.Call)
    requires Credits(w) && Neighbours(w)
    ensures var v := Next(w, AttestStep(call)); Credits(v) && Neighbours(v)
  {
    hide Record.BookSound, Attest.Sound, CreditedBy, TimesCredited;
    Attest.NextKeepsSound(w.attest, w.now, call);
  }

  lemma OthersCredit(w: World, call: Call)
    requires !IsRelease(call) && !call.RecordStep? && !call.AttestStep?
    requires Legal(w, call)
    requires Credits(w) && Neighbours(w)
    ensures Credits(Next(w, call)) && Neighbours(Next(w, call))
  {
    hide Record.BookSound, Attest.Sound, CreditedBy, TimesCredited, Next;
    if IsPeople(call) {
      PeopleFrame(w, call);
    } else if IsMoney(call) {
      MoneyFrame(w, call);
    } else if MovesClock(call) {
      ClockFrame(w, call);
      ClockStaysInRange(w, call);
    } else {
      OtherControlFrame(w, call);
    }
  }

  lemma ClockStaysInRange(w: World, call: Call)
    requires MovesClock(call) && Legal(w, call) && w.now <= U64_MAX
    ensures Next(w, call).now <= U64_MAX
  {
  }

  lemma OtherControlFrame(w: World, call: Call)
    requires IsControl(call) && !MovesClock(call) && !call.RecordStep? && !call.AttestStep?
    ensures var v := Next(w, call);
            v == w.(installed := v.installed, p := w.p.(paused := v.p.paused, payees := v.p.payees, verifiers := v.p.verifiers))
  {
  }

  lemma NextCredits(w: World, call: Call)
    requires Legal(w, call)
    requires Credits(w) && Neighbours(w)
    ensures Credits(Next(w, call)) && Neighbours(Next(w, call))
  {
    hide Credits, Neighbours, Step;
    if IsRelease(call) {
      if Step(w, call).Ok? {
        ReleaseCredits(w, call);
      }
    } else if call.RecordStep? {
      RecordStepCredits(w, call.recordCall);
    } else if call.AttestStep? {
      AttestStepCredits(w, call.attestCall);
    } else {
      OthersCredit(w, call);
    }
  }

  lemma {:induction false} NoneCredited(credits: seq<Record.Credit>, writer: Address)
    requires forall i :: 0 <= i < |credits| ==> credits[i].writer != writer
    ensures CreditedBy(credits, writer) == 0
    ensures forall u :: TimesCredited(credits, writer, u) == 0
  {
    if credits != [] {
      NoneCredited(credits[..|credits| - 1], writer);
    }
  }

  lemma DeployedBooks(w: World)
    requires Deployed(w)
    ensures AllAccounted(w) && Credits(w) && Neighbours(w)
  {
    NoneCredited(w.record.credits, w.self);
  }

  // After any run: each award's releases are paid out or escrowed to the stroop, the record credits
  // every used proof once and their amounts add up to Released, and the record's standings are still
  // exact summaries of their logs.
  lemma {:induction false} RunKeepsBooks(w: World, calls: seq<Call>)
    requires Deployed(w)
    requires AllLegal(w, calls)
    ensures var v := Exec(w, calls); AllAccounted(v) && Credits(v) && Neighbours(v)
    decreases |calls|
  {
    hide Deployed, Next, Sound, AllAccounted, Credits, Neighbours, Legal, AllAwardsSound;
    if calls == [] {
      DeployedBooks(w);
    } else {
      var before, call := Exec(w, calls[..|calls| - 1]), calls[|calls| - 1];
      RunKeepsBooks(w, calls[..|calls| - 1]);
      RunKeepsSound(w, calls[..|calls| - 1]);
      SoundGivesAwards(before);
      NextAccounts(before, call);
      NextCredits(before, call);
    }
  }

  // ---- every proof behind a tranche ----

  function ProofsOf(call: Call): seq<Uid> {
    match call
    case CallRelease(_, uid, _) => [uid]
    case CallReleaseBatch(_, uids, _) => uids
    case _ => []
  }

  // A claim about the recipient, under the programme's schema, by the attester named, neither revoked
  // nor expired.
  ghost predicate LiveProof(w: World, uid: Uid, recipient: Address, attester: Address) {
    && uid in w.attest.attestations
    && var claim := w.attest.attestations[uid];
    && claim.subject == recipient && claim.schema == w.p.config.schema && claim.attester == attester
    && claim.revokedAt == None
    && (claim.expiresAt == None || w.now < claim.expiresAt.value)
  }

  // A call that unlocked a tranche with `uid`: unspent, and at that moment such a claim by a verifier
  // the programme then trusted.
  ghost predicate Unlocks(w: World, call: Call, uid: Uid) {
    && IsRelease(call) && uid in ProofsOf(call)
    && Step(w, call).Ok?
    && uid !in w.p.used
    && call.attester in w.p.verifiers
    && LiveProof(w, uid, call.recipient, call.attester)
  }

  lemma {:induction false} EachUnlocks(w: World, recipient: Address, uids: seq<Uid>, attester: Address)
    requires ReleaseEach(w, recipient, uids, attester).Ok?
    ensures var v := ReleaseEach(w, recipient, uids, attester).value.0;
            forall u :: u in v.p.used <==> u in w.p.used || u in uids
    ensures forall u :: u in uids ==>
              u !in w.p.used && Attest.Verify(w.attest, w.now, u, recipient, w.p.config.schema, attester)
    decreases |uids|
  {
    hide Disburse, NextTranche, Attest.Verify;
    if uids != [] {
      DisburseBooks(w, recipient, w.p.awards[recipient], uids[0]);
      EachUnlocks(Disburse(w, recipient, w.p.awards[recipient], uids[0]).value, recipient, uids[1..], attester);
      assert uids == [uids[0]] + uids[1..];
    }
  }

  lemma ReleaseUnlocks(w: World, call: Call, uid: Uid)
    requires IsRelease(call) && Step(w, call).Ok?
    requires uid in Next(w, call).p.used && uid !in w.p.used
    ensures Unlocks(w, call, uid)
  {
    hide Disburse, ReleaseEach, NextTranche, Attest.Verify;
    Attest.VerifiesExactly(w.attest, w.now, uid, call.recipient, w.p.config.schema, call.attester);
    if call.CallRelease? {
      DisburseBooks(w, call.recipient, w.p.awards[call.recipient], call.uid);
    } else {
      EachUnlocks(w, call.recipient, call.uids, call.attester);
    }
  }

  lemma OthersUseNothing(w: World, call: Call)
    requires !IsRelease(call)
    ensures Next(w, call).p.used == w.p.used
  {
    hide Next;
    if IsPeople(call) {
      PeopleFrame(w, call);
    } else if IsMoney(call) {
      MoneyFrame(w, call);
    } else if MovesClock(call) {
      ClockFrame(w, call);
    } else {
      ControlFrame(w, call);
    }
  }

  // Every proof ever used unlocked its tranche at some call of the run, and was good at that call.
  lemma {:induction false} EveryProofWasLive(w: World, calls: seq<Call>, uid: Uid)
    requires Deployed(w)
    requires uid in Exec(w, calls).p.used
    ensures exists i :: 0 <= i < |calls| && Unlocks(Exec(w, calls[..i]), calls[i], uid)
    decreases |calls|
  {
    hide Step, Unlocks;
    if calls != [] {
      hide Deployed;
      var n := |calls| - 1;
      var before := Exec(w, calls[..n]);
      if uid in before.p.used {
        EveryProofWasLive(w, calls[..n], uid);
        var i :| 0 <= i < n && Unlocks(Exec(w, calls[..n][..i]), calls[..n][i], uid);
        assert calls[..n][..i] == calls[..i];
      } else if IsRelease(calls[n]) {
        ReleaseUnlocks(before, calls[n], uid);
        assert Unlocks(Exec(w, calls[..n]), calls[n], uid);
      } else {
        OthersUseNothing(before, calls[n]);
      }
    }
  }
}
