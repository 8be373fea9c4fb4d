// Where money went: every payment in the token's log, and every award's amount, traced to what
// allowed it.
module ProgrammeDestinations {
  import opened Results
  import opened Ledger
  import opened MapSums
  import opened Votes
  import opened Programme
  import opened ProgrammeTerms
  import opened ProgrammeVotes
  import opened ProgrammeAwards
  import opened ProgrammeTranches
  import opened ProgrammeRuns

  // ---- one payment ----

  // A tranche of r's award, paid where the award says.
  predicate ToPayee(w: World, r: Address, t: Transfer) {
    && r in w.p.awards
    && t.reason == Tranche(r) && t.to == w.p.awards[r].payee
    && w.p.awards[r].mode != Allocated
    && (w.p.awards[r].mode == Restricted ==> t.to in w.installed)
  }

  // What allows a call made in `w` to move the programme's tokens, and when.
  predicate Justified(w: World, call: Call, t: Transfer) {
    match t.reason
    case Tranche(r) =>
      && IsRelease(call) && call.recipient == r && ToPayee(w, r, t)
      && !w.p.cancelled && w.now < w.p.config.releaseDeadline
    case Directed(r) =>
      && call == CallSpend(r, t.to, t.amount) && t.to in w.p.payees
      && t.amount <= Get(w.p.allocations, r) && w.now < w.p.config.sweepDeadline
    case Refund =>
      && call.CallRefund? && call.donor == t.to
      && RefundsOpen(w) && RefundDue(w, t.to, call.asked) == Ok(t.amount)
    case Fee =>
      && call.CallSweepFee? && t.to == w.p.config.treasury
      && PhaseOf(w.p, w.now) != Opened && !w.p.feeSwept
      && t.amount == FeeOn(w.p.contributed, w.p.config.feeBps)
    case Sweep =>
      && call.CallSweepUnclaimed? && t.to == w.p.config.treasury
      && w.p.config.sweepDeadline <= w.now && t.amount == Get(w.balances, w.self)
    case Deposit => false
    case Outside => false
  }

  // Awards keep who they are for, where they pay and how.
  ghost predicate SameDestinations(p: Storage, q: Storage) {
    && q.awards.Keys == p.awards.Keys
    && forall r :: r in p.awards ==>
         q.awards[r].recipient == p.awards[r].recipient && q.awards[r].payee == p.awards[r].payee &&
         q.awards[r].mode == p.awards[r].mode
  }

  ghost predicate PaysOnly(w: World, v: World, r: Address) {
    && |w.transfers| <= |v.transfers| && v.transfers[..|w.transfers|] == w.transfers
    && (forall k :: |w.transfers| <= k < |v.transfers| ==> ToPayee(w, r, v.transfers[k]))
    && v.installed == w.installed
    && SameDestinations(w.p, v.p)
  }

  lemma PayOutPaysPayee(w: World, a: Award, amount: int)
    requires PayOut(w, a, amount).Ok?
    ensures var next := PayOut(w, a, amount).value;
            || next.transfers == w.transfers
            || (&& next.transfers == w.transfers + [Transfer(w.self, a.payee, amount, Tranche(a.recipient))]
                && a.mode != Allocated
                && (a.mode == Restricted ==> a.payee in w.installed))
  {
  }

  lemma DisbursePaysOnly(w: World, r: Address, uid: Uid)
    requires r in w.p.awards && w.p.awards[r].recipient == r
    requires Disburse(w, r, w.p.awards[r], uid).Ok?
    ensures PaysOnly(w, Disburse(w, r, w.p.awards[r], uid).value, r)
  {
    var a := w.p.awards[r];
    var booked := Booked(w, r, a, uid);
    DisburseBooks(w, r, a, uid);
    hide PayOut, NextTranche, Credited;
    PayOutPaysPayee(booked, booked.p.awards[r], NextTranche(a));
  }

  lemma PaysOnlyTwice(u: World, v: World, w: World, r: Address)
    requires PaysOnly(u, v, r) && PaysOnly(v, w, r)
    ensures PaysOnly(u, w, r)
  {
    assert w.transfers[..|u.transfers|] == w.transfers[..|v.transfers|][..|u.transfers|];
    forall k | |u.transfers| <= k < |w.transfers|
      ensures ToPayee(u, r, w.transfers[k])
    {
      if k < |v.transfers| {
        assert w.transfers[k] == w.transfers[..|v.transfers|][k];
      }
    }
  }

  lemma {:induction false} EachPaysOnly(w: World, r: Address, uids: seq<Uid>, attester: Address)
    requires r in w.p.awards && w.p.awards[r].recipient == r
    requires ReleaseEach(w, r, uids, attester).Ok?
    ensures PaysOnly(w, ReleaseEach(w, r, uids, attester).value.0, r)
    decreases |uids|
  {
    hide Disburse, ProofGuard, ToPayee;
    if uids != [] {
      var next := Disburse(w, r, w.p.awards[r], uids[0]).value;
      DisbursePaysOnly(w, r, uids[0]);
      EachPaysOnly(next, r, uids[1..], attester);
      PaysOnlyTwice(w, next, ReleaseEach(next, r, uids[1..], attester).value.0, r);
    }
  }

  // Every transfer of the programme's own that a call adds is justified by that call.
  ghost predicate AddsJustified(w: World, call: Call, v: World) {
    && |w.transfers| <= |v.transfers| && v.transfers[..|w.transfers|] == w.transfers
    && forall k :: |w.transfers| <= k < |v.transfers| && v.transfers[k].from == w.self ==>
         Justified(w, call, v.transfers[k])
  }

  lemma RecipientIsKey(p: Storage, r: Address)
    requires AllAwardsSound(p)
    ensures r in p.awards ==> p.awards[r].recipient == r
  {
    assert AwardSound(p, r);
  }

  lemma ReleasePaysOnly(w: World, call: Call)
    requires AllAwardsSound(w.p)
    requires IsRelease(call) && Step(w, call).Ok?
    ensures PaysOnly(w, Next(w, call), call.recipient)
    ensures !w.p.cancelled && w.now < w.p.config.releaseDeadline
  {
    hide Disburse, ReleaseEach, ProofGuard, AwardSound, AllAwardsSound, PaysOnly, NextTranche;
    RecipientIsKey(w.p, call.recipient);
    if call.CallRelease? {
      DisbursePaysOnly(w, call.recipient, call.uid);
    } else {
      EachPaysOnly(w, call.recipient, call.uids, call.attester);
    }
  }

  lemma ReleaseJustified(w: World, call: Call)
    requires AllAwardsSound(w.p)
    requires IsRelease(call)
    ensures AddsJustified(w, call, Next(w, call))
  {
    hide Step, AllAwardsSound;
    if Step(w, call).Ok? {
      ReleasePaysOnly(w, call);
    }
  }

  lemma RefundJustified(w: World, donor: Address, asked: Option<int>)
    requires ClaimRefund(w, donor, asked).Ok?
    ensures AddsJustified(w, CallRefund(donor, asked), ClaimRefund(w, donor, asked).value.0)
  {
    hide Moved, RefundDue;
    DueWhenOpen(w, donor, asked);
  }

  lemma FeeJustified(w: World)
    requires SweepFee(w).Ok?
    ensures AddsJustified(w, CallSweepFee, SweepFee(w).value.0)
  {
    hide Moved, FeeOn;
  }

  lemma PaymentJustified(w: World, call: Call)
    requires IsMoney(call) && Legal(w, call)
    ensures AddsJustified(w, call, Next(w, call))
  {
    hide Moved, SweepFee, ClaimRefund;
    if Step(w, call).Ok? && call.CallRefund? {
      RefundJustified(w, call.donor, call.asked);
    } else if Step(w, call).Ok? && call.CallSweepFee? {
      FeeJustified(w);
    }
  }

  lemma DueWhenOpen(w: World, donor: Address, asked: Option<int>)
    requires RefundDue(w, donor, asked).Ok?
    ensures RefundsOpen(w)
  {
    hide FeeOn;
  }

  lemma NextJustified(w: World, call: Call)
    requires AllAwardsSound(w.p) && Legal(w, call)
    ensures AddsJustified(w, call, Next(w, call))
  {
    hide Next, AllAwardsSound, Justified;
    if IsRelease(call) {
      ReleaseJustified(w, call);
    } else if IsMoney(call) {
      PaymentJustified(w, call);
    } else if IsPeople(call) {
      PeopleFrame(w, call);
    } else if MovesClock(call) {
      ClockFrame(w, call);
    } else {
      ControlFrame(w, call);
    }
  }

  // ---- where an award's destination was settled ----

  // Call j of the run settled r's award, and was allowed to name that destination.
  predicate SettledAt(w: World, calls: seq<Call>, j: nat, r: Address, payee: Address, mode: Mode)
    requires j < |calls|
  {
    && calls[j] == CallFinalize(r, payee, mode)
    && Step(Exec(w, calls[..j]), calls[j]).Ok?
    && (mode == Direct ==> payee in Exec(w, calls[..j]).p.payees)
    && (mode == Open ==> payee == r)
  }

  lemma SettledInLonger(w: World, calls: seq<Call>, j: nat, r: Address, payee: Address, mode: Mode)
    requires j < |calls| - 1 && SettledAt(w, calls[..|calls| - 1], j, r, payee, mode)
    ensures SettledAt(w, calls, j, r, payee, mode)
  {
    hide Step, Exec;
    assert calls[..|calls| - 1][..j] == calls[..j];
  }

  lemma FinalizeDestinations(w: World, r: Address, payee: Address, mode: Mode)
    requires Finalize(w, r, payee, mode).Ok?
    ensures var v := Finalize(w, r, payee, mode).value.0;
            && v.p.awards.Keys == w.p.awards.Keys + {r}
            && v.p.awards[r].payee == payee && v.p.awards[r].mode == mode
            && (forall b :: b in w.p.awards && b != r ==> v.p.awards[b] == w.p.awards[b])
    ensures mode == Direct ==> payee in w.p.payees
    ensures mode == Open ==> payee == r
  {
  }

  lemma OthersKeepDestinations(w: World, call: Call)
    requires AllAwardsSound(w.p)
    requires !call.CallFinalize?
    ensures SameDestinations(w.p, Next(w, call).p)
  {
    hide Step, AllAwardsSound;
    if IsRelease(call) {
      if Step(w, call).Ok? {
        ReleasePaysOnly(w, call);
      }
    } else {
      OthersKeepAwardMap(w, call);
      hide Next;
    }
  }

  lemma {:induction false} AwardsComeFromSettling(w: World, calls: seq<Call>, r: Address)
    requires Deployed(w)
    requires AllLegal(w, calls)
    requires r in Exec(w, calls).p.awards
    ensures var a := Exec(w, calls).p.awards[r];
            exists j :: 0 <= j < |calls| && SettledAt(w, calls, j, r, a.payee, a.mode)
    decreases |calls|
  {
    hide Sound, Step, AllAwardsSound;
    if calls != [] {
      var n := |calls| - 1;
      var before, call := Exec(w, calls[..n]), calls[n];
      RunKeepsSound(w, calls[..n]);
      SoundGivesAwards(before);
      hide Deployed;
      if call.CallFinalize? && call.applicant == r && Step(before, call).Ok? {
        FinalizeStep(before, r, call.payee, call.mode);
        assert SettledAt(w, calls, n, r, call.payee, call.mode);
      } else {
        DestinationKept(before, call, r);
        AwardsComeFromSettling(w, calls[..n], r);
        var a := before.p.awards[r];
        var j :| 0 <= j < n && SettledAt(w, calls[..n], j, r, a.payee, a.mode);
        SettledInLonger(w, calls, j, r, a.payee, a.mode);
      }
    }
  }

  lemma FinalizeStep(w: World, r: Address, payee: Address, mode: Mode)
    requires Step(w, CallFinalize(r, payee, mode)).Ok?
    ensures var v := Next(w, CallFinalize(r, payee, mode));
            r in v.p.awards && v.p.awards[r].payee == payee && v.p.awards[r].mode == mode
    ensures mode == Direct ==> payee in w.p.payees
    ensures mode == Open ==> payee == r
  {
    hide Finalize;
    FinalizeDestinations(w, r, payee, mode);
  }

  lemma DestinationKept(w: World, call: Call, r: Address)
    requires AllAwardsSound(w.p)
    requires r in Next(w, call).p.awards
    requires !(call.CallFinalize? && call.applicant == r && Step(w, call).Ok?)
    ensures r in w.p.awards
    ensures Next(w, call).p.awards[r].payee == w.p.awards[r].payee && Next(w, call).p.awards[r].mode == w.p.awards[r].mode
  {
    hide AllAwardsSound, Finalize;
    if call.CallFinalize? {
      if Step(w, call).Ok? {
        FinalizeDestinations(w, call.applicant, call.payee, call.mode);
      }
    } else {
      OthersKeepDestinations(w, call);
      hide Next;
    }
  }

  // ---- destination safety ----

  // How the award behind a tranche pays.
  function TrancheMode(w: World, t: Transfer): Mode {
    if t.reason.Tranche? && t.reason.recipient in w.p.awards then w.p.awards[t.reason.recipient].mode else Open
  }

  // Payment k of the log was made by call i of the run, which allowed it; a tranche went where the
  // settling of its award had been allowed to send it.
  ghost predicate Traced(w: World, calls: seq<Call>, t: Transfer, i: nat)
    requires i < |calls|
  {
    var before := Exec(w, calls[..i]);
    && Justified(before, calls[i], t)
    && (t.reason.Tranche? ==>
          var r := t.reason.recipient;
          exists j :: 0 <= j < i && SettledAt(w, calls, j, r, t.to, TrancheMode(before, t)))
  }

  lemma {:induction false} EveryPaymentIsTraced(w: World, calls: seq<Call>, k: nat)
    requires Deployed(w)
    requires AllLegal(w, calls)
    requires k < |Exec(w, calls).transfers|
    requires Exec(w, calls).transfers[k].from == w.self
    ensures exists i :: 0 <= i < |calls| && Traced(w, calls, Exec(w, calls).transfers[k], i)
    decreases |calls|
  {
    hide Sound, Next, Justified, AllAwardsSound, SettledAt;
    if calls != [] {
      var n := |calls| - 1;
      var before, t := Exec(w, calls[..n]), Exec(w, calls).transfers[k];
      RunKeepsSound(w, calls[..n]);
      SoundGivesAwards(before);
      NextJustified(before, calls[n]);
      SelfKept(w, calls[..n]);
      hide Deployed;
      if k < |before.transfers| {
        assert t == Exec(w, calls).transfers[..|before.transfers|][k];
        EveryPaymentIsTraced(w, calls[..n], k);
        var i :| 0 <= i < n && Traced(w, calls[..n], t, i);
        TracedInLonger(w, calls, t, i);
      } else {
        TracedHere(w, calls, t);
      }
    }
  }

  lemma TracedInLonger(w: World, calls: seq<Call>, t: Transfer, i: nat)
    requires calls != [] && i < |calls| - 1
    requires Traced(w, calls[..|calls| - 1], t, i)
    ensures Traced(w, calls, t, i)
  {
    hide Justified, Step;
    var n := |calls| - 1;
    var shorter := calls[..n];
    assert shorter[..i] == calls[..i];
    if t.reason.Tranche? {
      var r := t.reason.recipient;
      var mode := TrancheMode(Exec(w, calls[..i]), t);
      var j :| 0 <= j < i && SettledAt(w, shorter, j, r, t.to, mode);
      SettledInLonger(w, calls, j, r, t.to, mode);
    }
  }

  lemma {:induction false} TracedHere(w: World, calls: seq<Call>, t: Transfer)
    requires Deployed(w)
    requires AllLegal(w, calls) && calls != []
    requires Justified(Exec(w, calls[..|calls| - 1]), calls[|calls| - 1], t)
    ensures Traced(w, calls, t, |calls| - 1)
  {
    hide Deployed, Next, Step, SettledAt;
    if t.reason.Tranche? {
      var n := |calls| - 1;
      var r, before := t.reason.recipient, Exec(w, calls[..n]);
      AwardsComeFromSettling(w, calls[..n], r);
      var a := before.p.awards[r];
      var j :| 0 <= j < n && SettledAt(w, calls[..n], j, r, a.payee, a.mode);
      SettledInLonger(w, calls, j, r, a.payee, a.mode);
      assert ToPayee(before, r, t);
      assert SettledAt(w, calls, j, r, t.to, TrancheMode(before, t));
    }
  }

  lemma {:induction false} SelfKept(w: World, calls: seq<Call>)
    ensures Exec(w, calls).self == w.self
    decreases |calls|
  {
    hide Next;
    if calls != [] {
      SelfKept(w, calls[..|calls| - 1]);
      NextFollows(Exec(w, calls[..|calls| - 1]), calls[|calls| - 1]);
    }
  }
}
