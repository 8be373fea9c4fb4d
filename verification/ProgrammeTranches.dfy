// The tranche schedule of an award, and when a batch keeps to it.
module ProgrammeTranches {
  import opened Results
  import opened Ledger
  import opened Arithmetic
  import opened HashChain
  import opened Votes
  import opened Programme
  import opened ProgrammeTerms
  import opened ProgrammeAwards
  import Attest
  import Record

  // What `k` releases of an award of `granted` in `tranches` have paid.
  function PaidAfter(granted: int, tranches: nat, k: nat): int
    requires 0 < tranches
  {
    if k == tranches then granted else k * (granted / tranches)
  }

  // An award on its schedule. Nothing is ever released of an award of fewer stroops than tranches.
  predicate OnSchedule(a: Award) {
    && 0 < a.tranches && 0 < a.granted
    && a.tranchesReleased <= a.tranches
    && a.released == PaidAfter(a.granted, a.tranches, a.tranchesReleased)
    && (0 < a.tranchesReleased ==> a.tranches <= a.granted)
  }

  ghost predicate AllOnSchedule(p: Storage) {
    forall r :: r in p.awards ==> OnSchedule(p.awards[r])
  }

  function Advanced(a: Award): Award {
    a.(tranchesReleased := a.tranchesReleased + 1, released := a.released + NextTranche(a))
  }

  // k equal parts, with k short of the last, leave at least one more and the remainder.
  lemma PartsFit(g: int, t: nat, k: nat)
    requires 0 < g && k < t
    ensures 0 <= k * (g / t) && (k + 1) * (g / t) == k * (g / t) + g / t
    ensures k + 1 == t ==> g - k * (g / t) == g / t + g % t
    ensures 0 <= g / t <= g - k * (g / t)
    ensures t <= g <==> 0 < g / t
  {
    var part := g / t;
    DivBounds(g, t);
    MulMonotone(k + 1, t, part);
    MulMonotone(0, k, part);
    assert k + 1 == t ==> t * part == k * part + part;
    if t <= g {
      DivAtLeast(g, t, 1);
    } else {
      DivBelow(g, t, 1);
    }
  }

  // The last tranche is the others' amount plus the remainder of the division.
  lemma {:induction false} NextOnSchedule(a: Award)
    requires OnSchedule(a) && a.tranchesReleased < a.tranches
    ensures NextTranche(a) == a.granted / a.tranches +
              if a.tranchesReleased + 1 == a.tranches then a.granted % a.tranches else 0
    ensures 0 <= NextTranche(a) <= a.granted - a.released
    ensures 0 < NextTranche(a) && a.tranchesReleased == 0 ==> a.tranches <= a.granted
    ensures a.tranches <= a.granted ==> 0 < NextTranche(a)
    ensures 0 < NextTranche(a) ==> OnSchedule(Advanced(a))
  {
    var g, t, k := a.granted, a.tranches, a.tranchesReleased;
    PartsFit(g, t, k);
    assert a.released == k * (g / t);
    if k + 1 < t {
      assert Advanced(a).released == (k + 1) * (g / t) == PaidAfter(g, t, k + 1);
    }
  }

  // Over a whole award: short of all its tranches exactly k equal parts are paid, and after the
  // last exactly what was granted.
  lemma ScheduleIsExact(a: Award)
    requires OnSchedule(a)
    ensures a.tranchesReleased < a.tranches ==> a.released == a.tranchesReleased * (a.granted / a.tranches)
    ensures a.tranchesReleased == a.tranches ==> a.released == a.granted
    ensures 0 <= a.released <= a.granted
  {
    DivBounds(a.granted, a.tranches);
    MulMonotone(a.tranchesReleased, a.tranches, a.granted / a.tranches);
    MulMonotone(0, a.tranchesReleased, a.granted / a.tranches);
    MulMonotone(0, a.granted / a.tranches, a.tranchesReleased);
  }

  lemma DisburseKeepsSchedule(w: World, recipient: Address, uid: Uid)
    requires AllOnSchedule(w.p)
    requires recipient in w.p.awards && w.p.awards[recipient].tranchesReleased < w.p.awards[recipient].tranches
    requires Disburse(w, recipient, w.p.awards[recipient], uid).Ok?
    ensures var next := Disburse(w, recipient, w.p.awards[recipient], uid).value.p;
            AllOnSchedule(next) && recipient in next.awards && next.awards[recipient] == Advanced(w.p.awards[recipient])
  {
    DisburseBooks(w, recipient, w.p.awards[recipient], uid);
    NextOnSchedule(w.p.awards[recipient]);
    hide Disburse;
  }

  lemma {:induction false} EachKeepsSchedule(w: World, recipient: Address, uids: seq<Uid>, attester: Address)
    requires AllOnSchedule(w.p)
    requires recipient in w.p.awards
    requires |uids| <= w.p.awards[recipient].tranches - w.p.awards[recipient].tranchesReleased
    requires ReleaseEach(w, recipient, uids, attester).Ok?
    ensures AllOnSchedule(ReleaseEach(w, recipient, uids, attester).value.0.p)
    decreases |uids|
  {
    hide Disburse, AllOnSchedule, ProofGuard;
    if uids != [] {
      DisburseKeepsSchedule(w, recipient, uids[0]);
      EachKeepsSchedule(Disburse(w, recipient, w.p.awards[recipient], uids[0]).value, recipient, uids[1..], attester);
    }
  }

  // A batch fits when it names no more proofs than the award has tranches left.
  predicate Fits(w: World, call: Call) {
    call.CallReleaseBatch? && call.recipient in w.p.awards ==>
      |call.uids| <= w.p.awards[call.recipient].tranches - w.p.awards[call.recipient].tranchesReleased
  }

  lemma NextKeepsSchedule(w: World, call: Call)
    requires AllOnSchedule(w.p) && Fits(w, call)
    requires AllAwardsSound(w.p) && 0 < w.p.config.tranches
    requires AllAwardsSound(Next(w, call).p)
    ensures AllOnSchedule(Next(w, call).p)
  {
    hide Disburse, ReleaseEach, ProofGuard, AllAwardsSound;
    if IsRelease(call) {
      if Step(w, call).Ok? {
        if call.CallRelease? {
          DisburseKeepsSchedule(w, call.recipient, call.uid);
        } else {
          EachKeepsSchedule(w, call.recipient, call.uids, call.attester);
        }
      }
    } else if call.CallFinalize? {
      if Step(w, call).Ok? {
        FreshAwardOnSchedule(w, call.applicant, call.payee, call.mode);
      }
    } else {
      OthersKeepAwardMap(w, call);
      hide Next;
    }
  }

  lemma FreshAwardOnSchedule(w: World, applicant: Address, payee: Address, mode: Mode)
    requires AllOnSchedule(w.p) && 0 < w.p.config.tranches
    requires Finalize(w, applicant, payee, mode).Ok?
    requires AllAwardsSound(Finalize(w, applicant, payee, mode).value.0.p)
    ensures AllOnSchedule(Finalize(w, applicant, payee, mode).value.0.p)
  {
    assert AwardSound(Finalize(w, applicant, payee, mode).value.0.p, applicant);
    hide AwardDue;
  }

  lemma OthersKeepAwardMap(w: World, call: Call)
    requires !IsRelease(call) && !call.CallFinalize?
    ensures Next(w, call).p.awards == w.p.awards
  {
    if IsPeople(call) {
      hide Inserted, Removed;
    } else if IsMoney(call) {
      MoneyFrame(w, call);
      hide Next;
    } else if MovesClock(call) {
      ClockFrame(w, call);
      hide Next;
    } else {
      ControlFrame(w, call);
      hide Next;
    }
  }

  // ---- the award that standing refuses ----

  // With a minimum award set, no release is ever refused by the record for paying nothing; without
  // one it is, exactly for awards of fewer stroops than tranches, whose first tranche is zero.
  lemma ZeroTrancheExactly(p: Storage, r: Address)
    requires AllAwardsSound(p) && AllOnSchedule(p) && TermsSane(p.config)
    requires r in p.awards && p.awards[r].tranchesReleased == 0
    ensures NextTranche(p.awards[r]) == 0 <==> p.awards[r].granted < p.awards[r].tranches
    ensures 0 < p.config.minimumAward ==> 0 < NextTranche(p.awards[r])
  {
    assert AwardSound(p, r);
    NextOnSchedule(p.awards[r]);
  }

  lemma PositivityNeverBlocks(w: World, r: Address, uid: Uid)
    requires AllAwardsSound(w.p) && AllOnSchedule(w.p) && TermsSane(w.p.config)
    requires r in w.p.awards && w.p.awards[r].tranchesReleased < w.p.awards[r].tranches
    requires w.p.awards[r].tranches <= w.p.awards[r].granted
    ensures Disburse(w, r, w.p.awards[r], uid) != Err(CreditRejected(Record.InvalidAmount))
  {
    NextOnSchedule(w.p.awards[r]);
    hide NextTranche, PayOut;
    PayOutErrors(Booked(w, r, w.p.awards[r], uid), Booked(w, r, w.p.awards[r], uid).p.awards[r], NextTranche(w.p.awards[r]));
  }

  lemma PayOutErrors(w: World, a: Award, amount: int)
    ensures PayOut(w, a, amount).Err? ==> PayOut(w, a, amount).error in {Overflow, PolicyNotInstalled, TokenFailed}
  {
  }

  // ---- batches that do not fit ----

  // Past its last tranche an award keeps paying an equal part for every further proof.
  ghost predicate PastSchedule(a: Award) {
    && 0 < a.tranches <= a.tranchesReleased
    && 0 < a.granted
    && a.released == a.granted + (a.tranchesReleased - a.tranches) * (a.granted / a.tranches)
  }

  lemma {:induction false} EachPastSchedule(w: World, recipient: Address, uids: seq<Uid>, attester: Address)
    requires recipient in w.p.awards && PastSchedule(w.p.awards[recipient])
    requires ReleaseEach(w, recipient, uids, attester).Ok?
    ensures var next := ReleaseEach(w, recipient, uids, attester).value.0.p;
            && recipient in next.awards
            && next.awards[recipient].granted == w.p.awards[recipient].granted
            && next.awards[recipient].released - w.p.awards[recipient].released ==
               |uids| * (w.p.awards[recipient].granted / w.p.awards[recipient].tranches)
            && (uids != [] ==> 0 < w.p.awards[recipient].granted / w.p.awards[recipient].tranches)
    decreases |uids|
  {
    hide Disburse, ProofGuard;
    if uids != [] {
      var a := w.p.awards[recipient];
      var next := Disburse(w, recipient, a, uids[0]).value;
      DisburseBooks(w, recipient, a, uids[0]);
      var part := a.granted / a.tranches;
      assert NextTranche(a) == part;
      assert (a.tranchesReleased + 1 - a.tranches) * part == (a.tranchesReleased - a.tranches) * part + part;
      EachPastSchedule(next, recipient, uids[1..], attester);
      assert |uids| * part == |uids[1..]| * part + part;
    }
  }

  // The code promises one tranche per proof but checks for a fully released award only before its
  // loop: a batch that succeeds pays no more than was granted if and only if it fits.
  lemma {:induction false} BatchKeepsGrantExactly(w: World, recipient: Address, uids: seq<Uid>, attester: Address)
    requires recipient in w.p.awards && OnSchedule(w.p.awards[recipient])
    requires ReleaseEach(w, recipient, uids, attester).Ok?
    ensures var next := ReleaseEach(w, recipient, uids, attester).value.0.p;
            && recipient in next.awards
            && (next.awards[recipient].released <= w.p.awards[recipient].granted <==>
                |uids| <= w.p.awards[recipient].tranches - w.p.awards[recipient].tranchesReleased)
    decreases |uids|
  {
    hide Disburse, ProofGuard;
    var a := w.p.awards[recipient];
    ScheduleIsExact(a);
    if uids != [] {
      if a.tranchesReleased == a.tranches {
        assert PastSchedule(a);
        EachPastSchedule(w, recipient, uids, attester);
        MulMonotone(1, |uids|, a.granted / a.tranches);
      } else {
        var next := Disburse(w, recipient, a, uids[0]).value;
        DisburseBooks(w, recipient, a, uids[0]);
        NextOnSchedule(a);
        hide NextTranche;
        BatchKeepsGrantExactly(next, recipient, uids[1..], attester);
      }
    }
  }
}
