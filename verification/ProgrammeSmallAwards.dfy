// Awards of fewer stroops than tranches: settled, and never released by any call of any run.
module ProgrammeSmallAwards {
  import opened Results
  import opened Ledger
  import opened Arithmetic
  import opened Programme
  import opened ProgrammeTerms
  import opened ProgrammeVotes
  import opened ProgrammeAwards
  import opened ProgrammeTranches

  predicate Untouched(a: Award) {
    a.tranchesReleased == 0 && a.released == 0
  }

  ghost predicate SmallUntouched(p: Storage) {
    forall r :: r in p.awards ==>
      0 < p.awards[r].granted && (p.awards[r].granted < p.awards[r].tranches ==> Untouched(p.awards[r]))
  }

  // The first of more tranches than stroops is zero, which the record refuses.
  lemma SmallDisburseFails(w: World, r: Address, a: Award, uid: Uid)
    requires 0 < a.granted < a.tranches && Untouched(a)
    ensures Disburse(w, r, a, uid).Err?
  {
    DivBelow(a.granted, a.tranches, 1);
    assert NextTranche(a) <= 0;
    hide Disburse, NextTranche;
    if Disburse(w, r, a, uid).Ok? {
      DisburseBooks(w, r, a, uid);
      assert false;
    }
  }

  lemma DisburseKeepsSmall(w: World, r: Address, uid: Uid)
    requires SmallUntouched(w.p) && r in w.p.awards
    requires Disburse(w, r, w.p.awards[r], uid).Ok?
    ensures SmallUntouched(Disburse(w, r, w.p.awards[r], uid).value.p)
  {
    var a := w.p.awards[r];
    hide Disburse, NextTranche;
    assert a.tranches <= a.granted by {
      if a.granted < a.tranches {
        SmallDisburseFails(w, r, a, uid);
      }
    }
    DisburseBooks(w, r, a, uid);
  }

  lemma {:induction false} EachKeepsSmall(w: World, r: Address, uids: seq<Uid>, attester: Address)
    requires SmallUntouched(w.p)
    requires ReleaseEach(w, r, uids, attester).Ok?
    ensures SmallUntouched(ReleaseEach(w, r, uids, attester).value.0.p)
    decreases |uids|
  {
    hide Disburse, SmallUntouched, ProofGuard;
    if uids != [] {
      DisburseKeepsSmall(w, r, uids[0]);
      EachKeepsSmall(Disburse(w, r, w.p.awards[r], uids[0]).value, r, uids[1..], attester);
    }
  }

  lemma FinalizeKeepsSmall(w: World, applicant: Address, payee: Address, mode: Mode)
    requires SmallUntouched(w.p) && AllVotesSound(w.p)
    requires Finalize(w, applicant, payee, mode).Ok?
    ensures SmallUntouched(Finalize(w, applicant, payee, mode).value.0.p)
  {
    assert VotesSound(w.p, applicant);
  }

  lemma NextKeepsSmall(w: World, call: Call)
    requires SmallUntouched(w.p) && AllVotesSound(w.p)
    ensures SmallUntouched(Next(w, call).p)
  {
    hide SmallUntouched, AllVotesSound, Disburse, ReleaseEach, Finalize, ProofGuard;
    if IsRelease(call) {
      if Step(w, call).Ok? {
        if call.CallRelease? {
          DisburseKeepsSmall(w, call.recipient, call.uid);
        } else {
          EachKeepsSmall(w, call.recipient, call.uids, call.attester);
        }
      }
    } else if call.CallFinalize? {
      if Step(w, call).Ok? {
        FinalizeKeepsSmall(w, call.applicant, call.payee, call.mode);
      }
    } else {
      hide Next;
      OthersKeepAwardMap(w, call);
      SameAwardMap(w.p, Next(w, call).p);
    }
  }

  lemma SameAwardMap(p: Storage, q: Storage)
    requires SmallUntouched(p) && q.awards == p.awards
    ensures SmallUntouched(q)
  {
  }

  lemma {:induction false} RunKeepsSmall(w: World, calls: seq<Call>)
    requires Deployed(w)
    ensures SmallUntouched(Exec(w, calls).p)
    decreases |calls|
  {
    if calls != [] {
      hide SmallUntouched, AllVotesSound, Deployed, Next;
      RunKeepsSmall(w, calls[..|calls| - 1]);
      RunKeepsVotes(w, calls[..|calls| - 1]);
      NextKeepsSmall(Exec(w, calls[..|calls| - 1]), calls[|calls| - 1]);
    }
  }

  lemma SmallRefused(w: World, r: Address, uid: Uid, uids: seq<Uid>, attester: Address)
    requires SmallUntouched(w.p)
    requires r in w.p.awards && w.p.awards[r].granted < w.p.awards[r].tranches
    ensures Release(w, r, uid, attester).Err? && ReleaseBatch(w, r, uids, attester).Err?
  {
    SmallDisburseFails(w, r, w.p.awards[r], uid);
    if uids != [] {
      SmallDisburseFails(w, r, w.p.awards[r], uids[0]);
    }
    hide Disburse, ProofGuard;
  }

  // After any run, whatever its batches: such an award has released nothing, and neither a single
  // release nor a batch of any proofs goes through on it.
  lemma {:induction false} TooSmallNeverReleases(w: World, calls: seq<Call>, r: Address, uid: Uid, uids: seq<Uid>, attester: Address)
    requires Deployed(w)
    requires r in Exec(w, calls).p.awards
    requires Exec(w, calls).p.awards[r].granted < Exec(w, calls).p.awards[r].tranches
    ensures var v := Exec(w, calls);
            && v.p.awards[r].tranchesReleased == 0 && v.p.awards[r].released == 0
            && Release(v, r, uid, attester).Err?
            && ReleaseBatch(v, r, uids, attester).Err?
  {
    RunKeepsSmall(w, calls);
    hide Exec, Deployed, Release, ReleaseBatch;
    SmallRefused(Exec(w, calls), r, uid, uids, attester);
  }
}
