// A batch of releases against the same releases called one by one.
module ProgrammeBatch {
  import opened Results
  import opened Ledger
  import opened Programme
  import opened ProgrammeTerms
  import opened ProgrammeAwards
  import opened ProgrammeTranches

  // `release` once per proof, in order, stopping at the first refusal.
  function OneByOne(w: World, recipient: Address, uids: seq<Uid>, attester: Address): Result<(World, int), Error>
    decreases |uids|
  {
    if uids == [] then Ok((w, 0))
    else
      var first :- Release(w, recipient, uids[0], attester);
      AddTotal(first.1, OneByOne(first.0, recipient, uids[1..], attester))
  }

  // The checks a release makes before it looks at its proof.
  predicate Ready(w: World, attester: Address) {
    !w.p.paused && ReleaseGuard(w, attester).Pass?
  }

  function TranchesLeft(w: World, recipient: Address): int {
    if recipient in w.p.awards then w.p.awards[recipient].tranches - w.p.awards[recipient].tranchesReleased else 0
  }

  lemma ReleaseWhenReady(w: World, recipient: Address, uid: Uid, attester: Address)
    requires Ready(w, attester) && 0 < TranchesLeft(w, recipient)
    ensures var a := w.p.awards[recipient];
            Release(w, recipient, uid, attester) ==
            if ProofGuard(w, recipient, uid, attester).Stop? then Err(ProofGuard(w, recipient, uid, attester).error)
            else
              match Disburse(w, recipient, a, uid)
              case Ok(next) => Ok((next, NextTranche(a)))
              case Err(e) => Err(e)
  {
    hide Disburse, ProofGuard, ReleaseGuard, NextTranche;
  }

  lemma DisburseKeepsReady(w: World, recipient: Address, uid: Uid, attester: Address)
    requires Ready(w, attester) && recipient in w.p.awards
    requires Disburse(w, recipient, w.p.awards[recipient], uid).Ok?
    ensures var next := Disburse(w, recipient, w.p.awards[recipient], uid).value;
            && Ready(next, attester) && recipient in next.p.awards
            && TranchesLeft(next, recipient) == TranchesLeft(w, recipient) - 1
  {
    DisburseBooks(w, recipient, w.p.awards[recipient], uid);
    hide Disburse, NextTranche;
  }

  lemma {:induction false} EachIsOneByOne(w: World, recipient: Address, uids: seq<Uid>, attester: Address)
    requires Ready(w, attester) && recipient in w.p.awards
    requires |uids| <= TranchesLeft(w, recipient)
    ensures ReleaseEach(w, recipient, uids, attester) == OneByOne(w, recipient, uids, attester)
    decreases |uids|
  {
    hide Disburse, ProofGuard, Release, NextTranche, Ready;
    if uids != [] {
      ReleaseWhenReady(w, recipient, uids[0], attester);
      if Disburse(w, recipient, w.p.awards[recipient], uids[0]).Ok? {
        DisburseKeepsReady(w, recipient, uids[0], attester);
        EachIsOneByOne(Disburse(w, recipient, w.p.awards[recipient], uids[0]).value, recipient, uids[1..], attester);
      }
    }
  }

  lemma ReleaseNeedsMore(w: World, recipient: Address, uid: Uid, attester: Address)
    requires Release(w, recipient, uid, attester).Ok?
    ensures Ready(w, attester) && 0 < TranchesLeft(w, recipient)
    ensures TranchesLeft(Release(w, recipient, uid, attester).value.0, recipient) == TranchesLeft(w, recipient) - 1
  {
    DisburseBooks(w, recipient, w.p.awards[recipient], uid);
    hide Disburse, NextTranche, ProofGuard;
  }

  // One by one, an award never pays more tranches than it has left.
  lemma {:induction false} OneByOneFits(w: World, recipient: Address, uids: seq<Uid>, attester: Address)
    requires uids != [] && OneByOne(w, recipient, uids, attester).Ok?
    ensures recipient in w.p.awards && |uids| <= TranchesLeft(w, recipient)
    decreases |uids|
  {
    hide Release;
    ReleaseNeedsMore(w, recipient, uids[0], attester);
    if |uids| > 1 {
      OneByOneFits(Release(w, recipient, uids[0], attester).value.0, recipient, uids[1..], attester);
    }
  }

  // On an unpaused programme a batch that fits its award goes through exactly if it names one to fifty
  // proofs and no release of them in order is refused, and is then those releases: the same awards,
  // allocations, payments, credits and total.
  lemma {:induction false} BatchIsOneByOne(w: World, recipient: Address, uids: seq<Uid>, attester: Address)
    requires !w.p.paused
    requires Fits(w, CallReleaseBatch(recipient, uids, attester))
    ensures ReleaseBatch(w, recipient, uids, attester).Ok? <==>
            1 <= |uids| <= 50 && OneByOne(w, recipient, uids, attester).Ok?
    ensures 1 <= |uids| <= 50 && recipient in w.p.awards ==>
              ReleaseBatch(w, recipient, uids, attester) == OneByOne(w, recipient, uids, attester)
  {
    hide ReleaseEach, OneByOne;
    if uids == [] || |uids| > 50 {
      WrongSize(w, recipient, uids, attester);
    } else if recipient in w.p.awards && Ready(w, attester) {
      EachIsOneByOne(w, recipient, uids, attester);
    } else {
      FirstRefused(w, recipient, uids, attester);
    }
  }

  lemma WrongSize(w: World, recipient: Address, uids: seq<Uid>, attester: Address)
    requires uids == [] || |uids| > 50
    ensures ReleaseBatch(w, recipient, uids, attester).Err?
  {
  }

  lemma {:induction false} FirstRefused(w: World, recipient: Address, uids: seq<Uid>, attester: Address)
    requires uids != [] && !w.p.paused
    requires recipient !in w.p.awards || ReleaseGuard(w, attester).Stop?
    ensures OneByOne(w, recipient, uids, attester).Err?
    ensures ReleaseGuard(w, attester).Stop? ==>
              OneByOne(w, recipient, uids, attester) == Err(ReleaseGuard(w, attester).error)
  {
    hide Disburse, ProofGuard, ReleaseGuard;
  }

  // Whenever a batch goes through, it is the releases one by one if and only if it fits.
  lemma {:induction false} BatchIsOneByOneExactly(w: World, recipient: Address, uids: seq<Uid>, attester: Address)
    requires !w.p.paused
    requires ReleaseBatch(w, recipient, uids, attester).Ok?
    ensures ReleaseBatch(w, recipient, uids, attester) == OneByOne(w, recipient, uids, attester) <==>
            Fits(w, CallReleaseBatch(recipient, uids, attester))
  {
    hide ReleaseEach, OneByOne, ReleaseGuard;
    if Fits(w, CallReleaseBatch(recipient, uids, attester)) {
      BatchIsOneByOne(w, recipient, uids, attester);
    } else if OneByOne(w, recipient, uids, attester).Ok? {
      OneByOneFits(w, recipient, uids, attester);
    }
  }
}
