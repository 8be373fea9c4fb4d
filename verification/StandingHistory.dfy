// The off-chain check of a claimed credit history against the root a recipient's standing stores.
module StandingHistory {
  import opened Results
  import opened Ledger
  import opened HashChain
  import Record

  datatype Entry = Entry(
    programme: Address, amount: int, attestation: Bytes32, timestamp: int, root: Option<Bytes32>)
  {
    function Link(): Link {
      HashChain.Link(programme, amount, attestation, timestamp)
    }
  }

  datatype Verdict =
    | Genesis
    | Match
    | Mismatch(firstBadIndex: nat, computedRoot: Bytes32, claimedRoot: Option<Bytes32>, onChainRoot: Bytes32)
    | SimulationRejected(index: nat)  // `next_root` takes an i128 and a u64; other figures do not encode

  function Links(entries: seq<Entry>): (links: seq<Link>)
    ensures |links| == |entries|
    ensures forall i :: 0 <= i < |entries| ==> links[i] == entries[i].Link()
  {
    if entries == [] then [] else Links(entries[..|entries| - 1]) + [entries[|entries| - 1].Link()]
  }

  function RootAfter(codec: Codec, entries: seq<Entry>, count: nat): Bytes32
    requires count <= |entries|
  {
    Chain(codec, Links(entries)[..count])
  }

  predicate Stops(codec: Codec, entries: seq<Entry>, i: nat)
    requires i < |entries|
  {
    || !InRange(entries[i].Link())
    || (entries[i].root.Some? && entries[i].root.value != RootAfter(codec, entries, i + 1))
  }

  // The first entry at which the loop stops, or the number of entries.
  function FirstStop(codec: Codec, entries: seq<Entry>, from: nat): (i: nat)
    requires from <= |entries|
    ensures from <= i <= |entries|
    ensures forall k :: from <= k < i ==> !Stops(codec, entries, k)
    ensures i < |entries| ==> Stops(codec, entries, i)
    decreases |entries| - from
  {
    if from == |entries| || Stops(codec, entries, from) then from
    else FirstStop(codec, entries, from + 1)
  }

  function VerdictOn(codec: Codec, entries: seq<Entry>, onChain: Bytes32): Verdict {
    var i, n := FirstStop(codec, entries, 0), |entries|;
    if n == 0 then
      if ZERO_ROOT == onChain then Genesis else Mismatch(0, ZERO_ROOT, None, onChain)
    else if i < n then
      if InRange(entries[i].Link()) then Mismatch(i, RootAfter(codec, entries, i + 1), entries[i].root, onChain)
      else SimulationRejected(i)
    else if RootAfter(codec, entries, n) != onChain then
      Mismatch(n - 1, RootAfter(codec, entries, n), entries[n - 1].root, onChain)
    else Match
  }

  lemma RootAfterOne(codec: Codec, entries: seq<Entry>, i: nat)
    requires i < |entries|
    ensures RootAfter(codec, entries, i + 1) == Fold(codec, RootAfter(codec, entries, i), entries[i].Link())
  {
    assert Links(entries)[..i + 1][..i] == Links(entries)[..i];
  }

  method Verify(codec: Codec, entries: seq<Entry>, onChain: Bytes32) returns (verdict: Verdict)
    ensures verdict == VerdictOn(codec, entries, onChain)
  {
    if |entries| == 0 {
      if ZERO_ROOT == onChain {
        return Genesis;
      }
      return Mismatch(0, ZERO_ROOT, None, onChain);
    }
    var root := ZERO_ROOT;
    var index := 0;
    while index < |entries|
      invariant 0 <= index <= |entries|
      invariant root == RootAfter(codec, entries, index)
      invariant FirstStop(codec, entries, 0) == FirstStop(codec, entries, index)
    {
      var entry := entries[index];
      RootAfterOne(codec, entries, index);
      if !InRange(entry.Link()) {
        return SimulationRejected(index);
      }
      root := Fold(codec, root, entry.Link());
      if entry.root.Some? && root != entry.root.value {
        return Mismatch(index, root, entry.root, onChain);
      }
      index := index + 1;
    }
    if root != onChain {
      return Mismatch(|entries| - 1, root, entries[|entries| - 1].root, onChain);
    }
    verdict := Match;
  }

  predicate Accepted(verdict: Verdict) {
    verdict.Match? || verdict.Genesis?
  }

  // The subject's log as the contract's events publish it: every credit with the root after it.
  function Published(codec: Codec, log: seq<Record.Credit>): (entries: seq<Entry>)
    ensures |entries| == |log|
    ensures forall i :: 0 <= i < |log| ==>
              entries[i] == Entry(log[i].programme, log[i].amount, codec.raw(log[i].attestation), log[i].at,
                                  Some(Chain(codec, Record.Links(codec, log)[..i + 1])))
  {
    seq(|log|, i requires 0 <= i < |log| =>
      Entry(log[i].programme, log[i].amount, codec.raw(log[i].attestation), log[i].at,
            Some(Chain(codec, Record.Links(codec, log)[..i + 1]))))
  }

  // `entries` is `published`, where a recorded root may be missing.
  ghost predicate Claims(entries: seq<Entry>, published: seq<Entry>) {
    && |entries| == |published|
    && forall i :: 0 <= i < |entries| ==>
         entries[i].Link() == published[i].Link() &&
         (entries[i].root == None || entries[i].root == published[i].root)
  }

  ghost predicate Reproduced(codec: Codec, entries: seq<Entry>, i: nat)
    requires i < |entries|
  {
    entries[i].root == None || entries[i].root == Some(Chain(codec, Links(entries)[..i + 1]))
  }

  lemma {:induction false} LoopCompletes(codec: Codec, entries: seq<Entry>)
    ensures FirstStop(codec, entries, 0) == |entries| <==>
            AllInRange(Links(entries)) && forall i :: 0 <= i < |entries| ==> Reproduced(codec, entries, i)
  {
    var stop := FirstStop(codec, entries, 0);
    if stop == |entries| {
      forall i | 0 <= i < |entries|
        ensures InRange(Links(entries)[i]) && Reproduced(codec, entries, i)
      {
        assert !Stops(codec, entries, i);
      }
    } else {
      assert Stops(codec, entries, stop);
      assert Links(entries)[stop] == entries[stop].Link();
      assert !InRange(Links(entries)[stop]) || !Reproduced(codec, entries, stop);
    }
  }

  lemma {:induction false} AcceptedMeaning(codec: Codec, entries: seq<Entry>, onChain: Bytes32)
    ensures Accepted(VerdictOn(codec, entries, onChain)) <==>
            && AllInRange(Links(entries))
            && Chain(codec, Links(entries)) == onChain
            && forall i :: 0 <= i < |entries| ==> Reproduced(codec, entries, i)
  {
    LoopCompletes(codec, entries);
    assert Links(entries)[..|entries|] == Links(entries);
  }

  function StoredRoot(b: Record.Book, subject: Address): Bytes32 {
    if subject in b.standings then b.standings[subject].historyRoot else ZERO_ROOT
  }

  lemma {:induction false} LogInRange(codec: Codec, credits: seq<Record.Credit>, subject: Address)
    requires forall i :: 0 <= i < |credits| ==> 0 < credits[i].amount <= I128_MAX && credits[i].at <= U64_MAX
    ensures AllInRange(Record.Links(codec, Record.LogOf(credits, subject)))
  {
    if credits != [] {
      LogInRange(codec, credits[..|credits| - 1], subject);
    }
  }

  lemma {:induction false} ClaimsWhenSameLinks(codec: Codec, entries: seq<Entry>, log: seq<Record.Credit>)
    requires Links(entries) == Record.Links(codec, log)
    ensures Claims(entries, Published(codec, log)) <==>
            forall i :: 0 <= i < |entries| ==> Reproduced(codec, entries, i)
  {
    assert |entries| == |Links(entries)|;
    var published := Published(codec, log);
    forall i | 0 <= i < |entries|
      ensures entries[i].Link() == published[i].Link()
      ensures Reproduced(codec, entries, i) <==> entries[i].root == None || entries[i].root == published[i].root
    {
      assert entries[i].Link() == Links(entries)[i];
    }
  }

  lemma {:induction false} SameLinks(codec: Codec, entries: seq<Entry>, log: seq<Record.Credit>)
    requires Claims(entries, Published(codec, log))
    ensures Links(entries) == Record.Links(codec, log)
  {
    var published := Published(codec, log);
    forall i | 0 <= i < |entries|
      ensures Links(entries)[i] == Record.Links(codec, log)[i]
    {
      assert Links(entries)[i] == entries[i].Link() == published[i].Link();
    }
  }

  lemma {:induction false} AcceptsExactly(codec: Codec, log: seq<Record.Credit>, entries: seq<Entry>, hashed: set<seq<byte>>)
    requires XdrInjective(codec) && CollisionFree(codec, hashed)
    requires AllInRange(Record.Links(codec, log))
    requires Covers(codec, hashed, Record.Links(codec, log)) && Covers(codec, hashed, Links(entries))
    ensures Accepted(VerdictOn(codec, entries, Chain(codec, Record.Links(codec, log)))) <==>
            Claims(entries, Published(codec, log))
  {
    var links := Record.Links(codec, log);
    AcceptedMeaning(codec, entries, Chain(codec, links));
    if AllInRange(Links(entries)) && Chain(codec, Links(entries)) == Chain(codec, links) {
      ChainInjective(codec, hashed, Links(entries), links);
    }
    if Claims(entries, Published(codec, log)) {
      SameLinks(codec, entries, log);
    }
    if Links(entries) == links {
      ClaimsWhenSameLinks(codec, entries, log);
    }
  }

  // Without collisions among the strings actually hashed, the check accepts exactly the subject's
  // own log in order, each recorded root being the one its event published.
  lemma {:induction false} AcceptsExactlyTheLog(codec: Codec, b: Record.Book, subject: Address, entries: seq<Entry>, hashed: set<seq<byte>>)
    requires Record.BookSound(codec, b)
    requires XdrInjective(codec) && CollisionFree(codec, hashed)
    requires Covers(codec, hashed, Record.Links(codec, Record.LogOf(b.credits, subject)))
    requires Covers(codec, hashed, Links(entries))
    ensures Accepted(VerdictOn(codec, entries, StoredRoot(b, subject))) <==>
            Claims(entries, Published(codec, Record.LogOf(b.credits, subject)))
  {
    assert Record.SubjectSound(codec, b, subject);
    LogInRange(codec, b.credits, subject);
    AcceptsExactly(codec, Record.LogOf(b.credits, subject), entries, hashed);
  }

  // Whatever the hash, the published log is accepted: no honest history is ever refused.
  lemma {:induction false} PublishedLogAccepted(codec: Codec, b: Record.Book, subject: Address)
    requires Record.BookSound(codec, b)
    ensures Accepted(VerdictOn(codec, Published(codec, Record.LogOf(b.credits, subject)), StoredRoot(b, subject)))
  {
    var log := Record.LogOf(b.credits, subject);
    assert Record.SubjectSound(codec, b, subject);
    assert Links(Published(codec, log)) == Record.Links(codec, log);
    LogInRange(codec, b.credits, subject);
    AcceptedMeaning(codec, Published(codec, log), StoredRoot(b, subject));
  }

  // A mismatch that claims a recorded root names the least entry whose recorded root the chain
  // of the entries up to it does not reproduce; a mismatch found only at the end names the last entry.
  lemma {:induction false} MismatchIsLeast(codec: Codec, entries: seq<Entry>, onChain: Bytes32)
    requires VerdictOn(codec, entries, onChain).Mismatch?
    ensures entries == [] ==> VerdictOn(codec, entries, onChain) == Mismatch(0, ZERO_ROOT, None, onChain)
    ensures entries != [] ==>
              var v := VerdictOn(codec, entries, onChain);
              && v.firstBadIndex < |entries|
              && v.claimedRoot == entries[v.firstBadIndex].root && v.onChainRoot == onChain
              && v.computedRoot == Chain(codec, Links(entries)[..v.firstBadIndex + 1])
              && (forall k :: 0 <= k < v.firstBadIndex ==>
                    InRange(entries[k].Link()) && Reproduced(codec, entries, k))
              && (Reproduced(codec, entries, v.firstBadIndex) ==>
                    v.firstBadIndex == |entries| - 1 && v.computedRoot != onChain)
  {
    hide FirstStop, InRange, Reproduced;
    GoodBeforeStop(codec, entries);
    StopIsBad(codec, entries);
  }

  lemma GoodBeforeStop(codec: Codec, entries: seq<Entry>)
    ensures forall k :: 0 <= k < FirstStop(codec, entries, 0) ==> InRange(entries[k].Link()) && Reproduced(codec, entries, k)
  {
    hide InRange;
    forall k | 0 <= k < FirstStop(codec, entries, 0)
      ensures InRange(entries[k].Link()) && Reproduced(codec, entries, k)
    {
      assert !Stops(codec, entries, k);
    }
  }

  lemma StopIsBad(codec: Codec, entries: seq<Entry>)
    ensures var i := FirstStop(codec, entries, 0);
            i < |entries| ==> !InRange(entries[i].Link()) || !Reproduced(codec, entries, i)
  {
    hide InRange;
  }

  // An empty history is a genesis exactly when nothing is stored.
  lemma GenesisExactly(codec: Codec, entries: seq<Entry>, onChain: Bytes32)
    ensures VerdictOn(codec, entries, onChain).Genesis? <==> entries == [] && onChain == ZERO_ROOT
  {
    hide FirstStop, RootAfter;
  }

  // A history is rejected at the first entry whose figures do not encode, if every root before it is
  // reproduced.
  lemma {:induction false} RejectedExactly(codec: Codec, entries: seq<Entry>, onChain: Bytes32, i: nat)
    ensures VerdictOn(codec, entries, onChain) == SimulationRejected(i) <==>
            && i < |entries| && !InRange(entries[i].Link())
            && forall k :: 0 <= k < i ==> InRange(entries[k].Link()) && Reproduced(codec, entries, k)
  {
    var stop := FirstStop(codec, entries, 0);
    assert forall k :: 0 <= k < |entries| ==>
             (Stops(codec, entries, k) <==> !InRange(entries[k].Link()) || !Reproduced(codec, entries, k));
    hide Reproduced, InRange, RootAfter, Stops;
    if i < |entries| && Stops(codec, entries, i) && stop < i {
      assert Stops(codec, entries, stop);
    }
  }
}
