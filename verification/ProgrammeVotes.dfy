// The votes of every application over any run: the vector is exactly the reviewers' last votes.
module ProgrammeVotes {
  import opened Results
  import opened Ledger
  import opened MapSums
  import opened Votes
  import opened Programme
  import opened ProgrammeTerms

  ghost predicate VotesSound(p: Storage, applicant: Address) {
    applicant in p.applications ==>
      var a := p.applications[applicant];
      && Ascending(a.votes)
      && HoldsValues(VotesFor(p, applicant), multiset(a.votes))
      && (forall i :: 0 <= i < |a.votes| ==> 0 < a.votes[i] <= a.requested)
  }

  ghost predicate AllVotesSound(p: Storage) {
    && (forall a :: VotesSound(p, a))
    && (forall a :: a in p.voted ==> a in p.applications && p.voted[a].Keys <= p.reviewers)
  }

  lemma EditedInRange(votes: seq<int>, edited: seq<int>, v: int, low: int, high: int)
    requires forall i :: 0 <= i < |votes| ==> low <= votes[i] <= high
    requires low <= v <= high
    requires multiset(edited) <= multiset(votes) + multiset{v}
    ensures forall i :: 0 <= i < |edited| ==> low <= edited[i] <= high
  {
    forall i | 0 <= i < |edited|
      ensures low <= edited[i] <= high
    {
      assert edited[i] in multiset(edited);
      assert edited[i] in votes || edited[i] == v;
    }
  }

  function Kept(ballots: map<Address, int>, votes: seq<int>, reviewer: Address): seq<int> {
    if reviewer in ballots then Removed(votes, ballots[reviewer]) else votes
  }

  // One vote, first or amended, on a vector that holds the ballots.
  lemma VoteKeepsOrder(ballots: map<Address, int>, votes: seq<int>, reviewer: Address, approved: int)
    requires Ascending(votes) && HoldsValues(ballots, multiset(votes))
    ensures Ascending(Inserted(Kept(ballots, votes, reviewer), approved))
  {
    HoldsUpdate(ballots, multiset(votes), reviewer, approved);
    if reviewer in ballots {
      assert ballots[reviewer] in votes;
      RemoveKeepsOrder(votes, ballots[reviewer]);
    }
    InsertKeepsOrder(Kept(ballots, votes, reviewer), approved);
  }

  lemma VoteKeepsValues(ballots: map<Address, int>, votes: seq<int>, reviewer: Address, approved: int)
    requires HoldsValues(ballots, multiset(votes))
    ensures HoldsValues(ballots[reviewer := approved], multiset(Inserted(Kept(ballots, votes, reviewer), approved)))
    ensures multiset(Inserted(Kept(ballots, votes, reviewer), approved)) <= multiset(votes) + multiset{approved}
  {
    hide HoldsValues, Inserted, Removed;
    HoldsUpdate(ballots, multiset(votes), reviewer, approved);
    if reviewer in ballots {
      assert ballots[reviewer] in votes;
      RemoveTakesOne(votes, ballots[reviewer]);
      assert multiset(Removed(votes, ballots[reviewer])) == multiset(votes) - multiset{ballots[reviewer]};
    }
    InsertAddsOne(Kept(ballots, votes, reviewer), approved);
  }

  lemma ReviewKeepsOwn(w: World, reviewer: Address, applicant: Address, approved: int)
    requires VotesSound(w.p, applicant)
    requires Reviewed(w, reviewer, applicant, approved).Ok?
    ensures VotesSound(Reviewed(w, reviewer, applicant, approved).value.p, applicant)
  {
    hide Reviewed, Inserted, Kept, HoldsValues, Ascending, VotesFor;
    ReviewWrites(w, reviewer, applicant, approved);
    var a, ballots := w.p.applications[applicant], VotesFor(w.p, applicant);
    VoteKeepsOrder(ballots, a.votes, reviewer, approved);
    VoteKeepsValues(ballots, a.votes, reviewer, approved);
    EditedInRange(a.votes, Inserted(Kept(ballots, a.votes, reviewer), approved), approved, 1, a.requested);
  }

  lemma ReviewWrites(w: World, reviewer: Address, applicant: Address, approved: int)
    requires Reviewed(w, reviewer, applicant, approved).Ok?
    ensures applicant in w.p.applications && 0 < approved <= w.p.applications[applicant].requested
    ensures var a, ballots := w.p.applications[applicant], VotesFor(w.p, applicant);
            var next := Reviewed(w, reviewer, applicant, approved).value.p;
            && applicant in next.applications
            && next.applications[applicant] == a.(votes := Inserted(Kept(ballots, a.votes, reviewer), approved))
            && VotesFor(next, applicant) == ballots[reviewer := approved]
  {
    hide Inserted, Removed;
  }

  lemma ReviewFields(w: World, reviewer: Address, applicant: Address, approved: int)
    requires Reviewed(w, reviewer, applicant, approved).Ok?
    ensures reviewer in w.p.reviewers && applicant in w.p.applications
    ensures var next := Reviewed(w, reviewer, applicant, approved).value.p;
            && applicant in next.applications
            && next.applications == w.p.applications[applicant := next.applications[applicant]]
            && next.voted == w.p.voted[applicant := VotesFor(w.p, applicant)[reviewer := approved]]
            && next.reviewers == w.p.reviewers
  {
    hide Inserted, Removed, VotesFor;
  }

  lemma ReviewTouchesOne(w: World, reviewer: Address, applicant: Address, approved: int)
    requires AllVotesSound(w.p)
    requires Reviewed(w, reviewer, applicant, approved).Ok?
    ensures var next := Reviewed(w, reviewer, applicant, approved).value.p;
            && (forall b :: b in next.applications && b != applicant ==>
                  b in w.p.applications && next.applications[b] == w.p.applications[b])
            && (forall b :: b != applicant ==> VotesFor(next, b) == VotesFor(w.p, b))
            && (forall b :: b in next.voted ==> b in next.applications && next.voted[b].Keys <= next.reviewers)
  {
    hide Reviewed, VotesSound;
    ReviewFields(w, reviewer, applicant, approved);
  }

  lemma VotesSoundByFields(p: Storage, q: Storage, b: Address)
    requires VotesSound(p, b) && VotesFor(q, b) == VotesFor(p, b)
    requires b in q.applications ==> b in p.applications && q.applications[b] == p.applications[b]
    ensures VotesSound(q, b)
  {
    hide VotesFor, HoldsValues;
  }

  lemma ReviewKeepsVotes(w: World, reviewer: Address, applicant: Address, approved: int)
    requires AllVotesSound(w.p)
    requires Reviewed(w, reviewer, applicant, approved).Ok?
    ensures AllVotesSound(Reviewed(w, reviewer, applicant, approved).value.p)
  {
    hide Reviewed, VotesFor, VotesSound;
    var next := Reviewed(w, reviewer, applicant, approved).value.p;
    ReviewTouchesOne(w, reviewer, applicant, approved);
    forall b
      ensures VotesSound(next, b)
    {
      assert VotesSound(w.p, b);
      if b == applicant {
        ReviewKeepsOwn(w, reviewer, applicant, approved);
      } else {
        VotesSoundByFields(w.p, next, b);
      }
    }
  }

  lemma ApplyKeepsVotes(w: World, applicant: Address, requested: int)
    requires AllVotesSound(w.p)
    requires Apply(w, applicant, requested).Ok?
    ensures AllVotesSound(Apply(w, applicant, requested).value.p)
  {
    var next := Apply(w, applicant, requested).value.p;
    assert applicant !in w.p.voted;
    var none: map<Address, int> := map[];
    assert HoldsValues(none, multiset([]));
    forall b
      ensures VotesSound(next, b)
    {
      assert VotesSound(w.p, b);
    }
  }

  lemma SameVotes(p: Storage, q: Storage)
    requires AllVotesSound(p)
    requires q.voted == p.voted && q.reviewers == p.reviewers && q.applications.Keys == p.applications.Keys
    requires forall a :: a in p.applications ==>
               q.applications[a].votes == p.applications[a].votes && q.applications[a].requested == p.applications[a].requested
    ensures AllVotesSound(q)
  {
    forall b
      ensures VotesSound(q, b)
    {
      assert VotesSound(p, b);
    }
  }

  lemma WithdrawKeepsVotes(w: World, applicant: Address)
    requires AllVotesSound(w.p)
    requires Withdraw(w, applicant).Ok?
    ensures AllVotesSound(Withdraw(w, applicant).value.p)
  {
    hide AllVotesSound;
    SameVotes(w.p, Withdraw(w, applicant).value.p);
  }

  lemma FinalizeKeepsVotes(w: World, applicant: Address, payee: Address, mode: Mode)
    requires AllVotesSound(w.p)
    requires Finalize(w, applicant, payee, mode).Ok?
    ensures AllVotesSound(Finalize(w, applicant, payee, mode).value.0.p)
  {
    hide AllVotesSound;
    SameVotes(w.p, Finalize(w, applicant, payee, mode).value.0.p);
  }

  lemma PeopleKeepVotes(w: World, call: Call)
    requires AllVotesSound(w.p) && IsPeople(call)
    ensures AllVotesSound(Next(w, call).p)
  {
    hide Apply, Reviewed, Withdraw, Finalize, AllVotesSound;
    if Step(w, call).Ok? {
      match call
      case CallReview(r, a, n) => ReviewKeepsVotes(w, r, a, n);
      case CallApply(a, n) => ApplyKeepsVotes(w, a, n);
      case CallWithdraw(a) => WithdrawKeepsVotes(w, a);
      case CallFinalize(a, p, m) => FinalizeKeepsVotes(w, a, p, m);
    }
  }

  lemma NextKeepsVotes(w: World, call: Call)
    requires AllVotesSound(w.p)
    ensures AllVotesSound(Next(w, call).p)
  {
    hide AllVotesSound, Next;
    if IsPeople(call) {
      PeopleKeepVotes(w, call);
    } else {
      NextFollows(w, call);
      OthersKeepVotes(w, call);
      SameVotes(w.p, Next(w, call).p);
    }
  }

  lemma OthersKeepVotes(w: World, call: Call)
    requires !IsPeople(call)
    ensures Next(w, call).p.voted == w.p.voted && Next(w, call).p.applications == w.p.applications
  {
    hide Next;
    if IsRelease(call) {
      ReleaseFrame(w, call);
    } else if IsMoney(call) {
      MoneyFrame(w, call);
    } else if MovesClock(call) {
      ClockFrame(w, call);
    } else {
      ControlFrame(w, call);
    }
  }

  // ---- over a run ----

  // The last vote each reviewer got accepted on `applicant`.
  function LastVotes(w: World, calls: seq<Call>, applicant: Address): map<Address, int>
    decreases |calls|
  {
    if calls == [] then VotesFor(w.p, applicant)
    else
      var n := |calls| - 1;
      var before, call := LastVotes(w, calls[..n], applicant), calls[n];
      if call.CallReview? && call.applicant == applicant && Step(Exec(w, calls[..n]), call).Ok?
      then before[call.reviewer := call.approved] else before
  }

  lemma PeopleOnBallots(w: World, call: Call)
    requires IsPeople(call)
    ensures Next(w, call).p.voted ==
            if call.CallReview? && Step(w, call).Ok?
            then w.p.voted[call.applicant := VotesFor(w.p, call.applicant)[call.reviewer := call.approved]] else w.p.voted
  {
    hide Reviewed, Finalize, VotesFor;
    if Step(w, call).Ok? {
      if call.CallReview? {
        ReviewFrame(w, call.reviewer, call.applicant, call.approved);
      } else if call.CallFinalize? {
        FinalizeFrame(w, call.applicant, call.payee, call.mode);
      }
    }
  }

  lemma NextOnBallots(w: World, call: Call, applicant: Address)
    ensures VotesFor(Next(w, call).p, applicant) ==
            if call.CallReview? && call.applicant == applicant && Step(w, call).Ok?
            then VotesFor(w.p, applicant)[call.reviewer := call.approved] else VotesFor(w.p, applicant)
  {
    hide Next, Step;
    if !IsPeople(call) {
      OthersKeepVotes(w, call);
    } else {
      PeopleOnBallots(w, call);
    }
  }

  lemma {:induction false} BallotsAreLastVotes(w: World, calls: seq<Call>, applicant: Address)
    ensures VotesFor(Exec(w, calls).p, applicant) == LastVotes(w, calls, applicant)
    decreases |calls|
  {
    hide VotesFor, Next, Step;
    if calls != [] {
      BallotsAreLastVotes(w, calls[..|calls| - 1], applicant);
      NextOnBallots(Exec(w, calls[..|calls| - 1]), calls[|calls| - 1], applicant);
    }
  }

  lemma DeployedVotes(w: World)
    requires Deployed(w)
    ensures AllVotesSound(w.p)
  {
  }

  lemma {:induction false} RunKeepsVotes(w: World, calls: seq<Call>)
    requires Deployed(w)
    ensures AllVotesSound(Exec(w, calls).p)
    decreases |calls|
  {
    hide AllVotesSound, Next, Deployed;
    if calls == [] {
      DeployedVotes(w);
    } else {
      RunKeepsVotes(w, calls[..|calls| - 1]);
      NextKeepsVotes(Exec(w, calls[..|calls| - 1]), calls[|calls| - 1]);
    }
  }

  // Over any run the vote vector is ascending and, as a multiset, is each distinct reviewer's last
  // accepted vote, once each and in whatever order they came. What bounds it is the panel.
  lemma {:induction false} VectorIsLastVotes(w: World, calls: seq<Call>, applicant: Address)
    requires Deployed(w)
    requires applicant in Exec(w, calls).p.applications
    ensures var a := Exec(w, calls).p.applications[applicant];
            var last := LastVotes(w, calls, applicant);
            && Ascending(a.votes)
            && HoldsValues(last, multiset(a.votes))
            && last.Keys <= w.p.reviewers
            && |a.votes| == |last|
  {
    var v := Exec(w, calls);
    RunKeepsVotes(w, calls);
    BallotsAreLastVotes(w, calls, applicant);
    ReviewersKept(w, calls);
    hide Exec, LastVotes, Ascending, HoldsValues, Deployed;
    assert VotesSound(v.p, applicant);
    HoldsSize(LastVotes(w, calls, applicant), multiset(v.p.applications[applicant].votes));
  }

  lemma {:induction false} ReviewersKept(w: World, calls: seq<Call>)
    ensures Exec(w, calls).p.reviewers == w.p.reviewers
    decreases |calls|
  {
    hide Next;
    if calls != [] {
      ReviewersKept(w, calls[..|calls| - 1]);
      NextFollows(Exec(w, calls[..|calls| - 1]), calls[|calls| - 1]);
    }
  }

  lemma SettledIsOrderStatistic(w: World, applicant: Address, payee: Address, mode: Mode, ballots: seq<int>)
    requires AllVotesSound(w.p)
    requires AwardDue(w, applicant, payee, mode).Ok?
    requires HoldsValues(VotesFor(w.p, applicant), multiset(ballots))
    ensures var granted, quorum := AwardDue(w, applicant, payee, mode).value, w.p.config.quorum;
            && 0 < quorum
            && IsTheOrderStatistic(ballots, AwardIndex(quorum), granted)
            && 0 < granted <= w.p.applications[applicant].requested
            && MedianForQuorum(w.p.applications[applicant].votes, quorum) == [granted]
  {
    var a := w.p.applications[applicant];
    assert VotesSound(w.p, applicant);
    hide IsTheOrderStatistic, AllVotesSound, Ascending, HoldsValues;
    HoldsUnique(VotesFor(w.p, applicant), multiset(a.votes), multiset(ballots));
    IndexIsOrderStatistic(a.votes, ballots, AwardIndex(w.p.config.quorum));
  }

  // A settled amount depends only on the last votes: listed in any order, it is their order
  // statistic at (quorum - 1) / 2 and no other figure is; it lies in 1..requested, and the screen's
  // mirror of the lookup shows the same figure.
  lemma {:induction false} SettledByLastVotes(w: World, calls: seq<Call>, applicant: Address, payee: Address, mode: Mode, ballots: seq<int>)
    requires Deployed(w)
    requires AwardDue(Exec(w, calls), applicant, payee, mode).Ok?
    requires HoldsValues(LastVotes(w, calls, applicant), multiset(ballots))
    ensures var v := Exec(w, calls);
            var granted, quorum := AwardDue(v, applicant, payee, mode).value, v.p.config.quorum;
            && 0 < quorum
            && IsTheOrderStatistic(ballots, AwardIndex(quorum), granted)
            && 0 < granted <= v.p.applications[applicant].requested
            && MedianForQuorum(v.p.applications[applicant].votes, quorum) == [granted]
  {
    hide Exec, LastVotes, IsTheOrderStatistic, AllVotesSound, HoldsValues, VotesFor, Deployed;
    RunKeepsVotes(w, calls);
    BallotsAreLastVotes(w, calls, applicant);
    SettledIsOrderStatistic(Exec(w, calls), applicant, payee, mode, ballots);
  }

  lemma SettledVector(w: World, applicant: Address, payee: Address, mode: Mode, ballots: seq<int>)
    requires AllVotesSound(w.p)
    requires AwardDue(w, applicant, payee, mode).Ok?
    requires HoldsValues(VotesFor(w.p, applicant), multiset(ballots))
    ensures applicant in w.p.applications
    ensures var votes, quorum := w.p.applications[applicant].votes, w.p.config.quorum;
            && Ascending(votes) && multiset(votes) == multiset(ballots)
            && 0 < quorum <= |votes| && |votes| == |VotesFor(w.p, applicant)|
            && AwardDue(w, applicant, payee, mode).value == votes[AwardIndex(quorum)]
  {
    assert VotesSound(w.p, applicant);
    hide Ascending, HoldsValues;
    HoldsUnique(VotesFor(w.p, applicant), multiset(w.p.applications[applicant].votes), multiset(ballots));
    HoldsSize(VotesFor(w.p, applicant), multiset(ballots));
    assert |multiset(w.p.applications[applicant].votes)| == |w.p.applications[applicant].votes|;
  }

  // The settled amount is the median of the reviewers' last votes, the lower of the middle two when
  // their number is even, if and only if the entries at the two indices are equal: always when exactly
  // a quorum voted, or one more than an odd quorum, and otherwise as the votes fall.
  lemma {:induction false} SettledIsMedianExactly(w: World, calls: seq<Call>, applicant: Address, payee: Address, mode: Mode,
                                                  ballots: seq<int>)
    requires Deployed(w)
    requires AwardDue(Exec(w, calls), applicant, payee, mode).Ok?
    requires HoldsValues(LastVotes(w, calls, applicant), multiset(ballots))
    ensures var v, n := Exec(w, calls), |LastVotes(w, calls, applicant)|;
            && applicant in v.p.applications
            && var votes, quorum := v.p.applications[applicant].votes, v.p.config.quorum;
            && 0 < quorum <= n == |votes|
            && (IsTheOrderStatistic(ballots, LowerMiddle(n), AwardDue(v, applicant, payee, mode).value) <==>
                votes[AwardIndex(quorum)] == votes[LowerMiddle(n)])
            && (n == quorum || (quorum % 2 == 1 && n == quorum + 1) ==>
                IsTheOrderStatistic(ballots, LowerMiddle(n), AwardDue(v, applicant, payee, mode).value))
  {
    hide Exec, LastVotes, IsTheOrderStatistic, AllVotesSound, HoldsValues, VotesFor, Deployed, AwardDue, Ascending;
    RunKeepsVotes(w, calls);
    BallotsAreLastVotes(w, calls, applicant);
    var v := Exec(w, calls);
    SettledVector(v, applicant, payee, mode, ballots);
    AwardIsMedianExactly(v.p.applications[applicant].votes, ballots, v.p.config.quorum);
    AwardIndexIsMiddle(v.p.config.quorum, |v.p.applications[applicant].votes|);
  }

  // ---- one vote ----

  // A reviewer's first vote lengthens the vector whatever the quorum; an amendment never does.
  lemma VoteLengthens(w: World, reviewer: Address, applicant: Address, approved: int)
    requires AllVotesSound(w.p)
    requires Reviewed(w, reviewer, applicant, approved).Ok?
    ensures var next := Reviewed(w, reviewer, applicant, approved).value.p;
            && applicant in w.p.applications && applicant in next.applications
            && |next.applications[applicant].votes| ==
               |w.p.applications[applicant].votes| + if reviewer in VotesFor(w.p, applicant) then 0 else 1
  {
    var votes, ballots := w.p.applications[applicant].votes, VotesFor(w.p, applicant);
    assert VotesSound(w.p, applicant);
    if reviewer in ballots {
      HoldsUpdate(ballots, multiset(votes), reviewer, approved);
      assert ballots[reviewer] in votes;
      RemoveIndexed(votes, ballots[reviewer]);
    }
    InsertIndexed(Kept(ballots, votes, reviewer), approved);
    hide Inserted, Removed, AllVotesSound, HoldsValues, Ascending;
  }

  lemma AmendedVector(w: World, reviewer: Address, applicant: Address, approved: int)
    requires AllVotesSound(w.p)
    requires Reviewed(w, reviewer, applicant, approved).Ok?
    requires reviewer in VotesFor(w.p, applicant)
    ensures applicant in w.p.applications
    ensures var votes, previous := w.p.applications[applicant].votes, VotesFor(w.p, applicant)[reviewer];
            var next := Reviewed(w, reviewer, applicant, approved).value.p;
            && Ascending(votes) && previous in votes
            && applicant in next.applications
            && next.applications[applicant].votes == Amended(votes, previous, approved)
  {
    var votes, ballots := w.p.applications[applicant].votes, VotesFor(w.p, applicant);
    assert VotesSound(w.p, applicant);
    HoldsUpdate(ballots, multiset(votes), reviewer, approved);
    hide Inserted, Removed, AllVotesSound, HoldsValues, Ascending;
  }

  // Amending one vote moves the amount that would be settled no further than to a neighbouring vote,
  // and never against the amendment.
  lemma AmendmentMovesAward(w: World, reviewer: Address, applicant: Address, approved: int)
    requires AllVotesSound(w.p)
    requires Reviewed(w, reviewer, applicant, approved).Ok?
    requires reviewer in VotesFor(w.p, applicant)
    requires 0 < w.p.config.quorum <= |w.p.applications[applicant].votes|
    ensures var before, k := w.p.applications[applicant].votes, AwardIndex(w.p.config.quorum);
            var after := Reviewed(w, reviewer, applicant, approved).value.p.applications[applicant].votes;
            var previous := VotesFor(w.p, applicant)[reviewer];
            && |after| == |before|
            && (1 <= k ==> before[k - 1] <= after[k])
            && (k + 1 < |before| ==> after[k] <= before[k + 1])
            && (previous <= approved ==> before[k] <= after[k])
            && (approved <= previous ==> after[k] <= before[k])
  {
    hide Reviewed, Amended, AllVotesSound, Ascending;
    AmendedVector(w, reviewer, applicant, approved);
    var votes, previous, k := w.p.applications[applicant].votes, VotesFor(w.p, applicant)[reviewer], AwardIndex(w.p.config.quorum);
    AmendmentIsLocal(votes, previous, approved, k);
    if previous <= approved {
      RaisingNeverLowers(votes, previous, approved, k);
    }
    if approved <= previous {
      LoweringNeverRaises(votes, previous, approved, k);
    }
  }

  // ---- closed applications ----

  predicate Closed(p: Storage, applicant: Address) {
    applicant in p.applications && (p.applications[applicant].finalized || p.applications[applicant].withdrawn)
  }

  lemma PeopleKeepClosed(w: World, call: Call, applicant: Address)
    requires IsPeople(call) && Closed(w.p, applicant)
    ensures applicant in Next(w, call).p.applications
    ensures Next(w, call).p.applications[applicant] == w.p.applications[applicant]
  {
    hide Inserted, Removed, VotesFor, RequirePhase;
    if call.CallFinalize? {
      ClosedRefuses(w, applicant);
      hide AwardDue;
    }
  }

  lemma NextKeepsClosed(w: World, call: Call, applicant: Address)
    requires Closed(w.p, applicant)
    ensures Closed(Next(w, call).p, applicant)
    ensures Next(w, call).p.applications[applicant] == w.p.applications[applicant]
    ensures VotesFor(Next(w, call).p, applicant) == VotesFor(w.p, applicant)
  {
    hide Next;
    ClosedRefuses(w, applicant);
    hide Reviewed;
    NextOnBallots(w, call, applicant);
    if IsPeople(call) {
      PeopleKeepClosed(w, call, applicant);
    } else {
      OthersKeepVotes(w, call);
    }
  }

  // A settled or withdrawn application is closed for good: nothing about it ever changes, it cannot
  // be applied for, voted on, withdrawn or settled again.
  lemma {:induction false} ClosedIsFinal(w: World, calls: seq<Call>, applicant: Address)
    requires Closed(w.p, applicant)
    ensures var v := Exec(w, calls);
            && applicant in v.p.applications && v.p.applications[applicant] == w.p.applications[applicant]
            && Closed(v.p, applicant)
            && (forall n :: Apply(v, applicant, n).Err?)
            && (forall r, n :: Reviewed(v, r, applicant, n).Err?)
            && (forall payee, mode :: AwardDue(v, applicant, payee, mode).Err?)
            && Withdraw(v, applicant).Err?
    decreases |calls|
  {
    if calls != [] {
      ClosedIsFinal(w, calls[..|calls| - 1], applicant);
      hide Step;
      NextKeepsClosed(Exec(w, calls[..|calls| - 1]), calls[|calls| - 1], applicant);
    }
    ClosedRefuses(Exec(w, calls), applicant);
    hide Next, Apply, Reviewed, AwardDue, Withdraw;
  }

  lemma ClosedRefuses(w: World, applicant: Address)
    requires Closed(w.p, applicant)
    ensures forall n :: Apply(w, applicant, n).Err?
    ensures forall r, n :: Reviewed(w, r, applicant, n).Err?
    ensures forall payee, mode :: AwardDue(w, applicant, payee, mode).Err?
    ensures Withdraw(w, applicant).Err?
  {
    hide Inserted, Removed;
  }
}
