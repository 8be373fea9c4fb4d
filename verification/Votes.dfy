// The ascending vote vector of one application: removing a reviewer's old vote, inserting
// the new one, and reading the award off it.
module Votes {
  import opened Arithmetic

  ghost predicate Ascending(votes: seq<int>) {
    forall i, j :: 0 <= i < j < |votes| ==> votes[i] <= votes[j]
  }

  // Where the insertion loop stops: the first vote strictly above `v`.
  function FirstAbove(votes: seq<int>, v: int): (at: nat)
    ensures at <= |votes|
    ensures forall i :: 0 <= i < at ==> votes[i] <= v
    ensures at < |votes| ==> v < votes[at]
  {
    if votes == [] || v < votes[0] then 0 else 1 + FirstAbove(votes[1..], v)
  }

  // Where the removal loop stops: the first vote equal to `v`.
  function FirstEqual(votes: seq<int>, v: int): (at: nat)
    ensures at <= |votes|
    ensures forall i :: 0 <= i < at ==> votes[i] != v
    ensures at < |votes| ==> votes[at] == v
  {
    if votes == [] || v == votes[0] then 0 else 1 + FirstEqual(votes[1..], v)
  }

  function Inserted(votes: seq<int>, v: int): seq<int> {
    var at := FirstAbove(votes, v);
    votes[..at] + [v] + votes[at..]
  }

  function Removed(votes: seq<int>, v: int): seq<int> {
    var at := FirstEqual(votes, v);
    if at < |votes| then votes[..at] + votes[at + 1..] else votes
  }

  // ---- the loops of `review` ----

  method InsertVote(votes: seq<int>, approved: int) returns (updated: seq<int>)
    ensures updated == Inserted(votes, approved)
  {
    var at := |votes|;
    var i := 0;
    while i < |votes|
      invariant 0 <= i <= |votes|
      invariant at == |votes|
      invariant forall j :: 0 <= j < i ==> votes[j] <= approved
    {
      if approved < votes[i] {
        at := i;
        break;
      }
      i := i + 1;
    }
    assert at == FirstAbove(votes, approved);
    updated := votes[..at] + [approved] + votes[at..];
  }

  method RemoveVote(votes: seq<int>, oldVote: int) returns (updated: seq<int>)
    ensures updated == Removed(votes, oldVote)
  {
    updated := votes;
    var i := 0;
    while i < |votes|
      invariant 0 <= i <= |votes|
      invariant updated == votes
      invariant forall j :: 0 <= j < i ==> votes[j] != oldVote
    {
      if votes[i] == oldVote {
        assert i == FirstEqual(votes, oldVote);
        updated := votes[..i] + votes[i + 1..];
        return;
      }
      i := i + 1;
    }
  }

  // ---- what the two edits keep ----

  lemma {:induction false} InsertIndexed(votes: seq<int>, v: int)
    ensures |Inserted(votes, v)| == |votes| + 1
    ensures forall i :: 0 <= i <= |votes| ==>
              Inserted(votes, v)[i] ==
              var at := FirstAbove(votes, v);
              if i < at then votes[i] else if i == at then v else votes[i - 1]
  {
    hide FirstAbove;
  }

  lemma InsertKeepsOrder(votes: seq<int>, v: int)
    requires Ascending(votes)
    ensures Ascending(Inserted(votes, v))
  {
    InsertIndexed(votes, v);
  }

  lemma InsertAddsOne(votes: seq<int>, v: int)
    ensures multiset(Inserted(votes, v)) == multiset(votes) + multiset{v}
  {
    hide FirstAbove;
    var at := FirstAbove(votes, v);
    assert votes == votes[..at] + votes[at..];
    assert multiset(votes) == multiset(votes[..at]) + multiset(votes[at..]);
  }

  lemma {:induction false} RemoveIndexed(votes: seq<int>, v: int)
    requires v in votes
    ensures |Removed(votes, v)| == |votes| - 1
    ensures forall i :: 0 <= i < |votes| - 1 ==>
              Removed(votes, v)[i] == if i < FirstEqual(votes, v) then votes[i] else votes[i + 1]
  {
    hide FirstEqual;
    var at := FirstEqual(votes, v);
    assert at < |votes|;
    CutAt(votes, at);
  }

  lemma CutAt(votes: seq<int>, at: nat)
    requires at < |votes|
    ensures |votes[..at] + votes[at + 1..]| == |votes| - 1
    ensures forall i :: 0 <= i < |votes| - 1 ==>
              (votes[..at] + votes[at + 1..])[i] == if i < at then votes[i] else votes[i + 1]
  {
  }

  lemma RemoveKeepsOrder(votes: seq<int>, v: int)
    requires Ascending(votes)
    requires v in votes
    ensures Ascending(Removed(votes, v))
  {
    RemoveIndexed(votes, v);
    hide Removed;
  }

  lemma DropOne(votes: seq<int>, at: nat)
    requires at < |votes|
    ensures multiset(votes) == multiset(votes[..at] + votes[at + 1..]) + multiset{votes[at]}
  {
    assert votes == votes[..at] + ([votes[at]] + votes[at + 1..]);
  }

  lemma RemoveTakesOne(votes: seq<int>, v: int)
    requires v in votes
    ensures multiset(votes) == multiset(Removed(votes, v)) + multiset{v}
  {
    hide FirstEqual;
    DropOne(votes, FirstEqual(votes, v));
  }

  // ---- the vector is a function of the votes it holds ----

  lemma HeadIsLeast(a: seq<int>, x: int)
    requires Ascending(a) && x in multiset(a)
    ensures a != [] && a[0] <= x
  {
    assert x in a;
  }

  lemma HeadAndTail(a: seq<int>)
    requires a != []
    ensures multiset(a) == multiset{a[0]} + multiset(a[1..])
    ensures a[0] in multiset(a)
  {
    assert a == [a[0]] + a[1..];
  }

  lemma SameHead(a: seq<int>, b: seq<int>)
    requires Ascending(a) && Ascending(b) && a != []
    requires multiset(a) == multiset(b)
    ensures b != [] && a[0] == b[0]
  {
    HeadAndTail(a);
    HeadIsLeast(b, a[0]);
    HeadAndTail(b);
    HeadIsLeast(a, b[0]);
  }

  lemma SameTail(a: seq<int>, b: seq<int>)
    requires a != [] && b != [] && a[0] == b[0]
    requires multiset(a) == multiset(b)
    ensures multiset(a[1..]) == multiset(b[1..])
  {
    HeadAndTail(a);
    HeadAndTail(b);
    var x, s, t := multiset{a[0]}, multiset(a[1..]), multiset(b[1..]);
    assert x + s == x + t;
    assert s == (x + s) - x == (x + t) - x == t;
  }

  lemma {:induction false} AscendingUnique(a: seq<int>, b: seq<int>)
    requires Ascending(a) && Ascending(b)
    requires multiset(a) == multiset(b)
    ensures a == b
  {
    if a == [] {
      assert |b| == |multiset(b)| == 0;
    } else {
      SameHead(a, b);
      SameTail(a, b);
      AscendingUnique(a[1..], b[1..]);
      assert a == [a[0]] + a[1..] && b == [b[0]] + b[1..];
    }
  }

  // Ballots in arrival order, sorted one by one.
  function Arranged(ballots: seq<int>): seq<int> {
    if ballots == [] then []
    else Inserted(Arranged(ballots[..|ballots| - 1]), ballots[|ballots| - 1])
  }

  lemma {:induction false} ArrangedIsAscending(ballots: seq<int>)
    ensures Ascending(Arranged(ballots))
    ensures multiset(Arranged(ballots)) == multiset(ballots)
  {
    if ballots != [] {
      var n := |ballots| - 1;
      ArrangedIsAscending(ballots[..n]);
      InsertKeepsOrder(Arranged(ballots[..n]), ballots[n]);
      InsertAddsOne(Arranged(ballots[..n]), ballots[n]);
      assert ballots == ballots[..n] + [ballots[n]];
    }
  }

  // ---- order statistics, defined by counting and not by sorting ----

  function CountBelow(ballots: seq<int>, v: int): nat {
    if ballots == [] then 0
    else CountBelow(ballots[1..], v) + if ballots[0] < v then 1 else 0
  }

  // `v` is among the ballots, fewer than k + 1 of them are below it, and more than k are at most it.
  ghost predicate IsOrderStatistic(ballots: seq<int>, k: nat, v: int) {
    v in ballots && CountBelow(ballots, v) <= k < CountBelow(ballots, v + 1)
  }

  // ... and no other amount is.
  ghost predicate IsTheOrderStatistic(ballots: seq<int>, k: nat, v: int) {
    IsOrderStatistic(ballots, k, v) && forall u :: IsOrderStatistic(ballots, k, u) ==> u == v
  }

  lemma {:induction false} CountBelowConcat(a: seq<int>, b: seq<int>, v: int)
    ensures CountBelow(a + b, v) == CountBelow(a, v) + CountBelow(b, v)
  {
    if a == [] {
      assert a + b == b;
    } else {
      assert (a + b)[1..] == a[1..] + b;
      CountBelowConcat(a[1..], b, v);
    }
  }

  lemma {:induction false} ArrangedKeepsCounts(ballots: seq<int>, v: int)
    ensures CountBelow(Arranged(ballots), v) == CountBelow(ballots, v)
  {
    if ballots != [] {
      var n := |ballots| - 1;
      var rest, x := Arranged(ballots[..n]), ballots[n];
      var at := FirstAbove(rest, x);
      ArrangedKeepsCounts(ballots[..n], v);
      assert ballots == ballots[..n] + [x];
      CountBelowConcat(ballots[..n], [x], v);
      assert rest == rest[..at] + rest[at..];
      CountBelowConcat(rest[..at], rest[at..], v);
      CountBelowConcat(rest[..at] + [x], rest[at..], v);
      CountBelowConcat(rest[..at], [x], v);
    }
  }

  lemma {:induction false} CountBelowBounds(votes: seq<int>, k: nat, v: int)
    requires Ascending(votes)
    requires k < |votes|
    ensures v <= votes[k] ==> CountBelow(votes, v) <= k
    ensures votes[k] < v ==> k < CountBelow(votes, v)
  {
    if v <= votes[0] {
      NoneBelow(votes, v);
    } else if k > 0 {
      CountBelowBounds(votes[1..], k - 1, v);
    }
  }

  lemma {:induction false} NoneBelow(votes: seq<int>, v: int)
    requires forall i :: 0 <= i < |votes| ==> v <= votes[i]
    ensures CountBelow(votes, v) == 0
  {
    if votes != [] {
      NoneBelow(votes[1..], v);
    }
  }

  // The entry at index k of the ascending vector is the k-th order statistic of the ballots
  // in whatever order they came in, and no other amount is.
  lemma {:induction false} IndexIsOrderStatistic(votes: seq<int>, ballots: seq<int>, k: nat)
    requires Ascending(votes)
    requires multiset(votes) == multiset(ballots)
    requires k < |votes|
    ensures IsTheOrderStatistic(ballots, k, votes[k])
  {
    ArrangedIsAscending(ballots);
    AscendingUnique(votes, Arranged(ballots));
    assert votes[k] in multiset(votes);
    forall v
      ensures CountBelow(ballots, v) == CountBelow(votes, v)
      ensures v <= votes[k] ==> CountBelow(votes, v) <= k
      ensures votes[k] < v ==> k < CountBelow(votes, v)
    {
      ArrangedKeepsCounts(ballots, v);
      CountBelowBounds(votes, k, v);
    }
  }

  // ---- one reviewer's change of mind ----

  function Amended(votes: seq<int>, previous: int, approved: int): seq<int> {
    Inserted(Removed(votes, previous), approved)
  }

  lemma InsertBetween(rest: seq<int>, v: int, k: nat)
    requires Ascending(rest)
    requires k <= |rest|
    ensures |Inserted(rest, v)| == |rest| + 1
    ensures k < |rest| ==> Inserted(rest, v)[k] <= rest[k]
    ensures 1 <= k ==> rest[k - 1] <= Inserted(rest, v)[k]
  {
    InsertIndexed(rest, v);
  }

  lemma InsertMonotone(rest: seq<int>, v: int, u: int, k: nat)
    requires Ascending(rest)
    requires v <= u && k <= |rest|
    ensures |Inserted(rest, v)| == |Inserted(rest, u)| == |rest| + 1
    ensures Inserted(rest, v)[k] <= Inserted(rest, u)[k]
  {
    var p, q := FirstAbove(rest, v), FirstAbove(rest, u);
    assert p <= q;
    InsertIndexed(rest, v);
    InsertIndexed(rest, u);
    assert p < k <= q ==> Inserted(rest, v)[k] == rest[k - 1];
  }

  lemma RemoveInsertSame(votes: seq<int>, v: int)
    requires Ascending(votes)
    requires v in votes
    ensures Inserted(Removed(votes, v), v) == votes
  {
    RemoveKeepsOrder(votes, v);
    RemoveTakesOne(votes, v);
    InsertKeepsOrder(Removed(votes, v), v);
    InsertAddsOne(Removed(votes, v), v);
    AscendingUnique(Inserted(Removed(votes, v), v), votes);
  }

  // Replacing one vote moves every order statistic no further than its neighbours ...
  lemma {:induction false} AmendmentIsLocal(votes: seq<int>, previous: int, approved: int, k: nat)
    requires Ascending(votes)
    requires previous in votes
    requires k < |votes|
    ensures |Amended(votes, previous, approved)| == |votes|
    ensures k + 1 < |votes| ==> Amended(votes, previous, approved)[k] <= votes[k + 1]
    ensures 1 <= k ==> votes[k - 1] <= Amended(votes, previous, approved)[k]
  {
    RemoveIndexed(votes, previous);
    RemoveKeepsOrder(votes, previous);
    InsertBetween(Removed(votes, previous), approved, k);
  }

  // ... and never against the change: raising a vote lowers nothing,
  lemma {:induction false} RaisingNeverLowers(votes: seq<int>, previous: int, approved: int, k: nat)
    requires Ascending(votes)
    requires previous in votes && previous <= approved
    requires k < |votes|
    ensures |Amended(votes, previous, approved)| == |votes|
    ensures votes[k] <= Amended(votes, previous, approved)[k]
  {
    RemoveIndexed(votes, previous);
    RemoveKeepsOrder(votes, previous);
    RemoveInsertSame(votes, previous);
    InsertMonotone(Removed(votes, previous), previous, approved, k);
  }

  // and lowering a vote raises nothing.
  lemma {:induction false} LoweringNeverRaises(votes: seq<int>, previous: int, approved: int, k: nat)
    requires Ascending(votes)
    requires previous in votes && approved <= previous
    requires k < |votes|
    ensures |Amended(votes, previous, approved)| == |votes|
    ensures Amended(votes, previous, approved)[k] <= votes[k]
  {
    RemoveIndexed(votes, previous);
    RemoveKeepsOrder(votes, previous);
    RemoveInsertSame(votes, previous);
    InsertMonotone(Removed(votes, previous), approved, previous, k);
  }

  // ---- the award read off the vector ----

  function AwardIndex(quorum: nat): nat
    requires 0 < quorum
  {
    (quorum - 1) / 2
  }

  // `medianForQuorum`, the screen's mirror of the lookup: none when the quorum is not met.
  function MedianForQuorum(votes: seq<int>, quorum: int): seq<int> {
    if quorum <= 0 || |votes| < quorum then [] else [votes[(quorum - 1) / 2]]
  }

  // `medianVote`, the figure another screen shows: the middle vote, or the mean of the middle pair.
  function MedianVote(votes: seq<int>): int
    requires votes != []
  {
    ArrangedIsAscending(votes);
    assert |Arranged(votes)| == |multiset(Arranged(votes))| == |multiset(votes)| == |votes|;
    var sorted := Arranged(votes);
    var middle := |sorted| / 2;
    if |sorted| % 2 == 1 then sorted[middle]
    else Truncated(sorted[middle - 1] + sorted[middle], 2)
  }

  // The award is documented as the median of the votes, the lower of the two middles when their count
  // is even. Its index is taken from the quorum and not from the votes in, so it is the lower middle of
  // n votes exactly when n is the quorum, or one more than an odd quorum.
  lemma AwardIndexIsMiddle(quorum: nat, n: nat)
    requires 0 < quorum <= n
    ensures AwardIndex(quorum) == LowerMiddle(n) <==> n == quorum || (quorum % 2 == 1 && n == quorum + 1)
  {
  }

  function LowerMiddle(n: nat): nat
    requires 0 < n
  {
    (n - 1) / 2
  }

  // The votes 1, 2, ..., n.
  function Ramp(n: nat): (votes: seq<int>)
    ensures |votes| == n
    ensures forall i :: 0 <= i < n ==> votes[i] == i + 1
  {
    seq(n, i => i + 1)
  }

  ghost predicate AwardsMedian(votes: seq<int>, quorum: nat)
    requires 0 < quorum <= |votes|
  {
    votes[AwardIndex(quorum)] == votes[LowerMiddle(|votes|)]
  }

  // Those are the counts at which the award is the median whatever the votes are. At any other count
  // some votes settle on another amount.
  lemma AlwaysMedianExactly(quorum: nat, n: nat)
    requires 0 < quorum <= n
    ensures (forall votes :: Ascending(votes) && |votes| == n && (forall i :: 0 <= i < n ==> 0 < votes[i]) ==>
              AwardsMedian(votes, quorum)) <==>
            n == quorum || (quorum % 2 == 1 && n == quorum + 1)
  {
    AwardIndexIsMiddle(quorum, n);
    if AwardIndex(quorum) != LowerMiddle(n) {
      assert Ascending(Ramp(n)) && !AwardsMedian(Ramp(n), quorum);
    }
  }

  // For given votes: the award is the lower median of the ballots, in whatever order they came, if and
  // only if the two entries are equal.
  lemma AwardIsMedianExactly(votes: seq<int>, ballots: seq<int>, quorum: nat)
    requires Ascending(votes) && multiset(votes) == multiset(ballots)
    requires 0 < quorum <= |votes|
    ensures IsTheOrderStatistic(ballots, LowerMiddle(|votes|), votes[AwardIndex(quorum)]) <==> AwardsMedian(votes, quorum)
  {
    IndexIsOrderStatistic(votes, ballots, LowerMiddle(|votes|));
    hide IsOrderStatistic;
  }

  // The contract's figure and the card's agree if and only if the award is the lower median and, for an
  // even number of votes, the middle pair differ by at most one stroop.
  lemma MedianVoteAgrees(votes: seq<int>, quorum: nat)
    requires Ascending(votes)
    requires forall v :: v in votes ==> 0 < v
    requires 0 < quorum <= |votes|
    ensures MedianForQuorum(votes, quorum) == [MedianVote(votes)] <==>
            && AwardsMedian(votes, quorum)
            && (|votes| % 2 == 1 || votes[|votes| / 2] - votes[|votes| / 2 - 1] <= 1)
  {
    MedianOfSorted(votes);
    hide MedianVote;
    var n, award := |votes|, votes[AwardIndex(quorum)];
    AwardBelowMiddle(votes, quorum);
    if n % 2 == 0 {
      assert votes[n / 2 - 1] in votes;
      MeanOfPair(votes[n / 2 - 1], votes[n / 2]);
    }
  }

  lemma AwardBelowMiddle(votes: seq<int>, quorum: nat)
    requires Ascending(votes) && 0 < quorum <= |votes|
    ensures LowerMiddle(|votes|) == if |votes| % 2 == 1 then |votes| / 2 else |votes| / 2 - 1
    ensures votes[AwardIndex(quorum)] <= votes[LowerMiddle(|votes|)]
  {
  }

  lemma MedianOfSorted(votes: seq<int>)
    requires Ascending(votes) && votes != []
    ensures |votes| % 2 == 1 ==> MedianVote(votes) == votes[|votes| / 2]
    ensures |votes| % 2 == 0 ==> MedianVote(votes) == Truncated(votes[|votes| / 2 - 1] + votes[|votes| / 2], 2)
  {
    SortingSortedVotes(votes);
    hide Arranged, Ascending, Truncated;
  }

  lemma {:induction false} SortingSortedVotes(votes: seq<int>)
    requires Ascending(votes)
    ensures Arranged(votes) == votes
  {
    ArrangedIsAscending(votes);
    AscendingUnique(votes, Arranged(votes));
  }

  lemma MeanOfPair(low: int, high: int)
    requires 0 < low <= high
    ensures low <= Truncated(low + high, 2)
    ensures Truncated(low + high, 2) == low <==> high - low <= 1
  {
  }
}
