// Dividing a pool in proportion: every share rounds down, and what is left over is less than one
// stroop a donor.
module Shares {
  import opened MapSums
  import opened Arithmetic

  function Share(given: int, pool: int, total: int): int
    requires 0 < total
  {
    given * pool / total
  }

  // The share as a function of what was given, nothing when there is nothing to divide by.
  function ShareOf(pool: int, total: int): int -> int {
    given => if 0 < total then Share(given, pool, total) else 0
  }

  // The share is the proportional part, rounded down.
  ghost predicate RoundsDown(total: int, pool: int, share: int, given: int) {
    total * share <= given * pool < total * share + total
  }

  lemma ShareBounds(given: int, pool: int, total: int)
    requires 0 < total && 0 <= given && 0 <= pool
    ensures 0 <= Share(given, pool, total)
    ensures pool <= total ==> Share(given, pool, total) <= given
    ensures RoundsDown(total, pool, Share(given, pool, total), given)
  {
    var s := Share(given, pool, total);
    DivBounds(given * pool, total);
    MulMonotone(0, given, pool);
    DivAtLeast(given * pool, total, 0);
    if pool <= total {
      MulMonotone(pool, total, given);
      assert given * total < (given + 1) * total;
      DivBelow(given * pool, total, given + 1);
    }
  }

  // Shares of `donors` together, scaled up: short of their sum by less than a stroop each.
  ghost predicate Together(total: int, pool: int, shares: int, sum: int, n: int) {
    total * shares <= sum * pool <= total * shares + n * (total - 1)
  }

  lemma {:induction false} SharesTogether<K>(donors: map<K, int>, pool: int, total: int)
    requires 0 < total && 0 <= pool
    requires forall d :: d in donors ==> 0 <= donors[d]
    ensures Together(total, pool, SumOf(donors, ShareOf(pool, total)), Sum(donors), |donors|)
    decreases |donors|
  {
    hide Share, Together, RoundsDown, SumOf;
    if d :| d in donors {
      var rest, f := donors - {d}, ShareOf(pool, total);
      SumOfRemove(donors, Identity, d);
      SumOfRemove(donors, f, d);
      SharesTogether(rest, pool, total);
      ShareBounds(donors[d], pool, total);
      AddShare(total, pool, f(donors[d]), SumOf(rest, f), donors[d], Sum(rest), |rest|);
    } else {
      NoneShare(donors, pool, total);
    }
  }

  lemma NoneShare<K>(donors: map<K, int>, pool: int, total: int)
    requires donors == map[]
    ensures Together(total, pool, SumOf(donors, ShareOf(pool, total)), Sum(donors), |donors|)
  {
  }

  lemma AddShare(total: int, pool: int, share: int, shares: int, given: int, sum: int, n: int)
    requires RoundsDown(total, pool, share, given)
    requires Together(total, pool, shares, sum, n)
    ensures Together(total, pool, share + shares, given + sum, n + 1)
  {
    assert (given + sum) * pool == given * pool + sum * pool;
    assert total * (share + shares) == total * share + total * shares;
    assert (n + 1) * (total - 1) == n * (total - 1) + (total - 1);
  }

  // Shares of the whole never exceed the pool, and leave less than one stroop a donor of it.
  lemma {:induction false} SharesCoverPool<K>(donors: map<K, int>, pool: int)
    requires forall d :: d in donors ==> 0 < donors[d]
    requires donors != map[] && 0 <= pool
    ensures 0 < Sum(donors)
    ensures var paid := SumOf(donors, ShareOf(pool, Sum(donors)));
            paid <= pool && pool - paid < |donors|
  {
    var total := Sum(donors);
    var d :| d in donors;
    SumNonNegative(donors);
    SharesTogether(donors, pool, total);
    var paid, n := SumOf(donors, ShareOf(pool, total)), |donors|;
    MulStrict(paid, pool + 1, total) by {
      assert (pool + 1) * total == total * pool + total;
    }
    assert n * (total - 1) < n * total by {
      assert n * (total - 1) == n * total - n;
      assert n > 0;
    }
    MulStrict(pool - paid, n, total) by {
      assert (pool - paid) * total == total * pool - total * paid;
    }
  }
}
