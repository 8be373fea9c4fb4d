// What the programme holds in every reachable state, swept or not, and how far the screen's figure
// for it is off.
module ProgrammeHoldings {
  import opened Results
  import opened Ledger
  import opened MapSums
  import opened Programme
  import opened ProgrammeTerms
  import opened ProgrammeLedger
  import opened ProgrammeAwards

  // Everything the token's log says the programme paid.
  function Outflows(transfers: seq<Transfer>, self: Address): int {
    if transfers == [] then 0
    else
      var t := transfers[|transfers| - 1];
      Outflows(transfers[..|transfers| - 1], self) + if t.from == self then t.amount else 0
  }

  function FeePaid(transfers: seq<Transfer>): int {
    if transfers == [] then 0
    else
      var t := transfers[|transfers| - 1];
      FeePaid(transfers[..|transfers| - 1]) + if t.reason == Fee then t.amount else 0
  }

  // `fundFlows`: what is left of the contributions by the contract's own totals.
  function HeldShown(contributed: int, released: int, refunded: int, swept: int): int {
    contributed - released - refunded - swept
  }

  function Shown(p: Storage): int {
    HeldShown(p.contributed, p.released, p.refundedTotal, p.sweptTotal)
  }

  // The balance less what strayed in, with what was paid out added back: all of it, or only the fee.
  function Grossed(w: World): int {
    Get(w.balances, w.self) - Strays(w.transfers, w.self) + Outflows(w.transfers, w.self)
  }

  function WithFee(w: World): int {
    Get(w.balances, w.self) - Strays(w.transfers, w.self) + FeePaid(w.transfers)
  }

  // Every token given was paid out or is still held. The screen's figure misses the escrow, which it
  // counts as released, and the fee, which it never takes off.
  ghost predicate Balanced(w: World) {
    && Grossed(w) == w.p.contributed
    && WithFee(w) == Shown(w.p) + Sum(w.p.allocations)
  }

  lemma MoveBalances(w: World, from: Address, to: Address, amount: int, reason: Reason)
    requires MoveToken(w, from, to, amount, reason).Ok?
    ensures var v := MoveToken(w, from, to, amount, reason).value;
            var into := if to == w.self && reason == Deposit then amount else 0;
            && v == w.(balances := v.balances, transfers := v.transfers)
            && Grossed(v) == Grossed(w) + into
            && WithFee(v) == WithFee(w) + into - (if from == w.self then amount else 0) + (if reason == Fee then amount else 0)
  {
    var t := Transfer(from, to, amount, reason);
    assert (w.transfers + [t])[..|w.transfers|] == w.transfers;
    MoveEffect(w, from, to, amount, reason);
    hide Moved, Strays;
  }

  lemma SameMoney(w: World, v: World)
    requires v.self == w.self && v.balances == w.balances && v.transfers == w.transfers
    ensures Grossed(v) == Grossed(w) && WithFee(v) == WithFee(w)
  {
  }

  lemma ContributeBalances(w: World, donor: Address, amount: int)
    requires Balanced(w) && donor != w.self
    requires Contribute(w, donor, amount).Ok?
    ensures Balanced(Contribute(w, donor, amount).value)
  {
    hide Grossed, WithFee, MoveToken;
    MoveBalances(w, donor, w.self, amount, Deposit);
    SameMoney(MoveToken(w, donor, w.self, amount, Deposit).value, Contribute(w, donor, amount).value);
  }

  lemma SpendBalances(w: World, recipient: Address, payee: Address, amount: int)
    requires Balanced(w)
    requires Spend(w, recipient, payee, amount).Ok?
    ensures Balanced(Spend(w, recipient, payee, amount).value.0)
  {
    hide Grossed, WithFee, MoveToken, Sum;
    MoveBalances(w, w.self, payee, amount, Directed(recipient));
    SumUpdate(w.p.allocations, recipient, Get(w.p.allocations, recipient) - amount);
    SameMoney(MoveToken(w, w.self, payee, amount, Directed(recipient)).value, Spend(w, recipient, payee, amount).value.0);
  }

  // Escrow moves no token; any other tranche leaves the balance.
  lemma PayOutMoves(w: World, a: Award, amount: int)
    requires PayOut(w, a, amount).Ok?
    ensures var v := PayOut(w, a, amount).value;
            Grossed(v) == Grossed(w) && WithFee(v) == WithFee(w) - if a.mode == Allocated then 0 else amount
  {
    hide Grossed, WithFee, MoveToken;
    if a.mode == Allocated {
      SameMoney(w, PayOut(w, a, amount).value);
    } else {
      MoveBalances(w, w.self, a.payee, amount, Tranche(a.recipient));
    }
  }

  lemma PayOutAllocates(w: World, a: Award, amount: int)
    requires PayOut(w, a, amount).Ok?
    ensures Sum(PayOut(w, a, amount).value.p.allocations) ==
            Sum(w.p.allocations) + if a.mode == Allocated then amount else 0
  {
    hide Moved, Sum;
    if a.mode == Allocated {
      SumUpdate(w.p.allocations, a.recipient, Get(w.p.allocations, a.recipient) + amount);
    }
  }

  lemma DisburseBalances(w: World, recipient: Address, a: Award, uid: Uid)
    requires Balanced(w)
    requires Disburse(w, recipient, a, uid).Ok?
    ensures Balanced(Disburse(w, recipient, a, uid).value)
  {
    var booked := Booked(w, recipient, a, uid);
    hide Grossed, WithFee, PayOut, Credited, NextTranche, Sum;
    SameMoney(w, booked);
    PayOutMoves(booked, booked.p.awards[recipient], NextTranche(a));
    PayOutAllocates(booked, booked.p.awards[recipient], NextTranche(a));
    SameMoney(PayOut(booked, booked.p.awards[recipient], NextTranche(a)).value, Disburse(w, recipient, a, uid).value);
  }

  lemma {:induction false} EachBalances(w: World, recipient: Address, uids: seq<Uid>, attester: Address)
    requires Balanced(w)
    requires ReleaseEach(w, recipient, uids, attester).Ok?
    ensures Balanced(ReleaseEach(w, recipient, uids, attester).value.0)
    decreases |uids|
  {
    hide Balanced, Disburse, ProofGuard;
    if uids != [] {
      var a := w.p.awards[recipient];
      DisburseBalances(w, recipient, a, uids[0]);
      EachBalances(Disburse(w, recipient, a, uids[0]).value, recipient, uids[1..], attester);
    }
  }

  lemma SweepFeeBalances(w: World)
    requires Balanced(w)
    requires SweepFee(w).Ok?
    ensures Balanced(SweepFee(w).value.0)
  {
    hide Grossed, WithFee, Sum, FeeOn, MoveToken;
    var marked, fee := w.(p := w.p.(feeSwept := true)), FeeOn(w.p.contributed, w.p.config.feeBps);
    SameMoney(w, marked);
    if 0 < fee {
      MoveBalances(marked, w.self, w.p.config.treasury, fee, Fee);
    }
  }

  lemma RefundBalances(w: World, donor: Address, asked: Option<int>)
    requires Balanced(w)
    requires ClaimRefund(w, donor, asked).Ok?
    ensures Balanced(ClaimRefund(w, donor, asked).value.0)
  {
    hide Grossed, WithFee, Sum, RefundDue, MoveToken;
    var amount := RefundDue(w, donor, asked).value;
    MoveBalances(w, w.self, donor, amount, Refund);
    SameMoney(MoveToken(w, w.self, donor, amount, Refund).value, ClaimRefund(w, donor, asked).value.0);
  }

  lemma SweepBalances(w: World)
    requires Balanced(w)
    requires SweepUnclaimed(w).Ok?
    ensures Balanced(SweepUnclaimed(w).value.0)
  {
    hide Grossed, WithFee, Sum, MoveToken;
    MoveBalances(w, w.self, w.p.config.treasury, Get(w.balances, w.self), Sweep);
    SameMoney(MoveToken(w, w.self, w.p.config.treasury, Get(w.balances, w.self), Sweep).value, SweepUnclaimed(w).value.0);
  }

  lemma OutsideBalances(w: World, from: Address, to: Address, amount: int)
    requires Balanced(w) && from != w.self
    requires MoveToken(w, from, to, amount, Outside).Ok?
    ensures Balanced(MoveToken(w, from, to, amount, Outside).value)
  {
    hide Grossed, WithFee, Sum;
    MoveBalances(w, from, to, amount, Outside);
    hide MoveToken;
  }

  lemma BalancedByFields(w: World, v: World)
    requires Balanced(w)
    requires v.self == w.self && v.balances == w.balances && v.transfers == w.transfers
    requires v.p.contributed == w.p.contributed && v.p.released == w.p.released && v.p.allocations == w.p.allocations
    requires v.p.refundedTotal == w.p.refundedTotal && v.p.sweptTotal == w.p.sweptTotal
    ensures Balanced(v)
  {
  }

  lemma MoverBalances(w: World, call: Call)
    requires Balanced(w) && Legal(w, call)
    requires IsMoney(call) || IsRelease(call)
    requires Step(w, call).Ok?
    ensures Balanced(Step(w, call).value)
  {
    hide Balanced, Contribute, Spend, Disburse, ReleaseEach, SweepFee, ClaimRefund, SweepUnclaimed, MoveToken, ProofGuard;
    match call
    case CallContribute(d, n) => ContributeBalances(w, d, n);
    case CallSpend(r, p, n) => SpendBalances(w, r, p, n);
    case CallRelease(r, u, a) => DisburseBalances(w, r, w.p.awards[r], u);
    case CallReleaseBatch(r, us, a) => EachBalances(w, r, us, a);
    case CallSweepFee => SweepFeeBalances(w);
    case CallRefund(d, n) => RefundBalances(w, d, n);
    case CallSweepUnclaimed => SweepBalances(w);
    case TokenMove(f, t, n) => OutsideBalances(w, f, t, n);
  }

  lemma NextBalances(w: World, call: Call)
    requires Balanced(w) && Legal(w, call)
    ensures Balanced(Next(w, call))
  {
    hide Step, Balanced;
    if IsMoney(call) || IsRelease(call) {
      if Step(w, call).Ok? {
        MoverBalances(w, call);
      }
    } else {
      hide Next;
      if IsPeople(call) {
        PeopleFrame(w, call);
      } else if MovesClock(call) {
        ClockFrame(w, call);
      } else {
        ControlFrame(w, call);
      }
      BalancedByFields(w, Next(w, call));
    }
  }

  lemma DeployedBalances(w: World)
    requires Deployed(w)
    ensures Balanced(w)
  {
  }

  lemma {:induction false} RunBalances(w: World, calls: seq<Call>)
    requires Deployed(w)
    requires AllLegal(w, calls)
    ensures Balanced(Exec(w, calls))
    decreases |calls|
  {
    hide Balanced, Deployed, Next, Legal;
    if calls == [] {
      DeployedBalances(w);
    } else {
      RunBalances(w, calls[..|calls| - 1]);
      NextBalances(Exec(w, calls[..|calls| - 1]), calls[|calls| - 1]);
    }
  }

  // In every reachable state, before and after the sweep: what is held and everything ever paid out are
  // what was contributed and what strayed in.
  lemma {:induction false} NothingIsLost(w: World, calls: seq<Call>)
    requires Deployed(w)
    requires AllLegal(w, calls)
    ensures var v := Exec(w, calls);
            Get(v.balances, v.self) + Outflows(v.transfers, v.self) == v.p.contributed + Strays(v.transfers, v.self)
  {
    hide Exec, Deployed, AllLegal, Outflows, Strays, FeePaid;
    RunBalances(w, calls);
  }

  // The screen's `held` differs from the balance by exactly the escrow still on the books, what strayed
  // in, and the fee paid; so it is the balance if and only if these cancel.
  lemma {:induction false} HeldGap(w: World, calls: seq<Call>)
    requires Deployed(w)
    requires AllLegal(w, calls)
    ensures var v := Exec(w, calls);
            var gap := Sum(v.p.allocations) + Strays(v.transfers, v.self) - FeePaid(v.transfers);
            && Get(v.balances, v.self) == Shown(v.p) + gap
            && (Shown(v.p) == Get(v.balances, v.self) <==>
                Sum(v.p.allocations) + Strays(v.transfers, v.self) == FeePaid(v.transfers))
  {
    hide Exec, Deployed, AllLegal, Outflows, Strays, FeePaid, Sum;
    RunBalances(w, calls);
  }
}
