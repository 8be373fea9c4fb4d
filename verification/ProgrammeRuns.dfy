// What holds after every sequence of calls on a programme just deployed.
module ProgrammeRuns {
  import opened Results
  import opened Ledger
  import opened MapSums
  import opened HashChain
  import opened Votes
  import opened Programme
  import opened ProgrammeTerms
  import opened ProgrammeLedger
  import opened ProgrammeVotes
  import opened ProgrammeAwards
  import opened ProgrammeTranches
  import Attest
  import Record

  // No allocation is overdrawn and nothing ever arrived in a negative amount.
  ghost predicate Funded(w: World) {
    && (forall r :: r in w.p.allocations ==> 0 <= w.p.allocations[r])
    && 0 <= Strays(w.transfers, w.self)
  }

  ghost predicate Sound(w: World) {
    && TermsSane(w.p.config)
    && Conserved(w)
    && AllVotesSound(w.p)
    && Accounts(w.p)
    && Funded(w)
  }

  // ---- allocations and strays ----

  lemma MoveKeepsFunded(w: World, from: Address, to: Address, amount: int, reason: Reason)
    requires Funded(w)
    requires MoveToken(w, from, to, amount, reason).Ok?
    ensures Funded(MoveToken(w, from, to, amount, reason).value)
  {
    var t := Transfer(from, to, amount, reason);
    assert (w.transfers + [t])[..|w.transfers|] == w.transfers;
  }

  lemma PayOutKeepsFunded(w: World, a: Award, amount: int)
    requires Funded(w) && 0 <= amount
    requires PayOut(w, a, amount).Ok?
    ensures Funded(PayOut(w, a, amount).value)
  {
    hide MoveToken, Strays;
    if a.mode != Allocated {
      MoveKeepsFunded(w, w.self, a.payee, amount, Tranche(a.recipient));
    }
  }

  lemma DisburseKeepsFunded(w: World, recipient: Address, a: Award, uid: Uid)
    requires Funded(w)
    requires Disburse(w, recipient, a, uid).Ok?
    ensures Funded(Disburse(w, recipient, a, uid).value)
  {
    DisburseBooks(w, recipient, a, uid);
    hide PayOut, NextTranche, Strays;
    var booked := Booked(w, recipient, a, uid);
    PayOutKeepsFunded(booked, booked.p.awards[recipient], NextTranche(a));
  }

  lemma {:induction false} EachKeepsFunded(w: World, recipient: Address, uids: seq<Uid>, attester: Address)
    requires Funded(w)
    requires ReleaseEach(w, recipient, uids, attester).Ok?
    ensures Funded(ReleaseEach(w, recipient, uids, attester).value.0)
    decreases |uids|
  {
    hide Disburse, Funded, ProofGuard;
    if uids != [] {
      DisburseKeepsFunded(w, recipient, w.p.awards[recipient], uids[0]);
      EachKeepsFunded(Disburse(w, recipient, w.p.awards[recipient], uids[0]).value, recipient, uids[1..], attester);
    }
  }

  lemma FundedByFields(w: World, v: World)
    requires Funded(w)
    requires v.p.allocations == w.p.allocations && v.transfers == w.transfers && v.self == w.self
    ensures Funded(v)
  {
  }

  lemma ContributeKeepsFunded(w: World, donor: Address, amount: int)
    requires Funded(w) && Contribute(w, donor, amount).Ok?
    ensures Funded(Contribute(w, donor, amount).value)
  {
    hide MoveToken, Funded;
    MoveKeepsFunded(w, donor, w.self, amount, Deposit);
    MoveFrame(w, donor, w.self, amount, Deposit);
    FundedByFields(MoveToken(w, donor, w.self, amount, Deposit).value, Contribute(w, donor, amount).value);
  }

  lemma SpendKeepsFunded(w: World, recipient: Address, payee: Address, amount: int)
    requires Funded(w) && Spend(w, recipient, payee, amount).Ok?
    ensures Funded(Spend(w, recipient, payee, amount).value.0)
  {
    hide MoveToken, Strays;
    MoveKeepsFunded(w, w.self, payee, amount, Directed(recipient));
    MoveFrame(w, w.self, payee, amount, Directed(recipient));
  }

  lemma SweepFeeKeepsFunded(w: World)
    requires Funded(w) && SweepFee(w).Ok?
    ensures Funded(SweepFee(w).value.0)
  {
    hide MoveToken, Funded, FeeOn;
    var marked, fee := w.(p := w.p.(feeSwept := true)), FeeOn(w.p.contributed, w.p.config.feeBps);
    FundedByFields(w, marked);
    if 0 < fee {
      MoveKeepsFunded(marked, w.self, w.p.config.treasury, fee, Fee);
    }
  }

  lemma RefundKeepsFunded(w: World, donor: Address, asked: Option<int>)
    requires Funded(w) && ClaimRefund(w, donor, asked).Ok?
    ensures Funded(ClaimRefund(w, donor, asked).value.0)
  {
    hide MoveToken, Funded, RefundDue;
    var amount := RefundDue(w, donor, asked).value;
    MoveKeepsFunded(w, w.self, donor, amount, Refund);
    MoveFrame(w, w.self, donor, amount, Refund);
    FundedByFields(MoveToken(w, w.self, donor, amount, Refund).value, ClaimRefund(w, donor, asked).value.0);
  }

  lemma SweepKeepsFunded(w: World)
    requires Funded(w) && SweepUnclaimed(w).Ok?
    ensures Funded(SweepUnclaimed(w).value.0)
  {
    hide MoveToken, Funded;
    var all := Get(w.balances, w.self);
    MoveKeepsFunded(w, w.self, w.p.config.treasury, all, Sweep);
    MoveFrame(w, w.self, w.p.config.treasury, all, Sweep);
    FundedByFields(MoveToken(w, w.self, w.p.config.treasury, all, Sweep).value, SweepUnclaimed(w).value.0);
  }

  lemma MoneyKeepsFunded(w: World, call: Call)
    requires IsMoney(call)
    requires Funded(w)
    requires Step(w, call).Ok?
    ensures Funded(Step(w, call).value)
  {
    hide Funded, MoveToken, Contribute, Spend, SweepFee, ClaimRefund, SweepUnclaimed;
    match call
    case CallContribute(d, n) => ContributeKeepsFunded(w, d, n);
    case CallSpend(r, p, n) => SpendKeepsFunded(w, r, p, n);
    case CallSweepFee => SweepFeeKeepsFunded(w);
    case CallRefund(d, n) => RefundKeepsFunded(w, d, n);
    case CallSweepUnclaimed => SweepKeepsFunded(w);
    case TokenMove(f, t, n) => MoveKeepsFunded(w, f, t, n, Outside);
  }

  lemma NextKeepsFunded(w: World, call: Call)
    requires Funded(w)
    ensures Funded(Next(w, call))
  {
    hide Funded, Disburse, ReleaseEach, ProofGuard;
    if IsMoney(call) {
      if Step(w, call).Ok? {
        MoneyKeepsFunded(w, call);
      }
    } else if call.CallRelease? {
      if Step(w, call).Ok? {
        DisburseKeepsFunded(w, call.recipient, w.p.awards[call.recipient], call.uid);
      }
    } else if call.CallReleaseBatch? {
      if Step(w, call).Ok? {
        EachKeepsFunded(w, call.recipient, call.uids, call.attester);
      }
    } else {
      hide Next;
      if IsPeople(call) {
        PeopleFrame(w, call);
      } else if MovesClock(call) {
        ClockFrame(w, call);
      } else {
        ControlFrame(w, call);
      }
      FundedByFields(w, Next(w, call));
    }
  }

  // ---- every run ----

  lemma DeployedSound(w: World)
    requires Deployed(w)
    ensures Sound(w)
    ensures AllOnSchedule(w.p)
  {
  }

  lemma NextKeepsSound(w: World, call: Call)
    requires Sound(w) && Legal(w, call)
    ensures Sound(Next(w, call))
  {
    hide TermsSane, Conserved, AllVotesSound, Accounts, Funded, Next;
    NextFollows(w, call);
    NextConserves(w, call);
    NextKeepsVotes(w, call);
    NextKeepsAccounts(w, call);
    NextKeepsFunded(w, call);
  }

  // Money is conserved, votes and awards agree with what was cast and granted, and nothing is
  // overdrawn, after every sequence of calls, deposits and releases in any order.
  lemma {:induction false} RunKeepsSound(w: World, calls: seq<Call>)
    requires Deployed(w)
    requires AllLegal(w, calls)
    ensures Sound(Exec(w, calls))
    decreases |calls|
  {
    hide Sound, Deployed, Next;
    if calls == [] {
      DeployedSound(w);
    } else {
      RunKeepsSound(w, calls[..|calls| - 1]);
      NextKeepsSound(Exec(w, calls[..|calls| - 1]), calls[|calls| - 1]);
    }
  }

  // Every batch in the run names no more proofs than its award has tranches left.
  predicate AllFit(w: World, calls: seq<Call>)
    decreases |calls|
  {
    calls == [] ||
    (AllFit(w, calls[..|calls| - 1]) && Fits(Exec(w, calls[..|calls| - 1]), calls[|calls| - 1]))
  }

  lemma {:induction false} RunKeepsSchedule(w: World, calls: seq<Call>)
    requires Deployed(w)
    requires AllLegal(w, calls) && AllFit(w, calls)
    ensures AllOnSchedule(Exec(w, calls).p)
    decreases |calls|
  {
    hide Sound, Deployed, Next, AllOnSchedule, Fits;
    if calls == [] {
      DeployedSound(w);
    } else {
      var before := Exec(w, calls[..|calls| - 1]);
      RunKeepsSchedule(w, calls[..|calls| - 1]);
      RunKeepsSound(w, calls[..|calls| - 1]);
      NextKeepsSound(before, calls[|calls| - 1]);
      SoundGivesAwards(before);
      SoundGivesAwards(Next(before, calls[|calls| - 1]));
      NextKeepsSchedule(before, calls[|calls| - 1]);
    }
  }

  lemma SoundGivesAwards(w: World)
    requires Sound(w)
    ensures AllAwardsSound(w.p) && 0 < w.p.config.tranches
  {
    hide AllAwardsSound, TotalsAddUp, Conserved, Funded, AllVotesSound;
  }

  // On schedule nothing released exceeds what was granted, in any award or in total.
  lemma ReleasedWithinGranted(p: Storage)
    requires AllOnSchedule(p) && TotalsAddUp(p)
    ensures 0 <= p.released <= p.granted
    ensures forall r :: r in p.awards ==> p.awards[r].granted - p.awards[r].released <= p.granted - p.released
  {
    forall r | r in p.awards
      ensures 0 <= p.awards[r].released <= p.awards[r].granted
    {
      ScheduleIsExact(p.awards[r]);
    }
    var none: map<Address, Award> := map[];
    SumOfAtMost(p.awards, ReleasedOf, p.awards, GrantedOf);
    SumOfAtMost(none, ReleasedOf, p.awards, ReleasedOf);
    hide OnSchedule;
    forall r | r in p.awards
      ensures p.awards[r].granted - p.awards[r].released <= p.granted - p.released
    {
      var rest := p.awards - {r};
      SumOfRemove(p.awards, GrantedOf, r);
      SumOfRemove(p.awards, ReleasedOf, r);
      SumOfAtMost(rest, ReleasedOf, rest, GrantedOf);
    }
  }

  // ---- the premises can be met ----

  // One reviewer, one verifier, one schema, and an asset held by a donor.
  function FreshProgramme(codec: Codec, donor: Address, gift: nat, tranches: nat): World {
    var self, creator, verifier := Address(0), Address(1), Address(2);
    var schema := SchemaUid(verifier, "term completed");
    var registry := Attest.Registry(map[schema := Attest.Schema(schema, verifier, "term completed", true, true, None)], map[], 0);
    var config := Config(creator, creator, schema, 250, 10, 20, 30, 40, 1, tranches, tranches);
    World(self, 5, map[donor := gift], [], registry, codec, Record.Book({self}, map[], {}, []), {},
          Storage(config, false, false, false, 0, 0, 0, 0, 0, map[], map[], {creator}, {verifier}, {},
                  map[], map[], map[], {}, map[]))
  }

  lemma FreshIsDeployed(codec: Codec, donor: Address, gift: nat, tranches: nat)
    requires donor != Address(0) && 0 < tranches
    ensures Deployed(FreshProgramme(codec, donor, gift, tranches))
  {
    var w := FreshProgramme(codec, donor, gift, tranches);
    var reviewers, verifiers := [Address(1)], [Address(2)];
    assert (set r | r in reviewers) == {Address(1)} && (set v | v in verifiers) == {Address(2)};
    assert Create(w.p.config, reviewers, verifiers, w.attest, w.now) == Ok(w.p);
    var age: map<Uid, nat> := map[w.p.config.schema := 0];
    assert Attest.Forest(w.attest.schemas, age);
    forall s
      ensures Record.SubjectSound(codec, w.record, s)
    {
    }
  }
}
