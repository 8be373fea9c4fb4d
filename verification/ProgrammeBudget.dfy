// Oversubscription: which awards the budget covers, whatever order they are settled in.
module ProgrammeBudget {
  import opened Results
  import opened Ledger
  import opened MapSums
  import opened Votes
  import opened Programme
  import opened ProgrammeTerms
  import opened ProgrammeLedger
  import opened ProgrammeVotes
  import opened ProgrammeAwards
  import opened ProgrammeRuns

  // Where an award would be paid, chosen by whoever settles it.
  datatype Choice = Choice(payee: Address, mode: Mode)

  // The amount the votes of an application have settled, zero short of a quorum.
  function Middle(p: Storage, applicant: Address): int {
    if applicant in p.applications && 0 < p.config.quorum <= |p.applications[applicant].votes|
    then p.applications[applicant].votes[AwardIndex(p.config.quorum)] else 0
  }

  // Every check of `finalize` but the budget.
  predicate Settleable(w: World, applicant: Address, c: Choice) {
    && !w.p.paused && PhaseOf(w.p, w.now) in {Review, Settled}
    && applicant in w.p.applications
    && !w.p.applications[applicant].finalized && !w.p.applications[applicant].withdrawn
    && 0 < w.p.config.quorum <= |w.p.applications[applicant].votes|
    && w.p.config.minimumAward <= Middle(w.p, applicant)
    && PayeeGuard(w.p, applicant, c.payee, c.mode).Pass?
    && Available(w.p).Ok?
  }

  // Contributions are an i128.
  predicate Representable(p: Storage) {
    0 <= p.contributed <= I128_MAX && p.config.feeBps <= MAX_FEE_BPS
  }

  lemma DueExactly(w: World, applicant: Address, c: Choice)
    requires Representable(w.p)
    ensures AwardDue(w, applicant, c.payee, c.mode).Ok? <==>
            && Settleable(w, applicant, c)
            && w.p.granted + Middle(w.p, applicant) <= BudgetOf(w.p.contributed, w.p.config.feeBps)
    ensures AwardDue(w, applicant, c.payee, c.mode).Ok? ==>
              AwardDue(w, applicant, c.payee, c.mode).value == Middle(w.p, applicant)
  {
    BudgetGrows(w.p.contributed, w.p.contributed, w.p.config.feeBps);
    hide FeeOn;
  }

  // ---- settling a whole set ----

  ghost predicate AllSettleable(w: World, choices: map<Address, Choice>) {
    forall a :: a in choices ==> Settleable(w, a, choices[a])
  }

  function Amounts(w: World, choices: map<Address, Choice>): map<Address, int> {
    map a | a in choices :: Middle(w.p, a)
  }

  function AwardFor(w: World, a: Address, c: Choice): Award {
    Award(a, Middle(w.p, a), 0, w.p.config.tranches, 0, c.payee, c.mode)
  }

  function Marked(applications: map<Address, Application>, names: set<Address>): map<Address, Application> {
    map a | a in applications :: if a in names then applications[a].(finalized := true) else applications[a]
  }

  function WithAwards(w: World, choices: map<Address, Choice>): map<Address, Award> {
    map a | a in w.p.awards.Keys + choices.Keys :: if a in choices then AwardFor(w, a, choices[a]) else w.p.awards[a]
  }

  // The world in which exactly `choices` have been settled, with no order in it.
  ghost function SettledWorld(w: World, choices: map<Address, Choice>): World {
    w.(p := w.p.(applications := Marked(w.p.applications, choices.Keys),
                 granted := w.p.granted + Sum(Amounts(w, choices)),
                 awards := WithAwards(w, choices)))
  }

  ghost predicate Lists(order: seq<Address>, names: set<Address>) {
    && (forall a :: a in order <==> a in names)
    && (forall i, j :: 0 <= i < j < |order| ==> order[i] != order[j])
  }

  // `finalize` called for each applicant in order, stopping at a refusal.
  function FinalizeAll(w: World, order: seq<Address>, choices: map<Address, Choice>): Result<World, Error>
    requires forall i :: 0 <= i < |order| ==> order[i] in choices
  {
    if order == [] then Ok(w)
    else
      var n := |order| - 1;
      var before :- FinalizeAll(w, order[..n], choices);
      First(Finalize(before, order[n], choices[order[n]].payee, choices[order[n]].mode))
  }

  lemma StillSettleable(w: World, done: map<Address, Choice>, a: Address, c: Choice)
    requires a !in done
    ensures Settleable(SettledWorld(w, done), a, c) <==> Settleable(w, a, c)
    ensures Middle(SettledWorld(w, done).p, a) == Middle(w.p, a)
  {
  }

  lemma OneMore(w: World, done: map<Address, Choice>, a: Address, c: Choice)
    requires a !in done
    ensures Sum(Amounts(w, done[a := c])) == Sum(Amounts(w, done)) + Middle(w.p, a)
  {
    SumUpdate(Amounts(w, done), a, Middle(w.p, a));
    assert Amounts(w, done[a := c]) == Amounts(w, done)[a := Middle(w.p, a)];
  }

  lemma MarkOneMore(applications: map<Address, Application>, names: set<Address>, a: Address)
    requires a in applications && a !in names
    ensures a in Marked(applications, names)
    ensures Marked(applications, names + {a}) ==
            Marked(applications, names)[a := Marked(applications, names)[a].(finalized := true)]
  {
  }

  lemma AwardOneMore(w: World, done: map<Address, Choice>, a: Address, c: Choice)
    ensures WithAwards(w, done[a := c]) == WithAwards(w, done)[a := AwardFor(w, a, c)]
  {
    hide AwardFor;
  }

  ghost predicate SettledAlso(before: World, after: World, a: Address, award: Award) {
    && a in before.p.applications
    && after == before.(p := before.p.(applications := after.p.applications, granted := after.p.granted, awards := after.p.awards))
    && after.p.applications == before.p.applications[a := before.p.applications[a].(finalized := true)]
    && after.p.granted == before.p.granted + award.granted
    && after.p.awards == before.p.awards[a := award]
  }

  lemma SettledAdds(w: World, done: map<Address, Choice>, a: Address, c: Choice)
    requires a in w.p.applications && a !in done
    ensures SettledAlso(SettledWorld(w, done), SettledWorld(w, done[a := c]), a, AwardFor(w, a, c))
  {
    assert done[a := c].Keys == done.Keys + {a};
    hide Sum, Amounts, Marked, WithAwards, Middle;
    OneMore(w, done, a, c);
    MarkOneMore(w.p.applications, done.Keys, a);
    AwardOneMore(w, done, a, c);
  }

  lemma FinalizeSettles(w: World, applicant: Address, c: Choice)
    requires Representable(w.p) && Settleable(w, applicant, c)
    ensures var r := First(Finalize(w, applicant, c.payee, c.mode));
            && (r.Ok? <==> w.p.granted + Middle(w.p, applicant) <= BudgetOf(w.p.contributed, w.p.config.feeBps))
            && (r.Ok? ==> SettledAlso(w, r.value, applicant, AwardFor(w, applicant, c)))
  {
    DueExactly(w, applicant, c);
    hide AwardDue, BudgetOf;
  }

  lemma SettleNext(w: World, done: map<Address, Choice>, a: Address, c: Choice)
    requires Representable(w.p)
    requires a !in done && Settleable(w, a, c)
    ensures var r := First(Finalize(SettledWorld(w, done), a, c.payee, c.mode));
            && (r.Ok? <==> w.p.granted + Sum(Amounts(w, done[a := c])) <= BudgetOf(w.p.contributed, w.p.config.feeBps))
            && (r.Ok? ==> r.value == SettledWorld(w, done[a := c]))
  {
    OneMore(w, done, a, c);
    StillSettleable(w, done, a, c);
    SettledAdds(w, done, a, c);
    SettledTerms(w, done);
    hide Finalize, Sum, BudgetOf, SettledWorld, Settleable, Amounts;
    FinalizeSettles(SettledWorld(w, done), a, c);
    assert AwardFor(SettledWorld(w, done), a, c) == AwardFor(w, a, c);
  }

  lemma SettledTerms(w: World, done: map<Address, Choice>)
    ensures var v := SettledWorld(w, done);
            && v.p.config == w.p.config && v.p.contributed == w.p.contributed
            && v.p.granted == w.p.granted + Sum(Amounts(w, done))
  {
  }

  lemma {:induction false} OrderSettles(w: World, order: seq<Address>, choices: map<Address, Choice>)
    requires Representable(w.p) && WithinBudget(w.p)
    requires AllSettleable(w, choices)
    requires forall a :: a in choices ==> 0 < Middle(w.p, a)
    requires Lists(order, choices.Keys)
    ensures FinalizeAll(w, order, choices).Ok? <==>
            w.p.granted + Sum(Amounts(w, choices)) <= BudgetOf(w.p.contributed, w.p.config.feeBps)
    ensures FinalizeAll(w, order, choices).Ok? ==> FinalizeAll(w, order, choices).value == SettledWorld(w, choices)
    decreases |order|
  {
    hide Finalize, Settleable, SettledWorld, Sum, BudgetOf, Amounts;
    if order == [] {
      assert choices == map[];
      NothingToSettle(w);
    } else {
      var n := |order| - 1;
      var a, rest := order[n], choices - {order[n]};
      assert a in order;
      RestListed(order, choices);
      OrderSettles(w, order[..n], rest);
      SameChoices(w, order[..n], choices, rest);
      assert rest[a := choices[a]] == choices;
      OneMore(w, rest, a, choices[a]);
      SettleNext(w, rest, a, choices[a]);
    }
  }

  lemma NothingToSettle(w: World)
    ensures var none: map<Address, Choice> := map[]; SettledWorld(w, none) == w && Sum(Amounts(w, none)) == 0
  {
    var none: map<Address, Choice> := map[];
    assert Amounts(w, none) == map[];
    assert SettledWorld(w, none).p.applications == w.p.applications;
    assert SettledWorld(w, none).p.awards == w.p.awards;
  }

  lemma RestListed(order: seq<Address>, choices: map<Address, Choice>)
    requires order != [] && Lists(order, choices.Keys)
    ensures Lists(order[..|order| - 1], (choices - {order[|order| - 1]}).Keys)
  {
    var n := |order| - 1;
    forall a
      ensures a in order[..n] <==> a in order && a != order[n]
    {
      if a in order && a != order[n] {
        var i :| 0 <= i < |order| && order[i] == a;
        assert order[..n][i] == a;
      }
    }
  }

  lemma {:induction false} SameChoices(w: World, order: seq<Address>, a: map<Address, Choice>, b: map<Address, Choice>)
    requires forall i :: 0 <= i < |order| ==> order[i] in a && order[i] in b && a[order[i]] == b[order[i]]
    ensures FinalizeAll(w, order, a) == FinalizeAll(w, order, b)
    decreases |order|
  {
    if order != [] {
      SameChoices(w, order[..|order| - 1], a, b);
    }
  }

  // ---- over runs ----

  lemma {:induction false} RunKeepsWidth(w: World, calls: seq<Call>)
    requires Deployed(w)
    ensures Exec(w, calls).p.contributed <= I128_MAX
    decreases |calls|
  {
    hide Next;
    if calls != [] {
      var before, call := Exec(w, calls[..|calls| - 1]), calls[|calls| - 1];
      RunKeepsWidth(w, calls[..|calls| - 1]);
      ContributedOnlyGrows(before, call);
      if call.CallContribute? {
        ContributeKeepsWidth(before, call.donor, call.amount);
      }
    }
  }

  lemma ContributeKeepsWidth(w: World, donor: Address, amount: int)
    requires w.p.contributed <= I128_MAX
    ensures Next(w, CallContribute(donor, amount)).p.contributed <= I128_MAX
  {
    hide MoveToken;
  }

  lemma {:induction false} ReachableIsRepresentable(w: World, calls: seq<Call>)
    requires Deployed(w)
    requires AllLegal(w, calls)
    ensures var v := Exec(w, calls); Representable(v.p) && WithinBudget(v.p) && AllVotesSound(v.p)
  {
    hide Exec, Deployed, AllVotesSound, AllAwardsSound, TotalsAddUp, Conserved, Funded;
    RunKeepsWidth(w, calls);
    RunKeepsSound(w, calls);
  }

  lemma SettledIsPositive(w: World, a: Address, c: Choice)
    requires AllVotesSound(w.p) && Settleable(w, a, c)
    ensures 0 < Middle(w.p, a)
  {
    assert VotesSound(w.p, a);
  }

  // In every reachable state, applications ready to settle either all fit the remaining budget, and
  // then every order of settling them ends in one and the same state, or every order is refused
  // somewhere.
  lemma {:induction false} EveryOrderAgrees(w: World, calls: seq<Call>, choices: map<Address, Choice>, order: seq<Address>, other: seq<Address>)
    requires Deployed(w)
    requires AllLegal(w, calls)
    requires AllSettleable(Exec(w, calls), choices)
    requires Lists(order, choices.Keys) && Lists(other, choices.Keys)
    ensures var v := Exec(w, calls);
            var fits := v.p.granted + Sum(Amounts(v, choices)) <= BudgetOf(v.p.contributed, v.p.config.feeBps);
            && (FinalizeAll(v, order, choices).Ok? <==> fits)
            && (FinalizeAll(v, other, choices).Ok? <==> fits)
            && (fits ==> FinalizeAll(v, order, choices) == FinalizeAll(v, other, choices) == Ok(SettledWorld(v, choices)))
  {
    var v := Exec(w, calls);
    hide Exec, Deployed, AllLegal, Settleable, Middle, Amounts, SettledWorld, FinalizeAll, BudgetOf;
    ReachableIsRepresentable(w, calls);
    forall a | a in choices
      ensures 0 < Middle(v.p, a)
    {
      SettledIsPositive(v, a, choices[a]);
    }
    OrderSettles(v, order, choices);
    OrderSettles(v, other, choices);
  }

  // What later calls leave of the budget: nothing is added once contributions have closed, and
  // nothing granted is ever given back.
  ghost predicate Shrunk(w: World, v: World) {
    && v.p.contributed == w.p.contributed && v.p.config.feeBps == w.p.config.feeBps
    && w.p.granted <= v.p.granted
  }

  lemma NextShrinks(w: World, call: Call)
    requires AllVotesSound(w.p) && PhaseOf(w.p, w.now) != Opened
    ensures Shrunk(w, Next(w, call)) && PhaseOf(Next(w, call).p, Next(w, call).now) != Opened
  {
    hide Next, AllVotesSound;
    ContributedOnlyGrows(w, call);
    NextFollows(w, call);
    GrantedOnlyGrows(w, call);
  }

  lemma GrantedOnlyGrows(w: World, call: Call)
    requires AllVotesSound(w.p)
    ensures w.p.granted <= Next(w, call).p.granted
  {
    if call.CallFinalize? {
      FinalizeOnlyGrows(w, call.applicant, call.payee, call.mode);
    } else if IsPeople(call) {
      hide Inserted, Removed;
    } else {
      hide Next;
      if IsRelease(call) {
        ReleaseFrame(w, call);
      } else if IsMoney(call) {
        MoneyFrame(w, call);
      } else if MovesClock(call) {
        ClockFrame(w, call);
      } else {
        ControlFrame(w, call);
      }
    }
  }

  lemma FinalizeOnlyGrows(w: World, applicant: Address, payee: Address, mode: Mode)
    requires AllVotesSound(w.p)
    ensures w.p.granted <= Next(w, CallFinalize(applicant, payee, mode)).p.granted
  {
    assert VotesSound(w.p, applicant);
  }

  lemma {:induction false} BudgetOnlyShrinks(w: World, calls: seq<Call>)
    requires AllVotesSound(w.p) && PhaseOf(w.p, w.now) != Opened
    ensures AllVotesSound(Exec(w, calls).p) && Shrunk(w, Exec(w, calls))
    ensures PhaseOf(Exec(w, calls).p, Exec(w, calls).now) != Opened
    decreases |calls|
  {
    hide AllVotesSound, Next, PhaseOf;
    if calls != [] {
      BudgetOnlyShrinks(w, calls[..|calls| - 1]);
      NextShrinks(Exec(w, calls[..|calls| - 1]), calls[|calls| - 1]);
      NextKeepsVotes(Exec(w, calls[..|calls| - 1]), calls[|calls| - 1]);
    }
  }

  lemma RefusedMeaning(w: World, applicant: Address, payee: Address, mode: Mode)
    requires AwardDue(w, applicant, payee, mode) == Err(InsufficientBudget)
    ensures BudgetOf(w.p.contributed, w.p.config.feeBps) < w.p.granted + Middle(w.p, applicant)
    ensures PhaseOf(w.p, w.now) != Opened
  {
    hide BudgetOf;
  }

  lemma AcceptedMeaning(w: World, applicant: Address, payee: Address, mode: Mode)
    requires AwardDue(w, applicant, payee, mode).Ok?
    ensures w.p.granted + Middle(w.p, applicant) <= BudgetOf(w.p.contributed, w.p.config.feeBps)
    ensures AwardDue(w, applicant, payee, mode).value == Middle(w.p, applicant)
  {
    hide BudgetOf;
  }

  // A finalisation refused for want of budget can only ever succeed, by any call and after anything
  // else has happened, if its votes have been amended to settle on less. On unchanged votes it is
  // refused for good, whatever the module's documentation says of retrying.
  lemma {:induction false} RefusalIsFinal(w: World, calls: seq<Call>, later: seq<Call>, applicant: Address,
                       payee: Address, mode: Mode, laterPayee: Address, laterMode: Mode)
    requires Deployed(w)
    requires AwardDue(Exec(w, calls), applicant, payee, mode) == Err(InsufficientBudget)
    ensures var refused, v := Exec(w, calls), Exec(Exec(w, calls), later);
            AwardDue(v, applicant, laterPayee, laterMode).Ok? ==>
              Middle(v.p, applicant) < Middle(refused.p, applicant) &&
              v.p.applications[applicant].votes != refused.p.applications[applicant].votes
  {
    var refused := Exec(w, calls);
    RunKeepsVotes(w, calls);
    RefusedMeaning(refused, applicant, payee, mode);
    hide Deployed, AllVotesSound, BudgetOf, PhaseOf;
    BudgetOnlyShrinks(refused, later);
    var v := Exec(refused, later);
    QuorumKept(refused, later);
    hide Exec;
    if AwardDue(v, applicant, laterPayee, laterMode).Ok? {
      AcceptedMeaning(v, applicant, laterPayee, laterMode);
    }
  }

  lemma {:induction false} QuorumKept(w: World, calls: seq<Call>)
    ensures Exec(w, calls).p.config.quorum == w.p.config.quorum
    decreases |calls|
  {
    hide Next;
    if calls != [] {
      QuorumKept(w, calls[..|calls| - 1]);
      NextFollows(Exec(w, calls[..|calls| - 1]), calls[|calls| - 1]);
    }
  }

  // ---- every order ends maximal ----

  // `finalize` called for each applicant in order, whether or not each call succeeds.
  function SettleWhatFits(w: World, order: seq<Address>, choices: map<Address, Choice>): World
    requires forall i :: 0 <= i < |order| ==> order[i] in choices
  {
    if order == [] then w
    else
      var n := |order| - 1;
      Next(SettleWhatFits(w, order[..n], choices), CallFinalize(order[n], choices[order[n]].payee, choices[order[n]].mode))
  }

  predicate DoneOrBlocked(w: World, a: Address) {
    && a in w.p.applications
    && (w.p.applications[a].finalized ||
        BudgetOf(w.p.contributed, w.p.config.feeBps) < w.p.granted + Middle(w.p, a))
  }

  // One settlement changes nothing another depends on but what is left of the budget.
  lemma SettleOne(w: World, a: Address, c: Choice, other: Address, d: Choice)
    requires Representable(w.p) && AllVotesSound(w.p)
    ensures var next := Next(w, CallFinalize(a, c.payee, c.mode));
            && Representable(next.p) && AllVotesSound(next.p)
            && (Settleable(w, a, c) ==> DoneOrBlocked(next, a))
            && (DoneOrBlocked(w, other) ==> DoneOrBlocked(next, other))
            && (Settleable(w, other, d) && other != a ==> Settleable(next, other, d))
  {
    NextKeepsVotes(w, CallFinalize(a, c.payee, c.mode));
    assert VotesSound(w.p, a);
    DueExactly(w, a, c);
    hide AllVotesSound, AwardDue, BudgetOf;
  }

  lemma {:induction false} SettlingInOrder(w: World, order: seq<Address>, choices: map<Address, Choice>)
    requires Representable(w.p) && AllVotesSound(w.p)
    requires AllSettleable(w, choices)
    requires forall i :: 0 <= i < |order| ==> order[i] in choices
    requires forall i, j :: 0 <= i < j < |order| ==> order[i] != order[j]
    ensures var v := SettleWhatFits(w, order, choices);
            && Representable(v.p) && AllVotesSound(v.p)
            && (forall i :: 0 <= i < |order| ==> DoneOrBlocked(v, order[i]))
            && (forall a :: a in choices && a !in order ==> Settleable(v, a, choices[a]))
    decreases |order|
  {
    hide Settleable, DoneOrBlocked, AllVotesSound, Representable, Next;
    if order != [] {
      var n := |order| - 1;
      var a := order[n];
      assert a !in order[..n];
      SettlingInOrder(w, order[..n], choices);
      var before, v := SettleWhatFits(w, order[..n], choices), SettleWhatFits(w, order, choices);
      SettleOne(before, a, choices[a], a, choices[a]);
      forall i | 0 <= i < n
        ensures DoneOrBlocked(v, order[i])
      {
        assert order[i] == order[..n][i];
        SettleOne(before, a, choices[a], order[i], choices[a]);
      }
      forall b | b in choices && b !in order
        ensures Settleable(v, b, choices[b])
      {
        assert b !in order[..n];
        assert b != order[n];
        SettleOne(before, a, choices[a], b, choices[b]);
      }
    }
  }

  // Settled in any order, skipping refusals, a set of ready applications ends maximal: none left
  // unsettled could be settled, wherever it would be paid.
  lemma {:induction false} EveryOrderEndsMaximal(w: World, calls: seq<Call>, choices: map<Address, Choice>, order: seq<Address>, a: Address, c: Choice)
    requires Deployed(w)
    requires AllLegal(w, calls)
    requires AllSettleable(Exec(w, calls), choices)
    requires Lists(order, choices.Keys)
    requires a in choices
    ensures AwardDue(SettleWhatFits(Exec(w, calls), order, choices), a, c.payee, c.mode).Err?
  {
    hide Exec, Deployed, AllLegal, Settleable, AllVotesSound, BudgetOf;
    ReachableIsRepresentable(w, calls);
    SettlingInOrder(Exec(w, calls), order, choices);
    var v := SettleWhatFits(Exec(w, calls), order, choices);
    var i :| 0 <= i < |order| && order[i] == a;
    if AwardDue(v, a, c.payee, c.mode).Ok? {
      AcceptedMeaning(v, a, c.payee, c.mode);
    }
  }
}
