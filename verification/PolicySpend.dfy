// The spend policy: per-wallet caps over tumbling windows, checked over a batch of contexts.
module PolicySpend {
  import opened Results
  import opened Ledger
  import opened Arithmetic
  import opened Histories

  datatype Error =
    | NotConfigured | NotSteward | ForbiddenCall | PayeeNotAllowed | CapExceeded
    | ForbiddenTransfer | InvalidAmount | InvalidCap | AlreadyPayee | NotPayee

  datatype Policy = Policy(
    steward: Address, token: Address, cap: int, period: nat, spent: int, windowStart: nat)

  datatype State = State(
    policies: map<Address, Policy>, payees: set<(Address, Address)>, installed: set<Address>)

  const EMPTY := State(map[], {}, {})

  // What a signer asks to authorise: a contract call, read as `transfer(from, to, amount)`,
  // or the creation of a contract.
  datatype Context =
    | Invoke(contract: Address, isTransfer: bool, from: Address, to: Address, amount: int)
    | CreateContract

  predicate WindowElapsed(p: Policy, now: nat) {
    (if now < p.windowStart then 0 else now - p.windowStart) >= p.period
  }

  function Remaining(p: Policy, now: nat): int {
    if WindowElapsed(p, now) then p.cap else p.cap - p.spent
  }

  // ---- the calls, as functions of the state ----

  function Configure(s: State, now: nat, steward: Address, wallet: Address, token: Address,
                     cap: int, period: nat): Result<State, Error> {
    if cap <= 0 || period == 0 then Err(InvalidCap)
    else
      :- Need(wallet in s.policies ==> s.policies[wallet].steward == steward, NotSteward);
      Ok(s.(policies := s.policies[wallet := Policy(steward, token, cap, period, 0, now)]))
  }

  function AllowPayee(s: State, steward: Address, wallet: Address, payee: Address): Result<State, Error> {
    if wallet !in s.policies then Err(NotConfigured)
    else
      :- Need(s.policies[wallet].steward == steward, NotSteward);
      :- Need((wallet, payee) !in s.payees, AlreadyPayee);
      Ok(s.(payees := s.payees + {(wallet, payee)}))
  }

  function DenyPayee(s: State, steward: Address, wallet: Address, payee: Address): Result<State, Error> {
    if wallet !in s.policies then Err(NotConfigured)
    else
      :- Need(s.policies[wallet].steward == steward, NotSteward);
      :- Need((wallet, payee) in s.payees, NotPayee);
      Ok(s.(payees := s.payees - {(wallet, payee)}))
  }

  function Rolled(p: Policy, now: nat): Policy {
    if WindowElapsed(p, now) then p.(spent := 0, windowStart := now) else p
  }

  function Charge(p: Policy, payees: set<(Address, Address)>, wallet: Address, c: Context): Result<Policy, Error> {
    if !c.Invoke? then Err(ForbiddenCall)
    else
      :- Need(c.contract == p.token && c.isTransfer, ForbiddenCall);
      :- Need(c.from == wallet, ForbiddenTransfer);
      :- Need(0 < c.amount, InvalidAmount);
      :- Need((wallet, c.to) in payees, PayeeNotAllowed);
      :- Need(p.spent + c.amount <= p.cap, CapExceeded);
      Ok(p.(spent := p.spent + c.amount))
  }

  function ChargeAll(p: Policy, payees: set<(Address, Address)>, wallet: Address, contexts: seq<Context>): Result<Policy, Error>
    decreases |contexts|
  {
    if contexts == [] then Ok(p)
    else
      var q :- Charge(p, payees, wallet, contexts[0]);
      ChargeAll(q, payees, wallet, contexts[1..])
  }

  function Approve(s: State, now: nat, wallet: Address, contexts: seq<Context>): Result<State, Error> {
    if wallet !in s.policies then Err(NotConfigured)
    else
      var p :- ChargeAll(Rolled(s.policies[wallet], now), s.payees, wallet, contexts);
      Ok(s.(policies := s.policies[wallet := p]))
  }

  // ---- the contract ----

  class SpendPolicy {
    var policies: map<Address, Policy>
    var payees: set<(Address, Address)>
    var installed: set<Address>

    ghost function View(): State
      reads this
    {
      State(policies, payees, installed)
    }

    constructor ()
      ensures View() == EMPTY
    {
      policies, payees, installed := map[], {}, {};
    }

    method SetRules(now: nat, steward: Address, wallet: Address, token: Address, cap: int, period: nat)
      returns (r: Result<(), Error>)
      modifies this
      ensures match Configure(old(View()), now, steward, wallet, token, cap, period)
              case Ok(next) => r.Ok? && View() == next
              case Err(e) => r == Err(e) && View() == old(View())
    {
      if cap <= 0 || period == 0 {
        return Err(InvalidCap);
      }
      if wallet in policies && policies[wallet].steward != steward {
        return Err(NotSteward);
      }
      policies := policies[wallet := Policy(steward, token, cap, period, 0, now)];
      r := Ok(());
    }

    // The loop charges each context to a working copy, which is stored only if all pass.
    method Authorise(now: nat, source: Address, contexts: seq<Context>) returns (r: Result<(), Error>)
      modifies this
      ensures match Approve(old(View()), now, source, contexts)
              case Ok(next) => r.Ok? && View() == next
              case Err(e) => r == Err(e) && View() == old(View())
    {
      if source !in policies {
        return Err(NotConfigured);
      }
      var policy := policies[source];
      if WindowElapsed(policy, now) {
        policy := policy.(spent := 0);
        policy := policy.(windowStart := now);
      }
      ghost var rolled := policy;
      var i := 0;
      while i < |contexts|
        invariant 0 <= i <= |contexts|
        invariant ChargeAll(rolled, payees, source, contexts) == ChargeAll(policy, payees, source, contexts[i..])
      {
        var c := contexts[i];
        if c.CreateContract? || c.contract != policy.token || !c.isTransfer {
          return Err(ForbiddenCall);
        }
        if c.from != source {
          return Err(ForbiddenTransfer);
        }
        if c.amount <= 0 {
          return Err(InvalidAmount);
        }
        if (source, c.to) !in payees {
          return Err(PayeeNotAllowed);
        }
        if policy.spent + c.amount > policy.cap {
          return Err(CapExceeded);
        }
        policy := policy.(spent := policy.spent + c.amount);
        i := i + 1;
      }
      policies := policies[source := policy];
      r := Ok(());
    }

    method Install(wallet: Address)
      modifies this
      ensures View() == old(View()).(installed := old(installed) + {wallet})
    {
      installed := installed + {wallet};
    }

    // The spend record stays behind, so removing and re-adding the policy resets nothing.
    method Uninstall(wallet: Address)
      modifies this
      ensures View() == old(View()).(installed := old(installed) - {wallet})
    {
      installed := installed - {wallet};
    }
  }

  // ---- exactly what is approved ----

  function Total(contexts: seq<Context>): int {
    if contexts == [] then 0
    else (if contexts[0].Invoke? then contexts[0].amount else 0) + Total(contexts[1..])
  }

  predicate Proper(token: Address, payees: set<(Address, Address)>, wallet: Address, c: Context) {
    c.Invoke? && c.contract == token && c.isTransfer && c.from == wallet && 0 < c.amount && (wallet, c.to) in payees
  }

  predicate AllProper(token: Address, payees: set<(Address, Address)>, wallet: Address, contexts: seq<Context>) {
    forall i :: 0 <= i < |contexts| ==> Proper(token, payees, wallet, contexts[i])
  }

  lemma {:induction false} ChargeAllExactly(p: Policy, payees: set<(Address, Address)>, wallet: Address, contexts: seq<Context>)
    requires p.spent <= p.cap
    ensures var r := ChargeAll(p, payees, wallet, contexts);
            && (r.Ok? <==> AllProper(p.token, payees, wallet, contexts) && p.spent + Total(contexts) <= p.cap)
            && (r.Ok? ==> r.value == p.(spent := p.spent + Total(contexts)))
            && (AllProper(p.token, payees, wallet, contexts) ==> 0 <= Total(contexts))
    decreases |contexts|
  {
    if contexts != [] {
      var c, rest := contexts[0], contexts[1..];
      assert AllProper(p.token, payees, wallet, contexts) <==>
             Proper(p.token, payees, wallet, c) && AllProper(p.token, payees, wallet, rest) by {
        assert contexts == [c] + rest;
      }
      var q := p.(spent := p.spent + if c.Invoke? then c.amount else 0);
      if q.spent <= p.cap {
        ChargeAllExactly(q, payees, wallet, rest);
      } else {
        ChargeAllExactly(p.(spent := p.cap), payees, wallet, rest);
      }
    }
  }

  ghost predicate Sane(p: Policy) {
    0 < p.cap && 0 < p.period && 0 <= p.spent <= p.cap
  }

  ghost predicate AllSane(s: State) {
    forall w :: w in s.policies ==> Sane(s.policies[w])
  }

  // What `remaining` answers: the whole cap once a period has passed since the window began.
  lemma RemainingExactly(p: Policy, now: nat)
    requires Sane(p)
    ensures Remaining(p, now) == if p.windowStart + p.period <= now then p.cap else p.cap - p.spent
  {
  }

  // A batch is approved exactly when every context is a positive transfer of the policy's asset
  // from the wallet to a verified payee and together they fit the cap, or what is left of it in a
  // window begun less than a period ago. The window begins again at the first approval past its end.
  lemma {:induction false} ApprovedExactly(s: State, now: nat, wallet: Address, contexts: seq<Context>)
    requires AllSane(s)
    ensures Approve(s, now, wallet, contexts).Ok? <==>
            && wallet in s.policies
            && var p := s.policies[wallet];
            && AllProper(p.token, s.payees, wallet, contexts)
            && Total(contexts) <= if p.windowStart + p.period <= now then p.cap else p.cap - p.spent
    ensures Approve(s, now, wallet, contexts).Ok? ==>
              var p, next := s.policies[wallet], Approve(s, now, wallet, contexts).value;
              next == s.(policies := s.policies[wallet :=
                if p.windowStart + p.period <= now then p.(windowStart := now, spent := Total(contexts))
                else p.(spent := p.spent + Total(contexts))])
  {
    if wallet in s.policies {
      ChargeAllExactly(Rolled(s.policies[wallet], now), s.payees, wallet, contexts);
    }
  }

  // ---- runs over time ----

  datatype Call =
    | CallConfigure(steward: Address, wallet: Address, token: Address, cap: int, period: nat)
    | CallAllow(steward: Address, wallet: Address, payee: Address)
    | CallDeny(steward: Address, wallet: Address, payee: Address)
    | CallApprove(wallet: Address, contexts: seq<Context>)
    | CallInstall(wallet: Address)
    | CallUninstall(wallet: Address)

  function Outcome(s: State, now: nat, call: Call): Result<State, Error> {
    match call
    case CallConfigure(st, w, t, c, p) => Configure(s, now, st, w, t, c, p)
    case CallAllow(st, w, p) => AllowPayee(s, st, w, p)
    case CallDeny(st, w, p) => DenyPayee(s, st, w, p)
    case CallApprove(w, cs) => Approve(s, now, w, cs)
    case CallInstall(w) => Ok(s.(installed := s.installed + {w}))
    case CallUninstall(w) => Ok(s.(installed := s.installed - {w}))
  }

  function Next(s: State, now: nat, call: Call): State {
    match Outcome(s, now, call)
    case Ok(next) => next
    case Err(_) => s
  }

  type Timed = (nat, Call)

  function Run(s: State, calls: seq<Timed>): State {
    if calls == [] then s
    else
      var n := |calls| - 1;
      Next(Run(s, calls[..n]), calls[n].0, calls[n].1)
  }

  // What `wallet` had approved by this call, if it was its own approved batch.
  function Spent(s: State, now: nat, call: Call, wallet: Address): int {
    if call.CallApprove? && call.wallet == wallet && Approve(s, now, wallet, call.contexts).Ok?
    then Total(call.contexts) else 0
  }

  // Approved for `wallet` over the run at ledger times in [from, until).
  function SpentBetween(s: State, calls: seq<Timed>, wallet: Address, from: int, until: int): int {
    if calls == [] then 0
    else
      var n := |calls| - 1;
      SpentBetween(s, calls[..n], wallet, from, until) +
      if from <= calls[n].0 < until then Spent(Run(s, calls[..n]), calls[n].0, calls[n].1, wallet) else 0
  }

  // Ledger time never goes back and nobody reconfigures `wallet`.
  ghost predicate Quiet(calls: seq<Timed>, start: nat, wallet: Address) {
    && (forall i :: 0 <= i < |calls| ==> start <= calls[i].0)
    && (forall i, j :: 0 <= i < j < |calls| ==> calls[i].0 <= calls[j].0)
    && (forall i :: 0 <= i < |calls| ==> calls[i].1.CallConfigure? ==> calls[i].1.wallet != wallet)
  }

  lemma NextKeepsSane(s: State, now: nat, call: Call)
    requires AllSane(s)
    ensures AllSane(Next(s, now, call))
  {
    if call.CallApprove? && call.wallet in s.policies {
      ChargeAllExactly(Rolled(s.policies[call.wallet], now), s.payees, call.wallet, call.contexts);
    }
  }

  // One call on `wallet`'s own policy: untouched, or rolled and charged what was approved.
  lemma NextOnPolicy(s: State, now: nat, call: Call, wallet: Address)
    requires AllSane(s)
    requires wallet in s.policies
    requires call.CallConfigure? ==> call.wallet != wallet
    ensures wallet in Next(s, now, call).policies
    ensures var before, after := s.policies[wallet], Next(s, now, call).policies[wallet];
            var amount := Spent(s, now, call, wallet);
            && 0 <= amount
            && (|| (after == before && amount == 0)
                || after == Rolled(before, now).(spent := Rolled(before, now).spent + amount))
  {
    if call.CallApprove? && call.wallet == wallet {
      ChargeAllExactly(Rolled(s.policies[wallet], now), s.payees, wallet, call.contexts);
    }
  }

  lemma {:induction false} RunKeepsPolicy(s: State, calls: seq<Timed>, start: nat, wallet: Address)
    requires AllSane(s) && wallet in s.policies
    requires s.policies[wallet].windowStart <= start
    requires Quiet(calls, start, wallet)
    ensures AllSane(Run(s, calls)) && wallet in Run(s, calls).policies
    ensures var p, q := s.policies[wallet], Run(s, calls).policies[wallet];
            && q.cap == p.cap && q.period == p.period
            && q.windowStart <= if calls == [] then start else calls[|calls| - 1].0
  {
    if calls != [] {
      var n := |calls| - 1;
      var before := Run(s, calls[..n]);
      assert Quiet(calls[..n], start, wallet);
      RunKeepsPolicy(s, calls[..n], start, wallet);
      NextKeepsSane(before, calls[n].0, calls[n].1);
      NextOnPolicy(before, calls[n].0, calls[n].1, wallet);
    }
  }

  lemma QuietPrefix(calls: seq<Timed>, start: nat, wallet: Address)
    requires calls != [] && Quiet(calls, start, wallet)
    ensures Quiet(calls[..|calls| - 1], start, wallet)
    ensures start <= calls[|calls| - 1].0
    ensures calls[|calls| - 1].1.CallConfigure? ==> calls[|calls| - 1].1.wallet != wallet
  {
  }

  lemma SpentWithinCap(s: State, wallet: Address)
    requires AllSane(s) && wallet in s.policies
    ensures Sane(s.policies[wallet])
  {
  }

  // Total approved since a fresh configuration at s0: one cap per window entirely behind the
  // current one, plus what the current window has spent.
  lemma {:induction false} SpentByWindows(s: State, calls: seq<Timed>, wallet: Address, s0: nat, until: int)
    requires AllSane(s) && wallet in s.policies
    requires s.policies[wallet].spent == 0 && s.policies[wallet].windowStart == s0
    requires Quiet(calls, s0, wallet)
    requires forall i :: 0 <= i < |calls| ==> calls[i].0 < until
    ensures wallet in Run(s, calls).policies
    ensures var p, q := s.policies[wallet], Run(s, calls).policies[wallet];
            && s0 <= q.windowStart
            && SpentBetween(s, calls, wallet, s0, until) <= p.cap * ((q.windowStart - s0) / p.period) + q.spent
  {
    hide Next, Spent, Quiet, AllSane;
    SpentWithinCap(s, wallet);
    if calls != [] {
      var n := |calls| - 1;
      var before := Run(s, calls[..n]);
      QuietPrefix(calls, s0, wallet);
      SpentByWindows(s, calls[..n], wallet, s0, until);
      var p, q, now := s.policies[wallet], before.policies[wallet], calls[n].0;
      RunKeepsPolicy(s, calls[..n], s0, wallet);
      SpentWithinCap(before, wallet);
      NextOnPolicy(before, now, calls[n].1, wallet);
      if WindowElapsed(q, now) {
        WindowsPass(p.cap, p.period, q.windowStart - s0, now - s0, q.spent);
      }
    }
  }

  lemma WindowsPass(cap: int, period: nat, from: nat, to: int, spent: int)
    requires 0 < cap && 0 < period && 0 <= spent <= cap
    requires from + period <= to
    ensures cap * (from / period) + spent <= cap * (to / period)
  {
    DivStep(from, period);
    DivMonotone(from + period, to, period);
    MulMonotone(from / period + 1, to / period, cap);
  }

  // From a configuration at s0 up to time T nobody can have got more than one cap per started period.
  lemma CappedSinceConfigured(s: State, calls: seq<Timed>, wallet: Address, s0: nat, t: nat)
    requires AllSane(s) && wallet in s.policies
    requires s.policies[wallet].spent == 0 && s.policies[wallet].windowStart == s0
    requires s0 <= t && Quiet(calls, s0, wallet)
    requires forall i :: 0 <= i < |calls| ==> calls[i].0 <= t
    ensures SpentBetween(s, calls, wallet, s0, t + 1) <=
            s.policies[wallet].cap * ((t - s0) / s.policies[wallet].period + 1)
  {
    SpentByWindows(s, calls, wallet, s0, t + 1);
    RunKeepsPolicy(s, calls, s0, wallet);
    var p, q := s.policies[wallet], Run(s, calls).policies[wallet];
    DivMonotone(q.windowStart - s0, t - s0, p.period);
    MulMonotone((q.windowStart - s0) / p.period, (t - s0) / p.period, p.cap);
  }

  // In the interval from `from`, before any window has rolled inside it the wallet has spent at
  // most what its window shows; after one roll, at most a cap more; a second roll cannot happen.
  lemma {:induction false} SpentInInterval(s: State, calls: seq<Timed>, wallet: Address, start: nat, from: int)
    requires AllSane(s) && wallet in s.policies
    requires s.policies[wallet].windowStart <= start
    requires Quiet(calls, start, wallet)
    ensures wallet in Run(s, calls).policies
    ensures var p, q := s.policies[wallet], Run(s, calls).policies[wallet];
            var total := SpentBetween(s, calls, wallet, from, from + p.period);
            && (calls == [] || calls[|calls| - 1].0 < from ==> total == 0)
            && (q.windowStart < from ==> total <= q.spent)
            && (from <= q.windowStart < from + p.period ==> total <= p.cap + q.spent)
            && total <= 2 * p.cap
  {
    if calls == [] {
    } else {
      var n := |calls| - 1;
      assert Quiet(calls[..n], start, wallet);
      SpentInInterval(s, calls[..n], wallet, start, from);
      RunKeepsPolicy(s, calls[..n], start, wallet);
      NextOnPolicy(Run(s, calls[..n]), calls[n].0, calls[n].1, wallet);
      NextKeepsSane(Run(s, calls[..n]), calls[n].0, calls[n].1);
    }
  }

  // Within any interval one period long a wallet nobody reconfigures gets at most two caps.
  lemma AtMostTwoCaps(s: State, calls: seq<Timed>, wallet: Address, start: nat, from: int)
    requires AllSane(s) && wallet in s.policies
    requires s.policies[wallet].windowStart <= start
    requires Quiet(calls, start, wallet)
    ensures SpentBetween(s, calls, wallet, from, from + s.policies[wallet].period) <= 2 * s.policies[wallet].cap
  {
    SpentInInterval(s, calls, wallet, start, from);
  }

  // ---- rules and payees by the history of calls ----

  // The state a run leaves.
  function Reached(): seq<Timed> -> State {
    calls => Run(EMPTY, calls)
  }

  // Rules are accepted when cap and period are positive, from anyone for a wallet without rules and
  // afterwards from the same steward alone.
  predicate Configures(s: State, call: Call, steward: Address, wallet: Address, token: Address, cap: int, period: nat) {
    && call == CallConfigure(steward, wallet, token, cap, period)
    && 0 < cap && 0 < period
    && (wallet in s.policies ==> s.policies[wallet].steward == steward)
  }

  // Any accepted rules for the wallet.
  predicate Reconfigures(s: State, call: Call, wallet: Address) {
    call.CallConfigure? && Configures(s, call, call.steward, wallet, call.token, call.cap, call.period)
  }

  predicate RuledBy(s: State, steward: Address, wallet: Address, token: Address, cap: int, period: nat) {
    && wallet in s.policies
    && var p := s.policies[wallet];
    p.steward == steward && p.token == token && p.cap == cap && p.period == period
  }

  lemma ChargeAllKeepsRules(p: Policy, payees: set<(Address, Address)>, wallet: Address, contexts: seq<Context>)
    requires p.spent <= p.cap
    ensures var r := ChargeAll(p, payees, wallet, contexts);
            r.Ok? ==> r.value == p.(spent := r.value.spent)
  {
    ChargeAllExactly(p, payees, wallet, contexts);
  }

  lemma NextOnRules(s: State, now: nat, call: Call, steward: Address, wallet: Address, token: Address, cap: int, period: nat)
    requires AllSane(s)
    ensures RuledBy(Next(s, now, call), steward, wallet, token, cap, period) <==>
            || Configures(s, call, steward, wallet, token, cap, period)
            || (RuledBy(s, steward, wallet, token, cap, period) && !Reconfigures(s, call, wallet))
  {
    if call.CallApprove? && call.wallet in s.policies {
      ChargeAllKeepsRules(Rolled(s.policies[call.wallet], now), s.payees, call.wallet, call.contexts);
    }
    hide ChargeAll;
  }

  lemma {:induction false} ReachableIsSane(calls: seq<Timed>)
    ensures AllSane(Run(EMPTY, calls))
  {
    if calls != [] {
      var n := |calls| - 1;
      ReachableIsSane(calls[..n]);
      NextKeepsSane(Run(EMPTY, calls[..n]), calls[n].0, calls[n].1);
    }
  }

  // Accepted rules begin a window of their own, with nothing spent.
  lemma ConfiguresExactly(s: State, now: nat, steward: Address, wallet: Address, token: Address, cap: int, period: nat)
    ensures var r := Configure(s, now, steward, wallet, token, cap, period);
            && (r.Ok? <==> Configures(s, CallConfigure(steward, wallet, token, cap, period), steward, wallet, token, cap, period))
            && (r.Ok? ==> r.value == s.(policies := s.policies[wallet := Policy(steward, token, cap, period, 0, now)]))
  {
  }

  // The steward alone lists payees, and only to some effect.
  lemma ListsExactly(s: State, steward: Address, wallet: Address, payee: Address)
    ensures AllowPayee(s, steward, wallet, payee).Ok? <==>
            Allows(s, CallAllow(steward, wallet, payee), wallet, payee) && (wallet, payee) !in s.payees
    ensures DenyPayee(s, steward, wallet, payee).Ok? <==>
            Denies(s, CallDeny(steward, wallet, payee), wallet, payee) && (wallet, payee) in s.payees
  {
  }

  // A wallet's rules are those last accepted for it.
  lemma {:induction false} RulesByHistory(calls: seq<Timed>, steward: Address, wallet: Address, token: Address, cap: int, period: nat)
    ensures RuledBy(Run(EMPTY, calls), steward, wallet, token, cap, period) <==>
            Since(Reached(), calls, (s: State, c: Timed) => Configures(s, c.1, steward, wallet, token, cap, period),
                  (s: State, c: Timed) => Reconfigures(s, c.1, wallet))
  {
    hide Next, Since, Configures, Reconfigures;
    var on := (s: State, c: Timed) => Configures(s, c.1, steward, wallet, token, cap, period);
    var off := (s: State, c: Timed) => Reconfigures(s, c.1, wallet);
    var holds := (s: State) => RuledBy(s, steward, wallet, token, cap, period);
    forall n | 0 < n <= |calls|
      ensures Decides(Reached(), calls[..n], on, off, holds)
    {
      var prefix := calls[..n];
      var before := Run(EMPTY, prefix[..n - 1]);
      ReachableIsSane(prefix[..n - 1]);
      NextOnRules(before, prefix[n - 1].0, prefix[n - 1].1, steward, wallet, token, cap, period);
    }
    HoldsSince(Reached(), calls, on, off, holds);
  }

  // The wallet's steward allows, or denies, this payee.
  predicate Allows(s: State, call: Call, wallet: Address, payee: Address) {
    wallet in s.policies && call == CallAllow(s.policies[wallet].steward, wallet, payee)
  }

  predicate Denies(s: State, call: Call, wallet: Address, payee: Address) {
    wallet in s.policies && call == CallDeny(s.policies[wallet].steward, wallet, payee)
  }

  lemma NextOnPayees(s: State, now: nat, call: Call, wallet: Address, payee: Address)
    ensures (wallet, payee) in Next(s, now, call).payees <==>
            Allows(s, call, wallet, payee) || ((wallet, payee) in s.payees && !Denies(s, call, wallet, payee))
  {
    hide ChargeAll, Rolled;
  }

  // A wallet's verified payees are those its steward has allowed and not denied since.
  lemma {:induction false} PayeesByHistory(calls: seq<Timed>, wallet: Address, payee: Address)
    ensures (wallet, payee) in Run(EMPTY, calls).payees <==>
            Since(Reached(), calls, (s: State, c: Timed) => Allows(s, c.1, wallet, payee),
                  (s: State, c: Timed) => Denies(s, c.1, wallet, payee))
  {
    hide Next, Since, Allows, Denies;
    var on := (s: State, c: Timed) => Allows(s, c.1, wallet, payee);
    var off := (s: State, c: Timed) => Denies(s, c.1, wallet, payee);
    var holds := (s: State) => (wallet, payee) in s.payees;
    forall n | 0 < n <= |calls|
      ensures Decides(Reached(), calls[..n], on, off, holds)
    {
      var prefix := calls[..n];
      NextOnPayees(Run(EMPTY, prefix[..n - 1]), prefix[n - 1].0, prefix[n - 1].1, wallet, payee);
    }
    HoldsSince(Reached(), calls, on, off, holds);
  }

  lemma NextOnInstalled(s: State, now: nat, call: Call, wallet: Address)
    ensures wallet in Next(s, now, call).installed <==>
            call == CallInstall(wallet) || (wallet in s.installed && call != CallUninstall(wallet))
  {
    hide ChargeAll, Rolled;
  }

  // The wallets that carry the policy are those it was installed on and not removed from since; removing
  // it leaves the wallet's rules and what it has spent as they were.
  lemma {:induction false} InstalledByHistory(calls: seq<Timed>, wallet: Address)
    ensures wallet in Run(EMPTY, calls).installed <==>
            Since(Reached(), calls, (s: State, c: Timed) => c.1 == CallInstall(wallet),
                  (s: State, c: Timed) => c.1 == CallUninstall(wallet))
    ensures forall s, now :: Next(s, now, CallUninstall(wallet)).policies == s.policies
  {
    hide Next, Since;
    var on, off := (s: State, c: Timed) => c.1 == CallInstall(wallet), (s: State, c: Timed) => c.1 == CallUninstall(wallet);
    var holds := (s: State) => wallet in s.installed;
    forall n | 0 < n <= |calls|
      ensures Decides(Reached(), calls[..n], on, off, holds)
    {
      var prefix := calls[..n];
      NextOnInstalled(Run(EMPTY, prefix[..n - 1]), prefix[n - 1].0, prefix[n - 1].1, wallet);
    }
    HoldsSince(Reached(), calls, on, off, holds);
    UninstallKeepsRules(wallet);
  }

  lemma UninstallKeepsRules(wallet: Address)
    ensures forall s, now :: Next(s, now, CallUninstall(wallet)).policies == s.policies
  {
  }

  // ---- errors ----

  // What each error claims about the call it refuses.
  predicate Explains(s: State, now: nat, call: Call, e: Error) {
    match e
    case InvalidCap => call.CallConfigure? && (call.cap <= 0 || call.period == 0)
    case NotConfigured => (call.CallAllow? || call.CallDeny? || call.CallApprove?) && call.wallet !in s.policies
    case NotSteward =>
      (call.CallConfigure? || call.CallAllow? || call.CallDeny?) && call.wallet in s.policies &&
      s.policies[call.wallet].steward != call.steward
    case AlreadyPayee => call.CallAllow? && (call.wallet, call.payee) in s.payees
    case NotPayee => call.CallDeny? && (call.wallet, call.payee) !in s.payees
    case _ => call.CallApprove? && call.wallet in s.policies && Objects(s, now, call.wallet, call.contexts, e)
  }

  // What an error claims about a batch: one of its contexts is wrong in that way, or the contexts up to
  // some point are together more than the window leaves.
  predicate Objects(s: State, now: nat, wallet: Address, contexts: seq<Context>, e: Error)
    requires wallet in s.policies
  {
    var p := s.policies[wallet];
    var left := if p.windowStart + p.period <= now then p.cap else p.cap - p.spent;
    match e
    case ForbiddenCall =>
      exists i :: 0 <= i < |contexts| && !(contexts[i].Invoke? && contexts[i].contract == p.token && contexts[i].isTransfer)
    case ForbiddenTransfer => exists i :: 0 <= i < |contexts| && contexts[i].Invoke? && contexts[i].from != wallet
    case InvalidAmount => exists i :: 0 <= i < |contexts| && contexts[i].Invoke? && contexts[i].amount <= 0
    case PayeeNotAllowed =>
      exists i :: 0 <= i < |contexts| && contexts[i].Invoke? && (wallet, contexts[i].to) !in s.payees
    case CapExceeded => exists k :: 0 <= k <= |contexts| && left < Total(contexts[..k])
    case _ => false
  }

  // The first context refused, and how much had been charged by then.
  lemma {:induction false} ChargeAllErrors(p: Policy, payees: set<(Address, Address)>, wallet: Address, contexts: seq<Context>)
      returns (i: nat)
    requires ChargeAll(p, payees, wallet, contexts).Err?
    ensures i < |contexts|
    ensures Charge(p.(spent := p.spent + Total(contexts[..i])), payees, wallet, contexts[i]) ==
            Err(ChargeAll(p, payees, wallet, contexts).error)
    decreases |contexts|
  {
    var first := Charge(p, payees, wallet, contexts[0]);
    if first.Err? {
      i := 0;
      assert Total(contexts[..0]) == 0;
    } else {
      var j := ChargeAllErrors(first.value, payees, wallet, contexts[1..]);
      i := j + 1;
      assert contexts[..i][1..] == contexts[1..][..j];
      assert Total(contexts[..i]) == contexts[0].amount + Total(contexts[1..][..j]);
    }
  }

  lemma {:induction false} TotalSnoc(contexts: seq<Context>, i: nat)
    requires i < |contexts| && contexts[i].Invoke?
    ensures Total(contexts[..i + 1]) == Total(contexts[..i]) + contexts[i].amount
    decreases |contexts|
  {
    if i > 0 {
      TotalSnoc(contexts[1..], i - 1);
      assert contexts[..i + 1][1..] == contexts[1..][..i] && contexts[..i][1..] == contexts[1..][..i - 1];
    } else {
      assert contexts[..1][1..] == [];
    }
  }

  lemma ApproveErrors(s: State, now: nat, wallet: Address, contexts: seq<Context>)
    requires AllSane(s) && Approve(s, now, wallet, contexts).Err?
    ensures Explains(s, now, CallApprove(wallet, contexts), Approve(s, now, wallet, contexts).error)
  {
    if wallet in s.policies {
      var rolled := Rolled(s.policies[wallet], now);
      assert Sane(s.policies[wallet]);
      var i := ChargeAllErrors(rolled, s.payees, wallet, contexts);
      if contexts[i].Invoke? {
        TotalSnoc(contexts, i);
      }
      hide ChargeAll, Total;
      var e := Approve(s, now, wallet, contexts).error;
      if e == CapExceeded {
        var p := s.policies[wallet];
        assert (if p.windowStart + p.period <= now then p.cap else p.cap - p.spent) < Total(contexts[..i + 1]);
      }
    }
  }

  // No error is ever false.
  lemma ErrorsAreTrue(s: State, now: nat, call: Call)
    requires AllSane(s) && Outcome(s, now, call).Err?
    ensures Explains(s, now, call, Outcome(s, now, call).error)
  {
    if call.CallApprove? {
      ApproveErrors(s, now, call.wallet, call.contexts);
      hide Approve, Objects;
    }
  }
}
