// The attestation registry: claim templates linked to predecessors, and claims made under
// them that may expire or be revoked.
module Attest {
  import opened Results
  import opened Ledger
  import opened Histories

  datatype Error =
    | SchemaNotFound | SchemaAlreadyExists | AttestationNotFound | NotRevocable | NotAttester
    | AlreadyRevoked | ExpiryInPast | AttesterNotAuthorized | CycleDetected | NonceExhausted

  datatype Schema = Schema(
    uid: Uid, authority: Address, definition: string,
    revocable: bool, restricted: bool, predecessor: Option<Uid>)

  datatype Attestation = Attestation(
    uid: Uid, schema: Uid, attester: Address, subject: Address, dataHash: Uid,
    createdAt: nat, expiresAt: Option<nat>, revokedAt: Option<nat>)

  datatype Registry = Registry(
    schemas: map<Uid, Schema>, attestations: map<Uid, Attestation>, nonce: nat)

  const EMPTY := Registry(map[], map[], 0)
  const CYCLE_DEPTH: nat := 64

  // ---- the calls, as functions of the registry ----

  // The walk of `check_cycle`, cut off after `depth` links.
  function CheckCycle(schemas: map<Uid, Schema>, current: Uid, target: Uid, depth: nat): Guard<Error>
    decreases depth
  {
    if depth == 0 then Pass
    else if current == target then Stop(CycleDetected)
    else if current !in schemas then Stop(SchemaNotFound)
    else
      match schemas[current].predecessor
      case Some(next) => CheckCycle(schemas, next, target, depth - 1)
      case None => Pass
  }

  function CheckPredecessor(r: Registry, authority: Address, uid: Uid, predecessor: Option<Uid>, depth: nat): Guard<Error> {
    match predecessor
    case None => Pass
    case Some(p) =>
      if p !in r.schemas then Stop(SchemaNotFound)
      else if r.schemas[p].authority != authority then Stop(AttesterNotAuthorized)
      else CheckCycle(r.schemas, p, uid, depth)
  }

  function RegisterSchema(r: Registry, authority: Address, definition: string, revocable: bool,
                          restricted: bool, predecessor: Option<Uid>, depth: nat): Result<(Registry, Uid), Error> {
    var uid := SchemaUid(authority, definition);
    :- CheckPredecessor(r, authority, uid, predecessor, depth);
    :- Need(uid !in r.schemas, SchemaAlreadyExists);
    Ok((r.(schemas := r.schemas[uid := Schema(uid, authority, definition, revocable, restricted, predecessor)]), uid))
  }

  function MakeClaim(r: Registry, now: nat, attester: Address, schema: Uid, subject: Address,
                     dataHash: Uid, expiresAt: Option<nat>): Result<(Registry, Uid), Error> {
    if schema !in r.schemas then Err(SchemaNotFound)
    else
      :- Need(r.schemas[schema].restricted ==> r.schemas[schema].authority == attester, AttesterNotAuthorized);
      :- Need(expiresAt.Some? ==> now < expiresAt.value, ExpiryInPast);
      :- Need(r.nonce < U64_MAX, NonceExhausted);
      var uid := ClaimUid(schema, attester, subject, r.nonce);
      var claim := Attestation(uid, schema, attester, subject, dataHash, now, expiresAt, None);
      Ok((r.(attestations := r.attestations[uid := claim], nonce := r.nonce + 1), uid))
  }

  function Revoke(r: Registry, now: nat, attester: Address, uid: Uid): Result<Registry, Error> {
    if uid !in r.attestations then Err(AttestationNotFound)
    else
      var claim := r.attestations[uid];
      :- Need(claim.attester == attester, NotAttester);
      :- Need(claim.revokedAt.None?, AlreadyRevoked);
      :- Need(claim.schema in r.schemas, SchemaNotFound);
      :- Need(r.schemas[claim.schema].revocable, NotRevocable);
      Ok(r.(attestations := r.attestations[uid := claim.(revokedAt := Some(now))]))
  }

  predicate Live(claim: Attestation, now: nat) {
    claim.revokedAt.None? && (claim.expiresAt.Some? ==> now < claim.expiresAt.value)
  }

  predicate Verify(r: Registry, now: nat, uid: Uid, subject: Address, schema: Uid, attester: Address) {
    && uid in r.attestations
    && var claim := r.attestations[uid];
    && Live(claim, now)
    && claim.subject == subject
    && claim.schema == schema
    && claim.attester == attester
  }

  // ---- the contract ----

  class AttestRegistry {
    var schemas: map<Uid, Schema>
    var attestations: map<Uid, Attestation>
    var nonce: nat

    ghost function View(): Registry
      reads this
    {
      Registry(schemas, attestations, nonce)
    }

    constructor ()
      ensures View() == EMPTY
    {
      schemas, attestations, nonce := map[], map[], 0;
    }

    method WalkPredecessors(start: Uid, target: Uid) returns (verdict: Guard<Error>)
      ensures verdict == CheckCycle(schemas, start, target, CYCLE_DEPTH)
    {
      var current := start;
      for i := 0 to CYCLE_DEPTH
        invariant CheckCycle(schemas, start, target, CYCLE_DEPTH) ==
                  CheckCycle(schemas, current, target, CYCLE_DEPTH - i)
      {
        if current == target {
          return Stop(CycleDetected);
        }
        if current !in schemas {
          return Stop(SchemaNotFound);
        }
        match schemas[current].predecessor {
          case Some(next) => current := next;
          case None => return Pass;
        }
      }
      verdict := Pass;
    }

    method Register(authority: Address, definition: string, revocable: bool, restricted: bool,
                    predecessor: Option<Uid>) returns (r: Result<Uid, Error>)
      modifies this
      ensures match RegisterSchema(old(View()), authority, definition, revocable, restricted, predecessor, CYCLE_DEPTH)
              case Ok((next, uid)) => r == Ok(uid) && View() == next
              case Err(e) => r == Err(e) && View() == old(View())
    {
      var uid := SchemaUid(authority, definition);
      if predecessor.Some? {
        var p := predecessor.value;
        if p !in schemas {
          return Err(SchemaNotFound);
        }
        if schemas[p].authority != authority {
          return Err(AttesterNotAuthorized);
        }
        var verdict := WalkPredecessors(p, uid);
        if verdict.Stop? {
          return Err(verdict.error);
        }
      }
      if uid in schemas {
        return Err(SchemaAlreadyExists);
      }
      schemas := schemas[uid := Schema(uid, authority, definition, revocable, restricted, predecessor)];
      r := Ok(uid);
    }

    method Claim(now: nat, attester: Address, schema: Uid, subject: Address, dataHash: Uid,
                 expiresAt: Option<nat>) returns (r: Result<Uid, Error>)
      modifies this
      ensures match MakeClaim(old(View()), now, attester, schema, subject, dataHash, expiresAt)
              case Ok((next, uid)) => r == Ok(uid) && View() == next
              case Err(e) => r == Err(e) && View() == old(View())
    {
      if schema !in schemas {
        return Err(SchemaNotFound);
      }
      if schemas[schema].restricted && schemas[schema].authority != attester {
        return Err(AttesterNotAuthorized);
      }
      if expiresAt.Some? && expiresAt.value <= now {
        return Err(ExpiryInPast);
      }
      if nonce >= U64_MAX {
        return Err(NonceExhausted);
      }
      var uid := ClaimUid(schema, attester, subject, nonce);
      nonce := nonce + 1;
      attestations := attestations[uid := Attestation(uid, schema, attester, subject, dataHash, now, expiresAt, None)];
      r := Ok(uid);
    }

    method Withdraw(now: nat, attester: Address, uid: Uid) returns (r: Result<(), Error>)
      modifies this
      ensures match Revoke(old(View()), now, attester, uid)
              case Ok(next) => r.Ok? && View() == next
              case Err(e) => r == Err(e) && View() == old(View())
    {
      if uid !in attestations {
        return Err(AttestationNotFound);
      }
      var claim := attestations[uid];
      if claim.attester != attester {
        return Err(NotAttester);
      }
      if claim.revokedAt.Some? {
        return Err(AlreadyRevoked);
      }
      if claim.schema !in schemas {
        return Err(SchemaNotFound);
      }
      if !schemas[claim.schema].revocable {
        return Err(NotRevocable);
      }
      attestations := attestations[uid := claim.(revokedAt := Some(now))];
      r := Ok(());
    }
  }

  // ---- runs ----

  datatype Call =
    | CallRegister(authority: Address, definition: string, revocable: bool, restricted: bool, predecessor: Option<Uid>)
    | CallClaim(attester: Address, schema: Uid, subject: Address, dataHash: Uid, expiresAt: Option<nat>)
    | CallRevoke(attester: Address, uid: Uid)

  // One call at ledger time `now`; a failing call leaves the registry as it was.
  function Next(r: Registry, now: nat, call: Call): Registry {
    match call
    case CallRegister(a, d, rev, res, p) =>
      (match RegisterSchema(r, a, d, rev, res, p, CYCLE_DEPTH) case Ok(o) => o.0 case Err(_) => r)
    case CallClaim(a, s, b, h, e) =>
      (match MakeClaim(r, now, a, s, b, h, e) case Ok(o) => o.0 case Err(_) => r)
    case CallRevoke(a, u) =>
      (match Revoke(r, now, a, u) case Ok(next) => next case Err(_) => r)
  }

  function Run(r: Registry, calls: seq<(nat, Call)>): Registry
    decreases |calls|
  {
    if calls == [] then r else Run(Next(r, calls[0].0, calls[0].1), calls[1..])
  }

  // ---- invariants ----

  // Every predecessor is registered, older in `age`, and under the same authority.
  ghost predicate Forest(schemas: map<Uid, Schema>, age: map<Uid, nat>) {
    && age.Keys == schemas.Keys
    && (forall u :: u in schemas ==> schemas[u].uid == u == SchemaUid(schemas[u].authority, schemas[u].definition))
    && (forall u :: u in schemas && schemas[u].predecessor.Some? ==>
          var p := schemas[u].predecessor.value;
          p in schemas && age[p] < age[u] && schemas[p].authority == schemas[u].authority)
  }

  ghost predicate ClaimsSound(r: Registry) {
    forall u :: u in r.attestations ==>
      var c := r.attestations[u];
      && u.ClaimUid?
      && u == c.uid == ClaimUid(c.schema, c.attester, c.subject, u.nonce)
      && u.nonce < r.nonce
      && c.schema in r.schemas
      && (r.schemas[c.schema].restricted ==> c.attester == r.schemas[c.schema].authority)
      && (c.revokedAt.Some? ==> r.schemas[c.schema].revocable)
      && (c.expiresAt.Some? ==> c.createdAt < c.expiresAt.value)
  }

  ghost predicate Sound(r: Registry) {
    ClaimsSound(r) && exists age :: Forest(r.schemas, age)
  }

  lemma NextKeepsForest(r: Registry, now: nat, call: Call, age: map<Uid, nat>)
    requires Forest(r.schemas, age)
    ensures exists age' :: Forest(Next(r, now, call).schemas, age')
  {
    var next := Next(r, now, call);
    if call.CallRegister? && next != r {
      var uid := SchemaUid(call.authority, call.definition);
      var level: nat := if call.predecessor.Some? then age[call.predecessor.value] + 1 else 0;
      assert Forest(next.schemas, age[uid := level]);
    } else {
      assert Forest(next.schemas, age);
    }
  }

  lemma RegisterKeepsClaimsSound(r: Registry, authority: Address, definition: string, revocable: bool,
                                 restricted: bool, predecessor: Option<Uid>)
    requires ClaimsSound(r)
    requires RegisterSchema(r, authority, definition, revocable, restricted, predecessor, CYCLE_DEPTH).Ok?
    ensures ClaimsSound(RegisterSchema(r, authority, definition, revocable, restricted, predecessor, CYCLE_DEPTH).value.0)
  {
    hide CheckPredecessor;
  }

  lemma ClaimKeepsClaimsSound(r: Registry, now: nat, attester: Address, schema: Uid, subject: Address,
                              dataHash: Uid, expiresAt: Option<nat>)
    requires ClaimsSound(r)
    requires MakeClaim(r, now, attester, schema, subject, dataHash, expiresAt).Ok?
    ensures ClaimsSound(MakeClaim(r, now, attester, schema, subject, dataHash, expiresAt).value.0)
  {
  }

  lemma RevokeKeepsClaimsSound(r: Registry, now: nat, attester: Address, uid: Uid)
    requires ClaimsSound(r)
    requires Revoke(r, now, attester, uid).Ok?
    ensures ClaimsSound(Revoke(r, now, attester, uid).value)
  {
  }

  lemma NextKeepsClaimsSound(r: Registry, now: nat, call: Call)
    requires ClaimsSound(r)
    ensures ClaimsSound(Next(r, now, call))
  {
    hide ClaimsSound, RegisterSchema, MakeClaim, Revoke;
    match call
    case CallRegister(a, d, rev, res, p) =>
      if RegisterSchema(r, a, d, rev, res, p, CYCLE_DEPTH).Ok? {
        RegisterKeepsClaimsSound(r, a, d, rev, res, p);
      }
    case CallClaim(a, s, b, h, e) =>
      if MakeClaim(r, now, a, s, b, h, e).Ok? {
        ClaimKeepsClaimsSound(r, now, a, s, b, h, e);
      }
    case CallRevoke(a, u) =>
      if Revoke(r, now, a, u).Ok? {
        RevokeKeepsClaimsSound(r, now, a, u);
      }
  }

  lemma NextKeepsSound(r: Registry, now: nat, call: Call)
    requires Sound(r)
    ensures Sound(Next(r, now, call))
  {
    var age :| Forest(r.schemas, age);
    NextKeepsForest(r, now, call, age);
    NextKeepsClaimsSound(r, now, call);
  }

  lemma {:induction false} RunKeepsSound(r: Registry, calls: seq<(nat, Call)>)
    requires Sound(r)
    ensures Sound(Run(r, calls))
    decreases |calls|
  {
    if calls != [] {
      NextKeepsSound(r, calls[0].0, calls[0].1);
      RunKeepsSound(Next(r, calls[0].0, calls[0].1), calls[1..]);
    }
  }

  // ---- the predecessor forest ----

  // The schema `steps` links up the chain from `uid`.
  function Ancestor(schemas: map<Uid, Schema>, uid: Uid, steps: nat): Option<Uid>
    decreases steps
  {
    if uid !in schemas then None
    else if steps == 0 then Some(uid)
    else
      match schemas[uid].predecessor
      case Some(p) => Ancestor(schemas, p, steps - 1)
      case None => None
  }

  lemma {:induction false} AncestorsAreOlder(schemas: map<Uid, Schema>, age: map<Uid, nat>, uid: Uid, steps: nat)
    requires Forest(schemas, age)
    requires uid in schemas
    ensures var a := Ancestor(schemas, uid, steps);
            a.Some? ==>
              && a.value in schemas
              && age[a.value] + steps <= age[uid]
              && schemas[a.value].authority == schemas[uid].authority
    decreases steps
  {
    if steps > 0 && schemas[uid].predecessor.Some? {
      AncestorsAreOlder(schemas, age, schemas[uid].predecessor.value, steps - 1);
    }
  }

  // Every chain in every reachable registry ends, passes only through registered schemas of
  // one authority, and never returns to a schema it has left.
  lemma {:induction false} ChainsEnd(calls: seq<(nat, Call)>, uid: Uid)
    requires uid in Run(EMPTY, calls).schemas
    ensures var schemas := Run(EMPTY, calls).schemas;
            && (exists n: nat :: Ancestor(schemas, uid, n) == None)
            && (forall n: nat :: Ancestor(schemas, uid, n).Some? ==>
                  && Ancestor(schemas, uid, n).value in schemas
                  && schemas[Ancestor(schemas, uid, n).value].authority == schemas[uid].authority
                  && (0 < n ==> Ancestor(schemas, uid, n).value != uid))
  {
    var none: map<Uid, nat> := map[];
    assert Forest(EMPTY.schemas, none);
    RunKeepsSound(EMPTY, calls);
    var schemas := Run(EMPTY, calls).schemas;
    var age :| Forest(schemas, age);
    forall n: nat
      ensures var a := Ancestor(schemas, uid, n);
              a.Some? ==> a.value in schemas && age[a.value] + n <= age[uid] &&
                          schemas[a.value].authority == schemas[uid].authority
    {
      AncestorsAreOlder(schemas, age, uid, n);
    }
    assert Ancestor(schemas, uid, age[uid] + 1) == None;
  }

  lemma {:induction false} WalkIsClean(schemas: map<Uid, Schema>, age: map<Uid, nat>, current: Uid, target: Uid, depth: nat)
    requires Forest(schemas, age)
    requires current in schemas && target !in schemas
    ensures CheckCycle(schemas, current, target, depth).Pass?
    decreases depth
  {
    if depth > 0 && schemas[current].predecessor.Some? {
      WalkIsClean(schemas, age, schemas[current].predecessor.value, target, depth - 1);
    }
  }

  // Which registrations succeed, whatever the cut-off: the walk never decides the outcome.
  lemma CutOffNeverDecides(r: Registry, authority: Address, definition: string, revocable: bool,
                           restricted: bool, predecessor: Option<Uid>, depth: nat)
    requires Sound(r)
    ensures RegisterSchema(r, authority, definition, revocable, restricted, predecessor, depth).Ok? <==>
            && SchemaUid(authority, definition) !in r.schemas
            && (predecessor.Some? ==>
                  predecessor.value in r.schemas && r.schemas[predecessor.value].authority == authority)
    ensures var next := RegisterSchema(r, authority, definition, revocable, restricted, predecessor, depth);
            next.Ok? ==>
              var uid := SchemaUid(authority, definition);
              next.value == (r.(schemas := r.schemas[uid := Schema(uid, authority, definition, revocable, restricted, predecessor)]), uid)
  {
    var age :| Forest(r.schemas, age);
    if SchemaUid(authority, definition) !in r.schemas && predecessor.Some? && predecessor.value in r.schemas {
      WalkIsClean(r.schemas, age, predecessor.value, SchemaUid(authority, definition), depth);
    }
  }

  // ---- claims only ever die ----

  // `b` is `a`, possibly revoked since.
  ghost predicate SameButRevoked(a: Attestation, b: Attestation) {
    && b == a.(revokedAt := b.revokedAt)
    && (a.revokedAt.Some? ==> b.revokedAt == a.revokedAt)
  }

  // The call that revoked a claim: its attester's own, at the time it then records.
  ghost predicate RevokedBy(claim: Attestation, revoked: Attestation, now: nat, call: Call) {
    call == CallRevoke(claim.attester, claim.uid) && revoked.revokedAt == Some(now)
  }

  lemma NextKeepsClaim(r: Registry, now: nat, call: Call, uid: Uid)
    requires ClaimsSound(r)
    requires uid in r.attestations
    ensures uid in Next(r, now, call).attestations
    ensures SameButRevoked(r.attestations[uid], Next(r, now, call).attestations[uid])
    ensures Next(r, now, call).attestations[uid].revokedAt.Some? && r.attestations[uid].revokedAt.None? ==>
              RevokedBy(r.attestations[uid], Next(r, now, call).attestations[uid], now, call)
  {
    if call.CallClaim? {
      assert uid.nonce < r.nonce;
    }
  }

  // A claim never changes but by its one revocation, which is a call of the run.
  lemma {:induction false} RunKeepsClaim(r: Registry, calls: seq<(nat, Call)>, uid: Uid)
    requires ClaimsSound(r)
    requires uid in r.attestations
    ensures uid in Run(r, calls).attestations
    ensures SameButRevoked(r.attestations[uid], Run(r, calls).attestations[uid])
    ensures var before, after := r.attestations[uid], Run(r, calls).attestations[uid];
            before.revokedAt.None? && after.revokedAt.Some? ==>
              exists i :: 0 <= i < |calls| && RevokedBy(before, after, calls[i].0, calls[i].1)
    decreases |calls|
  {
    if calls != [] {
      var (now, call) := calls[0];
      var mid, rest := Next(r, now, call), calls[1..];
      NextKeepsClaim(r, now, call, uid);
      NextKeepsClaimsSound(r, now, call);
      assert Run(r, calls) == Run(mid, rest);
      RunKeepsClaim(mid, rest, uid);
      var before, middle, after := r.attestations[uid], mid.attestations[uid], Run(r, calls).attestations[uid];
      hide Next, Run, ClaimsSound;
      if before.revokedAt.None? && after.revokedAt.Some? {
        if middle.revokedAt.Some? {
          assert RevokedBy(before, after, calls[0].0, calls[0].1);
        } else {
          var i :| 0 <= i < |rest| && RevokedBy(middle, after, rest[i].0, rest[i].1);
          assert RevokedBy(before, after, calls[i + 1].0, calls[i + 1].1);
        }
      }
    }
  }

  // Once revocation or expiry has made a claim fail, no call and no later time revives it.
  lemma {:induction false} DeadStaysDead(r: Registry, from: nat, calls: seq<(nat, Call)>, uid: Uid, later: nat,
                                          subject: Address, schema: Uid, attester: Address)
    requires ClaimsSound(r)
    requires uid in r.attestations && !Live(r.attestations[uid], from)
    requires from <= later
    ensures !Verify(Run(r, calls), later, uid, subject, schema, attester)
  {
    RunKeepsClaim(r, calls, uid);
  }

  // ---- what a check of a claim compares ----

  // A claim passes exactly when it is registered, says what is asked about whom it is asked, by whom,
  // and has been neither revoked nor outlived.
  lemma VerifiesExactly(r: Registry, now: nat, uid: Uid, subject: Address, schema: Uid, attester: Address)
    ensures Verify(r, now, uid, subject, schema, attester) <==>
            && uid in r.attestations
            && r.attestations[uid].subject == subject
            && r.attestations[uid].schema == schema
            && r.attestations[uid].attester == attester
            && r.attestations[uid].revokedAt == None
            && (r.attestations[uid].expiresAt == None || now < r.attestations[uid].expiresAt.value)
  {
  }

  // ---- what one call does ----

  // A registration of this schema that goes through: it is new, and under its predecessor's authority.
  predicate Registers(r: Registry, call: Call, s: Schema) {
    && call == CallRegister(s.authority, s.definition, s.revocable, s.restricted, s.predecessor)
    && s.uid == SchemaUid(s.authority, s.definition)
    && s.uid !in r.schemas
    && (s.predecessor.Some? ==> s.predecessor.value in r.schemas && r.schemas[s.predecessor.value].authority == s.authority)
  }

  // A claim that is accepted, and the record made of it: its own schema allows its attester, it has
  // not expired, and its identifier is fresh.
  predicate Makes(r: Registry, now: nat, call: Call, claim: Attestation) {
    && call == CallClaim(claim.attester, claim.schema, claim.subject, claim.dataHash, claim.expiresAt)
    && claim.createdAt == now && claim.revokedAt == None
    && claim.uid == ClaimUid(claim.schema, claim.attester, claim.subject, r.nonce)
    && claim.schema in r.schemas
    && (r.schemas[claim.schema].restricted ==> r.schemas[claim.schema].authority == claim.attester)
    && (claim.expiresAt == None || now < claim.expiresAt.value)
    && r.nonce < U64_MAX
  }

  // A revocation by the claim's own attester, under a schema that allows it.
  predicate Revokes(r: Registry, call: Call, claim: Attestation) {
    && call == CallRevoke(claim.attester, claim.uid)
    && claim.schema in r.schemas && r.schemas[claim.schema].revocable
  }

  // Which claims are accepted, and what is then registered.
  lemma ClaimsExactly(r: Registry, now: nat, attester: Address, schema: Uid, subject: Address,
                      dataHash: Uid, expiresAt: Option<nat>)
    ensures var next := MakeClaim(r, now, attester, schema, subject, dataHash, expiresAt);
            var claim := Attestation(ClaimUid(schema, attester, subject, r.nonce), schema, attester, subject, dataHash, now, expiresAt, None);
            && (next.Ok? <==> Makes(r, now, CallClaim(attester, schema, subject, dataHash, expiresAt), claim))
            && (next.Ok? ==>
                  && next.value.1 == claim.uid && next.value.0.nonce == r.nonce + 1 && next.value.0.schemas == r.schemas
                  && next.value.0.attestations == r.attestations[claim.uid := claim])
  {
  }

  // A claim can be revoked by its attester alone, once, and only under a schema that allows it.
  lemma RevokesExactly(r: Registry, now: nat, attester: Address, uid: Uid)
    requires ClaimsSound(r)
    ensures var next := Revoke(r, now, attester, uid);
            && (next.Ok? <==>
                  && uid in r.attestations && uid.attester == attester && r.attestations[uid].revokedAt == None
                  && r.schemas[uid.schema].revocable)
            && (next.Ok? ==>
                  && next.value.schemas == r.schemas && next.value.nonce == r.nonce
                  && next.value.attestations == r.attestations[uid := r.attestations[uid].(revokedAt := Some(now))])
  {
  }

  lemma RegisterKeepsClaims(r: Registry, authority: Address, definition: string, revocable: bool,
                            restricted: bool, predecessor: Option<Uid>)
    ensures var next := RegisterSchema(r, authority, definition, revocable, restricted, predecessor, CYCLE_DEPTH);
            next.Ok? ==> next.value.0.attestations == r.attestations && next.value.0.nonce == r.nonce
  {
    hide CheckPredecessor;
  }

  // ---- claims and schemas by the history of calls ----

  type Timed = (nat, Call)

  // The registry a run leaves.
  function Reached(): seq<Timed> -> Registry {
    calls => Run(EMPTY, calls)
  }

  lemma {:induction false} RunLast(r: Registry, calls: seq<Timed>)
    requires calls != []
    ensures var n := |calls| - 1; Run(r, calls) == Next(Run(r, calls[..n]), calls[n].0, calls[n].1)
    decreases |calls|
  {
    var n := |calls| - 1;
    hide Next;
    if n > 0 {
      var first := Next(r, calls[0].0, calls[0].1);
      RunLast(first, calls[1..]);
      assert calls[1..][..n - 1] == calls[..n][1..];
    }
  }

  lemma {:induction false} ReachableIsSound(calls: seq<Timed>)
    ensures Sound(Run(EMPTY, calls))
  {
    var none: map<Uid, nat> := map[];
    assert Forest(EMPTY.schemas, none);
    RunKeepsSound(EMPTY, calls);
  }

  predicate HoldsSchema(r: Registry, s: Schema) {
    s.uid in r.schemas && r.schemas[s.uid] == s
  }

  predicate HoldsClaim(r: Registry, claim: Attestation) {
    claim.uid in r.attestations && r.attestations[claim.uid] == claim
  }

  lemma NextOnSchemas(r: Registry, now: nat, call: Call, s: Schema)
    requires Sound(r)
    ensures HoldsSchema(Next(r, now, call), s) <==> HoldsSchema(r, s) || Registers(r, call, s)
  {
    hide Sound, RegisterSchema, MakeClaim, Revoke;
    match call
    case CallRegister(a, d, rev, res, p) =>
      CutOffNeverDecides(r, a, d, rev, res, p, CYCLE_DEPTH);
    case CallClaim(a, c, b, h, e) =>
      ClaimsExactly(r, now, a, c, b, h, e);
    case CallRevoke(a, u) =>
      RevokeKeepsSchemas(r, now, a, u);
  }

  lemma RevokeKeepsSchemas(r: Registry, now: nat, attester: Address, uid: Uid)
    ensures Revoke(r, now, attester, uid).Ok? ==> Revoke(r, now, attester, uid).value.schemas == r.schemas
  {
  }

  lemma NextOnClaims(r: Registry, now: nat, call: Call, claim: Attestation)
    requires ClaimsSound(r) && claim.revokedAt == None
    ensures HoldsClaim(Next(r, now, call), claim) <==>
            Makes(r, now, call, claim) || (HoldsClaim(r, claim) && !Revokes(r, call, claim))
  {
    hide RegisterSchema, MakeClaim, Revoke;
    match call
    case CallRegister(a, d, rev, res, p) =>
      RegisterKeepsClaims(r, a, d, rev, res, p);
    case CallClaim(a, s, b, h, e) =>
      ClaimsExactly(r, now, a, s, b, h, e);
    case CallRevoke(a, u) =>
      RevokesExactly(r, now, a, u);
  }

  // The schemas registered are exactly those a call of the run registered, as that call gave them; none
  // is ever changed.
  lemma {:induction false} SchemasByHistory(calls: seq<Timed>, s: Schema)
    ensures HoldsSchema(Run(EMPTY, calls), s) <==>
            Since(Reached(), calls, (r: Registry, c: Timed) => Registers(r, c.1, s), (r: Registry, c: Timed) => false)
  {
    hide Next, Run, Sound, Registers, Since;
    var on, off := (r: Registry, c: Timed) => Registers(r, c.1, s), (r: Registry, c: Timed) => false;
    var holds := (r: Registry) => HoldsSchema(r, s);
    forall n | 0 < n <= |calls|
      ensures Decides(Reached(), calls[..n], on, off, holds)
    {
      var prefix := calls[..n];
      RunLast(EMPTY, prefix);
      ReachableIsSound(prefix[..n - 1]);
      NextOnSchemas(Run(EMPTY, prefix[..n - 1]), prefix[n - 1].0, prefix[n - 1].1, s);
    }
    NothingAtFirst();
    HoldsSince(Reached(), calls, on, off, holds);
  }

  lemma NothingAtFirst()
    ensures Reached()([]) == EMPTY
  {
  }

  // A claim stands because a call made it and none since has revoked it.
  ghost predicate Stands(calls: seq<Timed>, claim: Attestation) {
    Since(Reached(), calls, (r: Registry, c: Timed) => Makes(r, c.0, c.1, claim),
          (r: Registry, c: Timed) => Revokes(r, c.1, claim))
  }

  // The unrevoked claims registered are exactly those.
  lemma {:induction false} ClaimsByHistory(calls: seq<Timed>, claim: Attestation)
    requires claim.revokedAt == None
    ensures HoldsClaim(Run(EMPTY, calls), claim) <==> Stands(calls, claim)
  {
    hide Next, Run, Sound, ClaimsSound, Makes, Revokes, Since;
    var on := (r: Registry, c: Timed) => Makes(r, c.0, c.1, claim);
    var off := (r: Registry, c: Timed) => Revokes(r, c.1, claim);
    var holds := (r: Registry) => HoldsClaim(r, claim);
    forall n | 0 < n <= |calls|
      ensures Decides(Reached(), calls[..n], on, off, holds)
    {
      var prefix := calls[..n];
      RunLast(EMPTY, prefix);
      ReachableIsSound(prefix[..n - 1]);
      SoundGivesClaims(Run(EMPTY, prefix[..n - 1]));
      NextOnClaims(Run(EMPTY, prefix[..n - 1]), prefix[n - 1].0, prefix[n - 1].1, claim);
    }
    NothingAtFirst();
    HoldsSince(Reached(), calls, on, off, holds);
  }

  lemma SoundGivesClaims(r: Registry)
    requires Sound(r)
    ensures ClaimsSound(r)
  {
  }

  // What `verify` answers after any run: its attester made a claim with that identifier about that
  // subject under that schema, has not revoked it since, and it has not expired.
  lemma {:induction false} VerifiesByHistory(calls: seq<Timed>, now: nat, uid: Uid,
                                              subject: Address, schema: Uid, attester: Address)
    ensures Verify(Run(EMPTY, calls), now, uid, subject, schema, attester) <==>
            exists claim: Attestation ::
              && claim.uid == uid && claim.subject == subject && claim.schema == schema && claim.attester == attester
              && claim.revokedAt == None
              && (claim.expiresAt == None || now < claim.expiresAt.value)
              && Stands(calls, claim)
  {
    hide Run, Stands, Sound, ClaimsSound;
    var r := Run(EMPTY, calls);
    if Verify(r, now, uid, subject, schema, attester) {
      ReachableIsSound(calls);
      KnownByUid(r, uid);
      ClaimsByHistory(calls, r.attestations[uid]);
    }
    if claim: Attestation :|
      && claim.uid == uid && claim.subject == subject && claim.schema == schema && claim.attester == attester
      && claim.revokedAt == None
      && (claim.expiresAt == None || now < claim.expiresAt.value)
      && Stands(calls, claim) {
      ClaimsByHistory(calls, claim);
    }
  }

  lemma KnownByUid(r: Registry, uid: Uid)
    requires Sound(r) && uid in r.attestations
    ensures r.attestations[uid].uid == uid
  {
  }

  // ---- errors ----

  // What each error claims about the call it refuses.
  predicate Explains(r: Registry, now: nat, call: Call, e: Error) {
    match e
    case SchemaNotFound =>
      || (call.CallRegister? && call.predecessor.Some? && call.predecessor.value !in r.schemas)
      || (call.CallClaim? && call.schema !in r.schemas)
    case SchemaAlreadyExists => call.CallRegister? && SchemaUid(call.authority, call.definition) in r.schemas
    case CycleDetected => call.CallRegister? && SchemaUid(call.authority, call.definition) in r.schemas
    case AttesterNotAuthorized =>
      || (call.CallRegister? && call.predecessor.Some? && call.predecessor.value in r.schemas &&
          r.schemas[call.predecessor.value].authority != call.authority)
      || (call.CallClaim? && call.schema in r.schemas && r.schemas[call.schema].restricted &&
          r.schemas[call.schema].authority != call.attester)
    case ExpiryInPast => call.CallClaim? && call.expiresAt.Some? && call.expiresAt.value <= now
    case NonceExhausted => call.CallClaim? && U64_MAX <= r.nonce
    case AttestationNotFound => call.CallRevoke? && call.uid !in r.attestations
    case NotAttester => call.CallRevoke? && call.uid in r.attestations && r.attestations[call.uid].attester != call.attester
    case AlreadyRevoked => call.CallRevoke? && call.uid in r.attestations && r.attestations[call.uid].revokedAt.Some?
    case NotRevocable =>
      call.CallRevoke? && call.uid in r.attestations && call.uid.ClaimUid? &&
      call.uid.schema in r.schemas && !r.schemas[call.uid.schema].revocable
  }

  lemma PredecessorErrors(r: Registry, authority: Address, uid: Uid, p: Uid)
    requires Sound(r)
    ensures match CheckPredecessor(r, authority, uid, Some(p), CYCLE_DEPTH)
            case Pass => true
            case Stop(e) =>
              || (e == SchemaNotFound && p !in r.schemas)
              || (e == AttesterNotAuthorized && p in r.schemas && r.schemas[p].authority != authority)
              || (e == CycleDetected && uid in r.schemas)
  {
    if p in r.schemas {
      var age :| Forest(r.schemas, age);
      if uid !in r.schemas {
        WalkIsClean(r.schemas, age, p, uid, CYCLE_DEPTH);
      } else {
        WalkFindsOnlyCycles(r.schemas, age, p, uid, CYCLE_DEPTH);
      }
    }
    hide CheckCycle, Forest, Sound;
  }

  lemma RegisterErrors(r: Registry, now: nat, authority: Address, definition: string, revocable: bool,
                       restricted: bool, predecessor: Option<Uid>)
    requires Sound(r)
    ensures match RegisterSchema(r, authority, definition, revocable, restricted, predecessor, CYCLE_DEPTH)
            case Ok(_) => true
            case Err(e) => Explains(r, now, CallRegister(authority, definition, revocable, restricted, predecessor), e)
  {
    hide CheckPredecessor, Sound;
    if predecessor.Some? {
      PredecessorErrors(r, authority, SchemaUid(authority, definition), predecessor.value);
    } else {
      NoPredecessor(r, authority, SchemaUid(authority, definition));
    }
  }

  lemma NoPredecessor(r: Registry, authority: Address, uid: Uid)
    ensures CheckPredecessor(r, authority, uid, None, CYCLE_DEPTH).Pass?
  {
  }

  lemma RevokeErrors(r: Registry, now: nat, attester: Address, uid: Uid)
    requires ClaimsSound(r)
    ensures match Revoke(r, now, attester, uid)
            case Ok(_) => true
            case Err(e) => Explains(r, now, CallRevoke(attester, uid), e)
  {
  }

  // In every sound registry no error is ever false; a cycle is only ever found where the schema is
  // registered already.
  lemma ErrorsAreTrue(r: Registry, now: nat, call: Call)
    requires Sound(r)
    ensures match call
            case CallRegister(a, d, rev, res, p) =>
              (match RegisterSchema(r, a, d, rev, res, p, CYCLE_DEPTH) case Ok(_) => true case Err(e) => Explains(r, now, call, e))
            case CallClaim(a, s, b, h, x) =>
              (match MakeClaim(r, now, a, s, b, h, x) case Ok(_) => true case Err(e) => Explains(r, now, call, e))
            case CallRevoke(a, u) =>
              (match Revoke(r, now, a, u) case Ok(_) => true case Err(e) => Explains(r, now, call, e))
  {
    hide RegisterSchema, Revoke, Sound, ClaimsSound;
    SoundGivesClaims(r);
    match call
    case CallRegister(a, d, rev, res, p) =>
      hide Explains;
      RegisterErrors(r, now, a, d, rev, res, p);
    case CallClaim(_, _, _, _, _) =>
    case CallRevoke(a, u) =>
      hide Explains;
      RevokeErrors(r, now, a, u);
  }

  lemma {:induction false} WalkFindsOnlyCycles(schemas: map<Uid, Schema>, age: map<Uid, nat>, current: Uid, target: Uid, depth: nat)
    requires Forest(schemas, age) && current in schemas
    ensures CheckCycle(schemas, current, target, depth) != Stop(SchemaNotFound)
    ensures CheckCycle(schemas, current, target, depth).Stop? ==>
              CheckCycle(schemas, current, target, depth).error == CycleDetected
    decreases depth
  {
    if depth > 0 && current != target && schemas[current].predecessor.Some? {
      WalkFindsOnlyCycles(schemas, age, schemas[current].predecessor.value, target, depth - 1);
    }
  }
}
