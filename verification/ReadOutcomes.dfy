// How a read ends, over every interleaving: by the RPC's answer to it, or by the reads it awaited.
module ReadOutcomes {
  import opened ProgrammeReads
  import opened ReadSchedule

  // ---- what one event does to one task ----

  // Nothing, or it is given the slot another has left.
  predicate Untouched(before: Task, after: Task) {
    after == before || (before.status.Queued? && after == before.(status := Admitted))
  }

  // The reads asked for meanwhile have not begun.
  predicate Fresh(t: Task) {
    t.status.Queued? || t.status.Admitted?
  }

  ghost predicate OnlyTouches(r: Reader, next: Reader, id: nat) {
    && |r.tasks| <= |next.tasks|
    && (forall i :: 0 <= i < |r.tasks| && i != id ==> Untouched(r.tasks[i], next.tasks[i]))
    && (forall i :: |r.tasks| <= i < |next.tasks| ==> Fresh(next.tasks[i]))
    && (id < |r.tasks| ==>
          next.tasks[id].key == r.tasks[id].key && next.tasks[id].script == r.tasks[id].script)
  }

  lemma {:induction false} ReadsAreFresh(r: Reader, keys: seq<Key>)
    ensures var next := SessionReads(r, keys).0;
            && |r.tasks| <= |next.tasks|
            && (forall i :: 0 <= i < |r.tasks| ==> next.tasks[i] == r.tasks[i])
            && (forall i :: |r.tasks| <= i < |next.tasks| ==> Fresh(next.tasks[i]))
    decreases |keys|
  {
    if keys != [] {
      ReadsAreFresh(SessionRead(r, keys[0], LEAF).0, keys[1..]);
    }
  }

  lemma FinishTouches(r: Reader, id: nat, ok: bool)
    requires Fifo(r) && id < |r.tasks| && Holds(r.tasks[id]) && 0 < r.inFlight
    ensures OnlyTouches(r, Finish(r, id, ok), id)
    ensures Finish(r, id, ok).tasks[id].status == if ok then Fulfilled else Failed(false)
  {
    if r.queued != [] {
      assert r.tasks[r.queued[0]].status.Queued?;
    }
  }

  lemma EnterTouches(r: Reader, id: nat, stage: nat)
    requires Fifo(r) && id < |r.tasks| && Holds(r.tasks[id]) && 0 < r.inFlight
    ensures OnlyTouches(r, Enter(r, id, stage), id)
    ensures var script, status := r.tasks[id].script, Enter(r, id, stage).tasks[id].status;
            if |script| <= stage then status.Fulfilled? else status.Running? && status.stage == stage
  {
    hide Finish, SessionReads;
    var script := r.tasks[id].script;
    if |script| <= stage {
      FinishTouches(r, id, true);
    } else if script[stage].Reads? {
      ReadsAreFresh(r, script[stage].keys);
    }
  }

  // An event ends its read as failed exactly when it is a refusal by the RPC, or that read awaits a
  // failed one at a stage that does not tolerate it.
  ghost predicate Fails(r: Reader, e: Event)
    requires Enabled(r, e)
  {
    var t := r.tasks[e.id];
    || (e.Answer? && !e.ok)
    || (e.Resume? && !t.script[t.status.stage].tolerant && AnyFailed(r, t.status.awaiting))
  }

  lemma NextTouches(r: Reader, e: Event)
    requires Inv(r) && Enabled(r, e)
    requires !e.Evict? ==> 0 < r.inFlight && (r.queued != [] ==> r.queued[0] < |r.tasks|)
    ensures OnlyTouches(r, Next(r, e), e.id)
    ensures var t, status := r.tasks[e.id], Next(r, e).tasks[e.id].status;
            if e.Evict? then status == Failed(true)
            else if Fails(r, e) then status == Failed(false)
            else
              var stage := if e.Start? then 0 else t.status.stage + 1;
              if |t.script| <= stage then status.Fulfilled? else status.Running? && status.stage == stage
  {
    hide Finish, Enter;
    if !e.Evict? {
      Steppable(r, e);
      FinishTouches(r, e.id, false);
      EnterTouches(r, e.id, if e.Start? then 0 else r.tasks[e.id].status.stage + 1);
    }
  }

  // ---- a read of the RPC's own ----

  // A step of the run was this answer.
  predicate Answered(steps: seq<Step>, id: nat, ok: bool) {
    Internal(Answer(id, ok)) in steps
  }

  ghost predicate LeafEnded(steps: seq<Step>, r: Reader, id: nat) {
    && (id < |r.tasks| && r.tasks[id].key.LeafKey? ==>
          && (r.tasks[id].status.Fulfilled? <==> Answered(steps, id, true))
          && (r.tasks[id].status.Failed? <==> Answered(steps, id, false)))
    && (|r.tasks| <= id ==> !Answered(steps, id, true) && !Answered(steps, id, false))
  }

  lemma LeafAfterAsk(steps: seq<Step>, r: Reader, key: Key, script: seq<Stage>, id: nat)
    requires LeafEnded(steps, r, id)
    ensures LeafEnded(steps + [Ask(key, script)], SessionRead(r, key, script).0, id)
  {
  }

  lemma LeafElsewhere(steps: seq<Step>, r: Reader, e: Event, next: Reader, id: nat)
    requires OnlyTouches(r, next, e.id) && e.id < |r.tasks| && e.id != id
    requires LeafEnded(steps, r, id)
    ensures LeafEnded(steps + [Internal(e)], next, id)
  {
  }

  lemma LeafAfterEvent(steps: seq<Step>, r: Reader, e: Event, id: nat)
    requires Inv(r) && Enabled(r, e)
    requires !e.Evict? ==> 0 < r.inFlight && (r.queued != [] ==> r.queued[0] < |r.tasks|)
    requires LeafEnded(steps, r, id)
    ensures LeafEnded(steps + [Internal(e)], Next(r, e), id)
  {
    hide Inv, Next;
    NextTouches(r, e);
    if id != e.id {
      hide Enabled, OnlyTouches, LeafEnded;
      LeafElsewhere(steps, r, e, Next(r, e), id);
    } else if r.tasks[id].key.LeafKey? {
      LeafScript(r, id);
    }
  }

  lemma LeafScript(r: Reader, id: nat)
    requires Inv(r) && id < |r.tasks| && r.tasks[id].key.LeafKey?
    ensures r.tasks[id].script == LEAF
  {
  }

  lemma {:induction false} RunIsSound(steps: seq<Step>, r: Reader)
    requires Reaches(IDLE, steps, r)
    ensures Inv(r)
  {
    EveryInterleaving(steps, r);
  }

  lemma {:induction false} LeafEnds(steps: seq<Step>, r: Reader, id: nat)
    requires Reaches(IDLE, steps, r)
    ensures LeafEnded(steps, r, id)
    decreases |steps|
  {
    hide LeafEnded, Inv, Next, Enabled, SessionRead;
    if steps == [] {
      LeafAtFirst(id);
    } else {
      var n := |steps| - 1;
      var mid :| Reaches(IDLE, steps[..n], mid) && Leads(mid, steps[n], r);
      LeafEnds(steps[..n], mid, id);
      RunIsSound(steps[..n], mid);
      assert steps == steps[..n] + [steps[n]];
      match steps[n]
      case Ask(key, script) => LeafAfterAsk(steps[..n], mid, key, script, id);
      case Internal(e) => LeafAfterEvent(steps[..n], mid, e, id);
    }
  }

  lemma LeafAtFirst(id: nat)
    ensures LeafEnded([], IDLE, id)
  {
  }

  // In every interleaving a read of the RPC succeeds exactly if its answer was good, and fails exactly
  // if it was not.
  lemma {:induction false} LeafEndsAsAnswered(steps: seq<Step>, r: Reader, id: nat)
    requires Reaches(IDLE, steps, r)
    requires id < |r.tasks| && r.tasks[id].key.LeafKey?
    ensures r.tasks[id].status.Fulfilled? <==> Internal(Answer(id, true)) in steps
    ensures r.tasks[id].status.Failed? <==> Internal(Answer(id, false)) in steps
  {
    LeafEnds(steps, r, id);
  }

  // ---- a read that awaits others ----

  // What one awaits are the reads of its stage's keys.
  ghost predicate AwaitsItsKeys(r: Reader, id: nat) {
    id < |r.tasks| && Awaits(r.tasks[id]) ==>
      var t := r.tasks[id];
      && |t.status.awaiting| == |t.script[t.status.stage].keys|
      && forall j :: 0 <= j < |t.status.awaiting| ==>
           t.status.awaiting[j] < |r.tasks| && r.tasks[t.status.awaiting[j]].key == t.script[t.status.stage].keys[j]
  }

  lemma {:induction false} ReadsGiveKeys(r: Reader, keys: seq<Key>)
    requires Keyed(r)
    ensures var (next, ids) := SessionReads(r, keys);
            && |ids| == |keys|
            && forall j :: 0 <= j < |ids| ==> ids[j] < |next.tasks| && next.tasks[ids[j]].key == keys[j]
    decreases |keys|
  {
    if keys != [] {
      var (first, id) := SessionRead(r, keys[0], LEAF);
      ReadIsKeyed(r, keys[0], LEAF);
      ReadsGiveKeys(first, keys[1..]);
      SessionReadsGrow(first, keys[1..]);
      hide Keyed, SessionRead;
    }
  }

  lemma EnterAwaits(r: Reader, id: nat, stage: nat)
    requires Inv(r) && id < |r.tasks| && Holds(r.tasks[id]) && 0 < r.inFlight
    ensures AwaitsItsKeys(Enter(r, id, stage), id)
  {
    hide Finish, SessionReads;
    var script := r.tasks[id].script;
    if |script| <= stage {
      FinishTouches(r, id, true);
    } else if script[stage].Reads? {
      ReadsAreFresh(r, script[stage].keys);
      ReadsGiveKeys(r, script[stage].keys);
    }
  }

  lemma AwaitsElsewhere(r: Reader, next: Reader, touched: nat, id: nat)
    requires AwaitsItsKeys(r, id) && OnlyTouches(r, next, touched) && id != touched
    ensures AwaitsItsKeys(next, id)
  {
  }

  lemma AwaitsAfter(r: Reader, step: Step, next: Reader, id: nat)
    requires Inv(r) && Leads(r, step, next) && AwaitsItsKeys(r, id)
    ensures AwaitsItsKeys(next, id)
  {
    if step.Internal? {
      var e := step.event;
      NextTouches(r, e);
      if e.id != id {
        hide Inv, Next;
        AwaitsElsewhere(r, next, e.id, id);
      } else if !e.Evict? && !Fails(r, e) {
        Steppable(r, e);
        EnterAwaits(r, id, if e.Start? then 0 else r.tasks[id].status.stage + 1);
        hide Enter, Finish, Inv;
      } else {
        hide Next, Inv;
      }
    }
  }

  lemma {:induction false} RunAwaitsItsKeys(steps: seq<Step>, r: Reader, id: nat)
    requires Reaches(IDLE, steps, r)
    ensures AwaitsItsKeys(r, id)
    decreases |steps|
  {
    if steps != [] {
      hide AwaitsItsKeys, Leads, Inv;
      var n := |steps| - 1;
      var mid :| Reaches(IDLE, steps[..n], mid) && Leads(mid, steps[n], r);
      RunAwaitsItsKeys(steps[..n], mid, id);
      RunIsSound(steps[..n], mid);
      AwaitsAfter(mid, steps[n], r, id);
    }
  }

  // The read is at a stage that does not tolerate failure, and a read it awaits there has failed.
  ghost predicate Doomed(r: Reader, id: nat) {
    && id < |r.tasks| && Awaits(r.tasks[id])
    && var t := r.tasks[id];
    !t.script[t.status.stage].tolerant && AnyFailed(r, t.status.awaiting)
  }

  predicate ReadsOnly(script: seq<Stage>) {
    forall s :: 0 <= s < |script| ==> script[s].Reads?
  }

  predicate HasFailed(r: Reader, id: nat) {
    id < |r.tasks| && r.tasks[id].status.Failed?
  }

  // What has failed stays so, and what is doomed stays doomed until it fails.
  lemma DoomedFails(r: Reader, step: Step, next: Reader, id: nat)
    requires Inv(r) && Leads(r, step, next)
    requires HasFailed(r, id) || Doomed(r, id)
    ensures HasFailed(next, id) || Doomed(next, id)
  {
    if step.Internal? {
      NextTouches(r, step.event);
      hide Inv, Next;
      if Doomed(r, id) && step.event.id != id {
        var ids := r.tasks[id].status.awaiting;
        var j :| 0 <= j < |ids| && ids[j] < |r.tasks| && r.tasks[ids[j]].status.Failed?;
        assert next.tasks[ids[j]].status.Failed?;
        assert next.tasks[id] == r.tasks[id];
      }
    } else {
      hide Inv;
      if Doomed(r, id) {
        var ids := r.tasks[id].status.awaiting;
        var j :| 0 <= j < |ids| && ids[j] < |r.tasks| && r.tasks[ids[j]].status.Failed?;
        assert next.tasks[ids[j]] == r.tasks[ids[j]] && next.tasks[id] == r.tasks[id];
      }
    }
  }

  lemma OnlyDoomedFail(r: Reader, step: Step, next: Reader, id: nat)
    requires Inv(r) && Leads(r, step, next)
    requires HasFailed(next, id) && ReadsOnly(next.tasks[id].script)
    ensures HasFailed(r, id) || Doomed(r, id)
  {
    if step.Internal? {
      NextTouches(r, step.event);
    }
    hide Inv, Next;
  }

  // After k steps of the run the read was doomed.
  ghost predicate DoomedAfter(steps: seq<Step>, k: nat, id: nat) {
    k <= |steps| && exists mid :: Reaches(IDLE, steps[..k], mid) && Doomed(mid, id)
  }

  lemma {:induction false} ReachesUnique(from: Reader, steps: seq<Step>, a: Reader, b: Reader)
    requires Reaches(from, steps, a) && Reaches(from, steps, b)
    ensures a == b
    decreases |steps|
  {
    if steps != [] {
      var n := |steps| - 1;
      var x :| Reaches(from, steps[..n], x) && Leads(x, steps[n], a);
      var y :| Reaches(from, steps[..n], y) && Leads(y, steps[n], b);
      ReachesUnique(from, steps[..n], x, y);
    }
  }

  lemma {:induction false} FailedWasDoomed(steps: seq<Step>, r: Reader, id: nat)
    requires Reaches(IDLE, steps, r)
    requires HasFailed(r, id) && ReadsOnly(r.tasks[id].script)
    ensures exists k: nat :: DoomedAfter(steps, k, id)
    decreases |steps|
  {
    hide Doomed, Inv, Leads;
    if steps != [] {
      var n := |steps| - 1;
      var mid :| Reaches(IDLE, steps[..n], mid) && Leads(mid, steps[n], r);
      RunIsSound(steps[..n], mid);
      OnlyDoomedFail(mid, steps[n], r, id);
      if Doomed(mid, id) {
        assert DoomedAfter(steps, n, id);
      } else {
        ScriptKept(mid, steps[n], r, id);
        FailedWasDoomed(steps[..n], mid, id);
        var k: nat :| DoomedAfter(steps[..n], k, id);
        assert steps[..n][..k] == steps[..k];
        assert DoomedAfter(steps, k, id);
      }
    }
  }

  lemma ScriptKept(r: Reader, step: Step, next: Reader, id: nat)
    requires Inv(r) && Leads(r, step, next) && id < |r.tasks|
    ensures id < |next.tasks| && next.tasks[id].script == r.tasks[id].script
  {
    if step.Internal? {
      NextTouches(r, step.event);
    }
    hide Inv, Next;
  }

  lemma {:induction false} DoomedEndsFailed(steps: seq<Step>, r: Reader, k: nat, id: nat)
    requires Reaches(IDLE, steps, r) && DoomedAfter(steps, k, id)
    ensures HasFailed(r, id) || Doomed(r, id)
    decreases |steps|
  {
    hide Doomed, Inv, Leads;
    if k == |steps| {
      assert steps[..k] == steps;
      var mid :| Reaches(IDLE, steps[..k], mid) && Doomed(mid, id);
      ReachesUnique(IDLE, steps, mid, r);
    } else {
      var n := |steps| - 1;
      var mid :| Reaches(IDLE, steps[..n], mid) && Leads(mid, steps[n], r);
      assert steps[..n][..k] == steps[..k];
      DoomedEndsFailed(steps[..n], mid, k, id);
      RunIsSound(steps[..n], mid);
      DoomedFails(mid, steps[n], r, id);
    }
  }

  // After k steps the read awaited, at a stage that does not tolerate failure, the read of a key whose
  // answer had by then been bad.
  ghost predicate MissedAnswer(steps: seq<Step>, k: nat, id: nat, key: Key) {
    && k <= |steps|
    && exists mid :: Reaches(IDLE, steps[..k], mid) && AwaitsMissed(steps[..k], mid, id, key)
  }

  ghost predicate AwaitsMissed(steps: seq<Step>, r: Reader, id: nat, key: Key) {
    && id < |r.tasks| && Awaits(r.tasks[id])
    && var t := r.tasks[id];
    && var stage := t.script[t.status.stage];
    && !stage.tolerant
    && |stage.keys| == |t.status.awaiting|
    && exists j :: 0 <= j < |stage.keys| && stage.keys[j] == key && Internal(Answer(t.status.awaiting[j], false)) in steps
  }

  lemma {:induction false} DoomedMissed(steps: seq<Step>, r: Reader, id: nat)
    requires Reaches(IDLE, steps, r)
    ensures Doomed(r, id) <==> exists key :: AwaitsMissed(steps, r, id, key)
  {
    RunIsSound(steps, r);
    RunAwaitsItsKeys(steps, r, id);
    hide Reaches, Slots, Fifo, Keyed;
    if id < |r.tasks| && Awaits(r.tasks[id]) {
      var t := r.tasks[id];
      assert LeafIds(r, t.status.awaiting);
      forall j | 0 <= j < |t.status.awaiting|
        ensures HasFailed(r, t.status.awaiting[j]) <==> Answered(steps, t.status.awaiting[j], false)
      {
        LeafEndsAsAnswered(steps, r, t.status.awaiting[j]);
      }
      if Doomed(r, id) {
        var j :| 0 <= j < |t.status.awaiting| && t.status.awaiting[j] < |r.tasks| && HasFailed(r, t.status.awaiting[j]);
        assert AwaitsMissed(steps, r, id, t.script[t.status.stage].keys[j]);
      }
    }
  }

  // In every interleaving a read that only awaits others, once it has ended, has failed exactly if at
  // some stage that does not tolerate it an answer to a read it awaited was bad. Otherwise it succeeded.
  lemma {:induction false} OuterEndsAsAwaited(steps: seq<Step>, r: Reader, id: nat)
    requires Reaches(IDLE, steps, r)
    requires id < |r.tasks| && ReadsOnly(r.tasks[id].script) && !Pending(r.tasks[id])
    ensures r.tasks[id].status.Failed? <==> exists k: nat, key :: MissedAnswer(steps, k, id, key)
  {
    hide Reaches, AwaitsMissed;
    if r.tasks[id].status.Failed? {
      FailedWasDoomed(steps, r, id);
      var k: nat :| DoomedAfter(steps, k, id);
      var mid :| Reaches(IDLE, steps[..k], mid) && Doomed(mid, id);
      DoomedMissed(steps[..k], mid, id);
      var key :| AwaitsMissed(steps[..k], mid, id, key);
      assert MissedAnswer(steps, k, id, key);
    }
    if k: nat, key :| MissedAnswer(steps, k, id, key) {
      var mid :| Reaches(IDLE, steps[..k], mid) && AwaitsMissed(steps[..k], mid, id, key);
      DoomedMissed(steps[..k], mid, id);
      assert DoomedAfter(steps, k, id);
      DoomedEndsFailed(steps, r, k, id);
    }
  }

  // ---- asking again ----

  // Asking for a key starts a new read exactly if every read of it so far has failed and been dropped;
  // otherwise it shares the one that has not.
  lemma {:induction false} AskingAgainExactly(steps: seq<Step>, r: Reader, key: Key, script: seq<Stage>)
    requires Reaches(IDLE, steps, r)
    ensures var (next, id) := SessionRead(r, key, script);
            if forall i :: 0 <= i < |r.tasks| && r.tasks[i].key == key ==> r.tasks[i].status == Failed(true)
            then
              && id == |r.tasks| && |next.tasks| == |r.tasks| + 1
              && next.tasks[id].key == key && next.tasks[id].script == script && Fresh(next.tasks[id])
            else
              && id < |r.tasks| && next == r
              && r.tasks[id].key == key && r.tasks[id].status != Failed(true)
  {
    RunIsSound(steps, r);
    hide Slots, Fifo, Shaped;
  }

  // So a failure is never shared once dropped: the same key, asked again, is read again.
  lemma {:induction false} FailureIsRetried(steps: seq<Step>, r: Reader, id: nat, script: seq<Stage>)
    requires Reaches(IDLE, steps, r) && Enabled(r, Evict(id))
    ensures var dropped := Next(r, Evict(id));
            var (next, again) := SessionRead(dropped, r.tasks[id].key, script);
            again == |r.tasks| && |next.tasks| == |r.tasks| + 1 && Fresh(next.tasks[again])
  {
    RunIsSound(steps, r);
    EvictKeeps(r, id);
  }
}
