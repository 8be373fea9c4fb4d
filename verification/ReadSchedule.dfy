// Every interleaving of the read layer: slots, queue order, one run per key, and completion.
module ReadSchedule {
  import opened ProgrammeReads

  // ---- totals over the tasks ----

  ghost function Sum(tasks: seq<Task>, w: Task -> int): int {
    if tasks == [] then 0 else Sum(tasks[..|tasks| - 1], w) + w(tasks[|tasks| - 1])
  }

  lemma {:induction false} SumUpdate(tasks: seq<Task>, w: Task -> int, i: nat, t: Task)
    requires i < |tasks|
    ensures Sum(tasks[i := t], w) == Sum(tasks, w) - w(tasks[i]) + w(t)
  {
    var n := |tasks| - 1;
    if i < n {
      SumUpdate(tasks[..n], w, i, t);
      assert tasks[i := t][..n] == tasks[..n][i := t];
    } else {
      assert tasks[i := t][..n] == tasks[..n];
    }
  }

  lemma {:induction false} SumAppend(tasks: seq<Task>, w: Task -> int, t: Task)
    ensures Sum(tasks + [t], w) == Sum(tasks, w) + w(t)
  {
    assert (tasks + [t])[..|tasks|] == tasks;
  }

  lemma {:induction false} SumCompare(tasks: seq<Task>, w: Task -> int, v: Task -> int)
    requires forall i :: 0 <= i < |tasks| ==> w(tasks[i]) <= v(tasks[i])
    ensures Sum(tasks, w) <= Sum(tasks, v)
  {
    if tasks != [] {
      SumCompare(tasks[..|tasks| - 1], w, v);
    }
  }

  function Held(t: Task): int { if Holds(t) then 1 else 0 }
  function OuterPending(t: Task): int { if Pending(t) && t.key.OuterKey? then 1 else 0 }
  function None(t: Task): int { 0 }

  // ---- the invariant ----

  // The counter is the number of tasks holding a slot.
  ghost predicate Slots(r: Reader) {
    r.inFlight == Sum(r.tasks, Held) <= MAX_CONCURRENT
  }

  // The queue is exactly the newest tasks in order: everything older has been admitted.
  ghost predicate Fifo(r: Reader) {
    && |r.queued| <= |r.tasks|
    && (forall j :: 0 <= j < |r.queued| ==> r.queued[j] == |r.tasks| - |r.queued| + j)
    && (forall i :: 0 <= i < |r.tasks| ==> (r.tasks[i].status.Queued? <==> |r.tasks| - |r.queued| <= i))
    && (r.queued != [] ==> r.inFlight == MAX_CONCURRENT)
  }

  // The cache holds, for each key, the one task of that key whose failure has not been dropped.
  ghost predicate Keyed(r: Reader) {
    && (forall k :: k in r.settled ==>
          r.settled[k] < |r.tasks| && r.tasks[r.settled[k]].key == k && r.tasks[r.settled[k]].status != Failed(true))
    && (forall i :: 0 <= i < |r.tasks| && r.tasks[i].status != Failed(true) ==>
          r.tasks[i].key in r.settled && r.settled[r.tasks[i].key] == i)
  }

  predicate LeavesOnly(keys: seq<Key>) {
    forall j :: 0 <= j < |keys| ==> keys[j].LeafKey?
  }

  predicate WellNested(key: Key, script: seq<Stage>) {
    && (key.LeafKey? ==> script == LEAF)
    && (forall s :: 0 <= s < |script| && script[s].Reads? ==> LeavesOnly(script[s].keys))
  }

  ghost predicate LeafIds(r: Reader, ids: seq<nat>) {
    forall j :: 0 <= j < |ids| ==> ids[j] < |r.tasks| && r.tasks[ids[j]].key.LeafKey?
  }

  ghost predicate Shaped(r: Reader) {
    forall i :: 0 <= i < |r.tasks| ==>
      var t := r.tasks[i];
      && WellNested(t.key, t.script)
      && (t.status.Running? ==> t.status.stage < |t.script| && LeafIds(r, t.status.awaiting))
  }

  ghost predicate Inv(r: Reader) {
    Slots(r) && Fifo(r) && Keyed(r) && Shaped(r)
  }

  // ---- what each step keeps ----

  lemma ReadKeepsSlots(r: Reader, key: Key, script: seq<Stage>)
    requires Slots(r) && Fifo(r)
    ensures var next := SessionRead(r, key, script).0; Slots(next) && Fifo(next)
  {
    SumAppend(r.tasks, Held, Task(key, script, Admitted));
    SumAppend(r.tasks, Held, Task(key, script, Queued));
  }

  lemma ReadIsKeyed(r: Reader, key: Key, script: seq<Stage>)
    requires Keyed(r)
    ensures Keyed(SessionRead(r, key, script).0)
    ensures var (next, id) := SessionRead(r, key, script);
            id < |next.tasks| && next.tasks[id].key == key && key in next.settled && next.settled[key] == id
  {
  }

  lemma ReadIsShaped(r: Reader, key: Key, script: seq<Stage>)
    requires Shaped(r) && WellNested(key, script)
    ensures Shaped(SessionRead(r, key, script).0)
  {
    hide WellNested;
  }

  lemma ReadKeeps(r: Reader, key: Key, script: seq<Stage>)
    requires Inv(r) && WellNested(key, script)
    ensures Inv(SessionRead(r, key, script).0)
  {
    hide Slots, Fifo, Keyed, Shaped, WellNested, SessionRead;
    ReadKeepsSlots(r, key, script);
    ReadIsKeyed(r, key, script);
    ReadIsShaped(r, key, script);
  }

  lemma LeafIsWellNested(keys: seq<Key>)
    requires keys != [] && LeavesOnly(keys)
    ensures WellNested(keys[0], LEAF) && keys[0].LeafKey? && LeavesOnly(keys[1..])
  {
  }

  lemma {:induction false} ReadsKeep(r: Reader, keys: seq<Key>)
    requires Inv(r) && LeavesOnly(keys)
    ensures Inv(SessionReads(r, keys).0)
    ensures LeafIds(SessionReads(r, keys).0, SessionReads(r, keys).1)
    decreases |keys|
  {
    hide Slots, Fifo, Keyed, Shaped, LeavesOnly, WellNested, SessionRead;
    if keys != [] {
      var (first, id) := SessionRead(r, keys[0], LEAF);
      LeafIsWellNested(keys);
      ReadKeeps(r, keys[0], LEAF);
      ReadIsKeyed(r, keys[0], LEAF);
      ReadsKeep(first, keys[1..]);
      SessionReadsGrow(first, keys[1..]);
    }
  }

  lemma RunKeepsSlots(r: Reader, id: nat, stage: nat, ids: seq<nat>)
    requires Slots(r) && Fifo(r) && id < |r.tasks| && Holds(r.tasks[id])
    ensures var next := SetStatus(r, id, Running(stage, ids)); Slots(next) && Fifo(next)
  {
    SumUpdate(r.tasks, Held, id, r.tasks[id].(status := Running(stage, ids)));
    hide Sum;
  }

  lemma RunKeepsKeys(r: Reader, id: nat, stage: nat, ids: seq<nat>)
    requires Keyed(r) && Shaped(r) && id < |r.tasks| && Holds(r.tasks[id])
    requires stage < |r.tasks[id].script| && LeafIds(r, ids)
    ensures var next := SetStatus(r, id, Running(stage, ids)); Keyed(next) && Shaped(next)
  {
    hide WellNested;
  }

  lemma RunKeeps(r: Reader, id: nat, stage: nat, ids: seq<nat>)
    requires Inv(r) && id < |r.tasks| && Holds(r.tasks[id])
    requires stage < |r.tasks[id].script| && LeafIds(r, ids)
    ensures Inv(SetStatus(r, id, Running(stage, ids)))
  {
    hide Slots, Fifo, Keyed, Shaped, SetStatus;
    RunKeepsSlots(r, id, stage, ids);
    RunKeepsKeys(r, id, stage, ids);
  }

  lemma FinishKeepsCount(r: Reader, id: nat, ok: bool)
    requires Slots(r) && Fifo(r) && id < |r.tasks| && Holds(r.tasks[id]) && 0 < r.inFlight
    ensures Slots(Finish(r, id, ok))
  {
    var t := r.tasks[id].(status := if ok then Fulfilled else Failed(false));
    SumUpdate(r.tasks, Held, id, t);
    if r.queued != [] {
      var head := r.queued[0];
      var tasks := r.tasks[id := t];
      assert tasks[head].status.Queued?;
      SumUpdate(tasks, Held, head, tasks[head].(status := Admitted));
    }
    hide Sum;
  }

  lemma FinishKeepsSlots(r: Reader, id: nat, ok: bool)
    requires Slots(r) && Fifo(r) && id < |r.tasks| && Holds(r.tasks[id]) && 0 < r.inFlight
    ensures var next := Finish(r, id, ok); Slots(next) && Fifo(next)
  {
    FinishKeepsCount(r, id, ok);
    hide Slots, Sum;
  }

  // Nothing but statuses changed, and none to running or forgotten.
  ghost predicate OnlySettles(r: Reader, next: Reader) {
    && next.settled == r.settled && |next.tasks| == |r.tasks|
    && (forall i :: 0 <= i < |r.tasks| ==>
          next.tasks[i].key == r.tasks[i].key && next.tasks[i].script == r.tasks[i].script)
    && (forall i :: 0 <= i < |r.tasks| ==>
          next.tasks[i].status == r.tasks[i].status ||
          (!next.tasks[i].status.Running? && next.tasks[i].status != Failed(true) && r.tasks[i].status != Failed(true)))
  }

  lemma SettlingKeepsKeyed(r: Reader, next: Reader)
    requires Keyed(r) && OnlySettles(r, next)
    ensures Keyed(next)
  {
  }

  lemma SettlingKeepsShaped(r: Reader, next: Reader)
    requires Shaped(r) && OnlySettles(r, next)
    ensures Shaped(next)
  {
    hide WellNested;
  }

  lemma FinishOnlySettles(r: Reader, id: nat, ok: bool)
    requires Fifo(r) && id < |r.tasks| && Holds(r.tasks[id]) && 0 < r.inFlight
    ensures OnlySettles(r, Finish(r, id, ok))
  {
    if r.queued != [] {
      assert r.tasks[r.queued[0]].status.Queued?;
    }
  }

  lemma FinishKeepsKeys(r: Reader, id: nat, ok: bool)
    requires Keyed(r) && Shaped(r) && Fifo(r) && id < |r.tasks| && Holds(r.tasks[id]) && 0 < r.inFlight
    ensures var next := Finish(r, id, ok);
            && Keyed(next) && Shaped(next)
            && |next.tasks| == |r.tasks|
  {
    FinishOnlySettles(r, id, ok);
    SettlingKeepsKeyed(r, Finish(r, id, ok));
    SettlingKeepsShaped(r, Finish(r, id, ok));
    hide Finish, Keyed, Shaped;
  }

  lemma FinishKeeps(r: Reader, id: nat, ok: bool)
    requires Inv(r) && id < |r.tasks| && Holds(r.tasks[id]) && 0 < r.inFlight
    ensures r.queued != [] ==> r.queued[0] < |r.tasks|
    ensures Inv(Finish(r, id, ok))
  {
    FinishKeepsSlots(r, id, ok);
    FinishKeepsKeys(r, id, ok);
    hide Finish, Slots, Keyed, Shaped;
  }

  lemma HoldingCounts(r: Reader, id: nat)
    requires Slots(r) && id < |r.tasks| && Holds(r.tasks[id])
    ensures 0 < r.inFlight
  {
    SumUpdate(r.tasks, Held, id, r.tasks[id].(status := Fulfilled));
    SumCompare(r.tasks[id := r.tasks[id].(status := Fulfilled)], None, Held);
    SumNone(r.tasks[id := r.tasks[id].(status := Fulfilled)]);
  }

  lemma {:induction false} SumNone(tasks: seq<Task>)
    ensures Sum(tasks, None) == 0
  {
    if tasks != [] {
      SumNone(tasks[..|tasks| - 1]);
    }
  }

  lemma EnterKeeps(r: Reader, id: nat, stage: nat)
    requires Inv(r) && id < |r.tasks| && Holds(r.tasks[id]) && 0 < r.inFlight
    ensures Inv(Enter(r, id, stage))
  {
    hide Finish, SessionReads, Slots, Keyed;
    var script := r.tasks[id].script;
    if |script| <= stage {
      FinishKeeps(r, id, true);
    } else if script[stage].Simulate? {
      RunKeeps(r, id, stage, []);
    } else {
      var (next, ids) := SessionReads(r, script[stage].keys);
      ReadsKeep(r, script[stage].keys);
      SessionReadsGrow(r, script[stage].keys);
      RunKeeps(next, id, stage, ids);
    }
  }

  lemma EvictKeeps(r: Reader, id: nat)
    requires Inv(r) && Enabled(r, Evict(id))
    ensures Inv(Next(r, Evict(id)))
    // A failure removes its own entry and no other.
    ensures r.tasks[id].key in r.settled && r.settled[r.tasks[id].key] == id
    ensures Next(r, Evict(id)).settled == r.settled - {r.tasks[id].key}
  {
    SumUpdate(r.tasks, Held, id, r.tasks[id].(status := Failed(true)));
  }

  lemma Steppable(r: Reader, e: Event)
    requires Inv(r) && Enabled(r, e) && !e.Evict?
    ensures Holds(r.tasks[e.id]) && 0 < r.inFlight && (r.queued != [] ==> r.queued[0] < |r.tasks|)
  {
    HoldingCounts(r, e.id);
  }

  lemma NextKeeps(r: Reader, e: Event)
    requires Inv(r) && Enabled(r, e)
    ensures !e.Evict? ==> 0 < r.inFlight && (r.queued != [] ==> r.queued[0] < |r.tasks|)
    ensures Inv(Next(r, e))
  {
    hide Inv, Finish, Enter;
    if e.Evict? {
      EvictKeeps(r, e.id);
    } else {
      Steppable(r, e);
      if e.Start? {
        EnterKeeps(r, e.id, 0);
      } else if Next(r, e) == Finish(r, e.id, false) {
        FinishKeeps(r, e.id, false);
      } else {
        EnterKeeps(r, e.id, r.tasks[e.id].status.stage + 1);
      }
    }
  }

  // ---- every interleaving ----

  datatype Step = Ask(key: Key, script: seq<Stage>) | Internal(event: Event)

  // Requests from any screen, in any order, mixed with whatever internal events can happen.
  ghost predicate Reaches(from: Reader, steps: seq<Step>, to: Reader)
    decreases |steps|
  {
    if steps == [] then from == to
    else
      var n := |steps| - 1;
      exists mid :: Reaches(from, steps[..n], mid) && Leads(mid, steps[n], to)
  }

  ghost predicate Leads(r: Reader, step: Step, to: Reader) {
    match step
    case Ask(key, script) => WellNested(key, script) && to == SessionRead(r, key, script).0
    case Internal(e) =>
      && Enabled(r, e)
      && (!e.Evict? ==> 0 < r.inFlight && (r.queued != [] ==> r.queued[0] < |r.tasks|))
      && to == Next(r, e)
  }

  lemma IdleIsSound()
    ensures Inv(IDLE)
  {
  }

  lemma LeadsKeeps(r: Reader, step: Step, to: Reader)
    requires Inv(r) && Leads(r, step, to)
    ensures Inv(to)
  {
    match step
    case Ask(key, script) =>
      ReadKeeps(r, key, script);
    case Internal(e) =>
      NextKeeps(r, e);
  }

  // In every interleaving: the counter is the number of running tasks and at most four, a task
  // waits only while all four slots are taken, admission is in order of asking, and each key has
  // at most one run that is pending or cached.
  lemma {:induction false} EveryInterleaving(steps: seq<Step>, r: Reader)
    requires Reaches(IDLE, steps, r)
    ensures Inv(r)
    ensures forall i, j :: 0 <= i < j < |r.tasks| && !r.tasks[j].status.Queued? ==> !r.tasks[i].status.Queued?
    ensures forall i :: 0 <= i < |r.tasks| && r.tasks[i].status.Queued? ==> Sum(r.tasks, Held) == MAX_CONCURRENT
    ensures forall i, j :: 0 <= i < j < |r.tasks| && r.tasks[i].key == r.tasks[j].key ==>
              r.tasks[i].status == Failed(true) || r.tasks[j].status == Failed(true)
    decreases |steps|
  {
    if steps != [] {
      var n := |steps| - 1;
      var mid :| Reaches(IDLE, steps[..n], mid) && Leads(mid, steps[n], r);
      EveryInterleaving(steps[..n], mid);
      LeadsKeeps(mid, steps[n], r);
    } else {
      IdleIsSound();
    }
  }

  // ---- completion ----

  ghost predicate Quiescent(r: Reader) {
    forall e :: !Enabled(r, e)
  }

  ghost predicate AnyPending(r: Reader) {
    exists i :: 0 <= i < |r.tasks| && Pending(r.tasks[i])
  }

  // Every holder is an outer read that awaits a read which is still in the queue.
  ghost predicate AllHoldersWait(r: Reader) {
    forall i :: 0 <= i < |r.tasks| && Holds(r.tasks[i]) ==>
      Awaits(r.tasks[i]) && !AllIn(r, r.tasks[i].status.awaiting)
  }

  // The layer is stuck exactly when all four slots are held by outer reads that await queued ones.
  lemma StuckExactly(r: Reader)
    requires Inv(r)
    ensures Quiescent(r) && AnyPending(r) <==>
            && r.inFlight == MAX_CONCURRENT
            && AllHoldersWait(r)
            && forall i :: 0 <= i < |r.tasks| ==> r.tasks[i].status != Failed(false)
  {
    if Quiescent(r) && AnyPending(r) {
      QuiescentHoldersWait(r);
      if r.inFlight < MAX_CONCURRENT {
        QuiescentFull(r);
      }
    }
    if r.inFlight == MAX_CONCURRENT {
      if !AnyPending(r) {
        assert forall i :: 0 <= i < |r.tasks| ==> Held(r.tasks[i]) <= None(r.tasks[i]);
        SumCompare(r.tasks, Held, None);
        SumNone(r.tasks);
      }
    }
  }

  lemma QuiescentHoldersWait(r: Reader)
    requires Inv(r) && Quiescent(r)
    ensures AllHoldersWait(r)
    ensures forall i :: 0 <= i < |r.tasks| ==> r.tasks[i].status != Failed(false)
  {
    forall i | 0 <= i < |r.tasks|
      ensures Holds(r.tasks[i]) ==> Awaits(r.tasks[i]) && !AllIn(r, r.tasks[i].status.awaiting)
      ensures r.tasks[i].status != Failed(false)
    {
      assert !Enabled(r, Start(i)) && !Enabled(r, Answer(i, true)) && !Enabled(r, Resume(i)) && !Enabled(r, Evict(i));
    }
  }

  // With a free slot nothing is queued, so some awaited read could move.
  lemma QuiescentFull(r: Reader)
    requires Inv(r) && Quiescent(r) && r.inFlight < MAX_CONCURRENT
    ensures !AnyPending(r)
  {
    QuiescentHoldersWait(r);
    assert forall i :: 0 <= i < |r.tasks| && Pending(r.tasks[i]) ==> Holds(r.tasks[i]);
    assert forall i :: 0 <= i < |r.tasks| && Holds(r.tasks[i]) ==> r.tasks[i].script != LEAF;
    assert forall i :: 0 <= i < |r.tasks| && Holds(r.tasks[i]) ==> LeafIds(r, r.tasks[i].status.awaiting);
  }

  ghost function Outers(r: Reader): int {
    Sum(r.tasks, OuterPending)
  }

  // With at most three outer reads outstanding the layer is never stuck.
  lemma ThreeOutersNeverStick(r: Reader)
    requires Inv(r) && Outers(r) < MAX_CONCURRENT
    requires Quiescent(r)
    ensures !AnyPending(r)
  {
    StuckExactly(r);
    if AllHoldersWait(r) {
      forall i | 0 <= i < |r.tasks|
        ensures Held(r.tasks[i]) <= OuterPending(r.tasks[i])
      {
        assert WellNested(r.tasks[i].key, r.tasks[i].script);
      }
      SumCompare(r.tasks, Held, OuterPending);
    }
  }

  // ---- how much is left to do ----

  function StageCost(s: Stage): nat {
    match s
    case Simulate => 1
    case Reads(keys, _) => 1 + 4 * |keys|
  }

  function Cost(script: seq<Stage>, from: nat): nat
    decreases |script| - from
  {
    if |script| <= from then 0 else StageCost(script[from]) + Cost(script, from + 1)
  }

  function Weight(t: Task): int {
    match t.status
    case Queued => 2 + Cost(t.script, 0)
    case Admitted => 2 + Cost(t.script, 0)
    case Running(stage, _) => 2 + Cost(t.script, stage + 1)
    case Fulfilled => 0
    case Failed(evicted) => if evicted then 0 else 1
  }

  ghost function Work(r: Reader): int {
    Sum(r.tasks, Weight)
  }

  lemma WorkNonNegative(r: Reader)
    ensures 0 <= Work(r)
  {
    SumCompare(r.tasks, None, Weight);
    SumNone(r.tasks);
  }

  // Passing a slot on changes a total only at the finished task.
  lemma FinishSum(r: Reader, id: nat, ok: bool, w: Task -> int)
    requires Fifo(r) && id < |r.tasks| && Holds(r.tasks[id]) && 0 < r.inFlight
    requires forall t: Task :: t.status.Queued? ==> w(t.(status := Admitted)) == w(t)
    ensures Sum(Finish(r, id, ok).tasks, w) ==
            Sum(r.tasks, w) - w(r.tasks[id]) + w(r.tasks[id].(status := if ok then Fulfilled else Failed(false)))
  {
    var t := r.tasks[id].(status := if ok then Fulfilled else Failed(false));
    SumUpdate(r.tasks, w, id, t);
    if r.queued != [] {
      var head, tasks := r.queued[0], r.tasks[id := t];
      assert tasks[head].status.Queued?;
      SumUpdate(tasks, w, head, tasks[head].(status := Admitted));
    }
  }

  lemma FinishWorks(r: Reader, id: nat, ok: bool)
    requires Fifo(r) && id < |r.tasks| && Holds(r.tasks[id]) && 0 < r.inFlight
    ensures Work(Finish(r, id, ok)) <= Work(r) - Weight(r.tasks[id]) + 1
    ensures Outers(Finish(r, id, ok)) <= Outers(r)
  {
    FinishSum(r, id, ok, Weight);
    FinishSum(r, id, ok, OuterPending);
  }

  lemma {:induction false} ReadsWork(r: Reader, keys: seq<Key>)
    requires LeavesOnly(keys)
    ensures Work(SessionReads(r, keys).0) <= Work(r) + 3 * |keys|
    ensures Outers(SessionReads(r, keys).0) == Outers(r)
    decreases |keys|
  {
    if keys != [] {
      assert Cost(LEAF, 0) == 1 + Cost(LEAF, 1) == 1;
      SumAppend(r.tasks, Weight, Task(keys[0], LEAF, Admitted));
      SumAppend(r.tasks, Weight, Task(keys[0], LEAF, Queued));
      SumAppend(r.tasks, OuterPending, Task(keys[0], LEAF, Admitted));
      SumAppend(r.tasks, OuterPending, Task(keys[0], LEAF, Queued));
      ReadsWork(SessionRead(r, keys[0], LEAF).0, keys[1..]);
    }
  }

  lemma {:induction false} EnterWorks(r: Reader, id: nat, stage: nat)
    requires Inv(r) && id < |r.tasks| && Holds(r.tasks[id]) && 0 < r.inFlight
    ensures Work(Enter(r, id, stage)) < Work(r) - Weight(r.tasks[id]) + 2 + Cost(r.tasks[id].script, stage)
    ensures Outers(Enter(r, id, stage)) <= Outers(r)
  {
    hide Sum, Finish, SessionReads, Slots, Keyed;
    var script := r.tasks[id].script;
    if |script| <= stage {
      FinishWorks(r, id, true);
    } else if script[stage].Simulate? {
      SumUpdate(r.tasks, Weight, id, r.tasks[id].(status := Running(stage, [])));
      SumUpdate(r.tasks, OuterPending, id, r.tasks[id].(status := Running(stage, [])));
    } else {
      var (next, ids) := SessionReads(r, script[stage].keys);
      ReadsWork(r, script[stage].keys);
      SessionReadsGrow(r, script[stage].keys);
      SumUpdate(next.tasks, Weight, id, next.tasks[id].(status := Running(stage, ids)));
      SumUpdate(next.tasks, OuterPending, id, next.tasks[id].(status := Running(stage, ids)));
    }
  }

  lemma NextWorks(r: Reader, e: Event)
    requires Inv(r) && Enabled(r, e)
    ensures !e.Evict? ==> 0 < r.inFlight && (r.queued != [] ==> r.queued[0] < |r.tasks|)
    ensures Work(Next(r, e)) < Work(r)
    ensures Outers(Next(r, e)) <= Outers(r)
  {
    if e.Evict? {
      SumUpdate(r.tasks, Weight, e.id, r.tasks[e.id].(status := Failed(true)));
      SumUpdate(r.tasks, OuterPending, e.id, r.tasks[e.id].(status := Failed(true)));
    } else {
      Steppable(r, e);
      FinishWorks(r, e.id, false);
      EnterWorks(r, e.id, if e.Start? then 0 else r.tasks[e.id].status.stage + 1);
    }
  }

  ghost predicate AllInternal(steps: seq<Step>) {
    forall i :: 0 <= i < |steps| ==> steps[i].Internal?
  }

  // From any reachable state with at most three outer reads outstanding, once no more reads are
  // asked for, only finitely many events can happen, and when none can, every read has completed.
  lemma {:induction false} EveryReadCompletes(r: Reader, steps: seq<Step>, to: Reader)
    requires Inv(r) && Outers(r) < MAX_CONCURRENT
    requires AllInternal(steps) && Reaches(r, steps, to)
    ensures Inv(to) && Outers(to) < MAX_CONCURRENT
    ensures |steps| <= Work(r) - Work(to) && |steps| <= Work(r)
    ensures Quiescent(to) ==> !AnyPending(to)
    decreases |steps|
  {
    if steps != [] {
      var n := |steps| - 1;
      var mid :| Reaches(r, steps[..n], mid) && Leads(mid, steps[n], to);
      EveryReadCompletes(r, steps[..n], mid);
      NextKeeps(mid, steps[n].event);
      NextWorks(mid, steps[n].event);
    }
    WorkNonNegative(to);
    if Quiescent(to) {
      ThreeOutersNeverStick(to);
    }
  }

  // ---- programmes read together ----

  lemma {:induction false} ReachesOneMore(from: Reader, steps: seq<Step>, mid: Reader, step: Step, to: Reader)
    requires Reaches(from, steps, mid) && Leads(mid, step, to)
    ensures Reaches(from, steps + [step], to)
  {
    assert (steps + [step])[..|steps|] == steps;
  }

  // `readProgrammeChain`: the phase, then the budget, then five figures together whose failure is
  // tolerated.
  function ChainRead(i: nat): seq<Stage> {
    [Reads([LeafKey(i, 0)], false),
     Reads([LeafKey(i, 1)], false),
     Reads([LeafKey(i, 2), LeafKey(i, 3), LeafKey(i, 4), LeafKey(i, 5), LeafKey(i, 6)], true)]
  }

  lemma ChainReadIsNested(i: nat, name: nat)
    ensures WellNested(OuterKey(name), ChainRead(i))
    ensures |ChainRead(i)| > 0 && ChainRead(i)[0] == Reads([LeafKey(i, 0)], false)
  {
  }

  // The idle layer after these programmes have been asked for, before anything has happened.
  function AskAll(ids: seq<nat>): Reader {
    if ids == [] then IDLE
    else SessionRead(AskAll(ids[..|ids| - 1]), OuterKey(ids[|ids| - 1]), ChainRead(ids[|ids| - 1])).0
  }

  function Asks(ids: seq<nat>): seq<Step> {
    if ids == [] then [] else Asks(ids[..|ids| - 1]) + [Ask(OuterKey(ids[|ids| - 1]), ChainRead(ids[|ids| - 1]))]
  }

  ghost predicate Distinct(ids: seq<nat>) {
    forall i, j :: 0 <= i < j < |ids| ==> ids[i] != ids[j]
  }

  // One task a programme, the first four admitted and the rest queued.
  ghost predicate JustAsked(r: Reader, ids: seq<nat>) {
    && Inv(r)
    && |r.tasks| == |ids|
    && r.inFlight == (if |ids| < MAX_CONCURRENT then |ids| else MAX_CONCURRENT)
    && forall i :: 0 <= i < |ids| ==>
         r.tasks[i] == Task(OuterKey(ids[i]), ChainRead(ids[i]), if i < MAX_CONCURRENT then Admitted else Queued)
  }

  lemma OneMoreTask(r: Reader, ids: seq<nat>, id: nat)
    requires JustAsked(r, ids) && OuterKey(id) !in r.settled
    ensures var next := SessionRead(r, OuterKey(id), ChainRead(id)).0;
            && |next.tasks| == |ids| + 1
            && next.inFlight == (if |ids| + 1 < MAX_CONCURRENT then |ids| + 1 else MAX_CONCURRENT)
            && next.tasks == r.tasks + [Task(OuterKey(id), ChainRead(id), if |ids| < MAX_CONCURRENT then Admitted else Queued)]
  {
    hide Inv, ChainRead;
  }

  lemma OneMoreAsked(r: Reader, ids: seq<nat>, id: nat)
    requires JustAsked(r, ids) && Distinct(ids + [id])
    ensures JustAsked(SessionRead(r, OuterKey(id), ChainRead(id)).0, ids + [id])
  {
    hide Inv, ChainRead, WellNested, SessionRead, Distinct;
    ChainReadIsNested(id, id);
    ReadKeeps(r, OuterKey(id), ChainRead(id));
    NotYetAsked(r, ids, id);
    OneMoreTask(r, ids, id);
  }

  lemma NotYetAsked(r: Reader, ids: seq<nat>, id: nat)
    requires JustAsked(r, ids) && Distinct(ids + [id])
    ensures OuterKey(id) !in r.settled
  {
    hide ChainRead, Slots, Fifo, Shaped;
    forall i | 0 <= i < |ids|
      ensures r.tasks[i].key != OuterKey(id)
    {
      assert (ids + [id])[i] == ids[i] && (ids + [id])[|ids|] == id;
    }
  }

  lemma {:induction false} AllAsked(ids: seq<nat>)
    requires Distinct(ids)
    ensures JustAsked(AskAll(ids), ids)
    ensures Reaches(IDLE, Asks(ids), AskAll(ids))
  {
    if ids != [] {
      var n := |ids| - 1;
      var before, id := ids[..n], ids[n];
      assert before + [id] == ids;
      AllAsked(before);
      hide JustAsked, ChainRead;
      OneMoreAsked(AskAll(before), before, id);
      ChainReadIsNested(id, id);
      ReachesOneMore(IDLE, Asks(before), AskAll(before), Ask(OuterKey(id), ChainRead(id)), AskAll(ids));
    }
  }

  // ---- from four on they stick ----

  // One of the four slots is held by a programme that has not begun, or waits for its phase.
  predicate Stalled(r: Reader, ids: seq<nat>, i: nat)
    requires i < |ids| && i < |r.tasks|
  {
    var status := r.tasks[i].status;
    || (status.Admitted? && LeafKey(ids[i], 0) !in r.settled)
    || (status.Running? && status.stage == 0 && |status.awaiting| == 1 && |ids| <= status.awaiting[0] < |r.tasks|)
  }

  // The first four hold every slot and everything else is queued.
  ghost predicate Jammed(r: Reader, ids: seq<nat>) {
    && Inv(r) && r.inFlight == MAX_CONCURRENT <= |ids| <= |r.tasks|
    && (forall i :: 0 <= i < |ids| ==> r.tasks[i].key == OuterKey(ids[i]) && r.tasks[i].script == ChainRead(ids[i]))
    && (forall i :: 0 <= i < MAX_CONCURRENT ==> Stalled(r, ids, i))
    && (forall i :: MAX_CONCURRENT <= i < |r.tasks| ==> r.tasks[i].status.Queued?)
  }

  lemma AskedIsJammed(r: Reader, ids: seq<nat>)
    requires JustAsked(r, ids) && MAX_CONCURRENT <= |ids|
    ensures Jammed(r, ids)
  {
    hide ChainRead, Slots, Fifo, Shaped;
  }

  // Nothing can happen but that one of the four begins.
  lemma JammedOnlyStarts(r: Reader, ids: seq<nat>, e: Event)
    requires Jammed(r, ids) && Enabled(r, e)
    ensures e.Start? && e.id < MAX_CONCURRENT && r.tasks[e.id].status.Admitted?
  {
    hide Inv;
    if e.id < MAX_CONCURRENT {
      assert Stalled(r, ids, e.id);
      ChainReadIsNested(ids[e.id], 0);
      hide ChainRead;
    }
  }

  lemma {:induction false} ReadingOne(r: Reader, key: Key)
    ensures SessionReads(r, [key]) == (SessionRead(r, key, LEAF).0, [SessionRead(r, key, LEAF).1])
  {
    var (first, id) := SessionRead(r, key, LEAF);
    var keys, none: seq<Key> := [key], [];
    assert keys[0] == key && keys[1..] == none;
    assert SessionReads(first, none) == (first, []);
    assert [id] + [] == [id];
  }

  // Slot i's programme waits for the read of `key`, which joins the queue behind everything.
  function Begun(r: Reader, key: Key, i: nat): Reader
    requires i < |r.tasks|
  {
    Reader(r.inFlight, r.queued + [|r.tasks|], r.settled[key := |r.tasks|],
           r.tasks[i := r.tasks[i].(status := Running(0, [|r.tasks|]))] + [Task(key, LEAF, Queued)])
  }

  lemma StartBegins(r: Reader, ids: seq<nat>, i: nat)
    requires Jammed(r, ids) && i < MAX_CONCURRENT && r.tasks[i].status.Admitted?
    requires r.queued != [] ==> r.queued[0] < |r.tasks|
    ensures Enter(r, i, 0) == Begun(r, LeafKey(ids[i], 0), i)
  {
    assert Stalled(r, ids, i);
    ChainReadIsNested(ids[i], 0);
    ReadingOne(r, LeafKey(ids[i], 0));
    hide ChainRead, Inv, SessionReads;
  }

  lemma BegunStalls(r: Reader, ids: seq<nat>, i: nat, j: nat)
    requires MAX_CONCURRENT <= |ids| <= |r.tasks| && Distinct(ids)
    requires i < MAX_CONCURRENT && j < MAX_CONCURRENT && Stalled(r, ids, j)
    ensures Stalled(Begun(r, LeafKey(ids[i], 0), i), ids, j)
  {
    if j < i {
      assert ids[j] != ids[i];
    } else if i < j {
      assert ids[i] != ids[j];
    }
    hide Distinct;
  }

  lemma BegunKeeps(r: Reader, ids: seq<nat>, i: nat)
    requires Jammed(r, ids) && Distinct(ids) && i < MAX_CONCURRENT
    requires Inv(Begun(r, LeafKey(ids[i], 0), i))
    ensures Jammed(Begun(r, LeafKey(ids[i], 0), i), ids)
  {
    hide Inv, ChainRead, Distinct, Stalled;
    forall j | 0 <= j < MAX_CONCURRENT
      ensures Stalled(Begun(r, LeafKey(ids[i], 0), i), ids, j)
    {
      BegunStalls(r, ids, i, j);
    }
  }

  lemma StartStaysJammed(r: Reader, ids: seq<nat>, i: nat)
    requires Jammed(r, ids) && Distinct(ids) && i < MAX_CONCURRENT && i < |r.tasks| && r.tasks[i].status.Admitted?
    requires 0 < r.inFlight && (r.queued != [] ==> r.queued[0] < |r.tasks|)
    requires Inv(Enter(r, i, 0))
    ensures Jammed(Enter(r, i, 0), ids)
  {
    hide Enter, Inv, Distinct, Begun;
    StartBegins(r, ids, i);
    BegunKeeps(r, ids, i);
  }

  lemma NextStaysJammed(r: Reader, ids: seq<nat>, e: Event)
    requires Jammed(r, ids) && Distinct(ids) && Enabled(r, e)
    ensures !e.Evict? ==> 0 < r.inFlight && (r.queued != [] ==> r.queued[0] < |r.tasks|)
    ensures Jammed(Next(r, e), ids)
  {
    JammedOnlyStarts(r, ids, e);
    NextKeeps(r, e);
    hide Jammed, Enter;
    JammedParts(r, ids);
    StartStaysJammed(r, ids, e.id);
  }

  lemma JammedParts(r: Reader, ids: seq<nat>)
    requires Jammed(r, ids)
    ensures Inv(r) && MAX_CONCURRENT <= |ids| <= |r.tasks|
  {
  }

  lemma {:induction false} RunStaysJammed(r: Reader, ids: seq<nat>, steps: seq<Step>, to: Reader)
    requires Jammed(r, ids) && Distinct(ids)
    requires AllInternal(steps) && Reaches(r, steps, to)
    ensures Jammed(to, ids)
    decreases |steps|
  {
    hide Jammed, Next, Enabled;
    if steps != [] {
      var n := |steps| - 1;
      var mid :| Reaches(r, steps[..n], mid) && Leads(mid, steps[n], to);
      RunStaysJammed(r, ids, steps[..n], mid);
      NextStaysJammed(mid, ids, steps[n].event);
    }
  }

  // Whatever happens comes to rest.
  lemma {:induction false} ComesToRest(r: Reader, steps: seq<Step>, from: Reader)
    requires Inv(r) && AllInternal(steps) && Reaches(from, steps, r)
    ensures exists more, to :: AllInternal(more) && Reaches(from, more, to) && Quiescent(to)
    decreases Work(r)
  {
    WorkNonNegative(r);
    if Quiescent(r) {
      assert AllInternal(steps) && Reaches(from, steps, r) && Quiescent(r);
    } else {
      var e :| Enabled(r, e);
      NextKeeps(r, e);
      NextWorks(r, e);
      hide Inv, Enabled, Next;
      WorkNonNegative(Next(r, e));
      ReachesOneMore(from, steps, r, Internal(e), Next(r, e));
      ComesToRest(Next(r, e), steps + [Internal(e)], from);
    }
  }

  function One(t: Task): int { 1 }

  lemma {:induction false} SumOnes(tasks: seq<Task>)
    ensures Sum(tasks, One) == |tasks|
  {
    if tasks != [] {
      SumOnes(tasks[..|tasks| - 1]);
    }
  }

  lemma FewOuters(r: Reader, ids: seq<nat>)
    requires JustAsked(r, ids)
    ensures Outers(r) <= |ids|
  {
    SumCompare(r.tasks, OuterPending, One);
    SumOnes(r.tasks);
  }

  // Four or more programmes asked for together never get anywhere: in no interleaving does any of
  // them, or any read they wait for, ever complete.
  lemma {:induction false} FourOutersStick(ids: seq<nat>, steps: seq<Step>, to: Reader)
    requires Distinct(ids) && MAX_CONCURRENT <= |ids|
    requires AllInternal(steps) && Reaches(AskAll(ids), steps, to)
    ensures |ids| <= |to.tasks|
    ensures forall i :: 0 <= i < |to.tasks| ==> Pending(to.tasks[i])
  {
    hide Jammed, JustAsked, AskAll, Reaches;
    AllAsked(ids);
    AskedIsJammed(AskAll(ids), ids);
    RunStaysJammed(AskAll(ids), ids, steps, to);
    JammedIsPending(to, ids);
  }

  lemma JammedIsPending(r: Reader, ids: seq<nat>)
    requires Jammed(r, ids)
    ensures |ids| <= |r.tasks|
    ensures forall i :: 0 <= i < |r.tasks| ==> Pending(r.tasks[i])
  {
    hide Inv, ChainRead;
    forall i | 0 <= i < |r.tasks|
      ensures Pending(r.tasks[i])
    {
      if i < MAX_CONCURRENT {
        assert Stalled(r, ids, i);
      }
    }
  }

  // Programmes asked for together all complete, in every interleaving, if and only if they are at most
  // three.
  lemma {:induction false} ChainReadsCompleteExactly(ids: seq<nat>)
    requires Distinct(ids)
    ensures (forall steps, to :: AllInternal(steps) && Reaches(AskAll(ids), steps, to) && Quiescent(to) ==>
              !AnyPending(to)) <==>
            |ids| <= 3
  {
    hide JustAsked, AskAll, Reaches, Quiescent, Inv;
    var r := AskAll(ids);
    AllAsked(ids);
    if |ids| <= 3 {
      FewOuters(r, ids);
      AskedIsSound(r, ids);
      forall steps, to | AllInternal(steps) && Reaches(r, steps, to) && Quiescent(to)
        ensures !AnyPending(to)
      {
        EveryReadCompletes(r, steps, to);
      }
    } else {
      AskedIsSound(r, ids);
      NoSteps(r);
      ComesToRest(r, [], r);
      var steps, to :| AllInternal(steps) && Reaches(r, steps, to) && Quiescent(to);
      FourOutersStick(ids, steps, to);
      assert Pending(to.tasks[0]);
    }
  }

  lemma AskedIsSound(r: Reader, ids: seq<nat>)
    requires JustAsked(r, ids)
    ensures Inv(r)
  {
  }

  lemma {:induction false} NoSteps(r: Reader)
    ensures AllInternal([]) && Reaches(r, [], r)
  {
  }
}
