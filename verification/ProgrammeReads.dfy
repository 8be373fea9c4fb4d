// The read layer: at most four reads hold a slot, one promise per key, and outer reads that keep
// their slot while they await reads of their own. One step is what runs between two awaits.
module ProgrammeReads {

  const MAX_CONCURRENT: nat := 4

  datatype Key = OuterKey(name: nat) | LeafKey(name: nat, figure: nat)

  // What a read does: ask the RPC itself, or read other keys together and await them all,
  // either failing with them or tolerating their failure.
  datatype Stage = Simulate | Reads(keys: seq<Key>, tolerant: bool)

  const LEAF: seq<Stage> := [Simulate]

  datatype Status =
    | Queued
    | Admitted
    | Running(stage: nat, awaiting: seq<nat>)
    | Fulfilled
    | Failed(evicted: bool)

  datatype Task = Task(key: Key, script: seq<Stage>, status: Status)

  // Tasks are numbered in the order they were asked for; `settled` maps a key to its promise.
  datatype Reader = Reader(inFlight: nat, queued: seq<nat>, settled: map<Key, nat>, tasks: seq<Task>)

  const IDLE := Reader(0, [], map[], [])

  // ---- steps, as functions of the reader ----

  function SetStatus(r: Reader, id: nat, status: Status): Reader
    requires id < |r.tasks|
  {
    r.(tasks := r.tasks[id := r.tasks[id].(status := status)])
  }

  // `sessionRead` up to its await: share the promise, or take a slot, or join the queue.
  function SessionRead(r: Reader, key: Key, script: seq<Stage>): (Reader, nat) {
    if key in r.settled then (r, r.settled[key])
    else
      var id := |r.tasks|;
      var settled := r.settled[key := id];
      if r.inFlight < MAX_CONCURRENT then
        (Reader(r.inFlight + 1, r.queued, settled, r.tasks + [Task(key, script, Admitted)]), id)
      else
        (Reader(r.inFlight, r.queued + [id], settled, r.tasks + [Task(key, script, Queued)]), id)
  }

  function SessionReads(r: Reader, keys: seq<Key>): (Reader, seq<nat>)
    decreases |keys|
  {
    if keys == [] then (r, [])
    else
      var (first, id) := SessionRead(r, keys[0], LEAF);
      var (last, ids) := SessionReads(first, keys[1..]);
      (last, [id] + ids)
  }

  // The `finally` of `admitted`: give the slot back and pass it to the head of the queue.
  function Finish(r: Reader, id: nat, ok: bool): Reader
    requires id < |r.tasks| && 0 < r.inFlight
    requires r.queued != [] ==> r.queued[0] < |r.tasks|
  {
    var done := SetStatus(r, id, if ok then Fulfilled else Failed(false)).(inFlight := r.inFlight - 1);
    if done.queued == [] then done
    else SetStatus(done, done.queued[0], Admitted).(queued := done.queued[1..], inFlight := done.inFlight + 1)
  }

  // Begin a stage of a task that holds a slot, or finish it after its last.
  function Enter(r: Reader, id: nat, stage: nat): Reader
    requires id < |r.tasks| && 0 < r.inFlight
    requires r.queued != [] ==> r.queued[0] < |r.tasks|
  {
    var script := r.tasks[id].script;
    if |script| <= stage then Finish(r, id, true)
    else
      match script[stage]
      case Simulate => SetStatus(r, id, Running(stage, []))
      case Reads(keys, _) =>
        SessionReadsGrow(r, keys);
        var (next, ids) := SessionReads(r, keys);
        SetStatus(next, id, Running(stage, ids))
  }

  lemma {:induction false} SessionReadsGrow(r: Reader, keys: seq<Key>)
    ensures var (next, ids) := SessionReads(r, keys);
            && |r.tasks| <= |next.tasks| && |ids| == |keys| && r.inFlight <= next.inFlight
            && forall i :: 0 <= i < |r.tasks| ==> next.tasks[i] == r.tasks[i]
    decreases |keys|
  {
    if keys != [] {
      SessionReadsGrow(SessionRead(r, keys[0], LEAF).0, keys[1..]);
    }
  }

  // Internal events: a slot's task starts, the RPC answers, awaited reads are all in, or a failed
  // read's entry is dropped.
  datatype Event = Start(id: nat) | Answer(id: nat, ok: bool) | Resume(id: nat) | Evict(id: nat)

  predicate Pending(t: Task) {
    t.status.Queued? || t.status.Admitted? || t.status.Running?
  }

  predicate Holds(t: Task) {
    t.status.Admitted? || t.status.Running?
  }

  predicate Awaits(t: Task) {
    t.status.Running? && t.status.stage < |t.script| && t.script[t.status.stage].Reads?
  }

  predicate AllIn(r: Reader, ids: seq<nat>) {
    forall j :: 0 <= j < |ids| ==> ids[j] < |r.tasks| && !Pending(r.tasks[ids[j]])
  }

  predicate AnyFailed(r: Reader, ids: seq<nat>) {
    exists j :: 0 <= j < |ids| && ids[j] < |r.tasks| && r.tasks[ids[j]].status.Failed?
  }

  predicate Enabled(r: Reader, e: Event) {
    && e.id < |r.tasks|
    && var t := r.tasks[e.id];
    match e
    case Start(_) => t.status.Admitted?
    case Answer(_, _) => t.status.Running? && t.status.stage < |t.script| && t.script[t.status.stage].Simulate?
    case Resume(_) => Awaits(t) && AllIn(r, t.status.awaiting)
    case Evict(_) => t.status == Failed(false)
  }

  function Next(r: Reader, e: Event): Reader
    requires Enabled(r, e)
    requires !e.Evict? ==> 0 < r.inFlight && (r.queued != [] ==> r.queued[0] < |r.tasks|)
  {
    var t := r.tasks[e.id];
    match e
    case Start(id) => Enter(r, id, 0)
    case Answer(id, ok) => if ok then Enter(r, id, t.status.stage + 1) else Finish(r, id, false)
    case Resume(id) =>
      if !t.script[t.status.stage].tolerant && AnyFailed(r, t.status.awaiting) then Finish(r, id, false)
      else Enter(r, id, t.status.stage + 1)
    case Evict(id) => SetStatus(r, id, Failed(true)).(settled := r.settled - {t.key})
  }

  // ---- the module's variables and functions ----

  class ReadLayer {
    var inFlight: nat
    var queued: seq<nat>
    var settled: map<Key, nat>
    var tasks: seq<Task>

    ghost function View(): Reader
      reads this
    {
      Reader(inFlight, queued, settled, tasks)
    }

    constructor ()
      ensures View() == IDLE
    {
      inFlight, queued, settled, tasks := 0, [], map[], [];
    }

    method Read(key: Key, script: seq<Stage>) returns (promise: nat)
      modifies this
      ensures (View(), promise) == SessionRead(old(View()), key, script)
    {
      if key in settled {
        return settled[key];
      }
      promise := |tasks|;
      if inFlight < MAX_CONCURRENT {
        inFlight := inFlight + 1;
        tasks := tasks + [Task(key, script, Admitted)];
      } else {
        queued := queued + [promise];
        tasks := tasks + [Task(key, script, Queued)];
      }
      settled := settled[key := promise];
    }

    method ReadTogether(keys: seq<Key>) returns (promises: seq<nat>)
      modifies this
      ensures (View(), promises) == SessionReads(old(View()), keys)
    {
      promises := [];
      var i := 0;
      ghost var all := SessionReads(View(), keys);
      assert keys[0..] == keys;
      while i < |keys|
        invariant 0 <= i <= |keys|
        invariant SessionReads(View(), keys[i..]).0 == all.0
        invariant promises + SessionReads(View(), keys[i..]).1 == all.1
      {
        ghost var before := View();
        assert keys[i..][0] == keys[i] && keys[i..][1..] == keys[i + 1..];
        var promise := Read(keys[i], LEAF);
        assert promises + SessionReads(before, keys[i..]).1 ==
               (promises + [promise]) + SessionReads(View(), keys[i + 1..]).1;
        promises := promises + [promise];
        i := i + 1;
      }
      assert promises + [] == promises;
    }

    method Release(id: nat, ok: bool)
      requires id < |tasks| && 0 < inFlight
      requires queued != [] ==> queued[0] < |tasks|
      modifies this
      ensures View() == Finish(old(View()), id, ok)
    {
      tasks := tasks[id := tasks[id].(status := if ok then Fulfilled else Failed(false))];
      inFlight := inFlight - 1;
      if |queued| > 0 {
        var next := queued[0];
        queued := queued[1..];
        inFlight := inFlight + 1;
        tasks := tasks[next := tasks[next].(status := Admitted)];
      }
    }

    method Forget(id: nat)
      requires id < |tasks| && tasks[id].status == Failed(false)
      modifies this
      ensures View() == Next(old(View()), Evict(id))
    {
      settled := settled - {tasks[id].key};
      tasks := tasks[id := tasks[id].(status := Failed(true))];
    }
  }
}
