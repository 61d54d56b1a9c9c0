// The scheduler of src/c/scheduler.c as a state machine.
module Scheduler {
  // Its thread runs the schedule at the front of the queue when it is due; the calls create, add, remove, reset and
  // delete schedules. One step is a critical section, split where the thread gives up the mutex around a callback.

  import opened Components

  type Id = nat

  const DEFAULT_WAKE: nat := 24 * 3600 * 1_000_000_000

  datatype Schedule = Schedule(
    period: nat,
    start: nat,
    repeat: nat,            // 0: no end
    scheduled: bool,
    concurrent: bool,
    sync: bool,
    refs: int,
    // what the fields stand for
    listed: bool,           // in one of the two maps, until it is deleted
    owned: bool,            // the owner's reference, until the deletion is complete
    running: nat,           // runs dispatched to a pool or a thread and not finished
    frees: nat,             // how often the memory has been freed
    everConcurrent: bool,
    visits: seq<nat>,       // the times of its due visits
    stayed: bool,           // queued again by its last due visit and not removed since
    initial: nat,           // the repetitions it was created with
    rounds: nat             // due visits that counted as repetitions
  )

  datatype Phase =
    | Between                                   // the thread is about to lock the mutex, or waits for the scheduler to run
    | Asleep(signalled: bool)                   // in the timed wait
    | InRun(current: Id)                        // in the run callback, mutex free
    | InAbort(current: Id)                      // in the abort callback, mutex free
    | Exited

  datatype State = State(
    schedules: map<Id, Schedule>,
    queue: map<nat, Id>,          // keyed by start
    idle: set<Id>,
    clock: nat,                   // the last time stamp handed out
    mode: Mode,
    wake: nat,                    // schd_time
    phase: Phase,
    fault: bool                   // a schedule was used after its memory was freed
  )

  function Init(now: nat): State {
    State(map[], map[], {}, now, Initial, now, Between, false)
  }

  // ---------------------------------------------------------------- the queue

  /** The collision loop of iot_schedule_queue_add: the least start from `start` on that is not taken. */
  function LeastFree(taken: set<nat>, start: nat): (free: nat)
    ensures start <= free && free !in taken
    ensures forall k :: start <= k < free ==> k in taken
    decreases |set k | k in taken && k >= start|
  {
    if start in taken then
      assert (set k | k in taken && k >= start) == (set k | k in taken && k >= start + 1) + {start};
      LeastFree(taken, start + 1)
    else start
  }

  method FindFree(queue: map<nat, Id>, start: nat) returns (free: nat)
    ensures free == LeastFree(queue.Keys, start)
  {
    free := start;
    while free in queue
      invariant LeastFree(queue.Keys, free) == LeastFree(queue.Keys, start)
      decreases LeastFree(queue.Keys, start) - free
    {
      free := free + 1;
    }
  }

  ghost predicate Least(queue: map<nat, Id>, k: nat) {
    k in queue && forall j :: j in queue ==> k <= j
  }

  lemma {:induction false} LeastExists(queue: map<nat, Id>)
    requires queue != map[]
    ensures exists k :: Least(queue, k)
    decreases |queue|
  {
    var j :| j in queue;
    var rest := queue - {j};
    if rest == map[] {
      forall i | i in queue ensures i == j { assert i != j ==> i in rest; }
      assert Least(queue, j);
    } else {
      assert queue.Keys == rest.Keys + {j};
      assert |queue.Keys| == |queue| && |rest.Keys| == |rest|;
      LeastExists(rest);
      var k :| Least(rest, k);
      var least := if j < k then j else k;
      forall i | i in queue ensures least <= i { assert i != j ==> i in rest; }
      assert Least(queue, least);
    }
  }

  /** The first key of the queue in its order. */
  ghost function LeastKey(queue: map<nat, Id>): (k: nat)
    requires queue != map[]
    ensures Least(queue, k)
  {
    LeastExists(queue);
    var k :| Least(queue, k);
    k
  }

  function Set(s: State, id: Id, x: Schedule): State {
    s.(schedules := s.schedules[id := x])
  }

  /** A use of the schedule's memory. */
  function Touch(s: State, id: Id): State
    requires id in s.schedules
  {
    s.(fault := s.fault || s.schedules[id].frees > 0)
  }

  function QueueAdd(s: State, id: Id): State
    requires id in s.schedules
  {
    var x := s.schedules[id];
    var start := LeastFree(s.queue.Keys, x.start);
    Set(s, id, x.(start := start, scheduled := true)).(queue := s.queue[start := id])
  }

  function QueueRemove(s: State, id: Id): State
    requires id in s.schedules
  {
    var x := s.schedules[id];
    Set(s, id, x.(scheduled := false)).(queue := s.queue - {x.start})
  }

  function IdleAdd(s: State, id: Id): State {
    s.(idle := s.idle + {id})
  }

  function IdleRemove(s: State, id: Id): State {
    s.(idle := s.idle - {id})
  }

  function UpdateStart(s: State, id: Id, start: nat): State
    requires id in s.schedules
  {
    Set(s, id, s.schedules[id].(start := start))
  }

  /** iot_schedule_free: the memory goes with the last reference. */
  function DecRef(x: Schedule): Schedule {
    x.(refs := x.refs - 1, frees := x.frees + if x.refs <= 1 then 1 else 0)
  }

  // ---------------------------------------------------------------- the calls

  function Create(s: State, id: Id, period: nat, delay: nat, repeat: nat, now: nat): State {
    var x := Schedule(period, now + delay, repeat, false, false, false, 1, true, true, 0, 0, false, [], false, repeat, 0);
    IdleAdd(Set(s, id, x), id).(clock := now)
  }

  /** pthread_cond_signal, if the thread is in its timed wait: a signal nobody waits for is lost. */
  function SignalIf(s: State, front: bool): State {
    if front && s.mode == Running && s.phase.Asleep? then s.(phase := Asleep(true)) else s
  }

  ghost predicate IsFront(s: State, id: Id) {
    s.queue != map[] && s.queue[LeastKey(s.queue)] == id
  }

  ghost function AddCall(s: State, id: Id): State
    requires id in s.schedules
  {
    if s.schedules[id].scheduled then s
    else
      var s' := QueueAdd(IdleRemove(s, id), id);
      SignalIf(s', IsFront(s', id))
  }

  /** Only for an idle schedule: the start of a queued one is its key. */
  ghost function AddRandomisedCall(s: State, id: Id, offset: nat, now: nat): State
    requires id in s.schedules && !s.schedules[id].scheduled
  {
    AddCall(UpdateStart(s, id, now + offset).(clock := now), id)
  }

  function RemoveCall(s: State, id: Id): State
    requires id in s.schedules
  {
    if s.schedules[id].scheduled then
      var s' := IdleAdd(QueueRemove(s, id), id);
      Set(s', id, s'.schedules[id].(stayed := false))
    else s
  }

  ghost function ResetCall(s: State, id: Id, delay: nat, now: nat): State
    requires id in s.schedules
  {
    var x := s.schedules[id];
    var next := x.period + now + delay;
    var t := s.(clock := now);
    if x.scheduled then
      var s' := QueueAdd(UpdateStart(QueueRemove(t, id), id, next), id);
      SignalIf(s', IsFront(s', id))
    else UpdateStart(t, id, next)
  }

  /** The critical section of iot_schedule_delete. */
  function DeleteCall(s: State, id: Id): State
    requires id in s.schedules
  {
    var s' := if s.schedules[id].scheduled then QueueRemove(s, id) else IdleRemove(s, id);
    Set(s', id, s'.schedules[id].(listed := false))
  }

  /** The end of iot_schedule_delete: the owner's reference goes. */
  function Release(s: State, id: Id): State
    requires id in s.schedules
  {
    Set(Touch(s, id), id, DecRef(s.schedules[id]).(owned := false))
  }

  /** The end of schedule_fn, in a pool or in a thread of its own. */
  function RunEnds(s: State, id: Id): State
    requires id in s.schedules && s.schedules[id].running > 0
  {
    Set(Touch(s, id), id, DecRef(s.schedules[id]).(running := s.schedules[id].running - 1))
  }

  function SetConcurrent(s: State, id: Id, enable: bool): State
    requires id in s.schedules
  {
    var x := s.schedules[id];
    if enable && x.sync then s
    else Set(s, id, x.(concurrent := enable, everConcurrent := x.everConcurrent || enable))
  }

  function SetSync(s: State, id: Id, enable: bool): State
    requires id in s.schedules
  {
    var x := s.schedules[id];
    if enable && x.concurrent then s else Set(s, id, x.(sync := enable))
  }

  /** iot_scheduler_start, iot_scheduler_stop and the deletion: the change is broadcast. */
  function ChangeMode(s: State, to: Mode): State {
    if Allowed(s.mode, to) then
      s.(mode := to, phase := if s.phase.Asleep? then Asleep(true) else s.phase)
    else s
  }

  // ---------------------------------------------------------------- the scheduler thread

  datatype Outcome = Accepted | Refused(abortCallback: bool)

  /** What the thread cannot decide itself: the time stamps it gets, whether there is a run callback, and
      whether the pool takes the run. */
  datatype Choice = Choice(t1: nat, t2: nat, t3: nat, runCallback: bool, outcome: Outcome)

  /** The time of the next wake-up, and the mutex is given up. */
  ghost function Close(s: State, ch: Choice): State {
    if s.queue != map[] then s.(wake := LeastKey(s.queue), phase := Between)
    else s.(wake := ch.t3 + DEFAULT_WAKE, clock := ch.t3, phase := Between)
  }

  /** The last repetition, of a schedule that is off the queue. */
  function Exhaust(s: State, id: Id): State
    requires id in s.schedules
  {
    IdleAdd(Set(s, id, Exhausted(s.schedules[id])), id)
  }

  function Exhausted(x: Schedule): Schedule {
    x.(rounds := x.rounds + 1, repeat := 0, stayed := false)
  }

  /** Any other repetition: one fewer to come, if they are limited, and a new start. */
  function Repeat(s: State, id: Id, now: nat): State
    requires id in s.schedules
  {
    QueueAdd(Set(s, id, Repeated(s.schedules[id], now)), id)
  }

  function Repeated(x: Schedule, now: nat): Schedule {
    x.(rounds := x.rounds + 1, repeat := if x.repeat > 0 then x.repeat - 1 else 0, start := x.period + now, stayed := true)
  }

  /** The next start of a schedule that is still queued, or idleness after its last repetition. */
  function Requeue(s: State, id: Id, ch: Choice): State
    requires id in s.schedules
  {
    var s' := QueueRemove(s, id).(clock := ch.t2);
    if s.schedules[id].repeat == 1 then Exhaust(s', id) else Repeat(s', id, ch.t2)
  }

  ghost function EndVisit(s: State, id: Id, valid: bool, ch: Choice): State
    requires id in s.schedules
  {
    Close(if valid then Requeue(Touch(s, id), id, ch) else s, ch)
  }

  /** The run was not taken: its reference is dropped again. */
  ghost function Refuse(s: State, id: Id, ch: Choice): State
    requires id in s.schedules
  {
    var x := s.schedules[id];
    EndVisit(Drop(s, id), id, x.refs > 1 && x.scheduled, ch)
  }

  /** The reference taken for the run is dropped. */
  function Drop(s: State, id: Id): State
    requires id in s.schedules
  {
    Set(Touch(s, id), id, DecRef(s.schedules[id]))
  }

  /** The reference taken for the run goes to the run. */
  function HandOver(s: State, id: Id): State
    requires id in s.schedules
  {
    Set(Touch(s, id), id, s.schedules[id].(running := s.schedules[id].running + 1))
  }

  /** The run itself: by this thread, with the mutex held, or by a pool or another thread. */
  ghost function Dispatch(s: State, id: Id, valid: bool, ch: Choice): State
    requires id in s.schedules
  {
    var x := s.schedules[id];
    if x.sync then EndVisit(Drop(s, id), id, valid, ch)
    else if ch.outcome.Accepted? then EndVisit(HandOver(s, id), id, valid, ch)
    else if ch.outcome.abortCallback then Touch(s, id).(phase := InAbort(id))
    else Refuse(s, id, ch)
  }

  function Visited(x: Schedule, now: nat): Schedule {
    x.(visits := x.visits + [now], stayed := false)
  }

  function Skip(s: State, id: Id, now: nat): State
    requires id in s.schedules
  {
    Set(Touch(s, id).(clock := now), id, Visited(s.schedules[id], now))
  }

  function Take(s: State, id: Id, now: nat): State
    requires id in s.schedules
  {
    var x := Visited(s.schedules[id], now);
    Set(Touch(s, id).(clock := now), id, x.(refs := x.refs + 1))
  }

  /** The schedule at the front is due; it is skipped if it still runs and is not concurrent. */
  ghost function Due(s: State, id: Id, ch: Choice): State
    requires id in s.schedules
  {
    var x := s.schedules[id];
    if x.concurrent || x.refs == 1 then
      if ch.runCallback then Take(s, id, ch.t1).(phase := InRun(id)) else Dispatch(Take(s, id, ch.t1), id, true, ch)
    else EndVisit(Skip(s, id, ch.t1), id, true, ch)
  }

  /** The thread comes out of the timed wait. */
  ghost function Awake(s: State, ch: Choice): State
    requires s.queue != map[] ==> s.queue[LeastKey(s.queue)] in s.schedules
  {
    if s.mode != Running then s.(phase := if s.mode == Deleted then Exited else Between)
    else if s.queue == map[] then Close(s, ch)
    else
      var id := s.queue[LeastKey(s.queue)];
      if s.schedules[id].start < ch.t1 then Due(s, id, ch)
      else Close(Touch(s, id).(clock := ch.t1), ch)
  }

  /** The thread has the mutex again after the run callback. */
  ghost function AfterRun(s: State, id: Id, ch: Choice): State
    requires id in s.schedules
  {
    Dispatch(Touch(s, id), id, s.schedules[id].scheduled, ch)
  }

  /** The schedule whose callback the thread is in. */
  function Flying(phase: Phase): set<Id> {
    match phase
    case InRun(id) => {id}
    case InAbort(id) => {id}
    case _ => {}
  }

  datatype Action =
    | DoCreate(id: Id, period: nat, delay: nat, repeat: nat, now: nat)
    | DoAdd(id: Id)
    | DoAddRandomised(id: Id, offset: nat, now: nat)
    | DoRemove(id: Id)
    | DoReset(id: Id, delay: nat, now: nat)
    | DoDelete(id: Id)
    | DoRelease(id: Id)
    | DoRunEnds(id: Id)
    | DoSetConcurrent(id: Id, enable: bool)
    | DoSetSync(id: Id, enable: bool)
    | DoChangeMode(to: Mode)
    | ThreadLocks
    | ThreadWakes(ch: Choice)
    | ThreadAfterRun(ch: Choice)
    | ThreadAfterAbort(ch: Choice)

  /** Time stamps come from Clock: each is later than the one before. */
  predicate Later(clock: nat, ch: Choice) {
    clock < ch.t1 < ch.t2 < ch.t3
  }

  /** Calls are made on schedules that have not been deleted. */
  ghost predicate Enabled(s: State, a: Action) {
    match a
    case DoCreate(id, _, _, _, now) => id !in s.schedules && s.clock < now
    case DoAdd(id) => Live(s, id)
    case DoAddRandomised(id, _, now) => Live(s, id) && !s.schedules[id].scheduled && s.clock < now
    case DoRemove(id) => Live(s, id)
    case DoReset(id, _, now) => Live(s, id) && s.clock < now
    case DoDelete(id) => Live(s, id)
    case DoRelease(id) => id in s.schedules && !s.schedules[id].listed && s.schedules[id].owned
    case DoRunEnds(id) => id in s.schedules && s.schedules[id].running > 0
    case DoSetConcurrent(id, _) => Live(s, id)
    case DoSetSync(id, _) => Live(s, id)
    case DoChangeMode(_) => true
    case ThreadLocks => s.phase.Between? && (s.mode == Running || s.mode == Deleted)
    case ThreadWakes(ch) => s.phase.Asleep? && Later(s.clock, ch)
    case ThreadAfterRun(ch) => s.phase.InRun? && Later(s.clock, ch)
    case ThreadAfterAbort(ch) => s.phase.InAbort? && Later(s.clock, ch)
  }

  predicate Live(s: State, id: Id) {
    id in s.schedules && s.schedules[id].listed
  }

  /** What the steps rely on: every name refers to a schedule. */
  ghost predicate Closed(s: State) {
    && (forall k :: k in s.queue ==> s.queue[k] in s.schedules)
    && (forall id :: id in Flying(s.phase) ==> id in s.schedules)
  }

  ghost function Next(s: State, a: Action): State
    requires Enabled(s, a) && Closed(s)
  {
    match a
    case DoCreate(id, period, delay, repeat, now) => Create(s, id, period, delay, repeat, now)
    case DoAdd(id) => AddCall(s, id)
    case DoAddRandomised(id, offset, now) => AddRandomisedCall(s, id, offset, now)
    case DoRemove(id) => RemoveCall(s, id)
    case DoReset(id, delay, now) => ResetCall(s, id, delay, now)
    case DoDelete(id) => DeleteCall(s, id)
    case DoRelease(id) => Release(s, id)
    case DoRunEnds(id) => RunEnds(s, id)
    case DoSetConcurrent(id, enable) => SetConcurrent(s, id, enable)
    case DoSetSync(id, enable) => SetSync(s, id, enable)
    case DoChangeMode(to) => ChangeMode(s, to)
    case ThreadLocks => s.(phase := if s.mode == Deleted then Exited else Asleep(false))
    case ThreadWakes(ch) => Awake(s, ch)
    case ThreadAfterRun(ch) => AfterRun(s, s.phase.current, ch)
    case ThreadAfterAbort(ch) => Refuse(s, s.phase.current, ch)
  }

  // ---------------------------------------------------------------- where the schedules are

  /** Each schedule that has not been deleted is in exactly one map: queued under its start if it is
      scheduled, idle otherwise. */
  ghost predicate Home(s: State, id: Id)
    requires id in s.schedules
  {
    var x := s.schedules[id];
    && (x.scheduled ==> x.listed && x.start in s.queue && s.queue[x.start] == id)
    && (id in s.idle <==> x.listed && !x.scheduled)
    && (x.stayed && x.listed ==> x.scheduled)
  }

  ghost predicate InQueue(s: State, k: nat)
    requires k in s.queue
  {
    && s.queue[k] in s.schedules
    && s.schedules[s.queue[k]].scheduled && s.schedules[s.queue[k]].start == k
  }

  ghost predicate Placed(s: State) {
    && (forall id :: id in s.schedules ==> Home(s, id))
    && (forall k :: k in s.queue ==> InQueue(s, k))
    && (forall id :: id in s.idle ==> id in s.schedules)
  }

  /** The schedule is in neither map for the moment; all others are where they belong. */
  ghost predicate PlacedBut(s: State, but: Id) {
    && but in s.schedules && !s.schedules[but].scheduled && but !in s.idle
    && (forall id :: id in s.schedules && id != but ==> Home(s, id))
    && (forall k :: k in s.queue ==> InQueue(s, k) && s.queue[k] != but)
    && (forall id :: id in s.idle ==> id in s.schedules)
  }

  lemma TakeOffQueue(s: State, id: Id)
    requires Placed(s) && id in s.schedules && s.schedules[id].scheduled
    ensures PlacedBut(QueueRemove(s, id), id)
  {
    assert Home(s, id);
    var s' := QueueRemove(s, id);
    forall k | k in s'.queue ensures InQueue(s', k) && s'.queue[k] != id {
      assert InQueue(s, k);
    }
    forall i | i in s'.schedules && i != id ensures Home(s', i) {
      assert Home(s, i);
    }
  }

  lemma TakeOffIdle(s: State, id: Id)
    requires Placed(s) && id in s.schedules && !s.schedules[id].scheduled
    ensures PlacedBut(IdleRemove(s, id), id)
  {
    var s' := IdleRemove(s, id);
    forall k | k in s'.queue ensures InQueue(s', k) && s'.queue[k] != id {
      assert InQueue(s, k);
    }
    forall i | i in s'.schedules && i != id ensures Home(s', i) {
      assert Home(s, i);
    }
  }

  lemma PutOnQueue(s: State, id: Id)
    requires PlacedBut(s, id) && s.schedules[id].listed
    ensures Placed(QueueAdd(s, id))
  {
    var s' := QueueAdd(s, id);
    hide LeastFree;
    forall k | k in s'.queue ensures InQueue(s', k) {
      if k in s.queue { assert InQueue(s, k) && s.queue[k] != id; }
    }
    forall i | i in s'.schedules ensures Home(s', i) {
      if i != id { assert Home(s, i); }
    }
  }

  lemma PutOnIdle(s: State, id: Id)
    requires PlacedBut(s, id) && s.schedules[id].listed && !s.schedules[id].stayed
    ensures Placed(IdleAdd(s, id))
  {
    var s' := IdleAdd(s, id);
    forall k | k in s'.queue ensures InQueue(s', k) {
      assert InQueue(s, k);
    }
    forall i | i in s'.schedules ensures Home(s', i) {
      if i != id { assert Home(s, i); }
    }
  }

  lemma Unlist(s: State, id: Id)
    requires PlacedBut(s, id)
    ensures Placed(Set(s, id, s.schedules[id].(listed := false)))
  {
    var s' := Set(s, id, s.schedules[id].(listed := false));
    forall k | k in s'.queue ensures InQueue(s', k) {
      assert InQueue(s, k);
    }
    forall i | i in s'.schedules ensures Home(s', i) {
      if i != id { assert Home(s, i); }
    }
  }

  /** Fields that do not decide where a schedule is. */
  predicate SamePlace(x: Schedule, y: Schedule) {
    y.start == x.start && y.scheduled == x.scheduled && y.listed == x.listed && (y.stayed ==> x.stayed || y.scheduled)
  }

  lemma SetKeepsPlaces(s: State, id: Id, y: Schedule)
    requires Placed(s) && id in s.schedules && SamePlace(s.schedules[id], y)
    ensures Placed(Set(s, id, y))
  {
    var s' := Set(s, id, y);
    assert Home(s, id);
    forall k | k in s'.queue ensures InQueue(s', k) {
      assert InQueue(s, k);
    }
    forall i | i in s'.schedules ensures Home(s', i) {
      assert Home(s, i);
    }
  }

  lemma SetKeepsPlacesBut(s: State, id: Id, y: Schedule)
    requires PlacedBut(s, id) && !y.scheduled
    ensures PlacedBut(Set(s, id, y), id)
  {
    var s' := Set(s, id, y);
    forall k | k in s'.queue ensures InQueue(s', k) && s'.queue[k] != id {
      assert InQueue(s, k);
    }
    forall i | i in s'.schedules && i != id ensures Home(s', i) {
      assert Home(s, i);
    }
  }

  lemma SameMaps(s: State, s': State, id: Id)
    requires s'.schedules == s.schedules && s'.queue == s.queue && s'.idle == s.idle
    ensures Placed(s) ==> Placed(s')
    ensures PlacedBut(s, id) ==> PlacedBut(s', id)
  {
    if Placed(s) {
      forall i | i in s'.schedules ensures Home(s', i) { assert Home(s, i); }
      forall k | k in s'.queue ensures InQueue(s', k) { assert InQueue(s, k); }
    }
    if PlacedBut(s, id) {
      forall i | i in s'.schedules && i != id ensures Home(s', i) { assert Home(s, i); }
      forall k | k in s'.queue ensures InQueue(s', k) && s'.queue[k] != id { assert InQueue(s, k); }
    }
  }

  // ---------------------------------------------------------------- references, times and repetitions

  function One(b: bool): int {
    if b then 1 else 0
  }

  /** The references of a schedule are its owner's and one for each run under way; `flying` says that the
      scheduler thread holds one in a callback. Its memory is freed when the last is gone, once. */
  predicate Counted(x: Schedule, flying: bool) {
    && x.refs == One(x.owned) + x.running + One(flying)
    && x.frees == (if x.refs == 0 then 1 else 0)
    && (x.listed ==> x.owned)
    && (x.scheduled ==> x.listed)
    && (x.concurrent ==> x.everConcurrent)
    && (!x.everConcurrent ==> x.running + One(flying) <= 1)
  }

  predicate Timed(x: Schedule, clock: nat) {
    && (x.visits != [] ==> x.visits[|x.visits| - 1] <= clock)
    && (x.stayed ==> x.visits != [] && x.start > x.visits[|x.visits| - 1] + x.period)
  }

  predicate Repeats(x: Schedule) {
    x.repeat == if x.rounds < x.initial then x.initial - x.rounds else 0
  }

  predicate Sound(x: Schedule, flying: bool, clock: nat) {
    Counted(x, flying) && Timed(x, clock) && Repeats(x) && (flying ==> x.visits != [])
  }

  ghost predicate Accounted(s: State, fly: set<Id>) {
    && (forall id :: id in s.schedules ==> Sound(s.schedules[id], id in fly, s.clock))
    && (forall id :: id in fly ==> id in s.schedules)
    && !s.fault
  }

  lemma SetAccounted(s: State, id: Id, y: Schedule, fly: set<Id>, fly': set<Id>)
    requires Accounted(s, fly) && Sound(y, id in fly', s.clock)
    requires fly' == fly + {id} || fly' == fly - {id} || fly' == fly
    ensures Accounted(Set(s, id, y), fly')
  {
    hide Sound;
  }

  lemma MapsAccounted(s: State, s': State, fly: set<Id>)
    requires Accounted(s, fly) && s'.schedules == s.schedules && s'.clock >= s.clock && s'.fault == s.fault
    ensures Accounted(s', fly)
  {
    forall id | id in s'.schedules ensures Sound(s'.schedules[id], id in fly, s'.clock) {
      assert Sound(s.schedules[id], id in fly, s.clock);
    }
  }

  lemma TouchIsSafe(s: State, id: Id, fly: set<Id>)
    requires Accounted(s, fly) && id in s.schedules && s.schedules[id].refs > 0
    ensures Touch(s, id) == s
  {
    assert Sound(s.schedules[id], id in fly, s.clock);
  }

  ghost predicate Invariant(s: State, fly: set<Id>) {
    Placed(s) && Accounted(s, fly)
  }

  ghost predicate InvariantBut(s: State, id: Id, fly: set<Id>) {
    PlacedBut(s, id) && Accounted(s, fly)
  }

  lemma QueueRemoveKeeps(s: State, id: Id, fly: set<Id>)
    requires Invariant(s, fly) && id in s.schedules && s.schedules[id].scheduled
    ensures InvariantBut(QueueRemove(s, id), id, fly)
  {
    var y := s.schedules[id].(scheduled := false);
    TakeOffQueue(s, id);
    assert Sound(s.schedules[id], id in fly, s.clock);
    SetAccounted(s, id, y, fly, fly);
    hide Placed, PlacedBut, Sound;
    MapsAccounted(Set(s, id, y), QueueRemove(s, id), fly);
  }

  lemma SoundQueued(x: Schedule, start: nat, flying: bool, clock: nat)
    requires Sound(x, flying, clock) && x.listed && start >= x.start
    ensures Sound(x.(start := start, scheduled := true), flying, clock)
  {
  }

  lemma QueueAddKeeps(s: State, id: Id, fly: set<Id>)
    requires InvariantBut(s, id, fly) && s.schedules[id].listed
    ensures Invariant(QueueAdd(s, id), fly)
    ensures QueueAdd(s, id).schedules[id].start >= s.schedules[id].start
  {
    var x := s.schedules[id];
    var start := LeastFree(s.queue.Keys, x.start);
    var y := x.(start := start, scheduled := true);
    PutOnQueue(s, id);
    var u := Set(s, id, y);
    assert QueueAdd(s, id) == u.(queue := s.queue[start := id]);
    hide Placed, PlacedBut, LeastFree, QueueAdd, Sound;
    SoundQueued(x, start, id in fly, s.clock);
    SetAccounted(s, id, y, fly, fly);
    hide Accounted;
    MapsAccounted(u, QueueAdd(s, id), fly);
  }

  /** The start is more than a period after the last due visit. */
  predicate PastPeriod(x: Schedule, start: nat) {
    x.visits != [] ==> start > x.visits[|x.visits| - 1] + x.period
  }

  lemma UpdateStartKeeps(s: State, id: Id, start: nat, fly: set<Id>)
    requires InvariantBut(s, id, fly)
    requires PastPeriod(s.schedules[id], start)
    ensures InvariantBut(UpdateStart(s, id, start), id, fly)
  {
    var y := s.schedules[id].(start := start);
    SetKeepsPlacesBut(s, id, y);
    assert Sound(s.schedules[id], id in fly, s.clock);
    SetAccounted(s, id, y, fly, fly);
  }

  lemma SetKeeps(s: State, id: Id, y: Schedule, fly: set<Id>, fly': set<Id>)
    requires Invariant(s, fly) && id in s.schedules
    requires SamePlace(s.schedules[id], y) && Sound(y, id in fly', s.clock)
    requires fly' == fly + {id} || fly' == fly - {id} || fly' == fly
    ensures Invariant(Set(s, id, y), fly')
  {
    SetKeepsPlaces(s, id, y);
    SetAccounted(s, id, y, fly, fly');
  }

  /** Nothing but the time, the mode and the thread's own fields changes. */
  lemma RestKeeps(s: State, s': State, id: Id, fly: set<Id>)
    requires s'.schedules == s.schedules && s'.queue == s.queue && s'.idle == s.idle
    requires s'.clock >= s.clock && s'.fault == s.fault
    ensures Invariant(s, fly) ==> Invariant(s', fly)
    ensures InvariantBut(s, id, fly) ==> InvariantBut(s', id, fly)
  {
    SameMaps(s, s', id);
    if Accounted(s, fly) { MapsAccounted(s, s', fly); }
  }

  lemma IdleRemoveKeeps(s: State, id: Id, fly: set<Id>)
    requires Invariant(s, fly) && id in s.schedules && !s.schedules[id].scheduled
    ensures InvariantBut(IdleRemove(s, id), id, fly)
  {
    TakeOffIdle(s, id);
    MapsAccounted(s, IdleRemove(s, id), fly);
  }

  lemma IdleAddKeeps(s: State, id: Id, fly: set<Id>)
    requires InvariantBut(s, id, fly) && s.schedules[id].listed && !s.schedules[id].stayed
    ensures Invariant(IdleAdd(s, id), fly)
  {
    PutOnIdle(s, id);
    MapsAccounted(s, IdleAdd(s, id), fly);
  }

  // ---------------------------------------------------------------- the calls keep it

  lemma CreateKeeps(s: State, id: Id, period: nat, delay: nat, repeat: nat, now: nat, fly: set<Id>)
    requires Invariant(s, fly) && id !in s.schedules && s.clock < now
    ensures Invariant(Create(s, id, period, delay, repeat, now), fly)
  {
    var s' := Create(s, id, period, delay, repeat, now);
    forall i | i in s'.schedules ensures Home(s', i) && Sound(s'.schedules[i], i in fly, now) {
      if i != id { assert Home(s, i) && Sound(s.schedules[i], i in fly, s.clock); }
    }
    forall k | k in s'.queue ensures InQueue(s', k) { assert InQueue(s, k); }
  }

  lemma SignalKeeps(s: State, front: bool, fly: set<Id>)
    requires Invariant(s, fly)
    ensures Invariant(SignalIf(s, front), fly)
  {
    hide Invariant;
    RestKeeps(s, SignalIf(s, front), 0, fly);
  }

  lemma AddKeeps(s: State, id: Id, fly: set<Id>)
    requires Invariant(s, fly) && Live(s, id)
    ensures Invariant(AddCall(s, id), fly)
  {
    hide Invariant, InvariantBut, QueueAdd, IsFront, SignalIf;
    if !s.schedules[id].scheduled {
      IdleRemoveKeeps(s, id, fly);
      QueueAddKeeps(IdleRemove(s, id), id, fly);
      var u := QueueAdd(IdleRemove(s, id), id);
      SignalKeeps(u, IsFront(u, id), fly);
    }
  }

  /** A schedule that was not queued again by its last visit may start at any time. */
  lemma StayedOnlyWhenScheduled(s: State, id: Id, fly: set<Id>)
    requires Invariant(s, fly) && Live(s, id)
    ensures s.schedules[id].stayed ==> s.schedules[id].scheduled
    ensures Sound(s.schedules[id], id in fly, s.clock)
  {
    assert Home(s, id);
  }

  lemma SetKeepsBut(s: State, id: Id, y: Schedule, fly: set<Id>)
    requires InvariantBut(s, id, fly) && !y.scheduled && Sound(y, id in fly, s.clock)
    ensures InvariantBut(Set(s, id, y), id, fly)
  {
    SetKeepsPlacesBut(s, id, y);
    SetAccounted(s, id, y, fly, fly);
  }

  lemma SoundBut(s: State, id: Id, fly: set<Id>)
    requires InvariantBut(s, id, fly)
    ensures Sound(s.schedules[id], id in fly, s.clock) && id in s.schedules && !s.schedules[id].scheduled
  {
  }

  lemma AddRandomisedKeeps(s: State, id: Id, offset: nat, now: nat, fly: set<Id>)
    requires Invariant(s, fly) && Live(s, id) && !s.schedules[id].scheduled && s.clock < now
    ensures Invariant(AddRandomisedCall(s, id, offset, now), fly)
  {
    var u := UpdateStart(s, id, now + offset);
    StartIdleKeeps(s, id, now + offset, fly);
    assert AddRandomisedCall(s, id, offset, now) == AddCall(u.(clock := now), id);
    assert Live(u.(clock := now), id);
    hide *;
    RestKeeps(u, u.(clock := now), id, fly);
    AddKeeps(u.(clock := now), id, fly);
  }

  /** An idle schedule may be given any start. */
  lemma StartIdleKeeps(s: State, id: Id, start: nat, fly: set<Id>)
    requires Invariant(s, fly) && Live(s, id) && !s.schedules[id].scheduled
    ensures Invariant(UpdateStart(s, id, start), fly)
  {
    StayedOnlyWhenScheduled(s, id, fly);
    assert id in s.idle by { assert Home(s, id); }
    var x := s.schedules[id];
    var y := x.(start := start);
    var u := IdleRemove(s, id);
    hide Invariant, InvariantBut, Sound;
    SoundStart(x, start, id in fly, s.clock);
    IdleRemoveKeeps(s, id, fly);
    SetKeepsBut(u, id, y, fly);
    IdleAddKeeps(Set(u, id, y), id, fly);
    assert s.idle - {id} + {id} == s.idle;
    assert UpdateStart(s, id, start) == IdleAdd(Set(u, id, y), id);
  }

  lemma SoundStart(x: Schedule, start: nat, flying: bool, clock: nat)
    requires Sound(x, flying, clock)
    requires !x.stayed || start > x.visits[|x.visits| - 1] + x.period
    ensures Sound(x.(start := start), flying, clock)
  {
  }

  lemma SoundApart(x: Schedule, flying: bool, clock: nat)
    requires Sound(x, flying, clock)
    ensures Sound(x.(stayed := false), flying, clock)
    ensures Sound(x.(scheduled := false), flying, clock)
    ensures Sound(x.(scheduled := false, stayed := false), flying, clock)
  {
  }

  lemma RemoveKeeps(s: State, id: Id, fly: set<Id>)
    requires Invariant(s, fly) && Live(s, id)
    ensures Invariant(RemoveCall(s, id), fly)
  {
    hide Invariant, InvariantBut, Sound;
    if s.schedules[id].scheduled {
      QueueRemoveKeeps(s, id, fly);
      var u := QueueRemove(s, id);
      var y := u.schedules[id].(stayed := false);
      SoundBut(u, id, fly);
      SoundApart(u.schedules[id], id in fly, u.clock);
      SetKeepsBut(u, id, y, fly);
      IdleAddKeeps(Set(u, id, y), id, fly);
      assert RemoveCall(s, id) == IdleAdd(Set(u, id, y), id);
    }
  }

  lemma ResetQueuedKeeps(s: State, id: Id, next: nat, fly: set<Id>)
    requires Invariant(s, fly) && Live(s, id) && s.schedules[id].scheduled
    requires PastPeriod(s.schedules[id], next)
    ensures Invariant(QueueAdd(UpdateStart(QueueRemove(s, id), id, next), id), fly)
  {
    StayedOnlyWhenScheduled(s, id, fly);
    var u := QueueRemove(s, id);
    assert u.schedules[id] == s.schedules[id].(scheduled := false);
    hide Invariant, InvariantBut, QueueAdd, QueueRemove;
    QueueRemoveKeeps(s, id, fly);
    UpdateStartKeeps(u, id, next, fly);
    QueueAddKeeps(UpdateStart(u, id, next), id, fly);
  }

  lemma ResetUnfolds(s: State, id: Id, delay: nat, now: nat)
    requires Live(s, id)
    ensures var x, t := s.schedules[id], s.(clock := now);
      var next := x.period + now + delay;
      var u := QueueAdd(UpdateStart(QueueRemove(t, id), id, next), id);
      && id in QueueRemove(t, id).schedules && id in UpdateStart(QueueRemove(t, id), id, next).schedules
      && ResetCall(s, id, delay, now) == (if x.scheduled then SignalIf(u, IsFront(u, id)) else UpdateStart(t, id, next))
      && Live(t, id)
  {
  }

  lemma ResetIsPast(s: State, id: Id, delay: nat, now: nat, fly: set<Id>)
    requires Invariant(s, fly) && Live(s, id) && s.clock < now
    ensures PastPeriod(s.schedules[id], s.schedules[id].period + now + delay)
  {
    StayedOnlyWhenScheduled(s, id, fly);
  }

  lemma LiveIsThere(s: State, id: Id)
    requires Live(s, id)
    ensures id in s.schedules
  {
  }

  lemma ResetKeeps(s: State, id: Id, delay: nat, now: nat, fly: set<Id>)
    requires Invariant(s, fly) && Live(s, id) && s.clock < now
    ensures Invariant(ResetCall(s, id, delay, now), fly)
  {
    hide *;
    LiveIsThere(s, id);
    var x := s.schedules[id];
    var next := x.period + now + delay;
    var t := s.(clock := now);
    ResetUnfolds(s, id, delay, now);
    ResetIsPast(s, id, delay, now, fly);
    var u := QueueAdd(UpdateStart(QueueRemove(t, id), id, next), id);
    RestKeeps(s, t, id, fly);
    if x.scheduled {
      ResetQueuedKeeps(t, id, next, fly);
      SignalKeeps(u, IsFront(u, id), fly);
    } else {
      StartIdleKeeps(t, id, next, fly);
    }
  }

  lemma UnlistKeeps(s: State, id: Id, fly: set<Id>)
    requires InvariantBut(s, id, fly)
    ensures Invariant(Set(s, id, s.schedules[id].(listed := false)), fly)
  {
    Unlist(s, id);
    hide Placed, PlacedBut;
    assert Sound(s.schedules[id], id in fly, s.clock);
    SetAccounted(s, id, s.schedules[id].(listed := false), fly, fly);
  }

  lemma DeleteKeeps(s: State, id: Id, fly: set<Id>)
    requires Invariant(s, fly) && Live(s, id)
    ensures Invariant(DeleteCall(s, id), fly)
  {
    hide Invariant, InvariantBut, QueueRemove, IdleRemove;
    if s.schedules[id].scheduled {
      QueueRemoveKeeps(s, id, fly);
      UnlistKeeps(QueueRemove(s, id), id, fly);
    } else {
      IdleRemoveKeeps(s, id, fly);
      UnlistKeeps(IdleRemove(s, id), id, fly);
    }
  }

  lemma SoundOf(s: State, id: Id, fly: set<Id>)
    requires Invariant(s, fly) && id in s.schedules
    ensures Sound(s.schedules[id], id in fly, s.clock) && Accounted(s, fly)
  {
  }

  /** What dropping a reference does to the accounts, whoever held it. */
  lemma SoundDrop(x: Schedule, flying: bool, clock: nat)
    requires Sound(x, flying, clock)
    ensures !x.listed && x.owned ==> Sound(DecRef(x).(owned := false), flying, clock)
    ensures x.running > 0 ==> Sound(DecRef(x).(running := x.running - 1), flying, clock)
    ensures flying ==> Sound(DecRef(x), false, clock)
    ensures x.owned || x.running > 0 || flying ==> x.refs > 0
  {
  }

  lemma ReleaseKeeps(s: State, id: Id, fly: set<Id>)
    requires Invariant(s, fly) && id in s.schedules && !s.schedules[id].listed && s.schedules[id].owned
    ensures Invariant(Release(s, id), fly)
  {
    var x := s.schedules[id];
    SoundOf(s, id, fly);
    hide Invariant, Sound, Touch;
    SoundDrop(x, id in fly, s.clock);
    TouchIsSafe(s, id, fly);
    SetKeeps(s, id, DecRef(x).(owned := false), fly, fly);
  }

  lemma RunEndsKeeps(s: State, id: Id, fly: set<Id>)
    requires Invariant(s, fly) && id in s.schedules && s.schedules[id].running > 0
    ensures Invariant(RunEnds(s, id), fly)
  {
    var x := s.schedules[id];
    SoundOf(s, id, fly);
    hide Invariant, Sound, Touch;
    SoundDrop(x, id in fly, s.clock);
    TouchIsSafe(s, id, fly);
    SetKeeps(s, id, DecRef(x).(running := x.running - 1), fly, fly);
  }

  lemma FlagsKeep(s: State, id: Id, enable: bool, fly: set<Id>)
    requires Invariant(s, fly) && Live(s, id)
    ensures Invariant(SetConcurrent(s, id, enable), fly) && Invariant(SetSync(s, id, enable), fly)
  {
    var x := s.schedules[id];
    assert Sound(x, id in fly, s.clock);
    var y, z := x.(concurrent := enable, everConcurrent := x.everConcurrent || enable), x.(sync := enable);
    assert Sound(y, id in fly, s.clock) && Sound(z, id in fly, s.clock);
    hide Invariant, Sound;
    SetKeeps(s, id, y, fly, fly);
    SetKeeps(s, id, z, fly, fly);
  }

  // ---------------------------------------------------------------- the thread keeps it

  lemma CloseKeeps(s: State, ch: Choice)
    requires Invariant(s, {}) && s.clock < ch.t3
    ensures Invariant(Close(s, ch), {})
  {
    hide Invariant;
    RestKeeps(s, Close(s, ch), 0, {});
  }

  /** A round uses up one repetition; the new start is more than a period past the visit. */
  lemma SoundRound(x: Schedule, clock: nat, now: nat)
    requires Sound(x, false, clock) && x.visits != [] && clock < now
    ensures x.repeat == 1 ==> Sound(Exhausted(x), false, now)
    ensures x.repeat != 1 ==> Sound(Repeated(x, now), false, now)
  {
  }

  lemma ExhaustKeeps(s: State, id: Id)
    requires InvariantBut(s, id, {}) && s.schedules[id].listed
    requires Sound(Exhausted(s.schedules[id]), false, s.clock)
    ensures Invariant(Exhaust(s, id), {})
  {
    SoundBut(s, id, {});
    var y := Exhausted(s.schedules[id]);
    assert !y.stayed && !y.scheduled && y.listed;
    var u := Set(s, id, y);
    assert Exhaust(s, id) == IdleAdd(u, id) && u.schedules[id] == y;
    hide *;
    SetKeepsBut(s, id, y, {});
    IdleAddKeeps(u, id, {});
  }

  lemma RepeatKeeps(s: State, id: Id, now: nat)
    requires InvariantBut(s, id, {}) && s.schedules[id].listed
    requires Sound(Repeated(s.schedules[id], now), false, s.clock)
    ensures Invariant(Repeat(s, id, now), {})
  {
    SoundBut(s, id, {});
    var y := Repeated(s.schedules[id], now);
    assert !y.scheduled && y.listed;
    var u := Set(s, id, y);
    assert Repeat(s, id, now) == QueueAdd(u, id) && u.schedules[id] == y;
    hide *;
    SetKeepsBut(s, id, y, {});
    QueueAddKeeps(u, id, {});
  }

  lemma RequeueKeeps(s: State, id: Id, ch: Choice)
    requires Invariant(s, {}) && id in s.schedules && s.schedules[id].scheduled
    requires s.schedules[id].visits != [] && s.clock < ch.t2
    ensures Invariant(Requeue(s, id, ch), {})
  {
    SoundOf(s, id, {});
    assert s.schedules[id].listed;
    var u := QueueRemove(s, id);
    var s' := u.(clock := ch.t2);
    assert u.schedules[id] == s.schedules[id].(scheduled := false) && u.clock == s.clock;
    assert Requeue(s, id, ch) == if s.schedules[id].repeat == 1 then Exhaust(s', id) else Repeat(s', id, ch.t2);
    hide *;
    QueueRemoveKeeps(s, id, {});
    SoundBut(u, id, {});
    SoundRound(u.schedules[id], s.clock, ch.t2);
    RestKeeps(u, s', id, {});
    if s.schedules[id].repeat == 1 { ExhaustKeeps(s', id); } else { RepeatKeeps(s', id, ch.t2); }
  }

  lemma EndVisitKeeps(s: State, id: Id, valid: bool, ch: Choice)
    requires Invariant(s, {}) && id in s.schedules && s.clock < ch.t2 < ch.t3
    requires valid ==> s.schedules[id].scheduled && s.schedules[id].visits != []
    ensures Invariant(EndVisit(s, id, valid, ch), {})
  {
    if valid {
      SoundOf(s, id, {});
      assert s.schedules[id].refs > 0;
      TouchIsSafe(s, id, {});
      assert Requeue(s, id, ch).clock == ch.t2;
      hide *;
      RequeueKeeps(s, id, ch);
      CloseKeeps(Requeue(s, id, ch), ch);
      assert EndVisit(s, id, valid, ch) == Close(Requeue(s, id, ch), ch);
    } else {
      CloseKeeps(s, ch);
    }
  }

  lemma SoundHandOver(x: Schedule, clock: nat)
    requires Sound(x, true, clock)
    ensures Sound(x.(running := x.running + 1), false, clock)
    ensures x.refs > 0 && (x.scheduled ==> x.refs > 1) && x.visits != []
  {
  }

  /** What EndVisit looks at. */
  predicate Alike(s: State, s': State, id: Id)
    requires id in s.schedules && id in s'.schedules
  {
    && s'.clock == s.clock
    && s'.schedules[id].scheduled == s.schedules[id].scheduled && s'.schedules[id].visits == s.schedules[id].visits
  }

  lemma DropKeeps(s: State, id: Id)
    requires Invariant(s, {id}) && id in s.schedules
    ensures Invariant(Drop(s, id), {}) && Alike(s, Drop(s, id), id)
    ensures s.schedules[id].visits != [] && (s.schedules[id].scheduled ==> s.schedules[id].refs > 1)
  {
    SoundOf(s, id, {id});
    var x := s.schedules[id];
    assert SamePlace(x, DecRef(x));
    var u := Set(s, id, DecRef(x));
    assert Alike(s, u, id);
    assert Touch(s, id) == s ==> Drop(s, id) == u;
    hide *;
    SoundHandOver(x, s.clock);
    SoundDrop(x, true, s.clock);
    TouchIsSafe(s, id, {id});
    SetKeeps(s, id, DecRef(x), {id}, {});
  }

  lemma HandOverKeeps(s: State, id: Id)
    requires Invariant(s, {id}) && id in s.schedules
    ensures Invariant(HandOver(s, id), {}) && Alike(s, HandOver(s, id), id)
  {
    SoundOf(s, id, {id});
    var x := s.schedules[id];
    var y := x.(running := x.running + 1);
    assert SamePlace(x, y);
    var u := Set(s, id, y);
    assert Alike(s, u, id);
    assert Touch(s, id) == s ==> HandOver(s, id) == u;
    hide *;
    SoundHandOver(x, s.clock);
    TouchIsSafe(s, id, {id});
    SetKeeps(s, id, y, {id}, {});
  }

  lemma EndVisitPhase(s: State, id: Id, valid: bool, ch: Choice)
    requires id in s.schedules
    ensures EndVisit(s, id, valid, ch).phase == Between
  {
  }

  lemma RefuseKeeps(s: State, id: Id, ch: Choice)
    requires Invariant(s, {id}) && id in s.schedules && s.clock < ch.t2 < ch.t3
    ensures Invariant(Refuse(s, id, ch), {}) && Refuse(s, id, ch).phase == Between
  {
    DropKeeps(s, id);
    var x := s.schedules[id];
    var valid := x.refs > 1 && x.scheduled;
    hide Invariant, Drop, EndVisit;
    EndVisitKeeps(Drop(s, id), id, valid, ch);
    EndVisitPhase(Drop(s, id), id, valid, ch);
  }

  lemma DispatchKeeps(s: State, id: Id, valid: bool, ch: Choice)
    requires Invariant(s, {id}) && id in s.schedules && s.clock < ch.t2 < ch.t3
    requires valid ==> s.schedules[id].scheduled
    ensures var s' := Dispatch(s, id, valid, ch); Invariant(s', Flying(s'.phase))
  {
    hide Invariant, Drop, HandOver, EndVisit, Refuse, Touch, Flying;
    DropKeeps(s, id);
    HandOverKeeps(s, id);
    var u, v := Drop(s, id), HandOver(s, id);
    FlyingIs(id);
    StaysKnown(s, id);
    if s.schedules[id].sync {
      EndVisitKeeps(u, id, valid, ch);
      EndVisitPhase(u, id, valid, ch);
    } else if ch.outcome.Accepted? {
      EndVisitKeeps(v, id, valid, ch);
      EndVisitPhase(v, id, valid, ch);
    } else if ch.outcome.abortCallback {
      AbortKeeps(s, id);
    } else {
      RefuseKeeps(s, id, ch);
    }
  }

  lemma StaysKnown(s: State, id: Id)
    requires id in s.schedules
    ensures id in Drop(s, id).schedules && Drop(s, id).clock == s.clock
    ensures id in HandOver(s, id).schedules && HandOver(s, id).clock == s.clock
    ensures Drop(s, id).schedules[id].scheduled == HandOver(s, id).schedules[id].scheduled == s.schedules[id].scheduled
  {
  }

  lemma FlyingIs(id: Id)
    ensures Flying(Between) == {} && Flying(InAbort(id)) == {id}
  {
  }

  lemma AbortKeeps(s: State, id: Id)
    requires Invariant(s, {id}) && id in s.schedules
    ensures Invariant(Touch(s, id).(phase := InAbort(id)), {id})
  {
    SoundOf(s, id, {id});
    SoundHandOver(s.schedules[id], s.clock);
    TouchIsSafe(s, id, {id});
    hide *;
    RestKeeps(s, s.(phase := InAbort(id)), id, {id});
  }

  lemma SoundVisit(x: Schedule, clock: nat, now: nat)
    requires Sound(x, false, clock) && clock < now && x.scheduled
    ensures var y := Visited(x, now);
      && Sound(y, false, now) && SamePlace(x, y)
      && SamePlace(x, y.(refs := x.refs + 1)) && x.refs > 0
      && (x.concurrent || x.refs == 1 ==> Sound(y.(refs := x.refs + 1), true, now))
  {
  }

  lemma SkipKeeps(s: State, id: Id, now: nat)
    requires Invariant(s, {}) && id in s.schedules && s.schedules[id].scheduled && s.clock < now
    ensures var u := Skip(s, id, now);
      Invariant(u, {}) && u.clock == now && u.schedules[id].scheduled && u.schedules[id].visits != []
  {
    SoundOf(s, id, {});
    var x := s.schedules[id];
    var y := Visited(x, now);
    var u := s.(clock := now);
    assert Touch(s, id) == s ==> Skip(s, id, now) == Set(u, id, y);
    assert Skip(s, id, now).schedules[id] == y && y.scheduled && y.visits != [];
    hide *;
    SoundVisit(x, s.clock, now);
    TouchIsSafe(s, id, {});
    RestKeeps(s, u, id, {});
    SetKeeps(u, id, y, {}, {});
  }

  lemma TakeKeeps(s: State, id: Id, now: nat)
    requires Invariant(s, {}) && id in s.schedules && s.schedules[id].scheduled && s.clock < now
    requires s.schedules[id].concurrent || s.schedules[id].refs == 1
    ensures var u := Take(s, id, now);
      Invariant(u, {id}) && u.clock == now && u.schedules[id].scheduled
  {
    SoundOf(s, id, {});
    var x := s.schedules[id];
    var y := Visited(x, now).(refs := x.refs + 1);
    var u := s.(clock := now);
    assert Touch(s, id) == s ==> Take(s, id, now) == Set(u, id, y);
    assert Take(s, id, now).schedules[id] == y && y.scheduled;
    hide *;
    SoundVisit(x, s.clock, now);
    TouchIsSafe(s, id, {});
    RestKeeps(s, u, id, {});
    SetKeeps(u, id, y, {}, {id});
  }

  lemma DueKeeps(s: State, id: Id, ch: Choice)
    requires Invariant(s, {}) && id in s.schedules && s.schedules[id].scheduled && Later(s.clock, ch)
    ensures var s' := Due(s, id, ch); Invariant(s', Flying(s'.phase))
  {
    var x := s.schedules[id];
    hide Invariant, Dispatch, EndVisit, Take, Skip;
    if x.concurrent || x.refs == 1 {
      TakeKeeps(s, id, ch.t1);
      var u := Take(s, id, ch.t1);
      if ch.runCallback {
        RestKeeps(u, u.(phase := InRun(id)), id, {id});
      } else {
        DispatchKeeps(u, id, true, ch);
      }
    } else {
      SkipKeeps(s, id, ch.t1);
      EndVisitKeeps(Skip(s, id, ch.t1), id, true, ch);
      EndVisitPhase(Skip(s, id, ch.t1), id, true, ch);
    }
  }

  lemma FrontIsQueued(s: State)
    requires Placed(s) && s.queue != map[]
    ensures var id := s.queue[LeastKey(s.queue)];
      id in s.schedules && s.schedules[id].scheduled && s.schedules[id].start == LeastKey(s.queue)
  {
    assert InQueue(s, LeastKey(s.queue));
  }

  lemma AwakeKeeps(s: State, ch: Choice)
    requires Invariant(s, {}) && Later(s.clock, ch)
    requires s.queue != map[] ==> s.queue[LeastKey(s.queue)] in s.schedules
    ensures var s' := Awake(s, ch); Invariant(s', Flying(s'.phase))
  {
    if s.mode != Running {
      hide Invariant;
      RestKeeps(s, Awake(s, ch), 0, {});
    } else if s.queue == map[] {
      CloseKeeps(s, ch);
    } else {
      FrontIsQueued(s);
      var id := s.queue[LeastKey(s.queue)];
      if s.schedules[id].start < ch.t1 {
        DueKeeps(s, id, ch);
      } else {
        SoundOf(s, id, {});
        TouchIsSafe(s, id, {});
        hide Invariant, Touch;
        RestKeeps(s, s.(clock := ch.t1), id, {});
        CloseKeeps(s.(clock := ch.t1), ch);
      }
    }
  }

  lemma AfterRunKeeps(s: State, id: Id, ch: Choice)
    requires Invariant(s, {id}) && id in s.schedules && Later(s.clock, ch)
    ensures var s' := AfterRun(s, id, ch); Invariant(s', Flying(s'.phase))
  {
    SoundOf(s, id, {id});
    SoundHandOver(s.schedules[id], s.clock);
    TouchIsSafe(s, id, {id});
    hide Invariant, Dispatch, Touch;
    DispatchKeeps(s, id, s.schedules[id].scheduled, ch);
  }

  // ---------------------------------------------------------------- every run

  ghost predicate Consistent(s: State) {
    Invariant(s, Flying(s.phase))
  }

  lemma ConsistentIsClosed(s: State)
    requires Consistent(s)
    ensures Closed(s)
  {
    forall k | k in s.queue ensures s.queue[k] in s.schedules {
      assert InQueue(s, k);
    }
  }

  lemma CallKeeps(s: State, a: Action)
    requires Consistent(s) && Closed(s) && Enabled(s, a)
    requires !a.ThreadWakes? && !a.ThreadAfterRun? && !a.ThreadAfterAbort? && !a.ThreadLocks? && !a.DoChangeMode?
    ensures Invariant(Next(s, a), Flying(s.phase))
  {
    var fly := Flying(s.phase);
    hide Invariant, Closed, Create, AddCall, AddRandomisedCall, RemoveCall, ResetCall, DeleteCall, Release, RunEnds;
    hide SetConcurrent, SetSync, Flying;
    match a
    case DoCreate(id, period, delay, repeat, now) => CreateKeeps(s, id, period, delay, repeat, now, fly);
    case DoAdd(id) => AddKeeps(s, id, fly);
    case DoAddRandomised(id, offset, now) => AddRandomisedKeeps(s, id, offset, now, fly);
    case DoRemove(id) => RemoveKeeps(s, id, fly);
    case DoReset(id, delay, now) => ResetKeeps(s, id, delay, now, fly);
    case DoDelete(id) => DeleteKeeps(s, id, fly);
    case DoRelease(id) => ReleaseKeeps(s, id, fly);
    case DoRunEnds(id) => RunEndsKeeps(s, id, fly);
    case DoSetConcurrent(id, enable) => FlagsKeep(s, id, enable, fly);
    case DoSetSync(id, enable) => FlagsKeep(s, id, enable, fly);
  }

  /** A call leaves the thread where it is, asleep at most with a signal. */
  lemma CallPhase(s: State, a: Action)
    requires Closed(s) && Enabled(s, a)
    requires !a.ThreadWakes? && !a.ThreadAfterRun? && !a.ThreadAfterAbort? && !a.ThreadLocks? && !a.DoChangeMode?
    ensures Next(s, a).phase == s.phase || (s.phase.Asleep? && Next(s, a).phase == Asleep(true))
    ensures Next(s, a).wake == s.wake && Next(s, a).mode == s.mode
  {
    hide *;
    if a.DoAdd? || a.DoAddRandomised? || a.DoReset? { SignallingPhase(s, a); } else { SilentPhase(s, a); }
  }

  lemma SignallingPhase(s: State, a: Action)
    requires Closed(s) && Enabled(s, a) && (a.DoAdd? || a.DoAddRandomised? || a.DoReset?)
    ensures Next(s, a).phase == s.phase || (s.phase.Asleep? && Next(s, a).phase == Asleep(true))
    ensures Next(s, a).wake == s.wake && Next(s, a).mode == s.mode
  {
    hide LeastFree, LeastKey;
  }

  lemma SilentPhase(s: State, a: Action)
    requires Closed(s) && Enabled(s, a) && !a.DoAdd? && !a.DoAddRandomised? && !a.DoReset?
    requires !a.ThreadWakes? && !a.ThreadAfterRun? && !a.ThreadAfterAbort? && !a.ThreadLocks? && !a.DoChangeMode?
    ensures Next(s, a).phase == s.phase && Next(s, a).wake == s.wake && Next(s, a).mode == s.mode
  {
    hide LeastFree, LeastKey, AddCall, AddRandomisedCall, ResetCall;
  }

  lemma ThreadKeeps(s: State, a: Action)
    requires Consistent(s) && Closed(s) && Enabled(s, a)
    requires a.ThreadWakes? || a.ThreadAfterRun? || a.ThreadAfterAbort? || a.ThreadLocks? || a.DoChangeMode?
    ensures Consistent(Next(s, a))
  {
    hide Invariant, Awake, AfterRun, Refuse;
    match a
    case DoChangeMode(to) => RestKeeps(s, ChangeMode(s, to), 0, Flying(s.phase));
    case ThreadLocks => RestKeeps(s, Next(s, a), 0, {});
    case ThreadWakes(ch) => AwakeKeeps(s, ch);
    case ThreadAfterRun(ch) => AfterRunKeeps(s, s.phase.current, ch);
    case ThreadAfterAbort(ch) => RefuseKeeps(s, s.phase.current, ch);
  }

  lemma StepKeeps(s: State, a: Action)
    requires Consistent(s) && Closed(s) && Enabled(s, a)
    ensures Consistent(Next(s, a)) && Closed(Next(s, a))
  {
    if a.ThreadWakes? || a.ThreadAfterRun? || a.ThreadAfterAbort? || a.ThreadLocks? || a.DoChangeMode? {
      ThreadKeeps(s, a);
    } else {
      CallKeeps(s, a);
      CallPhase(s, a);
      hide Invariant, Next;
    }
    hide Next, Invariant;
    ConsistentIsClosed(Next(s, a));
  }

  /** Closed only makes the steps meaningful: StepKeeps shows that it holds in every state reached. */
  ghost predicate Run(trace: seq<State>, actions: seq<Action>) {
    && |trace| == |actions| + 1 && (exists now :: trace[0] == Init(now))
    && forall i :: 0 <= i < |actions| ==> Leads(trace[i], trace[i + 1], actions[i])
  }

  ghost predicate Leads(s: State, s': State, a: Action) {
    Closed(s) && Enabled(s, a) && s' == Next(s, a)
  }

  lemma {:induction false} ConsistentRuns(trace: seq<State>, actions: seq<Action>, k: nat)
    requires Run(trace, actions) && k < |trace|
    ensures Consistent(trace[k]) && Closed(trace[k])
  {
    if k == 0 {
      ConsistentIsClosed(trace[0]);
    } else {
      ConsistentRuns(trace, actions, k - 1);
      assert Leads(trace[k - 1], trace[k], actions[k - 1]);
      hide Consistent, Closed, Next;
      StepKeeps(trace[k - 1], actions[k - 1]);
    }
  }

  // ---------------------------------------------------------------- what the runs promise

  ghost predicate Queued(s: State, id: Id) {
    exists k :: k in s.queue && s.queue[k] == id
  }

  /** In every reachable state each schedule that has not been deleted is in exactly one of the maps, in
      the queue under its own start if and only if it is scheduled; a deleted one is in neither. */
  lemma Partition(trace: seq<State>, actions: seq<Action>, k: nat, id: Id)
    requires Run(trace, actions) && k < |trace| && id in trace[k].schedules
    ensures var s, x := trace[k], trace[k].schedules[id];
      && (x.scheduled <==> Queued(s, id))
      && (x.scheduled ==> x.start in s.queue && s.queue[x.start] == id)
      && (forall j :: j in s.queue && s.queue[j] == id ==> j == x.start)
      && (x.listed <==> (id in s.idle || Queued(s, id)))
      && !(id in s.idle && Queued(s, id))
  {
    ConsistentRuns(trace, actions, k);
    var s := trace[k];
    assert Home(s, id);
    forall j | j in s.queue && s.queue[j] == id ensures j == s.schedules[id].start && s.schedules[id].scheduled {
      assert InQueue(s, j);
    }
  }

  /** In every reachable state the references of a schedule are one for the owner and one for each run that
      is dispatched and not finished; a schedule that was never concurrent has at most one such run; its
      memory is freed once, when the last reference goes, and nobody has used it after that. */
  lemma Ownership(trace: seq<State>, actions: seq<Action>, k: nat, id: Id)
    requires Run(trace, actions) && k < |trace| && id in trace[k].schedules
    ensures var s, x := trace[k], trace[k].schedules[id];
      var runs := x.running + One(id in Flying(s.phase));
      && x.refs == One(x.owned) + runs
      && (!x.everConcurrent ==> runs <= 1)
      && x.frees == (if x.refs == 0 then 1 else 0)
      && (x.frees > 0 ==> !x.listed && !x.owned && id !in Flying(s.phase))
      && !s.fault
  {
    ConsistentRuns(trace, actions, k);
    SoundOf(trace[k], id, Flying(trace[k].phase));
  }

  /** A visit is due only after the start; of a schedule that stayed queued since its last due visit it
      comes more than a period later. */
  lemma VisitsAreSpaced(trace: seq<State>, actions: seq<Action>, k: nat, ch: Choice, id: Id)
    requires Run(trace, actions) && k < |actions| && actions[k] == ThreadWakes(ch)
    requires id in trace[k].schedules && id in trace[k + 1].schedules
    requires trace[k + 1].schedules[id].visits != trace[k].schedules[id].visits
    ensures var x := trace[k].schedules[id];
      && trace[k + 1].schedules[id].visits == x.visits + [ch.t1]
      && x.start < ch.t1
      && (x.stayed ==> x.visits != [] && ch.t1 > x.visits[|x.visits| - 1] + x.period)
  {
    ConsistentRuns(trace, actions, k);
    SoundOf(trace[k], id, {});
    VisitsOnlyDue(trace[k], ch, id);
  }

  lemma VisitsOnlyDue(s: State, ch: Choice, id: Id)
    requires Consistent(s) && Closed(s) && Enabled(s, ThreadWakes(ch)) && id in s.schedules
    ensures id in Awake(s, ch).schedules
    ensures var x, y := s.schedules[id], Awake(s, ch).schedules[id];
      y.visits == x.visits || (y.visits == x.visits + [ch.t1] && x.start < ch.t1)
  {
    if s.mode == Running && s.queue != map[] {
      hide Invariant, Consistent, Due;
      DueVisits(s, s.queue[LeastKey(s.queue)], ch, id);
    }
  }

  lemma DueVisits(s: State, f: Id, ch: Choice, id: Id)
    requires id in s.schedules && f in s.schedules
    ensures id in Due(s, f, ch).schedules
    ensures Due(s, f, ch).schedules[id].visits == if id == f then s.schedules[id].visits + [ch.t1] else s.schedules[id].visits
  {
    hide Dispatch, EndVisit;
    EndVisitVisits(Skip(s, f, ch.t1), f, true, ch, id);
    DispatchVisits(Take(s, f, ch.t1), f, true, ch, id);
  }

  lemma EndVisitVisits(s: State, id: Id, valid: bool, ch: Choice, i: Id)
    requires id in s.schedules && i in s.schedules
    ensures i in EndVisit(s, id, valid, ch).schedules
    ensures EndVisit(s, id, valid, ch).schedules[i].visits == s.schedules[i].visits
  {
    hide LeastFree, LeastKey;
  }

  lemma DispatchVisits(s: State, id: Id, valid: bool, ch: Choice, i: Id)
    requires id in s.schedules && i in s.schedules
    ensures i in Dispatch(s, id, valid, ch).schedules
    ensures Dispatch(s, id, valid, ch).schedules[i].visits == s.schedules[i].visits
  {
    hide EndVisit;
    var x := s.schedules[id];
    EndVisitVisits(Drop(s, id), id, valid, ch, i);
    EndVisitVisits(HandOver(s, id), id, valid, ch, i);
    EndVisitVisits(Drop(s, id), id, x.refs > 1 && x.scheduled, ch, i);
  }

  /** In every reachable state the repetitions to come and the due visits that counted make up the number the
      schedule was created with; its visits have come in the order of time. */
  lemma RepetitionsLeft(trace: seq<State>, actions: seq<Action>, k: nat, id: Id)
    requires Run(trace, actions) && k < |trace| && id in trace[k].schedules
    ensures var x := trace[k].schedules[id];
      && (x.rounds <= x.initial ==> x.repeat + x.rounds == x.initial)
      && (x.rounds > x.initial ==> x.repeat == 0)
      && (x.visits != [] ==> x.visits[|x.visits| - 1] <= trace[k].clock)
  {
    ConsistentRuns(trace, actions, k);
    SoundOf(trace[k], id, Flying(trace[k].phase));
  }

  // ---------------------------------------------------------------- visits and repetitions

  predicate InFlight(s: State, id: Id) {
    id in Flying(s.phase)
  }

  /** Nothing that matters to the repetitions of a schedule. */
  predicate Unmoved(x: Schedule, y: Schedule) {
    y.visits == x.visits && y.rounds == x.rounds && y.scheduled == x.scheduled && y.listed == x.listed && y.initial == x.initial
  }

  /** A visit has come to its end and counts, as one of the visits so far or as a new one. */
  predicate RoundEnds(x: Schedule, y: Schedule, visited: bool) {
    && |y.visits| == |x.visits| + (if visited then 0 else 1) && y.rounds == x.rounds + 1
    && x.scheduled && y.scheduled == (x.repeat != 1) && y.listed == x.listed && y.initial == x.initial
  }

  /** A visit begins: the schedule is in a callback. */
  predicate VisitBegins(x: Schedule, y: Schedule) {
    |y.visits| == |x.visits| + 1 && y.rounds == x.rounds && x.scheduled && y.scheduled && y.listed == x.listed && y.initial == x.initial
  }

  lemma RequeueMoves(s: State, id: Id, ch: Choice, i: Id)
    requires id in s.schedules && i in s.schedules
    ensures i in Requeue(s, id, ch).schedules
    ensures var x, y := s.schedules[i], Requeue(s, id, ch).schedules[i];
      if i == id then
        y.visits == x.visits && y.rounds == x.rounds + 1 && y.scheduled == (x.repeat != 1) && y.listed == x.listed && y.initial == x.initial
      else Unmoved(x, y)
  {
    hide LeastFree;
  }

  lemma CloseMoves(s: State, ch: Choice)
    ensures Close(s, ch).schedules == s.schedules && Close(s, ch).phase == Between
  {
    hide LeastKey;
  }

  lemma EndVisitMoves(s: State, id: Id, valid: bool, ch: Choice, i: Id)
    requires id in s.schedules && i in s.schedules
    ensures i in EndVisit(s, id, valid, ch).schedules && EndVisit(s, id, valid, ch).phase == Between
    ensures var x, y := s.schedules[i], EndVisit(s, id, valid, ch).schedules[i];
      if valid && i == id then
        y.visits == x.visits && y.rounds == x.rounds + 1 && y.scheduled == (x.repeat != 1) && y.listed == x.listed && y.initial == x.initial
      else Unmoved(x, y)
  {
    hide Requeue, Close, Unmoved;
    if valid { RequeueMoves(Touch(s, id), id, ch, i); }
    CloseMoves(if valid then Requeue(Touch(s, id), id, ch) else s, ch);
    SameUnmoved(s.schedules[i]);
  }

  lemma SameUnmoved(x: Schedule)
    ensures Unmoved(x, x)
  {
  }

  /** Of the schedule that is dispatched: its visit ends and counts, or it is in the abort callback. */
  lemma DispatchMoves(s: State, id: Id, valid: bool, ch: Choice, i: Id)
    requires id in s.schedules && i in s.schedules && valid == s.schedules[id].scheduled
    requires valid ==> s.schedules[id].refs > 1
    ensures i in Dispatch(s, id, valid, ch).schedules
    ensures var s' := Dispatch(s, id, valid, ch);
      var x, y := s.schedules[i], s'.schedules[i];
      if s'.phase == Between then (if valid && i == id then RoundEnds(x, y, true) else Unmoved(x, y))
      else s'.phase == InAbort(id) && Unmoved(x, y)
  {
    hide EndVisit, Refuse;
    EndVisitMoves(Drop(s, id), id, valid, ch, i);
    EndVisitMoves(HandOver(s, id), id, valid, ch, i);
    RefuseMoves(s, id, ch, i);
  }

  lemma DueMoves(s: State, id: Id, ch: Choice, i: Id)
    requires id in s.schedules && i in s.schedules && s.schedules[id].refs > 0 && s.schedules[id].scheduled
    ensures i in Due(s, id, ch).schedules
    ensures var s' := Due(s, id, ch);
      var x, y := s.schedules[i], s'.schedules[i];
      if i != id then Unmoved(x, y) && !InFlight(s', i)
      else if InFlight(s', i) then VisitBegins(x, y) else RoundEnds(x, y, false)
  {
    hide EndVisit, Dispatch;
    EndVisitMoves(Skip(s, id, ch.t1), id, true, ch, i);
    DispatchMoves(Take(s, id, ch.t1), id, true, ch, i);
  }

  lemma HeldInFlight(s: State, id: Id)
    requires Consistent(s) && id in s.schedules
    ensures s.schedules[id].scheduled ==> s.schedules[id].refs > 0
    ensures InFlight(s, id) && s.schedules[id].scheduled ==> s.schedules[id].refs > 1
    ensures Home(s, id)
  {
    SoundOf(s, id, Flying(s.phase));
  }

  /** What a step of the thread does to a schedule. */
  ghost predicate Moves(s: State, s': State, i: Id)
    requires i in s.schedules && i in s'.schedules
  {
    var x, y := s.schedules[i], s'.schedules[i];
    || (Unmoved(x, y) && (InFlight(s', i) == InFlight(s, i) || (InFlight(s, i) && !x.scheduled)))
    || (!InFlight(s, i) && InFlight(s', i) && VisitBegins(x, y))
    || (!InFlight(s', i) && RoundEnds(x, y, InFlight(s, i)))
  }

  lemma AwakeMoves(s: State, ch: Choice, i: Id)
    requires Consistent(s) && Closed(s) && Enabled(s, ThreadWakes(ch)) && i in s.schedules
    ensures i in Awake(s, ch).schedules && Moves(s, Awake(s, ch), i)
  {
    if s.mode == Running && s.queue != map[] {
      var f := s.queue[LeastKey(s.queue)];
      FrontScheduled(s);
      HeldInFlight(s, f);
      hide Consistent, Due, Closed, Home;
      DueMoves(s, f, ch, i);
    }
  }

  lemma FrontScheduled(s: State)
    requires Consistent(s) && s.queue != map[]
    ensures s.queue[LeastKey(s.queue)] in s.schedules && s.schedules[s.queue[LeastKey(s.queue)]].scheduled
  {
    assert InQueue(s, LeastKey(s.queue));
  }

  lemma AfterRunMoves(s: State, ch: Choice, i: Id)
    requires Consistent(s) && Closed(s) && Enabled(s, ThreadAfterRun(ch)) && i in s.schedules
    ensures i in AfterRun(s, s.phase.current, ch).schedules && Moves(s, AfterRun(s, s.phase.current, ch), i)
  {
    var id := s.phase.current;
    HeldInFlight(s, id);
    hide Consistent, Dispatch, Home;
    DispatchMoves(Touch(s, id), id, s.schedules[id].scheduled, ch, i);
  }

  lemma RefuseMoves(s: State, id: Id, ch: Choice, i: Id)
    requires id in s.schedules && i in s.schedules && (s.schedules[id].scheduled ==> s.schedules[id].refs > 1)
    ensures i in Refuse(s, id, ch).schedules && Refuse(s, id, ch).phase == Between
    ensures var x, y := s.schedules[i], Refuse(s, id, ch).schedules[i];
      if s.schedules[id].scheduled && i == id then RoundEnds(x, y, true) else Unmoved(x, y)
  {
    hide EndVisit;
    EndVisitMoves(Drop(s, id), id, s.schedules[id].refs > 1 && s.schedules[id].scheduled, ch, i);
  }

  lemma NotInFlight(s: State, i: Id)
    requires s.phase == Between
    ensures !InFlight(s, i)
  {
  }

  lemma AbortInFlight(s: State)
    requires Closed(s) && s.phase.InAbort?
    ensures s.phase.current in s.schedules
    ensures forall i :: InFlight(s, i) <==> i == s.phase.current
  {
  }

  lemma AfterAbortMoves(s: State, ch: Choice, i: Id)
    requires Consistent(s) && Closed(s) && Enabled(s, ThreadAfterAbort(ch)) && i in s.schedules
    ensures i in Refuse(s, s.phase.current, ch).schedules && Moves(s, Refuse(s, s.phase.current, ch), i)
  {
    var id := s.phase.current;
    AbortInFlight(s);
    HeldInFlight(s, id);
    hide Consistent, Closed, Refuse, Home, InFlight, RoundEnds, Unmoved;
    RefuseMoves(s, id, ch, i);
    NotInFlight(Refuse(s, id, ch), i);
  }

  lemma ThreadMoves(s: State, a: Action, i: Id)
    requires Consistent(s) && Closed(s) && Enabled(s, a) && i in s.schedules
    requires a.ThreadWakes? || a.ThreadAfterRun? || a.ThreadAfterAbort?
    ensures i in Next(s, a).schedules && Moves(s, Next(s, a), i)
  {
    hide Consistent, Closed, Awake, AfterRun, Refuse, Moves;
    match a
    case ThreadWakes(ch) => AwakeMoves(s, ch, i);
    case ThreadAfterRun(ch) => AfterRunMoves(s, ch, i);
    case ThreadAfterAbort(ch) => AfterAbortMoves(s, ch, i);
  }

  /** What a call does to a schedule. */
  ghost predicate CallMoves(s: State, a: Action, s': State, i: Id)
    requires i in s.schedules
  {
    && i in s'.schedules && InFlight(s', i) == InFlight(s, i)
    && var x, y := s.schedules[i], s'.schedules[i];
      && y.visits == x.visits && y.rounds == x.rounds && y.initial == x.initial
      && (y.listed == x.listed || a == DoDelete(i))
      && (y.scheduled == x.scheduled || a == DoDelete(i) || a == DoRemove(i) || (y.scheduled && Adds(a, i)))
  }

  lemma SignallingCallMoves(s: State, a: Action, i: Id)
    requires Closed(s) && Enabled(s, a) && i in s.schedules && (a.DoAdd? || a.DoAddRandomised? || a.DoReset?)
    ensures CallMoves(s, a, Next(s, a), i)
  {
    hide QueueAdd, LeastKey, AddCall, ResetCall, SignalIf, IsFront, Closed;
    match a
    case DoAdd(id) => AddCallMoves(s, id, i);
    case DoAddRandomised(id, offset, now) => AddCallMoves(UpdateStart(s, id, now + offset).(clock := now), id, i);
    case DoReset(id, delay, now) => ResetCallMoves(s, id, delay, now, i);
  }

  lemma ResetCallMoves(s: State, id: Id, delay: nat, now: nat, i: Id)
    requires id in s.schedules && i in s.schedules
    ensures var s' := ResetCall(s, id, delay, now);
      && i in s'.schedules && InFlight(s', i) == InFlight(s, i)
      && var x, y := s.schedules[i], s'.schedules[i];
        && y.visits == x.visits && y.rounds == x.rounds && y.initial == x.initial && y.listed == x.listed
        && y.scheduled == x.scheduled
  {
    hide QueueAdd, SignalIf, IsFront;
    var u := UpdateStart(QueueRemove(s.(clock := now), id), id, s.schedules[id].period + now + delay);
    QueueAddMoves(u, id, i, IsFront(QueueAdd(u, id), id));
  }

  lemma QueueAddMoves(s: State, id: Id, i: Id, front: bool)
    requires id in s.schedules && i in s.schedules
    ensures var s' := SignalIf(QueueAdd(s, id), front);
      && i in s'.schedules && InFlight(s', i) == InFlight(s, i)
      && var x, y := s.schedules[i], s'.schedules[i];
        && y.visits == x.visits && y.rounds == x.rounds && y.initial == x.initial && y.listed == x.listed
        && y.scheduled == (x.scheduled || i == id)
  {
    hide LeastFree;
  }

  lemma AddCallMoves(s: State, id: Id, i: Id)
    requires id in s.schedules && i in s.schedules
    ensures var s' := AddCall(s, id);
      && i in s'.schedules && InFlight(s', i) == InFlight(s, i)
      && var x, y := s.schedules[i], s'.schedules[i];
        && y.visits == x.visits && y.rounds == x.rounds && y.initial == x.initial && y.listed == x.listed
        && y.scheduled == (x.scheduled || i == id)
  {
    hide QueueAdd, SignalIf, IsFront;
    QueueAddMoves(IdleRemove(s, id), id, i, IsFront(QueueAdd(IdleRemove(s, id), id), id));
  }

  lemma SilentCallMoves(s: State, a: Action, i: Id)
    requires Closed(s) && Enabled(s, a) && i in s.schedules && !a.DoAdd? && !a.DoAddRandomised? && !a.DoReset?
    requires !a.ThreadWakes? && !a.ThreadAfterRun? && !a.ThreadAfterAbort?
    ensures CallMoves(s, a, Next(s, a), i)
  {
    hide LeastFree, LeastKey;
  }

  lemma OtherMoves(s: State, a: Action, i: Id)
    requires Closed(s) && Enabled(s, a) && i in s.schedules
    requires !a.ThreadWakes? && !a.ThreadAfterRun? && !a.ThreadAfterAbort?
    ensures CallMoves(s, a, Next(s, a), i)
  {
    hide *;
    if a.DoAdd? || a.DoAddRandomised? || a.DoReset? { SignallingCallMoves(s, a, i); } else { SilentCallMoves(s, a, i); }
  }

  predicate Adds(a: Action, i: Id) {
    (a.DoAdd? || a.DoAddRandomised?) && a.id == i
  }

  /** A callback comes to its end after its schedule was taken off the queue: the visit does not count. */
  predicate EndsUncounted(s: State, s': State, id: Id) {
    id in s.schedules && InFlight(s, id) && !InFlight(s', id) && !s.schedules[id].scheduled
  }

  /** How many visits did not count until trace[k]. */
  function Uncounted(trace: seq<State>, c: nat, k: nat, id: Id): nat
    requires k < |trace|
  {
    if k <= c + 1 then 0 else Uncounted(trace, c, k - 1, id) + if EndsUncounted(trace[k - 1], trace[k], id) then 1 else 0
  }

  /** Every due visit that is over and is not among these has counted as a repetition. */
  ghost predicate VisitsCount(s: State, i: Id, uncounted: nat)
    requires i in s.schedules
  {
    |s.schedules[i].visits| == s.schedules[i].rounds + uncounted + One(InFlight(s, i))
  }

  lemma VisitsCountNext(s: State, a: Action, i: Id, uncounted: nat)
    requires Consistent(s) && Closed(s) && Enabled(s, a) && i in s.schedules && VisitsCount(s, i, uncounted)
    ensures i in Next(s, a).schedules
    ensures VisitsCount(Next(s, a), i, uncounted + if EndsUncounted(s, Next(s, a), i) then 1 else 0)
  {
    hide Next, Consistent, Closed, Enabled;
    if a.ThreadWakes? || a.ThreadAfterRun? || a.ThreadAfterAbort? {
      ThreadMoves(s, a, i);
    } else {
      OtherMoves(s, a, i);
    }
  }

  lemma CreatedFresh(s: State, a: Action)
    requires Closed(s) && Enabled(s, a) && a.DoCreate?
    ensures a.id in Next(s, a).schedules && !InFlight(Next(s, a), a.id)
    ensures var x := Next(s, a).schedules[a.id];
      x.visits == [] && x.rounds == 0 && !x.scheduled && x.listed && x.initial == a.repeat
  {
  }

  /** Step c creates the schedule. */
  ghost predicate Creates(actions: seq<Action>, c: nat, id: Id) {
    c < |actions| && actions[c].DoCreate? && actions[c].id == id
  }

  /** From its creation on a schedule has as many due visits as counted repetitions, but for those at whose end it was
      off the queue, and the one under way. */
  lemma {:induction false} VisitsAreCounted(trace: seq<State>, actions: seq<Action>, c: nat, k: nat, id: Id)
    requires Run(trace, actions) && c < k < |trace| && Creates(actions, c, id)
    ensures id in trace[k].schedules && VisitsCount(trace[k], id, Uncounted(trace, c, k, id))
    decreases k
  {
    hide *;
    LengthOfRun(trace, actions);
    CreatedHere(actions, c, id);
    var s, a := trace[k - 1], actions[k - 1];
    StepOfRun(trace, actions, k - 1);
    ConsistentRuns(trace, actions, k - 1);
    UncountedNext(trace, c, k, id);
    if k == c + 1 {
      CreatedFresh(s, a);
      FreshCounts(trace[k], id);
    } else {
      VisitsAreCounted(trace, actions, c, k - 1, id);
      VisitsCountNext(s, a, id, Uncounted(trace, c, k - 1, id));
    }
  }

  /** All of them count if nobody removes or deletes the schedule in the middle of its callback. */
  lemma {:induction false} AllVisitsCount(trace: seq<State>, actions: seq<Action>, c: nat, k: nat, id: Id)
    requires Run(trace, actions) && c < k < |trace| && Creates(actions, c, id)
    requires forall i :: c < i < k && InFlight(trace[i], id) ==> actions[i] != DoRemove(id) && actions[i] != DoDelete(id)
    ensures id in trace[k].schedules && (InFlight(trace[k], id) ==> trace[k].schedules[id].scheduled)
    ensures Uncounted(trace, c, k, id) == 0
    decreases k
  {
    hide *;
    LengthOfRun(trace, actions);
    CreatedHere(actions, c, id);
    var s, a := trace[k - 1], actions[k - 1];
    StepOfRun(trace, actions, k - 1);
    ConsistentRuns(trace, actions, k - 1);
    UncountedNext(trace, c, k, id);
    if k == c + 1 {
      CreatedFresh(s, a);
    } else {
      AllVisitsCount(trace, actions, c, k - 1, id);
      FlightNext(s, a, id);
    }
  }

  lemma FlightNext(s: State, a: Action, i: Id)
    requires Consistent(s) && Closed(s) && Enabled(s, a) && i in s.schedules && (InFlight(s, i) ==> s.schedules[i].scheduled)
    requires InFlight(s, i) ==> a != DoRemove(i) && a != DoDelete(i)
    ensures i in Next(s, a).schedules && (InFlight(Next(s, a), i) ==> Next(s, a).schedules[i].scheduled)
    ensures !EndsUncounted(s, Next(s, a), i)
  {
    hide Next, Consistent, Closed, Enabled;
    if a.ThreadWakes? || a.ThreadAfterRun? || a.ThreadAfterAbort? {
      ThreadMoves(s, a, i);
    } else {
      OtherMoves(s, a, i);
    }
  }

  lemma UncountedNext(trace: seq<State>, c: nat, k: nat, id: Id)
    requires k < |trace|
    ensures k <= c + 1 ==> Uncounted(trace, c, k, id) == 0
    ensures k > c + 1 ==>
      Uncounted(trace, c, k, id) == Uncounted(trace, c, k - 1, id) + if EndsUncounted(trace[k - 1], trace[k], id) then 1 else 0
  {
    hide EndsUncounted;
  }

  lemma LengthOfRun(trace: seq<State>, actions: seq<Action>)
    requires Run(trace, actions)
    ensures |trace| == |actions| + 1
  {
  }

  lemma StepOfRun(trace: seq<State>, actions: seq<Action>, i: nat)
    requires Run(trace, actions) && i < |actions|
    ensures |trace| == |actions| + 1 && Closed(trace[i]) && Enabled(trace[i], actions[i])
    ensures trace[i + 1] == Next(trace[i], actions[i])
  {
    assert Leads(trace[i], trace[i + 1], actions[i]);
    hide Closed, Enabled, Next;
  }

  lemma CreatedHere(actions: seq<Action>, c: nat, id: Id)
    requires Creates(actions, c, id)
    ensures c < |actions| && actions[c].DoCreate? && actions[c].id == id
  {
  }

  lemma FreshCounts(s: State, id: Id)
    requires id in s.schedules && s.schedules[id].visits == [] && s.schedules[id].rounds == 0 && !InFlight(s, id)
    ensures VisitsCount(s, id, 0)
  {
  }

  // ---------------------------------------------------------------- how often a schedule runs

  /** An idle schedule is added although its repetitions are used up: 0 now means no limit. */
  predicate AddsLate(s: State, a: Action, id: Id) {
    Adds(a, id) && id in s.schedules && !s.schedules[id].scheduled && s.schedules[id].repeat == 0
  }

  /** The repetitions of a schedule that was created with n of them and never added late. */
  ghost predicate Limited(s: State, id: Id, n: nat)
    requires id in s.schedules
  {
    var x := s.schedules[id];
    x.initial == n && x.rounds <= n && (x.rounds == n ==> !x.scheduled && !InFlight(s, id))
  }

  lemma LimitedNext(s: State, a: Action, id: Id, n: nat)
    requires Consistent(s) && Closed(s) && Enabled(s, a) && id in s.schedules && Limited(s, id, n) && n > 0
    requires !AddsLate(s, a, id)
    ensures id in Next(s, a).schedules && Limited(Next(s, a), id, n)
  {
    SoundOf(s, id, Flying(s.phase));
    hide Next, Consistent, Closed, Enabled;
    if a.ThreadWakes? || a.ThreadAfterRun? || a.ThreadAfterAbort? {
      ThreadMoves(s, a, id);
    } else {
      OtherMoves(s, a, id);
    }
  }

  lemma LimitedStarts(s: State, id: Id, n: nat)
    requires id in s.schedules && !InFlight(s, id) && n > 0
    requires s.schedules[id].rounds == 0 && s.schedules[id].initial == n
    ensures Limited(s, id, n)
  {
  }

  lemma {:induction false} LimitedRuns(trace: seq<State>, actions: seq<Action>, c: nat, k: nat, id: Id)
    requires Run(trace, actions) && c < k < |trace| && Creates(actions, c, id) && actions[c].repeat > 0
    requires forall j :: c < j < k ==> !AddsLate(trace[j], actions[j], id)
    ensures id in trace[k].schedules && Limited(trace[k], id, actions[c].repeat)
    decreases k
  {
    hide *;
    LengthOfRun(trace, actions);
    CreatedHere(actions, c, id);
    var s, a := trace[k - 1], actions[k - 1];
    StepOfRun(trace, actions, k - 1);
    ConsistentRuns(trace, actions, k - 1);
    if k == c + 1 {
      CreatedFresh(s, a);
      LimitedStarts(trace[k], id, a.repeat);
    } else {
      LimitedRuns(trace, actions, c, k - 1, id);
      LimitedNext(s, a, id, actions[c].repeat);
    }
  }

  /** A schedule created with n > 0 repetitions and not added late, whatever else is done to it: it never has more than n
      due visits that count or are under way, and it has expired if and only if it has had n that counted. It is off
      the queue then, and idle unless it was deleted. */
  lemma ExpiresAfterNVisits(trace: seq<State>, actions: seq<Action>, c: nat, k: nat, id: Id)
    requires Run(trace, actions) && c < k < |trace| && Creates(actions, c, id) && actions[c].repeat > 0
    requires forall j :: c < j < k ==> !AddsLate(trace[j], actions[j], id)
    ensures id in trace[k].schedules
    ensures var s, n, x := trace[k], actions[c].repeat, trace[k].schedules[id];
      var visits := |x.visits| - Uncounted(trace, c, k, id);
      && visits <= n
      && (x.repeat == 0 <==> visits == n && !InFlight(s, id))
      && (x.repeat == 0 ==> !x.scheduled && (id in s.idle <==> x.listed))
  {
    LimitedRuns(trace, actions, c, k, id);
    VisitsAreCounted(trace, actions, c, k, id);
    ConsistentRuns(trace, actions, k);
    SoundOf(trace[k], id, Flying(trace[k].phase));
    assert Home(trace[k], id);
    hide Run, Consistent, Closed, Uncounted;
  }

  /** A due visit starts, with a callback or without. */
  predicate VisitStarts(s: State, s': State, id: Id) {
    id in s.schedules && id in s'.schedules && |s'.schedules[id].visits| > |s.schedules[id].visits|
  }

  /** What a step may do to the numbers. */
  lemma NumbersNext(s: State, a: Action, id: Id)
    requires Consistent(s) && Closed(s) && Enabled(s, a) && id in s.schedules
    ensures var s' := Next(s, a);
      && id in s'.schedules && s'.schedules[id].rounds >= s.schedules[id].rounds
      && s'.schedules[id].initial == s.schedules[id].initial
      && |s'.schedules[id].visits| >= |s.schedules[id].visits|
      && (VisitStarts(s, s', id) ==> !InFlight(s, id) && |s'.schedules[id].visits| == |s.schedules[id].visits| + 1)
  {
    hide Next, Consistent, Closed, Enabled;
    if a.ThreadWakes? || a.ThreadAfterRun? || a.ThreadAfterAbort? {
      ThreadMoves(s, a, id);
    } else {
      OtherMoves(s, a, id);
    }
  }

  /** Used up repetitions stay used up. */
  lemma {:induction false} StaysUsedUp(trace: seq<State>, actions: seq<Action>, c: nat, j: nat, i: nat, id: Id)
    requires Run(trace, actions) && c < j <= i < |trace| && Creates(actions, c, id)
    requires id in trace[j].schedules && trace[j].schedules[id].rounds >= actions[c].repeat
    ensures id in trace[i].schedules && trace[i].schedules[id].rounds >= actions[c].repeat
    decreases i
  {
    hide *;
    LengthOfRun(trace, actions);
    CreatedHere(actions, c, id);
    if i > j {
      StaysUsedUp(trace, actions, c, j, i - 1, id);
      StepOfRun(trace, actions, i - 1);
      ConsistentRuns(trace, actions, i - 1);
      NumbersNext(trace[i - 1], actions[i - 1], id);
    }
  }

  lemma {:induction false} InitialStays(trace: seq<State>, actions: seq<Action>, c: nat, k: nat, id: Id)
    requires Run(trace, actions) && c < k < |trace| && Creates(actions, c, id)
    ensures id in trace[k].schedules && trace[k].schedules[id].initial == actions[c].repeat
    decreases k
  {
    hide *;
    LengthOfRun(trace, actions);
    CreatedHere(actions, c, id);
    StepOfRun(trace, actions, k - 1);
    ConsistentRuns(trace, actions, k - 1);
    if k == c + 1 {
      CreatedFresh(trace[k - 1], actions[k - 1]);
    } else {
      InitialStays(trace, actions, c, k - 1, id);
      NumbersNext(trace[k - 1], actions[k - 1], id);
    }
  }

  /** As long as no visit starts, no more visits count or are under way. */
  lemma {:induction false} NoMoreVisits(trace: seq<State>, actions: seq<Action>, c: nat, j: nat, k: nat, id: Id)
    requires Run(trace, actions) && c < j <= k < |trace| && Creates(actions, c, id) && id in trace[j].schedules
    requires forall i :: j <= i < k ==> !VisitStarts(trace[i], trace[i + 1], id)
    ensures id in trace[k].schedules
    ensures |trace[k].schedules[id].visits| - Uncounted(trace, c, k, id) <= |trace[j].schedules[id].visits| - Uncounted(trace, c, j, id)
    decreases k
  {
    hide *;
    LengthOfRun(trace, actions);
    CreatedHere(actions, c, id);
    if k > j {
      NoMoreVisits(trace, actions, c, j, k - 1, id);
      StepOfRun(trace, actions, k - 1);
      ConsistentRuns(trace, actions, k - 1);
      NumbersNext(trace[k - 1], actions[k - 1], id);
      UncountedNext(trace, c, k, id);
      StartsIs(trace[k - 1], trace[k], id);
    }
  }

  lemma StartsIs(s: State, s': State, id: Id)
    ensures VisitStarts(s, s', id) <==>
      id in s.schedules && id in s'.schedules && |s'.schedules[id].visits| > |s.schedules[id].visits|
  {
  }

  /** The number of visits of a schedule at trace[k] that have counted or are under way is within its limit. */
  ghost predicate WithinLimit(trace: seq<State>, c: nat, k: nat, id: Id, n: nat)
    requires k < |trace|
  {
    id in trace[k].schedules ==> |trace[k].schedules[id].visits| - Uncounted(trace, c, k, id) <= n
  }

  /** A visit starts at step i after a late addition at step j. */
  ghost predicate RunsOn(trace: seq<State>, actions: seq<Action>, c: nat, j: nat, i: nat, id: Id) {
    && c < j < i < |actions| < |trace|
    && AddsLate(trace[j], actions[j], id) && VisitStarts(trace[i], trace[i + 1], id)
  }

  /** Over any run: a schedule created with n > 0 repetitions stays within them in every state if and only if no visit
      starts after it was added late. */
  lemma LimitIsKept(trace: seq<State>, actions: seq<Action>, c: nat, id: Id)
    requires Run(trace, actions) && c < |actions| && Creates(actions, c, id) && actions[c].repeat > 0
    ensures |trace| == |actions| + 1
    ensures (forall k :: c < k < |trace| ==> WithinLimit(trace, c, k, id, actions[c].repeat)) <==>
            !exists j, i :: RunsOn(trace, actions, c, j, i, id)
  {
    hide *;
    LengthOfRun(trace, actions);
    CreatedHere(actions, c, id);
    if !exists j, i :: RunsOn(trace, actions, c, j, i, id) {
      forall k | c < k < |trace| ensures WithinLimit(trace, c, k, id, actions[c].repeat) {
        StaysWithin(trace, actions, c, k, id);
      }
    }
    if j, i :| RunsOn(trace, actions, c, j, i, id) {
      LeavesLimit(trace, actions, c, j, i, id);
    }
  }

  lemma StaysWithin(trace: seq<State>, actions: seq<Action>, c: nat, k: nat, id: Id)
    requires Run(trace, actions) && c < k < |trace| == |actions| + 1 && Creates(actions, c, id) && actions[c].repeat > 0
    requires !exists j, i :: RunsOn(trace, actions, c, j, i, id)
    ensures WithinLimit(trace, c, k, id, actions[c].repeat)
  {
    hide *;
    CreatedHere(actions, c, id);
    if forall j :: c < j < k ==> !AddsLate(trace[j], actions[j], id) {
      ExpiresAfterNVisits(trace, actions, c, k, id);
    } else {
      var j := FirstLate(trace, actions, c, k, id);
      ExpiresAfterNVisits(trace, actions, c, j, id);
      forall i | j <= i < k ensures !VisitStarts(trace[i], trace[i + 1], id) {
        if i == j { LateIsQuiet(trace, actions, c, j, id); } else { RunsOnIs(trace, actions, c, j, i, id); }
      }
      NoMoreVisits(trace, actions, c, j, k, id);
    }
    WithinIs(trace, c, k, id, actions[c].repeat);
  }

  lemma WithinIs(trace: seq<State>, c: nat, k: nat, id: Id, n: nat)
    requires k < |trace|
    ensures WithinLimit(trace, c, k, id, n) <==>
      (id in trace[k].schedules ==> |trace[k].schedules[id].visits| - Uncounted(trace, c, k, id) <= n)
  {
  }

  lemma RunsOnIs(trace: seq<State>, actions: seq<Action>, c: nat, j: nat, i: nat, id: Id)
    ensures RunsOn(trace, actions, c, j, i, id) <==>
      && c < j < i < |actions| < |trace|
      && AddsLate(trace[j], actions[j], id) && VisitStarts(trace[i], trace[i + 1], id)
  {
  }

  lemma {:induction false} FirstLate(trace: seq<State>, actions: seq<Action>, c: nat, k: nat, id: Id) returns (j: nat)
    requires c < k <= |actions| < |trace| && !forall j :: c < j < k ==> !AddsLate(trace[j], actions[j], id)
    ensures c < j < k && AddsLate(trace[j], actions[j], id) && forall i :: c < i < j ==> !AddsLate(trace[i], actions[i], id)
    decreases k
  {
    hide AddsLate;
    if forall i :: c < i < k - 1 ==> !AddsLate(trace[i], actions[i], id) {
      j := k - 1;
    } else {
      j := FirstLate(trace, actions, c, k - 1, id);
    }
  }

  /** The addition itself is no visit. */
  lemma LateIsQuiet(trace: seq<State>, actions: seq<Action>, c: nat, j: nat, id: Id)
    requires Run(trace, actions) && j < |actions| < |trace| && AddsLate(trace[j], actions[j], id)
    ensures !VisitStarts(trace[j], trace[j + 1], id)
  {
    StepOfRun(trace, actions, j);
    hide Run, Next, Closed, Enabled;
    OtherMoves(trace[j], actions[j], id);
  }

  lemma LeavesLimit(trace: seq<State>, actions: seq<Action>, c: nat, j: nat, i: nat, id: Id)
    requires Run(trace, actions) && Creates(actions, c, id) && actions[c].repeat > 0 && RunsOn(trace, actions, c, j, i, id)
    ensures c < i + 1 < |trace| && !WithinLimit(trace, c, i + 1, id, actions[c].repeat)
  {
    hide *;
    LengthOfRun(trace, actions);
    CreatedHere(actions, c, id);
    RunsOnIs(trace, actions, c, j, i, id);
    LateIsUsedUp(trace, actions, c, j, id);
    StaysUsedUp(trace, actions, c, j, i, id);
    VisitsAreCounted(trace, actions, c, i, id);
    VisitsCountIs(trace[i], id, Uncounted(trace, c, i, id));
    StepOfRun(trace, actions, i);
    ConsistentRuns(trace, actions, i);
    NumbersNext(trace[i], actions[i], id);
    StartsIs(trace[i], trace[i + 1], id);
    UncountedNext(trace, c, i + 1, id);
    InFlightCounts(trace[i], trace[i + 1], id);
    WithinIs(trace, c, i + 1, id, actions[c].repeat);
  }

  lemma VisitsCountIs(s: State, id: Id, uncounted: nat)
    requires id in s.schedules && VisitsCount(s, id, uncounted)
    ensures |s.schedules[id].visits| >= s.schedules[id].rounds + uncounted
  {
  }

  lemma InFlightCounts(s: State, s': State, id: Id)
    requires !InFlight(s, id)
    ensures !EndsUncounted(s, s', id)
  {
  }

  lemma LateIsUsedUp(trace: seq<State>, actions: seq<Action>, c: nat, j: nat, id: Id)
    requires Run(trace, actions) && c < j < |actions| < |trace| && Creates(actions, c, id) && AddsLate(trace[j], actions[j], id)
    ensures id in trace[j].schedules && trace[j].schedules[id].rounds >= actions[c].repeat
  {
    InitialStays(trace, actions, c, j, id);
    ConsistentRuns(trace, actions, j);
    SoundOf(trace[j], id, Flying(trace[j].phase));
    hide Run, Consistent, Closed;
  }

  /** The only schedule of these runs, in what changes about it. */
  function Lone(start: nat, repeat: nat, scheduled: bool, running: nat, visits: seq<nat>, stayed: bool): Schedule {
    Schedule(10, start, repeat, scheduled, false, false, 1 + running, true, true, running, 0, false, visits, stayed, 1, |visits|)
  }

  const USED_UP: seq<Action> := [
    DoCreate(0, 10, 0, 1, 1), DoAdd(0), DoChangeMode(Running), ThreadLocks,
    ThreadWakes(Choice(2, 3, 4, false, Accepted)), DoRunEnds(0), DoAdd(0), ThreadLocks,
    ThreadWakes(Choice(5, 6, 7, false, Accepted))]

  lemma NineSteps(trace: seq<State>)
    requires |trace| == 10 && trace[0] == Init(0)
    requires Leads(trace[0], trace[1], USED_UP[0]) && Leads(trace[1], trace[2], USED_UP[1]) && Leads(trace[2], trace[3], USED_UP[2])
    requires Leads(trace[3], trace[4], USED_UP[3]) && Leads(trace[4], trace[5], USED_UP[4]) && Leads(trace[5], trace[6], USED_UP[5])
    requires Leads(trace[6], trace[7], USED_UP[6]) && Leads(trace[7], trace[8], USED_UP[7]) && Leads(trace[8], trace[9], USED_UP[8])
    ensures Run(trace, USED_UP)
  {
    hide Leads, Init;
  }

  lemma OnlyKey(k: nat, id: Id)
    ensures map[k := id] != map[] && k in map[k := id]
    ensures LeastKey(map[k := id]) == k && LeastFree({}, k) == k && map[k := id] - {k} == map[]
  {
  }

  /** The schedule is added to an empty queue while the thread is not asleep. */
  lemma LoneAdded(s: State, x: Schedule)
    requires s.schedules == map[0 := x] && s.queue == map[] && s.idle == {0} && s.phase == Between && !x.scheduled
    ensures AddCall(s, 0) == s.(schedules := map[0 := x.(scheduled := true)], queue := map[x.start := 0], idle := {})
  {
    OnlyKey(x.start, 0);
    hide LeastKey, LeastFree;
    assert s.queue.Keys == {};
  }

  /** A schedule with one repetition is created, added, and has its due visit. */
  lemma LastRepetition() returns (s0: State, s1: State, s2: State, s3: State, s4: State, s5: State)
    ensures s0 == Init(0) && Leads(s0, s1, USED_UP[0]) && Leads(s1, s2, USED_UP[1]) && Leads(s2, s3, USED_UP[2])
    ensures Leads(s3, s4, USED_UP[3]) && Leads(s4, s5, USED_UP[4])
    ensures s5 == State(map[0 := Lone(1, 0, false, 1, [2], false)], map[], {0}, 4, Running, 4 + DEFAULT_WAKE, Between, false)
  {
    hide *;
    s0, s1, s2 := LoneCreated();
    s3, s4 := LoneWaits(s2);
    s5 := LoneVisited(s4);
  }

  lemma LoneWaits(s2: State) returns (s3: State, s4: State)
    requires s2 == State(map[0 := Lone(1, 1, true, 0, [], false)], map[1 := 0], {}, 1, Initial, 0, Between, false)
    ensures Leads(s2, s3, USED_UP[2]) && Leads(s3, s4, USED_UP[3])
    ensures s4 == State(map[0 := Lone(1, 1, true, 0, [], false)], map[1 := 0], {}, 1, Running, 0, Asleep(false), false)
  {
    hide LeastKey, LeastFree, Lone;
    s3 := s2.(mode := Running);
    s4 := s3.(phase := Asleep(false));
  }

  lemma LoneVisited(s4: State) returns (s5: State)
    requires s4 == State(map[0 := Lone(1, 1, true, 0, [], false)], map[1 := 0], {}, 1, Running, 0, Asleep(false), false)
    ensures Leads(s4, s5, USED_UP[4])
    ensures s5 == State(map[0 := Lone(1, 0, false, 1, [2], false)], map[], {0}, 4, Running, 4 + DEFAULT_WAKE, Between, false)
  {
    LoneIsLast(s4);
    hide Awake, LeastKey, LeastFree, Lone;
    s5 := Awake(s4, Choice(2, 3, 4, false, Accepted));
  }

  lemma LoneCreated() returns (s0: State, s1: State, s2: State)
    ensures s0 == Init(0) && Leads(s0, s1, USED_UP[0]) && Leads(s1, s2, USED_UP[1])
    ensures s2 == State(map[0 := Lone(1, 1, true, 0, [], false)], map[1 := 0], {}, 1, Initial, 0, Between, false)
  {
    hide AddCall, LeastKey, LeastFree;
    s0 := Init(0);
    s1 := Create(s0, 0, 10, 0, 1, 1);
    s2 := AddCall(s1, 0);
    LoneAdded(s1, Lone(1, 1, false, 0, [], false));
  }

  lemma LoneIsLast(s: State)
    requires s == State(map[0 := Lone(1, 1, true, 0, [], false)], map[1 := 0], {}, 1, Running, 0, Asleep(false), false)
    ensures Awake(s, Choice(2, 3, 4, false, Accepted)) ==
      State(map[0 := Lone(1, 0, false, 1, [2], false)], map[], {0}, 4, Running, 4 + DEFAULT_WAKE, Between, false)
  {
    var ch := Choice(2, 3, 4, false, Accepted);
    OnlyKey(1, 0);
    hide LeastKey, LeastFree;
    var t, none := Take(s, 0, 2), s.schedules[0].visits;
    assert none + [2] == [2];
    assert t == s.(schedules := map[0 := Lone(1, 1, true, 0, [], false).(refs := 2, visits := [2])], clock := 2);
    var h := HandOver(t, 0);
    assert h == t.(schedules := map[0 := Lone(1, 1, true, 1, [2], false).(rounds := 0)]);
    assert Requeue(Touch(h, 0), 0, ch) == State(map[0 := Lone(1, 0, false, 1, [2], false)], map[], {0}, 3, Running, 0, Asleep(false), false);
  }

  /** The run ends, the schedule is added again, and is due again. */
  lemma OneMore(s5: State) returns (s6: State, s7: State, s8: State, s9: State)
    requires s5 == State(map[0 := Lone(1, 0, false, 1, [2], false)], map[], {0}, 4, Running, 4 + DEFAULT_WAKE, Between, false)
    ensures Leads(s5, s6, USED_UP[5]) && Leads(s6, s7, USED_UP[6]) && Leads(s7, s8, USED_UP[7]) && Leads(s8, s9, USED_UP[8])
    ensures s9 == State(map[0 := Lone(16, 0, true, 1, [2, 5], true)], map[16 := 0], {}, 6, Running, 16, Between, false)
    ensures AddsLate(s6, USED_UP[6], 0) && VisitStarts(s8, s9, 0)
  {
    hide *;
    s6, s7 := AddedAgain(s5);
    s8, s9 := VisitedAgain(s7);
  }

  lemma AddedAgain(s5: State) returns (s6: State, s7: State)
    requires s5 == State(map[0 := Lone(1, 0, false, 1, [2], false)], map[], {0}, 4, Running, 4 + DEFAULT_WAKE, Between, false)
    ensures Leads(s5, s6, USED_UP[5]) && Leads(s6, s7, USED_UP[6]) && AddsLate(s6, USED_UP[6], 0)
    ensures s7 == State(map[0 := Lone(1, 0, true, 0, [2], false)], map[1 := 0], {}, 4, Running, 4 + DEFAULT_WAKE, Between, false)
  {
    hide AddCall, Awake, LeastKey, LeastFree;
    s6 := s5.(schedules := map[0 := Lone(1, 0, false, 0, [2], false)]);
    s7 := AddCall(s6, 0);
    LoneAdded(s6, Lone(1, 0, false, 0, [2], false));
  }

  lemma VisitedAgain(s7: State) returns (s8: State, s9: State)
    requires s7 == State(map[0 := Lone(1, 0, true, 0, [2], false)], map[1 := 0], {}, 4, Running, 4 + DEFAULT_WAKE, Between, false)
    ensures Leads(s7, s8, USED_UP[7]) && Leads(s8, s9, USED_UP[8]) && VisitStarts(s8, s9, 0)
    ensures s9 == State(map[0 := Lone(16, 0, true, 1, [2, 5], true)], map[16 := 0], {}, 6, Running, 16, Between, false)
  {
    hide Awake, LeastKey, LeastFree;
    s8 := s7.(phase := Asleep(false));
    s9 := Awake(s8, Choice(5, 6, 7, false, Accepted));
    LoneGoesOn(s8);
  }

  lemma LoneGoesOn(s: State)
    requires s == State(map[0 := Lone(1, 0, true, 0, [2], false)], map[1 := 0], {}, 4, Running, 4 + DEFAULT_WAKE, Asleep(false), false)
    ensures Awake(s, Choice(5, 6, 7, false, Accepted)) ==
      State(map[0 := Lone(16, 0, true, 1, [2, 5], true)], map[16 := 0], {}, 6, Running, 16, Between, false)
  {
    var ch := Choice(5, 6, 7, false, Accepted);
    OnlyKey(1, 0);
    OnlyKey(16, 0);
    hide LeastKey, LeastFree;
    var t := Take(s, 0, 5);
    assert [2] + [5] == [2, 5];
    assert t == s.(schedules := map[0 := Lone(1, 0, true, 0, [2, 5], false).(refs := 2, rounds := 1)], clock := 5);
    var h := HandOver(t, 0);
    assert h == t.(schedules := map[0 := Lone(1, 0, true, 1, [2, 5], false).(rounds := 1)]);
    var m: map<nat, Id> := map[];
    assert m.Keys == {};
    assert Requeue(Touch(h, 0), 0, ch) ==
      State(map[0 := Lone(16, 0, true, 1, [2, 5], true)], map[16 := 0], {}, 6, Running, 4 + DEFAULT_WAKE, Asleep(false), false);
  }

  /** A schedule with one repetition that is added again after it has run: it runs again, and stays queued. */
  lemma UsedUpRunsOn()
    ensures exists trace: seq<State> ::
      && Run(trace, USED_UP) && RunsOn(trace, USED_UP, 0, 6, 8, 0)
      && var s := trace[|USED_UP|];
        0 in s.schedules && |s.schedules[0].visits| == 2 && s.schedules[0].initial == 1 && s.schedules[0].scheduled && Queued(s, 0)
  {
    hide *;
    var s0, s1, s2, s3, s4, s5 := LastRepetition();
    var s6, s7, s8, s9 := OneMore(s5);
    var trace := [s0, s1, s2, s3, s4, s5, s6, s7, s8, s9];
    NineSteps(trace);
    LastState(trace, s6, s8, s9);
  }

  lemma LastState(trace: seq<State>, s6: State, s8: State, s9: State)
    requires |trace| == 10 && trace[6] == s6 && trace[8] == s8 && trace[9] == s9
    requires AddsLate(s6, USED_UP[6], 0) && VisitStarts(s8, s9, 0)
    requires s9 == State(map[0 := Lone(16, 0, true, 1, [2, 5], true)], map[16 := 0], {}, 6, Running, 16, Between, false)
    ensures RunsOn(trace, USED_UP, 0, 6, 8, 0)
    ensures var s := trace[|USED_UP|];
      0 in s.schedules && |s.schedules[0].visits| == 2 && s.schedules[0].initial == 1 && s.schedules[0].scheduled && Queued(s, 0)
  {
    hide AddsLate, VisitStarts;
    assert s9.queue[16] == 0;
  }

  // ---------------------------------------------------------------- does the thread sleep too long?

  /** The thread that sleeps without a signal wakes no later than the first start. */
  ghost predicate Timely(s: State) {
    s.phase == Asleep(false) ==> s.mode == Running && (s.queue != map[] ==> s.wake <= LeastKey(s.queue))
  }

  lemma FewerKeys(queue: map<nat, Id>, rest: map<nat, Id>)
    requires rest != map[] && rest.Keys <= queue.Keys
    ensures queue != map[] && LeastKey(queue) <= LeastKey(rest)
  {
    assert LeastKey(rest) in queue;
  }

  /** An addition at the front signals the thread; one behind it does not matter. */
  lemma AddIsTimely(s: State, id: Id)
    requires id in s.schedules && Timely(s)
    ensures var u := QueueAdd(s, id); Timely(SignalIf(u, IsFront(u, id)))
  {
    var u := QueueAdd(s, id);
    hide LeastFree;
    if s.phase == Asleep(false) && !IsFront(u, id) {
      assert u.queue[LeastKey(u.queue)] != id;
      assert LeastKey(u.queue) in s.queue;
    }
  }

  lemma TimelyWhenFewer(s: State, s': State)
    requires Timely(s) && s'.queue.Keys <= s.queue.Keys
    requires s'.phase == s.phase && s'.wake == s.wake && s'.mode == s.mode
    ensures Timely(s')
  {
    hide LeastKey;
    if s'.queue != map[] { FewerKeys(s.queue, s'.queue); }
  }

  /** Every call keeps the sleep of the thread timely. */
  lemma TimelyKept(s: State, a: Action)
    requires Closed(s) && Enabled(s, a) && Timely(s)
    requires !a.ThreadWakes? && !a.ThreadAfterRun? && !a.ThreadAfterAbort? && !a.ThreadLocks?
    ensures Timely(Next(s, a))
  {
    hide Timely, QueueAdd, SignalIf, IsFront, LeastKey, Closed;
    match a
    case DoAdd(id) =>
      if !s.schedules[id].scheduled {
        TimelyWhenFewer(s, IdleRemove(s, id));
        AddIsTimely(IdleRemove(s, id), id);
      }
    case DoAddRandomised(id, offset, now) =>
      var t := UpdateStart(s, id, now + offset).(clock := now);
      TimelyWhenFewer(s, IdleRemove(t, id));
      AddIsTimely(IdleRemove(t, id), id);
    case DoReset(id, delay, now) =>
      var t := s.(clock := now);
      if s.schedules[id].scheduled {
        var u := UpdateStart(QueueRemove(t, id), id, s.schedules[id].period + now + delay);
        TimelyWhenFewer(s, u);
        AddIsTimely(u, id);
      } else {
        TimelyWhenFewer(s, Next(s, a));
      }
    case DoChangeMode(to) => ChangeIsTimely(s, to);
    case DoCreate(id, period, delay, repeat, now) => TimelyWhenFewer(s, Next(s, a));
    case DoRemove(id) => TimelyWhenFewer(s, Next(s, a));
    case DoDelete(id) => TimelyWhenFewer(s, Next(s, a));
    case DoRelease(id) => TimelyWhenFewer(s, Next(s, a));
    case DoRunEnds(id) => TimelyWhenFewer(s, Next(s, a));
    case DoSetConcurrent(id, enable) => TimelyWhenFewer(s, Next(s, a));
    case DoSetSync(id, enable) => TimelyWhenFewer(s, Next(s, a));
  }

  lemma ChangeIsTimely(s: State, to: Mode)
    requires Timely(s)
    ensures Timely(ChangeMode(s, to))
  {
  }

  // ---------------------------------------------------------------- what is queued before the thread sleeps

  /** The wake-up time is no later than any start. */
  ghost predicate OnTime(s: State) {
    forall k :: k in s.queue ==> s.wake <= k
  }

  /** The wake-up time is not computed again when the mutex is locked. */
  lemma LocksAsComputed(s: State)
    requires Closed(s) && Enabled(s, ThreadLocks) && s.mode == Running
    ensures Timely(Next(s, ThreadLocks)) <==> OnTime(s)
  {
    var s' := Next(s, ThreadLocks);
    if s.queue != map[] { assert LeastKey(s'.queue) in s.queue; }
  }

  /** The call puts its schedule on the queue. */
  predicate Queues(s: State, a: Action) {
    match a
    case DoAdd(id) => id in s.schedules && !s.schedules[id].scheduled
    case DoAddRandomised(id, _, _) => id in s.schedules && !s.schedules[id].scheduled
    case DoReset(id, _, _) => id in s.schedules && s.schedules[id].scheduled
    case _ => false
  }

  function Who(a: Action): Id
    requires a.DoAdd? || a.DoAddRandomised? || a.DoReset?
  {
    a.id
  }

  /** The queue without the schedule. */
  function Others(s: State, a: Action): map<nat, Id>
    requires Queues(s, a)
  {
    if a.DoReset? then s.queue - {s.schedules[a.id].start} else s.queue
  }

  /** The start that the call asks for. */
  function Requested(s: State, a: Action): nat
    requires Queues(s, a)
  {
    match a
    case DoAdd(id) => s.schedules[id].start
    case DoAddRandomised(_, offset, now) => now + offset
    case DoReset(id, delay, now) => s.schedules[id].period + now + delay
  }

  /** The start that the schedule gets: the first one from there on that is free. */
  function PutIn(s: State, a: Action): nat
    requires Queues(s, a)
  {
    LeastFree(Others(s, a).Keys, Requested(s, a))
  }

  lemma QueuedByCall(s: State, a: Action)
    requires Closed(s) && Enabled(s, a) && Queues(s, a)
    ensures Next(s, a).queue == Others(s, a)[PutIn(s, a) := Who(a)]
    ensures Next(s, a).wake == s.wake && Next(s, a).mode == s.mode && (s.phase == Between ==> Next(s, a).phase == Between)
  {
    hide LeastFree, LeastKey;
  }

  lemma NotQueuedByCall(s: State, a: Action)
    requires Closed(s) && Enabled(s, a) && !Queues(s, a)
    requires !a.ThreadWakes? && !a.ThreadAfterRun? && !a.ThreadAfterAbort?
    ensures Next(s, a).wake == s.wake
    ensures forall k :: k in Next(s, a).queue ==> k in s.queue && s.queue[k] == Next(s, a).queue[k]
    ensures a.DoAdd? || a.DoReset? ==>
      Next(s, a).queue == s.queue && Next(s, a).phase == s.phase && Next(s, a).mode == s.mode
  {
    hide LeastFree, LeastKey;
  }

  /** One call before the thread locks the mutex, while its sleep would still be timely: the sleep stays timely if and
      only if the call queues nothing, or queues its schedule no earlier than the wake-up time. */
  lemma CallBeforeSleep(s: State, a: Action)
    requires Consistent(s) && Closed(s) && Enabled(s, a) && s.phase == Between && OnTime(s)
    requires a.DoAdd? || a.DoAddRandomised? || a.DoReset?
    ensures OnTime(Next(s, a)) <==> (Queues(s, a) ==> s.wake <= PutIn(s, a))
    ensures s.mode == Running ==>
      var s' := Next(s, a);
      && Closed(s') && Enabled(s', ThreadLocks)
      && (Timely(Next(s', ThreadLocks)) <==> (Queues(s, a) ==> s.wake <= PutIn(s, a)))
  {
    hide *;
    StepKeeps(s, a);
    StillOnTime(s, a);
    if s.mode == Running {
      MayLock(Next(s, a));
      LocksAsComputed(Next(s, a));
    }
  }

  lemma StillOnTime(s: State, a: Action)
    requires Closed(s) && Enabled(s, a) && s.phase == Between && OnTime(s)
    requires a.DoAdd? || a.DoAddRandomised? || a.DoReset?
    ensures OnTime(Next(s, a)) <==> (Queues(s, a) ==> s.wake <= PutIn(s, a))
    ensures Next(s, a).phase == Between && Next(s, a).mode == s.mode
  {
    hide Next, PutIn, Queues, Closed, Enabled;
    if Queues(s, a) {
      QueuedByCall(s, a);
      assert PutIn(s, a) in Next(s, a).queue;
      assert forall k :: k in Others(s, a) ==> k in s.queue;
    } else {
      if a.DoAddRandomised? { RandomisedQueues(s, a); }
      NotQueuedByCall(s, a);
    }
  }

  lemma RandomisedQueues(s: State, a: Action)
    requires Enabled(s, a) && a.DoAddRandomised?
    ensures Queues(s, a)
  {
  }

  lemma MayLock(s: State)
    requires s.phase == Between && s.mode == Running
    ensures Enabled(s, ThreadLocks)
  {
  }

  /** The thread computes its wake-up time and gives the mutex up. */
  ghost predicate SetsWake(s: State, a: Action)
    requires Enabled(s, a) && Closed(s)
  {
    ((a.ThreadWakes? && s.mode == Running) || a.ThreadAfterRun? || a.ThreadAfterAbort?) && Next(s, a).phase == Between
  }

  /** The wake-up time is the first start, or a day from now if nothing is queued. */
  ghost predicate WakesFirst(s: State, ch: Choice) {
    s.wake == if s.queue != map[] then LeastKey(s.queue) else ch.t3 + DEFAULT_WAKE
  }

  lemma CloseWakesFirst(s: State, ch: Choice)
    ensures WakesFirst(Close(s, ch), ch)
  {
    hide LeastKey;
  }

  lemma FirstIsOnTime(s: State, ch: Choice)
    requires WakesFirst(s, ch)
    ensures OnTime(s)
  {
  }

  /** Either the wake-up time has been computed from the queue, or neither has changed. */
  ghost predicate ComputedOrKept(s: State, s': State, ch: Choice) {
    if s'.phase == Between then WakesFirst(s', ch) else s'.queue == s.queue && s'.wake == s.wake
  }

  lemma EndVisitComputes(s: State, id: Id, valid: bool, ch: Choice)
    requires id in s.schedules
    ensures EndVisit(s, id, valid, ch).phase == Between && WakesFirst(EndVisit(s, id, valid, ch), ch)
  {
    hide WakesFirst, Close, Requeue;
    ClosePhase(if valid then Requeue(Touch(s, id), id, ch) else s, ch);
    CloseWakesFirst(if valid then Requeue(Touch(s, id), id, ch) else s, ch);
  }

  lemma ClosePhase(s: State, ch: Choice)
    ensures Close(s, ch).phase == Between
  {
    hide LeastKey;
  }

  lemma DispatchComputes(s: State, id: Id, valid: bool, ch: Choice)
    requires id in s.schedules
    ensures ComputedOrKept(s, Dispatch(s, id, valid, ch), ch)
  {
    hide EndVisit, WakesFirst, Requeue;
    var x := s.schedules[id];
    EndVisitComputes(Drop(s, id), id, valid, ch);
    EndVisitComputes(HandOver(s, id), id, valid, ch);
    EndVisitComputes(Drop(s, id), id, x.refs > 1 && x.scheduled, ch);
  }

  lemma DueComputes(s: State, id: Id, ch: Choice)
    requires id in s.schedules
    ensures ComputedOrKept(s, Due(s, id, ch), ch)
  {
    hide Dispatch, EndVisit, WakesFirst;
    EndVisitComputes(Skip(s, id, ch.t1), id, true, ch);
    DispatchComputes(Take(s, id, ch.t1), id, true, ch);
  }

  lemma AwakeComputes(s: State, ch: Choice)
    requires s.queue != map[] ==> s.queue[LeastKey(s.queue)] in s.schedules
    ensures if s.mode == Running then ComputedOrKept(s, Awake(s, ch), ch) else Awake(s, ch).queue == s.queue && Awake(s, ch).wake == s.wake
  {
    hide Due, WakesFirst, Close, Touch;
    if s.mode == Running {
      if s.queue == map[] {
        ClosePhase(s, ch);
        CloseWakesFirst(s, ch);
      } else {
        var id := s.queue[LeastKey(s.queue)];
        var u := Touch(s, id).(clock := ch.t1);
        DueComputes(s, id, ch);
        ClosePhase(u, ch);
        CloseWakesFirst(u, ch);
      }
    }
  }

  /** Each step of the thread either computes the wake-up time, which is then the first start, or leaves it and the queue
      alone. */
  lemma ThreadComputes(s: State, a: Action)
    requires Closed(s) && Enabled(s, a) && (a.ThreadWakes? || a.ThreadAfterRun? || a.ThreadAfterAbort?)
    ensures if SetsWake(s, a) then WakesFirst(Next(s, a), a.ch) && OnTime(Next(s, a)) else Next(s, a).queue == s.queue && Next(s, a).wake == s.wake
  {
    hide Awake, Dispatch, EndVisit, WakesFirst, OnTime, Touch, Drop, LeastKey;
    if SetsWake(s, a) && WakesFirst(Next(s, a), a.ch) { FirstIsOnTime(Next(s, a), a.ch); }
    match a
    case ThreadWakes(ch) => AwakeComputes(s, ch);
    case ThreadAfterRun(ch) =>
      var id := s.phase.current;
      TouchKeepsQueue(s, id);
      DispatchComputes(Touch(s, id), id, s.schedules[id].scheduled, ch);
    case ThreadAfterAbort(ch) =>
      var id := s.phase.current;
      var x := s.schedules[id];
      DropKeepsName(s, id);
      EndVisitComputes(Drop(s, id), id, x.refs > 1 && x.scheduled, ch);
  }

  lemma TouchKeepsQueue(s: State, id: Id)
    requires id in s.schedules
    ensures var t := Touch(s, id); t.queue == s.queue && t.wake == s.wake && t.schedules == s.schedules && t.phase == s.phase
  {
  }

  lemma DropKeepsName(s: State, id: Id)
    requires id in s.schedules
    ensures id in Drop(s, id).schedules
  {
  }

  /** A step that leaves the wake-up time alone: what is queued after it was queued before it, or has been put in. */
  lemma QueueHistory(s: State, a: Action, k: nat)
    requires Closed(s) && Enabled(s, a) && !SetsWake(s, a) && k in Next(s, a).queue
    ensures Next(s, a).wake == s.wake
    ensures (k in s.queue && s.queue[k] == Next(s, a).queue[k]) ||
            (Queues(s, a) && k == PutIn(s, a) && Next(s, a).queue[k] == Who(a))
  {
    hide Next, PutIn, SetsWake, Closed, Enabled;
    if a.ThreadWakes? || a.ThreadAfterRun? || a.ThreadAfterAbort? {
      ThreadComputes(s, a);
    } else if Queues(s, a) {
      QueuedByCall(s, a);
    } else {
      NotQueuedByCall(s, a);
    }
  }

  /** Step i put a schedule in before `wake`, and in state s it is still where it was put. */
  ghost predicate PutInEarly(before: State, a: Action, s: State) {
    Queues(before, a) && PutIn(before, a) < s.wake && PutIn(before, a) in s.queue && s.queue[PutIn(before, a)] == Who(a)
  }

  ghost predicate Computes(trace: seq<State>, actions: seq<Action>, i: nat)
    requires Run(trace, actions) && i < |actions|
  {
    assert Leads(trace[i], trace[i + 1], actions[i]);
    SetsWake(trace[i], actions[i])
  }

  /** The last step before k that computed the wake-up time, or -1 if there was none. */
  ghost predicate LastComputed(trace: seq<State>, actions: seq<Action>, last: int, k: nat)
    requires Run(trace, actions) && k < |trace|
  {
    && -1 <= last < k
    && (last >= 0 ==> Computes(trace, actions, last))
    && (forall i :: last < i < k ==> !Computes(trace, actions, i))
  }

  lemma ComputedOnTime(trace: seq<State>, actions: seq<Action>, last: int)
    requires Run(trace, actions) && -1 <= last < |actions| && (last >= 0 ==> Computes(trace, actions, last))
    ensures OnTime(trace[last + 1])
  {
    if last >= 0 {
      assert Leads(trace[last], trace[last + 1], actions[last]);
      hide Next, Run, OnTime;
      ThreadComputes(trace[last], actions[last]);
    }
  }

  /** A start before the wake-up time was put in after that time was computed. */
  lemma {:induction false} EarlyStartWasPutIn(trace: seq<State>, actions: seq<Action>, last: int, k: nat, start: nat)
    returns (i: nat)
    requires Run(trace, actions) && k < |trace| && LastComputed(trace, actions, last, k)
    requires start in trace[k].queue && start < trace[k].wake
    ensures last < i < k && Queues(trace[i], actions[i]) && PutIn(trace[i], actions[i]) == start
    ensures trace[k].queue[start] == Who(actions[i])
    decreases k
  {
    ComputedOnTime(trace, actions, last);
    assert last < k - 1;
    var s, a := trace[k - 1], actions[k - 1];
    assert Leads(s, trace[k], a) && !Computes(trace, actions, k - 1);
    hide Next, PutIn, Queues;
    QueueHistory(s, a, start);
    if start in s.queue && s.queue[start] == trace[k].queue[start] {
      i := EarlyStartWasPutIn(trace, actions, last, k - 1, start);
    } else {
      i := k - 1;
    }
  }

  /** In every run the thread's sleep is timely if and only if, since it last computed its wake-up time, no schedule was
      put in with an earlier start that is still queued there. */
  lemma SleepIsTimely(trace: seq<State>, actions: seq<Action>, last: int, k: nat)
    requires Run(trace, actions) && k < |actions| && actions[k] == ThreadLocks && trace[k].mode == Running
    requires LastComputed(trace, actions, last, k)
    ensures Timely(trace[k + 1]) <==> !exists i :: last < i < k && PutInEarly(trace[i], actions[i], trace[k])
  {
    assert Leads(trace[k], trace[k + 1], actions[k]);
    hide Next, PutIn, Queues, Timely, Run, LastComputed;
    LocksAsComputed(trace[k]);
    if !OnTime(trace[k]) {
      var start :| start in trace[k].queue && start < trace[k].wake;
      var i := EarlyStartWasPutIn(trace, actions, last, k, start);
      assert PutInEarly(trace[i], actions[i], trace[k]);
    }
  }

  /** The thread finds an empty queue and decides to sleep for a day. */
  lemma EmptyQueueWake(s: State, ch: Choice)
    requires s.mode == Running && s.queue == map[]
    ensures Awake(s, ch) == s.(wake := ch.t3 + DEFAULT_WAKE, clock := ch.t3, phase := Between)
  {
  }

  /** The first schedule of all is queued while the thread is between its unlock and its next lock. */
  lemma AddUnheard(s: State, id: Id)
    requires id in s.schedules && !s.schedules[id].scheduled && s.queue == map[] && s.phase == Between
    ensures var s' := AddCall(s, id);
      id in s'.schedules && s'.queue == map[s.schedules[id].start := id] && s'.phase == Between && s'.wake == s.wake && s'.mode == s.mode
  {
    hide LeastKey;
    assert LeastFree({}, s.schedules[id].start) == s.schedules[id].start;
    assert s.queue.Keys == {};
  }

  const LOST: seq<Action> := [
    DoChangeMode(Running), ThreadLocks, ThreadWakes(Choice(1, 2, 3, false, Accepted)),
    DoCreate(0, 10, 0, 0, 4), DoAdd(0), ThreadLocks]

  lemma SixSteps(trace: seq<State>)
    requires |trace| == 7 && trace[0] == Init(0)
    requires Leads(trace[0], trace[1], LOST[0]) && Leads(trace[1], trace[2], LOST[1]) && Leads(trace[2], trace[3], LOST[2])
    requires Leads(trace[3], trace[4], LOST[3]) && Leads(trace[4], trace[5], LOST[4]) && Leads(trace[5], trace[6], LOST[5])
    ensures Run(trace, LOST)
  {
    hide Leads, Init;
  }

  /** The scheduler starts with nothing to do and its thread computes its wake-up time. */
  lemma StartsEmpty() returns (s0: State, s1: State, s2: State, s3: State)
    ensures s0 == Init(0) && Leads(s0, s1, LOST[0]) && Leads(s1, s2, LOST[1]) && Leads(s2, s3, LOST[2])
    ensures s3 == State(map[], map[], {}, 3, Running, 3 + DEFAULT_WAKE, Between, false)
  {
    hide Awake;
    s0 := Init(0);
    s1 := s0.(mode := Running);
    s2 := s1.(phase := Asleep(false));
    s3 := Awake(s2, Choice(1, 2, 3, false, Accepted));
    EmptyQueueWake(s2, Choice(1, 2, 3, false, Accepted));
  }

  /** Before it goes to sleep a schedule is added. */
  lemma AddedInBetween(s3: State) returns (s4: State, s5: State, s6: State)
    requires s3 == State(map[], map[], {}, 3, Running, 3 + DEFAULT_WAKE, Between, false)
    ensures Leads(s3, s4, LOST[3]) && Leads(s4, s5, LOST[4]) && Leads(s5, s6, LOST[5])
    ensures s6.phase == Asleep(false) && s6.queue == map[4 := 0] && s6.wake == 3 + DEFAULT_WAKE
  {
    hide AddCall;
    s4 := Create(s3, 0, 10, 0, 0, 4);
    assert s4.schedules[0].start == 4;
    s5 := AddCall(s4, 0);
    AddUnheard(s4, 0);
    s6 := s5.(phase := Asleep(false));
  }

  /** A schedule added while the thread holds no lock and is not yet in its timed wait signals nobody, so
      the thread may sleep a day although the schedule is due in no time. */
  lemma LostWakeup()
    ensures exists trace: seq<State> ::
      && Run(trace, LOST)
      && var s := trace[|LOST|];
        s.phase == Asleep(false) && s.queue != map[] && s.wake == LeastKey(s.queue) + DEFAULT_WAKE - 1
  {
    var s0, s1, s2, s3 := StartsEmpty();
    var s4, s5, s6 := AddedInBetween(s3);
    hide Leads, Run;
    var trace := [s0, s1, s2, s3, s4, s5, s6];
    SixSteps(trace);
    assert 4 in s6.queue;
    assert LeastKey(s6.queue) == 4;
    assert trace[|LOST|] == s6;
  }

  const STOPPED: seq<Action> := [
    DoChangeMode(Running), ThreadLocks, ThreadWakes(Choice(1, 2, 3, false, Accepted)), ThreadLocks,
    DoChangeMode(Stopped), ThreadWakes(Choice(4, 5, 6, false, Accepted)),
    DoCreate(0, 10, 0, 0, 4), DoAdd(0), DoChangeMode(Running), ThreadLocks]

  lemma TenSteps(trace: seq<State>)
    requires |trace| == 11 && trace[0] == Init(0)
    requires Leads(trace[0], trace[1], STOPPED[0]) && Leads(trace[1], trace[2], STOPPED[1])
    requires Leads(trace[2], trace[3], STOPPED[2]) && Leads(trace[3], trace[4], STOPPED[3])
    requires Leads(trace[4], trace[5], STOPPED[4]) && Leads(trace[5], trace[6], STOPPED[5])
    requires Leads(trace[6], trace[7], STOPPED[6]) && Leads(trace[7], trace[8], STOPPED[7])
    requires Leads(trace[8], trace[9], STOPPED[8]) && Leads(trace[9], trace[10], STOPPED[9])
    ensures Run(trace, STOPPED)
  {
    hide Leads, Init;
  }

  /** The scheduler is stopped while its thread is in the timed wait; the thread comes out and waits for the start. */
  lemma StopsAsleep(s3: State) returns (s4: State, s5: State, s6: State)
    requires s3 == State(map[], map[], {}, 3, Running, 3 + DEFAULT_WAKE, Between, false)
    ensures Leads(s3, s4, STOPPED[3]) && Leads(s4, s5, STOPPED[4]) && Leads(s5, s6, STOPPED[5])
    ensures s6 == State(map[], map[], {}, 3, Stopped, 3 + DEFAULT_WAKE, Between, false)
  {
    hide Due, Close;
    s4 := s3.(phase := Asleep(false));
    s5 := s4.(mode := Stopped, phase := Asleep(true));
    s6 := s5.(phase := Between);
  }

  /** A schedule is added meanwhile, and the scheduler is started again. */
  lemma AddedWhileStopped(s6: State) returns (s7: State, s8: State, s9: State, s10: State)
    requires s6 == State(map[], map[], {}, 3, Stopped, 3 + DEFAULT_WAKE, Between, false)
    ensures Leads(s6, s7, STOPPED[6]) && Leads(s7, s8, STOPPED[7]) && Leads(s8, s9, STOPPED[8]) && Leads(s9, s10, STOPPED[9])
    ensures s10.phase == Asleep(false) && s10.queue == map[4 := 0] && s10.wake == 3 + DEFAULT_WAKE
  {
    hide AddCall;
    s7 := Create(s6, 0, 10, 0, 0, 4);
    assert s7.schedules[0].start == 4;
    s8 := AddCall(s7, 0);
    AddUnheard(s7, 0);
    s9 := s8.(mode := Running);
    s10 := s9.(phase := Asleep(false));
  }

  /** No race is needed: with nothing queued, stop the scheduler, add a schedule, and start it again. The addition
      signals nobody, the thread goes back to its timed wait with the wake-up time of before, and sleeps a day. */
  lemma StoppedAddIsLost()
    ensures exists trace: seq<State> ::
      && Run(trace, STOPPED)
      && var s := trace[|STOPPED|];
        s.phase == Asleep(false) && s.queue != map[] && s.wake == LeastKey(s.queue) + DEFAULT_WAKE - 1
  {
    var s0, s1, s2, s3 := StartsEmpty();
    var s4, s5, s6 := StopsAsleep(s3);
    var s7, s8, s9, s10 := AddedWhileStopped(s6);
    hide Leads, Run;
    var trace := [s0, s1, s2, s3, s4, s5, s6, s7, s8, s9, s10];
    TenSteps(trace);
    assert 4 in s10.queue;
    assert LeastKey(s10.queue) == 4;
    assert trace[|STOPPED|] == s10;
  }
}
