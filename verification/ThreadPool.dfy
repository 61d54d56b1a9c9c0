// The thread pool of src/c/threadpool.c as a state machine.
module ThreadPool {
  // The protocol between the workers, the threads that hand jobs to them and those that start, stop and wait for the
  // pool. Every critical section is one step; calls that wait on a condition variable are split at the wait.

  import opened Components
  import opened JobOrder
  import opened Monitors
  import opened Options

  datatype Request = Request(priority: int, work: nat)

  datatype Pool = Pool(
    maxJobs: nat,
    mode: Mode,
    queue: seq<Job>,
    jobs: nat,
    nextId: nat,
    working: nat,
    ready: set<Thread>,             // workers on their way to the mutex at the top of their loop
    busy: set<Thread>,              // workers running a job
    exited: set<Thread>,
    modeCond: Condition,            // workers wait here for the pool to run
    jobCond: Condition,             // workers wait here for a job
    queueCond: Condition,           // producers wait here for space
    workCond: Condition,            // callers of wait
    offered: map<Thread, Request>,  // what each blocked producer wants to add
    accepted: seq<Job>,             // every job ever queued
    started: seq<Job>               // every job ever pulled, in order
  )

  /** The pool after its workers have been created; no limit on the jobs means UINT32_MAX. */
  function Init(workers: set<Thread>, maxJobs: nat): Pool {
    Pool(if maxJobs == 0 then 0xFFFF_FFFF else maxJobs, Initial, [], 0, 0, 0, workers, {}, {},
         Idle, Idle, Idle, Idle, map[], [], [])
  }

  // ---------------------------------------------------------------- critical sections

  /** iot_threadpool_add_work_locked; the signal wakes w. */
  function Add(p: Pool, r: Request, w: set<Thread>): Pool {
    var job := Job(p.nextId, r.priority, r.work);
    p.(queue := Insert(p.queue, job), jobs := p.jobs + 1, nextId := p.nextId + 1,
       accepted := p.accepted + [job], jobCond := Wake(p.jobCond, w))
  }

  /** A worker takes the first job. The last job taken is signalled, to w; space in a full queue is broadcast. */
  function Pull(p: Pool, t: Thread, w: set<Thread>): Pool
    requires p.queue != [] && p.jobs > 0
  {
    p.(queue := p.queue[1..], jobs := p.jobs - 1, working := p.working + 1, busy := p.busy + {t},
       started := p.started + [p.queue[0]],
       workCond := if p.jobs - 1 == 0 then Wake(p.workCond, w) else p.workCond,
       queueCond := if p.jobs == p.maxJobs then WakeAll(p.queueCond) else p.queueCond)
  }

  /** The worker has the mutex at the top of its loop. */
  function LoopTop(p: Pool, t: Thread, w: set<Thread>): Pool
    requires p.jobs == |p.queue|
  {
    if p.mode != Deleted && p.mode != Running then p.(modeCond := Sleep(p.modeCond, t))
    else if p.mode == Deleted then p.(exited := p.exited + {t})
    else if p.queue != [] then Pull(p, t, w)
    else p.(jobCond := Sleep(p.jobCond, t))
  }

  /** The worker has finished its job and has the mutex again. */
  function Finish(p: Pool, t: Thread, w: set<Thread>): Pool
    requires p.working > 0
  {
    p.(working := p.working - 1, busy := p.busy - {t}, ready := p.ready + {t},
       workCond := if p.working - 1 == 0 then Wake(p.workCond, w) else p.workCond)
  }

  function Produce(p: Pool, t: Thread, r: Request, w: set<Thread>): Pool {
    if p.jobs == p.maxJobs then p.(queueCond := Sleep(p.queueCond, t), offered := p.offered[t := r])
    else Add(p, r, w)
  }

  function Await(p: Pool, t: Thread): Pool {
    if p.jobs != 0 || p.working != 0 then p.(workCond := Sleep(p.workCond, t)) else p
  }

  function SetMode(p: Pool, to: Mode): Pool {
    if Allowed(p.mode, to) then p.(mode := to, modeCond := WakeAll(p.modeCond)) else p
  }

  datatype Call =
    | Enter(t: Thread)              // a worker locks the mutex at the top of its loop
    | EnterResumed(t: Thread)       // the same after a wait for the pool to run
    | JobResumed(t: Thread)         // a worker returns from its wait for a job
    | Done(t: Thread)
    | TryWork(r: Request)
    | AddWork(t: Thread, r: Request)
    | AddWorkResumed(t: Thread)
    | Wait(t: Thread)
    | WaitResumed(t: Thread)
    | Change(to: Mode)              // the first half of start and of stop; deletion
    | Rouse                         // the second half of start and of stop

  predicate Worker(p: Pool, t: Thread) {
    t in p.ready || t in p.busy || t in p.exited || Present(p.modeCond, t) || Present(p.jobCond, t)
  }

  /** A thread that can make calls: not a worker, or one that is running a job; not inside another call. */
  predicate Caller(p: Pool, t: Thread) {
    (Worker(p, t) ==> t in p.busy) && !Present(p.queueCond, t) && !Present(p.workCond, t)
  }

  predicate Enabled(p: Pool, c: Call) {
    match c
    case Enter(t) => t in p.ready
    case EnterResumed(t) => Present(p.modeCond, t)
    case JobResumed(t) => Present(p.jobCond, t)
    case Done(t) => t in p.busy && Caller(p, t)
    case AddWork(t, _) => Caller(p, t)
    case AddWorkResumed(t) => Present(p.queueCond, t) && t in p.offered
    case Wait(t) => Caller(p, t)
    case WaitResumed(t) => Present(p.workCond, t)
    case _ => true
  }

  function Next(p: Pool, c: Call, w: set<Thread>): Pool
    requires p.jobs == |p.queue| && p.working == |p.busy| && Enabled(p, c)
  {
    match c
    case Enter(t) => LoopTop(p.(ready := p.ready - {t}), t, w)
    case EnterResumed(t) => LoopTop(p.(modeCond := Leave(p.modeCond, t)), t, w)
    case JobResumed(t) => p.(jobCond := Leave(p.jobCond, t), ready := p.ready + {t})
    case Done(t) => assert p.busy != {}; Finish(p, t, w)
    case TryWork(r) => if p.jobs < p.maxJobs then Add(p, r, w) else p
    case AddWork(t, r) => Produce(p, t, r, w)
    case AddWorkResumed(t) =>
      Produce(p.(queueCond := Leave(p.queueCond, t), offered := p.offered - {t}), t, p.offered[t], w)
    case Wait(t) => Await(p, t)
    case WaitResumed(t) => Await(p.(workCond := Leave(p.workCond, t)), t)
    case Change(to) => SetMode(p, to)
    case Rouse => p.(jobCond := WakeAll(p.jobCond))
  }

  /** Nobody else is waiting for the pool: the signal wakes a single thread. */
  predicate Alone(p: Pool, c: Call) {
    c.Wait? ==> p.workCond == Idle
  }

  /** The condition variable a call may signal. */
  function Signalled(p: Pool, c: Call): Condition {
    if c.Enter? || c.EnterResumed? || c.Done? then p.workCond else p.jobCond
  }

  ghost predicate Step(p: Pool, p': Pool) {
    && p.jobs == |p.queue| && p.working == |p.busy|
    && exists c: Call, w: set<Thread> ::
      Enabled(p, c) && Alone(p, c) && Signal(Signalled(p, c), w) && p' == Next(p, c, w)
  }

  // ---------------------------------------------------------------- what every step keeps

  ghost predicate Counts(p: Pool) {
    p.jobs == |p.queue| <= p.maxJobs && p.maxJobs > 0 && p.working == |p.busy|
  }

  /** In how many places the thread is as a worker. */
  function Places(p: Pool, t: Thread): nat {
    In(p.ready, t) + In(p.busy, t) + In(p.exited, t) + At(p.modeCond, t) + At(p.jobCond, t)
  }

  function In(s: set<Thread>, t: Thread): nat {
    if t in s then 1 else 0
  }

  function At(c: Condition, t: Thread): nat {
    In(c.waiting, t) + In(c.woken, t)
  }

  /** A worker is in one place at a time. */
  ghost predicate Apart(p: Pool) {
    forall t :: Places(p, t) <= 1
  }

  ghost predicate CallersApart(p: Pool) {
    && Proper(p.queueCond) && Proper(p.workCond)
    && (forall t :: Present(p.queueCond, t) ==> t in p.offered)
  }

  /** Workers that will look at the queue before they sleep for want of a job. */
  function Coming(p: Pool): set<Thread> {
    p.ready + p.modeCond.waiting + p.modeCond.woken + p.jobCond.woken
  }

  ghost predicate ModeReaches(p: Pool) {
    p.mode == Running || p.mode == Deleted ==> p.modeCond.waiting == {}
  }

  ghost predicate JobsReach(p: Pool) {
    p.jobCond.waiting != {} && p.mode != Deleted ==> |p.queue| <= |Coming(p)|
  }

  ghost predicate SpaceReaches(p: Pool) {
    p.queueCond.waiting != {} ==> p.jobs == p.maxJobs
  }

  ghost predicate Lone(c: Condition) {
    forall t, u :: Present(c, t) && Present(c, u) ==> t == u
  }

  ghost predicate EndReaches(p: Pool) {
    && Lone(p.workCond)
    && (p.workCond.waiting != {} ==> p.jobs != 0 || p.working != 0)
  }

  ghost predicate Ordered(p: Pool) {
    Sorted(p.queue) && Older(p.queue, p.nextId)
  }

  ghost predicate Conserved(p: Pool) {
    multiset(p.accepted) == multiset(p.started) + multiset(p.queue)
  }

  ghost predicate Contents(p: Pool) {
    Counts(p) && Ordered(p) && Conserved(p)
  }

  /** What holds however many threads wait for the pool. */
  ghost predicate Shared(p: Pool) {
    && Contents(p) && Apart(p) && CallersApart(p)
    && ModeReaches(p) && JobsReach(p) && SpaceReaches(p)
  }

  ghost predicate Invariant(p: Pool) {
    Shared(p) && EndReaches(p)
  }

  lemma InitHolds(workers: set<Thread>, maxJobs: nat)
    ensures Invariant(Init(workers, maxJobs))
  {
  }

  // ---------------------------------------------------------------- moving about

  lemma AtMoves(c: Condition, t: Thread, u: Thread, w: set<Thread>)
    ensures w <= c.waiting && Proper(c) ==> At(Wake(c, w), u) == At(c, u)
    ensures Proper(c) ==> At(WakeAll(c), u) == At(c, u)
    ensures At(c, t) == 0 ==> At(Sleep(c, t), u) == At(c, u) + In({t}, u)
    ensures At(c, t) == 1 ==> At(Leave(c, t), u) == At(c, u) - In({t}, u)
  {
  }

  lemma ProperFromPlaces(p: Pool)
    requires Apart(p)
    ensures Proper(p.modeCond) && Proper(p.jobCond)
    ensures p.ready !! p.busy
    ensures Coming(p) !! p.jobCond.waiting
  {
    forall t | t in p.modeCond.waiting ensures t !in p.modeCond.woken { assert Places(p, t) <= 1; }
    forall t | t in p.jobCond.waiting ensures t !in p.jobCond.woken && t !in Coming(p) { assert Places(p, t) <= 1; }
    forall t | t in p.ready ensures t !in p.busy { assert Places(p, t) <= 1; }
  }

  lemma LoopTopPlaces(p: Pool, t: Thread, w: set<Thread>, u: Thread)
    requires p.jobs == |p.queue| && Places(p, t) == 0
    ensures Places(LoopTop(p, t, w), u) == Places(p, u) + In({t}, u)
  {
    AtMoves(p.modeCond, t, u, w);
    AtMoves(p.jobCond, t, u, w);
    hide Wake, WakeAll, Sleep, Leave, At;
  }

  /** No step moves a thread in or out of the pool, or puts a worker in two places. */
  lemma PlacesKept(p: Pool, c: Call, w: set<Thread>, u: Thread)
    requires Counts(p) && Apart(p) && Enabled(p, c) && Signal(Signalled(p, c), w)
    ensures Places(Next(p, c, w), u) == Places(p, u)
  {
    ProperFromPlaces(p);
    hide Counts, Insert;
    match c
    case Enter(t) =>
      assert Places(p, t) <= 1;
      LoopTopPlaces(p.(ready := p.ready - {t}), t, w, u);
    case EnterResumed(t) =>
      assert Places(p, t) <= 1;
      AtMoves(p.modeCond, t, u, w);
      AtMoves(p.modeCond, t, t, w);
      LoopTopPlaces(p.(modeCond := Leave(p.modeCond, t)), t, w, u);
    case JobResumed(t) => AtMoves(p.jobCond, t, u, w); assert Places(p, t) <= 1;
    case Done(t) =>
    case TryWork(r) => AtMoves(p.jobCond, u, u, w);
    case AddWork(t, r) => AtMoves(p.jobCond, u, u, w);
    case AddWorkResumed(t) => AtMoves(p.jobCond, u, u, w);
    case Wait(t) =>
    case WaitResumed(t) =>
    case Change(to) => AtMoves(p.modeCond, u, u, w);
    case Rouse => AtMoves(p.jobCond, u, u, w);
  }

  lemma ApartKept(p: Pool, c: Call, w: set<Thread>)
    requires Counts(p) && Apart(p) && Enabled(p, c) && Signal(Signalled(p, c), w)
    ensures Apart(Next(p, c, w))
  {
    hide Places;
    forall u ensures Places(Next(p, c, w), u) <= 1 {
      assert Places(p, u) <= 1;
      PlacesKept(p, c, w, u);
    }
  }

  // ---------------------------------------------------------------- the queue and the counters

  lemma AddContents(p: Pool, r: Request, w: set<Thread>)
    requires Contents(p) && p.jobs < p.maxJobs
    ensures Contents(Add(p, r, w))
  {
    var job := Job(p.nextId, r.priority, r.work);
    InsertHolds(p.queue, job);
    InsertKeepsOrder(p.queue, job);
    InsertKeepsAge(p.queue, job);
    hide Insert, Sorted, Older;
  }

  lemma PullContents(p: Pool, t: Thread, w: set<Thread>)
    requires Contents(p) && p.queue != [] && t !in p.busy
    ensures Contents(Pull(p, t, w))
  {
    assert p.queue == [p.queue[0]] + p.queue[1..];
  }

  lemma FinishContents(p: Pool, t: Thread, w: set<Thread>)
    requires Contents(p) && t in p.busy && p.working > 0
    ensures Contents(Finish(p, t, w))
  {
  }

  lemma LoopTopContents(p: Pool, t: Thread, w: set<Thread>)
    requires Contents(p) && t !in p.busy
    ensures Contents(LoopTop(p, t, w))
  {
    hide Counts, Ordered, Conserved, Pull;
    if p.queue != [] { PullContents(p, t, w); }
    SameContents(p, p.(modeCond := Sleep(p.modeCond, t)));
    SameContents(p, p.(exited := p.exited + {t}));
    SameContents(p, p.(jobCond := Sleep(p.jobCond, t)));
  }

  lemma SameContents(p: Pool, p': Pool)
    requires Contents(p)
    requires p'.queue == p.queue && p'.jobs == p.jobs && p'.working == p.working && p'.busy == p.busy
    requires p'.maxJobs == p.maxJobs && p'.nextId == p.nextId && p'.accepted == p.accepted && p'.started == p.started
    ensures Contents(p')
  {
  }

  lemma ProduceContents(p: Pool, t: Thread, r: Request, w: set<Thread>)
    requires Contents(p)
    ensures Contents(Produce(p, t, r, w))
  {
    hide Add, Ordered, Conserved;
    if p.jobs == p.maxJobs {
      SameContents(p, Produce(p, t, r, w));
    } else {
      AddContents(p, r, w);
    }
  }

  lemma AwaitContents(p: Pool, t: Thread)
    requires Contents(p)
    ensures Contents(Await(p, t))
  {
    hide Contents;
    SameContents(p, Await(p, t));
  }

  lemma ContentsKept(p: Pool, c: Call, w: set<Thread>)
    requires Contents(p) && Apart(p) && Enabled(p, c)
    ensures Contents(Next(p, c, w))
  {
    ProperFromPlaces(p);
    assert c.EnterResumed? ==> c.t !in p.busy by { if c.EnterResumed? { assert Places(p, c.t) <= 1; } }
    assert Counts(p);
    hide Contents, LoopTop, Produce, Await, Finish, Add, Ordered, Conserved;
    match c
    case Enter(t) =>
      var q := p.(ready := p.ready - {t});
      SameContents(p, q);
      LoopTopContents(q, t, w);
    case EnterResumed(t) =>
      var q := p.(modeCond := Leave(p.modeCond, t));
      SameContents(p, q);
      LoopTopContents(q, t, w);
    case JobResumed(t) => SameContents(p, Next(p, c, w));
    case Done(t) => FinishContents(p, t, w);
    case TryWork(r) => if p.jobs < p.maxJobs { AddContents(p, r, w); }
    case AddWork(t, r) => ProduceContents(p, t, r, w);
    case AddWorkResumed(t) =>
      var q := p.(queueCond := Leave(p.queueCond, t), offered := p.offered - {t});
      SameContents(p, q);
      ProduceContents(q, t, p.offered[t], w);
    case Wait(t) => AwaitContents(p, t);
    case WaitResumed(t) =>
      var q := p.(workCond := Leave(p.workCond, t));
      SameContents(p, q);
      AwaitContents(q, t);
    case Change(to) => SameContents(p, Next(p, c, w));
    case Rouse => SameContents(p, Next(p, c, w));
  }

  // ---------------------------------------------------------------- no lost wake-ups

  lemma {:induction false} Larger(a: set<Thread>, b: set<Thread>)
    requires a <= b
    ensures |a| <= |b|
  {
    assert b == a + (b - a);
  }

  /** With the worker gone from where it was, the others may be one too few for the queue. */
  ghost predicate JobsNearlyReach(p: Pool) {
    p.jobCond.waiting != {} && p.mode != Deleted ==> |p.queue| <= |Coming(p)| + 1
  }

  lemma LoopTopReaches(p: Pool, t: Thread, w: set<Thread>)
    requires p.jobs == |p.queue| && JobsNearlyReach(p) && Places(p, t) == 0
    ensures JobsReach(LoopTop(p, t, w))
  {
    var q := LoopTop(p, t, w);
    if p.mode != Deleted && p.mode != Running {
      assert Coming(q) == Coming(p) + {t};
    } else if p.queue != [] {
      assert Coming(q) == Coming(p);
    }
  }

  lemma AddReaches(p: Pool, r: Request, w: set<Thread>)
    requires JobsReach(p) && Coming(p) !! p.jobCond.waiting && Signal(p.jobCond, w)
    ensures JobsReach(Add(p, r, w))
  {
    InsertHolds(p.queue, Job(p.nextId, r.priority, r.work));
    hide Insert;
    assert Coming(Add(p, r, w)) == Coming(p) + w;
    if p.jobCond.waiting - w != {} { assert |Coming(p) + w| == |Coming(p)| + |w|; }
  }

  /** More workers on their way, fewer asleep: nothing is lost. */
  lemma MoreComing(p: Pool, p': Pool)
    requires JobsReach(p) && p'.queue == p.queue && (p'.mode == Deleted || p.mode != Deleted)
    requires Coming(p) <= Coming(p') && p'.jobCond.waiting <= p.jobCond.waiting
    ensures JobsReach(p')
  {
    Larger(Coming(p), Coming(p'));
  }

  lemma OneFewerComing(p: Pool, q: Pool, t: Thread)
    requires JobsReach(p) && q.queue == p.queue && q.mode == p.mode && q.jobCond == p.jobCond
    requires Coming(p) <= Coming(q) + {t}
    ensures JobsNearlyReach(q)
  {
    Larger(Coming(p), Coming(q) + {t});
  }

  lemma JobsReachKept(p: Pool, c: Call, w: set<Thread>)
    requires Counts(p) && Apart(p) && JobsReach(p) && Enabled(p, c) && Signal(Signalled(p, c), w)
    ensures JobsReach(Next(p, c, w))
  {
    ProperFromPlaces(p);
    hide JobsReach, LoopTop, Add;
    match c
    case Enter(t) =>
      var q := p.(ready := p.ready - {t});
      assert Places(p, t) <= 1;
      OneFewerComing(p, q, t);
      LoopTopReaches(q, t, w);
    case EnterResumed(t) =>
      var q := p.(modeCond := Leave(p.modeCond, t));
      assert Places(p, t) <= 1;
      OneFewerComing(p, q, t);
      LoopTopReaches(q, t, w);
    case JobResumed(t) => MoreComing(p, Next(p, c, w));
    case Done(t) => MoreComing(p, Next(p, c, w));
    case TryWork(r) => if p.jobs < p.maxJobs { AddReaches(p, r, w); }
    case AddWork(t, r) => if p.jobs < p.maxJobs { AddReaches(p, r, w); } else { MoreComing(p, Next(p, c, w)); }
    case AddWorkResumed(t) =>
      var q := p.(queueCond := Leave(p.queueCond, t), offered := p.offered - {t});
      MoreComing(p, q);
      if p.jobs < p.maxJobs { AddReaches(q, p.offered[t], w); } else { MoreComing(q, Next(p, c, w)); }
    case Wait(t) => MoreComing(p, Next(p, c, w));
    case WaitResumed(t) => MoreComing(p, Next(p, c, w));
    case Change(to) => MoreComing(p, Next(p, c, w));
    case Rouse => MoreComing(p, Next(p, c, w));
  }

  lemma ModeReachesKept(p: Pool, c: Call, w: set<Thread>)
    requires Counts(p) && ModeReaches(p) && Enabled(p, c)
    ensures ModeReaches(Next(p, c, w))
  {
  }

  lemma SpaceReachesKept(p: Pool, c: Call, w: set<Thread>)
    requires Counts(p) && SpaceReaches(p) && Enabled(p, c)
    ensures SpaceReaches(Next(p, c, w))
  {
    hide Insert, Present, Caller, Wake, Allowed;
  }

  lemma WakeLone(c: Condition, w: set<Thread>)
    requires Lone(c) && Signal(c, w)
    ensures Lone(Wake(c, w)) && Wake(c, w).waiting == {}
  {
    forall u | u in c.waiting ensures u in w {
      var v :| v in w;
      assert Present(c, u) && Present(c, v);
    }
    forall u | Present(Wake(c, w), u) ensures Present(c, u) {}
  }

  lemma LeaveLone(c: Condition, t: Thread)
    requires Lone(c) && Present(c, t)
    ensures Leave(c, t) == Idle
  {
    forall u | u in c.waiting ensures u == t { assert Present(c, u); }
    forall u | u in c.woken ensures u == t { assert Present(c, u); }
  }

  lemma FewLone(t: Thread)
    ensures Lone(Idle) && Lone(Sleep(Idle, t))
  {
  }

  lemma EndReachesKept(p: Pool, c: Call, w: set<Thread>)
    requires Counts(p) && EndReaches(p) && Enabled(p, c) && Alone(p, c) && Signal(Signalled(p, c), w)
    ensures EndReaches(Next(p, c, w))
  {
    if c.Enter? || c.EnterResumed? || c.Done? { WakeLone(p.workCond, w); }
    if c.WaitResumed? { LeaveLone(p.workCond, c.t); }
    if c.Wait? || c.WaitResumed? { FewLone(c.t); }
    hide Lone, Wake, Leave, Sleep, Present;
  }

  lemma CallersApartKept(p: Pool, c: Call, w: set<Thread>)
    requires Counts(p) && CallersApart(p) && Enabled(p, c) && Signal(Signalled(p, c), w)
    ensures CallersApart(Next(p, c, w))
  {
    hide Insert, Worker, Allowed;
  }

  lemma SharedKept(p: Pool, c: Call, w: set<Thread>)
    requires Shared(p) && Enabled(p, c) && Signal(Signalled(p, c), w)
    ensures p.jobs == |p.queue| && p.working == |p.busy| && Shared(Next(p, c, w))
  {
    assert Counts(p);
    hide Enabled, Next, Contents, Apart, CallersApart, ModeReaches, JobsReach, SpaceReaches;
    ContentsKept(p, c, w);
    ApartKept(p, c, w);
    CallersApartKept(p, c, w);
    ModeReachesKept(p, c, w);
    JobsReachKept(p, c, w);
    SpaceReachesKept(p, c, w);
  }

  /** Every step of every thread keeps the invariant. */
  lemma StepKeeps(p: Pool, p': Pool)
    requires Invariant(p) && Step(p, p')
    ensures Invariant(p')
  {
    var c: Call, w: set<Thread> :|
      Enabled(p, c) && Alone(p, c) && Signal(Signalled(p, c), w) && p' == Next(p, c, w);
    assert Counts(p);
    hide Enabled, Next, Shared, EndReaches;
    SharedKept(p, c, w);
    EndReachesKept(p, c, w);
  }

  ghost predicate Run(trace: seq<Pool>, workers: set<Thread>, maxJobs: nat) {
    && trace != [] && trace[0] == Init(workers, maxJobs)
    && forall i :: 0 <= i < |trace| - 1 ==> Step(trace[i], trace[i + 1])
  }

  lemma {:induction false} InvariantOfRuns(trace: seq<Pool>, workers: set<Thread>, maxJobs: nat, i: nat)
    requires Run(trace, workers, maxJobs) && i < |trace|
    ensures Invariant(trace[i])
  {
    if i == 0 {
      InitHolds(workers, maxJobs);
    } else {
      InvariantOfRuns(trace, workers, maxJobs, i - 1);
      StepKeeps(trace[i - 1], trace[i]);
    }
  }

  /** Workers that are awake and look for a job next. */
  function AwakeIdle(p: Pool): set<Thread> {
    p.ready + p.modeCond.woken + p.jobCond.woken
  }

  /** No wake-up is lost in any run: while the pool runs, a worker sleeps unsignalled only if every queued
      job has an awake idle worker; a producer sleeps unsignalled only while the queue is full; a lone
      caller of wait sleeps unsignalled only while there is a job queued or running. */
  lemma NoLostWakeups(trace: seq<Pool>, workers: set<Thread>, maxJobs: nat, i: nat)
    requires Run(trace, workers, maxJobs) && i < |trace|
    ensures var p := trace[i];
      && (p.mode == Running && p.jobCond.waiting != {} ==> |p.queue| <= |AwakeIdle(p)|)
      && (p.queueCond.waiting != {} ==> |p.queue| == p.maxJobs)
      && (p.workCond.waiting != {} ==> p.queue != [] || p.busy != {})
  {
    InvariantOfRuns(trace, workers, maxJobs, i);
    var p := trace[i];
    assert p.modeCond.waiting == {} ==> Coming(p) == AwakeIdle(p);
  }

  /** In every state of every run: the queue is a stable priority queue within its limit, and every job
      ever accepted is either queued or has been pulled, once. */
  lemma StablePriorityQueue(trace: seq<Pool>, workers: set<Thread>, maxJobs: nat, i: nat)
    requires Run(trace, workers, maxJobs) && i < |trace|
    ensures var p := trace[i];
      && Sorted(p.queue) && p.jobs == |p.queue| <= p.maxJobs
      && multiset(p.accepted) == multiset(p.started) + multiset(p.queue)
  {
    InvariantOfRuns(trace, workers, maxJobs, i);
  }

  /** The job a worker pulls comes before every other job in the queue. */
  lemma PulledFirst(p: Pool, c: Call, w: set<Thread>)
    requires Invariant(p) && Enabled(p, c) && Next(p, c, w).started != p.started
    ensures p.queue != [] && Next(p, c, w).started == p.started + [p.queue[0]]
    ensures forall i :: 0 < i < |p.queue| ==> Before(p.queue[0], p.queue[i])
  {
    hide Insert;
  }

  /** No worker is ever lost or made: a thread has as many places in the pool after a step as before. */
  lemma {:induction false} WorkersStay(trace: seq<Pool>, workers: set<Thread>, maxJobs: nat, i: nat, t: Thread)
    requires Run(trace, workers, maxJobs) && i < |trace|
    ensures Places(trace[i], t) == In(workers, t)
  {
    if i > 0 {
      WorkersStay(trace, workers, maxJobs, i - 1, t);
      InvariantOfRuns(trace, workers, maxJobs, i - 1);
      var p := trace[i - 1];
      assert Step(p, trace[i]);
      var c: Call, w: set<Thread> :|
        Enabled(p, c) && Alone(p, c) && Signal(Signalled(p, c), w) && trace[i] == Next(p, c, w);
      hide Enabled, Next;
      PlacesKept(p, c, w, t);
    }
  }

  // ---------------------------------------------------------------- stopping

  /** A step that is not the first half of a start. */
  ghost predicate StepWithoutStart(p: Pool, p': Pool) {
    && p.jobs == |p.queue| && p.working == |p.busy|
    && exists c: Call, w: set<Thread> ::
      Enabled(p, c) && c != Change(Running) && Signal(Signalled(p, c), w) && p' == Next(p, c, w)
  }

  ghost predicate Quiet(p: Pool) {
    p.mode != Running && p.jobCond.waiting == {}
  }

  lemma QuietStays(p: Pool, p': Pool)
    requires StepWithoutStart(p, p')
    ensures p.mode != Running ==> p'.mode != Running
    ensures Quiet(p) ==> Quiet(p')
  {
    var c: Call, w: set<Thread> :|
      Enabled(p, c) && c != Change(Running) && Signal(Signalled(p, c), w) && p' == Next(p, c, w);
    hide Insert;
  }

  /** The state of the pool has been changed to stopped before trace[from]; at `rouse` the stop broadcasts.
      As long as nobody starts the pool again, no worker is asleep on the job condition from then on. */
  lemma {:induction false} StopWakesAll(trace: seq<Pool>, from: nat, rouse: nat, k: nat)
    requires from <= rouse < k < |trace| && trace[from].mode != Running
    requires forall i :: from <= i < |trace| - 1 ==> StepWithoutStart(trace[i], trace[i + 1])
    requires trace[rouse + 1] == trace[rouse].(jobCond := WakeAll(trace[rouse].jobCond))
    ensures Quiet(trace[k])
  {
    hide StepWithoutStart;
    if k == rouse + 1 {
      NotRunning(trace, from, rouse);
    } else {
      StopWakesAll(trace, from, rouse, k - 1);
      QuietStays(trace[k - 1], trace[k]);
    }
  }

  lemma {:induction false} NotRunning(trace: seq<Pool>, from: nat, k: nat)
    requires from <= k < |trace| && trace[from].mode != Running
    requires forall i :: from <= i < |trace| - 1 ==> StepWithoutStart(trace[i], trace[i + 1])
    ensures trace[k].mode != Running
  {
    hide StepWithoutStart;
    if k > from {
      NotRunning(trace, from, k - 1);
      QuietStays(trace[k - 1], trace[k]);
    }
  }

  // ---------------------------------------------------------------- several callers of wait

  datatype Event = Event(call: Call, woken: set<Thread>)

  /** A step with any number of callers of wait. */
  ghost predicate FreeStep(p: Pool, e: Event, p': Pool) {
    && p.jobs == |p.queue| && p.working == |p.busy|
    && Enabled(p, e.call) && Signal(Signalled(p, e.call), e.woken) && p' == Next(p, e.call, e.woken)
  }

  ghost predicate FreeRun(trace: seq<Pool>, events: seq<Event>, workers: set<Thread>, maxJobs: nat) {
    && |trace| == |events| + 1 && trace[0] == Init(workers, maxJobs)
    && forall i :: 0 <= i < |events| ==> FreeStep(trace[i], events[i], trace[i + 1])
  }

  lemma {:induction false} SharedRuns(trace: seq<Pool>, events: seq<Event>, workers: set<Thread>, maxJobs: nat, i: nat)
    requires FreeRun(trace, events, workers, maxJobs) && i < |trace|
    ensures Shared(trace[i])
  {
    if i == 0 {
      InitHolds(workers, maxJobs);
    } else {
      SharedRuns(trace, events, workers, maxJobs, i - 1);
      assert FreeStep(trace[i - 1], events[i - 1], trace[i]);
      hide Shared, Next, Enabled;
      SharedKept(trace[i - 1], events[i - 1].call, events[i - 1].woken);
    }
  }

  /** Somebody sleeps in wait although the pool has nothing to do. */
  predicate Stranded(p: Pool) {
    p.workCond.waiting != {} && p.queue == [] && p.busy == {}
  }

  /** The call ends the last job there is. */
  predicate RunsOut(p: Pool, c: Call) {
    c.Done? && p.busy == {c.t} && p.queue == []
  }

  lemma BusyAlone(p: Pool, t: Thread)
    requires Counts(p) && t in p.busy
    ensures p.busy - {t} == {} <==> p.busy == {t}
    ensures p.working - 1 == 0 <==> p.busy == {t}
  {
    assert p.busy == (p.busy - {t}) + {t};
  }

  /** A step strands a caller if and only if it ends the last job and its signal does not reach all who wait. */
  lemma StrandedByStep(p: Pool, c: Call, w: set<Thread>)
    requires Shared(p) && Enabled(p, c) && Signal(Signalled(p, c), w) && p.jobs == |p.queue| && p.working == |p.busy|
    requires !Stranded(p)
    ensures Stranded(Next(p, c, w)) <==> RunsOut(p, c) && p.workCond.waiting - w != {}
  {
    if c.Done? { BusyAlone(p, c.t); }
    InsertIsSome(p, c);
    hide Insert, Shared;
  }

  lemma InsertIsSome(p: Pool, c: Call)
    ensures forall job :: Insert(p.queue, job) != []
  {
    forall job ensures Insert(p.queue, job) != [] { InsertHolds(p.queue, job); }
  }

  /** The step is safe, whichever threads the signal wakes, if and only if it does not end the last job while two or
      more threads wait. */
  lemma SafeForTheWaiters(p: Pool, c: Call)
    requires Shared(p) && Enabled(p, c) && p.jobs == |p.queue| && p.working == |p.busy| && !Stranded(p)
    ensures (forall w :: Signal(Signalled(p, c), w) ==> !Stranded(Next(p, c, w))) <==>
            !(RunsOut(p, c) && |p.workCond.waiting| >= 2)
  {
    hide Next, Shared, Enabled, Stranded;
    var waiting := p.workCond.waiting;
    forall w | Signal(Signalled(p, c), w) && RunsOut(p, c) && |waiting| < 2 ensures !Stranded(Next(p, c, w)) {
      StrandedByStep(p, c, w);
      FewWaiters(waiting, w);
    }
    forall w | Signal(Signalled(p, c), w) && !RunsOut(p, c) ensures !Stranded(Next(p, c, w)) {
      StrandedByStep(p, c, w);
    }
    if RunsOut(p, c) && |waiting| >= 2 {
      var t :| t in waiting;
      assert Signal(Signalled(p, c), {t});
      StrandedByStep(p, c, {t});
      assert waiting == (waiting - {t}) + {t};
    }
  }

  lemma FewWaiters(waiting: set<Thread>, w: set<Thread>)
    requires |waiting| < 2 && w <= waiting && (waiting != {} ==> w != {})
    ensures waiting - w == {}
  {
    if waiting != {} {
      var t :| t in w;
      assert waiting == (waiting - {t}) + {t};
    }
  }

  /** Over any run with any number of callers of wait: nobody is ever asleep in wait of an idle pool if and only if every
      step that ends the last job wakes all who wait. */
  lemma WaitersAreServed(trace: seq<Pool>, events: seq<Event>, workers: set<Thread>, maxJobs: nat)
    requires FreeRun(trace, events, workers, maxJobs)
    ensures (forall i :: 0 <= i < |trace| ==> !Stranded(trace[i])) <==>
            (forall i :: 0 <= i < |events| ==> !(RunsOut(trace[i], events[i].call) && trace[i].workCond.waiting - events[i].woken != {}))
  {
    hide FreeStep, Stranded, RunsOut;
    var good := forall i :: 0 <= i < |events| ==> !(RunsOut(trace[i], events[i].call) && trace[i].workCond.waiting - events[i].woken != {});
    if good {
      forall i | 0 <= i < |trace| ensures !Stranded(trace[i]) { ServedSoFar(trace, events, workers, maxJobs, i); }
    }
    if forall i :: 0 <= i < |trace| ==> !Stranded(trace[i]) {
      forall i | 0 <= i < |events|
        ensures !(RunsOut(trace[i], events[i].call) && trace[i].workCond.waiting - events[i].woken != {})
      {
        assert !Stranded(trace[i]) && !Stranded(trace[i + 1]);
        ServedHere(trace, events, workers, maxJobs, i);
      }
    }
  }

  lemma ServedHere(trace: seq<Pool>, events: seq<Event>, workers: set<Thread>, maxJobs: nat, i: nat)
    requires FreeRun(trace, events, workers, maxJobs) && i < |events| && !Stranded(trace[i])
    ensures Stranded(trace[i + 1]) <==> RunsOut(trace[i], events[i].call) && trace[i].workCond.waiting - events[i].woken != {}
  {
    SharedRuns(trace, events, workers, maxJobs, i);
    assert FreeStep(trace[i], events[i], trace[i + 1]);
    hide Shared, Next, Enabled, Stranded, RunsOut;
    StrandedByStep(trace[i], events[i].call, events[i].woken);
  }

  lemma {:induction false} ServedSoFar(trace: seq<Pool>, events: seq<Event>, workers: set<Thread>, maxJobs: nat, k: nat)
    requires FreeRun(trace, events, workers, maxJobs) && k < |trace|
    requires forall i :: 0 <= i < |events| ==> !(RunsOut(trace[i], events[i].call) && trace[i].workCond.waiting - events[i].woken != {})
    ensures !Stranded(trace[k])
  {
    hide FreeStep, RunsOut;
    if k > 0 {
      ServedSoFar(trace, events, workers, maxJobs, k - 1);
      ServedHere(trace, events, workers, maxJobs, k - 1);
    }
  }

  const TWO_WAIT: seq<Event> := [
    Event(Change(Running), {}), Event(TryWork(Request(0, 0)), {}), Event(Enter(1), {}),
    Event(Wait(7), {}), Event(Wait(8), {}), Event(Done(1), {7})]

  lemma SixEvents(trace: seq<Pool>)
    requires |trace| == 7 && trace[0] == Init({1}, 1)
    requires FreeStep(trace[0], TWO_WAIT[0], trace[1]) && FreeStep(trace[1], TWO_WAIT[1], trace[2])
    requires FreeStep(trace[2], TWO_WAIT[2], trace[3]) && FreeStep(trace[3], TWO_WAIT[3], trace[4])
    requires FreeStep(trace[4], TWO_WAIT[4], trace[5]) && FreeStep(trace[5], TWO_WAIT[5], trace[6])
    ensures FreeRun(trace, TWO_WAIT, {1}, 1)
  {
    hide FreeStep, Init;
  }

  /** The pool of one worker starts with a job that the worker takes. */
  lemma JobTaken() returns (s0: Pool, s1: Pool, s2: Pool, s3: Pool)
    ensures s0 == Init({1}, 1)
    ensures FreeStep(s0, TWO_WAIT[0], s1) && FreeStep(s1, TWO_WAIT[1], s2) && FreeStep(s2, TWO_WAIT[2], s3)
    ensures s3 == Pool(1, Running, [], 0, 1, 1, {}, {1}, {}, Idle, Idle, Idle, Idle, map[], [Job(0, 0, 0)], [Job(0, 0, 0)])
  {
    var job := Job(0, 0, 0);
    s0 := Init({1}, 1);
    s1 := s0.(mode := Running);
    s2 := s1.(queue := [job], jobs := 1, nextId := 1, accepted := [job]);
    s3 := s2.(queue := [], jobs := 0, working := 1, ready := {}, busy := {1}, started := [job]);
    assert Insert([], job) == [job];
    assert Wake(Idle, {}) == Idle && WakeAll(Idle) == Idle;
    assert s2.ready - {1} == {};
  }

  /** Two threads wait for it. */
  lemma TwoWait(s3: Pool) returns (s4: Pool, s5: Pool)
    requires s3.jobs == 0 && s3.queue == [] && s3.working == 1 && s3.busy == {1} && s3.workCond == Idle
    requires s3.ready == {} && s3.exited == {} && s3.modeCond == Idle && s3.jobCond == Idle && s3.queueCond == Idle
    ensures FreeStep(s3, TWO_WAIT[3], s4) && FreeStep(s4, TWO_WAIT[4], s5)
    ensures s5 == s3.(workCond := Condition({7, 8}, {}))
  {
    s4 := s3.(workCond := Condition({7}, {}));
    s5 := s3.(workCond := Condition({7, 8}, {}));
    assert s4.workCond.waiting + {8} == {7, 8};
  }

  /** The job ends and its signal wakes one of them. */
  lemma OneWoken(s5: Pool) returns (s6: Pool)
    requires s5.jobs == 0 && s5.queue == [] && s5.working == 1 && s5.busy == {1} && s5.workCond == Condition({7, 8}, {})
    requires s5.queueCond == Idle
    ensures FreeStep(s5, TWO_WAIT[5], s6) && Stranded(s6)
  {
    s6 := Next(s5, Done(1), {7});
    assert 8 in s6.workCond.waiting;
  }

  /** One worker, one job, two callers of wait: the signal at the end of the job wakes one, and the other sleeps on
      although the pool has nothing left to do. */
  lemma SecondWaiterIsLost()
    ensures exists trace :: FreeRun(trace, TWO_WAIT, {1}, 1) && Stranded(trace[|TWO_WAIT|])
  {
    var s0, s1, s2, s3 := JobTaken();
    var s4, s5 := TwoWait(s3);
    var s6 := OneWoken(s5);
    hide FreeStep, FreeRun, Stranded;
    var trace := [s0, s1, s2, s3, s4, s5, s6];
    SixEvents(trace);
    assert trace[|TWO_WAIT|] == s6;
  }

  // ---------------------------------------------------------------- whose jobs they are

  /** The request of the call with which the thread last asked for a job to be added. */
  function LastRequest(events: seq<Event>, t: Thread): Option<Request> {
    if events == [] then None
    else
      var c := events[|events| - 1].call;
      if c.AddWork? && c.t == t then Some(c.r) else LastRequest(events[..|events| - 1], t)
  }

  /** What the call hands in, after the events before it. */
  function HandsIn(c: Call, before: seq<Event>): Option<Request> {
    if c.TryWork? || c.AddWork? then Some(c.r)
    else if c.AddWorkResumed? then LastRequest(before, c.t)
    else None
  }

  /** The requests of a run that found room in the queue, in order. */
  ghost function Requests(trace: seq<Pool>, events: seq<Event>): seq<Request>
    requires |trace| == |events| + 1
  {
    if events == [] then []
    else
      var n := |events| - 1;
      Requests(trace[..n + 1], events[..n]) + Admitted(trace[n], HandsIn(events[n].call, events[..n]))
  }

  function Admitted(p: Pool, request: Option<Request>): seq<Request> {
    if request.Some? && |p.queue| < p.maxJobs then [request.value] else []
  }

  /** The jobs are numbered from 0 and each has the priority and the work of its request. */
  ghost predicate Carry(jobs: seq<Job>, requests: seq<Request>) {
    && |jobs| == |requests|
    && forall i :: 0 <= i < |jobs| ==> jobs[i] == Job(i, requests[i].priority, requests[i].work)
  }

  /** What a call does to the jobs accepted, given what it hands in. */
  lemma CallAccepts(p: Pool, e: Event, p': Pool, request: Option<Request>)
    requires Counts(p) && FreeStep(p, e, p')
    requires e.call.TryWork? || e.call.AddWork? ==> request == Some(e.call.r)
    requires e.call.AddWorkResumed? && e.call.t in p.offered ==> request == Some(p.offered[e.call.t])
    requires !e.call.TryWork? && !e.call.AddWork? && !e.call.AddWorkResumed? ==> request == None
    ensures Admitted(p, request) == [] ==> p'.accepted == p.accepted && p'.nextId == p.nextId
    ensures Admitted(p, request) != [] ==>
              var r := Admitted(p, request)[0];
              p'.accepted == p.accepted + [Job(p.nextId, r.priority, r.work)] && p'.nextId == p.nextId + 1
  {
    hide Insert;
    var c := e.call;
    if c.TryWork? || c.AddWork? || c.AddWorkResumed? {
      Producing(p, c, e.woken);
    } else {
      NotProducing(p, c, e.woken);
    }
  }

  lemma Producing(p: Pool, c: Call, w: set<Thread>)
    requires Counts(p) && Enabled(p, c) && (c.TryWork? || c.AddWork? || c.AddWorkResumed?)
    ensures var r, p' := if c.AddWorkResumed? then p.offered[c.t] else c.r, Next(p, c, w);
      && (p.jobs < p.maxJobs ==>
          p'.accepted == p.accepted + [Job(p.nextId, r.priority, r.work)] && p'.nextId == p.nextId + 1)
      && (p.jobs == p.maxJobs ==> p'.accepted == p.accepted && p'.nextId == p.nextId)
  {
    hide Insert, Wake, Leave, Sleep, Present, Caller;
  }

  lemma NotProducing(p: Pool, c: Call, w: set<Thread>)
    requires Counts(p) && Enabled(p, c) && !c.TryWork? && !c.AddWork? && !c.AddWorkResumed?
    ensures Next(p, c, w).accepted == p.accepted && Next(p, c, w).nextId == p.nextId
    ensures Next(p, c, w).offered == p.offered
  {
    hide Insert, Wake, Leave, Sleep, Present, Caller, WakeAll;
  }

  lemma RequestStays(p: Pool, e: Event, p': Pool, t: Thread)
    requires Counts(p) && CallersApart(p) && FreeStep(p, e, p') && Present(p.queueCond, t) && Present(p'.queueCond, t)
    ensures t in p.offered && t in p'.offered && p'.offered[t] == p.offered[t]
    ensures !(e.call.AddWork? && e.call.t == t)
  {
    hide Insert, Counts;
    var c := e.call;
    if !c.TryWork? && !c.AddWork? && !c.AddWorkResumed? { NotProducing(p, c, e.woken); }
  }

  lemma RequestBlocks(p: Pool, e: Event, p': Pool, t: Thread)
    requires Counts(p) && CallersApart(p) && FreeStep(p, e, p') && !Present(p.queueCond, t) && Present(p'.queueCond, t)
    ensures e.call.AddWork? && e.call.t == t && t in p'.offered && p'.offered[t] == e.call.r
  {
    hide Insert, Counts;
  }

  lemma SharedHas(p: Pool)
    requires Shared(p)
    ensures Counts(p) && CallersApart(p)
  {
    hide Counts, CallersApart;
  }

  /** A thread that is blocked in add_work still has the request it was called with. */
  lemma {:induction false} BlockedRequests(trace: seq<Pool>, events: seq<Event>, workers: set<Thread>, maxJobs: nat, i: nat, t: Thread)
    requires FreeRun(trace, events, workers, maxJobs) && i < |trace| && Present(trace[i].queueCond, t)
    ensures t in trace[i].offered && LastRequest(events[..i], t) == Some(trace[i].offered[t])
  {
    hide Shared, Counts, CallersApart, FreeStep, Next, Enabled;
    if i > 0 {
      var p, e, p' := trace[i - 1], events[i - 1], trace[i];
      SharedRuns(trace, events, workers, maxJobs, i - 1);
      SharedHas(p);
      assert FreeStep(p, e, p');
      assert events[..i][..i - 1] == events[..i - 1];
      if Present(p.queueCond, t) {
        BlockedRequests(trace, events, workers, maxJobs, i - 1, t);
        RequestStays(p, e, p', t);
      } else {
        RequestBlocks(p, e, p', t);
      }
    }
  }

  lemma StepAccepts(trace: seq<Pool>, events: seq<Event>, workers: set<Thread>, maxJobs: nat, n: nat)
    requires FreeRun(trace, events, workers, maxJobs) && n < |events|
    ensures var admitted := Admitted(trace[n], HandsIn(events[n].call, events[..n]));
      && |admitted| <= 1 && trace[n + 1].nextId == trace[n].nextId + |admitted|
      && trace[n + 1].accepted == trace[n].accepted +
           if admitted == [] then [] else [Job(trace[n].nextId, admitted[0].priority, admitted[0].work)]
  {
    hide Shared, Counts, CallersApart, Next, FreeStep, Enabled;
    var p, e, p' := trace[n], events[n], trace[n + 1];
    assert FreeStep(p, e, p');
    SharedRuns(trace, events, workers, maxJobs, n);
    SharedHas(p);
    if e.call.AddWorkResumed? {
      Resuming(p, e, p');
      BlockedRequests(trace, events, workers, maxJobs, n, e.call.t);
    }
    CallAccepts(p, e, p', HandsIn(e.call, events[..n]));
  }

  lemma Resuming(p: Pool, e: Event, p': Pool)
    requires FreeStep(p, e, p') && e.call.AddWorkResumed?
    ensures Present(p.queueCond, e.call.t) && e.call.t in p.offered
  {
    hide Next;
  }

  /** In every run the accepted jobs carry the requests of the calls that found room, in order, also when the caller
      was blocked in between. */
  lemma {:induction false} JobsCarryRequests(trace: seq<Pool>, events: seq<Event>, workers: set<Thread>, maxJobs: nat)
    requires FreeRun(trace, events, workers, maxJobs)
    ensures Carry(trace[|events|].accepted, Requests(trace, events))
    ensures trace[|events|].nextId == |trace[|events|].accepted|
    decreases |events|
  {
    hide FreeStep, HandsIn, Admitted;
    if events != [] {
      var n := |events| - 1;
      JobsCarryRequests(trace[..n + 1], events[..n], workers, maxJobs);
      StepAccepts(trace, events, workers, maxJobs, n);
    }
  }

  // ---------------------------------------------------------------- what a worker does

  /** A worker at the top of its loop takes the first job exactly if the pool runs and there is one; it leaves if the
      pool is deleted; otherwise it sleeps, for the pool to run or for a job. */
  lemma WorkerTakesJob(p: Pool, e: Event, p': Pool)
    requires Shared(p) && FreeStep(p, e, p') && (e.call.Enter? || e.call.EnterResumed?)
    ensures p.mode == Running && p.queue != [] ==>
              p'.started == p.started + [p.queue[0]] && p'.queue == p.queue[1..] && e.call.t in p'.busy
    ensures p.mode != Running || p.queue == [] ==> p'.started == p.started && p'.queue == p.queue && p'.busy == p.busy
    ensures e.call.t in p'.exited - p.exited <==> p.mode == Deleted && e.call.t !in p.exited
    ensures e.call.t in p'.modeCond.waiting <==> p.mode != Running && p.mode != Deleted
    ensures p.mode == Running && p.queue == [] ==> e.call.t in p'.jobCond.waiting
  {
    assert Contents(p) && Apart(p);
    assert Places(p, e.call.t) <= 1;
  }

  /** Start and stop set the state of a pool that is not deleted; deletion needs a stop first and is final. */
  lemma StateChanges(p: Pool, e: Event, p': Pool)
    requires FreeStep(p, e, p')
    ensures p.mode == Deleted ==> p'.mode == Deleted
    ensures p.mode != Deleted && p'.mode == Deleted ==> p.mode != Running && e.call == Change(Deleted)
    ensures (e.call == Change(Running) || e.call == Change(Stopped)) && p.mode != Deleted ==> p'.mode == e.call.to
    ensures e.call == Change(Deleted) && p.mode != Running ==> p'.mode == Deleted
    ensures !e.call.Change? ==> p'.mode == p.mode
    ensures p'.mode != p.mode ==> p'.modeCond.waiting == {}
  {
    hide Insert;
  }
}
