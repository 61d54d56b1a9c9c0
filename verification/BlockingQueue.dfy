// The bounded blocking queue of src/c/queue.c as a state machine.
module BlockingQueue {
  // Every critical section is one step; a thread that waits on a condition variable gives up the mutex in the middle
  // of its call.

  import opened Monitors
  import opened Sequences
  import Options

  datatype State<T> = State(
    items: seq<T>,                // oldest first
    maxsize: nat,                 // 0: no limit
    running: bool,
    added: Condition,             // consumers wait here
    removed: Condition,           // producers wait here
    offered: map<Thread, T>,      // what each blocked producer wants to add
    accepted: seq<T>,             // everything ever added, in order
    delivered: seq<T>             // everything ever handed out, in order
  )

  predicate Full<T(!new)>(s: State<T>) {
    s.maxsize != 0 && |s.items| >= s.maxsize
  }

  function Init<T(!new)>(maxsize: nat): State<T> {
    State([], maxsize, true, Idle, Idle, map[], [], [])
  }

  // ---------------------------------------------------------------- critical sections

  /** iot_data_list_head_push and the signal to one consumer. `w` is who the signal wakes. */
  function Push<T(!new)>(s: State<T>, e: T, w: set<Thread>): State<T> {
    s.(items := s.items + [e], accepted := s.accepted + [e], added := Wake(s.added, w))
  }

  /** iot_data_list_tail_pop and the signal to one producer. */
  function Pop<T(!new)>(s: State<T>, w: set<Thread>): State<T>
    requires s.items != []
  {
    s.(items := s.items[1..], delivered := s.delivered + [s.items[0]], removed := Wake(s.removed, w))
  }

  /** The loop body of iot_queue_dequeue for thread t, on entry or after a wait. */
  function Consume<T(!new)>(s: State<T>, t: Thread, w: set<Thread>): State<T> {
    if s.items != [] then Pop(s, w)
    else if !s.running then s
    else s.(added := Sleep(s.added, t))
  }

  /** The loop of iot_queue_enqueue for thread t with element e, on entry or after a wait. */
  function Produce<T(!new)>(s: State<T>, t: Thread, e: T, w: set<Thread>): State<T> {
    if !Full(s) then Push(s, e, w)
    else if !s.running then s
    else s.(removed := Sleep(s.removed, t), offered := s.offered[t := e])
  }

  /** A blocked producer has the mutex again and is about to look at its loop condition. */
  function Resume<T(!new)>(s: State<T>, t: Thread): State<T> {
    s.(removed := Leave(s.removed, t), offered := s.offered - {t})
  }

  datatype Call<T> =
    | TryDequeue
    | Dequeue(t: Thread)
    | DequeueResumed(t: Thread)
    | TryEnqueue(e: T)
    | Enqueue(t: Thread, e: T)
    | EnqueueResumed(t: Thread)
    | Stop
    | SetMaxSize(limit: nat)

  /** The thread is inside none of the calls. */
  predicate Free<T(!new)>(s: State<T>, t: Thread) {
    !Present(s.added, t) && !Present(s.removed, t)
  }

  /** A call or the continuation of one; waking up needs no signal. */
  predicate Enabled<T(!new)>(s: State<T>, c: Call<T>) {
    match c
    case Dequeue(t) => Free(s, t)
    case DequeueResumed(t) => Present(s.added, t)
    case Enqueue(t, _) => Free(s, t)
    case EnqueueResumed(t) => Present(s.removed, t) && t in s.offered
    case _ => true
  }

  function Next<T(!new)>(s: State<T>, c: Call<T>, w: set<Thread>): State<T>
    requires Enabled(s, c)
  {
    match c
    case TryDequeue => if s.items != [] then Pop(s, w) else s
    case Dequeue(t) => Consume(s, t, w)
    case DequeueResumed(t) => Consume(s.(added := Leave(s.added, t)), t, w)
    case TryEnqueue(e) => if !Full(s) then Push(s, e, w) else s
    case Enqueue(t, e) => Produce(s, t, e, w)
    case EnqueueResumed(t) => Produce(Resume(s, t), t, s.offered[t], w)
    case Stop => s.(running := false, added := WakeAll(s.added), removed := WakeAll(s.removed))
    case SetMaxSize(limit) =>
      s.(maxsize := limit, removed := if limit > s.maxsize || limit == 0 then WakeAll(s.removed) else s.removed)
  }

  /** The condition variable a call may signal. */
  function Signalled<T(!new)>(s: State<T>, c: Call<T>): Condition {
    if c.TryDequeue? || c.Dequeue? || c.DequeueResumed? then s.removed else s.added
  }

  ghost predicate Makes<T(!new)>(s: State<T>, c: Call<T>, s': State<T>) {
    exists w: set<Thread> :: Enabled(s, c) && Signal(Signalled(s, c), w) && s' == Next(s, c, w)
  }

  ghost predicate Step<T(!new)>(s: State<T>, s': State<T>) {
    exists c: Call<T> :: Makes(s, c, s')
  }

  /** What a call tells its caller: an element or NULL, whether the element was added, or nothing yet because the
      caller sleeps. The blocking enqueue returns nothing. */
  datatype Answer<T> = Element(e: T) | NoElement | Added(ok: bool) | Done | Asleep

  function AnswerOf<T(!new)>(s: State<T>, c: Call<T>): Answer<T> {
    match c
    case TryDequeue => if s.items != [] then Element(s.items[0]) else NoElement
    case Dequeue(_) => if s.items != [] then Element(s.items[0]) else if s.running then Asleep else NoElement
    case DequeueResumed(_) => if s.items != [] then Element(s.items[0]) else if s.running then Asleep else NoElement
    case TryEnqueue(_) => Added(!Full(s))
    case Enqueue(_, _) => if Full(s) && s.running then Asleep else Done
    case EnqueueResumed(_) => if Full(s) && s.running then Asleep else Done
    case Stop => Done
    case SetMaxSize(_) => Done
  }

  // ---------------------------------------------------------------- invariants of every run

  ghost predicate Invariant<T(!new)>(s: State<T>) {
    && Proper(s.added) && Proper(s.removed)
    && (forall t :: Present(s.removed, t) ==> t in s.offered)
    && s.accepted == s.delivered + s.items
    && (s.added.waiting != {} ==> s.running && |s.items| <= |s.added.woken|)
    && (s.removed.waiting != {} ==> s.running && s.maxsize != 0 && s.maxsize - |s.items| <= |s.removed.woken|)
  }

  lemma InitHolds<T(!new)>(maxsize: nat)
    ensures Invariant(Init<T>(maxsize))
  {
  }

  lemma PushKeeps<T(!new)>(s: State<T>, e: T, w: set<Thread>)
    requires Invariant(s) && !Full(s) && Signal(s.added, w)
    ensures Invariant(Push(s, e, w))
  {
    WakeCounts(s.added, w);
    Assoc(s.delivered, s.items, [e]);
  }

  lemma PopKeeps<T(!new)>(s: State<T>, w: set<Thread>)
    requires Invariant(s) && s.items != [] && Signal(s.removed, w)
    ensures Invariant(Pop(s, w))
  {
    WakeCounts(s.removed, w);
    Assoc(s.delivered, [s.items[0]], s.items[1..]);
    assert s.items == [s.items[0]] + s.items[1..];
  }

  /** A consumer that was woken takes an element or finds the queue empty; either way the balance holds. */
  lemma ConsumeKeeps<T(!new)>(s: State<T>, t: Thread, w: set<Thread>)
    requires Enabled(s, Dequeue(t)) || Enabled(s, DequeueResumed(t))
    requires Invariant(s) && Signal(s.removed, w)
    ensures Enabled(s, Dequeue(t)) ==> Invariant(Consume(s, t, w))
    ensures Enabled(s, DequeueResumed(t)) ==> Invariant(Consume(s.(added := Leave(s.added, t)), t, w))
  {
    if Enabled(s, Dequeue(t)) {
      if s.items != [] { PopKeeps(s, w); }
    } else {
      var u := s.(added := Leave(s.added, t));
      LeaveCounts(s.added, t);
      if s.items != [] {
        PopKeeps(s, w);
        assert Pop(u, w) == Pop(s, w).(added := u.added);
      }
    }
  }

  lemma EnqueueKeeps<T(!new)>(s: State<T>, t: Thread, e: T, w: set<Thread>)
    requires Invariant(s) && Signal(s.added, w) && Enabled(s, Enqueue(t, e))
    ensures Invariant(Produce(s, t, e, w))
  {
    if !Full(s) { PushKeeps(s, e, w); }
  }

  /** A producer that was woken fills a slot. */
  lemma FillSlotKeeps<T(!new)>(s: State<T>, t: Thread, e: T, w: set<Thread>)
    requires Invariant(s) && !Full(s) && Signal(s.added, w)
    ensures Invariant(Resume(Push(s, e, w), t))
  {
    PushKeeps(s, e, w);
    hide Push, Leave, Wake;
    PushTakesSlot(s, e, w);
    LeaveCounts(s.removed, t);
    LeaveStays(s.removed, t);
  }

  /** A producer that was woken finds the queue full, so that the others woken still match the free slots. */
  lemma FindFullKeeps<T(!new)>(s: State<T>, t: Thread)
    requires Invariant(s) && Full(s) && Present(s.removed, t) && t in s.offered
    ensures !s.running ==> Invariant(Resume(s, t))
    ensures s.running ==> Invariant(Resume(s, t).(removed := Sleep(Leave(s.removed, t), t), offered := s.offered))
  {
    LeaveCounts(s.removed, t);
  }

  lemma EnqueueResumedKeeps<T(!new)>(s: State<T>, t: Thread, w: set<Thread>)
    requires Invariant(s) && Signal(s.added, w) && Enabled(s, EnqueueResumed(t))
    ensures Invariant(Next(s, EnqueueResumed(t), w))
  {
    if !Full(s) {
      FillSlotKeeps(s, t, s.offered[t], w);
      PushApart(s, t, s.offered[t], w);
    } else {
      FindFullKeeps(s, t);
      assert (s.offered - {t})[t := s.offered[t]] == s.offered;
    }
  }

  lemma PushApart<T(!new)>(s: State<T>, t: Thread, e: T, w: set<Thread>)
    ensures Push(Resume(s, t), e, w) == Resume(Push(s, e, w), t)
  {
  }

  lemma PushTakesSlot<T(!new)>(s: State<T>, e: T, w: set<Thread>)
    ensures var u := Push(s, e, w);
      u.removed == s.removed && u.running == s.running && u.maxsize == s.maxsize && |u.items| == |s.items| + 1
  {
  }

  /** Every step of every thread keeps the invariant. */
  lemma StepKeeps<T(!new)>(s: State<T>, s': State<T>)
    requires Invariant(s) && Step(s, s')
    ensures Invariant(s')
  {
    hide Invariant, Push, Pop, Consume, Produce, Resume;
    var c: Call<T> :| Makes(s, c, s');
    var w: set<Thread> :| Enabled(s, c) && Signal(Signalled(s, c), w) && s' == Next(s, c, w);
    match c
    case TryDequeue => if s.items != [] { PopKeeps(s, w); }
    case Dequeue(t) => ConsumeKeeps(s, t, w);
    case DequeueResumed(t) => ConsumeKeeps(s, t, w);
    case TryEnqueue(e) => if !Full(s) { PushKeeps(s, e, w); }
    case Enqueue(t, e) => EnqueueKeeps(s, t, e, w);
    case EnqueueResumed(t) => EnqueueResumedKeeps(s, t, w);
    case Stop => StopKeeps(s);
    case SetMaxSize(limit) => SetMaxSizeKeeps(s, limit, w);
  }

  lemma StopKeeps<T(!new)>(s: State<T>)
    requires Invariant(s)
    ensures Invariant(s.(running := false, added := WakeAll(s.added), removed := WakeAll(s.removed)))
  {
  }

  lemma SetMaxSizeKeeps<T(!new)>(s: State<T>, limit: nat, w: set<Thread>)
    requires Invariant(s)
    ensures Invariant(Next(s, SetMaxSize(limit), w))
  {
  }

  ghost predicate Run<T(!new)>(trace: seq<State<T>>, maxsize: nat) {
    && trace != [] && trace[0] == Init(maxsize)
    && forall i :: 0 <= i < |trace| - 1 ==> Step(trace[i], trace[i + 1])
  }

  /** In every state of every run: elements come out in the order they went in, each once; a consumer
      sleeps unsignalled only if every element has a woken consumer on its way; a producer sleeps
      unsignalled only if every free slot has a woken producer; nobody sleeps once the queue is stopped. */
  lemma {:induction false} Safety<T(!new)>(trace: seq<State<T>>, maxsize: nat, i: nat)
    requires Run(trace, maxsize) && i < |trace|
    ensures Invariant(trace[i])
    ensures var s := trace[i];
      && s.accepted == s.delivered + s.items
      && (s.added.waiting != {} ==> |s.items| <= |s.added.woken|)
      && (s.removed.waiting != {} ==> s.maxsize != 0 && s.maxsize - |s.items| <= |s.removed.woken|)
      && (!s.running ==> s.added.waiting == {} && s.removed.waiting == {})
  {
    if i == 0 {
      InitHolds<T>(maxsize);
    } else {
      Safety(trace, maxsize, i - 1);
      StepKeeps(trace[i - 1], trace[i]);
    }
  }

  /** An element is added only below the limit in force, whichever call adds it. */
  lemma NoPushWhenFull<T(!new)>(s: State<T>, c: Call<T>, w: set<Thread>)
    requires Enabled(s, c) && s.accepted != Next(s, c, w).accepted
    ensures s.maxsize == 0 || |s.items| < s.maxsize
    ensures exists e :: Next(s, c, w).accepted == s.accepted + [e] && Next(s, c, w).items == s.items + [e]
  {
    var e := if c.EnqueueResumed? then s.offered[c.t] else c.e;
    assert Next(s, c, w).accepted == s.accepted + [e] && Next(s, c, w).items == s.items + [e];
  }

  /** Nobody goes to sleep after the stop, and the stop is final. */
  lemma StoppedStays<T(!new)>(s: State<T>, s': State<T>)
    requires Invariant(s) && Step(s, s') && !s.running
    ensures !s'.running && s'.added.waiting == {} && s'.removed.waiting == {}
  {
    StepKeeps(s, s');
  }

  // ---------------------------------------------------------------- what every call does and answers

  predicate Takes<T(!new)>(c: Call<T>) {
    c.TryDequeue? || c.Dequeue? || c.DequeueResumed?
  }

  /** A consumer gets the oldest element not handed out yet, if and only if there is one. */
  lemma TakersGetTheOldest<T(!new)>(s: State<T>, c: Call<T>, s': State<T>)
    requires Invariant(s) && Makes(s, c, s') && Takes(c)
    ensures s'.accepted == s.accepted
    ensures AnswerOf(s, c).Element? <==> |s.delivered| < |s.accepted|
    ensures AnswerOf(s, c).Element? ==>
              AnswerOf(s, c).e == s.accepted[|s.delivered|] && s'.delivered == s.delivered + [AnswerOf(s, c).e]
    ensures !AnswerOf(s, c).Element? ==> s'.delivered == s.delivered
    ensures AnswerOf(s, c).Asleep? <==> |s.delivered| == |s.accepted| && s.running && !c.TryDequeue?
    ensures !c.TryDequeue? ==> (c.t in s'.added.waiting <==> AnswerOf(s, c).Asleep?)
  {
    var w: set<Thread> :| Enabled(s, c) && Signal(Signalled(s, c), w) && s' == Next(s, c, w);
  }

  /** Who adds what: nothing unless a producer's call finds room. */
  ghost predicate Offers<T(!new)>(s: State<T>, c: Call<T>, e: T) {
    || (c.TryEnqueue? && c.e == e)
    || (c.Enqueue? && c.e == e)
    || (c.EnqueueResumed? && c.t in s.offered && s.offered[c.t] == e)
  }

  predicate Room<T(!new)>(s: State<T>) {
    s.maxsize == 0 || |s.accepted| < |s.delivered| + s.maxsize
  }

  /** A producer's element is added, as the newest, if and only if the queue is below its limit. */
  lemma GiversAdd<T(!new)>(s: State<T>, c: Call<T>, s': State<T>, e: T)
    requires Invariant(s) && Makes(s, c, s') && Offers(s, c, e)
    ensures s'.delivered == s.delivered
    ensures s'.accepted == if Room(s) then s.accepted + [e] else s.accepted
    ensures c.TryEnqueue? ==> AnswerOf(s, c) == Added(Room(s))
    ensures !c.TryEnqueue? ==> AnswerOf(s, c) == if Room(s) || !s.running then Done else Asleep
    ensures !c.TryEnqueue? ==> (c.t in s'.removed.waiting <==> AnswerOf(s, c).Asleep?)
    ensures AnswerOf(s, c).Asleep? ==> c.t in s'.offered && s'.offered[c.t] == e
  {
    var w: set<Thread> :| Enabled(s, c) && Signal(Signalled(s, c), w) && s' == Next(s, c, w);
  }

  /** The calls that control the queue move no element. */
  lemma ControlsMoveNothing<T(!new)>(s: State<T>, c: Call<T>, s': State<T>)
    requires Makes(s, c, s')
    ensures s'.maxsize == if c.SetMaxSize? then c.limit else s.maxsize
    ensures s'.running == (s.running && !c.Stop?)
    ensures c.Stop? || c.SetMaxSize? ==> s'.accepted == s.accepted && s'.delivered == s.delivered
  {
  }

  /** A blocked producer's element waits with it. */
  lemma OfferStays<T(!new)>(s: State<T>, c: Call<T>, s': State<T>, t: Thread)
    requires Invariant(s) && Makes(s, c, s') && Present(s.removed, t) && Present(s'.removed, t)
    ensures t in s.offered && t in s'.offered && s'.offered[t] == s.offered[t]
  {
    var w: set<Thread> :| Enabled(s, c) && Signal(Signalled(s, c), w) && s' == Next(s, c, w);
  }

  ghost predicate RunOf<T(!new)>(trace: seq<State<T>>, calls: seq<Call<T>>, maxsize: nat) {
    && |trace| == |calls| + 1 && trace[0] == Init(maxsize)
    && forall i :: 0 <= i < |calls| ==> Makes(trace[i], calls[i], trace[i + 1])
  }

  lemma {:induction false} InvariantOfRuns<T(!new)>(trace: seq<State<T>>, calls: seq<Call<T>>, maxsize: nat, i: nat)
    requires RunOf(trace, calls, maxsize) && i < |trace|
    ensures Invariant(trace[i])
  {
    if i == 0 {
      InitHolds<T>(maxsize);
    } else {
      InvariantOfRuns(trace, calls, maxsize, i - 1);
      assert Makes(trace[i - 1], calls[i - 1], trace[i]);
      StepKeeps(trace[i - 1], trace[i]);
    }
  }

  /** The call with which the thread last asked for something to be added. */
  function LastOffer<T(!new)>(calls: seq<Call<T>>, t: Thread): Options.Option<T> {
    if calls == [] then Options.None
    else
      var c := calls[|calls| - 1];
      if c.Enqueue? && c.t == t then Options.Some(c.e) else LastOffer(calls[..|calls| - 1], t)
  }

  /** In every run a thread that is blocked in an enqueue still has the element it was called with. */
  lemma {:induction false} BlockedOffers<T(!new)>(trace: seq<State<T>>, calls: seq<Call<T>>, maxsize: nat, i: nat, t: Thread)
    requires RunOf(trace, calls, maxsize) && i < |trace| && Present(trace[i].removed, t)
    ensures t in trace[i].offered && LastOffer(calls[..i], t) == Options.Some(trace[i].offered[t])
  {
    if i > 0 {
      var s, c, s' := trace[i - 1], calls[i - 1], trace[i];
      InvariantOfRuns(trace, calls, maxsize, i - 1);
      assert Makes(s, c, s');
      assert calls[..i][..i - 1] == calls[..i - 1];
      if Present(s.removed, t) {
        BlockedOffers(trace, calls, maxsize, i - 1, t);
        OfferStays(s, c, s', t);
        if c.Enqueue? && c.t == t { assert false; }
      } else {
        Falls(s, c, s', t);
      }
    }
  }

  lemma Falls<T(!new)>(s: State<T>, c: Call<T>, s': State<T>, t: Thread)
    requires Invariant(s) && Makes(s, c, s') && !Present(s.removed, t) && Present(s'.removed, t)
    ensures c.Enqueue? && c.t == t && t in s'.offered && s'.offered[t] == c.e
  {
    var w: set<Thread> :| Enabled(s, c) && Signal(Signalled(s, c), w) && s' == Next(s, c, w);
  }

  /** What a call adds in this state, after those before it. */
  ghost function Gives<T(!new)>(s: State<T>, c: Call<T>, before: seq<Call<T>>): seq<T> {
    if !Room(s) then []
    else if c.TryEnqueue? || c.Enqueue? then [c.e]
    else if c.EnqueueResumed? && LastOffer(before, c.t).Some? then [LastOffer(before, c.t).value]
    else []
  }

  /** What the calls of a run add: the elements of the producers that found room, in that order. */
  ghost function Given<T(!new)>(trace: seq<State<T>>, calls: seq<Call<T>>): seq<T>
    requires |trace| == |calls| + 1
  {
    if calls == [] then []
    else
      var n := |calls| - 1;
      Given(trace[..n + 1], calls[..n]) + Gives(trace[n], calls[n], calls[..n])
  }

  lemma StepGives<T(!new)>(trace: seq<State<T>>, calls: seq<Call<T>>, maxsize: nat, n: nat)
    requires RunOf(trace, calls, maxsize) && n < |calls|
    ensures trace[n + 1].accepted == trace[n].accepted + Gives(trace[n], calls[n], calls[..n])
  {
    var s, c, s' := trace[n], calls[n], trace[n + 1];
    assert Makes(s, c, s');
    InvariantOfRuns(trace, calls, maxsize, n);
    hide Makes, Invariant, RunOf, AnswerOf, LastOffer;
    if Takes(c) {
      TakersGetTheOldest(s, c, s');
    } else if c.TryEnqueue? || c.Enqueue? {
      GiversAdd(s, c, s', c.e);
    } else if c.EnqueueResumed? {
      Resuming(s, c, s');
      BlockedOffers(trace, calls, maxsize, n, c.t);
      GiversAdd(s, c, s', s.offered[c.t]);
    } else {
      ControlsMoveNothing(s, c, s');
    }
  }

  lemma Resuming<T(!new)>(s: State<T>, c: Call<T>, s': State<T>)
    requires Makes(s, c, s') && c.EnqueueResumed?
    ensures Present(s.removed, c.t) && c.t in s.offered
  {
  }

  /** In every run the elements handed out and those in the queue are, in order, what the producers gave. */
  lemma {:induction false} AcceptedIsGiven<T(!new)>(trace: seq<State<T>>, calls: seq<Call<T>>, maxsize: nat)
    requires RunOf(trace, calls, maxsize)
    ensures trace[|calls|].accepted == Given(trace, calls)
    ensures trace[|calls|].delivered + trace[|calls|].items == Given(trace, calls)
    decreases |calls|
  {
    InvariantOfRuns(trace, calls, maxsize, |calls|);
    hide Makes, Gives;
    if calls != [] {
      var n := |calls| - 1;
      AcceptedIsGiven(trace[..n + 1], calls[..n], maxsize);
      StepGives(trace, calls, maxsize, n);
    }
  }
}
