// When the schedules of src/c/scheduler.c start: laws over every run of the state machine.
module SchedulerStarts {
  import opened Components
  import opened Scheduler

  // ---------------------------------------------------------------- where a start lies

  /** The schedule is queued at the least time from `earliest` on that no other schedule has. */
  ghost predicate TakesStart(s: State, id: Id, earliest: nat) {
    && id in s.schedules && s.schedules[id].scheduled
    && var start := s.schedules[id].start;
      && earliest <= start && start in s.queue && s.queue[start] == id
      && (forall k :: earliest <= k < start ==> k in s.queue && s.queue[k] != id)
  }

  /** What a step of the thread does to the start: a visit that counts as a repetition moves it one period beyond the
      stamp, unless it was the last repetition; nothing else moves it. */
  ghost predicate ThreadMovesStart(x: Schedule, s: State, id: Id, stamp: nat) {
    && id in s.schedules
    && var y := s.schedules[id];
      && y.period == x.period
      && if y.rounds == x.rounds then y.start == x.start && y.repeat == x.repeat
         else if x.repeat == 1 then y.start == x.start && y.repeat == 0 && !y.scheduled && (x.listed ==> id in s.idle)
         else TakesStart(s, id, stamp + x.period) && y.repeat == (if x.repeat == 0 then 0 else x.repeat - 1)
  }

  /** What a call does to it: an add queues the schedule at its start, a randomised add from the stamp plus the offset
      on, a reset moves it to the stamp plus period and delay; no other call moves it. */
  ghost predicate CallMovesStart(s: State, a: Action, s': State, id: Id)
    requires id in s.schedules
  {
    && id in s'.schedules
    && var x, y := s.schedules[id], s'.schedules[id];
      && y.period == x.period && y.repeat == x.repeat && y.rounds == x.rounds
      && if a == DoAdd(id) && !x.scheduled then TakesStart(s', id, x.start)
         else if a.DoAddRandomised? && a.id == id then TakesStart(s', id, a.now + a.offset)
         else if a.DoReset? && a.id == id && x.scheduled then TakesStart(s', id, a.now + x.period + a.delay)
         else if a.DoReset? && a.id == id then y.start == a.now + x.period + a.delay && !y.scheduled
         else y.start == x.start
  }

  predicate ByThread(a: Action) {
    a.ThreadWakes? || a.ThreadAfterRun? || a.ThreadAfterAbort?
  }

  /** In every step of every run: a new schedule starts at the stamp plus the delay asked for, and after that its start
      moves only as the two predicates say. */
  lemma StartsAsAsked(trace: seq<State>, actions: seq<Action>, i: nat, id: Id)
    requires Run(trace, actions) && i < |actions|
    ensures |trace| == |actions| + 1
    ensures actions[i].DoCreate? && actions[i].id == id ==>
      && id !in trace[i].schedules && id in trace[i + 1].schedules && id in trace[i + 1].idle
      && var a, x := actions[i], trace[i + 1].schedules[id];
        && x.start == a.now + a.delay && x.period == a.period && x.repeat == a.repeat
        && !x.scheduled && !x.concurrent && !x.sync
    ensures id in trace[i].schedules && ByThread(actions[i]) ==>
      ThreadMovesStart(trace[i].schedules[id], trace[i + 1], id, actions[i].ch.t2)
    ensures id in trace[i].schedules && !ByThread(actions[i]) ==> CallMovesStart(trace[i], actions[i], trace[i + 1], id)
  {
    hide *;
    StepOfRun(trace, actions, i);
    ConsistentRuns(trace, actions, i);
    if id in trace[i].schedules {
      NotCreatedAgain(trace[i], actions[i], id);
      if ByThread(actions[i]) { ThreadStarts(trace[i], actions[i], id); } else { CallStarts(trace[i], actions[i], id); }
    } else if actions[i].DoCreate? && actions[i].id == id {
      CreateStarts(trace[i], actions[i]);
    }
  }

  lemma NotCreatedAgain(s: State, a: Action, id: Id)
    requires Enabled(s, a) && id in s.schedules
    ensures !(a.DoCreate? && a.id == id)
  {
  }

  lemma CreateStarts(s: State, a: Action)
    requires Closed(s) && Enabled(s, a) && a.DoCreate?
    ensures a.id in Next(s, a).schedules && a.id in Next(s, a).idle
    ensures var x := Next(s, a).schedules[a.id];
      && x.start == a.now + a.delay && x.period == a.period && x.repeat == a.repeat
      && !x.scheduled && !x.concurrent && !x.sync
  {
  }

  // ---------------------------------------------------------------- the thread

  /** The queue has the schedule under its own start only, and not at all if it is not scheduled. */
  ghost predicate AtOwnKey(s: State, id: Id) {
    && id in s.schedules
    && (forall k :: k in s.queue && s.queue[k] == id ==> s.schedules[id].scheduled && k == s.schedules[id].start)
  }

  lemma OwnKey(s: State, id: Id)
    requires Consistent(s) && id in s.schedules
    ensures AtOwnKey(s, id)
  {
    forall k | k in s.queue && s.queue[k] == id
      ensures s.schedules[id].scheduled && k == s.schedules[id].start
    {
      assert InQueue(s, k);
    }
  }

  lemma QueueAddTakes(s: State, id: Id)
    requires id in s.schedules && (forall k :: k in s.queue ==> s.queue[k] != id)
    ensures TakesStart(QueueAdd(s, id), id, s.schedules[id].start)
    ensures forall i :: i in s.schedules && i != id ==>
              i in QueueAdd(s, id).schedules && QueueAdd(s, id).schedules[i] == s.schedules[i]
    ensures var x, y := s.schedules[id], QueueAdd(s, id).schedules[id];
      y.period == x.period && y.repeat == x.repeat && y.rounds == x.rounds
  {
    var free := LeastFree(s.queue.Keys, s.schedules[id].start);
    hide LeastFree;
    forall k | s.schedules[id].start <= k < free
      ensures k in s.queue
    {
      assert k in s.queue.Keys;
    }
  }

  lemma RequeueStarts(s: State, id: Id, ch: Choice, i: Id)
    requires AtOwnKey(s, id) && i in s.schedules
    ensures ThreadMovesStart(s.schedules[i], Requeue(s, id, ch), i, ch.t2)
  {
    var off := QueueRemove(s, id).(clock := ch.t2);
    var x := s.schedules[id];
    hide QueueAdd, TakesStart, LeastFree;
    if x.repeat != 1 {
      var ready := Set(off, id, Repeated(off.schedules[id], ch.t2));
      QueueAddTakes(ready, id);
      assert Requeue(s, id, ch) == QueueAdd(ready, id);
      TakenIsQueued(QueueAdd(ready, id), id, ready.schedules[id].start);
    }
  }

  lemma TakenIsQueued(s: State, id: Id, earliest: nat)
    requires TakesStart(s, id, earliest)
    ensures id in s.schedules && s.schedules[id].scheduled
  {
  }

  lemma CloseKeepsMaps(s: State, ch: Choice)
    ensures Close(s, ch).schedules == s.schedules && Close(s, ch).queue == s.queue && Close(s, ch).idle == s.idle
  {
    hide LeastKey;
  }

  lemma SameMoves(x: Schedule, s: State, s': State, id: Id, stamp: nat)
    requires ThreadMovesStart(x, s, id, stamp)
    requires s'.schedules == s.schedules && s'.queue == s.queue && s'.idle == s.idle
    ensures ThreadMovesStart(x, s', id, stamp)
  {
  }

  /** The two agree in all that the law speaks of. */
  predicate SameTimes(x: Schedule, y: Schedule) {
    && y.period == x.period && y.start == x.start && y.repeat == x.repeat && y.rounds == x.rounds
    && y.scheduled == x.scheduled && y.listed == x.listed
  }

  /** Only what concerns references and visits differs. */
  ghost predicate SameQueue(s: State, s': State) {
    && s'.queue == s.queue && s'.idle == s.idle
    && (forall i :: i in s.schedules ==> i in s'.schedules && SameTimes(s.schedules[i], s'.schedules[i]))
  }

  lemma Stays(s: State, s': State, i: Id, stamp: nat)
    requires SameQueue(s, s') && i in s.schedules
    ensures ThreadMovesStart(s.schedules[i], s', i, stamp)
  {
  }

  lemma MovesAfter(s: State, t: State, s': State, i: Id, stamp: nat)
    requires SameQueue(s, t) && i in s.schedules && i in t.schedules && ThreadMovesStart(t.schedules[i], s', i, stamp)
    ensures ThreadMovesStart(s.schedules[i], s', i, stamp)
  {
    hide TakesStart;
    assert SameTimes(s.schedules[i], t.schedules[i]);
  }

  lemma OwnKeyAfter(s: State, t: State, id: Id)
    requires SameQueue(s, t) && AtOwnKey(s, id)
    ensures AtOwnKey(t, id)
  {
    assert SameTimes(s.schedules[id], t.schedules[id]);
  }

  lemma Preparations(s: State, id: Id, now: nat)
    requires id in s.schedules
    ensures SameQueue(s, s) && SameQueue(s, Touch(s, id)) && SameQueue(s, Drop(s, id)) && SameQueue(s, HandOver(s, id))
    ensures SameQueue(s, Take(s, id, now)) && SameQueue(s, Skip(s, id, now))
  {
  }

  lemma EndVisitStarts(s: State, id: Id, valid: bool, ch: Choice, i: Id)
    requires AtOwnKey(s, id) && i in s.schedules
    ensures ThreadMovesStart(s.schedules[i], EndVisit(s, id, valid, ch), i, ch.t2)
  {
    hide *;
    Known(s, id);
    EndVisitIs(s, id, valid, ch);
    Preparations(s, id, 0);
    if valid {
      var t := Touch(s, id);
      SameKnown(s, t, i);
      SameKnown(s, t, id);
      OwnKeyAfter(s, t, id);
      RequeueStarts(t, id, ch, i);
      MovesAfter(s, t, Requeue(t, id, ch), i, ch.t2);
      CloseKeepsMaps(Requeue(t, id, ch), ch);
      SameMoves(s.schedules[i], Requeue(t, id, ch), Close(Requeue(t, id, ch), ch), i, ch.t2);
    } else {
      Stays(s, s, i, ch.t2);
      CloseKeepsMaps(s, ch);
      SameMoves(s.schedules[i], s, Close(s, ch), i, ch.t2);
    }
  }

  lemma EndVisitIs(s: State, id: Id, valid: bool, ch: Choice)
    requires id in s.schedules
    ensures id in Touch(s, id).schedules
    ensures EndVisit(s, id, valid, ch) == Close(if valid then Requeue(Touch(s, id), id, ch) else s, ch)
  {
    hide Close, Requeue;
  }

  lemma Known(s: State, id: Id)
    requires AtOwnKey(s, id)
    ensures id in s.schedules
  {
  }

  lemma SameKnown(s: State, t: State, i: Id)
    requires SameQueue(s, t) && i in s.schedules
    ensures i in t.schedules && SameTimes(s.schedules[i], t.schedules[i])
  {
  }

  /** The end of a visit after a change that leaves queue and times alone. */
  lemma EndVisitAfter(s: State, t: State, id: Id, valid: bool, ch: Choice, i: Id)
    requires SameQueue(s, t) && AtOwnKey(s, id) && i in s.schedules
    ensures id in t.schedules && ThreadMovesStart(s.schedules[i], EndVisit(t, id, valid, ch), i, ch.t2)
  {
    hide *;
    OwnKeyAfter(s, t, id);
    Known(t, id);
    SameKnown(s, t, i);
    EndVisitStarts(t, id, valid, ch, i);
    MovesAfter(s, t, EndVisit(t, id, valid, ch), i, ch.t2);
  }

  lemma RefuseStarts(s: State, id: Id, ch: Choice, i: Id)
    requires AtOwnKey(s, id) && i in s.schedules
    ensures ThreadMovesStart(s.schedules[i], Refuse(s, id, ch), i, ch.t2)
  {
    hide AtOwnKey, SameQueue, EndVisit, ThreadMovesStart;
    Known(s, id);
    Preparations(s, id, 0);
    EndVisitAfter(s, Drop(s, id), id, s.schedules[id].refs > 1 && s.schedules[id].scheduled, ch, i);
  }

  lemma DispatchStarts(s: State, id: Id, valid: bool, ch: Choice, i: Id)
    requires AtOwnKey(s, id) && i in s.schedules
    ensures ThreadMovesStart(s.schedules[i], Dispatch(s, id, valid, ch), i, ch.t2)
  {
    hide AtOwnKey, SameQueue, EndVisit, ThreadMovesStart, Refuse, Drop, HandOver;
    Known(s, id);
    Preparations(s, id, 0);
    if s.schedules[id].sync { EndVisitAfter(s, Drop(s, id), id, valid, ch, i); }
    else if ch.outcome.Accepted? { EndVisitAfter(s, HandOver(s, id), id, valid, ch, i); }
    else if ch.outcome.abortCallback {
      Stays(s, Touch(s, id), i, ch.t2);
      SameMoves(s.schedules[i], Touch(s, id), Dispatch(s, id, valid, ch), i, ch.t2);
    }
    else { RefuseStarts(s, id, ch, i); }
  }

  lemma DispatchAfter(s: State, t: State, id: Id, valid: bool, ch: Choice, i: Id)
    requires SameQueue(s, t) && AtOwnKey(s, id) && i in s.schedules
    ensures id in t.schedules && ThreadMovesStart(s.schedules[i], Dispatch(t, id, valid, ch), i, ch.t2)
  {
    hide *;
    OwnKeyAfter(s, t, id);
    Known(t, id);
    SameKnown(s, t, i);
    DispatchStarts(t, id, valid, ch, i);
    MovesAfter(s, t, Dispatch(t, id, valid, ch), i, ch.t2);
  }

  lemma DueStarts(s: State, id: Id, ch: Choice, i: Id)
    requires AtOwnKey(s, id) && i in s.schedules
    ensures ThreadMovesStart(s.schedules[i], Due(s, id, ch), i, ch.t2)
  {
    hide AtOwnKey, SameQueue, EndVisit, Dispatch, ThreadMovesStart, Take, Skip;
    Known(s, id);
    Preparations(s, id, ch.t1);
    var x := s.schedules[id];
    if x.concurrent || x.refs == 1 {
      if ch.runCallback {
        Stays(s, Take(s, id, ch.t1), i, ch.t2);
        SameMoves(s.schedules[i], Take(s, id, ch.t1), Due(s, id, ch), i, ch.t2);
      } else {
        DispatchAfter(s, Take(s, id, ch.t1), id, true, ch, i);
      }
    } else {
      EndVisitAfter(s, Skip(s, id, ch.t1), id, true, ch, i);
    }
  }

  lemma AwakeStarts(s: State, ch: Choice, i: Id)
    requires Consistent(s) && Closed(s) && i in s.schedules
    ensures ThreadMovesStart(s.schedules[i], Awake(s, ch), i, ch.t2)
  {
    hide Consistent, AtOwnKey, Due, Close, ThreadMovesStart, SameQueue;
    if s.mode == Running && s.queue != map[] {
      var f := s.queue[LeastKey(s.queue)];
      OwnKey(s, f);
      DueStarts(s, f, ch, i);
      Preparations(s, f, 0);
      Stays(s, Touch(s, f), i, ch.t2);
      var t := Touch(s, f).(clock := ch.t1);
      CloseKeepsMaps(t, ch);
      SameMoves(s.schedules[i], Touch(s, f), Close(t, ch), i, ch.t2);
    } else {
      NothingMoves(s);
      Stays(s, s, i, ch.t2);
      CloseKeepsMaps(s, ch);
      SameMoves(s.schedules[i], s, Awake(s, ch), i, ch.t2);
    }
  }

  lemma NothingMoves(s: State)
    ensures SameQueue(s, s)
  {
  }

  lemma ThreadStarts(s: State, a: Action, i: Id)
    requires Consistent(s) && Closed(s) && Enabled(s, a) && ByThread(a) && i in s.schedules
    ensures ThreadMovesStart(s.schedules[i], Next(s, a), i, a.ch.t2)
  {
    hide Consistent, AtOwnKey, Awake, Dispatch, Refuse, ThreadMovesStart, SameQueue;
    match a
    case ThreadWakes(ch) => AwakeStarts(s, ch, i);
    case ThreadAfterRun(ch) =>
      var id := s.phase.current;
      OwnKey(s, id);
      Preparations(s, id, 0);
      DispatchAfter(s, Touch(s, id), id, s.schedules[id].scheduled, ch, i);
    case ThreadAfterAbort(ch) =>
      OwnKey(s, s.phase.current);
      RefuseStarts(s, s.phase.current, ch, i);
  }

  // ---------------------------------------------------------------- the calls

  lemma AddStarts(s: State, id: Id, i: Id)
    requires AtOwnKey(s, id) && !s.schedules[id].scheduled && i in s.schedules
    ensures var s' := AddCall(s, id);
      && i in s'.schedules && (i != id ==> s'.schedules[i] == s.schedules[i])
      && s'.schedules[i].period == s.schedules[i].period && s'.schedules[i].repeat == s.schedules[i].repeat
      && s'.schedules[i].rounds == s.schedules[i].rounds
      && TakesStart(s', id, s.schedules[id].start)
  {
    hide QueueAdd, IsFront, LeastFree;
    QueueAddTakes(IdleRemove(s, id), id);
  }

  lemma ResetStarts(s: State, id: Id, delay: nat, now: nat, i: Id)
    requires AtOwnKey(s, id) && i in s.schedules
    ensures CallMovesStart(s, DoReset(id, delay, now), ResetCall(s, id, delay, now), i)
  {
    hide QueueAdd, IsFront, LeastFree;
    var t := UpdateStart(QueueRemove(s.(clock := now), id), id, s.schedules[id].period + now + delay);
    if s.schedules[id].scheduled { QueueAddTakes(t, id); }
  }

  lemma OwnKeyMoved(s: State, id: Id, start: nat, now: nat)
    requires AtOwnKey(s, id) && !s.schedules[id].scheduled
    ensures AtOwnKey(UpdateStart(s, id, start).(clock := now), id)
  {
  }

  lemma SignallingCallStarts(s: State, a: Action, i: Id)
    requires Consistent(s) && Closed(s) && Enabled(s, a) && i in s.schedules && (a.DoAdd? || a.DoAddRandomised? || a.DoReset?)
    ensures CallMovesStart(s, a, Next(s, a), i)
  {
    hide Consistent, Closed, AtOwnKey, AddCall, ResetCall, TakesStart;
    OwnKey(s, a.id);
    match a
    case DoAdd(id) =>
      if s.schedules[id].scheduled { AddedAlready(s, id); } else { AddStarts(s, id, i); }
    case DoAddRandomised(id, offset, now) =>
      OwnKeyMoved(s, id, now + offset, now);
      AddStarts(UpdateStart(s, id, now + offset).(clock := now), id, i);
    case DoReset(id, delay, now) => ResetStarts(s, id, delay, now, i);
  }

  lemma AddedAlready(s: State, id: Id)
    requires id in s.schedules && s.schedules[id].scheduled
    ensures AddCall(s, id) == s
  {
  }

  lemma SilentCallStarts(s: State, a: Action, i: Id)
    requires Closed(s) && Enabled(s, a) && i in s.schedules && !a.DoAdd? && !a.DoAddRandomised? && !a.DoReset? && !ByThread(a)
    ensures CallMovesStart(s, a, Next(s, a), i)
  {
    hide LeastFree, LeastKey, TakesStart;
  }

  lemma CallStarts(s: State, a: Action, i: Id)
    requires Consistent(s) && Closed(s) && Enabled(s, a) && i in s.schedules && !ByThread(a)
    ensures CallMovesStart(s, a, Next(s, a), i)
  {
    hide *;
    if a.DoAdd? || a.DoAddRandomised? || a.DoReset? { SignallingCallStarts(s, a, i); } else { SilentCallStarts(s, a, i); }
  }

  // ---------------------------------------------------------------- what a due visit sets off

  ghost predicate Front(s: State, id: Id) {
    exists k :: Least(s.queue, k) && s.queue[k] == id
  }

  /** The thread finds the schedule due. */
  ghost predicate FoundDue(s: State, a: Action, id: Id)
    requires id in s.schedules
  {
    a.ThreadWakes? && s.mode == Running && Front(s, id) && s.schedules[id].start < a.ch.t1
  }

  /** The schedule's run is to be started now: no callback has to be called before, or it has returned. A run is left
      out while an earlier one is under way, unless runs may be concurrent. */
  ghost predicate RunIsUp(s: State, a: Action, id: Id)
    requires id in s.schedules
  {
    || (FoundDue(s, a, id) && (s.schedules[id].concurrent || s.schedules[id].running == 0) && !a.ch.runCallback)
    || (a.ThreadAfterRun? && s.phase == InRun(id))
  }

  ghost predicate RunMoves(s: State, a: Action, s': State, id: Id)
    requires id in s.schedules
  {
    && id in s'.schedules
    && var x, y := s.schedules[id], s'.schedules[id];
      && y.visits == (if FoundDue(s, a, id) then x.visits + [a.ch.t1] else x.visits)
      && y.running == (if RunIsUp(s, a, id) && !x.sync && a.ch.outcome.Accepted? then x.running + 1
                       else if a == DoRunEnds(id) then x.running - 1 else x.running)
      && (s'.phase == InRun(id) <==>
           || (FoundDue(s, a, id) && (x.concurrent || x.running == 0) && a.ch.runCallback)
           || (s.phase == InRun(id) && !ByThread(a)))
      && (s'.phase == InAbort(id) <==>
           || (RunIsUp(s, a, id) && !x.sync && a.ch.outcome == Refused(true))
           || (s.phase == InAbort(id) && !ByThread(a)))
  }

  /** In every step of every run: a schedule is visited exactly when the thread finds it due at the front; its callback
      is called, its run handed over or its abort callback called exactly when the predicates say so. */
  lemma DueVisitsSetOffRuns(trace: seq<State>, actions: seq<Action>, i: nat, id: Id)
    requires Run(trace, actions) && i < |actions|
    ensures |trace| == |actions| + 1
    ensures id in trace[i].schedules ==> RunMoves(trace[i], actions[i], trace[i + 1], id)
  {
    hide *;
    StepOfRun(trace, actions, i);
    ConsistentRuns(trace, actions, i);
    if id in trace[i].schedules {
      if ByThread(actions[i]) { ThreadRuns(trace[i], actions[i], id); } else { CallRuns(trace[i], actions[i], id); }
    }
  }

  lemma EndVisitRuns(s: State, id: Id, valid: bool, ch: Choice, i: Id)
    requires id in s.schedules && i in s.schedules
    ensures i in EndVisit(s, id, valid, ch).schedules && EndVisit(s, id, valid, ch).phase == Between
    ensures EndVisit(s, id, valid, ch).schedules[i].running == s.schedules[i].running
    ensures EndVisit(s, id, valid, ch).schedules[i].visits == s.schedules[i].visits
  {
    hide LeastFree, LeastKey;
  }

  lemma DispatchRuns(s: State, id: Id, valid: bool, ch: Choice, i: Id)
    requires id in s.schedules && i in s.schedules
    ensures i in Dispatch(s, id, valid, ch).schedules
    ensures var x, y, s' := s.schedules[i], Dispatch(s, id, valid, ch).schedules[i], Dispatch(s, id, valid, ch);
      && y.visits == x.visits
      && y.running == x.running + (if i == id && !x.sync && ch.outcome.Accepted? then 1 else 0)
      && s'.phase == (if !s.schedules[id].sync && ch.outcome == Refused(true) then InAbort(id) else Between)
  {
    hide EndVisit;
    EndVisitRuns(Drop(s, id), id, valid, ch, i);
    EndVisitRuns(HandOver(s, id), id, valid, ch, i);
    EndVisitRuns(Drop(s, id), id, s.schedules[id].refs > 1 && s.schedules[id].scheduled, ch, i);
  }

  lemma DueRuns(s: State, id: Id, ch: Choice, i: Id)
    requires id in s.schedules && i in s.schedules
    ensures i in Due(s, id, ch).schedules
    ensures var x, y, s' := s.schedules[i], Due(s, id, ch).schedules[i], Due(s, id, ch);
      var free := s.schedules[id].concurrent || s.schedules[id].refs == 1;
      && y.visits == (if i == id then x.visits + [ch.t1] else x.visits)
      && y.running == x.running + (if i == id && free && !ch.runCallback && !x.sync && ch.outcome.Accepted? then 1 else 0)
      && s'.phase == (if free && ch.runCallback then InRun(id)
                      else if free && !s.schedules[id].sync && ch.outcome == Refused(true) then InAbort(id)
                      else Between)
  {
    hide EndVisit, Dispatch;
    EndVisitRuns(Skip(s, id, ch.t1), id, true, ch, i);
    DispatchRuns(Take(s, id, ch.t1), id, true, ch, i);
  }

  lemma FrontIs(s: State, id: Id)
    requires s.queue != map[]
    ensures Front(s, id) <==> s.queue[LeastKey(s.queue)] == id
  {
    if Front(s, id) {
      var k :| Least(s.queue, k) && s.queue[k] == id;
      assert k == LeastKey(s.queue);
    }
  }

  /** A scheduled schedule outside of a callback has a single reference exactly if none of its runs is under way. */
  lemma OneReference(s: State, id: Id)
    requires Consistent(s) && id in s.schedules && s.schedules[id].scheduled && id !in Flying(s.phase)
    ensures s.schedules[id].refs == 1 <==> s.schedules[id].running == 0
  {
    SoundOf(s, id, Flying(s.phase));
  }

  lemma AwakeRuns(s: State, ch: Choice, i: Id)
    requires Consistent(s) && Closed(s) && Enabled(s, ThreadWakes(ch)) && i in s.schedules
    ensures RunMoves(s, ThreadWakes(ch), Awake(s, ch), i)
  {
    hide Consistent, Closed, Due, Close, Front, Touch;
    CloseMoves(s, ch);
    if s.mode == Running && s.queue != map[] {
      var f := s.queue[LeastKey(s.queue)];
      FrontIs(s, i);
      FrontScheduled(s);
      OneReference(s, f);
      DueRuns(s, f, ch, i);
      CloseMoves(Touch(s, f).(clock := ch.t1), ch);
      TouchRuns(s, f, i);
    } else if s.queue == map[] {
      NoFront(s, i);
    }
  }

  lemma TouchRuns(s: State, id: Id, i: Id)
    requires id in s.schedules && i in s.schedules
    ensures Touch(s, id).schedules == s.schedules && Touch(s, id).phase == s.phase
  {
  }

  lemma NoFront(s: State, id: Id)
    requires s.queue == map[]
    ensures !Front(s, id)
  {
  }

  lemma ThreadRuns(s: State, a: Action, i: Id)
    requires Consistent(s) && Closed(s) && Enabled(s, a) && ByThread(a) && i in s.schedules
    ensures RunMoves(s, a, Next(s, a), i)
  {
    hide Consistent, Awake, Dispatch, EndVisit, Front, Touch;
    match a
    case ThreadWakes(ch) => AwakeRuns(s, ch, i);
    case ThreadAfterRun(ch) =>
      var id := s.phase.current;
      TouchRuns(s, id, i);
      DispatchRuns(Touch(s, id), id, s.schedules[id].scheduled, ch, i);
    case ThreadAfterAbort(ch) =>
      var id := s.phase.current;
      DropRuns(s, id, i);
      EndVisitRuns(Drop(s, id), id, s.schedules[id].refs > 1 && s.schedules[id].scheduled, ch, i);
  }

  lemma DropRuns(s: State, id: Id, i: Id)
    requires id in s.schedules && i in s.schedules
    ensures i in Drop(s, id).schedules && Drop(s, id).schedules[i].running == s.schedules[i].running
    ensures Drop(s, id).schedules[i].visits == s.schedules[i].visits
  {
  }

  /** Only where and whether the schedule is queued has changed. */
  ghost predicate Requeued(x: Schedule, s: State, i: Id, scheduled: bool) {
    i in s.schedules && s.schedules[i] == x.(start := s.schedules[i].start, scheduled := scheduled)
  }

  lemma QueueAddFields(s: State, id: Id, i: Id, front: bool)
    requires id in s.schedules && i in s.schedules
    ensures Requeued(s.schedules[i], SignalIf(QueueAdd(s, id), front), i, s.schedules[i].scheduled || i == id)
  {
    hide LeastFree;
  }

  lemma AddFields(s: State, id: Id, i: Id)
    requires id in s.schedules && i in s.schedules
    ensures Requeued(s.schedules[i], AddCall(s, id), i, s.schedules[i].scheduled || i == id)
  {
    hide QueueAdd, SignalIf, IsFront;
    QueueAddFields(IdleRemove(s, id), id, i, IsFront(QueueAdd(IdleRemove(s, id), id), id));
  }

  lemma ResetFields(s: State, id: Id, delay: nat, now: nat, i: Id)
    requires id in s.schedules && i in s.schedules
    ensures Requeued(s.schedules[i], ResetCall(s, id, delay, now), i, s.schedules[i].scheduled)
  {
    hide QueueAdd, SignalIf, IsFront;
    var t := UpdateStart(QueueRemove(s.(clock := now), id), id, s.schedules[id].period + now + delay);
    QueueAddFields(t, id, i, IsFront(QueueAdd(t, id), id));
  }

  lemma SignallingCallFields(s: State, a: Action, i: Id)
    requires Closed(s) && Enabled(s, a) && i in s.schedules && (a.DoAdd? || a.DoAddRandomised? || a.DoReset?)
    ensures Requeued(s.schedules[i], Next(s, a), i, s.schedules[i].scheduled || Adds(a, i))
  {
    hide AddCall, ResetCall, Closed;
    match a
    case DoAdd(id) => AddFields(s, id, i);
    case DoAddRandomised(id, offset, now) => AddFields(UpdateStart(s, id, now + offset).(clock := now), id, i);
    case DoReset(id, delay, now) => ResetFields(s, id, delay, now, i);
  }

  lemma SilentCallRuns(s: State, a: Action, i: Id)
    requires Closed(s) && Enabled(s, a) && i in s.schedules && !a.DoAdd? && !a.DoAddRandomised? && !a.DoReset? && !ByThread(a)
    ensures i in Next(s, a).schedules && Next(s, a).schedules[i].visits == s.schedules[i].visits
    ensures Next(s, a).schedules[i].running == s.schedules[i].running - (if a == DoRunEnds(i) then 1 else 0)
  {
    hide LeastFree, LeastKey;
  }

  lemma CallsKeepCallbacks(s: State, a: Action)
    requires Closed(s) && Enabled(s, a) && !ByThread(a)
    ensures Next(s, a).phase == s.phase || (!s.phase.InRun? && !s.phase.InAbort? && !Next(s, a).phase.InRun? && !Next(s, a).phase.InAbort?)
  {
    hide AddCall, AddRandomisedCall, ResetCall, Closed;
    if !a.ThreadLocks? && !a.DoChangeMode? { CallPhase(s, a); }
  }

  lemma CallRuns(s: State, a: Action, i: Id)
    requires Consistent(s) && Closed(s) && Enabled(s, a) && i in s.schedules && !ByThread(a)
    ensures RunMoves(s, a, Next(s, a), i)
  {
    hide Next, Closed, Consistent, Enabled, Front;
    CallsKeepCallbacks(s, a);
    if a.DoAdd? || a.DoAddRandomised? || a.DoReset? { SignallingCallFields(s, a, i); } else { SilentCallRuns(s, a, i); }
  }

  // ---------------------------------------------------------------- what the calls change

  ghost predicate CallTakesEffect(s: State, a: Action, s': State, id: Id)
    requires id in s.schedules
  {
    && id in s'.schedules
    && var x, y := s.schedules[id], s'.schedules[id];
      && (y.scheduled <==> a != DoRemove(id) && a != DoDelete(id) && (x.scheduled || Adds(a, id)))
      && (y.listed <==> x.listed && a != DoDelete(id))
      && (y.owned <==> x.owned && a != DoRelease(id))
      && (y.concurrent <==> if a == DoSetConcurrent(id, true) then x.concurrent || !x.sync
                            else x.concurrent && a != DoSetConcurrent(id, false))
      && (y.sync <==> if a == DoSetSync(id, true) then x.sync || !x.concurrent else x.sync && a != DoSetSync(id, false))
  }

  /** In every step of every run that is a call: it queues, idles, deletes or marks the schedule it is made on, and no
      other. A schedule is not made both synchronous and concurrent. */
  lemma CallsTakeEffect(trace: seq<State>, actions: seq<Action>, i: nat, id: Id)
    requires Run(trace, actions) && i < |actions| && !ByThread(actions[i])
    ensures |trace| == |actions| + 1
    ensures id in trace[i].schedules ==> CallTakesEffect(trace[i], actions[i], trace[i + 1], id)
  {
    hide *;
    StepOfRun(trace, actions, i);
    if id in trace[i].schedules {
      var a := actions[i];
      if a.DoAdd? || a.DoAddRandomised? || a.DoReset? {
        SignallingCallFields(trace[i], a, id);
        SignallingCallActs(trace[i], a, id);
      } else {
        SilentCallActs(trace[i], a, id);
      }
    }
  }

  lemma SignallingCallActs(s: State, a: Action, i: Id)
    requires Closed(s) && Enabled(s, a) && i in s.schedules && (a.DoAdd? || a.DoAddRandomised? || a.DoReset?)
    requires Requeued(s.schedules[i], Next(s, a), i, s.schedules[i].scheduled || Adds(a, i))
    ensures CallTakesEffect(s, a, Next(s, a), i)
  {
    hide Closed, Enabled, Next;
  }

  lemma SilentCallActs(s: State, a: Action, i: Id)
    requires Closed(s) && Enabled(s, a) && i in s.schedules && !a.DoAdd? && !a.DoAddRandomised? && !a.DoReset? && !ByThread(a)
    ensures CallTakesEffect(s, a, Next(s, a), i)
  {
    hide *;
    if a.DoRemove? || a.DoDelete? { RemovingActs(s, a, i); } else { OtherCallActs(s, a, i); }
  }

  lemma RemovingActs(s: State, a: Action, i: Id)
    requires Closed(s) && Enabled(s, a) && i in s.schedules && (a.DoRemove? || a.DoDelete?)
    ensures CallTakesEffect(s, a, Next(s, a), i)
  {
    hide LeastFree, LeastKey, AddCall, AddRandomisedCall, ResetCall, Awake, AfterRun, Refuse, Closed;
  }

  lemma OtherCallActs(s: State, a: Action, i: Id)
    requires Closed(s) && Enabled(s, a) && i in s.schedules && !a.DoAdd? && !a.DoAddRandomised? && !a.DoReset? && !ByThread(a)
    requires !a.DoRemove? && !a.DoDelete?
    ensures CallTakesEffect(s, a, Next(s, a), i)
  {
    hide LeastFree, LeastKey, AddCall, AddRandomisedCall, ResetCall, Awake, AfterRun, Refuse, Closed, RemoveCall, DeleteCall;
  }
}
