// iot_time_nsecs of src/c/time.c under any interleaving.
module Clock {
  // Many threads take time stamps from a clock that may jump; a shared variable and a compare-and-swap loop make them
  // distinct and increasing. One step per atomic operation.

  type Thread = nat

  datatype Local =
    | Away
    | HasReading(reading: nat)                          // the clock is read, lasttime not yet
    | InLoop(reading: nat, result: nat, prev: nat)      // about to compare and swap

  datatype State = State(
    lastTime: nat,
    threads: map<Thread, Local>,
    stamps: seq<(Thread, nat)>      // results in the order of the successful swaps
  )

  predicate Init(s: State) {
    s.lastTime == 0 && s.stamps == [] && forall t :: t in s.threads ==> s.threads[t] == Away
  }

  datatype Action =
    | ReadClock(t: Thread, reading: nat)    // the clock shows anything
    | Load(t: Thread)
    | Swap(t: Thread)
    | SwapFails(t: Thread)                  // the weak exchange may fail for no reason

  /** The body of the loop: a result that is not past the last stamp becomes the next one. */
  function Adjusted(result: nat, prev: nat): nat {
    if result <= prev then prev + 1 else result
  }

  predicate Step(s: State, s': State, a: Action) {
    && a.t in s.threads
    && var l := s.threads[a.t];
    match a
    case ReadClock(t, reading) =>
      l.Away? && s' == s.(threads := s.threads[t := HasReading(reading)])
    case Load(t) =>
      l.HasReading? && s' == s.(threads := s.threads[t := InLoop(l.reading, Adjusted(l.reading, s.lastTime), s.lastTime)])
    case Swap(t) =>
      && l.InLoop? && l.prev == s.lastTime
      && s' == State(l.result, s.threads[t := Away], s.stamps + [(t, l.result)])
    case SwapFails(t) =>
      && l.InLoop?
      && s' == s.(threads := s.threads[t := InLoop(l.reading, Adjusted(l.result, s.lastTime), s.lastTime)])
  }

  ghost predicate Increasing(stamps: seq<(Thread, nat)>) {
    forall i, j :: 0 <= i < j < |stamps| ==> stamps[i].1 < stamps[j].1
  }

  /** The stamp is the greater of the reading and the number after the last stamp. */
  predicate Later(stamp: nat, reading: nat, last: nat) {
    stamp >= reading && stamp > last && (stamp == reading || stamp == last + 1)
  }

  ghost predicate Invariant(s: State) {
    && Increasing(s.stamps)
    && (forall i :: 0 <= i < |s.stamps| ==> s.stamps[i].1 <= s.lastTime)
    && (forall t :: t in s.threads && s.threads[t].InLoop? ==>
        s.threads[t].prev <= s.lastTime && Later(s.threads[t].result, s.threads[t].reading, s.threads[t].prev))
  }

  lemma StepKeeps(s: State, s': State, a: Action)
    requires Invariant(s) && Step(s, s', a)
    ensures Invariant(s') && s.stamps <= s'.stamps
  {
  }

  ghost predicate Run(trace: seq<State>, actions: seq<Action>) {
    && |trace| == |actions| + 1 && Init(trace[0])
    && forall i :: 0 <= i < |actions| ==> Step(trace[i], trace[i + 1], actions[i])
  }

  lemma {:induction false} InvariantOfRuns(trace: seq<State>, actions: seq<Action>, k: nat)
    requires Run(trace, actions) && k < |trace|
    ensures Invariant(trace[k])
  {
    if k > 0 {
      InvariantOfRuns(trace, actions, k - 1);
      StepKeeps(trace[k - 1], trace[k], actions[k - 1]);
    }
  }

  lemma {:induction false} StampsGrow(trace: seq<State>, actions: seq<Action>, j: nat, k: nat)
    requires Run(trace, actions) && j <= k < |trace|
    ensures trace[j].stamps <= trace[k].stamps
  {
    if j < k {
      StampsGrow(trace, actions, j, k - 1);
      InvariantOfRuns(trace, actions, k - 1);
      StepKeeps(trace[k - 1], trace[k], actions[k - 1]);
    }
  }

  /** Whatever the interleaving and the clock do: the time stamps handed out strictly increase in the
      order of the swaps, so no two are equal, and each is the greater of its reading and the number
      after the last stamp. */
  lemma StampsIncrease(trace: seq<State>, actions: seq<Action>, j: nat, k: nat)
    requires Run(trace, actions) && j < k < |actions| && actions[j].Swap? && actions[k].Swap?
    ensures trace[j + 1].lastTime < trace[k + 1].lastTime
    ensures Later(trace[k + 1].lastTime, trace[k].threads[actions[k].t].reading, trace[k].lastTime)
  {
    InvariantOfRuns(trace, actions, k);
    InvariantOfRuns(trace, actions, k + 1);
    StampsGrow(trace, actions, j + 1, k);
    var a, b := |trace[j].stamps|, |trace[k].stamps|;
    assert trace[j + 1].stamps[a].1 == trace[j + 1].lastTime;
    assert trace[k + 1].stamps[b].1 == trace[k + 1].lastTime;
    assert trace[k + 1].stamps == trace[k].stamps + [trace[k + 1].stamps[b]];
    assert trace[k + 1].stamps[a] == trace[j + 1].stamps[a];
  }
}
