// Condition variables of a monitor: who waits for a signal, and who was woken but has not got the
// mutex back yet.
module Monitors {

  type Thread = nat

  datatype Condition = Condition(waiting: set<Thread>, woken: set<Thread>)

  const Idle := Condition({}, {})

  predicate Present(c: Condition, t: Thread) {
    t in c.waiting || t in c.woken
  }

  predicate Proper(c: Condition) {
    c.waiting !! c.woken
  }

  /** pthread_cond_signal wakes at least one of the waiting threads, if there is one. */
  predicate Signal(c: Condition, w: set<Thread>) {
    w <= c.waiting && (c.waiting != {} ==> w != {})
  }

  function Wake(c: Condition, w: set<Thread>): Condition {
    Condition(c.waiting - w, c.woken + w)
  }

  /** pthread_cond_broadcast */
  function WakeAll(c: Condition): Condition {
    Condition({}, c.woken + c.waiting)
  }

  /** pthread_cond_wait, up to the point where the thread is asleep and the mutex free. */
  function Sleep(c: Condition, t: Thread): Condition {
    Condition(c.waiting + {t}, c.woken)
  }

  /** pthread_cond_wait returns to the thread, woken or not. */
  function Leave(c: Condition, t: Thread): Condition {
    Condition(c.waiting - {t}, c.woken - {t})
  }

  // ---------------------------------------------------------------- counting the woken threads

  /** After a signal either nobody waits or the woken threads are one more. */
  lemma WakeCounts(c: Condition, w: set<Thread>)
    requires Proper(c) && Signal(c, w)
    ensures Proper(Wake(c, w))
    ensures Wake(c, w).waiting != {} ==> |Wake(c, w).woken| >= |c.woken| + 1
  {
    if c.waiting != {} {
      assert |c.woken + w| == |c.woken| + |w|;
    }
  }

  lemma LeaveCounts(c: Condition, t: Thread)
    requires Proper(c)
    ensures Proper(Leave(c, t))
    ensures |Leave(c, t).woken| >= |c.woken| - 1
    ensures t !in c.woken ==> Leave(c, t).woken == c.woken
  {
    if t in c.woken {
      assert c.woken == (c.woken - {t}) + {t};
    } else {
      assert c.woken - {t} == c.woken;
    }
  }

  lemma LeaveStays(c: Condition, t: Thread)
    ensures forall u :: Present(Leave(c, t), u) <==> Present(c, u) && u != t
    ensures c.waiting == {} ==> Leave(c, t).waiting == {}
  {
  }
}
