// The order of the jobs of a thread pool.
module JobOrder {
  // Jobs by descending priority, those without a priority last, and equals in order of arrival.

  const NO_PRIORITY := -1

  /** `id` counts the jobs as they arrive. */
  datatype Job = Job(id: nat, priority: int, work: nat)

  /** The waiting job makes way for the new one. */
  predicate Yields(waiting: Job, job: Job) {
    job.priority != NO_PRIORITY && (waiting.priority == NO_PRIORITY || waiting.priority < job.priority)
  }

  function Insert(queue: seq<Job>, job: Job): seq<Job> {
    if queue == [] then [job]
    else if Yields(queue[0], job) then [job] + queue
    else [queue[0]] + Insert(queue[1..], job)
  }

  /** The first job is to be run before the second: greater priorities first, no priority (-1) last, and the older
      of equals first. */
  predicate Before(a: Job, b: Job) {
    || (a.priority != -1 && b.priority == -1)
    || (a.priority != -1 && a.priority > b.priority)
    || (a.priority == b.priority && a.id < b.id)
  }

  ghost predicate Sorted(queue: seq<Job>) {
    forall i, j :: 0 <= i < j < |queue| ==> Before(queue[i], queue[j])
  }

  ghost predicate Older(queue: seq<Job>, id: nat) {
    forall i :: 0 <= i < |queue| ==> queue[i].id < id
  }

  lemma BeforeChains(a: Job, b: Job, c: Job)
    requires Before(a, b) && Before(b, c)
    ensures Before(a, c) && a != c
  {
  }

  lemma {:induction false} InsertHolds(queue: seq<Job>, job: Job)
    ensures |Insert(queue, job)| == |queue| + 1
    ensures multiset(Insert(queue, job)) == multiset(queue) + multiset{job}
    ensures Insert(queue, job)[0] == job || (queue != [] && Insert(queue, job)[0] == queue[0])
  {
    if queue != [] {
      assert queue == [queue[0]] + queue[1..];
      if !Yields(queue[0], job) { InsertHolds(queue[1..], job); }
    }
  }

  /** A new job joins behind those it does not outrank, so the order stays. */
  lemma {:induction false} InsertKeepsOrder(queue: seq<Job>, job: Job)
    requires Sorted(queue) && Older(queue, job.id)
    ensures Sorted(Insert(queue, job))
  {
    if queue != [] {
      if Yields(queue[0], job) {
        forall j | 0 < j < |queue| ensures Before(job, queue[j]) {
          BeforeChains(job, queue[0], queue[j]);
        }
      } else {
        var rest := Insert(queue[1..], job);
        InsertKeepsOrder(queue[1..], job);
        InsertHolds(queue[1..], job);
        assert Before(queue[0], job);
        forall j | 0 <= j < |rest| ensures Before(queue[0], rest[j]) {
          assert rest[j] in multiset(rest);
          assert rest[j] == job || rest[j] in queue[1..];
        }
      }
    }
  }

  lemma {:induction false} InsertKeepsAge(queue: seq<Job>, job: Job)
    requires Older(queue, job.id)
    ensures Older(Insert(queue, job), job.id + 1)
  {
    if queue != [] && !Yields(queue[0], job) {
      InsertKeepsAge(queue[1..], job);
    }
  }

  /** Where the loop over the chain stops. */
  lemma {:induction false} InsertAt(queue: seq<Job>, job: Job, k: nat)
    requires k <= |queue|
    requires forall i :: 0 <= i < k ==> !Yields(queue[i], job)
    requires k < |queue| ==> Yields(queue[k], job)
    ensures Insert(queue, job) == queue[..k] + [job] + queue[k..]
  {
    if k == 0 {
      assert queue[..0] + [job] + queue[0..] == [job] + queue;
    } else {
      InsertAt(queue[1..], job, k - 1);
      assert [queue[0]] + (queue[1..][..k - 1] + [job] + queue[1..][k - 1..]) == queue[..k] + [job] + queue[k..];
    }
  }

  /** The order leaves no choice: sorted queues with the same jobs are equal. */
  lemma {:induction false} SortedIsUnique(a: seq<Job>, b: seq<Job>)
    requires Sorted(a) && Sorted(b) && multiset(a) == multiset(b)
    ensures a == b
  {
    if a == [] {
      assert |multiset(b)| == 0;
    } else {
      assert b != [] by { assert |multiset(a)| == |a| && |multiset(b)| == |b|; }
      FirstIsLeast(a, b);
      assert a == [a[0]] + a[1..] && b == [b[0]] + b[1..];
      assert multiset(a[1..]) == multiset(a) - multiset{a[0]};
      assert multiset(b[1..]) == multiset(b) - multiset{b[0]};
      SortedIsUnique(a[1..], b[1..]);
    }
  }

  lemma FirstIsLeast(a: seq<Job>, b: seq<Job>)
    requires a != [] && b != [] && Sorted(a) && Sorted(b) && multiset(a) == multiset(b)
    ensures a[0] == b[0]
  {
    assert a[0] in multiset(b) && b[0] in multiset(a);
    var i :| 0 <= i < |b| && b[i] == a[0];
    var j :| 0 <= j < |a| && a[j] == b[0];
    if i > 0 {
      assert Before(b[0], b[i]);
      if j > 0 { BeforeChains(a[0], a[j], a[0]); }
    }
  }
}
