// The chain of job nodes of src/c/threadpool.c and its cache of free nodes. In both the field `prev`
// leads to the node behind.
module JobChain {
  import opened JobOrder

  class Node {
    var prev: Node?
    var job: Job

    constructor ()
      ensures prev == null
    {
      prev := null;
      job := Job(0, NO_PRIORITY, 0);
    }
  }

  /** The nodes of s, in this order, hang from head. */
  ghost predicate Linked(s: seq<Node>, head: Node?)
    reads s
  {
    && (s == [] ==> head == null)
    && (s != [] ==> head == s[0] && s[|s| - 1].prev == null)
    && (forall i :: 0 <= i < |s| - 1 ==> s[i].prev == s[i + 1])
  }

  ghost predicate Carries(s: seq<Node>, queue: seq<Job>)
    reads s
  {
    && |s| == |queue|
    && (forall i :: 0 <= i < |s| ==> s[i].job == queue[i])
  }

  ghost predicate Unlike(s: seq<Node>) {
    forall i, j :: 0 <= i < j < |s| ==> s[i] != s[j]
  }

  /** The node that goes in at position k. */
  lemma SpliceLinks(s: seq<Node>, k: nat, n: Node, head: Node?)
    requires k <= |s| && n !in s && Unlike(s)
    requires forall i :: 0 <= i < |s| - 1 && i != k - 1 ==> s[i].prev == s[i + 1]
    requires k > 0 ==> s[k - 1].prev == n && head == s[0]
    requires k == 0 ==> head == n
    requires n.prev == if k < |s| then s[k] else null
    requires k < |s| ==> s[|s| - 1].prev == null
    ensures Linked(s[..k] + [n] + s[k..], head) && Unlike(s[..k] + [n] + s[k..])
  {
    var t := s[..k] + [n] + s[k..];
    forall i | 0 <= i < |t| - 1 ensures t[i].prev == t[i + 1] {
      if i > k { assert t[i] == s[i - 1]; }
    }
  }

  class JobQueue {
    var front: Node?
    var rear: Node?
    var cache: Node?
    var jobs: nat
    var nextId: nat
    ghost var chain: seq<Node>
    ghost var spare: seq<Node>
    ghost var queue: seq<Job>

    /** Every node hangs in the chain or in the cache, once. */
    ghost predicate Shape()
      reads this`front, this`rear, this`cache, this`chain, this`spare, chain, spare
    {
      && Linked(chain, front) && Linked(spare, cache)
      && Unlike(chain) && Unlike(spare)
      && (forall n :: n in chain ==> n !in spare)
      && rear == (if chain == [] then null else chain[|chain| - 1])
    }

    ghost predicate Valid()
      reads this, chain, spare
    {
      && Shape()
      && Carries(chain, queue) && jobs == |queue|
      && Sorted(queue) && Older(queue, nextId)
    }

    constructor ()
      ensures Valid() && queue == [] && chain == [] && spare == [] && nextId == 0
    {
      front, rear, cache := null, null, null;
      jobs, nextId := 0, 0;
      chain, spare, queue := [], [], [];
    }

    /** A node for the job, from the cache or, when that is empty, a new one. */
    method TakeNode(job: Job) returns (n: Node)
      requires Valid()
      modifies this`cache, this`spare, spare
      ensures n.job == job && forall m :: m in chain ==> m.job == old(m.job)
      ensures Valid() && n !in chain && n !in spare
      ensures if old(spare) == [] then fresh(n) && spare == [] else n == old(spare[0]) && spare == old(spare[1..])
    {
      if cache != null {
        n := cache;
        cache := n.prev;
        spare := spare[1..];
      } else {
        n := new Node();
      }
      n.job := job;
    }

    /** The loop over the chain: the first node that makes way, and the one before it. */
    method FindPlace(job: Job) returns (iter: Node?, ahead: Node?, ghost k: nat)
      requires Shape() && Carries(chain, queue)
      ensures k <= |chain|
      ensures iter == (if k < |chain| then chain[k] else null)
      ensures ahead == (if k > 0 then chain[k - 1] else null)
      ensures forall i :: 0 <= i < k ==> !Yields(queue[i], job)
      ensures k < |chain| ==> Yields(queue[k], job)
      ensures iter == null <==> forall i :: 0 <= i < |queue| ==> !Yields(queue[i], job)
      ensures iter != null ==> iter in chain && Yields(iter.job, job)
    {
      iter, ahead, k := front, null, 0;
      while iter != null && !Yields(iter.job, job)
        invariant k <= |chain|
        invariant iter == (if k < |chain| then chain[k] else null)
        invariant ahead == (if k > 0 then chain[k - 1] else null)
        invariant forall i :: 0 <= i < k ==> !Yields(queue[i], job)
        decreases |chain| - k
      {
        ahead := iter;
        iter := iter.prev;
        k := k + 1;
      }
    }

    /** The node joins the chain ahead of iter, or at the rear. */
    method Link(n: Node, iter: Node?, ahead: Node?, ghost k: nat)
      requires Linked(chain, front) && Unlike(chain) && n !in chain
      requires rear == (if chain == [] then null else chain[|chain| - 1])
      requires k <= |chain|
      requires iter == (if k < |chain| then chain[k] else null)
      requires ahead == (if k > 0 then chain[k - 1] else null)
      modifies this`front, this`rear, this`chain, chain, n
      ensures chain == old(chain[..k]) + [n] + old(chain[k..])
      ensures Linked(chain, front) && Unlike(chain)
      ensures rear == chain[|chain| - 1]
      ensures forall m :: m in chain ==> m.job == old(m.job)
    {
      if iter != null {
        n.prev := iter;
        if ahead != null { ahead.prev := n; } else { front := n; }
      } else {
        n.prev := null;
        if rear != null { rear.prev := n; }
        rear := n;
        if front == null { front := n; }
      }
      SpliceLinks(chain, k, n, front);
      chain := chain[..k] + [n] + chain[k..];
    }

    /** Whatever Shape says of a chain that n has just joined. */
    lemma JoinKeepsShape(was: seq<Node>, k: nat, n: Node)
      requires k <= |was| && chain == was[..k] + [n] + was[k..]
      requires Linked(chain, front) && Unlike(chain) && rear == chain[|chain| - 1]
      requires Linked(spare, cache) && Unlike(spare) && n !in spare && forall m :: m in was ==> m !in spare
      ensures Shape()
    {
      forall m | m in chain ensures m !in spare {
        if m != n { assert m in was; }
      }
    }

    /** The node n takes its place in the chain. */
    method Place(n: Node) returns (ghost k: nat)
      requires Shape() && Carries(chain, queue) && n !in chain && n !in spare
      modifies this`front, this`rear, this`chain, chain, n
      ensures Shape() && n.job == old(n.job)
      ensures k <= old(|chain|) == |queue| && chain == old(chain[..k]) + [n] + old(chain[k..])
      ensures Insert(queue, n.job) == queue[..k] + [n.job] + queue[k..]
      ensures Carries(chain, queue[..k] + [n.job] + queue[k..])
    {
      var iter, ahead;
      iter, ahead, k := FindPlace(n.job);
      InsertAt(queue, n.job, k);
      hide Insert;
      ghost var was := chain;
      assert forall i :: 0 <= i < |spare| ==> spare[i] !in chain && spare[i] != n;
      label L:
      Link(n, iter, ahead, k);
      assert forall i :: 0 <= i < |spare| ==> unchanged@L(spare[i]);
      assert Linked(spare, cache);
      JoinKeepsShape(was, k, n);
      assert forall i :: 0 <= i < |was| ==> was[i] in chain;
      CarriesSplice(was, chain, queue, k, n);
    }

    /** iot_threadpool_add_work_locked */
    method Add(work: nat, priority: int) returns (ghost n: Node, ghost k: nat)
      requires Valid()
      modifies this, chain, spare
      ensures Valid() && nextId == old(nextId) + 1 && jobs == old(jobs) + 1
      ensures queue == Insert(old(queue), Job(old(nextId), priority, work))
      ensures k <= |old(chain)| && chain == old(chain[..k]) + [n] + old(chain[k..])
      ensures if old(spare) == [] then fresh(n) && spare == [] else [n] + spare == old(spare)
    {
      hide *;
      Parts();
      var job := Job(nextId, priority, work);
      InsertKeepsOrder(queue, job);
      InsertKeepsAge(queue, job);
      InsertHolds(queue, job);
      var node := TakeNode(job);
      n := node;
      Parts();
      k := Place(node);
      LengthGrows(queue, k, job);
      Register(queue[..k] + [job] + queue[k..]);
    }

    /** The new job is counted. */
    method Register(ghost q: seq<Job>)
      requires Shape() && Carries(chain, q) && |q| == jobs + 1 && Sorted(q) && Older(q, nextId + 1)
      modifies this`queue, this`nextId, this`jobs
      ensures Valid() && queue == q && nextId == old(nextId) + 1 && jobs == old(jobs) + 1
    {
      queue := q;
      nextId := nextId + 1;
      jobs := jobs + 1;
    }

    static lemma LengthGrows(q: seq<Job>, k: nat, job: Job)
      requires k <= |q|
      ensures |q[..k] + [job] + q[k..]| == |q| + 1
    {
    }

    lemma Parts()
      requires Valid()
      ensures Shape() && Carries(chain, queue) && jobs == |queue| && Sorted(queue) && Older(queue, nextId)
      ensures |chain| == |queue| && forall i :: 0 <= i < |chain| ==> chain[i].job == queue[i]
    {
    }

    lemma ShapeWithoutFirst()
      requires Shape() && chain != []
      ensures front == chain[0] && front !in chain[1..] && front !in spare
      ensures Linked(chain[1..], front.prev) && Unlike(chain[1..]) && Unlike([front] + spare)
      ensures rear == (if chain[1..] == [] then front else chain[1..][|chain[1..]| - 1])
    {
      var t := chain[1..];
      forall i | 0 <= i < |t| - 1 ensures t[i].prev == t[i + 1] {
        assert chain[i + 1].prev == chain[i + 2];
      }
    }

    /** The front node moves from the chain to the cache. */
    method Recycle()
      requires Shape() && front != null && jobs > 0
      requires jobs == |chain|
      modifies this`front, this`rear, this`cache, this`chain, this`spare, this`jobs, front`prev
      ensures Shape() && chain == old(chain[1..]) && spare == old([chain[0]] + spare)
      ensures jobs == |chain|
    {
      ShapeWithoutFirst();
      assert Linked(spare, cache) && forall n :: n in chain[1..] ==> n !in [front] + spare;
      hide Linked, Unlike, Shape;
      var first := front;
      front := first.prev;
      first.prev := cache;
      cache := first;
      chain := chain[1..];
      LinkFront(spare, first);
      spare := [first] + spare;
      jobs := jobs - 1;
      if jobs == 0 {
        LinkedEmpty(chain, front);
        front := null;
        rear := null;
      }
      ShapeHolds();
    }

    lemma ShapeHolds()
      requires Linked(chain, front) && Linked(spare, cache) && Unlike(chain) && Unlike(spare)
      requires forall n :: n in chain ==> n !in spare
      requires rear == (if chain == [] then null else chain[|chain| - 1])
      ensures Shape()
    {
    }

    /** Pulling a job from the queue, which is not empty. */
    method Pull() returns (job: Job)
      requires Valid() && front != null
      modifies this, chain
      ensures Valid() && nextId == old(nextId) && jobs == old(jobs) - 1
      ensures old(queue) == [job] + queue
      ensures chain == old(chain[1..]) && spare == old([chain[0]] + spare)
    {
      job := front.job;
      ghost var was := chain;
      Recycle();
      assert was == [was[0]] + chain;
      queue := queue[1..];
    }
  }

  lemma CarriesSplice(was: seq<Node>, now: seq<Node>, queue: seq<Job>, k: nat, n: Node)
    requires k <= |was| == |queue| && now == was[..k] + [n] + was[k..]
    requires forall i :: 0 <= i < |was| ==> was[i].job == queue[i]
    ensures Carries(now, queue[..k] + [n.job] + queue[k..])
  {
  }

  /** A node in front of a chain. */
  lemma LinkFront(s: seq<Node>, n: Node)
    requires Linked(s, n.prev) && n !in s
    ensures Linked([n] + s, n)
  {
    var t := [n] + s;
    forall i | 0 <= i < |t| - 1 ensures t[i].prev == t[i + 1] {
      if i > 0 { assert t[i] == s[i - 1]; }
    }
  }

  lemma LinkedEmpty(s: seq<Node>, head: Node?)
    requires Linked(s, head) && s == []
    ensures head == null
  {
  }
}
