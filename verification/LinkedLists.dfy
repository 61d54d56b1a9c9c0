// The list of src/c/data.c and its cached hash.
module LinkedLists {
  // Doubly linked elements, the first at the tail. The element at the head carries the length, and the list an XOR hash
  // that is recomputed only when a flag says so.

  import opened DataOrder
  import opened HashFolds
  import opened Options
  import opened Sequences

  class Element {
    var next: Element?      // towards the head
    var prev: Element?      // towards the tail
    var value: Data
    var length: nat         // meaningful at the head

    constructor (v: Data)
      ensures value == v && next == null && prev == null && length == 0
    {
      next, prev, value, length := null, null, v, 0;
    }
  }

  ghost predicate Unlike(chain: seq<Element>) {
    forall i, j :: 0 <= i < j < |chain| ==> chain[i] != chain[j]
  }

  /** Neighbours point at each other, and the ends at nothing. */
  ghost predicate Linked(chain: seq<Element>)
    reads chain
  {
    && (chain != [] ==> chain[0].prev == null && chain[|chain| - 1].next == null)
    && (forall i :: 0 <= i < |chain| - 1 ==> chain[i].next == chain[i + 1])
    && (forall i :: 0 <= i < |chain| - 1 ==> chain[i + 1].prev == chain[i])
  }

  ghost predicate Carries(chain: seq<Element>, values: seq<Data>)
    reads chain
  {
    |chain| == |values| && forall i :: 0 <= i < |chain| ==> chain[i].value == values[i]
  }

  lemma CarriesWithout(chain: seq<Element>, rest: seq<Element>, values: seq<Data>, k: nat)
    requires Carries(chain, values) && k < |chain| && rest == chain[..k] + chain[k + 1..]
    ensures Carries(rest, values[..k] + values[k + 1..])
  {
  }

  lemma Without<T>(s: seq<T>, k: nat)
    requires k < |s|
    ensures k == 0 ==> s[..k] + s[k + 1..] == s[1..]
    ensures k == |s| - 1 ==> s[..k] + s[k + 1..] == s[..|s| - 1]
  {
  }

  class LinkedList {
    var tail: Element?
    var head: Element?
    var hash: nat
    var rehash: bool
    ghost var chain: seq<Element>
    ghost var values: seq<Data>

    ghost predicate Shape()
      reads this`tail, this`head, this`chain, chain
    {
      && Linked(chain) && Unlike(chain)
      && tail == (if chain == [] then null else chain[0])
      && head == (if chain == [] then null else chain[|chain| - 1])
      && (chain != [] ==> chain[|chain| - 1].length == |chain|)
    }

    /** The hash is that of the values unless the flag says that it is not. */
    ghost predicate HashHolds()
      reads this`hash, this`rehash, this`values
    {
      !rehash ==> hash == HashSeq(values)
    }

    ghost predicate Valid()
      reads this, chain
    {
      Shape() && Carries(chain, values) && HashHolds()
    }

    constructor ()
      ensures Valid() && values == [] && fresh(chain)
    {
      tail, head, hash, rehash := null, null, 0, false;
      chain, values := [], [];
    }

    /** iot_data_list_length: true to the elements, though only the head keeps count. */
    method Length() returns (n: nat)
      requires Valid()
      ensures n == |values|
    {
      n := if head != null then head.length else 0;
    }

    // -------------------------------------------------------------- the links

    method LinkTail(v: Data)
      requires Shape() && Carries(chain, values)
      modifies this`tail, this`head, this`chain, chain
      ensures Shape() && |chain| == |old(chain)| + 1 && chain[1..] == old(chain) && fresh(chain[0])
      ensures Carries(chain, [v] + values)
    {
      var element := tail;
      var e := new Element(v);
      tail := e;
      e.next := element;
      if element != null { element.prev := e; } else { head := e; }
      head.length := head.length + 1;
      chain := [e] + chain;
    }

    method LinkHead(v: Data)
      requires Shape() && Carries(chain, values)
      modifies this`tail, this`head, this`chain, chain
      ensures Shape() && |chain| == |old(chain)| + 1 && chain[..|chain| - 1] == old(chain)
      ensures fresh(chain[|chain| - 1]) && Carries(chain, values + [v])
    {
      var element := head;
      var e := new Element(v);
      head := e;
      e.prev := element;
      if element != null {
        e.length := element.length + 1;
        element.next := e;
      } else {
        tail := e;
        e.length := 1;
      }
      chain := chain + [e];
    }

    method UnlinkTail()
      requires Shape() && Carries(chain, values) && chain != []
      modifies this`tail, this`head, this`chain, chain
      ensures Shape() && chain == old(chain[1..]) && Carries(chain, values[1..])
    {
      assert |chain| > 1 ==> chain[0].next == chain[1] && chain[1] in chain;
      ghost var rest := chain[1..];
      assert rest != [] ==> rest[|rest| - 1] == chain[|chain| - 1];
      tail := tail.next;
      if tail != null {
        tail.prev := null;
        head.length := head.length - 1;
      } else {
        head := null;
      }
      chain := rest;
      forall i | 0 <= i < |rest| - 1 ensures rest[i].next == rest[i + 1] && rest[i + 1].prev == rest[i] {
        assert rest[i] == old(chain[i + 1]) && rest[i + 1] == old(chain[i + 2]);
      }
    }

    method UnlinkHead()
      requires Shape() && Carries(chain, values) && chain != []
      modifies this`tail, this`head, this`chain, chain
      ensures Shape() && chain == old(chain[..|chain| - 1]) && Carries(chain, values[..|values| - 1])
    {
      ghost var rest := chain[..|chain| - 1];
      assert |chain| > 1 ==> chain[|chain| - 2].next == chain[|chain| - 1] && rest[|rest| - 1] == chain[|chain| - 2];
      var element := head;
      assert |chain| > 1 ==> chain[|chain| - 2 + 1].prev == chain[|chain| - 2];
      head := element.prev;
      if head != null {
        head.next := null;
        head.length := element.length - 1;
      } else {
        tail := null;
      }
      chain := rest;
    }

    method UnlinkMiddle(element: Element, ghost k: nat)
      requires Shape() && 0 < k < |chain| - 1 && chain[k] == element
      modifies this`chain, chain
      ensures Shape() && chain == old(chain[..k] + chain[k + 1..])
      ensures forall i :: 0 <= i < |old(chain)| ==> old(chain)[i].value == old(chain[i].value)
    {
      assert chain[k - 1].next == chain[k] && chain[k].prev == chain[k - 1];
      assert chain[k].next == chain[k + 1] && chain[k + 1].prev == chain[k];
      ghost var rest := chain[..k] + chain[k + 1..];
      assert forall i :: 0 <= i < |rest| ==> rest[i] == if i < k then chain[i] else chain[i + 1];
      element.next.prev := element.prev;
      element.prev.next := element.next;
      head.length := head.length - 1;
      chain := rest;
      forall i | 0 <= i < |rest| - 1 ensures rest[i].next == rest[i + 1] && rest[i + 1].prev == rest[i] {
        if i < k {
          assert rest[i] == old(chain[i]) && (i + 1 < k ==> rest[i + 1] == old(chain[i + 1]));
        } else {
          assert rest[i] == old(chain[i + 1]) && rest[i + 1] == old(chain[i + 2]);
        }
      }
    }

    // -------------------------------------------------------------- the calls

    /** iot_data_list_tail_push: the hash takes the new value in. */
    method TailPush(v: Data)
      requires Valid()
      modifies this, chain
      ensures Valid() && values == [v] + old(values) && chain != [] && chain[1..] == old(chain) && fresh(chain[0])
      ensures forall i :: 0 <= i < |chain| ==> chain[i] in old(chain) || fresh(chain[i])
    {
      HashSeqInsert([], v, values);
      NoPrefix(values);
      NoPrefix([v]);
      hide Shape, Carries, Xor, HashSeq, Hash;
      LinkTail(v);
      hash := Xor(hash, Hash(v));
      values := [v] + values;
    }

    /** iot_data_list_head_push */
    method HeadPush(v: Data)
      requires Valid()
      modifies this, chain
      ensures Valid() && values == old(values) + [v]
      ensures chain != [] && chain[..|chain| - 1] == old(chain) && fresh(chain[|chain| - 1])
      ensures forall i :: 0 <= i < |chain| ==> chain[i] in old(chain) || fresh(chain[i])
    {
      HashSeqInsert(values, v, []);
      NoSuffix(values);
      NoSuffix(values + [v]);
      hide Shape, Carries, Xor, HashSeq, Hash;
      LinkHead(v);
      hash := Xor(hash, Hash(v));
      values := values + [v];
    }

    /** iot_data_list_tail_pop */
    method TailPop() returns (v: Option<Data>)
      requires Valid()
      modifies this, chain
      ensures Valid()
      ensures old(values) == [] ==> v == None && values == [] && chain == old(chain)
      ensures old(values) != [] ==> v == Some(old(values[0])) && values == old(values[1..]) && chain == old(chain[1..])
      ensures forall i :: 0 <= i < |chain| ==> chain[i] in old(chain)
    {
      hide Linked, HashSeq;
      if tail == null { return None; }
      v := Some(tail.value);
      UnlinkTail();
      hide Shape;
      rehash := true;
      values := values[1..];
    }

    /** iot_data_list_head_pop */
    method HeadPop() returns (v: Option<Data>)
      requires Valid()
      modifies this, chain
      ensures Valid()
      ensures old(values) == [] ==> v == None && values == [] && chain == old(chain)
      ensures old(values) != [] ==> v == Some(old(values[|values| - 1]))
      ensures old(values) != [] ==> values == old(values[..|values| - 1]) && chain == old(chain[..|chain| - 1])
      ensures forall i :: 0 <= i < |chain| ==> chain[i] in old(chain)
    {
      hide Linked, HashSeq;
      if head == null { return None; }
      v := Some(head.value);
      UnlinkHead();
      hide Shape;
      rehash := true;
      values := values[..|values| - 1];
    }

    /** iot_data_list_find_element: the first element, from the tail, that the caller's test accepts. */
    method FindElement(test: Data -> bool) returns (element: Element?, ghost k: nat)
      requires Valid()
      ensures k <= |values| == |chain| && forall i :: 0 <= i < k ==> !test(values[i])
      ensures if k < |values| then element == chain[k] && test(values[k]) else element == null
      ensures element == null <==> forall i :: 0 <= i < |values| ==> !test(values[i])
      ensures element != null ==> element in chain && test(element.value)
    {
      hide HashSeq;
      element, k := tail, 0;
      while element != null && !test(element.value)
        invariant k <= |values| && element == (if k < |values| then chain[k] else null)
        invariant forall i :: 0 <= i < k ==> !test(values[i])
        decreases |values| - k
      {
        assert k + 1 < |values| ==> chain[k].next == chain[k + 1];
        element := element.next;
        k := k + 1;
      }
    }

    method RemoveMiddle(element: Element, ghost k: nat)
      requires Valid() && 0 < k < |chain| - 1 && chain[k] == element
      modifies this, chain
      ensures Valid() && values == old(values[..k] + values[k + 1..]) && chain == old(chain[..k] + chain[k + 1..])
      ensures forall i :: 0 <= i < |chain| ==> chain[i] in old(chain)
    {
      hide Linked, Unlike, HashSeq;
      ghost var was := chain;
      UnlinkMiddle(element, k);
      CarriesWithout(was, chain, values, k);
      hide Shape, Carries;
      rehash := true;
      values := values[..k] + values[k + 1..];
    }

    /** iot_data_list_remove_element */
    method RemoveElement(element: Element, ghost k: nat)
      requires Valid() && k < |chain| && chain[k] == element
      modifies this, chain
      ensures Valid() && values == old(values[..k] + values[k + 1..]) && chain == old(chain[..k] + chain[k + 1..])
      ensures forall i :: 0 <= i < |chain| ==> chain[i] in old(chain)
    {
      PositionOf(element, k);
      Without(chain, k);
      Without(values, k);
      hide Valid;
      if element == head {
        var v := HeadPop();
      } else if element == tail {
        var v := TailPop();
      } else {
        RemoveMiddle(element, k);
      }
    }

    lemma PositionOf(element: Element, k: nat)
      requires Valid() && k < |chain| && chain[k] == element
      ensures |values| == |chain|
      ensures element == head <==> k == |chain| - 1
      ensures element == tail <==> k == 0
    {
    }

    /** iot_data_list_remove */
    method Remove(test: Data -> bool) returns (found: bool, ghost k: nat)
      requires Valid()
      modifies this, chain
      ensures Valid() && k <= |old(values)| && (found <==> k < |old(values)|)
      ensures forall i :: 0 <= i < k ==> !test(old(values)[i])
      ensures found ==> test(old(values)[k]) && values == old(values[..k] + values[k + 1..])
      ensures found ==> chain == old(chain[..k] + chain[k + 1..])
      ensures !found ==> values == old(values) && chain == old(chain)
      ensures forall i :: 0 <= i < |chain| ==> chain[i] in old(chain)
    {
      var element;
      element, k := FindElement(test);
      hide Shape, HashSeq;
      found := element != null;
      if found { RemoveElement(element, k); }
    }

    /** iot_data_list_iter_replace, with the iterator on element number k. */
    method Replace(element: Element, v: Data, ghost k: nat)
      requires Valid() && k < |chain| && chain[k] == element
      modifies this`rehash, this`values, element`value
      ensures Valid() && values == old(values[k := v])
    {
      hide HashSeq;
      rehash := true;
      element.value := v;
      values := values[k := v];
    }

    /** iot_data_list_empty */
    method Empty()
      requires Valid()
      modifies this, chain
      ensures Valid() && values == [] && chain == []
    {
      var v := HeadPop();
      while v.Some?
        invariant Valid() && chain <= old(chain) && (v.None? ==> values == [])
        decreases |values|, v.Some?
      {
        v := HeadPop();
      }
    }

    /** iot_data_hash for a list: the fold over the present values, from the cache or recomputed. */
    method HashValue() returns (h: nat)
      requires Valid()
      modifies this`hash, this`rehash
      ensures Valid() && !rehash && h == HashSeq(values) == Hash(List(values))
    {
      if rehash {
        hash := 0;
        rehash := false;
        var element := tail;
        ghost var k := 0;
        while element != null
          invariant k <= |values| && element == (if k < |values| then chain[k] else null)
          invariant !rehash && hash == HashSeq(values[..k])
          decreases |values| - k
        {
          HashSeqNext(values, k);
          assert k + 1 < |values| ==> chain[k].next == chain[k + 1];
          hash := Xor(hash, Hash(element.value));
          element := element.next;
          k := k + 1;
        }
        assert values[..k] == values;
      }
      h := hash;
    }
  }

  // ---------------------------------------------------------------- runs

  datatype Call =
    | PushTail(v: Data)
    | PushHead(v: Data)
    | PopTail
    | PopHead
    | RemoveFirst(test: Data -> bool)
    | ReplaceFirst(test: Data -> bool, v: Data)
    | Clear
    | ReadHash

  function FirstIndex(values: seq<Data>, test: Data -> bool): (k: nat)
    ensures k <= |values| && (forall i :: 0 <= i < k ==> !test(values[i])) && (k < |values| ==> test(values[k]))
  {
    if values == [] || test(values[0]) then 0 else 1 + FirstIndex(values[1..], test)
  }

  function Effect(values: seq<Data>, c: Call): seq<Data> {
    match c
    case PushTail(v) => [v] + values
    case PushHead(v) => values + [v]
    case PopTail => if values == [] then [] else values[1..]
    case PopHead => if values == [] then [] else values[..|values| - 1]
    case RemoveFirst(test) =>
      var k := FirstIndex(values, test);
      if k == |values| then values else values[..k] + values[k + 1..]
    case ReplaceFirst(test, v) =>
      var k := FirstIndex(values, test);
      if k == |values| then values else values[k := v]
    case Clear => []
    case ReadHash => values
  }

  function Effects(values: seq<Data>, calls: seq<Call>): seq<Data>
    decreases |calls|
  {
    if calls == [] then values else Effects(Effect(values, calls[0]), calls[1..])
  }

  lemma FirstIndexUnique(values: seq<Data>, test: Data -> bool, k: nat)
    requires k <= |values| && (forall i :: 0 <= i < k ==> !test(values[i])) && (k < |values| ==> test(values[k]))
    ensures k == FirstIndex(values, test)
  {
    var j := FirstIndex(values, test);
    assert !(j < k) && !(k < j);
  }

  method PerformRemove(list: LinkedList, test: Data -> bool)
    requires list.Valid()
    modifies list, list.chain
    ensures list.Valid() && list.values == Effect(old(list.values), RemoveFirst(test))
    ensures forall i :: 0 <= i < |list.chain| ==> list.chain[i] in old(list.chain)
  {
    hide LinkedList.Valid;
    var found;
    ghost var k;
    found, k := list.Remove(test);
    FirstIndexUnique(old(list.values), test, k);
  }

  method PerformReplace(list: LinkedList, test: Data -> bool, v: Data)
    requires list.Valid()
    modifies list, list.chain
    ensures list.Valid() && list.values == Effect(old(list.values), ReplaceFirst(test, v)) && list.chain == old(list.chain)
  {
    hide LinkedList.Valid;
    var element;
    ghost var k;
    element, k := list.FindElement(test);
    FirstIndexUnique(list.values, test, k);
    if element != null { list.Replace(element, v, k); }
  }

  method Perform(list: LinkedList, c: Call)
    requires list.Valid()
    modifies list, list.chain
    ensures list.Valid() && list.values == Effect(old(list.values), c)
    ensures forall i :: 0 <= i < |list.chain| ==> list.chain[i] in old(list.chain) || fresh(list.chain[i])
  {
    hide LinkedList.Valid, FirstIndex;
    match c
    case PushTail(v) => list.TailPush(v);
    case PushHead(v) => list.HeadPush(v);
    case PopTail => var v := list.TailPop();
    case PopHead => var v := list.HeadPop();
    case RemoveFirst(test) => PerformRemove(list, test);
    case ReplaceFirst(test, v) => PerformReplace(list, test, v);
    case Clear => list.Empty();
    case ReadHash => var h := list.HashValue();
  }

  /** After any run of calls the hash is the fold over the values the calls leave, whether it was kept up
      or is recomputed, and the length is their number. */
  method Run(list: LinkedList, calls: seq<Call>) returns (hash: nat, length: nat)
    requires list.Valid()
    modifies list, list.chain
    ensures list.Valid() && list.values == Effects(old(list.values), calls)
    ensures hash == Hash(List(Effects(old(list.values), calls))) && length == |Effects(old(list.values), calls)|
  {
    hide LinkedList.Valid, Effect, Hash;
    ghost var rest := calls;
    for i := 0 to |calls|
      invariant rest == calls[i..]
      invariant list.Valid() && Effects(list.values, rest) == Effects(old(list.values), calls)
      invariant forall i :: 0 <= i < |list.chain| ==> list.chain[i] in old(list.chain) || fresh(list.chain[i])
    {
      Perform(list, calls[i]);
      rest := rest[1..];
    }
    hash := list.HashValue();
    length := list.Length();
  }
}
