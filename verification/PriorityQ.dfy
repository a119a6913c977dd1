/** The rescheduling priority queue (app/utils/PriorityQ.h): a binary heap of shared
  elements ordered by next_invokation, a key that the queue itself changes.
  The heap operations are those of section [alg.heap.operations] of ISO C++20. */
module PriorityQ {
  import opened PriorityQueueElements
  import opened RescheduleRuns

  // ---------- Heaps of keys ----------

  function Up(j: nat): nat
    requires j > 0
  {
    (j - 1) / 2
  }

  /** The key at j is not below its parent's: no element fires before its parent. */
  predicate Edge(ks: seq<int>, j: nat) {
    0 < j < |ks| ==> ks[Up(j)] <= ks[j]
  }

  predicate Bridge(ks: seq<int>, j: nat) {
    0 < j < |ks| && 0 < Up(j) ==> ks[Up(Up(j))] <= ks[j]
  }

  ghost predicate IsHeap(ks: seq<int>) {
    forall j: nat :: Edge(ks, j)
  }

  /** A heap but for the key at i, which may be too small. */
  ghost predicate RisesAt(ks: seq<int>, i: nat) {
    && (forall j: nat :: j != i ==> Edge(ks, j))
    && (forall j: nat :: 0 < j && Up(j) == i ==> Bridge(ks, j))
  }

  /** A heap but for the key at i, which may be too big. */
  ghost predicate SinksAt(ks: seq<int>, i: nat) {
    && (forall j: nat :: 0 < j && Up(j) != i ==> Edge(ks, j))
    && (forall j: nat :: 0 < j && Up(j) == i ==> Bridge(ks, j))
  }

  function Swap<T>(s: seq<T>, i: nat, j: nat): (r: seq<T>)
    requires i < |s| && j < |s|
    ensures |r| == |s| && multiset(r) == multiset(s)
  {
    s[i := s[j]][j := s[i]]
  }

  lemma Rise(ks: seq<int>, i: nat)
    requires RisesAt(ks, i) && 0 < i < |ks| && ks[i] < ks[Up(i)]
    ensures RisesAt(Swap(ks, Up(i), i), Up(i))
  {
    var p, r := Up(i), Swap(ks, Up(i), i);
    forall j: nat | j != p ensures Edge(r, j) {
      assert j != i ==> Edge(ks, j);
      assert 0 < j && Up(j) == i ==> Bridge(ks, j);
    }
    forall j: nat | 0 < j && Up(j) == p ensures Bridge(r, j) {
      assert Edge(ks, p);
      assert j != i ==> Edge(ks, j);
    }
  }

  lemma Sink(ks: seq<int>, i: nat, c: nat)
    requires SinksAt(ks, i) && 0 < c < |ks| && Up(c) == i && ks[c] < ks[i]
    requires forall d: nat :: 0 < d < |ks| && Up(d) == i ==> ks[c] <= ks[d]
    ensures SinksAt(Swap(ks, i, c), c)
  {
    var r := Swap(ks, i, c);
    forall j: nat | 0 < j && Up(j) != c ensures Edge(r, j) {
      assert Up(j) != i ==> Edge(ks, j);
      assert j == i ==> Bridge(ks, c);
    }
    forall j: nat | 0 < j && Up(j) == c ensures Bridge(r, j) {
      assert Edge(ks, j);
    }
  }

  lemma {:induction false} TopIsLeast(ks: seq<int>, j: nat)
    requires IsHeap(ks) && j < |ks|
    ensures ks[0] <= ks[j]
  {
    if j > 0 {
      assert Edge(ks, j);
      TopIsLeast(ks, Up(j));
    }
  }

  // ---------- Heaps of objects with mutable keys ----------

  function KeyList<E>(heap: seq<E>, key: map<E, int>): (ks: seq<int>)
    requires forall e :: e in heap ==> e in key
    ensures |ks| == |heap|
  {
    seq(|heap|, i requires 0 <= i < |heap| => key[heap[i]])
  }

  ghost predicate HeapWith<E>(heap: seq<E>, key: map<E, int>, e: E, v: int)
    requires forall x :: x in heap ==> x in key
  {
    IsHeap(KeyList(heap, key[e := v]))
  }

  /** Why the key may change only while its object is out of the heap: heap order survives
    every increase of the key of e exactly when no place below a place of e holds another
    object. A reschedule of an object that is queued a second time can break the order. */
  lemma RaisingAKey<E>(heap: seq<E>, key: map<E, int>, e: E)
    requires forall x :: x in heap ==> x in key
    requires IsHeap(KeyList(heap, key)) && e in key
    ensures (forall v :: key[e] <= v ==> HeapWith(heap, key, e, v))
            <==> (forall j :: 0 < j < |heap| && heap[Up(j)] == e ==> heap[j] == e)
  {
    if j :| 0 < j < |heap| && heap[Up(j)] == e && heap[j] != e {
      var v := key[heap[j]] + 1;
      assert Edge(KeyList(heap, key), j);
      assert !Edge(KeyList(heap, key[e := v]), j);
      assert key[e] <= v && !HeapWith(heap, key, e, v);
    } else {
      forall v | key[e] <= v ensures HeapWith(heap, key, e, v) {
        var ks := KeyList(heap, key[e := v]);
        forall j: nat ensures Edge(ks, j) {
          assert Edge(KeyList(heap, key), j);
        }
      }
    }
  }

  // ---------- push_heap and pop_heap ----------

  function Keys(h: seq<Element>): (ks: seq<int>)
    reads h
    ensures |ks| == |h|
  {
    seq(|h|, i requires 0 <= i < |h| reads h => h[i].nextInvokation)
  }

  lemma KeysSwap(h: seq<Element>, i: nat, j: nat)
    requires i < |h| && j < |h|
    ensures Keys(Swap(h, i, j)) == Swap(Keys(h), i, j)
  {
  }

  method PushHeap(h: seq<Element>, elem: Element) returns (r: seq<Element>)
    requires IsHeap(Keys(h))
    ensures IsHeap(Keys(r))
    ensures multiset(r) == multiset(h) + multiset{elem}
  {
    r := h + [elem];
    var i := |h|;
    forall j: nat | j != i ensures Edge(Keys(r), j) {
      assert Edge(Keys(h), j);
    }
    while i > 0 && r[i].nextInvokation < r[Up(i)].nextInvokation
      invariant 0 <= i < |r| == |h| + 1 && RisesAt(Keys(r), i)
      invariant multiset(r) == multiset(h) + multiset{elem}
    {
      Rise(Keys(r), i);
      KeysSwap(r, Up(i), i);
      r := Swap(r, Up(i), i);
      i := Up(i);
    }
    assert Edge(Keys(r), i);
  }

  /** The top leaves, the last element takes its place and sinks. */
  method PopHeap(h: seq<Element>) returns (r: seq<Element>)
    requires IsHeap(Keys(h)) && |h| > 0
    ensures IsHeap(Keys(r))
    ensures multiset(r) == multiset(h) - multiset{h[0]}
  {
    var n := |h| - 1;
    RootReplaced(h);
    r := Swap(h, 0, n)[..n];
    ghost var ks := Keys(r);
    forall j: nat | 0 < j && Up(j) != 0 ensures Edge(ks, j) {
      assert Edge(Keys(h), j);
    }
    r := SiftDown(r);
  }

  method SiftDown(h: seq<Element>) returns (r: seq<Element>)
    requires SinksAt(Keys(h), 0)
    ensures IsHeap(Keys(r)) && multiset(r) == multiset(h)
  {
    r := h;
    var i := 0;
    while 2 * i + 1 < |h|
      invariant 0 <= i && |r| == |h| && SinksAt(Keys(r), i) && multiset(r) == multiset(h)
      decreases |h| - i
    {
      var c := 2 * i + 1;
      if c + 1 < |h| && r[c + 1].nextInvokation < r[c].nextInvokation {
        c := c + 1;
      }
      if r[i].nextInvokation <= r[c].nextInvokation {
        break;
      }
      Sink(Keys(r), i, c);
      KeysSwap(r, i, c);
      r := Swap(r, i, c);
      i := c;
    }
    Settled(Keys(r), i);
  }

  lemma Settled(ks: seq<int>, i: nat)
    requires SinksAt(ks, i)
    requires forall c: nat :: 0 < c < |ks| && Up(c) == i ==> ks[i] <= ks[c]
    ensures IsHeap(ks)
  {
    forall j: nat ensures Edge(ks, j) {
      assert 0 < j && Up(j) != i ==> Edge(ks, j);
    }
  }

  lemma RootReplaced<E>(s: seq<E>)
    requires |s| > 0
    ensures multiset(Swap(s, 0, |s| - 1)[..|s| - 1]) == multiset(s) - multiset{s[0]}
  {
    var n := |s| - 1;
    var t := Swap(s, 0, n);
    var front := t[..n];
    assert t == front + [s[0]];
    assert multiset(front + [s[0]]) == multiset(front) + multiset{s[0]};
  }

  // ---------- The class ----------

  class PQueue {
    var heap: seq<Element>

    /** The heap is in order, and no object is queued twice. */
    ghost predicate Valid()
      reads this, heap
    {
      IsHeap(Keys(heap)) && NoDuplicates(heap)
    }

    /** The queue of RescheduleRuns that the heap stands for. */
    ghost function Abs(): Queue<Element>
      reads this, heap
    {
      States(heap)
    }

    ghost function Elements(): set<Element>
      reads this
    {
      set e | e in heap
    }

    constructor ()
      ensures Valid() && heap == []
    {
      heap := [];
    }

    /** Every queued object counts as often as it is queued. */
    method GetSize() returns (n: int)
      ensures n == |multiset(heap)|
      ensures Valid() ==> n == |Abs()|
    {
      n := |heap|;
      if Valid() {
        SizeOfDistinct(heap);
        assert Abs().Keys == set e | e in heap;
      }
    }

    /** Pushing an object that is queued already keeps heap order and queues a second copy,
      which ends validity: TryPop would raise both keys at once (RaisingAKey). */
    method Push(elem: Element)
      requires IsHeap(Keys(heap))
      modifies this
      ensures IsHeap(Keys(heap)) && multiset(heap) == multiset(old(heap)) + multiset{elem}
      ensures Valid() <==> old(Valid()) && elem !in old(heap)
      ensures Abs() == old(Abs())[elem := elem.State()]
      ensures elem !in old(heap) ==>
                && Enabled(old(Abs()), Event.Push(elem, elem.State()))
                && Abs() == Apply(old(Abs()), Event.Push(elem, elem.State()))
    {
      var r := PushHeap(heap, elem);
      OneMore(r, heap, elem);
      heap := r;
    }

    /** `now` is the clock reading of this call. Nothing is returned exactly when nothing
      is due; otherwise the element has a least key among all queued ones, its fields have
      moved on, and it is back in the heap exactly when it has firings left. */
    method TryPop(now: int) returns (elem: Element?)
      requires Valid()
      modifies this, Elements()
      ensures Valid()
      ensures elem == null <==> Enabled(old(Abs()), Idle(now))
      ensures elem == null <==> forall f :: f in old(Abs()) ==> !Passed(now, old(Abs())[f].next)
      ensures elem == null && 0 <= now ==> forall f :: f in Abs() ==> now < Abs()[f].next + 1_000_000
      ensures elem == null ==> heap == old(heap) && Abs() == old(Abs())
      ensures elem != null ==> elem in old(heap) && TakesLeast(old(Abs()), elem, now)
      ensures elem != null ==> elem.State() == AfterPop(old(Abs())[elem])
      ensures elem != null ==> Abs() == Popped(old(Abs()), elem)
    {
      elem := null;
      LeastOnTop(heap);
      NothingPassed(Abs(), now);
      if |heap| != 0 && TruncateToMillis(now) > heap[0].nextInvokation {
        elem := heap[0];
        assert TakesLeast(Abs(), elem, now);
        heap := PopAndPutBack(heap);
      }
    }
  }

  /** pop and the push that may follow: the key moves on while the object is out of the
    heap, and the object goes back in if it has firings left. */
  method PopAndPutBack(h: seq<Element>) returns (r: seq<Element>)
    requires IsHeap(Keys(h)) && NoDuplicates(h) && |h| > 0
    modifies h[0]
    ensures IsHeap(Keys(r)) && NoDuplicates(r)
    ensures h[0].State() == AfterPop(old(h[0].State()))
    ensures States(r) == Popped(old(States(h)), h[0])
  {
    r := PopHeap(h);
    OneMore(h, r, h[0]);
    assert States(r) == States(h) - {h[0]};
    PutOver(States(h), h[0]);
    r := PutBack(r, h[0]);
  }

  method PutBack(rest: seq<Element>, elem: Element) returns (h: seq<Element>)
    requires IsHeap(Keys(rest)) && NoDuplicates(rest) && elem !in rest
    modifies elem
    ensures elem.State() == AfterPop(old(elem.State()))
    ensures IsHeap(Keys(h)) && NoDuplicates(h)
    ensures States(h) == var s := old(elem.State());
                         if Kept(s) then old(States(rest))[elem := AfterPop(s)] else old(States(rest))
  {
    h := rest;
    var again := elem.GetRescheduledItemIfAny();
    assert Keys(rest) == old(Keys(rest));
    if again != null {
      h := PushHeap(rest, again);
      OneMore(h, rest, elem);
    }
  }

  /** A get_value call by a caller that shares the object: the heap keeps its order, since
    no key changes, and the queue changes at that object only. */
  method TakeValue(h: seq<Element>, elem: Element) returns (value: real)
    requires Readable(elem.State())
    modifies elem
    ensures elem.State() == AfterValue(old(elem.State())) && value == ValueOf(old(elem.State()))
    ensures Keys(h) == old(Keys(h))
    ensures States(h) == if elem in h then old(States(h))[elem := elem.State()] else old(States(h))
  {
    value := elem.GetValue();
  }

  /** The queue after try_pop has returned e. */
  ghost function Popped<E>(q: Queue<E>, e: E): Queue<E>
    requires e in q
  {
    if Kept(q[e]) then q[e := AfterPop(q[e])] else q - {e}
  }

  lemma PutOver<E>(q: Queue<E>, e: E)
    requires e in q
    ensures Popped(q, e) == if Kept(q[e]) then (q - {e})[e := AfterPop(q[e])] else q - {e}
  {
  }

  ghost predicate NoDuplicates<E>(s: seq<E>) {
    forall e :: e in s ==> multiset(s)[e] == 1
  }

  ghost function States(h: seq<Element>): Queue<Element>
    reads h
  {
    map e | e in h :: e.State()
  }

  lemma OneMore<E>(s: seq<E>, rest: seq<E>, e: E)
    requires multiset(s) == multiset(rest) + multiset{e}
    ensures forall f :: f in s <==> f in rest || f == e
    ensures NoDuplicates(s) <==> NoDuplicates(rest) && e !in rest
  {
    Members(s);
    Members(rest);
    if NoDuplicates(s) {
      assert e in s;
    }
  }

  ghost predicate TakesLeast<E>(q: Queue<E>, e: E, now: int) {
    e in q && Due(now, q[e].next) && forall f :: f in q ==> q[e].next <= q[f].next
  }

  lemma LeastOnTop(h: seq<Element>)
    requires IsHeap(Keys(h))
    ensures forall f :: f in h ==> h[0].nextInvokation <= f.nextInvokation
  {
    forall f | f in h ensures h[0].nextInvokation <= f.nextInvokation {
      var j :| 0 <= j < |h| && h[j] == f;
      TopIsLeast(Keys(h), j);
    }
  }

  lemma Members<E>(s: seq<E>)
    ensures forall e :: e in s <==> multiset(s)[e] > 0
  {
    assert forall e :: e in s <==> e in multiset(s);
  }

  lemma {:induction false} SizeOfDistinct<E>(s: seq<E>)
    requires NoDuplicates(s)
    ensures |set e | e in s| == |s|
  {
    if s != [] {
      var t := s[1..];
      assert s == [s[0]] + t;
      assert multiset(s) == multiset{s[0]} + multiset(t);
      Members(t);
      assert multiset(s)[s[0]] == 1;
      forall e | e in t ensures multiset(t)[e] == 1 {
        assert e in s && multiset(s)[e] == 1;
      }
      SizeOfDistinct(t);
      assert (set e | e in s) == {s[0]} + set e | e in t;
    }
  }
}
