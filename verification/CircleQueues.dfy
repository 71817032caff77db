/** Circular queues (the CIRCLEQ macros of k5-queue.h).  The head, cast to an element pointer, closes the
    circle in both directions, and stands for "no element" at either end. */
module CircleQueues {
  import opened QueueLinks

  lemma Wraps(k: nat, n: nat)
    requires k < n
    ensures (k + 1) % n == if k + 1 < n then k + 1 else 0
    ensures (k + n - 1) % n == if k > 0 then k - 1 else n - 1
  {
    assert k > 0 ==> k + n - 1 == n + (k - 1);
  }

  ghost predicate IsRing(ring: seq<Link>, head: Link) {
    && |ring| > 1 && ring[0] == head && ring[|ring| - 1] == head
    && forall i, j :: 0 <= i < j < |ring| - 1 ==> ring[i] != ring[j]
  }

  lemma RingWith(was: seq<Link>, head: Link, p: nat, elm: Link)
    requires IsRing(was, head) && p + 1 < |was| && elm !in was
    ensures IsRing(With(was, p, elm), head)
    ensures Inner(With(was, p, elm)) == Inner(was)[..p] + [elm] + Inner(was)[p..]
  {
    InnerWith(was, p, elm);
    WithIs(was, p, elm);
    var s := With(was, p, elm);
    forall i, j | 0 <= i < j < |s| - 1
      ensures s[i] != s[j]
    {
      hide With;
      WithAt(was, p, elm, i);
      WithAt(was, p, elm, j);
    }
  }

  lemma RingWithout(was: seq<Link>, head: Link, p: nat)
    requires IsRing(was, head) && p + 2 < |was|
    ensures IsRing(Minus(was, p), head)
    ensures Inner(Minus(was, p)) == Inner(was)[..p] + Inner(was)[p + 1..]
  {
    InnerMinus(was, p);
    MinusIs(was, p);
    var s := Minus(was, p);
    forall i, j | 0 <= i < j < |s| - 1
      ensures s[i] != s[j]
    {
      hide Minus;
      MinusAt(was, p, i);
      MinusAt(was, p, j);
    }
  }

  /** What is between the two ends. */
  function Inner<T>(ring: seq<T>): (s: seq<T>)
    requires |ring| > 1
  {
    ring[1..|ring| - 1]
  }

  lemma InnerWith<T>(was: seq<T>, p: nat, x: T)
    requires p + 1 < |was|
    ensures Inner(With(was, p, x)) == Inner(was)[..p] + [x] + Inner(was)[p..]
  {
    var s, t := Inner(With(was, p, x)), Inner(was)[..p] + [x] + Inner(was)[p..];
    assert |s| == |t|;
    assert forall i :: 0 <= i < |s| ==> s[i] == t[i];
  }

  lemma InnerMinus<T>(was: seq<T>, p: nat)
    requires p + 2 < |was|
    ensures Inner(Minus(was, p)) == Inner(was)[..p] + Inner(was)[p + 1..]
  {
    var s, t := Inner(Minus(was, p)), Inner(was)[..p] + Inner(was)[p + 1..];
    assert |s| == |t|;
    assert forall i :: 0 <= i < |s| ==> s[i] == t[i];
  }

  /** Neighbours on the ring are linked both ways, except across the gaps after positions `p` and `q`. */
  ghost predicate LinkedBut(ring: seq<Link>, p: int, q: int)
    reads ring
  {
    NextLinked(ring, p, q) && BackLinked(ring, p, q)
  }

  class CircleQueue {
    const head: Link
    ghost var ring: seq<Link> // the head, the elements, and the head again

    ghost function Elems(): (s: seq<Link>)
      reads this
      requires |ring| > 1
    {
      Inner(ring)
    }

    ghost predicate Shape()
      reads this
    {
      IsRing(ring, head)
    }

    ghost predicate Valid()
      reads this, ring
    {
      Shape() && LinkedBut(ring, -1, -1)
    }

    // CIRCLEQ_INIT
    constructor ()
      ensures Valid() && fresh(head) && Elems() == []
    {
      head := new Link();
      new;
      head.next := head;
      head.back := head;
      ring := [head, head];
    }

    /** An element linked into the gap after position `p` takes its place on the ring. */
    ghost method Enter(p: nat, elm: Link)
      requires Shape() && LinkedBut(ring, p, p) && p + 1 < |ring| && elm !in ring
      requires elm.back == ring[p] && elm.next == ring[p + 1] && ring[p].next == elm && ring[p + 1].back == elm
      modifies this`ring
      ensures Valid() && Elems() == old(Elems())[..p] + [elm] + old(Elems())[p..]
    {
      RingWith(ring, head, p, elm);
      WithNext(ring, p, elm);
      WithBack(ring, p, elm);
      hide IsRing, NextLinked, BackLinked, With, Inner;
      ring := With(ring, p, elm);
    }

    /** An element linked out of its place leaves the ring. */
    ghost method Leave(p: nat)
      requires Shape() && LinkedBut(ring, p, p + 1) && p + 2 < |ring|
      requires ring[p].next == ring[p + 2] && ring[p + 2].back == ring[p]
      modifies this`ring
      ensures Valid() && Elems() == old(Elems())[..p] + old(Elems())[p + 1..]
    {
      RingWithout(ring, head, p);
      MinusNext(ring, p);
      MinusBack(ring, p);
      hide IsRing, NextLinked, BackLinked, Minus, Inner;
      ring := Minus(ring, p);
    }

    method InsertAfter(listelm: Link, elm: Link, ghost k: nat)
      requires Valid() && elm !in ring
      requires k < |Elems()| && Elems()[k] == listelm
      modifies this, elm, ring
      ensures Valid() && Elems() == old(Elems())[..k + 1] + [elm] + old(Elems())[k + 1..]
    {
      assert ring[k + 1] == listelm && ring[k + 1].next == ring[k + 2];
      elm.next := listelm.next;
      elm.back := listelm;
      if listelm.next == head {
        head.back := elm;
      } else {
        listelm.next.back := elm;
      }
      listelm.next := elm;
      Enter(k + 1, elm);
    }

    method InsertBefore(listelm: Link, elm: Link, ghost k: nat)
      requires Valid() && elm !in ring
      requires k < |Elems()| && Elems()[k] == listelm
      modifies this, elm, ring
      ensures Valid() && Elems() == old(Elems())[..k] + [elm] + old(Elems())[k..]
    {
      assert ring[k + 1] == listelm && ring[k + 1].back == ring[k];
      elm.next := listelm;
      elm.back := listelm.back;
      if listelm.back == head {
        head.next := elm;
      } else {
        listelm.back.next := elm;
      }
      listelm.back := elm;
      Enter(k, elm);
    }

    method InsertHead(elm: Link)
      requires Valid() && elm !in ring
      modifies this, elm, ring
      ensures Valid() && Elems() == [elm] + old(Elems())
    {
      assert ring[0].next == ring[1] && ring[|ring| - 1].back == ring[|ring| - 2];
      elm.next := head.next;
      elm.back := head;
      if head.back == head {
        head.back := elm;
      } else {
        head.next.back := elm;
      }
      head.next := elm;
      Enter(0, elm);
    }

    method InsertTail(elm: Link)
      requires Valid() && elm !in ring
      modifies this, elm, ring
      ensures Valid() && Elems() == old(Elems()) + [elm]
    {
      assert ring[0].next == ring[1] && ring[|ring| - 1].back == ring[|ring| - 2];
      elm.next := head;
      elm.back := head.back;
      if head.next == head {
        head.next := elm;
      } else {
        head.back.next := elm;
      }
      head.back := elm;
      Enter(|ring| - 2, elm);
    }

    method Remove(elm: Link, ghost k: nat)
      requires Valid()
      requires k < |Elems()| && Elems()[k] == elm
      modifies this, ring
      ensures Valid() && Elems() == old(Elems())[..k] + old(Elems())[k + 1..]
    {
      assert ring[k + 1] == elm && ring[k + 1].back == ring[k] && ring[k + 1].next == ring[k + 2];
      hide Inner;
      if elm.next == head {
        head.back := elm.back;
      } else {
        elm.next.back := elm.back;
      }
      if elm.back == head {
        head.next := elm.next;
      } else {
        elm.back.next := elm.next;
      }
      Leave(k);
    }

    // CIRCLEQ_FOREACH
    method Foreach() returns (visited: seq<Link>)
      requires Valid()
      ensures visited == Elems()
    {
      visited := [];
      assert ring[0].next == ring[1];
      var e := head.next;
      while e != head
        invariant |visited| <= |Elems()| && visited == Elems()[..|visited|]
        invariant e == ring[|visited| + 1]
        decreases |Elems()| - |visited|
      {
        visited := visited + [e];
        e := e.next;
      }
    }

    // CIRCLEQ_FOREACH_REVERSE
    method ForeachReverse() returns (visited: seq<Link>)
      requires Valid()
      ensures visited == Reversed(Elems())
    {
      visited := [];
      assert ring[|ring| - 1].back == ring[|ring| - 2];
      var e := head.back;
      while e != head
        invariant |visited| <= |Elems()|
        invariant forall i :: 0 <= i < |visited| ==> visited[i] == Elems()[|Elems()| - 1 - i]
        invariant e == ring[|Elems()| - |visited|]
        decreases |Elems()| - |visited|
      {
        visited := visited + [e];
        e := e.back;
      }
    }

    // CIRCLEQ_LOOP_NEXT and CIRCLEQ_LOOP_PREV: neighbours on the circle of elements alone.
    method LoopNext(elm: Link, ghost k: nat) returns (e: Link?)
      requires Valid()
      requires k < |Elems()| && Elems()[k] == elm
      ensures e == Elems()[(k + 1) % |Elems()|]
    {
      assert ring[k + 1] == elm && ring[k + 1].next == ring[k + 2] && ring[0].next == ring[1];
      Wraps(k, |Elems()|);
      e := if elm.next == head then head.next else elm.next;
    }

    method LoopPrev(elm: Link, ghost k: nat) returns (e: Link?)
      requires Valid()
      requires k < |Elems()| && Elems()[k] == elm
      ensures e == Elems()[(k + |Elems()| - 1) % |Elems()|]
    {
      assert ring[k + 1] == elm && ring[k + 1].back == ring[k] && ring[|ring| - 1].back == ring[|ring| - 2];
      Wraps(k, |Elems()|);
      e := if elm.back == head then head.back else elm.back;
    }
  }
}
