/** Doubly and singly linked lists (the LIST and SLIST macros of k5-queue.h).

    A LIST head holds only lh_first; an element's le_prev is the address of the pointer that points to
    it, so as in TailQueues `back` is the pair whose `next` is addressed.  The head's `back` is unused. */
module LinkedLists {
  import opened QueueLinks

  /** `chain` is a null-terminated forward chain of distinct pairs: a head, then its elements. */
  ghost predicate Forward(head: Link, chain: seq<Link>)
    reads head, chain
  {
    && |chain| > 0 && chain[0] == head && Distinct(chain) && NextLinked(chain, -1, -1)
    && chain[|chain| - 1].next == null
  }

  /** An element linked in after position `p` joins the chain. */
  lemma ForwardWith(head: Link, chain: seq<Link>, p: nat, elm: Link)
    requires p < |chain| && chain[0] == head && Distinct(chain) && elm !in chain && NextLinked(chain, p, p)
    requires chain[p].next == elm
    requires if p + 1 == |chain| then elm.next == null else elm.next == chain[p + 1] && chain[|chain| - 1].next == null
    ensures Forward(head, With(chain, p, elm))
    ensures With(chain, p, elm)[1..] == chain[1..][..p] + [elm] + chain[1..][p..]
  {
    hide Distinct, NextLinked, With;
    WithIs(chain, p, elm);
    WithDistinct(chain, p, elm);
    WithNext(chain, p, elm);
  }

  /** The element after position `p`, linked out, leaves the chain. */
  lemma ForwardMinus(head: Link, chain: seq<Link>, p: nat)
    requires p + 1 < |chain| && chain[0] == head && Distinct(chain) && NextLinked(chain, p, p + 1)
    requires if p + 2 == |chain| then chain[p].next == null
             else chain[p].next == chain[p + 2] && chain[|chain| - 1].next == null
    ensures Forward(head, Minus(chain, p))
    ensures Minus(chain, p)[1..] == chain[1..][..p] + chain[1..][p + 1..]
  {
    hide Distinct, NextLinked, Minus;
    MinusIs(chain, p);
    MinusDistinct(chain, p);
    MinusNext(chain, p);
  }

  // LIST_FOREACH, SLIST_FOREACH and STAILQ_FOREACH
  method Traverse(head: Link, ghost chain: seq<Link>) returns (visited: seq<Link>)
    requires Forward(head, chain)
    ensures visited == chain[1..]
  {
    visited := [];
    var e := head.next;
    while e != null
      invariant |visited| < |chain| && visited == chain[1..][..|visited|]
      invariant e == if |visited| + 1 < |chain| then chain[|visited| + 1] else null
      decreases |chain| - |visited|
    {
      assert chain[|visited| + 1] == e;
      visited := visited + [e];
      e := e.next;
    }
  }

  class List {
    const head: Link
    ghost var chain: seq<Link>

    ghost function Elems(): (s: seq<Link>)
      reads this
      requires chain != []
    {
      chain[1..]
    }

    ghost predicate Valid()
      reads this, head, chain
    {
      Forward(head, chain) && BackLinked(chain, -1, -1)
    }

    /** An element linked in after position `p` joins the chain. */
    ghost method Enter(p: nat, elm: Link)
      requires p < |chain| && chain[0] == head && Distinct(chain) && elm !in chain
      requires NextLinked(chain, p, p) && BackLinked(chain, p, p)
      requires chain[p].next == elm && elm.back == chain[p]
      requires if p + 1 == |chain| then elm.next == null
               else elm.next == chain[p + 1] && chain[p + 1].back == elm && chain[|chain| - 1].next == null
      modifies this`chain
      ensures Valid() && Elems() == old(Elems())[..p] + [elm] + old(Elems())[p..]
    {
      ForwardWith(head, chain, p, elm);
      WithBack(chain, p, elm);
      hide Forward, BackLinked, With;
      chain := With(chain, p, elm);
    }

    /** The element after position `p`, linked out, leaves the chain. */
    ghost method Leave(p: nat)
      requires p + 1 < |chain| && chain[0] == head && Distinct(chain)
      requires NextLinked(chain, p, p + 1) && BackLinked(chain, p, p + 1)
      requires if p + 2 == |chain| then chain[p].next == null
               else chain[p].next == chain[p + 2] && chain[p + 2].back == chain[p] && chain[|chain| - 1].next == null
      modifies this`chain
      ensures Valid() && Elems() == old(Elems())[..p] + old(Elems())[p + 1..]
    {
      ForwardMinus(head, chain, p);
      MinusBack(chain, p);
      hide Forward, BackLinked, Minus;
      chain := Minus(chain, p);
    }

    // LIST_INIT
    constructor ()
      ensures Valid() && fresh(head) && Elems() == []
    {
      head := new Link();
      new;
      head.next := null;
      chain := [head];
    }

    method InsertHead(elm: Link)
      requires Valid() && elm !in chain
      modifies this, elm, chain
      ensures Valid() && Elems() == [elm] + old(Elems())
    {
      elm.next := head.next;
      if elm.next != null {
        assert chain[0].next == chain[1];
        head.next.back := elm;
      }
      head.next := elm;
      elm.back := head;
      Enter(0, elm);
    }

    method InsertAfter(listelm: Link, elm: Link, ghost k: nat)
      requires Valid() && elm !in chain
      requires k < |Elems()| && Elems()[k] == listelm
      modifies this, elm, chain
      ensures Valid() && Elems() == old(Elems())[..k + 1] + [elm] + old(Elems())[k + 1..]
    {
      assert chain[k + 1] == listelm && (k + 2 < |chain| ==> chain[k + 1].next == chain[k + 2]);
      elm.next := listelm.next;
      if elm.next != null {
        listelm.next.back := elm;
      }
      listelm.next := elm;
      elm.back := listelm;
      Enter(k + 1, elm);
    }

    method InsertBefore(listelm: Link, elm: Link, ghost k: nat)
      requires Valid() && elm !in chain
      requires k < |Elems()| && Elems()[k] == listelm
      modifies this, elm, chain
      ensures Valid() && Elems() == old(Elems())[..k] + [elm] + old(Elems())[k..]
    {
      assert chain[k + 1] == listelm;
      elm.back := listelm.back;
      elm.next := listelm;
      assert chain[k + 1].back == chain[k];
      listelm.back.next := elm;
      listelm.back := elm;
      Enter(k, elm);
    }

    // LIST_REMOVE is given neither the head nor the predecessor.
    method Remove(elm: Link, ghost k: nat)
      requires Valid()
      requires k < |Elems()| && Elems()[k] == elm
      modifies this, chain
      ensures Valid() && Elems() == old(Elems())[..k] + old(Elems())[k + 1..]
    {
      assert chain[k + 1] == elm;
      assert chain[k + 1].back == chain[k];
      if elm.next != null {
        assert chain[k + 1].next == chain[k + 2];
        elm.next.back := elm.back;
      }
      elm.back.next := elm.next;
      Leave(k);
    }
  }

  class SList {
    const head: Link
    ghost var chain: seq<Link>

    ghost function Elems(): (s: seq<Link>)
      reads this
      requires chain != []
    {
      chain[1..]
    }

    ghost predicate Valid()
      reads this, head, chain
    {
      Forward(head, chain)
    }

    // SLIST_INIT
    constructor ()
      ensures Valid() && fresh(head) && Elems() == []
    {
      head := new Link();
      new;
      head.next := null;
      chain := [head];
    }

    method InsertHead(elm: Link)
      requires Valid() && elm !in chain
      modifies this, elm, chain
      ensures Valid() && Elems() == [elm] + old(Elems())
    {
      elm.next := head.next;
      head.next := elm;
      chain := [head, elm] + chain[1..];
    }

    method InsertAfter(slistelm: Link, elm: Link, ghost k: nat)
      requires Valid() && elm !in chain
      requires k < |Elems()| && Elems()[k] == slistelm
      modifies this, elm, chain
      ensures Valid() && Elems() == old(Elems())[..k + 1] + [elm] + old(Elems())[k + 1..]
    {
      assert chain[k + 1] == slistelm;
      elm.next := slistelm.next;
      slistelm.next := elm;
      ForwardWith(head, chain, k + 1, elm);
      chain := With(chain, k + 1, elm);
    }

    method RemoveHead()
      requires Valid() && Elems() != []
      modifies this, chain
      ensures Valid() && Elems() == old(Elems())[1..]
    {
      assert chain[0].next == chain[1];
      head.next := head.next.next;
      chain := [head] + chain[2..];
    }

    // SLIST_REMOVE walks from the head to the predecessor of elm.
    method Remove(elm: Link, ghost k: nat)
      requires Valid()
      requires k < |Elems()| && Elems()[k] == elm
      modifies this, chain
      ensures Valid() && Elems() == old(Elems())[..k] + old(Elems())[k + 1..]
    {
      assert chain[k + 1] == elm && chain[0].next == chain[1];
      if head.next == elm {
        RemoveHead();
      } else {
        var curelm := head.next;
        ghost var j := 1;
        while curelm.next != elm
          invariant 1 <= j <= k && curelm == chain[j]
          decreases k - j
        {
          assert chain[j].next == chain[j + 1];
          curelm := curelm.next;
          j := j + 1;
        }
        assert chain[j].next == chain[j + 1];
        curelm.next := curelm.next.next;
        ForwardMinus(head, chain, k);
        chain := Minus(chain, k);
      }
    }

    // SLIST_REMOVE_AFTER
    method RemoveAfter(slistelm: Link, ghost k: nat)
      requires Valid()
      requires k + 1 < |Elems()| && Elems()[k] == slistelm
      modifies this, chain
      ensures Valid() && Elems() == old(Elems())[..k + 1] + old(Elems())[k + 2..]
    {
      assert chain[k + 1] == slistelm && chain[k + 1].next == chain[k + 2];
      slistelm.next := slistelm.next.next;
      ForwardMinus(head, chain, k + 1);
      chain := Minus(chain, k + 1);
    }
  }
}
