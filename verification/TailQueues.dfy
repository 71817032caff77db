/** Tail queues (the TAILQ macros of k5-queue.h).

    A queue head {tqh_first, tqh_last} and an element's entry {tqe_next, tqe_prev} have the same
    layout, and every `tqh_last`/`tqe_prev` is the address of some `next` field, that is, of the first
    word of such a pair.  Both are therefore modelled by `Link`: `back` is the pair whose `next` field
    is addressed, and dereferencing the address is reading `back.next`.  The casts of an address back to
    a head, in TAILQ_LAST and TAILQ_PREV, are the second `back` in `back.back.next`. */
module TailQueues {

  import opened QueueLinks

  class TailQueue {
    const head: Link
    // The head's pair followed by the queued elements, in order.
    ghost var chain: seq<Link>

    /** The queued elements, first to last. */
    ghost function Elems(): (s: seq<Link>)
      reads this
      requires chain != []
    {
      chain[1..]
    }

    ghost predicate Valid()
      reads this, head, chain
    {
      && |chain| > 0 && chain[0] == head && Distinct(chain) && NextLinked(chain, -1, -1) && BackLinked(chain, -1, -1)
      && chain[|chain| - 1].next == null && head.back == chain[|chain| - 1]
    }

    /** An element linked in after position `p` joins the chain. */
    ghost method Enter(p: nat, elm: Link)
      requires p < |chain| && chain[0] == head && Distinct(chain) && elm !in chain
      requires NextLinked(chain, p, p) && BackLinked(chain, p, p)
      requires chain[p].next == elm && elm.back == chain[p]
      requires if p + 1 == |chain| then elm.next == null && head.back == elm
               else elm.next == chain[p + 1] && chain[p + 1].back == elm
                    && chain[|chain| - 1].next == null && head.back == chain[|chain| - 1]
      modifies this`chain
      ensures Valid() && Elems() == old(Elems())[..p] + [elm] + old(Elems())[p..]
    {
      WithIs(chain, p, elm);
      WithDistinct(chain, p, elm);
      WithNext(chain, p, elm);
      WithBack(chain, p, elm);
      hide Distinct, NextLinked, BackLinked, With;
      chain := With(chain, p, elm);
    }

    /** The element after position `p`, linked out, leaves the chain. */
    ghost method Leave(p: nat)
      requires p + 1 < |chain| && chain[0] == head && Distinct(chain)
      requires NextLinked(chain, p, p + 1) && BackLinked(chain, p, p + 1)
      requires if p + 2 == |chain| then chain[p].next == null && head.back == chain[p]
               else chain[p].next == chain[p + 2] && chain[p + 2].back == chain[p]
                    && chain[|chain| - 1].next == null && head.back == chain[|chain| - 1]
      modifies this`chain
      ensures Valid() && Elems() == old(Elems())[..p] + old(Elems())[p + 1..]
    {
      MinusIs(chain, p);
      MinusDistinct(chain, p);
      MinusNext(chain, p);
      MinusBack(chain, p);
      hide Distinct, NextLinked, BackLinked, Minus;
      chain := Minus(chain, p);
    }

    // TAILQ_INIT
    constructor ()
      ensures Valid() && fresh(head) && Elems() == []
    {
      head := new Link();
      new;
      head.next := null;
      head.back := head;
      chain := [head];
    }

    method InsertHead(elm: Link)
      requires Valid() && elm !in chain
      modifies this, elm, chain
      ensures Valid() && Elems() == [elm] + old(Elems())
    {
      elm.next := head.next;
      if elm.next != null {
        assert chain[0].next == chain[1];
        head.next.back := elm;
      } else {
        head.back := elm;
      }
      head.next := elm;
      elm.back := head;
      Enter(0, elm);
    }

    method InsertTail(elm: Link)
      requires Valid() && elm !in chain
      modifies this, elm, chain
      ensures Valid() && Elems() == old(Elems()) + [elm]
    {
      elm.next := null;
      elm.back := head.back;
      head.back.next := elm;
      head.back := elm;
      chain := chain + [elm];
    }

    method InsertAfter(listelm: Link, elm: Link, ghost k: nat)
      requires Valid() && elm !in chain
      requires k < |Elems()| && Elems()[k] == listelm
      modifies this, elm, chain
      ensures Valid() && Elems() == old(Elems())[..k + 1] + [elm] + old(Elems())[k + 1..]
    {
      assert chain[k + 1] == listelm && (k + 2 < |chain| ==> chain[k + 1].next == chain[k + 2]);
      elm.next := listelm.next;
      if elm.next != null {
        elm.next.back := elm;
      } else {
        head.back := elm;
      }
      listelm.next := elm;
      elm.back := listelm;
      Enter(k + 1, elm);
    }

    // TAILQ_INSERT_BEFORE is not given the head: when listelm is first, it reaches the head's pair
    // through listelm's own link.
    method InsertBefore(listelm: Link, elm: Link, ghost k: nat)
      requires Valid() && elm !in chain
      requires k < |Elems()| && Elems()[k] == listelm
      modifies this, elm, chain
      ensures Valid() && Elems() == old(Elems())[..k] + [elm] + old(Elems())[k..]
    {
      assert chain[k + 1] == listelm;
      elm.back := listelm.back;
      elm.next := listelm;
      assert chain[k + 1].back == chain[k];
      listelm.back.next := elm;
      listelm.back := elm;
      Enter(k, elm);
    }

    method Remove(elm: Link, ghost k: nat)
      requires Valid()
      requires k < |Elems()| && Elems()[k] == elm
      modifies this, chain
      ensures Valid() && Elems() == old(Elems())[..k] + old(Elems())[k + 1..]
      ensures elm.next == old(elm.next) && elm.back == old(elm.back)
    {
      assert chain[k + 1] == elm;
      assert chain[k + 1].back == chain[k];
      if elm.next != null {
        assert chain[k + 1].next == chain[k + 2];
        elm.next.back := elm.back;
      } else {
        head.back := elm.back;
      }
      elm.back.next := elm.next;
      Leave(k);
    }

    // TAILQ_CONCAT
    method Concat(other: TailQueue)
      requires Valid() && other.Valid() && this != other
      requires forall i, j :: 0 <= i < |chain| && 0 <= j < |other.chain| ==> chain[i] != other.chain[j]
      modifies this, chain, other, other.chain
      ensures Valid() && other.Valid()
      ensures Elems() == old(Elems()) + old(other.Elems()) && other.Elems() == []
    {
      if other.head.next != null {
        assert other.chain[0].next == other.chain[1];
        head.back.next := other.head.next;
        other.head.next.back := head.back;
        head.back := other.head.back;
        chain := chain + other.chain[1..];
        other.head.next := null;
        other.head.back := other.head;
        other.chain := [other.head];
      }
    }

    method First() returns (e: Link?)
      requires Valid()
      ensures e == if Elems() == [] then null else Elems()[0]
    {
      e := head.next;
    }

    // TAILQ_LAST: the last element's pair, read as if it were a queue head.
    method Last() returns (e: Link?)
      requires Valid()
      ensures e == if Elems() == [] then null else Elems()[|Elems()| - 1]
    {
      e := head.back.back.next;
    }

    // TAILQ_PREV: the predecessor's pair, read as if it were a queue head.
    method Prev(elm: Link, ghost k: nat) returns (e: Link?)
      requires Valid()
      requires k < |Elems()| && Elems()[k] == elm
      ensures e == if k == 0 then null else Elems()[k - 1]
    {
      assert chain[k + 1] == elm;
      e := elm.back.back.next;
    }

    // TAILQ_FOREACH
    method Foreach() returns (visited: seq<Link>)
      requires Valid()
      ensures visited == Elems()
    {
      visited := [];
      var e := head.next;
      while e != null
        invariant |visited| <= |Elems()| && visited == Elems()[..|visited|]
        invariant e == if |visited| < |Elems()| then Elems()[|visited|] else null
        decreases |Elems()| - |visited|
      {
        assert chain[|visited| + 1] == e;
        visited := visited + [e];
        e := e.next;
      }
    }

    // TAILQ_FOREACH_REVERSE
    method ForeachReverse() returns (visited: seq<Link>)
      requires Valid()
      ensures visited == Reversed(Elems())
    {
      visited := [];
      var e := head.back.back.next;
      while e != null
        invariant |visited| <= |Elems()|
        invariant forall i :: 0 <= i < |visited| ==> visited[i] == Elems()[|Elems()| - 1 - i]
        invariant e == if |visited| < |Elems()| then Elems()[|Elems()| - 1 - |visited|] else null
        decreases |Elems()| - |visited|
      {
        assert chain[|Elems()| - |visited|] == e;
        visited := visited + [e];
        e := e.back.back.next;
      }
    }
  }
}
