/** Singly linked tail queues (the STAILQ macros of k5-queue.h, and the SIMPLEQ macros, which are the
    same under other names).  The head's pair is {stqh_first, stqh_last}: its `back` is the pair whose
    `next` field is the one to be filled by the next insertion at the tail. */
module SimpleQueues {
  import opened QueueLinks
  import opened LinkedLists

  class SimpleQueue {
    const head: Link
    ghost var chain: seq<Link>

    ghost function Elems(): (s: seq<Link>)
      reads this
      requires chain != []
    {
      chain[1..]
    }

    ghost predicate Valid()
      reads this, head, chain
    {
      Forward(head, chain) && head.back == chain[|chain| - 1]
    }

    // STAILQ_INIT
    constructor ()
      ensures Valid() && fresh(head) && Elems() == []
    {
      head := new Link();
      new;
      head.next := null;
      head.back := head;
      chain := [head];
    }

    method InsertHead(elm: Link)
      requires Valid() && elm !in chain
      modifies this, elm, chain
      ensures Valid() && Elems() == [elm] + old(Elems())
    {
      elm.next := head.next;
      if elm.next == null {
        head.back := elm;
      }
      head.next := elm;
      chain := [head, elm] + chain[1..];
    }

    method InsertTail(elm: Link)
      requires Valid() && elm !in chain
      modifies this, elm, chain
      ensures Valid() && Elems() == old(Elems()) + [elm]
    {
      elm.next := null;
      head.back.next := elm;
      head.back := elm;
      chain := chain + [elm];
    }

    method InsertAfter(listelm: Link, elm: Link, ghost k: nat)
      requires Valid() && elm !in chain
      requires k < |Elems()| && Elems()[k] == listelm
      modifies this, elm, chain
      ensures Valid() && Elems() == old(Elems())[..k + 1] + [elm] + old(Elems())[k + 1..]
    {
      assert chain[k + 1] == listelm;
      elm.next := listelm.next;
      if elm.next == null {
        head.back := elm;
      }
      listelm.next := elm;
      ForwardWith(head, chain, k + 1, elm);
      chain := With(chain, k + 1, elm);
    }

    method RemoveHead()
      requires Valid() && Elems() != []
      modifies this, chain
      ensures Valid() && Elems() == old(Elems())[1..]
    {
      assert chain[0].next == chain[1];
      assert |chain| > 2 ==> chain[1].next == chain[2];
      head.next := head.next.next;
      if head.next == null {
        head.back := head;
      }
      chain := [head] + chain[2..];
    }

    /** The element after position `p`, linked out, leaves the chain. */
    ghost method Leave(p: nat)
      requires p + 1 < |chain| && chain[0] == head && Distinct(chain) && NextLinked(chain, p, p + 1)
      requires if p + 2 == |chain| then chain[p].next == null && head.back == chain[p]
               else chain[p].next == chain[p + 2] && chain[|chain| - 1].next == null && head.back == chain[|chain| - 1]
      modifies this`chain
      ensures Valid() && Elems() == old(Elems())[..p] + old(Elems())[p + 1..]
    {
      ForwardMinus(head, chain, p);
      MinusIs(chain, p);
      hide Forward, Minus;
      chain := Minus(chain, p);
    }

    method Remove(elm: Link, ghost k: nat)
      requires Valid()
      requires k < |Elems()| && Elems()[k] == elm
      modifies this, chain
      ensures Valid() && Elems() == old(Elems())[..k] + old(Elems())[k + 1..]
    {
      assert chain[k + 1] == elm && chain[0].next == chain[1];
      if head.next == elm {
        RemoveHead();
      } else {
        var curelm := head.next;
        ghost var j := 1;
        while curelm.next != elm
          invariant 1 <= j <= k && curelm == chain[j]
          decreases k - j
        {
          assert chain[j].next == chain[j + 1];
          curelm := curelm.next;
          j := j + 1;
        }
        assert chain[j].next == chain[j + 1];
        curelm.next := curelm.next.next;
        if curelm.next == null {
          head.back := curelm;
        }
        Leave(k);
      }
    }

    // STAILQ_CONCAT
    method Concat(other: SimpleQueue)
      requires Valid() && other.Valid() && this != other
      requires forall i, j :: 0 <= i < |chain| && 0 <= j < |other.chain| ==> chain[i] != other.chain[j]
      modifies this, chain, other, other.chain
      ensures Valid() && other.Valid()
      ensures Elems() == old(Elems()) + old(other.Elems()) && other.Elems() == []
    {
      if other.head.next != null {
        assert other.chain[0].next == other.chain[1];
        head.back.next := other.head.next;
        head.back := other.head.back;
        chain := chain + other.chain[1..];
        other.head.next := null;
        other.head.back := other.head;
        other.chain := [other.head];
      }
    }

    // STAILQ_LAST
    method Last() returns (e: Link?)
      requires Valid()
      ensures e == if Elems() == [] then null else Elems()[|Elems()| - 1]
    {
      e := if head.next == null then null else head.back;
    }
  }
}
