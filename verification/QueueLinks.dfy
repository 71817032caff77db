/** The pair of pointers that k5-queue.h embeds in a queue head or in an element, and chains of such pairs. */
module QueueLinks {

  class Link {
    var next: Link?
    var back: Link?

    constructor () {
      next, back := null, null;
    }
  }

  function Reversed<T>(s: seq<T>): (r: seq<T>)
    ensures |r| == |s| && forall i :: 0 <= i < |s| ==> r[i] == s[|s| - 1 - i]
  {
    if s == [] then [] else Reversed(s[1..]) + [s[0]]
  }

  // A chain is a head followed by its elements.  Below, `p` and `q` are gaps: positions after which neighbours need not
  // be linked, as when an element is being put in or taken out there.

  ghost predicate Distinct(chain: seq<Link>) {
    forall i, j :: 0 <= i < j < |chain| ==> chain[i] != chain[j]
  }

  ghost predicate NextLinked(chain: seq<Link>, p: int, q: int)
    reads chain
  {
    forall i {:trigger chain[i].next} :: 0 <= i < |chain| - 1 && i != p && i != q ==> chain[i].next == chain[i + 1]
  }

  ghost predicate BackLinked(chain: seq<Link>, p: int, q: int)
    reads chain
  {
    forall i {:trigger chain[i].back} :: 1 <= i < |chain| && i - 1 != p && i - 1 != q ==> chain[i].back == chain[i - 1]
  }

  /** The chain with `x` put in after position `p`. */
  function With<T>(was: seq<T>, p: nat, x: T): (s: seq<T>)
    requires p < |was|
  {
    was[..p + 1] + [x] + was[p + 1..]
  }

  /** The chain without what follows position `p`. */
  function Minus<T>(was: seq<T>, p: nat): (s: seq<T>)
    requires p + 1 < |was|
  {
    was[..p + 1] + was[p + 2..]
  }

  lemma WithIs<T>(was: seq<T>, p: nat, x: T)
    requires p < |was|
    ensures var s := With(was, p, x);
            && |s| == |was| + 1 && s[0] == was[0]
            && s[|s| - 1] == (if p + 1 == |was| then x else was[|was| - 1])
            && s[1..] == was[1..][..p] + [x] + was[1..][p..]
  {
    var rest, joined := With(was, p, x)[1..], was[1..][..p] + [x] + was[1..][p..];
    assert |rest| == |joined|;
    assert forall i :: 0 <= i < |rest| ==> rest[i] == joined[i];
  }

  lemma MinusIs<T>(was: seq<T>, p: nat)
    requires p + 1 < |was|
    ensures var s := Minus(was, p);
            && |s| == |was| - 1 && s[0] == was[0]
            && s[|s| - 1] == (if p + 2 == |was| then was[p] else was[|was| - 1])
            && s[1..] == was[1..][..p] + was[1..][p + 1..]
  {
    var rest, joined := Minus(was, p)[1..], was[1..][..p] + was[1..][p + 1..];
    assert |rest| == |joined|;
    assert forall i :: 0 <= i < |rest| ==> rest[i] == joined[i];
  }

  lemma WithAt<T>(was: seq<T>, p: nat, x: T, i: nat)
    requires p < |was| && i <= |was|
    ensures With(was, p, x)[i] == if i <= p then was[i] else if i == p + 1 then x else was[i - 1]
  {
  }

  lemma MinusAt<T>(was: seq<T>, p: nat, i: nat)
    requires p + 1 < |was| && i + 1 < |was|
    ensures Minus(was, p)[i] == if i <= p then was[i] else was[i + 1]
  {
  }

  lemma WithDistinct(was: seq<Link>, p: nat, elm: Link)
    requires Distinct(was) && p < |was| && elm !in was
    ensures Distinct(With(was, p, elm))
  {
    var s := With(was, p, elm);
    forall i, j | 0 <= i < j < |s|
      ensures s[i] != s[j]
    {
      hide With;
      WithAt(was, p, elm, i);
      WithAt(was, p, elm, j);
    }
  }

  lemma MinusDistinct(was: seq<Link>, p: nat)
    requires Distinct(was) && p + 1 < |was|
    ensures Distinct(Minus(was, p))
  {
    var s := Minus(was, p);
    forall i, j | 0 <= i < j < |s|
      ensures s[i] != s[j]
    {
      hide Minus;
      MinusAt(was, p, i);
      MinusAt(was, p, j);
    }
  }

  /** An element linked into the gap after `p` closes it, forwards ... */
  lemma WithNext(was: seq<Link>, p: nat, elm: Link)
    requires NextLinked(was, p, p) && p < |was| && was[p].next == elm
    requires p + 1 < |was| ==> elm.next == was[p + 1]
    ensures NextLinked(With(was, p, elm), -1, -1)
  {
    var s := With(was, p, elm);
    forall i | 0 <= i < |s| - 1
      ensures s[i].next == s[i + 1]
    {
      hide With;
      WithAt(was, p, elm, i);
      WithAt(was, p, elm, i + 1);
      assert i < p ==> was[i].next == was[i + 1];
      assert i > p + 1 ==> was[i - 1].next == was[i];
    }
  }

  /** ... and backwards. */
  lemma WithBack(was: seq<Link>, p: nat, elm: Link)
    requires BackLinked(was, p, p) && p < |was| && elm.back == was[p]
    requires p + 1 < |was| ==> was[p + 1].back == elm
    ensures BackLinked(With(was, p, elm), -1, -1)
  {
    var s := With(was, p, elm);
    forall i | 1 <= i < |s|
      ensures s[i].back == s[i - 1]
    {
      hide With;
      WithAt(was, p, elm, i);
      WithAt(was, p, elm, i - 1);
      assert i <= p ==> was[i].back == was[i - 1];
      assert i > p + 2 ==> was[i - 1].back == was[i - 2];
    }
  }

  /** Taking out what follows `p` closes the two gaps beside it, once its neighbours are linked, forwards ... */
  lemma MinusNext(was: seq<Link>, p: nat)
    requires NextLinked(was, p, p + 1) && p + 1 < |was|
    requires p + 2 < |was| ==> was[p].next == was[p + 2]
    ensures NextLinked(Minus(was, p), -1, -1)
  {
    var s := Minus(was, p);
    forall i | 0 <= i < |s| - 1
      ensures s[i].next == s[i + 1]
    {
      hide Minus;
      MinusAt(was, p, i);
      MinusAt(was, p, i + 1);
      assert i < p ==> was[i].next == was[i + 1];
      assert i > p ==> was[i + 1].next == was[i + 2];
    }
  }

  /** ... and backwards. */
  lemma MinusBack(was: seq<Link>, p: nat)
    requires BackLinked(was, p, p + 1) && p + 1 < |was|
    requires p + 2 < |was| ==> was[p + 2].back == was[p]
    ensures BackLinked(Minus(was, p), -1, -1)
  {
    var s := Minus(was, p);
    forall i | 1 <= i < |s|
      ensures s[i].back == s[i - 1]
    {
      hide Minus;
      MinusAt(was, p, i);
      MinusAt(was, p, i - 1);
      assert i <= p ==> was[i].back == was[i - 1];
      assert i > p + 1 ==> was[i + 1].back == was[i];
    }
  }
}
