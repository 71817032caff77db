/** The order in which systems prepare their reply pa-data: sort_pa_order (kdc_preauth.c), an in-place
    partition at two levels. */
module PaOrder {
  import opened KdcTypes
  import opened PreauthTypes

  /** The indices in `s` that are marked, in order. */
  function Keep(s: seq<int>, marked: seq<bool>): (r: seq<int>)
    ensures |r| <= |s|
  {
    if s == [] then []
    else
      var n := |s| - 1;
      Keep(s[..n], marked) + if 0 <= s[n] < |marked| && marked[s[n]] then [s[n]] else []
  }

  predicate Marked(i: int, marked: seq<bool>) {
    0 <= i < |marked| && marked[i]
  }

  lemma {:induction false} KeepConcat(a: seq<int>, b: seq<int>, marked: seq<bool>)
    ensures Keep(a + b, marked) == Keep(a, marked) + Keep(b, marked)
  {
    if b == [] {
      assert a + b == a;
    } else {
      var n := |b| - 1;
      assert (a + b)[..|a + b| - 1] == a + b[..n];
      KeepConcat(a, b[..n], marked);
    }
  }

  lemma {:induction false} KeepNone(s: seq<int>, marked: seq<bool>)
    requires forall k :: 0 <= k < |s| ==> !Marked(s[k], marked)
    ensures Keep(s, marked) == []
  {
    if s != [] {
      KeepNone(s[..|s| - 1], marked);
    }
  }

  lemma {:induction false} KeepAll(s: seq<int>, marked: seq<bool>)
    requires forall k :: 0 <= k < |s| ==> Marked(s[k], marked)
    ensures Keep(s, marked) == s
  {
    if s != [] {
      KeepAll(s[..|s| - 1], marked);
    }
  }

  lemma {:induction false} KeepMembers(s: seq<int>, marked: seq<bool>)
    ensures forall x :: x in Keep(s, marked) <==> x in s && Marked(x, marked)
  {
    if s != [] {
      var n := |s| - 1;
      KeepMembers(s[..n], marked);
      assert forall x :: x in s <==> x in s[..n] || x == s[n];
    }
  }

  /** The marked indices come first. */
  ghost predicate Front(s: seq<int>, marked: seq<bool>) {
    var c := |Keep(s, marked)|;
    s[..c] == Keep(s, marked) && forall k :: c <= k < |s| ==> !Marked(s[k], marked)
  }

  /** If at each position below `n` the index is marked or nothing marked follows, the marked ones come first. */
  lemma FrontFromPrefix(s: seq<int>, marked: seq<bool>, n: nat)
    requires n <= |s| && (forall k :: 0 <= k < n ==> Marked(s[k], marked))
    requires forall k :: n <= k < |s| ==> !Marked(s[k], marked)
    ensures Front(s, marked) && |Keep(s, marked)| == n
  {
    assert s == s[..n] + s[n..];
    KeepConcat(s[..n], s[n..], marked);
    KeepAll(s[..n], marked);
    KeepNone(s[n..], marked);
  }

  lemma KeepAround(a: seq<int>, m: seq<int>, b: seq<int>, marked: seq<bool>)
    ensures Keep(a + m + b, marked) == Keep(a, marked) + Keep(m, marked) + Keep(b, marked)
  {
    hide Keep;
    KeepConcat(a + m, b, marked);
    KeepConcat(a, m, marked);
  }

  lemma KeepLast(m: seq<int>, x: int, marked: seq<bool>)
    requires Marked(x, marked) && forall k :: 0 <= k < |m| ==> !Marked(m[k], marked)
    ensures Keep(m + [x], marked) == [x] && Keep([x] + m, marked) == [x]
  {
    KeepConcat(m, [x], marked);
    KeepConcat([x], m, marked);
    KeepNone(m, marked);
    KeepAll([x], marked);
    hide Keep;
    assert [] + [x] == [x] && [x] + [] == [x];
  }

  /** Swapping an unmarked index with the next marked one keeps the marked ones in order. */
  lemma SwapKeeps(s: seq<int>, i: nat, j: nat, marked: seq<bool>)
    requires i < j < |s| && Marked(s[j], marked)
    requires forall k :: i <= k < j ==> !Marked(s[k], marked)
    ensures Keep(s[i := s[j]][j := s[i]], marked) == Keep(s, marked)
  {
    hide Keep;
    var a, m, b := s[..i], s[i..j], s[j + 1..];
    var m' := s[i + 1..j] + [s[i]];
    assert s == a + (m + [s[j]]) + b;
    assert s[i := s[j]][j := s[i]] == a + ([s[j]] + m') + b;
    KeepAround(a, m + [s[j]], b, marked);
    KeepAround(a, [s[j]] + m', b, marked);
    KeepLast(m, s[j], marked);
    KeepLast(m', s[j], marked);
  }

  lemma SwapPermutes(s: seq<int>, i: nat, j: nat)
    requires i < j < |s|
    ensures multiset(s[i := s[j]][j := s[i]]) == multiset(s)
  {
  }

  /** `t` is a rearrangement of `s` that keeps the marked ones in order. */
  ghost predicate Rearranged(s: seq<int>, t: seq<int>, marked: seq<bool>) {
    |t| == |s| && multiset(t) == multiset(s) && Keep(t, marked) == Keep(s, marked)
  }

  lemma SwapRearranges(was: seq<int>, s: seq<int>, i: nat, j: nat, marked: seq<bool>)
    requires Rearranged(was, s, marked) && i < j < |s| && Marked(s[j], marked)
    requires forall k :: i <= k < j ==> !Marked(s[k], marked)
    ensures Rearranged(was, s[i := s[j]][j := s[i]], marked)
  {
    SwapKeeps(s, i, j, marked);
    SwapPermutes(s, i, j);
  }

  method Swap(order: array<int>, n: nat, i: nat, j: nat)
    requires i < j < n <= order.Length
    modifies order
    ensures order[..n] == old(order[..n])[i := old(order[j])][j := old(order[i])]
    ensures order[i] == old(order[j]) && order[j] == old(order[i])
    ensures forall k :: 0 <= k < order.Length && k != i && k != j ==> order[k] == old(order[k])
  {
    order[i], order[j] := order[j], order[i];
  }

  /** The first marked entry after `i`, or `n`. */
  method NextMarked(order: array<int>, i: nat, n: nat, marked: seq<bool>) returns (j: nat)
    requires i < n <= order.Length && !Marked(order[i], marked)
    ensures i < j <= n && (forall k :: i <= k < j ==> !Marked(order[k], marked))
    ensures j < n ==> Marked(order[j], marked)
  {
    j := i + 1;
    while j < n && !Marked(order[j], marked)
      invariant i < j <= n
      invariant forall k :: i <= k < j ==> !Marked(order[k], marked)
    {
      j := j + 1;
    }
  }

  // The reordering loop that sort_pa_order runs twice: bring the marked of the first n entries to the front.
  method BringForward(order: array<int>, n: nat, marked: seq<bool>)
    requires n <= order.Length
    modifies order
    ensures order[n..] == old(order[n..])
    ensures Rearranged(old(order[..n]), order[..n], marked)
    ensures Front(order[..n], marked)
  {
    ghost var was, c := order[..n], 0;
    Unswept(was, marked);
    hide Keep, Front, Marked, Rearranged, Swept;
    for i := 0 to n
      invariant order[n..] == old(order[n..])
      invariant Rearranged(was, order[..n], marked) && Swept(order[..n], marked, i, c)
    {
      c := SweepAt(order, n, i, marked, was, c);
    }
    SweepDone(order[..n], marked, c);
  }

  // The body of the loop: an unmarked entry is swapped with the next marked one, if there is one.
  method SweepAt(order: array<int>, n: nat, i: nat, marked: seq<bool>, ghost was: seq<int>, ghost c: nat)
    returns (ghost c': nat)
    requires i < n <= order.Length && Rearranged(was, order[..n], marked) && Swept(order[..n], marked, i, c)
    modifies order
    ensures order[n..] == old(order[n..])
    ensures Rearranged(was, order[..n], marked) && Swept(order[..n], marked, i + 1, c')
  {
    hide Keep, Marked, Rearranged, Swept;
    ghost var s := order[..n];
    c' := c;
    if !Marked(order[i], marked) {
      var j := NextMarked(order, i, n, marked);
      if j < n {
        SwapRearranges(was, s, i, j, marked);
        SweepSwap(s, marked, i, c, j);
        ghost var rest := order[n..];
        Swap(order, n, i, j);
        assert order[n..] == rest;
        c' := i + 1;
      } else {
        SweepOver(s, marked, i, c);
      }
    } else {
      SweepMarked(s, marked, i, c);
      c' := i + 1;
    }
  }

  /** After the first `i` positions: the first `c` are marked and, if there are fewer, nothing after them is. */
  ghost predicate Swept(s: seq<int>, marked: seq<bool>, i: nat, c: nat) {
    && c <= i <= |s| && (forall k :: 0 <= k < c ==> Marked(s[k], marked))
    && (c < i ==> forall k :: c <= k < |s| ==> !Marked(s[k], marked))
  }

  lemma Unswept(s: seq<int>, marked: seq<bool>)
    ensures Swept(s, marked, 0, 0) && Rearranged(s, s, marked)
  {
  }

  lemma SweepMarked(s: seq<int>, marked: seq<bool>, i: nat, c: nat)
    requires Swept(s, marked, i, c) && i < |s| && Marked(s[i], marked)
    ensures Swept(s, marked, i + 1, i + 1)
  {
  }

  lemma SweepSwap(s: seq<int>, marked: seq<bool>, i: nat, c: nat, j: nat)
    requires Swept(s, marked, i, c) && i < j < |s| && Marked(s[j], marked)
    ensures Swept(s[i := s[j]][j := s[i]], marked, i + 1, i + 1)
  {
  }

  lemma SweepOver(s: seq<int>, marked: seq<bool>, i: nat, c: nat)
    requires Swept(s, marked, i, c) && i < |s| && forall k :: i <= k < |s| ==> !Marked(s[k], marked)
    ensures Swept(s, marked, i + 1, c)
  {
  }

  lemma SweepDone(s: seq<int>, marked: seq<bool>, c: nat)
    requires Swept(s, marked, |s|, c)
    ensures Front(s, marked)
  {
    FrontFromPrefix(s, marked, c);
  }

  /** The indices of the systems with a return function, in table order. */
  function Repliers(systems: seq<PaSystem>): (r: seq<int>)
    ensures forall k :: 0 <= k < |r| ==> 0 <= r[k] < |systems| && systems[r[k]].hasReturn
  {
    if systems == [] then []
    else
      var n := |systems| - 1;
      Repliers(systems[..n]) + if systems[n].hasReturn then [n] else []
  }

  function KeyReplacers(systems: seq<PaSystem>): (marked: seq<bool>) {
    seq(|systems|, i requires 0 <= i < |systems| => PaReplacesKey in systems[i].flags)
  }

  function SentByClient(systems: seq<PaSystem>, padata: seq<PaData>): (marked: seq<bool>) {
    seq(|systems|, i requires 0 <= i < |systems| => Includes(padata, systems[i].paType))
  }

  /** `s` lists every system with a return function once: first the key replacers whose type the client sent, in
      table order, then the other key replacers, then the systems that do not replace the key. */
  ghost predicate Sorted(s: seq<int>, systems: seq<PaSystem>, padata: Option<seq<PaData>>) {
    var repliers, marks := Repliers(systems), KeyReplacers(systems);
    var replacers := Keep(repliers, marks);
    var c := |replacers|;
    && |s| == |repliers| && c <= |s|
    && multiset(s) == multiset(repliers)
    && multiset(s[..c]) == multiset(replacers)
    && (forall k :: c <= k < |s| ==> !Marked(s[k], marks))
    && (padata.None? ==> s[..c] == replacers)
    && (padata.Some? ==>
          var sent := SentByClient(systems, padata.value);
          Keep(s[..c], sent) == Keep(replacers, sent) && Front(s[..c], sent))
  }

  lemma {:induction false} SameMembers(a: seq<int>, b: seq<int>)
    requires multiset(a) == multiset(b)
    ensures |a| == |b| && forall x :: x in a <==> x in b
  {
    assert |multiset(a)| == |a| && |multiset(b)| == |b|;
    assert forall x :: x in a <==> x in multiset(a);
  }

  lemma {:induction false} RepliersHas(systems: seq<PaSystem>, i: nat)
    requires i < |systems| && systems[i].hasReturn
    ensures i in Repliers(systems)
  {
    var n := |systems| - 1;
    if i < n {
      RepliersHas(systems[..n], i);
    }
  }

  predicate Ascending(s: seq<int>) {
    forall p, q :: 0 <= p < q < |s| ==> s[p] < s[q]
  }

  lemma {:induction false} RepliersAscend(systems: seq<PaSystem>)
    ensures Ascending(Repliers(systems))
  {
    if systems != [] {
      RepliersAscend(systems[..|systems| - 1]);
    }
  }

  lemma {:induction false} KeepAscends(s: seq<int>, marked: seq<bool>)
    requires Ascending(s)
    ensures Ascending(Keep(s, marked))
  {
    if s != [] {
      var n := |s| - 1;
      KeepAscends(s[..n], marked);
      KeepMembers(s[..n], marked);
      hide Keep;
      var k := Keep(s[..n], marked);
      forall p | 0 <= p < |k|
        ensures k[p] < s[n]
      {
        assert k[p] in k;
        var i :| 0 <= i < n && s[..n][i] == k[p];
        assert s[i] == k[p];
      }
    }
  }

  lemma {:induction false} AscendingOnce(s: seq<int>, x: int)
    requires Ascending(s)
    ensures multiset(s)[x] <= 1
  {
    if s != [] {
      var n := |s| - 1;
      assert s == s[..n] + [s[n]];
      AscendingOnce(s[..n], x);
      assert x == s[n] ==> x !in s[..n];
    }
  }

  lemma CountedTwice(b: seq<int>, p: nat, q: nat)
    requires p < q < |b| && b[p] == b[q]
    ensures multiset(b)[b[p]] >= 2
  {
    assert b == b[..p] + [b[p]] + b[p + 1..q] + [b[q]] + b[q + 1..];
  }

  lemma OnceEach(a: seq<int>, b: seq<int>, p: nat, q: nat)
    requires Ascending(a) && multiset(a) == multiset(b) && p < q < |b|
    ensures b[p] != b[q]
  {
    if b[p] == b[q] {
      AscendingOnce(a, b[p]);
      CountedTwice(b, p, q);
    }
  }

  /** The client sent an element of the system's type. */
  predicate ClientSent(system: PaSystem, padata: seq<PaData>) {
    exists k :: 0 <= k < |padata| && padata[k].paType == system.paType
  }

  /** The rank of a system: key replacers first, and of these the ones whose type the client sent. */
  function Rank(system: PaSystem, padata: Option<seq<PaData>>): (r: int) {
    if PaReplacesKey !in system.flags then 2
    else if padata.None? || ClientSent(system, padata.value) then 0
    else 1
  }

  /** A sorted order lists every system that has a return function once, by rank, and those of the first rank in
      the order of the table. */
  lemma {:induction false} SortedMeans(s: seq<int>, systems: seq<PaSystem>, padata: Option<seq<PaData>>)
    requires Sorted(s, systems, padata)
    ensures forall i :: i in s <==> 0 <= i < |systems| && systems[i].hasReturn
    ensures forall p, q :: 0 <= p < q < |s| ==>
              && s[p] != s[q] && 0 <= s[p] < |systems| && 0 <= s[q] < |systems|
              && Rank(systems[s[p]], padata) <= Rank(systems[s[q]], padata)
              && (Rank(systems[s[q]], padata) == 0 ==> s[p] < s[q])
  {
    var repliers := Repliers(systems);
    SameMembers(s, repliers);
    RepliersAscend(systems);
    forall i | 0 <= i < |systems| && systems[i].hasReturn
      ensures i in s
    {
      RepliersHas(systems, i);
    }
    assert forall i :: i in s ==> i in repliers;
    hide Repliers;
    forall p: nat, q: nat | p < q < |s|
      ensures && s[p] != s[q] && 0 <= s[p] < |systems| && 0 <= s[q] < |systems|
              && Rank(systems[s[p]], padata) <= Rank(systems[s[q]], padata)
              && (Rank(systems[s[q]], padata) == 0 ==> s[p] < s[q])
    {
      OnceEach(repliers, s, p, q);
      assert s[p] in s && s[q] in s;
      RankedPair(s, systems, padata, p, q);
    }
  }

  lemma RankedPair(s: seq<int>, systems: seq<PaSystem>, padata: Option<seq<PaData>>, p: nat, q: nat)
    requires Sorted(s, systems, padata) && p < q < |s| && 0 <= s[p] < |systems| && 0 <= s[q] < |systems|
    requires Ascending(Repliers(systems))
    ensures Rank(systems[s[p]], padata) <= Rank(systems[s[q]], padata)
    ensures Rank(systems[s[q]], padata) == 0 ==> s[p] < s[q]
  {
    var marks := KeyReplacers(systems);
    var replacers := Keep(Repliers(systems), marks);
    var front := s[..|replacers|];
    KeepAscends(Repliers(systems), marks);
    ReplacersLead(s, systems, padata, p);
    ReplacersLead(s, systems, padata, q);
    hide Keep, Repliers, Marked, KeyReplacers, Front, Ascending;
    if q < |replacers| {
      assert front[p] == s[p] && front[q] == s[q];
      if padata.Some? {
        var sent := SentByClient(systems, padata.value);
        SentIs(systems, padata.value, s[p]);
        SentIs(systems, padata.value, s[q]);
        hide SentByClient, ClientSent;
        if Marked(s[q], sent) {
          MarkedPair(front, replacers, sent, p, q);
        }
      } else {
        AscendingPair(replacers, p, q);
      }
    }
  }

  lemma AscendingPair(s: seq<int>, p: nat, q: nat)
    requires Ascending(s) && p < q < |s|
    ensures s[p] < s[q]
  {
  }

  lemma SentIs(systems: seq<PaSystem>, padata: seq<PaData>, i: int)
    requires 0 <= i < |systems|
    ensures Marked(i, SentByClient(systems, padata)) <==> ClientSent(systems[i], padata)
  {
  }

  lemma ReplacersLead(s: seq<int>, systems: seq<PaSystem>, padata: Option<seq<PaData>>, p: nat)
    requires Sorted(s, systems, padata) && p < |s| && 0 <= s[p] < |systems|
    ensures PaReplacesKey in systems[s[p]].flags <==> p < |Keep(Repliers(systems), KeyReplacers(systems))|
  {
    var repliers, marks := Repliers(systems), KeyReplacers(systems);
    var replacers := Keep(repliers, marks);
    var c := |replacers|;
    KeepMembers(repliers, marks);
    SameMembers(s[..c], replacers);
    hide Keep, Repliers;
    if p < c {
      assert s[..c][p] in s[..c];
      assert Marked(s[p], marks);
    } else {
      assert !Marked(s[p], marks);
    }
  }

  lemma MarkedPair(front: seq<int>, was: seq<int>, marked: seq<bool>, p: nat, q: nat)
    requires Ascending(was) && Keep(front, marked) == Keep(was, marked) && Front(front, marked)
    requires p < q < |front| && Marked(front[q], marked)
    ensures Marked(front[p], marked) && front[p] < front[q]
  {
    KeepAscends(was, marked);
    KeepMembers(front, marked);
    hide Keep;
    var d := |Keep(front, marked)|;
    assert q < d && front[..d][p] == front[p] && front[..d][q] == front[q];
    assert front[..d][p] in Keep(front, marked);
  }

  /** The first pass alone sorts when the client sent no pa-data. */
  lemma SortedOnce(first: seq<int>, systems: seq<PaSystem>)
    requires multiset(first) == multiset(Repliers(systems)) && Front(first, KeyReplacers(systems))
    requires Keep(first, KeyReplacers(systems)) == Keep(Repliers(systems), KeyReplacers(systems))
    ensures Sorted(first, systems, None)
  {
    hide Repliers, Keep;
    SameMembers(first, Repliers(systems));
  }

  /** Otherwise a second pass over the key replacers completes it. */
  lemma SortedTwice(first: seq<int>, front: seq<int>, systems: seq<PaSystem>, padata: seq<PaData>)
    requires Sorted(first, systems, None)
    requires var c := |Keep(Repliers(systems), KeyReplacers(systems))|;
             var sent := SentByClient(systems, padata);
             Front(front, sent) && Rearranged(first[..c], front, sent)
    ensures var c := |Keep(Repliers(systems), KeyReplacers(systems))|;
            Sorted(front + first[c..], systems, Some(padata))
  {
    hide Repliers, Keep, Front;
    var c := |Keep(Repliers(systems), KeyReplacers(systems))|;
    SameMembers(front, first[..c]);
    var s := front + first[c..];
    assert first == first[..c] + first[c..] && s[..c] == front;
    assert multiset(s) == multiset(front) + multiset(first[c..]);
    assert forall k :: c <= k < |s| ==> s[k] == first[k];
  }

  lemma TailKept(was: seq<int>, now: seq<int>, c: nat, n: nat)
    requires c <= n < |was| == |now| && was[c..] == now[c..]
    ensures now[n] == was[n] && now[..n] == now[..c] + was[..n][c..]
  {
    assert forall k :: c <= k < |was| ==> now[k] == now[c..][k - c] == was[k];
  }

  // sort_pa_order
  method SortPaOrder(systems: seq<PaSystem>, padata: Option<seq<PaData>>, order: array<int>)
    requires IsTable(systems) && order.Length == |Repliers(systems)| + 1
    modifies order
    ensures order[|Repliers(systems)|] == -1
    ensures Sorted(order[..|Repliers(systems)|], systems, padata)
  {
    hide Repliers, Keep, Front, Sorted;
    var n := DefaultOrder(systems, order);
    BringForward(order, n, KeyReplacers(systems));
    assert order[n] == order[n..][0];
    SortedOnce(order[..n], systems);
    if padata.Some? {
      var c := CountLeading(systems, order, n);
      ghost var was := order[..];
      assert was[..n] == order[..n] && was[..n][..c] == order[..c] && was[c..] == order[c..];
      BringForward(order, c, SentByClient(systems, padata.value));
      SortedTwice(was[..n], order[..c], systems, padata.value);
      TailKept(was, order[..], c, n);
    }
  }

  method DefaultOrder(systems: seq<PaSystem>, order: array<int>) returns (i: nat)
    requires order.Length == |Repliers(systems)| + 1
    modifies order
    ensures i == |Repliers(systems)| && order[..i] == Repliers(systems) && order[i] == -1
  {
    i := 0;
    for j := 0 to |systems|
      invariant i == |Repliers(systems[..j])| <= |Repliers(systems)| && order[..i] == Repliers(systems[..j])
    {
      assert systems[..j + 1][..j] == systems[..j];
      RepliersGrow(systems, j + 1);
      if systems[j].hasReturn {
        order[i] := j;
        i := i + 1;
      }
    }
    assert systems[..|systems|] == systems;
    order[i] := -1;
  }

  lemma {:induction false} RepliersGrow(systems: seq<PaSystem>, j: nat)
    requires j <= |systems|
    ensures |Repliers(systems[..j])| <= |Repliers(systems)|
  {
    if j < |systems| {
      assert systems[..|systems| - 1][..j] == systems[..j];
      RepliersGrow(systems[..|systems| - 1], j);
    } else {
      assert systems[..j] == systems;
    }
  }

  // The scan for the number of key replacers.  It has no bound of its own: it stops inside the array because
  // the static table has a system that replies without replacing the key.
  /** The marked ones are the key replacers, and there is some system after them. */
  lemma LeadingReplacers(s: seq<int>, systems: seq<PaSystem>)
    requires IsTable(systems) && multiset(s) == multiset(Repliers(systems)) && Front(s, KeyReplacers(systems))
    ensures var c := |Keep(s, KeyReplacers(systems))|;
            && c < |s| && (forall k :: 0 <= k < |s| ==> 0 <= s[k] < |systems|)
            && forall k :: 0 <= k < |s| ==> (PaReplacesKey in systems[s[k]].flags <==> k < c)
  {
    var marks := KeyReplacers(systems);
    var c := |Keep(s, marks)|;
    RepliersHas(systems, 1);
    SameMembers(s, Repliers(systems));
    NotMarked(systems);
    KeepMembers(s, marks);
    hide Keep, Repliers, IsTable;
    assert 1 in s && !Marked(1, marks);
    forall k | 0 <= k < |s|
      ensures 0 <= s[k] < |systems| && (PaReplacesKey in systems[s[k]].flags <==> k < c)
    {
      assert s[k] in s;
      if k < c {
        assert s[..c][k] in Keep(s, marks);
      }
    }
  }

  lemma NotMarked(systems: seq<PaSystem>)
    requires IsTable(systems)
    ensures |systems| > 1 && systems[1].hasReturn && !Marked(1, KeyReplacers(systems))
  {
    assert systems[1] == STATIC_SYSTEMS[1];
  }

  method CountLeading(systems: seq<PaSystem>, order: array<int>, ghost n: nat) returns (i: nat)
    requires IsTable(systems) && n < order.Length
    requires multiset(order[..n]) == multiset(Repliers(systems)) && Front(order[..n], KeyReplacers(systems))
    ensures i == |Keep(order[..n], KeyReplacers(systems))| <= n
  {
    ghost var s := order[..n];
    ghost var c := |Keep(s, KeyReplacers(systems))|;
    LeadingReplacers(s, systems);
    hide Keep, Front, Repliers, KeyReplacers, IsTable;
    i := 0;
    while PaReplacesKey in systems[order[i]].flags
      invariant 0 <= i <= c < n && s == order[..n]
      decreases c - i
    {
      i := i + 1;
    }
  }
}
