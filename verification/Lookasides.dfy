/** The lookaside cache of recent requests and replies (replay.c): a hash table of buckets and a queue of the same
    entries in order of insertion, kept together.  The hash function is a parameter. */
module Lookasides {
  import opened KdcTypes

  type Packet = string

  /** An entry made for a request still being processed has an empty reply. */
  datatype Entry = Entry(timein: int, req: Packet, reply: Packet)

  const LOOKASIDE_HASH_SIZE := 16384
  const LOOKASIDE_MAX_SIZE := 10_485_760 // 10 * 1024 * 1024
  const STALE_TIME := 120
  const ENTRY_OVERHEAD := 72 // the size of an entry record where pointers have eight bytes

  function EntrySize(req: Packet, reply: Packet): (n: nat) {
    ENTRY_OVERHEAD + |req| + |reply|
  }

  predicate Stale(e: Entry, now: int) {
    var age := e.timein - now;
    age >= STALE_TIME || -age >= STALE_TIME
  }

  function TotalSize(q: seq<Entry>): (n: nat) {
    if q == [] then 0 else EntrySize(q[0].req, q[0].reply) + TotalSize(q[1..])
  }

  function Find(q: seq<Entry>, req: Packet): (r: Option<Entry>)
    ensures r.Some? ==> r.value in q && r.value.req == req
    ensures r.None? ==> forall e :: e in q ==> e.req != req
  {
    if q == [] then None else if q[0].req == req then Some(q[0]) else Find(q[1..], req)
  }

  function Removed(q: seq<Entry>, req: Packet): (r: seq<Entry>) {
    if q == [] then [] else (if q[0].req == req then [] else [q[0]]) + Removed(q[1..], req)
  }

  predicate MustGo(q: seq<Entry>, now: int, extra: nat)
    requires q != []
  {
    Stale(q[0], now) || TotalSize(q) + extra > LOOKASIDE_MAX_SIZE
  }

  /** What is left after entries are dropped from the front until a fresh one is met and `extra` bytes fit. */
  function Purged(q: seq<Entry>, now: int, extra: nat): (r: seq<Entry>)
    ensures |r| <= |q| && r == q[|q| - |r|..]
    ensures r == [] || !MustGo(r, now, extra)
  {
    if q != [] && MustGo(q, now, extra) then Purged(q[1..], now, extra) else q
  }

  function Inserted(q: seq<Entry>, req: Packet, reply: Packet, now: int): (r: seq<Entry>) {
    Purged(q, now, EntrySize(req, reply)) + [Entry(now, req, reply)]
  }

  ghost predicate Unique(q: seq<Entry>) {
    forall i, j :: 0 <= i < j < |q| ==> q[i].req != q[j].req
  }

  // Facts about the cache as a sequence of entries.

  lemma {:induction false} TotalSizeOfConcat(a: seq<Entry>, b: seq<Entry>)
    ensures TotalSize(a + b) == TotalSize(a) + TotalSize(b)
  {
    if a == [] {
      assert a + b == b;
    } else {
      assert (a + b)[1..] == a[1..] + b;
      TotalSizeOfConcat(a[1..], b);
    }
  }

  lemma {:induction false} RemovedElements(q: seq<Entry>, req: Packet)
    ensures forall e :: e in Removed(q, req) <==> e in q && e.req != req
    ensures Find(q, req).None? ==> Removed(q, req) == q
  {
    if q != [] {
      RemovedElements(q[1..], req);
      assert q == [q[0]] + q[1..];
    }
  }

  lemma UniqueTail(q: seq<Entry>)
    requires q != [] && Unique(q)
    ensures Unique(q[1..])
    ensures forall e :: e in q[1..] ==> e.req != q[0].req
  {
  }

  lemma UniqueCons(e: Entry, q: seq<Entry>)
    requires Unique(q) && forall d :: d in q ==> d.req != e.req
    ensures Unique([e] + q)
  {
  }

  lemma {:induction false} RemovedUnique(q: seq<Entry>, req: Packet)
    requires Unique(q)
    ensures Unique(Removed(q, req))
  {
    if q != [] {
      UniqueTail(q);
      RemovedUnique(q[1..], req);
      RemovedElements(q[1..], req);
      if q[0].req == req {
        assert [] + Removed(q[1..], req) == Removed(q[1..], req);
      } else {
        UniqueCons(q[0], Removed(q[1..], req));
      }
    }
  }

  lemma {:induction false} RemovedSize(q: seq<Entry>, e: Entry)
    requires Unique(q) && e in q
    ensures TotalSize(Removed(q, e.req)) == TotalSize(q) - EntrySize(e.req, e.reply)
  {
    UniqueTail(q);
    if q[0] == e {
      RemovedElements(q[1..], e.req);
      assert [] + q[1..] == q[1..];
    } else {
      assert e in q[1..];
      RemovedSize(q[1..], e);
      var r := Removed(q[1..], e.req);
      assert ([q[0]] + r)[1..] == r;
    }
  }

  lemma {:induction false} FindOfUnique(q: seq<Entry>, e: Entry)
    requires Unique(q) && e in q
    ensures Find(q, e.req) == Some(e)
  {
  }

  lemma RemovedHead(q: seq<Entry>)
    requires q != [] && Unique(q)
    ensures Removed(q, q[0].req) == q[1..]
  {
    RemovedElements(q[1..], q[0].req);
    assert [] + q[1..] == q[1..];
  }

  lemma PurgedIs(q: seq<Entry>, now: int, extra: nat)
    ensures forall e :: e in Purged(q, now, extra) ==> e in q
    ensures Unique(q) ==> Unique(Purged(q, now, extra))
  {
  }

  /** The cache outgrows its limit only when a single entry does. */
  lemma InsertedIsBounded(q: seq<Entry>, req: Packet, reply: Packet, now: int)
    ensures var r := Inserted(q, req, reply, now);
            TotalSize(r) <= LOOKASIDE_MAX_SIZE || r == [Entry(now, req, reply)]
  {
    var p := Purged(q, now, EntrySize(req, reply));
    TotalSizeOfConcat(p, [Entry(now, req, reply)]);
    assert [Entry(now, req, reply)][1..] == [];
  }

  /** The total counts the record, the request and the reply of every entry. */
  lemma {:induction false} SizeOfOne(e: Entry)
    ensures TotalSize([e]) == ENTRY_OVERHEAD + |e.req| + |e.reply|
  {
    assert [e][1..] == [];
  }

  /** After an insertion the oldest entry is less than two minutes old, by a clock that may have been set back or
      forward. */
  lemma {:induction false} OldestIsFresh(q: seq<Entry>, req: Packet, reply: Packet, now: int)
    ensures var oldest := Inserted(q, req, reply, now)[0]; -STALE_TIME < now - oldest.timein < STALE_TIME
  {
    var p := Purged(q, now, EntrySize(req, reply));
    assert p != [] ==> !Stale(p[0], now);
  }

  lemma AppendedIs(p: seq<Entry>, e: Entry)
    requires Unique(p) && forall d :: d in p ==> d.req != e.req
    ensures Unique(p + [e]) && Find(p + [e], e.req) == Some(e)
    ensures TotalSize(p + [e]) == TotalSize(p) + EntrySize(e.req, e.reply)
  {
    TotalSizeOfConcat(p, [e]);
    assert [e][1..] == [];
    assert Unique(p + [e]);
    assert (p + [e])[|p|] == e;
    FindOfUnique(p + [e], e);
  }

  lemma InsertedIs(q: seq<Entry>, req: Packet, reply: Packet, now: int)
    requires Unique(q) && Find(q, req).None?
    ensures Unique(Inserted(q, req, reply, now))
    ensures Find(Inserted(q, req, reply, now), req) == Some(Entry(now, req, reply))
  {
    hide Find, Unique, TotalSize, Purged;
    PurgedIs(q, now, EntrySize(req, reply));
    AppendedIs(Purged(q, now, EntrySize(req, reply)), Entry(now, req, reply));
  }

  lemma HasFirst(q: seq<Entry>)
    ensures q != [] ==> q[0] in q
  {
  }

  class Lookaside {
    const hash: Packet -> nat
    const table: array<seq<Entry>>
    var queue: seq<Entry>
    var totalSize: int

    function Slot(req: Packet): (h: nat)
      ensures h < LOOKASIDE_HASH_SIZE
    {
      hash(req) % LOOKASIDE_HASH_SIZE
    }

    ghost predicate IsBucket(bucket: seq<Entry>, q: seq<Entry>, h: nat) {
      && Unique(bucket)
      && forall e :: e in bucket <==> e in q && Slot(e.req) == h
    }

    lemma BucketRemoved(bucket: seq<Entry>, q: seq<Entry>, h: nat, req: Packet)
      requires IsBucket(bucket, q, h)
      ensures IsBucket(if Slot(req) == h then Removed(bucket, req) else bucket, Removed(q, req), h)
    {
      hide Find, Removed;
      RemovedElements(q, req);
      RemovedElements(bucket, req);
      RemovedUnique(bucket, req);
    }

    lemma BucketInserted(bucket: seq<Entry>, q: seq<Entry>, h: nat, e: Entry)
      requires IsBucket(bucket, q, h) && forall d :: d in q ==> d.req != e.req
      ensures IsBucket(if Slot(e.req) == h then [e] + bucket else bucket, q + [e], h)
    {
      if Slot(e.req) == h {
        UniqueCons(e, bucket);
      }
    }

    /** The buckets hold the entries of the queue, each in the slot of its hash, and the size is kept up to date. */
    ghost predicate Valid()
      reads this, table
    {
      && table.Length == LOOKASIDE_HASH_SIZE
      && Unique(queue)
      && totalSize == TotalSize(queue)
      && forall h :: 0 <= h < table.Length ==> IsBucket(table[h], queue, h)
    }

    constructor (hash: Packet -> nat)
      ensures Valid() && fresh(table) && queue == [] && this.hash == hash
    {
      this.hash := hash;
      table := new seq<Entry>[LOOKASIDE_HASH_SIZE](_ => []);
      queue, totalSize := [], 0;
    }

    method FindEntry(req: Packet) returns (r: Option<Entry>)
      requires Valid()
      ensures r == Find(queue, req)
    {
      var bucket := table[Slot(req)];
      for i := 0 to |bucket|
        invariant forall j :: 0 <= j < i ==> bucket[j].req != req
      {
        if bucket[i].req == req {
          FindOfUnique(queue, bucket[i]);
          return Some(bucket[i]);
        }
      }
      r := None;
    }

    method DiscardEntry(e: Entry)
      requires Valid() && e in queue
      modifies `queue, `totalSize, table
      ensures Valid() && queue == Removed(old(queue), e.req)
    {
      hide Removed, Find, TotalSize, Unique, IsBucket;
      RemovedUnique(queue, e.req);
      RemovedSize(queue, e);
      forall h | 0 <= h < table.Length
        ensures IsBucket(if Slot(e.req) == h then Removed(table[h], e.req) else table[h], Removed(queue, e.req), h)
      {
        BucketRemoved(table[h], queue, h, e.req);
      }
      totalSize := totalSize - EntrySize(e.req, e.reply);
      var h := Slot(e.req);
      table[h] := Removed(table[h], e.req);
      queue := Removed(queue, e.req);
    }

    method Remove(req: Packet)
      requires Valid()
      modifies `queue, `totalSize, table
      ensures Valid() && queue == Removed(old(queue), req)
    {
      var e := FindEntry(req);
      RemovedElements(queue, req);
      if e.Some? {
        DiscardEntry(e.value);
      }
    }

    /** `reply` is a copy of the entry's reply, present even when that is empty. */
    method Check(req: Packet) returns (hit: bool, reply: Option<Packet>)
      requires Valid()
      ensures hit <==> Find(queue, req).Some?
      ensures reply == if hit then Some(Find(queue, req).value.reply) else None
    {
      var e := FindEntry(req);
      hit := e.Some?;
      reply := if hit then Some(e.value.reply) else None;
    }

    method Append(e: Entry)
      requires Valid() && forall d :: d in queue ==> d.req != e.req
      modifies `queue, `totalSize, table
      ensures Valid() && queue == old(queue) + [e]
    {
      hide Find, TotalSize, Unique, IsBucket;
      AppendedIs(queue, e);
      forall h | 0 <= h < table.Length
        ensures IsBucket(if Slot(e.req) == h then [e] + table[h] else table[h], queue + [e], h)
      {
        BucketInserted(table[h], queue, h, e);
      }
      queue := queue + [e];
      var h := Slot(e.req);
      table[h] := [e] + table[h];
      totalSize := totalSize + EntrySize(e.req, e.reply);
    }

    method Insert(req: Packet, reply: Packet, now: int)
      requires Valid() && Find(queue, req).None?
      modifies `queue, `totalSize, table
      ensures Valid() && queue == Inserted(old(queue), req, reply, now)
    {
      var esize := EntrySize(req, reply);
      while queue != []
        invariant Valid()
        invariant Purged(queue, now, esize) == Purged(old(queue), now, esize)
        invariant Find(queue, req).None?
        decreases |queue|
      {
        var e := queue[0];
        if !Stale(e, now) && totalSize + esize <= LOOKASIDE_MAX_SIZE {
          break;
        }
        RemovedHead(queue);
        DiscardEntry(e);
      }
      assert Purged(queue, now, esize) == queue;
      Append(Entry(now, req, reply));
    }

    method Free()
      requires Valid()
      modifies `queue, `totalSize, table
      ensures Valid() && queue == [] && totalSize == 0
      ensures forall h :: 0 <= h < table.Length ==> table[h] == []
    {
      while queue != []
        invariant Valid()
        decreases |queue|
      {
        RemovedHead(queue);
        DiscardEntry(queue[0]);
      }
      forall h | 0 <= h < table.Length
        ensures table[h] == []
      {
        assert IsBucket(table[h], queue, h);
        HasFirst(table[h]);
      }
    }
  }
}
