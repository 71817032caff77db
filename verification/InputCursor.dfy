/** Consuming a block of memory with a sticky error: struct k5input and its readers (k5-input.h). */
module InputCursor {
  import opened ByteOrder

  const EINVAL := 22

  /** What a reader reads: an integer in a given byte order, an integer as this host lays it out in memory, or a run of
      bytes. */
  datatype Item =
    | Number(kind: Kind)
    | HostNumber(size: Size, host: Order)
    | Raw(n: nat)

  datatype Order = BigEndianHost | LittleEndianHost

  datatype Size = S16 | S32 | S64

  /** What a reader gives: an integer, or a pointer to bytes, which may be null. */
  datatype Value = Integer(v: bv64) | Bytes(bytes: seq<Byte>) | Null

  function HostKind(size: Size, host: Order): (k: Kind) {
    match size
    case S16 => if host.BigEndianHost? then U16Be else U16Le
    case S32 => if host.BigEndianHost? then U32Be else U32Le
    case S64 => if host.BigEndianHost? then U64Be else U64Le
  }

  function Extent(item: Item): (n: nat) {
    match item
    case Number(k) => Width(k)
    case HostNumber(size, host) => Width(HostKind(size, host))
    case Raw(n) => n
  }

  function Default(item: Item): (v: Value) {
    if item.Raw? then Null else Integer(0)
  }

  /** What the bytes `p` mean to the reader. */
  function Meaning(item: Item, p: seq<Byte>): (v: Value)
    requires |p| == Extent(item)
  {
    match item
    case Number(k) => Integer(Loaded(k, p))
    case HostNumber(size, host) => Integer(Loaded(HostKind(size, host), p))
    case Raw(_) => Bytes(p)
  }

  /** A reader takes as many bytes as its integer has and reads them in the order it names, the host's own if it names
      none; or it takes the bytes as they are.  What it gives after an error is 0 or a null pointer. */
  lemma {:induction false} MeaningIs(item: Item, p: seq<Byte>)
    requires |p| == Extent(item)
    ensures match item
            case Number(k) =>
              && Default(item) == Integer(0)
              && Meaning(item, p) == Integer(if k.U16Be? || k.U32Be? || k.U64Be? then BigEndian(p) else LittleEndian(p))
            case HostNumber(size, host) =>
              && |p| == (match size case S16 => 2 case S32 => 4 case S64 => 8) && Default(item) == Integer(0)
              && Meaning(item, p) == Integer(if host.BigEndianHost? then BigEndian(p) else LittleEndian(p))
            case Raw(n) => |p| == n && Meaning(item, p) == Bytes(p) && Default(item) == Null
  {
    match item
    case Number(k) => LoadsMean(k, p);
    case HostNumber(size, host) => LoadsMean(HostKind(size, host), p);
    case Raw(_) =>
  }

  /** The cursor's fields: what is left of the block, and the first error. */
  datatype Cursor = Cursor(rest: seq<Byte>, status: int)

  /** One read: the value, and the cursor after it. */
  function Read(c: Cursor, item: Item): (r: (Value, Cursor)) {
    if c.status != 0 then (Default(item), c)
    else if |c.rest| < Extent(item) then (Default(item), c.(status := EINVAL))
    else (Meaning(item, c.rest[..Extent(item)]), c.(rest := c.rest[Extent(item)..]))
  }

  /** A sequence of reads: the values, and the cursor after them. */
  function ReadAll(c: Cursor, items: seq<Item>): (r: (seq<Value>, Cursor))
    ensures |r.0| == |items|
    decreases |items|
  {
    if items == [] then ([], c)
    else
      var first := Read(c, items[0]);
      var rest := ReadAll(first.1, items[1..]);
      ([first.0] + rest.0, rest.1)
  }

  class K5Input {
    const block: seq<Byte>
    var ptr: nat
    var len: nat
    var status: int

    ghost predicate Valid()
      reads this
    {
      ptr + len == |block|
    }

    ghost function State(): (c: Cursor)
      reads this
      requires Valid()
    {
      Cursor(block[ptr..], status)
    }

    // k5_input_init
    constructor (block: seq<Byte>)
      ensures Valid() && State() == Cursor(block, 0)
    {
      this.block, ptr, len, status := block, 0, |block|, 0;
    }

    // k5_input_set_status: the status reflects the first thing to go wrong.
    method SetStatus(code: int)
      modifies this`status
      ensures status == if old(status) != 0 then old(status) else code
    {
      if status == 0 {
        status := code;
      }
    }

    // k5_input_get_bytes: where the bytes start, or -1.
    method GetBytes(n: nat) returns (at: int)
      requires Valid()
      modifies this`ptr, this`len, this`status
      ensures Valid()
      ensures if old(status) == 0 && n <= old(len)
              then at == old(ptr) && ptr == old(ptr) + n && status == 0
              else at == -1 && ptr == old(ptr) && status == if old(status) != 0 then old(status) else EINVAL
    {
      if len < n {
        SetStatus(EINVAL);
      }
      if status != 0 {
        return -1;
      }
      len := len - n;
      ptr := ptr + n;
      return ptr - n;
    }

    // k5_input_get_bytes for a caller that takes the bytes, k5_input_get_byte, k5_input_get_uint16_be and the other
    // typed readers
    method Get(item: Item) returns (v: Value)
      requires Valid()
      modifies this`ptr, this`len, this`status
      ensures Valid() && (v, State()) == Read(old(State()), item)
    {
      hide Meaning, Default;
      ghost var before := State();
      var at := GetBytes(Extent(item));
      if at == -1 {
        return Default(item);
      }
      assert before.rest[..Extent(item)] == block[at..at + Extent(item)];
      return Meaning(item, block[at..at + Extent(item)]);
    }

    method GetAll(items: seq<Item>) returns (vs: seq<Value>)
      requires Valid()
      modifies this`ptr, this`len, this`status
      ensures Valid() && (vs, State()) == ReadAll(old(State()), items)
    {
      hide Read;
      vs := [];
      ghost var start := State();
      for i := 0 to |items|
        invariant Valid() && (vs, State()) == ReadAll(start, items[..i])
      {
        ReadAllAppend(start, items[..i], items[i]);
        assert items[..i + 1] == items[..i] + [items[i]];
        var v := Get(items[i]);
        vs := vs + [v];
      }
      assert items[..|items|] == items;
    }
  }

  lemma {:induction false} ReadAllAppend(c: Cursor, items: seq<Item>, item: Item)
    ensures var before, last := ReadAll(c, items), Read(ReadAll(c, items).1, item);
            ReadAll(c, items + [item]) == (before.0 + [last.0], last.1)
    decreases |items|
  {
    hide Read;
    if items != [] {
      assert (items + [item])[1..] == items[1..] + [item] && (items + [item])[0] == items[0];
      ReadAllAppend(Read(c, items[0]).1, items[1..], item);
      var first, rest := Read(c, items[0]), ReadAll(Read(c, items[0]).1, items[1..]);
      assert [first.0] + (rest.0 + [Read(rest.1, item).0]) == [first.0] + rest.0 + [Read(rest.1, item).0];
    } else {
      assert [] + [item] == [item] && ReadAll(Read(c, item).1, [item][1..]) == ([], Read(c, item).1);
      assert [Read(c, item).0] + [] == [] + [Read(c, item).0];
    }
  }

  // ----- What any mix of reads yields -----

  /** Where the i-th read starts, if none before it overran. */
  function Offset(items: seq<Item>, i: nat): (o: nat)
    requires i <= |items|
  {
    if i == 0 then 0 else Extent(items[0]) + Offset(items[1..], i - 1)
  }

  /** Once the status is set it stays, nothing is consumed, and every read gives the default. */
  lemma {:induction false} AfterError(c: Cursor, items: seq<Item>)
    requires c.status != 0
    ensures ReadAll(c, items).1 == c
    ensures forall i :: 0 <= i < |items| ==> ReadAll(c, items).0[i] == Default(items[i])
  {
    if items != [] {
      AfterError(c, items[1..]);
    }
  }

  /** The i-th read gives the meaning of its own slice of the block. */
  predicate Decodes(block: seq<Byte>, items: seq<Item>, i: nat, v: Value)
    requires i < |items|
  {
    var o := Offset(items, i);
    o + Extent(items[i]) <= |block| && v == Meaning(items[i], block[o..o + Extent(items[i])])
  }

  /** Reads that fit in the block decode its successive slices, and leave the rest. */
  lemma {:induction false} BeforeOverrun(block: seq<Byte>, items: seq<Item>)
    requires Offset(items, |items|) <= |block|
    ensures ReadAll(Cursor(block, 0), items).1 == Cursor(block[Offset(items, |items|)..], 0)
    ensures forall i :: 0 <= i < |items| ==> Decodes(block, items, i, ReadAll(Cursor(block, 0), items).0[i])
  {
    hide Meaning, Decodes, Extent;
    if items != [] {
      var w, c := Extent(items[0]), Cursor(block, 0);
      BeforeOverrun(block[w..], items[1..]);
      assert block[w..][Offset(items[1..], |items| - 1)..] == block[Offset(items, |items|)..];
      DecodesFirst(block, items);
      forall i | 0 < i < |items|
        ensures Decodes(block, items, i, ReadAll(c, items).0[i])
      {
        DecodesNext(block, items, i, ReadAll(c, items).0[i]);
      }
    }
  }

  lemma DecodesFirst(block: seq<Byte>, items: seq<Item>)
    requires items != [] && Extent(items[0]) <= |block|
    ensures Decodes(block, items, 0, Read(Cursor(block, 0), items[0]).0)
  {
    hide Meaning, Extent;
  }

  lemma SliceOfTail(block: seq<Byte>, w: nat, o: nat, n: nat)
    requires w + o + n <= |block|
    ensures block[w..][o..o + n] == block[w + o..w + o + n]
  {
  }

  lemma DecodesNext(block: seq<Byte>, items: seq<Item>, i: nat, v: Value)
    requires 0 < i < |items| && Extent(items[0]) <= |block|
    requires Decodes(block[Extent(items[0])..], items[1..], i - 1, v)
    ensures Decodes(block, items, i, v)
  {
    hide Meaning, Extent;
    var w, o := Extent(items[0]), Offset(items[1..], i - 1);
    assert items[1..][i - 1] == items[i] && Offset(items, i) == w + o;
    SliceOfTail(block, w, o, Extent(items[i]));
  }

  lemma {:induction false} ReadAllConcat(c: Cursor, a: seq<Item>, b: seq<Item>)
    ensures ReadAll(c, a + b).0 == ReadAll(c, a).0 + ReadAll(ReadAll(c, a).1, b).0
    ensures ReadAll(c, a + b).1 == ReadAll(ReadAll(c, a).1, b).1
    decreases |a|
  {
    hide Read;
    if a == [] {
      assert a + b == b;
    } else {
      assert (a + b)[1..] == a[1..] + b && (a + b)[0] == a[0];
      ReadAllConcat(Read(c, a[0]).1, a[1..], b);
    }
  }

  /** For any mix of reads on any block: the first read that overruns fixes the status to EINVAL, it and every later
      read (even one that would fit) give the default, and every read before it decodes its own slice. */
  lemma AnyMixOfReads(block: seq<Byte>, before: seq<Item>, item: Item, after: seq<Item>)
    requires Offset(before, |before|) <= |block| < Offset(before, |before|) + Extent(item)
    ensures var items := before + [item] + after; var r := ReadAll(Cursor(block, 0), items);
            && r.1 == Cursor(block[Offset(before, |before|)..], EINVAL)
            && (forall i :: 0 <= i < |before| ==> Decodes(block, before, i, r.0[i]))
            && (forall i :: |before| <= i < |items| ==> r.0[i] == Default(items[i]))
  {
    hide Meaning, Decodes, Extent, Default;
    BeforeOverrun(block, before);
    var c0 := Cursor(block, 0);
    var c1 := ReadAll(c0, before).1;
    ReadAllAppend(c0, before, item);
    var c2 := ReadAll(c0, before + [item]).1;
    assert c2 == c1.(status := EINVAL);
    AfterError(c2, after);
    ReadAllConcat(c0, before + [item], after);
  }

  // ----- Round trip with the store functions -----

  /** The value is one that can be stored as the item. */
  predicate Storable(item: Item, v: Value) {
    match item
    case Number(k) => v.Integer? && Fits(k, v.v)
    case HostNumber(size, host) => v.Integer? && Fits(HostKind(size, host), v.v)
    case Raw(n) => v.Bytes? && |v.bytes| == n
  }

  function StoredItem(item: Item, v: Value): (s: seq<Byte>)
    requires Storable(item, v)
    ensures |s| == Extent(item)
  {
    match item
    case Number(k) => Stored(k, v.v)
    case HostNumber(size, host) => Stored(HostKind(size, host), v.v)
    case Raw(_) => v.bytes
  }

  predicate AllStorable(items: seq<Item>, vs: seq<Value>) {
    |items| == |vs| && forall i :: 0 <= i < |items| ==> Storable(items[i], vs[i])
  }

  function StoredAll(items: seq<Item>, vs: seq<Value>): (s: seq<Byte>)
    requires AllStorable(items, vs)
  {
    if items == [] then [] else StoredItem(items[0], vs[0]) + StoredAll(items[1..], vs[1..])
  }

  lemma {:induction false} StoredAllAppend(items: seq<Item>, vs: seq<Value>, item: Item, v: Value)
    requires AllStorable(items, vs) && Storable(item, v)
    ensures AllStorable(items + [item], vs + [v])
    ensures StoredAll(items + [item], vs + [v]) == StoredAll(items, vs) + StoredItem(item, v)
  {
    hide StoredItem, Storable;
    if items == [] {
      assert [] + [item] == [item] && [] + [v] == [v];
      assert StoredAll([item], [v]) == StoredItem(item, v) + StoredAll([item][1..], [v][1..]);
    } else {
      assert (items + [item])[1..] == items[1..] + [item] && (vs + [v])[1..] == vs[1..] + [v];
      StoredAllAppend(items[1..], vs[1..], item, v);
    }
  }

  // One call of a store function, or of memcpy for bytes.
  method StoreItem(item: Item, v: Value) returns (s: seq<Byte>)
    requires Storable(item, v)
    ensures s == StoredItem(item, v)
  {
    hide Stored, Fits;
    if item.Raw? {
      return v.bytes;
    }
    var kind := if item.Number? then item.kind else HostKind(item.size, item.host);
    var p := new Byte[Width(kind)];
    Store(kind, v.v, p, 0);
    assert p[..] == Stored(kind, v.v);
    s := p[..];
  }

  // Marshalling a list of items.
  method StoreList(items: seq<Item>, vs: seq<Value>) returns (block: seq<Byte>)
    requires AllStorable(items, vs)
    ensures block == StoredAll(items, vs)
  {
    hide StoredItem, Storable;
    block := [];
    for i := 0 to |items|
      invariant AllStorable(items[..i], vs[..i]) && block == StoredAll(items[..i], vs[..i])
    {
      StoredAllAppend(items[..i], vs[..i], items[i], vs[i]);
      assert items[..i + 1] == items[..i] + [items[i]] && vs[..i + 1] == vs[..i] + [vs[i]];
      var s := StoreItem(items[i], vs[i]);
      block := block + s;
    }
    assert items[..|items|] == items && vs[..|vs|] == vs;
  }

  lemma StoredItemReads(item: Item, v: Value)
    requires Storable(item, v)
    ensures Meaning(item, StoredItem(item, v)) == v
  {
    hide Loaded, Stored, Fits;
    match item
    case Number(k) => LoadStored(k, v.v);
    case HostNumber(size, host) => LoadStored(HostKind(size, host), v.v);
    case Raw(_) =>
  }

  /** Any list of integers and bytes, once stored, reads back equal, with no byte left over. */
  lemma {:induction false} StoredReadsBack(items: seq<Item>, vs: seq<Value>)
    requires AllStorable(items, vs)
    ensures ReadAll(Cursor(StoredAll(items, vs), 0), items) == (vs, Cursor([], 0))
  {
    hide Meaning, StoredItem, Storable, Extent, Default;
    if items != [] {
      StoredItemReads(items[0], vs[0]);
      StoredReadsBack(items[1..], vs[1..]);
      var block, w := StoredAll(items, vs), Extent(items[0]);
      assert block[..w] == StoredItem(items[0], vs[0]) && block[w..] == StoredAll(items[1..], vs[1..]);
      assert [vs[0]] + vs[1..] == vs;
    }
  }
}
