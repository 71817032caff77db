/** Storing and loading integers as bytes: the portable forms of store_*_be, store_*_le, load_*_be and load_*_le
    (k5-platform.h), with their shifts and masks. */
module ByteOrder {

  type Byte = bv8

  function Low(v: bv64): (b: Byte) {
    (v & 0xff) as bv8
  }

  function Be16(v: bv64): (s: seq<Byte>)
    ensures |s| == 2
  {
    [Low(v >> 8), Low(v)]
  }

  function Be32(v: bv64): (s: seq<Byte>)
    ensures |s| == 4
  {
    [Low(v >> 24), Low(v >> 16), Low(v >> 8), Low(v)]
  }

  function Be64(v: bv64): (s: seq<Byte>)
    ensures |s| == 8
  {
    [Low(v >> 56), Low(v >> 48), Low(v >> 40), Low(v >> 32), Low(v >> 24), Low(v >> 16), Low(v >> 8), Low(v)]
  }

  function Le16(v: bv64): (s: seq<Byte>)
    ensures |s| == 2
  {
    [Low(v), Low(v >> 8)]
  }

  function Le32(v: bv64): (s: seq<Byte>)
    ensures |s| == 4
  {
    [Low(v), Low(v >> 8), Low(v >> 16), Low(v >> 24)]
  }

  function Le64(v: bv64): (s: seq<Byte>)
    ensures |s| == 8
  {
    [Low(v), Low(v >> 8), Low(v >> 16), Low(v >> 24), Low(v >> 32), Low(v >> 40), Low(v >> 48), Low(v >> 56)]
  }

  function LoadBe16(p: seq<Byte>): (v: bv64)
    requires |p| == 2
  {
    (p[1] as bv64) | ((p[0] as bv64) << 8)
  }

  function Combined(b0: Byte, b1: Byte, b2: Byte, b3: Byte): (v: bv64) {
    (b0 as bv64) | ((b1 as bv64) << 8) | ((b2 as bv64) << 16) | ((b3 as bv64) << 24)
  }

  function LoadBe32(p: seq<Byte>): (v: bv64)
    requires |p| == 4
  {
    Combined(p[3], p[2], p[1], p[0])
  }

  function Join(high: bv64, low: bv64): (v: bv64) {
    (high << 32) | low
  }

  function LoadBe64(p: seq<Byte>): (v: bv64)
    requires |p| == 8
  {
    Join(LoadBe32(p[..4]), LoadBe32(p[4..]))
  }

  function LoadLe16(p: seq<Byte>): (v: bv64)
    requires |p| == 2
  {
    (p[0] as bv64) | ((p[1] as bv64) << 8)
  }

  function LoadLe32(p: seq<Byte>): (v: bv64)
    requires |p| == 4
  {
    Combined(p[0], p[1], p[2], p[3])
  }

  function LoadLe64(p: seq<Byte>): (v: bv64)
    requires |p| == 8
  {
    Join(LoadLe32(p[4..]), LoadLe32(p[..4]))
  }

  datatype Kind = U8 | U16Be | U16Le | U32Be | U32Le | U64Be | U64Le

  function Width(k: Kind): (w: nat) {
    match k
    case U8 => 1
    case U16Be | U16Le => 2
    case U32Be | U32Le => 4
    case U64Be | U64Le => 8
  }

  function Stored(k: Kind, v: bv64): (s: seq<Byte>)
    ensures |s| == Width(k)
  {
    match k
    case U8 => [Low(v)]
    case U16Be => Be16(v)
    case U16Le => Le16(v)
    case U32Be => Be32(v)
    case U32Le => Le32(v)
    case U64Be => Be64(v)
    case U64Le => Le64(v)
  }

  function Loaded(k: Kind, p: seq<Byte>): (v: bv64)
    requires |p| == Width(k)
  {
    match k
    case U8 => p[0] as bv64
    case U16Be => LoadBe16(p)
    case U16Le => LoadLe16(p)
    case U32Be => LoadBe32(p)
    case U32Le => LoadLe32(p)
    case U64Be => LoadBe64(p)
    case U64Le => LoadLe64(p)
  }

  /** The value fits the width of the kind. */
  predicate Fits(k: Kind, v: bv64) {
    match k
    case U8 => v <= 0xff
    case U16Be | U16Le => v <= 0xffff
    case U32Be | U32Le => v <= 0xffff_ffff
    case U64Be | U64Le => true
  }

  lemma LoadStored32(v: bv64)
    ensures LoadBe32(Be32(v)) == v & 0xffff_ffff
    ensures LoadLe32(Le32(v)) == v & 0xffff_ffff
  {
  }

  lemma ShiftTwice(v: bv64)
    ensures (v >> 32) >> 24 == v >> 56 && (v >> 32) >> 16 == v >> 48 && (v >> 32) >> 8 == v >> 40
    ensures Join((v >> 32) & 0xffff_ffff, v & 0xffff_ffff) == v
  {
  }

  lemma Halves(v: bv64)
    ensures Be64(v)[..4] == Be32(v >> 32) && Be64(v)[4..] == Be32(v)
    ensures Le64(v)[4..] == Le32(v >> 32) && Le64(v)[..4] == Le32(v)
  {
    hide Low;
    ShiftTwice(v);
  }

  lemma LoadStored64(v: bv64)
    ensures LoadBe64(Be64(v)) == v
    ensures LoadLe64(Le64(v)) == v
  {
    hide LoadBe32, LoadLe32, Be32, Le32, Be64, Le64, Join;
    Halves(v);
    LoadStored32(v >> 32);
    LoadStored32(v);
    ShiftTwice(v);
  }

  lemma LoadStored16(v: bv64)
    requires v <= 0xffff
    ensures LoadBe16(Be16(v)) == v
    ensures LoadLe16(Le16(v)) == v
  {
  }

  lemma MaskIsIdentity(v: bv64)
    requires v <= 0xffff_ffff
    ensures v & 0xffff_ffff == v
  {
  }

  lemma LowIs(v: bv64)
    requires v <= 0xff
    ensures Low(v) as bv64 == v
  {
  }

  lemma LoadStoredShort(k: Kind, v: bv64)
    requires Fits(k, v) && Width(k) <= 2
    ensures Loaded(k, Stored(k, v)) == v
  {
    hide LoadBe16, LoadLe16, Be16, Le16, Low;
    if k.U8? {
      LowIs(v);
    } else {
      LoadStored16(v);
    }
  }

  lemma LoadStoredLong(k: Kind, v: bv64)
    requires Fits(k, v) && Width(k) > 2
    ensures Loaded(k, Stored(k, v)) == v
  {
    hide LoadBe32, LoadLe32, LoadBe64, LoadLe64, Be32, Le32, Be64, Le64;
    LoadStored32(v);
    LoadStored64(v);
    if Width(k) == 4 {
      MaskIsIdentity(v);
    }
  }

  /** Loading what was stored gives the value back, whatever the width and byte order. */
  lemma LoadStored(k: Kind, v: bv64)
    requires Fits(k, v)
    ensures Loaded(k, Stored(k, v)) == v
  {
    hide Loaded, Stored, Fits;
    if Width(k) <= 2 {
      LoadStoredShort(k, v);
    } else {
      LoadStoredLong(k, v);
    }
  }

  // ----- What the byte orders mean -----

  /** The number whose digits to base 256 are the bytes, most significant first ... */
  function BigEndian(p: seq<Byte>): (v: bv64) {
    if p == [] then 0 else Append(BigEndian(p[..|p| - 1]), p[|p| - 1])
  }

  /** ... and least significant first. */
  function LittleEndian(p: seq<Byte>): (v: bv64) {
    if p == [] then 0 else Append(LittleEndian(p[1..]), p[0])
  }

  function Append(v: bv64, b: Byte): (w: bv64) {
    (v << 8) | (b as bv64)
  }

  lemma FourShifts(v: bv64, b0: Byte, b1: Byte, b2: Byte, b3: Byte)
    ensures Append(Append(Append(Append(v, b0), b1), b2), b3) == Join(v, LoadBe32([b0, b1, b2, b3]))
  {
  }

  lemma Mirror(b0: Byte, b1: Byte, b2: Byte, b3: Byte)
    ensures LoadLe32([b3, b2, b1, b0]) == LoadBe32([b0, b1, b2, b3])
  {
    hide Combined;
  }

  lemma TwoShifts(b0: Byte, b1: Byte)
    ensures Append(Append(0, b0), b1) == LoadBe16([b0, b1]) == LoadLe16([b1, b0])
  {
  }

  lemma JoinZero(v: bv64)
    ensures Join(0, v) == v
  {
  }

  lemma NoBytes()
    ensures BigEndian([]) == 0 && LittleEndian([]) == 0
  {
  }

  lemma MoreBytes(p: seq<Byte>, b: Byte)
    ensures BigEndian(p + [b]) == Append(BigEndian(p), b) && LittleEndian([b] + p) == Append(LittleEndian(p), b)
  {
    assert (p + [b])[..|p|] == p && ([b] + p)[1..] == p;
  }

  lemma FourMoreBytes(p: seq<Byte>, b0: Byte, b1: Byte, b2: Byte, b3: Byte)
    ensures BigEndian(p + [b0, b1, b2, b3]) == Join(BigEndian(p), LoadBe32([b0, b1, b2, b3]))
    ensures LittleEndian([b3, b2, b1, b0] + p) == Join(LittleEndian(p), LoadLe32([b3, b2, b1, b0]))
  {
    hide BigEndian, LittleEndian, Append, Join, LoadBe32, LoadLe32;
    MoreBytes(p, b0);
    MoreBytes(p + [b0], b1);
    MoreBytes(p + [b0] + [b1], b2);
    MoreBytes(p + [b0] + [b1] + [b2], b3);
    assert p + [b0, b1, b2, b3] == p + [b0] + [b1] + [b2] + [b3];
    MoreBytes([b0] + p, b1);
    MoreBytes([b1] + ([b0] + p), b2);
    MoreBytes([b2] + ([b1] + ([b0] + p)), b3);
    assert [b3, b2, b1, b0] + p == [b3] + ([b2] + ([b1] + ([b0] + p)));
    FourShifts(BigEndian(p), b0, b1, b2, b3);
    FourShifts(LittleEndian(p), b0, b1, b2, b3);
    Mirror(b0, b1, b2, b3);
  }

  lemma LoadsMean16(p: seq<Byte>)
    requires |p| == 2
    ensures LoadBe16(p) == BigEndian(p) && LoadLe16(p) == LittleEndian(p)
  {
    hide BigEndian, LittleEndian, Append, LoadBe16, LoadLe16;
    NoBytes();
    TwoShifts(p[0], p[1]);
    TwoShifts(p[1], p[0]);
    MoreBytes([], p[0]);
    MoreBytes([p[0]], p[1]);
    MoreBytes([], p[1]);
    MoreBytes([p[1]], p[0]);
    assert p == [p[0], p[1]] == [p[0]] + [p[1]] && [] + [p[0]] == [p[0]] && [p[1]] + [] == [p[1]];
  }

  lemma LoadsMean32(p: seq<Byte>)
    requires |p| == 4
    ensures LoadBe32(p) == BigEndian(p) && LoadLe32(p) == LittleEndian(p)
  {
    hide BigEndian, LittleEndian, Append, LoadBe32, LoadLe32, Join;
    NoBytes();
    FourMoreBytes([], p[0], p[1], p[2], p[3]);
    FourMoreBytes([], p[3], p[2], p[1], p[0]);
    JoinZero(LoadBe32(p));
    JoinZero(LoadLe32(p));
    assert p == [p[0], p[1], p[2], p[3]] && [] + p == p && p + [] == p;
  }

  lemma LoadsMean64(p: seq<Byte>)
    requires |p| == 8
    ensures LoadBe64(p) == BigEndian(p) && LoadLe64(p) == LittleEndian(p)
  {
    hide BigEndian, LittleEndian, LoadBe32, LoadLe32, Join;
    var first, last := p[..4], p[4..];
    assert p == first + last;
    LoadsMean32(first);
    LoadsMean32(last);
    FourMore(first, last);
  }

  lemma FourMore(first: seq<Byte>, last: seq<Byte>)
    requires |first| == |last| == 4
    ensures BigEndian(first + last) == Join(BigEndian(first), LoadBe32(last))
    ensures LittleEndian(first + last) == Join(LittleEndian(last), LoadLe32(first))
  {
    hide BigEndian, LittleEndian, LoadBe32, LoadLe32, Join;
    FourMoreBytes(first, last[0], last[1], last[2], last[3]);
    FourMoreBytes(last, first[3], first[2], first[1], first[0]);
    Spelled(first);
    Spelled(last);
  }

  lemma Spelled(p: seq<Byte>)
    requires |p| == 4
    ensures p == [p[0], p[1], p[2], p[3]]
  {
  }

  /** Each load reads the number that the byte order says. */
  lemma LoadsMean(k: Kind, p: seq<Byte>)
    requires |p| == Width(k)
    ensures Loaded(k, p) == if k.U16Be? || k.U32Be? || k.U64Be? then BigEndian(p) else LittleEndian(p)
  {
    hide BigEndian, LittleEndian, LoadBe16, LoadLe16, LoadBe32, LoadLe32, LoadBe64, LoadLe64;
    match k
    case U8 => OneByte(p);
    case U16Be | U16Le => LoadsMean16(p);
    case U32Be | U32Le => LoadsMean32(p);
    case U64Be | U64Le => LoadsMean64(p);
  }

  lemma OneByte(p: seq<Byte>)
    requires |p| == 1
    ensures LittleEndian(p) == p[0] as bv64
  {
    assert p[1..] == [];
  }

  /** `after` is `before` with `bytes` at `at`. */
  ghost predicate Written(after: seq<Byte>, before: seq<Byte>, at: nat, bytes: seq<Byte>) {
    && |after| == |before| && at + |bytes| <= |before|
    && forall i :: 0 <= i < |before| ==> after[i] == if at <= i < at + |bytes| then bytes[i - at] else before[i]
  }

  method Store16Be(v: bv64, p: array<Byte>, at: nat)
    requires at + 2 <= p.Length
    modifies p
    ensures Written(p[..], old(p[..]), at, Be16(v))
  {
    hide Low;
    p[at] := Low(v >> 8);
    p[at + 1] := Low(v);
  }

  method Store32Be(v: bv64, p: array<Byte>, at: nat)
    requires at + 4 <= p.Length
    modifies p
    ensures Written(p[..], old(p[..]), at, Be32(v))
  {
    hide Low;
    p[at] := Low(v >> 24);
    p[at + 1] := Low(v >> 16);
    p[at + 2] := Low(v >> 8);
    p[at + 3] := Low(v);
  }

  method Store64Be(v: bv64, p: array<Byte>, at: nat)
    requires at + 8 <= p.Length
    modifies p
    ensures Written(p[..], old(p[..]), at, Be64(v))
  {
    hide Low;
    p[at] := Low(v >> 56);
    p[at + 1] := Low(v >> 48);
    p[at + 2] := Low(v >> 40);
    p[at + 3] := Low(v >> 32);
    p[at + 4] := Low(v >> 24);
    p[at + 5] := Low(v >> 16);
    p[at + 6] := Low(v >> 8);
    p[at + 7] := Low(v);
  }

  method Store16Le(v: bv64, p: array<Byte>, at: nat)
    requires at + 2 <= p.Length
    modifies p
    ensures Written(p[..], old(p[..]), at, Le16(v))
  {
    hide Low;
    p[at + 1] := Low(v >> 8);
    p[at] := Low(v);
  }

  method Store32Le(v: bv64, p: array<Byte>, at: nat)
    requires at + 4 <= p.Length
    modifies p
    ensures Written(p[..], old(p[..]), at, Le32(v))
  {
    hide Low;
    p[at + 3] := Low(v >> 24);
    p[at + 2] := Low(v >> 16);
    p[at + 1] := Low(v >> 8);
    p[at] := Low(v);
  }

  method Store64Le(v: bv64, p: array<Byte>, at: nat)
    requires at + 8 <= p.Length
    modifies p
    ensures Written(p[..], old(p[..]), at, Le64(v))
  {
    hide Low;
    p[at + 7] := Low(v >> 56);
    p[at + 6] := Low(v >> 48);
    p[at + 5] := Low(v >> 40);
    p[at + 4] := Low(v >> 32);
    p[at + 3] := Low(v >> 24);
    p[at + 2] := Low(v >> 16);
    p[at + 1] := Low(v >> 8);
    p[at] := Low(v);
  }

  // A buffer filled item by item, as a marshaller calls the store functions.
  method Store(k: Kind, v: bv64, p: array<Byte>, at: nat)
    requires at + Width(k) <= p.Length
    modifies p
    ensures Written(p[..], old(p[..]), at, Stored(k, v))
  {
    hide Low, Be16, Be32, Be64, Le16, Le32, Le64;
    match k
    case U8 => p[at] := Low(v);
    case U16Be => Store16Be(v, p, at);
    case U16Le => Store16Le(v, p, at);
    case U32Be => Store32Be(v, p, at);
    case U32Le => Store32Le(v, p, at);
    case U64Be => Store64Be(v, p, at);
    case U64Le => Store64Le(v, p, at);
  }
}
