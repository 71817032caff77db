/** The secure FAST cookie (section 5.2 of RFC 6113): state the KDC hands to a client in one error reply and
    gets back, encrypted in a key derived from its ticket-granting key, in the next request (fast_util.c). */
module Cookies {
  import opened KdcTypes
  import opened KeySearch

  type Byte = b: int | 0 <= b < 0x100

  datatype PaData = PaData(paType: int, contents: seq<Byte>)

  datatype SecureCookie = SecureCookie(time: int, data: seq<PaData>)

  /** The cryptography the cookie code calls.  `derive` is krb5_c_derive_prfplus over "COOKIE" and the client's
      name; `encrypt` and `decrypt` encode and decode the cookie as well, and `encrypt` takes its confounder. */
  datatype Suite = Suite(
    derive: (Key, Principal) -> Result<Key>,
    encrypt: (Key, SecureCookie, int) -> Result<seq<Byte>>,
    decrypt: (Key, seq<Byte>) -> Result<SecureCookie>)

  /** What is assumed of a suite: a ciphertext has some length and its own key decrypts it. */
  ghost predicate Inverts(suite: Suite) {
    forall k: Key, c: SecureCookie, n: int :: suite.encrypt(k, c, n).Ok? ==>
      var ct := suite.encrypt(k, c, n).value; |ct| > 0 && suite.decrypt(k, ct) == Ok(c)
  }

  const PADATA_FX_COOKIE := 133
  const COOKIE_LIFETIME := 600
  const MIT: seq<Byte> := [0x4d, 0x49, 0x54]
  const MIT1: seq<Byte> := [0x4d, 0x49, 0x54, 0x31]

  function First(list: seq<PaData>, paType: int): (r: Option<PaData>) {
    if list == [] then None else if list[0].paType == paType then Some(list[0]) else First(list[1..], paType)
  }

  method FindPaData(list: seq<PaData>, paType: int) returns (r: Option<PaData>)
    ensures r == First(list, paType)
  {
    for i := 0 to |list|
      invariant First(list, paType) == First(list[i..], paType)
    {
      if list[i].paType == paType {
        return Some(list[i]);
      }
      assert list[i..][1..] == list[i + 1..];
    }
    assert list[|list|..] == [];
    r := None;
  }

  // The key version in a cookie: four bytes, most significant first.

  function KvnoBytes(kvno: nat): (s: seq<Byte>)
    ensures |s| == 4
  {
    [kvno / 0x100_0000 % 0x100, kvno / 0x1_0000 % 0x100, kvno / 0x100 % 0x100, kvno % 0x100]
  }

  /** The version as the key search reads it: a signed 32-bit integer. */
  function KvnoOf(s: seq<Byte>): (kvno: int)
    requires |s| == 4
  {
    var b3: int, b2: int, b1: int, b0: int := s[0], s[1], s[2], s[3];
    var v := 0x100_0000 * b3 + 0x1_0000 * b2 + 0x100 * b1 + b0;
    if v < 0x8000_0000 then v else v - 0x1_0000_0000
  }

  lemma KvnoReadsBack(kvno: nat)
    requires kvno < 0x8000_0000
    ensures KvnoOf(KvnoBytes(kvno)) == kvno
  {
    var high := kvno / 0x100;
    assert kvno / 0x1_0000 == high / 0x100 && kvno / 0x100_0000 == high / 0x100 / 0x100;
  }

  /** The number whose digits to base 256 are the bytes, the most significant first. */
  function Numeral(s: seq<Byte>): (n: nat) {
    if s == [] then 0
    else
      var last: int := s[|s| - 1];
      0x100 * Numeral(s[..|s| - 1]) + last
  }

  lemma NumeralOfFour(s: seq<Byte>)
    requires |s| == 4
    ensures var b3: int, b2: int, b1: int, b0: int := s[0], s[1], s[2], s[3];
            Numeral(s) == 0x100 * (0x100 * (0x100 * b3 + b2) + b1) + b0
  {
    assert s[..3][..2] == s[..2] && s[..2][..1] == s[..1] && s[..1][..0] == [];
    assert Numeral(s[..1]) == s[0] as int && Numeral(s[..2]) == 0x100 * Numeral(s[..1]) + s[1] as int;
    assert Numeral(s[..3]) == 0x100 * Numeral(s[..2]) + s[2] as int;
  }

  /** The version bytes are the big-endian numeral of the version, and are read as such, with a sign. */
  lemma {:induction false} KvnoBytesAre(kvno: nat, s: seq<Byte>)
    requires |s| == 4
    ensures kvno < 0x1_0000_0000 ==> Numeral(KvnoBytes(kvno)) == kvno
    ensures KvnoOf(s) == if s[0] < 0x80 then Numeral(s) else Numeral(s) - 0x1_0000_0000
  {
    NumeralOfFour(s);
    NumeralOfFour(KvnoBytes(kvno));
    hide Numeral;
    if kvno < 0x1_0000_0000 {
      var high := kvno / 0x100;
      assert kvno / 0x1_0000 == high / 0x100 && kvno / 0x100_0000 == high / 0x100 / 0x100;
    }
  }

  // The cookie key.

  datatype CookieKey = CookieKey(key: Key, kvno: nat)

  function KeyFor(suite: Suite, keys: seq<KeyData>, kvno: int, client: Principal): (r: Result<CookieKey>) {
    var found := FindKey(keys, kvno);
    if found.Err? then Err(found.code)
    else if found.value.key.Err? then Err(found.value.key.code)
    else
      var derived := suite.derive(found.value.key.value, client);
      if derived.Err? then Err(derived.code) else Ok(CookieKey(derived.value, found.value.kvno))
  }

  method GetCookieKey(suite: Suite, keys: seq<KeyData>, kvno: int, client: Principal)
    returns (r: Result<CookieKey>)
    ensures r == KeyFor(suite, keys, kvno, client)
  {
    var found := SearchEnctype(keys, kvno);
    if found.Err? {
      return Err(found.code);
    }
    if found.value.key.Err? {
      return Err(found.value.key.code);
    }
    var derived := suite.derive(found.value.key.value, client);
    r := if derived.Err? then Err(derived.code) else Ok(CookieKey(derived.value, found.value.kvno));
  }

  /** The key a cookie names by version is the one it was made in, before a rollover and after it, provided the
      version is not 0, which a cookie cannot tell from a request for the newest key. */
  lemma KeyAfterRollover(suite: Suite, newer: seq<KeyData>, keys: seq<KeyData>, client: Principal)
    requires forall i :: 0 <= i < |newer| ==> newer[i].kvno != MaxKvno(keys)
    requires newer == [] || MaxKvno(keys) >= 1
    requires KeyFor(suite, keys, 0, client).Ok?
    ensures var made := KeyFor(suite, keys, 0, client);
            made.value.kvno == MaxKvno(keys) && KeyFor(suite, newer + keys, made.value.kvno, client) == made
  {
    FindKeyIs(keys, 0);
    if newer == [] {
      assert newer + keys == keys;
    } else {
      FindKeyAfterRollover(newer, keys, MaxKvno(keys));
    }
  }

  // The values of a cookie.

  function Added(list: seq<PaData>, value: PaData): (r: seq<PaData>) {
    if First(list, value.paType).Some? then list else list + [value]
  }

  /** The cookie contents after a run of calls that set values. */
  function Collected(sets: seq<PaData>): (r: seq<PaData>) {
    if sets == [] then [] else Added(Collected(sets[..|sets| - 1]), sets[|sets| - 1])
  }

  lemma {:induction false} FirstOfConcat(a: seq<PaData>, b: seq<PaData>, t: int)
    ensures First(a + b, t) == if First(a, t).Some? then First(a, t) else First(b, t)
  {
    if a == [] {
      assert a + b == b;
    } else {
      assert (a + b)[1..] == a[1..] + b;
      FirstOfConcat(a[1..], b, t);
    }
  }

  /** Only the first value set for a type is kept. */
  lemma {:induction false} FirstSetIsKept(sets: seq<PaData>, t: int)
    ensures First(Collected(sets), t) == First(sets, t)
    ensures sets != [] ==> Collected(sets) != []
  {
    if sets != [] {
      var n := |sets| - 1;
      FirstSetIsKept(sets[..n], t);
      FirstSetIsKept(sets[..n], sets[n].paType);
      assert sets == sets[..n] + [sets[n]];
      FirstOfConcat(sets[..n], [sets[n]], t);
      FirstOfConcat(Collected(sets[..n]), [sets[n]], t);
      assert First([sets[n]], t) == if sets[n].paType == t then Some(sets[n]) else None by {
        assert [sets[n]][1..] == [];
      }
    }
  }

  // Making and reading.

  function Made(suite: Suite, contents: seq<PaData>, tgt: Option<DbEntry>, client: Principal, now: int,
                confounder: int): (r: Result<PaData>)
  {
    if contents == [] || tgt.None? then Ok(PaData(PADATA_FX_COOKIE, MIT))
    else
      var key := KeyFor(suite, tgt.value.keys, 0, client);
      if key.Err? then Err(key.code)
      else
        var sealed := suite.encrypt(key.value.key, SecureCookie(now, contents), confounder);
        if sealed.Err? then Err(sealed.code)
        else Ok(PaData(PADATA_FX_COOKIE, MIT1 + KvnoBytes(key.value.kvno) + sealed.value))
  }

  predicate IsSecure(pa: PaData) {
    |pa.contents| > 8 && pa.contents[..4] == MIT1
  }

  /** The cookie a request carries, if it decrypts for the client who sends it. */
  function Opened(suite: Suite, padata: seq<PaData>, keys: seq<KeyData>, client: Principal): (r: Option<SecureCookie>)
  {
    var pa := First(padata, PADATA_FX_COOKIE);
    if pa.None? || !IsSecure(pa.value) then None
    else
      var key := KeyFor(suite, keys, KvnoOf(pa.value.contents[4..8]), client);
      if key.Err? then None
      else
        var plain := suite.decrypt(key.value.key, pa.value.contents[8..]);
        if plain.Err? then None else Some(plain.value)
  }

  predicate Expired(cookie: SecureCookie, now: int) {
    now - COOKIE_LIFETIME > cookie.time
  }

  /** Some value of the cookie is of a type that the request has an element of. */
  predicate Relevant(data: seq<PaData>, padata: seq<PaData>) {
    exists i :: 0 <= i < |data| && First(padata, data[i].paType).Some?
  }

  // is_relevant
  method IsRelevant(data: seq<PaData>, padata: seq<PaData>) returns (relevant: bool)
    ensures relevant == Relevant(data, padata)
  {
    for i := 0 to |data|
      invariant forall j :: 0 <= j < i ==> First(padata, data[j].paType).None?
    {
      var pa := FindPaData(padata, data[i].paType);
      if pa.Some? {
        return true;
      }
    }
    relevant := false;
  }

  /** The code that reading a cookie is documented to return. */
  function DocumentedCode(suite: Suite, padata: seq<PaData>, keys: seq<KeyData>, client: Principal, now: int)
    : (code: int)
  {
    var cookie := Opened(suite, padata, keys, client);
    if cookie.Some? && Expired(cookie.value, now) && Relevant(cookie.value.data, padata)
    then KRB5KDC_ERR_PREAUTH_EXPIRED else 0
  }

  class RequestState {
    var inCookie: seq<PaData>
    var outCookie: seq<PaData>

    constructor ()
      ensures inCookie == [] && outCookie == []
    {
      inCookie, outCookie := [], [];
    }

    method SetCookie(paType: int, data: seq<Byte>)
      modifies `outCookie
      ensures outCookie == Added(old(outCookie), PaData(paType, data))
    {
      for count := 0 to |outCookie|
        invariant outCookie == old(outCookie)
        invariant First(outCookie, paType) == First(outCookie[count..], paType)
      {
        if outCookie[count].paType == paType {
          return;
        }
        assert outCookie[count..][1..] == outCookie[count + 1..];
      }
      assert outCookie[|outCookie|..] == [];
      outCookie := outCookie + [PaData(paType, data)];
    }

    method MakeCookie(suite: Suite, tgt: Option<DbEntry>, client: Principal, now: int, confounder: int)
      returns (r: Result<PaData>)
      ensures r == Made(suite, outCookie, tgt, client, now, confounder)
    {
      if outCookie == [] || tgt.None? {
        return Ok(PaData(PADATA_FX_COOKIE, MIT));
      }
      var key := GetCookieKey(suite, tgt.value.keys, 0, client);
      if key.Err? {
        return Err(key.code);
      }
      var sealed := suite.encrypt(key.value.key, SecureCookie(now, outCookie), confounder);
      if sealed.Err? {
        return Err(sealed.code);
      }
      r := Ok(PaData(PADATA_FX_COOKIE, MIT1 + KvnoBytes(key.value.kvno) + sealed.value));
    }

    /** Whatever goes wrong with the cookie, the request is not refused: the state is just left as it was.  That is the
        documented code exactly unless the cookie opens, has expired and is relevant. */
    method ReadCookie(suite: Suite, padata: seq<PaData>, keys: seq<KeyData>, client: Principal, now: int)
      returns (code: int)
      modifies `inCookie
      ensures code == 0
      ensures var cookie := Opened(suite, padata, keys, client);
              && (inCookie == if cookie.Some? && !Expired(cookie.value, now) then cookie.value.data else old(inCookie))
              && (code == DocumentedCode(suite, padata, keys, client, now) <==>
                  !(cookie.Some? && Expired(cookie.value, now) && Relevant(cookie.value.data, padata)))
    {
      var ret := 0;
      code := 0;
      var pa := FindPaData(padata, PADATA_FX_COOKIE);
      if pa.None? {
        return;
      }
      var contents := pa.value.contents;
      if |contents| <= 8 || contents[..4] != MIT1 {
        return;
      }
      var key := GetCookieKey(suite, keys, KvnoOf(contents[4..8]), client);
      if key.Err? {
        return;
      }
      var plain := suite.decrypt(key.value.key, contents[8..]);
      if plain.Err? {
        return;
      }
      if now - COOKIE_LIFETIME > plain.value.time {
        var relevant := IsRelevant(plain.value.data, padata);
        if relevant {
          ret := KRB5KDC_ERR_PREAUTH_EXPIRED; // dropped on return
        }
        return;
      }
      inCookie := plain.value.data;
    }

    method SearchCookie(paType: int) returns (found: bool, out: seq<Byte>)
      ensures found <==> First(inCookie, paType).Some?
      ensures out == if found then First(inCookie, paType).value.contents else []
    {
      var pa := FindPaData(inCookie, paType);
      found := pa.Some?;
      out := if found then pa.value.contents else [];
    }
  }

  /** The cookie `pa`, made of `cookie` when the ticket-granting keys were `keys`, names a version, or else the
      newest of the keys `all` decrypts it to what it was made of. */
  predicate Legible(
    suite: Suite, pa: PaData, cookie: SecureCookie, keys: seq<KeyData>, all: seq<KeyData>, client: Principal)
  {
    || MaxKvno(keys) >= 1
    || (var newest := KeyFor(suite, all, 0, client);
        newest.Ok? && |pa.contents| >= 8 && suite.decrypt(newest.value.key, pa.contents[8..]) == Ok(cookie))
  }

  lemma MadeBytes(suite: Suite, contents: seq<PaData>, tgt: DbEntry, client: Principal, now: int, confounder: int)
    requires contents != [] && Made(suite, contents, Some(tgt), client, now, confounder).Ok?
    requires MaxKvno(tgt.keys) < 0x1_0000
    ensures var bytes := Made(suite, contents, Some(tgt), client, now, confounder).value.contents;
            var key := KeyFor(suite, tgt.keys, 0, client);
            && key.Ok? && key.value.kvno == MaxKvno(tgt.keys)
            && |bytes| >= 8 && bytes[..4] == MIT1 && KvnoOf(bytes[4..8]) == key.value.kvno
            && suite.encrypt(key.value.key, SecureCookie(now, contents), confounder) == Ok(bytes[8..])
  {
    FindKeyIs(tgt.keys, 0);
    hide MaxKvno, FindKey;
    var key := KeyFor(suite, tgt.keys, 0, client).value;
    var sealed := suite.encrypt(key.key, SecureCookie(now, contents), confounder).value;
    var bytes := Made(suite, contents, Some(tgt), client, now, confounder).value.contents;
    KvnoReadsBack(key.kvno);
    assert bytes == MIT1 + KvnoBytes(key.kvno) + sealed;
    assert bytes[..4] == MIT1;
    assert bytes[4..8] == KvnoBytes(key.kvno);
    assert bytes[8..] == sealed;
  }

  /** A made cookie opens for its own client to exactly the values and the time it was made with, also after keys
      of other versions have been added, if and only if its own version is at least 1 or the newest key happens to
      decrypt it to them. */
  lemma MadeCookieOpens(suite: Suite, contents: seq<PaData>, tgt: DbEntry, newer: seq<KeyData>, client: Principal,
                        now: int, confounder: int, padata: seq<PaData>)
    requires Inverts(suite)
    requires contents != [] && Made(suite, contents, Some(tgt), client, now, confounder).Ok?
    requires MaxKvno(tgt.keys) < 0x1_0000
    requires forall i :: 0 <= i < |newer| ==> newer[i].kvno != MaxKvno(tgt.keys)
    requires First(padata, PADATA_FX_COOKIE) == Some(Made(suite, contents, Some(tgt), client, now, confounder).value)
    ensures var made := Made(suite, contents, Some(tgt), client, now, confounder).value;
            Opened(suite, padata, newer + tgt.keys, client) == Some(SecureCookie(now, contents)) <==>
            Legible(suite, made, SecureCookie(now, contents), tgt.keys, newer + tgt.keys, client)
    ensures newer == [] ==> Opened(suite, padata, newer + tgt.keys, client) == Some(SecureCookie(now, contents))
  {
    MadeBytes(suite, contents, tgt, client, now, confounder);
    if newer == [] || MaxKvno(tgt.keys) >= 1 {
      KeyAfterRollover(suite, newer, tgt.keys, client);
    }
    if newer == [] {
      assert newer + tgt.keys == tgt.keys;
    }
    hide MaxKvno, FindKey, KeyFor, Made, KvnoOf, First;
  }

  /** With nothing to keep, or no ticket-granting key to keep it under, the cookie is the trivial one: three bytes,
      which hold nothing. */
  lemma TrivialCookie(suite: Suite, contents: seq<PaData>, tgt: Option<DbEntry>, client: Principal, now: int,
                      confounder: int, keys: seq<KeyData>, reader: Principal)
    requires contents == [] || tgt.None?
    ensures var made := Made(suite, contents, tgt, client, now, confounder);
            && made == Ok(PaData(133, [0x4d, 0x49, 0x54])) && Opened(suite, [made.value], keys, reader) == None
  {
  }

  /** A suite that keeps clients apart: the keys derived for two of them differ, and a ciphertext opens under its
      own key only. */
  ghost predicate Separates(suite: Suite) {
    && (forall k: Key, k': Key, p: Principal, p': Principal :: suite.derive(k, p).Ok? && p != p' ==>
          suite.derive(k, p) != suite.derive(k', p'))
    && (forall k: Key, k': Key, c: SecureCookie, n: int :: suite.encrypt(k, c, n).Ok? && k != k' ==>
          suite.decrypt(k', suite.encrypt(k, c, n).value).Err?)
  }

  /** With such a suite a cookie made for one client opens for no other, whatever the keys. */
  lemma MadeForOneClient(
    suite: Suite, contents: seq<PaData>, tgt: DbEntry, client: Principal, now: int, confounder: int,
    padata: seq<PaData>, keys: seq<KeyData>, other: Principal)
    requires Separates(suite) && other != client && MaxKvno(tgt.keys) < 0x1_0000
    requires contents != [] && Made(suite, contents, Some(tgt), client, now, confounder).Ok?
    requires First(padata, PADATA_FX_COOKIE) == Some(Made(suite, contents, Some(tgt), client, now, confounder).value)
    ensures Opened(suite, padata, keys, other) == None
  {
    MadeBytes(suite, contents, tgt, client, now, confounder);
    hide MaxKvno, FindKey, Made, KvnoOf, First;
  }

  /** A cookie that comes back after its lifetime, beside an element of a type that was set, is one whose documented
      code is not the one returned. */
  lemma LateCookieIsNotReported(
    suite: Suite, sets: seq<PaData>, tgt: DbEntry, client: Principal, now: int, later: int, confounder: int, pa: PaData)
    requires Inverts(suite) && MaxKvno(tgt.keys) < 0x1_0000 && later > now + COOKIE_LIFETIME
    requires First(sets, pa.paType).Some? && pa.paType != PADATA_FX_COOKIE
    requires Made(suite, Collected(sets), Some(tgt), client, now, confounder).Ok?
    ensures var cookie := Made(suite, Collected(sets), Some(tgt), client, now, confounder).value;
            DocumentedCode(suite, [cookie, pa], tgt.keys, client, later) == KRB5KDC_ERR_PREAUTH_EXPIRED
  {
    hide MaxKvno, FindKey, KeyFor, Inverts;
    var contents := Collected(sets);
    FirstSetIsKept(sets, pa.paType);
    var padata := [Made(suite, contents, Some(tgt), client, now, confounder).value, pa];
    assert [] + tgt.keys == tgt.keys;
    MadeCookieOpens(suite, contents, tgt, [], client, now, confounder, padata);
    hide Opened, Made, Collected;
    FirstAt(contents, pa.paType);
    assert padata[1..] == [pa];
    assert First(padata, pa.paType) == Some(pa);
  }

  lemma {:induction false} FirstAt(list: seq<PaData>, t: int)
    requires First(list, t).Some?
    ensures exists i :: 0 <= i < |list| && list[i].paType == t
  {
    if list[0].paType != t {
      FirstAt(list[1..], t);
      var i :| 0 <= i < |list[1..]| && list[1..][i].paType == t;
      assert list[i + 1].paType == t;
    }
  }

  /** One round trip through the client: the values a KDC set while answering one request are what its modules find
      in the next one, if and only if that comes within the cookie's lifetime. */
  method CookieExchange(suite: Suite, sets: seq<PaData>, tgt: DbEntry, newer: seq<KeyData>, client: Principal,
                        now: int, later: int, confounder: int, paType: int)
    returns (made: Result<PaData>, found: bool, out: seq<Byte>)
    requires Inverts(suite)
    requires MaxKvno(tgt.keys) < 0x1_0000
    requires forall i :: 0 <= i < |newer| ==> newer[i].kvno != MaxKvno(tgt.keys)
    ensures made == Made(suite, Collected(sets), Some(tgt), client, now, confounder)
    ensures made.Ok? &&
            (sets == [] ||
             Legible(suite, made.value, SecureCookie(now, Collected(sets)), tgt.keys, newer + tgt.keys, client)) ==>
              && (found <==> First(sets, paType).Some? && later <= now + COOKIE_LIFETIME)
              && (found ==> out == First(sets, paType).value.contents)
  {
    var first := new RequestState();
    for i := 0 to |sets|
      invariant first.outCookie == Collected(sets[..i])
    {
      first.SetCookie(sets[i].paType, sets[i].contents);
      assert sets[..i + 1][..i] == sets[..i];
    }
    assert sets[..|sets|] == sets;
    made := first.MakeCookie(suite, Some(tgt), client, now, confounder);
    if made.Err? {
      return made, false, [];
    }
    var next := new RequestState();
    var padata := [made.value];
    var _ := next.ReadCookie(suite, padata, newer + tgt.keys, client, later);
    FirstSetIsKept(sets, paType);
    if sets != [] {
      MadeCookieOpens(suite, Collected(sets), tgt, newer, client, now, confounder, padata);
    }
    found, out := next.SearchCookie(paType);
  }

  /** With key version 0 the cookie names whatever key is newest when it comes back. */
  lemma VersionZeroNamesTheNewest(suite: Suite, all: seq<KeyData>, client: Principal)
    ensures KvnoOf(KvnoBytes(0)) == 0
    ensures KeyFor(suite, all, 0, client) == KeyFor(suite, all, MaxKvno(all), client)
  {
    KvnoReadsBack(0);
    assert Version(all, 0) == Version(all, MaxKvno(all));
  }

  /** So the round trip is lost when the first key of version 1 or more arrives in between. */
  lemma LostAtVersionZero(suite: Suite, contents: seq<PaData>, tgt: DbEntry, newer: seq<KeyData>, client: Principal,
                          now: int, confounder: int, padata: seq<PaData>, newest: Key)
    requires contents != [] && Made(suite, contents, Some(tgt), client, now, confounder).Ok?
    requires MaxKvno(tgt.keys) == 0
    requires First(padata, PADATA_FX_COOKIE) == Some(Made(suite, contents, Some(tgt), client, now, confounder).value)
    requires KeyFor(suite, newer + tgt.keys, MaxKvno(newer + tgt.keys), client)
          == Ok(CookieKey(newest, MaxKvno(newer + tgt.keys)))
    requires suite.decrypt(
               newest, Made(suite, contents, Some(tgt), client, now, confounder).value.contents[8..]).Err?
    ensures Opened(suite, padata, newer + tgt.keys, client) == None
  {
    FindKeyIs(tgt.keys, 0);
    VersionZeroNamesTheNewest(suite, newer + tgt.keys, client);
    var key := KeyFor(suite, tgt.keys, 0, client).value;
    var sealed := suite.encrypt(key.key, SecureCookie(now, contents), confounder).value;
    var bytes := Made(suite, contents, Some(tgt), client, now, confounder).value.contents;
    assert bytes == MIT1 + KvnoBytes(key.kvno) + sealed;
    assert bytes[4..8] == KvnoBytes(0);
  }
}
