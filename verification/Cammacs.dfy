/** CAMMAC containers and the authentication indicators they carry (cammac.c, authind.c, and
    get_auth_indicators in kdc_authdata.c).  CAMMAC is section 4 of RFC 7751. */
module Cammacs {
  import opened KdcTypes
  import opened KeySearch
  import opened AuthdataLists

  /** The ticket with `contents` in place of its authorization data: what a KDC verifier covers. */
  function KdcverEncpart(tkt: EncTktPart, contents: seq<AuthData>): (d: Signable) {
    EncTktDer(tkt.(authdata := contents))
  }

  function Container(adType: int, contents: Contents): (ad: AuthData) {
    AuthData(AD_IF_RELEVANT, ElementsDer([AuthData(adType, contents)]))
  }

  // cammac_create
  function CammacCreate(tkt: EncTktPart, serverKey: Key, krbtgt: seq<KeyData>, contents: seq<AuthData>)
    : (r: Result<seq<AuthData>>)
  {
    var found := FindKey(krbtgt, 0);
    if found.Err? then Err(found.code)
    else if found.value.key.Err? then Err(found.value.key.code)
    else
      var kd, tgtkey := found.value, found.value.key.value;
      var kdcCksum := MakeChecksum(tgtkey, KEYUSAGE_CAMMAC, KdcverEncpart(tkt, contents));
      if kdcCksum.Err? then Err(kdcCksum.code)
      else
        var svcCksum := MakeChecksum(serverKey, KEYUSAGE_CAMMAC, AuthdataDer(contents));
        if svcCksum.Err? then Err(svcCksum.code)
        else
          var cammac := Cammac(contents,
                               Some(VerifierMac(kd.kvno, 0, kdcCksum.value)),
                               Some(VerifierMac(0, 0, svcCksum.value)));
          Ok([Container(AD_CAMMAC, CammacDer(cammac))])
  }

  // cammac_check_kdcver
  predicate CheckKdcver(cammac: Cammac, tkt: EncTktPart, krbtgt: seq<KeyData>) {
    && cammac.kdcVerifier.Some?
    && var ver := cammac.kdcVerifier.value;
    && var found := FindKey(krbtgt, ver.kvno);
    && found.Ok? && found.value.key.Ok?
    && var tgtkey := found.value.key.value;
    && (ver.enctype == 0 || tgtkey.enctype == ver.enctype)
    && VerifyChecksum(tgtkey, KEYUSAGE_CAMMAC, KdcverEncpart(tkt, cammac.elements), ver.checksum) == Ok(true)
  }

  // cammac_check_svcver
  predicate CheckSvcver(cammac: Cammac, serverKey: Key) {
    && cammac.svcVerifier.Some?
    && VerifyChecksum(serverKey, KEYUSAGE_CAMMAC, AuthdataDer(cammac.elements),
                      cammac.svcVerifier.value.checksum) == Ok(true)
  }

  /** `krbtgt'` still gives, for the version that is highest in `krbtgt`, the key that `krbtgt` gives. */
  predicate Retains(krbtgt: seq<KeyData>, krbtgt': seq<KeyData>) {
    && FindKey(krbtgt, 0).Ok? && FindKey(krbtgt, 0).value.kvno >= 1
    && FindKey(krbtgt', FindKey(krbtgt, 0).value.kvno) == FindKey(krbtgt, 0)
  }

  /** A CAMMAC made for one ticket verifies for another exactly when the two agree on everything but their
      authorization data, as long as the TGT entry retains the key; it verifies for its service key alone. */
  lemma CammacVerifies(
    tkt: EncTktPart, tkt': EncTktPart, serverKey: Key, serverKey': Key, krbtgt: seq<KeyData>, krbtgt': seq<KeyData>,
    contents: seq<AuthData>)
    requires CammacCreate(tkt, serverKey, krbtgt, contents).Ok? && Retains(krbtgt, krbtgt')
    ensures var list := CammacCreate(tkt, serverKey, krbtgt, contents).value;
            && |list| == 1 && list[0].adType == AD_IF_RELEVANT && list[0].contents.ElementsDer?
            && |list[0].contents.elements| == 1
            && var ad := list[0].contents.elements[0];
            && ad.adType == AD_CAMMAC && ad.contents.CammacDer? && ad.contents.cammac.elements == contents
            && (CheckKdcver(ad.contents.cammac, tkt', krbtgt') <==> tkt'.(authdata := []) == tkt.(authdata := []))
            && (CheckSvcver(ad.contents.cammac, serverKey') <==> serverKey' == serverKey)
  {
    assert tkt'.(authdata := contents) == tkt.(authdata := contents)
      <==> tkt'.(authdata := []) == tkt.(authdata := []) by {
      assert tkt'.(authdata := []) == tkt'.(authdata := contents).(authdata := []);
      assert tkt'.(authdata := contents) == tkt'.(authdata := []).(authdata := contents);
    }
  }

  /** A KDC verifier that is accepted was made under a key of the entry, for this very ticket with the CAMMAC's own
      elements in it: nothing of either can have been changed since. */
  lemma VerifierCovers(cammac: Cammac, tkt: EncTktPart, krbtgt: seq<KeyData>)
    requires CheckKdcver(cammac, tkt, krbtgt)
    ensures cammac.kdcVerifier.Some? && cammac.kdcVerifier.value.checksum.Mac?
    ensures var c := cammac.kdcVerifier.value.checksum;
            && HoldsKey(krbtgt, c.key) && c.usage == KEYUSAGE_CAMMAC
            && c.over == EncTktDer(tkt.(authdata := cammac.elements))
  {
    hide FindKey;
    FoundIsHeld(krbtgt, cammac.kdcVerifier.value.kvno);
  }

  /** When a verifier is accepted: the KDC's by the key of the version it names, if that is of the enctype it names, and
      the service's by its key. */
  lemma {:induction false} AcceptedExactly(cammac: Cammac, tkt: EncTktPart, krbtgt: seq<KeyData>, serverKey: Key)
    ensures CheckKdcver(cammac, tkt, krbtgt) <==>
            && cammac.kdcVerifier.Some?
            && var ver := cammac.kdcVerifier.value; var found := FindKey(krbtgt, ver.kvno);
            && found.Ok? && found.value.key.Ok?
            && ver.checksum == Mac(found.value.key.value, KEYUSAGE_CAMMAC, EncTktDer(tkt.(authdata := cammac.elements)))
            && (ver.enctype != 0 ==> ver.enctype == found.value.key.value.enctype)
    ensures CheckSvcver(cammac, serverKey) <==>
            && cammac.svcVerifier.Some?
            && cammac.svcVerifier.value.checksum == Mac(serverKey, KEYUSAGE_CAMMAC, AuthdataDer(cammac.elements))
  {
    hide FindKey;
  }

  /** So whoever rewrites the elements of a CAMMAC loses its KDC verifier, on every ticket and for every entry; and its
      service verifier, for every key. */
  lemma RewrittenElementsFail(
    tkt: EncTktPart, serverKey: Key, krbtgt: seq<KeyData>, contents: seq<AuthData>, forged: seq<AuthData>,
    tkt': EncTktPart, krbtgt': seq<KeyData>, serverKey': Key)
    requires CammacCreate(tkt, serverKey, krbtgt, contents).Ok? && forged != contents
    ensures var c := CammacCreate(tkt, serverKey, krbtgt, contents).value[0].contents.elements[0].contents.cammac;
            && !CheckKdcver(c.(elements := forged), tkt', krbtgt')
            && !CheckSvcver(c.(elements := forged), serverKey')
  {
    hide FindKey;
    var c := CammacCreate(tkt, serverKey, krbtgt, contents).value[0].contents.elements[0].contents.cammac;
    assert c.kdcVerifier.value.checksum.over.tkt.authdata == contents;
    if CheckKdcver(c.(elements := forged), tkt', krbtgt') {
      VerifierCovers(c.(elements := forged), tkt', krbtgt');
      assert false;
    }
  }

  // authind_contains
  method AuthindContains(indicators: seq<string>, ind: string) returns (found: bool)
    ensures found <==> ind in indicators
  {
    for i := 0 to |indicators|
      invariant ind !in indicators[..i]
    {
      if indicators[i] == ind {
        return true;
      }
    }
    return false;
  }

  class IndicatorList {
    var items: seq<string>

    constructor ()
      ensures items == []
    {
      items := [];
    }

    ghost predicate NoDuplicates()
      reads this
    {
      forall i, j :: 0 <= i < j < |items| ==> items[i] != items[j]
    }

    // authind_add
    method Add(ind: string)
      modifies this
      ensures items == if ind in old(items) then old(items) else old(items) + [ind]
      ensures old(NoDuplicates()) ==> NoDuplicates()
    {
      var count := 0;
      while count < |items|
        invariant 0 <= count <= |items| && items == old(items)
        invariant ind !in items[..count]
      {
        if items[count] == ind {
          return;
        }
        count := count + 1;
      }
      items := items + [ind];
    }

    // authind_extract.  On failure too, the strings of the elements that decode have been appended, if the search
    // succeeded.
    method Extract(authdata: seq<AuthData>) returns (ret: int)
      modifies this
      ensures ret == 0 <==> Extracted(authdata).Ok?
      ensures Extracted(authdata).Err? ==> ret == Extracted(authdata).code
      ensures items == old(items) + if FindAuthdata(authdata, AD_AUTH_INDICATOR).Ok?
                                    then Strings(Leaves(authdata, AD_AUTH_INDICATOR)) else []
      ensures Extracted(authdata).Ok? ==> items == old(items) + Extracted(authdata).value
    {
      FindAuthdataIs(authdata, AD_AUTH_INDICATOR);
      var r := FindAuthdata(authdata, AD_AUTH_INDICATOR);
      if r.Err? {
        return r.code;
      }
      var inds := r.value;
      ret := 0;
      for i := 0 to |inds|
        invariant items == old(items) + Strings(inds[..i])
        invariant ret == if i == 0 || inds[i - 1].contents.StringsDer? then 0 else ASN1_PARSE_ERROR
      {
        assert inds[..i + 1][..i] == inds[..i];
        if inds[i].contents.StringsDer? {
          ret := 0;
          items := items + inds[i].contents.strings;
        } else {
          ret := ASN1_PARSE_ERROR;
        }
      }
      assert inds[..|inds|] == inds;
    }

    // get_auth_indicators, with this list empty at the start
    method GetAuthIndicators(tkt: EncTktPart, krbtgt: seq<KeyData>) returns (ret: int)
      requires items == []
      modifies this
      ensures AuthIndicators(tkt, krbtgt).Ok? <==> ret == 0
      ensures AuthIndicators(tkt, krbtgt).Ok? ==> items == AuthIndicators(tkt, krbtgt).value
      ensures AuthIndicators(tkt, krbtgt).Err? ==> ret == AuthIndicators(tkt, krbtgt).code
    {
      FindAuthdataIs(tkt.authdata, AD_CAMMAC);
      var r := FindAuthdata(tkt.authdata, AD_CAMMAC);
      if r.Err? {
        return r.code;
      }
      var cammacs := r.value;
      for i := 0 to |cammacs|
        invariant Gathered(cammacs[..i], tkt, krbtgt) == Ok(items)
      {
        GatheredConcat(cammacs[..i], [cammacs[i]], tkt, krbtgt);
        GatheredConcat(cammacs[..i + 1], cammacs[i + 1..], tkt, krbtgt);
        assert cammacs[..i] + [cammacs[i]] == cammacs[..i + 1] && cammacs[..i + 1] + cammacs[i + 1..] == cammacs;
        GatheredOne(cammacs[i], tkt, krbtgt);
        assert items + [] == items;
        if !cammacs[i].contents.CammacDer? {
          return ASN1_PARSE_ERROR;
        }
        var cammac := cammacs[i].contents.cammac;
        if CheckKdcver(cammac, tkt, krbtgt) {
          var code := Extract(cammac.elements);
          if code != 0 {
            return code;
          }
        }
      }
      assert cammacs[..|cammacs|] == cammacs;
      ret := 0;
    }
  }

  /** The strings of the elements that decode, in order. */
  function Strings(inds: seq<AuthData>): (r: seq<string>) {
    if inds == [] then []
    else
      var n := |inds| - 1;
      Strings(inds[..n]) + if inds[n].contents.StringsDer? then inds[n].contents.strings else []
  }

  function Extracted(authdata: seq<AuthData>): (r: Result<seq<string>>)
    ensures r.Err? ==> r.code != 0
  {
    FindAuthdataIs(authdata, AD_AUTH_INDICATOR);
    var found := FindAuthdata(authdata, AD_AUTH_INDICATOR);
    if found.Err? then Err(found.code)
    else if found.value != [] && !found.value[|found.value| - 1].contents.StringsDer? then Err(ASN1_PARSE_ERROR)
    else Ok(Strings(found.value))
  }

  predicate GoodIndicator(ad: AuthData) {
    ad.contents.StringsDer?
  }

  /** Extraction succeeds if and only if every container decodes, at most 256 indicator elements are found, and the last
      of them decodes; malformed elements ahead of it are passed over. */
  lemma ExtractedExactly(ads: seq<AuthData>)
    ensures var leaves := Leaves(ads, AD_AUTH_INDICATOR);
            && (Extracted(ads).Ok? <==>
                && Decodes(ads) && |leaves| <= 256
                && (leaves == [] || GoodIndicator(leaves[|leaves| - 1])))
            && (Extracted(ads).Ok? ==> Extracted(ads).value == Strings(leaves))
  {
    FindAuthdataIs(ads, AD_AUTH_INDICATOR);
  }

  const GOOD := AuthData(AD_AUTH_INDICATOR, StringsDer(["otp"]))
  const BAD := AuthData(AD_AUTH_INDICATOR, Octets(""))

  lemma TwoIndicators(a: AuthData, b: AuthData)
    requires a.adType == b.adType == AD_AUTH_INDICATOR
    ensures Leaves([a, b], AD_AUTH_INDICATOR) == [a, b] && Decodes([a, b])
    ensures Strings([a, b]) == (if GoodIndicator(a) then a.contents.strings else [])
                             + (if GoodIndicator(b) then b.contents.strings else [])
  {
    OneIndicator(a);
    OneIndicator(b);
    LeavesConcat([a], [b], AD_AUTH_INDICATOR);
    hide Leaves, Decodes;
    assert [a, b] == [a] + [b] && [a, b][..1] == [a];
  }

  lemma OneIndicator(a: AuthData)
    requires a.adType == AD_AUTH_INDICATOR
    ensures Leaves([a], AD_AUTH_INDICATOR) == [a] && Decodes([a])
    ensures Strings([a]) == if GoodIndicator(a) then a.contents.strings else []
  {
    assert [a][1..] == [] && [a][..0] == [] && DecodesIn(a);
    var first := if GoodIndicator(a) then a.contents.strings else [];
    assert [] + first == first;
  }

  /** So the order of a good and a malformed element decides. */
  lemma OrderDecides()
    ensures Extracted([GOOD, BAD]) == Err(ASN1_PARSE_ERROR) && Extracted([BAD, GOOD]) == Ok(["otp"])
  {
    hide Leaves, Strings, Decodes;
    TwoIndicators(GOOD, BAD);
    TwoIndicators(BAD, GOOD);
    FindAuthdataIs([GOOD, BAD], AD_AUTH_INDICATOR);
    FindAuthdataIs([BAD, GOOD], AD_AUTH_INDICATOR);
    assert [] + ["otp"] == ["otp"];
  }

  /** What one CAMMAC contributes: nothing unless its KDC verifier is valid for the ticket. */
  function Contribution(ad: AuthData, tkt: EncTktPart, krbtgt: seq<KeyData>): (r: Result<seq<string>>)
    ensures r.Err? ==> r.code != 0
  {
    if !ad.contents.CammacDer? then Err(ASN1_PARSE_ERROR)
    else if CheckKdcver(ad.contents.cammac, tkt, krbtgt) then Extracted(ad.contents.cammac.elements)
    else Ok([])
  }

  function Then(a: Result<seq<string>>, b: Result<seq<string>>): (r: Result<seq<string>>) {
    if a.Err? then a else if b.Err? then b else Ok(a.value + b.value)
  }

  function Gathered(cammacs: seq<AuthData>, tkt: EncTktPart, krbtgt: seq<KeyData>): (r: Result<seq<string>>)
    ensures r.Err? ==> r.code != 0
  {
    if cammacs == [] then Ok([])
    else Then(Contribution(cammacs[0], tkt, krbtgt), Gathered(cammacs[1..], tkt, krbtgt))
  }

  lemma {:induction false} GatheredConcat(
    a: seq<AuthData>, b: seq<AuthData>, tkt: EncTktPart, krbtgt: seq<KeyData>)
    ensures Gathered(a + b, tkt, krbtgt) == Then(Gathered(a, tkt, krbtgt), Gathered(b, tkt, krbtgt))
  {
    if a == [] {
      var r := Gathered(b, tkt, krbtgt);
      assert a + b == b && (r.Ok? ==> [] + r.value == r.value);
    } else {
      assert (a + b)[1..] == a[1..] + b;
      GatheredConcat(a[1..], b, tkt, krbtgt);
      ThenAssociates(Contribution(a[0], tkt, krbtgt), Gathered(a[1..], tkt, krbtgt), Gathered(b, tkt, krbtgt));
    }
  }

  lemma ThenAssociates(a: Result<seq<string>>, b: Result<seq<string>>, c: Result<seq<string>>)
    ensures Then(Then(a, b), c) == Then(a, Then(b, c))
  {
    if a.Ok? && b.Ok? && c.Ok? {
      assert a.value + b.value + c.value == a.value + (b.value + c.value);
    }
  }

  lemma GatheredOne(ad: AuthData, tkt: EncTktPart, krbtgt: seq<KeyData>)
    ensures Gathered([ad], tkt, krbtgt) == Contribution(ad, tkt, krbtgt)
  {
    var c := Contribution(ad, tkt, krbtgt);
    assert c.Ok? ==> c.value + [] == c.value;
  }

  /** The indicators a ticket vouches for. */
  function AuthIndicators(tkt: EncTktPart, krbtgt: seq<KeyData>): (r: Result<seq<string>>)
    ensures r.Err? ==> r.code != 0
  {
    FindAuthdataIs(tkt.authdata, AD_CAMMAC);
    var found := FindAuthdata(tkt.authdata, AD_CAMMAC);
    if found.Err? then Err(found.code) else Gathered(found.value, tkt, krbtgt)
  }
}
