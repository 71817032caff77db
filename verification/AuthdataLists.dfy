/** Classifying, filtering and searching authorization-data lists (the first part of kdc_authdata.c, and
    krb5_find_authdata).  A NULL list and an empty list are both `[]`. */
module AuthdataLists {
  import opened KdcTypes

  // The types only the KDC may issue.
  const KDC_TYPES := {AD_SIGNTICKET, AD_KDC_ISSUED, AD_WIN2K_PAC, AD_CAMMAC, AD_AUTH_INDICATOR}

  predicate Reserved(adType: int, desired: int) {
    adType in KDC_TYPES && (desired == 0 || desired == adType)
  }

  /** Whether `ad` is reserved to the KDC, at the top level or one IF-RELEVANT container deep.  A container
      that does not decode is not. */
  predicate KdcIssued(ad: AuthData, desired: int) {
    if ad.adType == AD_IF_RELEVANT
    then ad.contents.ElementsDer? &&
         exists i :: 0 <= i < |ad.contents.elements| && Reserved(ad.contents.elements[i].adType, desired)
    else Reserved(ad.adType, desired)
  }

  // is_kdc_issued_authdatum
  method IsKdcIssuedAuthdatum(ad: AuthData, desired: int) returns (result: bool)
    ensures result == KdcIssued(ad, desired)
  {
    result := false;
    var adTypes := [ad.adType];
    if ad.adType == AD_IF_RELEVANT {
      if !ad.contents.ElementsDer? {
        return;
      }
      adTypes := seq(|ad.contents.elements|,
                     i requires 0 <= i < |ad.contents.elements| => ad.contents.elements[i].adType);
    }
    var i := 0;
    while i < |adTypes|
      invariant 0 <= i <= |adTypes| && !result
      invariant forall j :: 0 <= j < i ==> !Reserved(adTypes[j], desired)
    {
      if adTypes[i] in KDC_TYPES {
        result := if desired != 0 then desired == adTypes[i] else true;
      } else {
        result := false;
      }
      if result {
        assert Reserved(adTypes[i], desired);
        return;
      }
      i := i + 1;
    }
    assert ad.adType != AD_IF_RELEVANT ==> !Reserved(adTypes[0], desired);
    assert ad.adType == AD_IF_RELEVANT ==>
             forall j :: 0 <= j < |adTypes| ==> ad.contents.elements[j].adType == adTypes[j];
  }

  predicate HasKdcIssued(ads: seq<AuthData>, desired: int) {
    exists i :: 0 <= i < |ads| && KdcIssued(ads[i], desired)
  }

  predicate HasMandatory(ads: seq<AuthData>) {
    exists i :: 0 <= i < |ads| && ads[i].adType == AD_MANDATORY_FOR_KDC
  }

  // has_mandatory_for_kdc_authdata
  method HasMandatoryForKdcAuthdata(ads: seq<AuthData>) returns (found: bool)
    ensures found == HasMandatory(ads)
  {
    for i := 0 to |ads|
      invariant forall j :: 0 <= j < i ==> ads[j].adType != AD_MANDATORY_FOR_KDC
    {
      if ads[i].adType == AD_MANDATORY_FOR_KDC {
        return true;
      }
    }
    return false;
  }

  /** The elements not reserved to the KDC (or, for a nonzero `desired`, not of that type), in order. */
  function Without(ads: seq<AuthData>, desired: int): (r: seq<AuthData>) {
    if ads == [] then []
    else
      var n := |ads| - 1;
      Without(ads[..n], desired) + if KdcIssued(ads[n], desired) then [] else [ads[n]]
  }

  lemma {:induction false} WithoutKeeps(ads: seq<AuthData>, desired: int)
    ensures !HasKdcIssued(Without(ads, desired), desired)
    ensures forall ad :: ad in Without(ads, desired) <==> ad in ads && !KdcIssued(ad, desired)
  {
    if ads != [] {
      var n := |ads| - 1;
      WithoutKeeps(ads[..n], desired);
      assert forall ad :: ad in ads <==> ad in ads[..n] || ad == ads[n];
    }
  }

  lemma {:induction false} WithoutConcat(a: seq<AuthData>, b: seq<AuthData>, desired: int)
    ensures Without(a + b, desired) == Without(a, desired) + Without(b, desired)
  {
    if b == [] {
      assert a + b == a;
    } else {
      var n := |b| - 1;
      assert (a + b)[..|a + b| - 1] == a + b[..n];
      WithoutConcat(a, b[..n], desired);
    }
  }

  // The filtering copy loop of merge_authdata and of make_signedpath_data.
  method CopyWithout(ads: seq<AuthData>, desired: int) returns (r: seq<AuthData>)
    ensures r == Without(ads, desired)
  {
    r := [];
    for i := 0 to |ads|
      invariant r == Without(ads[..i], desired)
    {
      assert ads[..i + 1][..i] == ads[..i];
      var issued := IsKdcIssuedAuthdatum(ads[i], desired);
      if !issued {
        r := r + [ads[i]];
      }
    }
    assert ads[..|ads|] == ads;
  }

  /** Every IF-RELEVANT container decodes, at every depth. */
  predicate Decodes(ads: seq<AuthData>) {
    forall i :: 0 <= i < |ads| ==> DecodesIn(ads[i])
  }

  predicate DecodesIn(ad: AuthData) {
    ad.adType == AD_IF_RELEVANT ==> ad.contents.ElementsDer? && Decodes(ad.contents.elements)
  }

  /** The elements of type `ty`, through IF-RELEVANT containers of any depth, in order. */
  function Leaves(ads: seq<AuthData>, ty: int): (r: seq<AuthData>) {
    if ads == [] then [] else LeavesOf(ads[0], ty) + Leaves(ads[1..], ty)
  }

  function LeavesOf(ad: AuthData, ty: int): (r: seq<AuthData>) {
    if ad.adType == AD_IF_RELEVANT then
      if ad.contents.ElementsDer? then Leaves(ad.contents.elements, ty) else []
    else if ad.adType == ty then [ad] else []
  }

  lemma {:induction false} LeavesConcat(a: seq<AuthData>, b: seq<AuthData>, ty: int)
    ensures Leaves(a + b, ty) == Leaves(a, ty) + Leaves(b, ty)
    ensures Decodes(a + b) <==> Decodes(a) && Decodes(b)
  {
    DecodesConcat(a, b);
    hide Decodes, LeavesOf;
    if a == [] {
      assert a + b == b;
    } else {
      assert (a + b)[1..] == a[1..] + b;
      LeavesConcat(a[1..], b, ty);
    }
  }

  lemma DecodesConcat(a: seq<AuthData>, b: seq<AuthData>)
    ensures Decodes(a + b) <==> Decodes(a) && Decodes(b)
  {
    hide DecodesIn;
    assert forall i :: 0 <= i < |a| ==> a[i] == (a + b)[i];
    assert forall i :: 0 <= i < |b| ==> b[i] == (a + b)[|a| + i];
  }

  /** What a search for a type finds is of that type. */
  lemma {:induction false} LeafType(ads: seq<AuthData>, ty: int, leaf: AuthData)
    requires ty != AD_IF_RELEVANT && leaf in Leaves(ads, ty)
    ensures leaf.adType == ty
  {
    if leaf in LeavesOf(ads[0], ty) {
      LeafTypeIn(ads[0], ty, leaf);
    } else {
      LeafType(ads[1..], ty, leaf);
    }
  }

  lemma {:induction false} LeafTypeIn(ad: AuthData, ty: int, leaf: AuthData)
    requires ty != AD_IF_RELEVANT && leaf in LeavesOf(ad, ty)
    ensures leaf.adType == ty
  {
    if ad.adType == AD_IF_RELEVANT {
      LeafType(ad.contents.elements, ty, leaf);
    }
  }

  // grow_find_authdata: the result array never grows past 256.
  function Grow(found: seq<AuthData>, ad: AuthData): (r: Result<seq<AuthData>>) {
    if |found| >= 256 then Err(ERANGE) else Ok(found + [ad])
  }

  // find_authdata_1
  function FindFrom(ads: seq<AuthData>, ty: int, found: seq<AuthData>): (r: Result<seq<AuthData>>) {
    if ads == [] then Ok(found)
    else
      var step := FindIn(ads[0], ty, found);
      if step.Err? then step else FindFrom(ads[1..], ty, step.value)
  }

  function FindIn(ad: AuthData, ty: int, found: seq<AuthData>): (r: Result<seq<AuthData>>) {
    if ad.adType == AD_IF_RELEVANT then
      if ad.contents.ElementsDer? then FindFrom(ad.contents.elements, ty, found) else Err(ASN1_PARSE_ERROR)
    else if ad.adType == ty then Grow(found, ad) else Ok(found)
  }

  // krb5_find_authdata
  function FindAuthdata(ads: seq<AuthData>, ty: int): (r: Result<seq<AuthData>>) {
    FindFrom(ads, ty, [])
  }

  /** `r` is what a search of `leaves` returns, starting from `found`. */
  ghost predicate Collects(
    r: Result<seq<AuthData>>, decodes: bool, leaves: seq<AuthData>, found: seq<AuthData>)
  {
    && (r.Ok? <==> decodes && |found| + |leaves| <= 256)
    && (r.Ok? ==> r.value == found + leaves)
    && (r.Err? ==> r.code != 0)
  }

  /** The recursive search returns the leaves, and succeeds exactly when every container decodes and there
      are at most 256 of them. */
  lemma {:induction false} FindFromIs(ads: seq<AuthData>, ty: int, found: seq<AuthData>)
    requires ty != AD_IF_RELEVANT && |found| <= 256
    ensures Collects(FindFrom(ads, ty, found), Decodes(ads), Leaves(ads, ty), found)
  {
    if ads != [] {
      var ad, rest := ads[0], ads[1..];
      assert Decodes(ads) <==> DecodesIn(ad) && Decodes(rest) by {
        assert ads == [ad] + rest;
        LeavesConcat([ad], rest, ty);
      }
      FindInIs(ad, ty, found);
      var found' := found + LeavesOf(ad, ty);
      if FindIn(ad, ty, found).Ok? {
        FindFromIs(rest, ty, found');
        assert found' + Leaves(rest, ty) == found + Leaves(ads, ty);
      }
    }
  }

  lemma {:induction false} FindInIs(ad: AuthData, ty: int, found: seq<AuthData>)
    requires ty != AD_IF_RELEVANT && |found| <= 256
    ensures Collects(FindIn(ad, ty, found), DecodesIn(ad), LeavesOf(ad, ty), found)
  {
    if ad.adType == AD_IF_RELEVANT && ad.contents.ElementsDer? {
      FindFromIs(ad.contents.elements, ty, found);
    }
  }

  lemma FindAuthdataIs(ads: seq<AuthData>, ty: int)
    requires ty != AD_IF_RELEVANT
    ensures FindAuthdata(ads, ty).Ok? <==> Decodes(ads) && |Leaves(ads, ty)| <= 256
    ensures FindAuthdata(ads, ty).Ok? ==> FindAuthdata(ads, ty).value == Leaves(ads, ty)
    ensures FindAuthdata(ads, ty).Err? ==> FindAuthdata(ads, ty).code != 0
  {
    FindFromIs(ads, ty, []);
  }

  /** The filter and the search disagree on depth: what the filter keeps can still hold reserved elements,
      but only inside a container that is itself inside a container. */
  lemma {:induction false} KeptReservedIsNested(ads: seq<AuthData>, ty: int)
    requires ty in KDC_TYPES && Leaves(Without(ads, 0), ty) != []
    ensures exists i, j ::
              && 0 <= i < |ads| && ads[i].adType == AD_IF_RELEVANT && ads[i].contents.ElementsDer?
              && 0 <= j < |ads[i].contents.elements|
              && ads[i].contents.elements[j].adType == AD_IF_RELEVANT
              && LeavesOf(ads[i].contents.elements[j], ty) != []
  {
    var n := |ads| - 1;
    LeavesConcat(Without(ads[..n], 0), if KdcIssued(ads[n], 0) then [] else [ads[n]], ty);
    if Leaves(Without(ads[..n], 0), ty) != [] {
      KeptReservedIsNested(ads[..n], ty);
    } else {
      assert Leaves([ads[n]], ty) == LeavesOf(ads[n], ty);
      var j := SomeLeaf(ads[n].contents.elements, ty);
      assert !Reserved(ads[n].contents.elements[j].adType, 0);
    }
  }

  lemma {:induction false} SomeLeaf(ads: seq<AuthData>, ty: int) returns (j: nat)
    requires Leaves(ads, ty) != []
    ensures j < |ads| && LeavesOf(ads[j], ty) != []
  {
    if LeavesOf(ads[0], ty) != [] {
      j := 0;
    } else {
      var k := SomeLeaf(ads[1..], ty);
      j := k + 1;
    }
  }
}
