/** What issued tickets are made of, and what survives along a chain of exchanges: one AS exchange, then any
    number of TGS exchanges, each about the ticket issued by the one before. */
module TicketChains {
  import opened KdcTypes
  import opened KeySearch
  import opened AuthdataLists
  import opened Cammacs
  import opened SignedPaths
  import opened TicketAuthdata
  import opened TgsIssue

  // ----- The composition of an issued ticket -----

  function RequestPart(inp: Input): (r: seq<AuthData>) {
    if inp.subject.None? || inp.reqAuthdata.None? then []
    else
      var ads := DecryptRequest(inp, inp.subject.value, inp.reqAuthdata.value);
      if ads.Err? then [] else Without(ads.value, 0)
  }

  function ModulePart(inp: Input, tkt: EncTktPart): (r: seq<AuthData>) {
    if Anonymous in tkt.flags then [] else Flatten(inp.modules)
  }

  function TgtPart(inp: Input): (r: seq<AuthData>) {
    if inp.subject.None? then [] else Without(inp.subject.value.authdata, 0)
  }

  function CammacPart(inp: Input, tkt: EncTktPart): (r: seq<AuthData>) {
    if inp.indicators == [] || NoAuthDataRequired in inp.server.attributes then []
    else
      var cammac := CammacCreate(tkt, inp.serverKey, inp.localTgt, IndicatorData(inp.indicators));
      if cammac.Err? then [] else cammac.value
  }

  function KdbPart(inp: Input, tkt: EncTktPart): (r: seq<AuthData>) {
    if Anonymous in tkt.flags || !WantsKdb(inp) || inp.kdb.Err? then [] else inp.kdb.value
  }

  /** Everything ahead of the CAMMAC. */
  function Early(inp: Input, tkt: EncTktPart): (r: seq<AuthData>) {
    tkt.authdata + RequestPart(inp) + ModulePart(inp, tkt) + TgtPart(inp)
  }

  /** The ticket as it stands when its path is signed. */
  function Unsigned(inp: Input, tkt: EncTktPart): (r: EncTktPart) {
    tkt.(authdata := Early(inp, tkt) + CammacPart(inp, tkt) + KdbPart(inp, tkt))
  }

  predicate MandatoryInput(inp: Input) {
    || (inp.subject.Some? && HasMandatory(inp.subject.value.authdata))
    || (inp.subject.Some? && inp.reqAuthdata.Some? &&
        var ads := DecryptRequest(inp, inp.subject.value, inp.reqAuthdata.value);
        ads.Ok? && HasMandatory(ads.value))
  }

  lemma {:induction false} IssueShape(inp: Input, tkt: EncTktPart)
    requires Issue(inp, tkt).Ok?
    ensures !MandatoryInput(inp)
    ensures Issue(inp, tkt) ==
            if Anonymous in tkt.flags then Ok(Unsigned(inp, tkt)) else WithSignedPath(inp, Unsigned(inp, tkt))
    ensures CammacPart(inp, tkt) == [] <==> inp.indicators == [] || NoAuthDataRequired in inp.server.attributes
  {
    hide Without, HasMandatory, FindKey, SubjectPath, WantsSignedPath;
    var t1 := WithRequest(inp, tkt).value;
    assert t1 == Appended(tkt, RequestPart(inp)) by {
      assert tkt.authdata + [] == tkt.authdata;
    }
    var t2 := WithModules(inp, t1);
    assert t2 == Appended(t1, ModulePart(inp, tkt)) by {
      assert t1.authdata + [] == t1.authdata;
    }
    var t3 := WithTgt(inp, t2).value;
    assert t3 == Appended(t2, TgtPart(inp)) && t3 == tkt.(authdata := Early(inp, tkt)) by {
      assert t2.authdata + [] == t2.authdata;
    }
    var t4 := WithIndicators(inp, t3).value;
    assert t4 == Appended(t3, CammacPart(inp, tkt)) by {
      assert t3.authdata + [] == t3.authdata;
      assert KdcverEncpart(t3, IndicatorData(inp.indicators)) == KdcverEncpart(tkt, IndicatorData(inp.indicators));
    }
    assert t4.authdata + [] == t4.authdata;
    if Anonymous !in tkt.flags {
      assert WithKdb(inp, t4).value == Appended(t4, KdbPart(inp, tkt));
    }
  }

  /** `list` is empty, or one element of type `adType` in its own IF-RELEVANT container. */
  ghost predicate AtMostOne(adType: int, list: seq<AuthData>) {
    list == [] || exists contents :: list == [Container(adType, contents)]
  }

  lemma FilteredParts(inp: Input)
    ensures !HasKdcIssued(RequestPart(inp), 0) && !HasKdcIssued(TgtPart(inp), 0)
  {
    if inp.subject.Some? {
      WithoutKeeps(inp.subject.value.authdata, 0);
      if inp.reqAuthdata.Some? {
        var ads := DecryptRequest(inp, inp.subject.value, inp.reqAuthdata.value);
        if ads.Ok? {
          WithoutKeeps(ads.value, 0);
        }
      }
    }
  }

  lemma AddedCammac(inp: Input, tkt: EncTktPart)
    ensures AtMostOne(AD_CAMMAC, CammacPart(inp, tkt))
  {
    hide FindKey;
  }

  lemma AddedPath(inp: Input, u: EncTktPart) returns (path: seq<AuthData>)
    requires WithSignedPath(inp, u).Ok?
    ensures AtMostOne(AD_SIGNTICKET, path)
    ensures WithSignedPath(inp, u).value == u.(authdata := u.authdata + path)
  {
    hide SubjectPath, WantsSignedPath, FindKey, SignedPathData;
    var t := WithSignedPath(inp, u).value;
    path := t.authdata[|u.authdata|..];
    if t != u {
      assert path == [t.authdata[|u.authdata|]];
    } else {
      assert path == [] && u.authdata + [] == u.authdata;
    }
  }

  /** An issued ticket's authorization data is, in order: what the ticket started with, the filtered request,
      the modules, the filtered subject ticket, at most one CAMMAC, the KDB's data, and at most one signed
      path.  Nothing taken from the request or the subject ticket is reserved to the KDC at the top level
      or one container deep, and data marked MANDATORY-FOR-KDC yields no ticket. */
  lemma {:induction false} IssuedComposition(inp: Input, tkt: EncTktPart) returns (path: seq<AuthData>)
    requires Issue(inp, tkt).Ok?
    ensures var t := Issue(inp, tkt).value;
            && t == tkt.(authdata := tkt.authdata + RequestPart(inp) + ModulePart(inp, tkt) + TgtPart(inp)
                                     + CammacPart(inp, tkt) + KdbPart(inp, tkt) + path)
    ensures !HasKdcIssued(RequestPart(inp), 0) && !HasKdcIssued(TgtPart(inp), 0)
    ensures AtMostOne(AD_CAMMAC, CammacPart(inp, tkt)) && AtMostOne(AD_SIGNTICKET, path)
    ensures !MandatoryInput(inp)
  {
    IssueShape(inp, tkt);
    FilteredParts(inp);
    AddedCammac(inp, tkt);
    hide Issue, HasKdcIssued, MandatoryInput, RequestPart, ModulePart, TgtPart, CammacPart, KdbPart, WithSignedPath;
    var u := Unsigned(inp, tkt);
    path := [];
    if Anonymous !in tkt.flags {
      path := AddedPath(inp, u);
    }
    assert u.authdata + [] == u.authdata;
  }

  // ----- Lists that hide nothing of a type -----

  /** `ads` can be searched, and holds no element of type `ty` at any depth. */
  predicate Clean(ads: seq<AuthData>, ty: int) {
    Decodes(ads) && Leaves(ads, ty) == []
  }

  lemma CleanConcat(a: seq<AuthData>, b: seq<AuthData>, ty: int)
    ensures Clean(a + b, ty) <==> Clean(a, ty) && Clean(b, ty)
  {
    LeavesConcat(a, b, ty);
  }

  lemma {:induction false} CleanWithout(ads: seq<AuthData>, desired: int, ty: int)
    requires Clean(ads, ty)
    ensures Clean(Without(ads, desired), ty)
  {
    if ads != [] {
      var n := |ads| - 1;
      assert ads == ads[..n] + [ads[n]];
      CleanConcat(ads[..n], [ads[n]], ty);
      CleanWithout(ads[..n], desired, ty);
      CleanConcat(Without(ads[..n], desired), if KdcIssued(ads[n], desired) then [] else [ads[n]], ty);
    }
  }

  /** A container holding one reserved element disappears under the filter, and shows only that element. */
  lemma ReservedContainer(adType: int, contents: Contents, ty: int)
    requires adType in KDC_TYPES
    ensures var list := [Container(adType, contents)];
            && Without(list, 0) == [] && Decodes(list)
            && Leaves(list, ty) == if ty == adType then [AuthData(adType, contents)] else []
  {
    var ad := Container(adType, contents);
    var inner := ad.contents.elements;
    assert Reserved(inner[0].adType, 0);
    assert [ad][..0] == [];
    assert DecodesIn(inner[0]) && Decodes(inner) && DecodesIn(ad);
    assert Leaves(inner, ty) == LeavesOf(inner[0], ty) + Leaves(inner[1..], ty);
    assert Leaves([ad], ty) == LeavesOf(ad, ty) + Leaves([ad][1..], ty);
  }

  lemma AtMostOneReserved(adType: int, list: seq<AuthData>)
    requires adType in KDC_TYPES && AtMostOne(adType, list)
    ensures Without(list, 0) == [] && Decodes(list) && |Leaves(list, adType)| == |list|
    ensures forall ty :: ty != adType ==> Leaves(list, ty) == []
  {
    if list != [] {
      var contents :| list == [Container(adType, contents)];
      forall ty
        ensures Leaves(list, ty) == if ty == adType then [AuthData(adType, contents)] else []
      {
        ReservedContainer(adType, contents, ty);
      }
      ReservedContainer(adType, contents, adType);
    }
  }

  /** Clean lists around other lists neither show anything of their own ... */
  lemma CleanAround(early: seq<AuthData>, cammac: seq<AuthData>, kdb: seq<AuthData>, path: seq<AuthData>, ty: int)
    requires Clean(early, ty) && Clean(kdb, ty) && Decodes(cammac) && Decodes(path)
    ensures var u := early + cammac + kdb;
            && Decodes(u) && Leaves(u, ty) == Leaves(cammac, ty)
            && Decodes(u + path) && Leaves(u + path, ty) == Leaves(cammac, ty) + Leaves(path, ty)
  {
    var u := early + cammac + kdb;
    LeavesConcat(early, cammac, ty);
    LeavesConcat(early + cammac, kdb, ty);
    LeavesConcat(u, path, ty);
    var l := Leaves(cammac, ty);
    assert [] + l + [] == l;
  }

  /** ... nor pass anything on. */
  lemma CleanAfterFilter(early: seq<AuthData>, cammac: seq<AuthData>, kdb: seq<AuthData>, path: seq<AuthData>, ty: int)
    requires Clean(early, ty) && Clean(kdb, ty) && Without(cammac, 0) == [] && Without(path, 0) == []
    ensures Clean(Without(early + cammac + kdb + path, 0), ty)
  {
    hide Without, Clean;
    WithoutConcat(early, cammac, 0);
    WithoutConcat(early + cammac, kdb, 0);
    WithoutConcat(early + cammac + kdb, path, 0);
    CleanWithout(early, 0, ty);
    CleanWithout(kdb, 0, ty);
    var e, k := Without(early, 0), Without(kdb, 0);
    CleanConcat(e, k, ty);
    assert e + [] == e && e + k + [] == e + k;
  }

  /** The inputs other than the subject ticket hide nothing of type `ty` that survives into the reply. */
  predicate CleanInputs(inp: Input, tkt: EncTktPart, ty: int) {
    && Clean(tkt.authdata, ty) && Clean(RequestPart(inp), ty)
    && Clean(ModulePart(inp, tkt), ty) && Clean(KdbPart(inp, tkt), ty)
  }

  /** Nothing of type `ty` would be carried on from this ticket into one issued from it. */
  predicate PassesOnClean(tkt: EncTktPart, ty: int) {
    Clean(Without(tkt.authdata, 0), ty)
  }

  lemma EarlyClean(inp: Input, tkt: EncTktPart, ty: int)
    requires CleanInputs(inp, tkt, ty) && (inp.subject.Some? ==> PassesOnClean(inp.subject.value, ty))
    ensures Clean(Early(inp, tkt), ty)
  {
    CleanConcat(tkt.authdata, RequestPart(inp), ty);
    CleanConcat(tkt.authdata + RequestPart(inp), ModulePart(inp, tkt), ty);
    CleanConcat(tkt.authdata + RequestPart(inp) + ModulePart(inp, tkt), TgtPart(inp), ty);
  }

  /** The elements of a reserved type in an issued ticket are exactly those this exchange made itself, and
      they are not passed on. */
  lemma {:induction false} IssuedLeaves(inp: Input, tkt: EncTktPart, ty: int) returns (path: seq<AuthData>)
    requires Issue(inp, tkt).Ok?
    requires CleanInputs(inp, tkt, ty) && (inp.subject.Some? ==> PassesOnClean(inp.subject.value, ty))
    ensures var t, u := Issue(inp, tkt).value, Unsigned(inp, tkt);
            && t == u.(authdata := u.authdata + path) && AtMostOne(AD_SIGNTICKET, path)
            && Decodes(t.authdata) && Leaves(t.authdata, ty) == Leaves(CammacPart(inp, tkt), ty) + Leaves(path, ty)
            && Decodes(u.authdata) && Leaves(u.authdata, ty) == Leaves(CammacPart(inp, tkt), ty)
            && PassesOnClean(t, ty)
  {
    path := IssuedComposition(inp, tkt);
    EarlyClean(inp, tkt, ty);
    var early, cammac, kdb := Early(inp, tkt), CammacPart(inp, tkt), KdbPart(inp, tkt);
    AtMostOneReserved(AD_CAMMAC, cammac);
    AtMostOneReserved(AD_SIGNTICKET, path);
    CleanAround(early, cammac, kdb, path, ty);
    CleanAfterFilter(early, cammac, kdb, path, ty);
  }

  // ----- Chains -----

  /** The ticket at the end of a chain. */
  function Run(hops: seq<Hop>, subject: EncTktPart): (r: Result<EncTktPart>) {
    if hops == [] then Ok(subject)
    else
      var next := IssueTgs(hops[0], subject);
      if next.Err? then next else Run(hops[1..], next.value)
  }

  /** The TGT entry that reads the ticket these hops are about: the next hop's, or that of whoever reads the last. */
  function Reader(hops: seq<Hop>, last: seq<KeyData>): (r: seq<KeyData>) {
    if hops == [] then last else hops[0].localTgt
  }

  /** The indicators the next ticket vouches for: none after a protocol transition, whose user did not authenticate. */
  function Vouched(hop: Hop, indicators: seq<string>): (r: seq<string>) {
    if hop.kind.ForUser? then [] else indicators
  }

  function VouchedAfter(hops: seq<Hop>, indicators: seq<string>): (r: seq<string>) {
    if hops == [] then indicators else VouchedAfter(hops[1..], Vouched(hops[0], indicators))
  }

  /** The client the next ticket names: the user of a protocol transition, if the service that asks is of this realm. */
  function NextClient(hop: Hop, client: Principal): (r: Principal) {
    if hop.kind.ForUser? && client.realm == hop.realm.name then hop.kind.user else client
  }

  function ClientAfter(hops: seq<Hop>, client: Principal): (r: Principal) {
    if hops == [] then client else ClientAfter(hops[1..], NextClient(hops[0], client))
  }

  lemma HopIssues(hop: Hop, subject: EncTktPart, indicators: seq<string>)
    requires HopIndicators(hop, subject) == Ok(indicators) && IssueTgs(hop, subject).Ok?
    ensures IssueTgs(hop, subject) == Issue(HopInput(hop, subject, indicators), ReplyPart(hop, subject))
  {
  }

  lemma ReplyKeeps(hop: Hop, subject: EncTktPart)
    ensures ReplyPart(hop, subject).client == NextClient(hop, subject.client)
    ensures ReplyPart(hop, subject).times.authtime == subject.times.authtime
    ensures ReplyPart(hop, subject).authdata == []
  {
  }

  lemma {:induction false} IssueKeeps(inp: Input, tkt: EncTktPart)
    requires Issue(inp, tkt).Ok?
    ensures Issue(inp, tkt).value.(authdata := []) == tkt.(authdata := [])
  {
    var path := IssuedComposition(inp, tkt);
  }
}
