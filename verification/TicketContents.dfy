/** What an exchange puts into a ticket, and when it fails to, in terms of its inputs alone. */
module TicketContents {
  import opened KdcTypes
  import opened KeySearch
  import opened AuthdataLists
  import opened Cammacs
  import opened SignedPaths
  import opened TicketAuthdata
  import opened TicketChains

  // ----- What is taken over -----

  /** One of the five types that only the KDC issues: AD-KDC-ISSUED, the CAMMAC, the authentication indicator, the
      PAC and the signed path. */
  predicate KdcOnly(ty: int) {
    ty == AD_KDC_ISSUED || ty == AD_CAMMAC || ty == AD_AUTH_INDICATOR || ty == AD_WIN2K_PAC || ty == AD_SIGNTICKET
  }

  /** `ad` is of such a type, or an IF-RELEVANT container of something that is. */
  predicate ShowsKdcOnly(ad: AuthData) {
    if ad.adType != AD_IF_RELEVANT then KdcOnly(ad.adType)
    else ad.contents.ElementsDer? && exists inner :: inner in ad.contents.elements && KdcOnly(inner.adType)
  }

  lemma KdcIssuedMeans(ad: AuthData)
    ensures KdcIssued(ad, 0) <==> ShowsKdcOnly(ad)
  {
    if ad.adType == AD_IF_RELEVANT && ad.contents.ElementsDer? {
      var elements := ad.contents.elements;
      if ShowsKdcOnly(ad) {
        var inner :| inner in elements && KdcOnly(inner.adType);
        var i :| 0 <= i < |elements| && elements[i] == inner;
        assert Reserved(elements[i].adType, 0);
      }
      if KdcIssued(ad, 0) {
        var i :| 0 <= i < |elements| && Reserved(elements[i].adType, 0);
        assert elements[i] in elements && KdcOnly(elements[i].adType);
      }
    }
  }

  /** `kept` is what is taken over from `ads`: everything else, in order. */
  ghost predicate TakenFrom(kept: seq<AuthData>, ads: seq<AuthData>, at: seq<nat>) {
    && |at| == |kept|
    && (forall i :: 0 <= i < |at| ==> at[i] < |ads| && kept[i] == ads[at[i]] && !ShowsKdcOnly(kept[i]))
    && (forall i, j :: 0 <= i < j < |at| ==> at[i] < at[j])
    && (forall k :: 0 <= k < |ads| && !ShowsKdcOnly(ads[k]) ==> k in at)
  }

  lemma {:induction false} WithoutTakes(ads: seq<AuthData>) returns (at: seq<nat>)
    ensures TakenFrom(Without(ads, 0), ads, at)
  {
    at := [];
    if ads != [] {
      var n := |ads| - 1;
      at := WithoutTakes(ads[..n]);
      KdcIssuedMeans(ads[n]);
      hide ShowsKdcOnly, KdcIssued, TakenFrom;
      TakenNext(Without(ads[..n], 0), ads[..n], at, ads[n]);
      assert ads == ads[..n] + [ads[n]];
      if !ShowsKdcOnly(ads[n]) {
        at := at + [n];
      }
      assert Without(ads[..n], 0) + [] == Without(ads[..n], 0);
    }
  }

  lemma TakenNext(kept: seq<AuthData>, ads: seq<AuthData>, at: seq<nat>, ad: AuthData)
    requires TakenFrom(kept, ads, at)
    ensures if ShowsKdcOnly(ad) then TakenFrom(kept, ads + [ad], at)
            else TakenFrom(kept + [ad], ads + [ad], at + [|ads|])
  {
    hide ShowsKdcOnly;
    var at' := at + [|ads|];
    assert at'[|at|] == |ads|;
    forall k | 0 <= k < |ads + [ad]| && !ShowsKdcOnly((ads + [ad])[k])
      ensures k in at'
      ensures ShowsKdcOnly(ad) ==> k in at
    {
      if k < |ads| {
        assert (ads + [ad])[k] == ads[k] && k in at;
        var i :| 0 <= i < |at| && at[i] == k;
        assert at'[i] == k;
      }
    }
  }

  /** The request's authorization data can be read: it is encrypted in the session key of the ticket the exchange
      is about or in the client's own key, each for its usage. */
  predicate Readable(enc: EncData, session: Key, subkey: Key) {
    || (enc.key == session && enc.usage == KEYUSAGE_TGS_REQ_AD_SESSKEY)
    || (enc.key == subkey && enc.usage == KEYUSAGE_TGS_REQ_AD_SUBKEY)
  }

  /** What an issued ticket takes over from the request and from the ticket it is about: nothing of a type only the KDC
      issues, at the top or one container deep, and everything else, in order. */
  lemma {:induction false} IssuedTakesOver(inp: Input, tkt: EncTktPart)
    returns (fromRequest: seq<nat>, fromTicket: seq<nat>)
    requires Issue(inp, tkt).Ok?
    ensures inp.subject.Some? ==> TakenFrom(TgtPart(inp), inp.subject.value.authdata, fromTicket)
    ensures inp.subject.Some? && inp.reqAuthdata.Some? ==>
              var enc := inp.reqAuthdata.value;
              && Readable(enc, inp.subject.value.session, inp.clientKey) && enc.plain.ElementsDer?
              && TakenFrom(RequestPart(inp), enc.plain.elements, fromRequest)
    ensures inp.subject.None? ==> TgtPart(inp) == []
    ensures inp.subject.None? || inp.reqAuthdata.None? ==> RequestPart(inp) == []
  {
    hide Without, TakenFrom, WithTgt, WithModules, WithIndicators, WithKdb, WithSignedPath;
    fromRequest, fromTicket := [], [];
    if inp.subject.Some? {
      fromTicket := WithoutTakes(inp.subject.value.authdata);
      if inp.reqAuthdata.Some? {
        fromRequest := WithoutTakes(inp.reqAuthdata.value.plain.elements);
      }
    }
  }

  /** The modules' parts follow one another in the order of the modules. */
  lemma {:induction false} FlattenIs(a: seq<seq<AuthData>>, list: seq<AuthData>, b: seq<seq<AuthData>>)
    ensures Flatten(a + [list] + b) == Flatten(a) + list + Flatten(b)
  {
    if b == [] {
      assert a + [list] + b == a + [list] && (a + [list])[..|a|] == a;
      assert Flatten(a) + list + [] == Flatten(a) + list;
    } else {
      var n := |b| - 1;
      assert (a + [list] + b)[..|a| + 1 + n] == a + [list] + b[..n];
      FlattenIs(a, list, b[..n]);
      assert Flatten(a) + list + Flatten(b[..n]) + b[n] == Flatten(a) + list + (Flatten(b[..n]) + b[n]);
    }
  }

  // ----- When the KDB is asked, and a path signed -----

  /** The KDB is asked for data: for a TGS exchange, if the service takes authorization data and either the ticket has
      some, or its client is of another realm, or the request delegates; for an AS exchange, if a PAC is wanted. */
  predicate KdbAsked(inp: Input) {
    if inp.subject.None? then IncludePac in inp.flags
    else
      && NoAuthDataRequired !in inp.server.attributes
      && (|inp.subject.value.authdata| > 0 || CrossRealm in inp.flags || ProtocolTransition in inp.flags
          || ConstrainedDelegation in inp.flags)
  }

  /** The only element is a PAC, in a container or not. */
  predicate JustPac(ads: seq<AuthData>) {
    && |ads| == 1
    && (ads[0].adType == AD_WIN2K_PAC
        || (ads[0].adType == AD_IF_RELEVANT && ads[0].contents.ElementsDer?
            && exists inner :: inner in ads[0].contents.elements && inner.adType == AD_WIN2K_PAC))
  }

  lemma JustPacMeans(ads: seq<AuthData>)
    ensures OnlyPac(ads) <==> JustPac(ads)
  {
    if |ads| == 1 && ads[0].adType == AD_IF_RELEVANT && ads[0].contents.ElementsDer? {
      var elements := ads[0].contents.elements;
      if KdcIssued(ads[0], AD_WIN2K_PAC) {
        var i :| 0 <= i < |elements| && Reserved(elements[i].adType, AD_WIN2K_PAC);
        assert elements[i] in elements;
      }
      if JustPac(ads) {
        var inner :| inner in elements && inner.adType == AD_WIN2K_PAC;
        var i :| 0 <= i < |elements| && elements[i] == inner;
        assert Reserved(elements[i].adType, AD_WIN2K_PAC);
      }
    }
    assert |ads| == 1 ==> (HasKdcIssued(ads, AD_WIN2K_PAC) <==> KdcIssued(ads[0], AD_WIN2K_PAC));
  }

  /** A path is signed for a service that takes authorization data and is not another realm's TGS, unless the
      ticket holds just a PAC. */
  predicate PathWanted(inp: Input, ads: seq<AuthData>) {
    && NoAuthDataRequired !in inp.server.attributes && !JustPac(ads)
    && !(|inp.server.princ.components| == 2 && inp.server.princ.components[0] == "krbtgt"
         && inp.server.princ.components[1] != inp.server.princ.realm)
  }

  lemma WantsMean(inp: Input, tkt: EncTktPart)
    ensures WantsKdb(inp) <==> KdbAsked(inp)
    ensures WantsSignedPath(inp, tkt) <==> PathWanted(inp, tkt.authdata)
  {
    JustPacMeans(tkt.authdata);
    hide OnlyPac, JustPac;
    if inp.subject.Some? {
      var all, some := {CrossRealm, ProtocolTransition, ConstrainedDelegation}, inp.flags;
      assert forall f :: f in some * all <==> f in some && f in all;
    }
  }

  /** The KDB's part of an issued ticket is what the KDB gives when it is asked. */
  lemma KdbPartIs(inp: Input, tkt: EncTktPart)
    ensures KdbPart(inp, tkt) == if Anonymous !in tkt.flags && KdbAsked(inp) && inp.kdb.Ok? then inp.kdb.value else []
  {
    WantsMean(inp, tkt);
  }

  /** The path that an exchange starts from: none for an AS exchange or a ticket with just a PAC; that of the
      ticket if it verifies; and if it does not, none, or a refusal if the exchange is a proxy's. */
  lemma {:induction false} SubjectPathIs(inp: Input)
    ensures inp.subject.None? || JustPac(inp.subject.value.authdata) ==> SubjectPath(inp) == Ok([])
    ensures inp.subject.Some? && !JustPac(inp.subject.value.authdata) ==>
              var v := VerifySignedPath(inp.localTgt, inp.subject.value);
              && (v.Err? ==> SubjectPath(inp) == Err(v.code))
              && (v.Ok? && v.value.Some? ==> SubjectPath(inp) == Ok(v.value.value))
              && (v == Ok(None) && ConstrainedDelegation in inp.flags ==> SubjectPath(inp) == Err(KRB5KDC_ERR_BADOPTION))
              && (v == Ok(None) && ConstrainedDelegation !in inp.flags ==> SubjectPath(inp) == Ok([]))
  {
    if inp.subject.Some? {
      JustPacMeans(inp.subject.value.authdata);
    }
    hide JustPac, OnlyPac, VerifySignedPath;
  }

  // ----- Success and failure -----

  predicate NoMandatory(ads: seq<AuthData>) {
    forall ad :: ad in ads ==> ad.adType != AD_MANDATORY_FOR_KDC
  }

  lemma MandatoryMeans(ads: seq<AuthData>)
    ensures HasMandatory(ads) <==> !NoMandatory(ads)
  {
  }

  /** The newest ticket-granting key can be used, and makes checksums unless that fails with one of `tolerated`. */
  predicate KeyWorks(krbtgt: seq<KeyData>, tolerated: set<int>) {
    var found := FindKey(krbtgt, 0);
    && found.Ok? && found.value.key.Ok?
    && (found.value.key.value.macError == 0 || found.value.key.value.macError in tolerated)
  }

  /** The ticket that the exchange is about is in order for it: its path can be looked for, and a proxy request finds
      one, unless the ticket holds just a PAC. */
  predicate SubjectInOrder(inp: Input) {
    inp.subject.Some? && !JustPac(inp.subject.value.authdata) ==>
      var path := VerifySignedPath(inp.localTgt, inp.subject.value);
      path.Ok? && (ConstrainedDelegation in inp.flags ==> path.value.Some?)
  }

  predicate InputsInOrder(inp: Input) {
    inp.subject.Some? ==>
      && NoMandatory(inp.subject.value.authdata)
      && (inp.reqAuthdata.Some? ==>
            var enc := inp.reqAuthdata.value;
            && Readable(enc, inp.subject.value.session, inp.clientKey) && enc.plain.ElementsDer?
            && NoMandatory(enc.plain.elements))
  }

  /** A ticket is issued exactly if the request's data can be read, nothing mandatory for the KDC is in it or in
      the ticket it is about, the keys make the checksums called for, the KDB does not fail when asked, and the
      path of the ticket it is about is in order; an anonymous ticket involves neither KDB nor paths. */
  lemma {:induction false} IssuedExactly(inp: Input, tkt: EncTktPart)
    ensures Issue(inp, tkt).Ok? <==>
            && InputsInOrder(inp)
            && (inp.indicators != [] && NoAuthDataRequired !in inp.server.attributes ==>
                  KeyWorks(inp.localTgt, {}) && inp.serverKey.macError == 0)
            && (Anonymous !in tkt.flags ==>
                  && (KdbAsked(inp) ==> inp.kdb.Ok? || inp.kdb.code == KRB5_PLUGIN_OP_NOTSUPP)
                  && SubjectInOrder(inp)
                  && (PathWanted(inp, Unsigned(inp, tkt).authdata) ==>
                        KeyWorks(inp.localTgt, {KRB5KRB_AP_ERR_INAPP_CKSUM})))
  {
    RequestStage(inp, tkt);
    var r1 := WithRequest(inp, tkt);
    if r1.Ok? {
      TgtStage(inp, r1.value);
      var r3 := WithTgt(inp, WithModules(inp, r1.value));
      if r3.Ok? {
        IndicatorStage(inp, r3.value);
        var r4 := WithIndicators(inp, r3.value);
        if r4.Ok? && Anonymous !in tkt.flags {
          WantsMean(inp, r4.value);
          var r5 := WithKdb(inp, r4.value);
          if r5.Ok? {
            StagesMakeUnsigned(inp, tkt);
            PathStage(inp, r5.value);
          }
        }
      }
    }
    hide WithRequest, WithTgt, WithIndicators, WithSignedPath, InputsInOrder, KeyWorks, SubjectInOrder, PathWanted;
    hide KdbAsked, Unsigned, WithModules;
  }

  lemma RequestStage(inp: Input, tkt: EncTktPart)
    ensures InputsInOrder(inp) ==>
              WithRequest(inp, tkt).Ok? && (inp.subject.Some? ==> NoMandatory(inp.subject.value.authdata))
    ensures WithRequest(inp, tkt).Ok? ==> WithRequest(inp, tkt).value.flags == tkt.flags
    ensures WithRequest(inp, tkt).Ok? ==>
              (InputsInOrder(inp) <==> (inp.subject.Some? ==> NoMandatory(inp.subject.value.authdata)))
  {
    hide Without, NoMandatory, HasMandatory;
    if inp.subject.Some? && inp.reqAuthdata.Some? {
      MandatoryMeans(if inp.reqAuthdata.value.plain.ElementsDer? then inp.reqAuthdata.value.plain.elements else []);
    }
  }

  lemma TgtStage(inp: Input, t: EncTktPart)
    ensures WithTgt(inp, WithModules(inp, t)).Ok? <==> (inp.subject.Some? ==> NoMandatory(inp.subject.value.authdata))
  {
    hide Without, NoMandatory, HasMandatory;
    if inp.subject.Some? {
      MandatoryMeans(inp.subject.value.authdata);
    }
  }

  lemma IndicatorStage(inp: Input, t: EncTktPart)
    ensures WithIndicators(inp, t).Ok? <==>
            (inp.indicators != [] && NoAuthDataRequired !in inp.server.attributes ==>
               KeyWorks(inp.localTgt, {}) && inp.serverKey.macError == 0)
  {
    hide FindKey;
  }

  lemma PathStage(inp: Input, u: EncTktPart)
    ensures WithSignedPath(inp, u).Ok? <==>
            && SubjectInOrder(inp)
            && (PathWanted(inp, u.authdata) ==> KeyWorks(inp.localTgt, {KRB5KRB_AP_ERR_INAPP_CKSUM}))
  {
    WantsMean(inp, u);
    if inp.subject.Some? {
      JustPacMeans(inp.subject.value.authdata);
    }
    hide FindKey, VerifySignedPath, OnlyPac, JustPac, SignedPathData, PathWanted, WantsSignedPath;
  }

  lemma StagesMakeUnsigned(inp: Input, tkt: EncTktPart)
    requires WithRequest(inp, tkt).Ok? && WithTgt(inp, WithModules(inp, WithRequest(inp, tkt).value)).Ok?
    requires var t3 := WithTgt(inp, WithModules(inp, WithRequest(inp, tkt).value)).value;
             && WithIndicators(inp, t3).Ok? && WithKdb(inp, WithIndicators(inp, t3).value).Ok?
    requires Anonymous !in tkt.flags
    ensures var t3 := WithTgt(inp, WithModules(inp, WithRequest(inp, tkt).value)).value;
            WithKdb(inp, WithIndicators(inp, t3).value).value == Unsigned(inp, tkt)
  {
    hide Without, HasMandatory, FindKey;
    var t1 := WithRequest(inp, tkt).value;
    assert t1 == Appended(tkt, RequestPart(inp)) by {
      assert tkt.authdata + [] == tkt.authdata;
    }
    var t2 := WithModules(inp, t1);
    assert t2 == Appended(t1, ModulePart(inp, tkt));
    var t3 := WithTgt(inp, t2).value;
    assert t3 == Appended(t2, TgtPart(inp)) && t3 == tkt.(authdata := Early(inp, tkt)) by {
      assert t2.authdata + [] == t2.authdata;
    }
    var t4 := WithIndicators(inp, t3).value;
    assert t4 == Appended(t3, CammacPart(inp, tkt)) by {
      assert t3.authdata + [] == t3.authdata;
      assert KdcverEncpart(t3, IndicatorData(inp.indicators)) == KdcverEncpart(tkt, IndicatorData(inp.indicators));
    }
    assert t4.authdata + [] == t4.authdata;
  }

  /** The CAMMAC of an issued ticket is for the service's own key, and for no other. */
  lemma {:induction false} ServiceReadsCammac(inp: Input, tkt: EncTktPart, key: Key) returns (c: Cammac)
    requires CammacPart(inp, tkt) != []
    ensures CammacPart(inp, tkt) == [Container(AD_CAMMAC, CammacDer(c))]
    ensures CheckSvcver(c, key) <==> key == inp.serverKey
    ensures c.elements == [AuthData(AD_AUTH_INDICATOR, StringsDer(inp.indicators))]
  {
    hide FindKey;
    c := CammacPart(inp, tkt)[0].contents.elements[0].contents.cammac;
  }

  /** The request's data can be read, and some of it is mandatory for the KDC. */
  predicate AsksMandatory(inp: Input)
    requires inp.subject.Some?
  {
    && inp.reqAuthdata.Some? && Readable(inp.reqAuthdata.value, inp.subject.value.session, inp.clientKey)
    && inp.reqAuthdata.value.plain.ElementsDer? && !NoMandatory(inp.reqAuthdata.value.plain.elements)
  }

  /** A proxy request on a ticket whose path does not verify, with nothing else that could fail. */
  predicate JustUnproven(inp: Input)
    requires inp.subject.Some?
  {
    && ConstrainedDelegation in inp.flags && !JustPac(inp.subject.value.authdata)
    && VerifySignedPath(inp.localTgt, inp.subject.value) == Ok(None)
    && inp.reqAuthdata.None? && NoMandatory(inp.subject.value.authdata)
    && inp.indicators == [] && inp.kdb == Err(KRB5_PLUGIN_OP_NOTSUPP)
  }

  /** Data mandatory for the KDC is refused with a policy error, and a proxy request on a ticket whose path does
      not verify as one that asks for too much. */
  lemma {:induction false} RefusalCodes(inp: Input, tkt: EncTktPart)
    requires inp.subject.Some?
    ensures AsksMandatory(inp) ==> Issue(inp, tkt) == Err(KRB5KDC_ERR_POLICY)
    ensures inp.reqAuthdata.None? && !NoMandatory(inp.subject.value.authdata) ==>
              Issue(inp, tkt) == Err(KRB5KDC_ERR_POLICY)
    ensures JustUnproven(inp) && Anonymous !in tkt.flags ==> Issue(inp, tkt) == Err(KRB5KDC_ERR_BADOPTION)
  {
    var ads := inp.subject.value.authdata;
    MandatoryMeans(ads);
    JustPacMeans(ads);
    if inp.reqAuthdata.Some? && inp.reqAuthdata.value.plain.ElementsDer? {
      MandatoryMeans(inp.reqAuthdata.value.plain.elements);
    }
    hide Without, NoMandatory, HasMandatory, FindKey, VerifySignedPath, OnlyPac, JustPac, WantsKdb, Flatten;
  }
}
