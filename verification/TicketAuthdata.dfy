/** Building the authorization data of an issued ticket (handle_authdata and its stages, kdc_authdata.c). */
module TicketAuthdata {
  import opened KdcTypes
  import opened KeySearch
  import opened AuthdataLists
  import opened Cammacs
  import opened SignedPaths

  datatype KdbFlag = IncludePac | ProtocolTransition | ConstrainedDelegation | CrossRealm

  /** One call's inputs.  `subject` is the decrypted TGT or evidence ticket, absent for an AS request.
      `modules` is what each loaded authdata module appends, and `kdb` what the KDB module signs. */
  datatype Input = Input(
    flags: set<KdbFlag>, client: Option<DbEntry>, server: DbEntry, localTgt: seq<KeyData>,
    clientKey: Key, serverKey: Key, reqAuthdata: Option<EncData>, forUser: Option<Principal>,
    subject: Option<EncTktPart>, indicators: seq<string>,
    modules: seq<seq<AuthData>>, kdb: Result<seq<AuthData>>)

  // ----- What each stage makes of the ticket -----

  function Appended(tkt: EncTktPart, ads: seq<AuthData>): (r: EncTktPart) {
    tkt.(authdata := tkt.authdata + ads)
  }

  /** The request's authorization data, tried first in the session key of the subject ticket and then in the
      client's subkey, and decoded. */
  function DecryptRequest(inp: Input, tktReq: EncTktPart, enc: EncData): (r: Result<seq<AuthData>>) {
    var first := Decrypt(tktReq.session, KEYUSAGE_TGS_REQ_AD_SESSKEY, enc);
    var plain := if first.Ok? then first else Decrypt(inp.clientKey, KEYUSAGE_TGS_REQ_AD_SUBKEY, enc);
    if plain.Err? then Err(plain.code)
    else if plain.value.ElementsDer? then Ok(plain.value.elements)
    else Err(ASN1_PARSE_ERROR)
  }

  function WithRequest(inp: Input, tkt: EncTktPart): (r: Result<EncTktPart>) {
    if inp.subject.None? || inp.reqAuthdata.None? then Ok(tkt)
    else
      var ads := DecryptRequest(inp, inp.subject.value, inp.reqAuthdata.value);
      if ads.Err? then Err(ads.code)
      else if HasMandatory(ads.value) then Err(KRB5KDC_ERR_POLICY)
      else Ok(Appended(tkt, Without(ads.value, 0)))
  }

  function Flatten(lists: seq<seq<AuthData>>): (r: seq<AuthData>) {
    if lists == [] then [] else Flatten(lists[..|lists| - 1]) + lists[|lists| - 1]
  }

  function WithModules(inp: Input, tkt: EncTktPart): (r: EncTktPart) {
    if Anonymous in tkt.flags then tkt else Appended(tkt, Flatten(inp.modules))
  }

  function WithTgt(inp: Input, tkt: EncTktPart): (r: Result<EncTktPart>) {
    if inp.subject.None? then Ok(tkt)
    else if HasMandatory(inp.subject.value.authdata) then Err(KRB5KDC_ERR_POLICY)
    else Ok(Appended(tkt, Without(inp.subject.value.authdata, 0)))
  }

  function IndicatorData(indicators: seq<string>): (r: seq<AuthData>) {
    [AuthData(AD_AUTH_INDICATOR, StringsDer(indicators))]
  }

  function WithIndicators(inp: Input, tkt: EncTktPart): (r: Result<EncTktPart>) {
    if inp.indicators == [] || NoAuthDataRequired in inp.server.attributes then Ok(tkt)
    else
      var cammac := CammacCreate(tkt, inp.serverKey, inp.localTgt, IndicatorData(inp.indicators));
      if cammac.Err? then Err(cammac.code) else Ok(Appended(tkt, cammac.value))
  }

  /** Whether fetch_kdb_authdata consults the KDB module. */
  predicate WantsKdb(inp: Input) {
    if inp.subject.Some? then
      && NoAuthDataRequired !in inp.server.attributes
      && (inp.subject.value.authdata != [] || inp.flags * {CrossRealm, ProtocolTransition, ConstrainedDelegation} != {})
    else IncludePac in inp.flags
  }

  function WithKdb(inp: Input, tkt: EncTktPart): (r: Result<EncTktPart>) {
    if !WantsKdb(inp) || inp.kdb == Err(KRB5_PLUGIN_OP_NOTSUPP) then Ok(tkt)
    else if inp.kdb.Err? then Err(inp.kdb.code)
    else Ok(Appended(tkt, inp.kdb.value))
  }

  /** The Windows PAC is the only element. */
  predicate OnlyPac(ads: seq<AuthData>) {
    HasKdcIssued(ads, AD_WIN2K_PAC) && |ads| == 1
  }

  /** The delegation path handed down by the subject ticket.  A PAC-only ticket is not checked. */
  function SubjectPath(inp: Input): (r: Result<seq<Principal>>) {
    if inp.subject.None? || OnlyPac(inp.subject.value.authdata) then Ok([])
    else
      var v := VerifySignedPath(inp.localTgt, inp.subject.value);
      if v.Err? then Err(v.code)
      else if v.value.Some? then Ok(v.value.value)
      else if ConstrainedDelegation in inp.flags then Err(KRB5KDC_ERR_BADOPTION)
      else Ok([])
  }

  predicate WantsSignedPath(inp: Input, tkt: EncTktPart) {
    NoAuthDataRequired !in inp.server.attributes && !IsCrossTgs(inp.server.princ) && !OnlyPac(tkt.authdata)
  }

  /** The intermediary a proxy request adds to the path: the client entry, which is the evidence ticket's server. */
  function Intermediary(inp: Input): (r: Option<Principal>) {
    if ConstrainedDelegation in inp.flags && inp.client.Some? then Some(inp.client.value.princ) else None
  }

  function WithSignedPath(inp: Input, tkt: EncTktPart): (r: Result<EncTktPart>) {
    var path := SubjectPath(inp);
    if path.Err? then Err(path.code)
    else if !WantsSignedPath(inp, tkt) then Ok(tkt)
    else MakeSignedPath(inp.forUser, Intermediary(inp), inp.localTgt, path.value, tkt)
  }

  function Issue(inp: Input, tkt: EncTktPart): (r: Result<EncTktPart>) {
    var r1 := WithRequest(inp, tkt);
    if r1.Err? then r1 else
    var r3 := WithTgt(inp, WithModules(inp, r1.value));
    if r3.Err? then r3 else
    var r4 := WithIndicators(inp, r3.value);
    if r4.Err? || Anonymous in tkt.flags then r4 else
    var r5 := WithKdb(inp, r4.value);
    if r5.Err? then r5 else WithSignedPath(inp, r5.value)
  }

  // ----- The stages as the KDC runs them, on the reply in place -----

  ghost predicate Does(ret: Result<()>, part: EncTktPart, spec: Result<EncTktPart>) {
    if spec.Ok? then ret == Ok(()) && part == spec.value else ret == Err(spec.code)
  }

  class EncTktReply {
    var part: EncTktPart

    constructor (tkt: EncTktPart)
      ensures part == tkt
    {
      part := tkt;
    }

    // merge_authdata
    method MergeAuthdata(inAuthdata: seq<AuthData>, ignoreKdcIssued: bool)
      modifies this
      ensures part == Appended(old(part), if ignoreKdcIssued then Without(inAuthdata, 0) else inAuthdata)
    {
      if inAuthdata == [] {
        assert part.authdata + [] == part.authdata;
        return;
      }
      var kept := inAuthdata;
      if ignoreKdcIssued {
        kept := CopyWithout(inAuthdata, 0);
      }
      part := part.(authdata := part.authdata + kept);
    }

    // copy_request_authdata
    method CopyRequestAuthdata(inp: Input, tktReq: EncTktPart, enc: EncData) returns (ret: Result<()>)
      requires inp.subject == Some(tktReq) && inp.reqAuthdata == Some(enc)
      modifies this
      ensures Does(ret, part, WithRequest(inp, old(part)))
    {
      var plain := Decrypt(tktReq.session, KEYUSAGE_TGS_REQ_AD_SESSKEY, enc);
      if plain.Err? {
        plain := Decrypt(inp.clientKey, KEYUSAGE_TGS_REQ_AD_SUBKEY, enc);
      }
      if plain.Err? {
        return Err(plain.code);
      }
      if !plain.value.ElementsDer? {
        return Err(ASN1_PARSE_ERROR);
      }
      var unencAuthdata := plain.value.elements;
      var mandatory := HasMandatoryForKdcAuthdata(unencAuthdata);
      if mandatory {
        return Err(KRB5KDC_ERR_POLICY);
      }
      MergeAuthdata(unencAuthdata, true);
      return Ok(());
    }

    // copy_tgt_authdata
    method CopyTgtAuthdata(inp: Input, tgtAuthdata: seq<AuthData>) returns (ret: Result<()>)
      requires inp.subject.Some? && inp.subject.value.authdata == tgtAuthdata
      modifies this
      ensures Does(ret, part, WithTgt(inp, old(part)))
    {
      var mandatory := HasMandatoryForKdcAuthdata(tgtAuthdata);
      if mandatory {
        return Err(KRB5KDC_ERR_POLICY);
      }
      MergeAuthdata(tgtAuthdata, true);
      return Ok(());
    }

    // add_auth_indicators
    method AddAuthIndicators(inp: Input) returns (ret: Result<()>)
      requires inp.indicators != [] && NoAuthDataRequired !in inp.server.attributes
      modifies this
      ensures Does(ret, part, WithIndicators(inp, old(part)))
    {
      var cammac := CammacCreate(part, inp.serverKey, inp.localTgt, IndicatorData(inp.indicators));
      if cammac.Err? {
        return Err(cammac.code);
      }
      MergeAuthdata(cammac.value, false);
      return Ok(());
    }

    // fetch_kdb_authdata
    method FetchKdbAuthdata(inp: Input) returns (ret: Result<()>)
      modifies this
      ensures Does(ret, part, WithKdb(inp, old(part)))
    {
      if inp.subject.Some? {
        if NoAuthDataRequired in inp.server.attributes {
          return Ok(());
        }
        if inp.subject.value.authdata == [] &&
           inp.flags * {CrossRealm, ProtocolTransition, ConstrainedDelegation} == {} {
          return Ok(());
        }
      } else if IncludePac !in inp.flags {
        return Ok(());
      }
      if inp.kdb.Err? {
        return if inp.kdb.code == KRB5_PLUGIN_OP_NOTSUPP then Ok(()) else Err(inp.kdb.code);
      }
      MergeAuthdata(inp.kdb.value, false);
      return Ok(());
    }

    // make_signedpath
    method MakeSignedpath(
      forUser: Option<Principal>, server: Option<Principal>, krbtgt: seq<KeyData>, delegPath: seq<Principal>)
      returns (ret: Result<()>)
      modifies this
      ensures Does(ret, part, MakeSignedPath(forUser, server, krbtgt, delegPath, old(part)))
    {
      var delegated := delegPath;
      if server.Some? {
        delegated := delegated + [server.value];
      }
      assert server.None? ==> delegPath + [] == delegPath;
      var found := SearchEnctype(krbtgt, 0);
      if found.Err? {
        return Err(found.code);
      }
      if found.value.key.Err? {
        return Err(found.value.key.code);
      }
      var tgtkey := found.value.key.value;
      var data := MakeSignedpathData(if forUser.Some? then forUser.value else part.client,
                                     part.times.authtime, delegated, "", part.authdata);
      var cksum := MakeChecksum(tgtkey, KEYUSAGE_AD_SIGNEDPATH, data);
      if cksum.Err? {
        return if cksum.code == KRB5KRB_AP_ERR_INAPP_CKSUM then Ok(()) else Err(cksum.code);
      }
      var sp := SignedPath(tgtkey.enctype, cksum.value, delegated, "");
      MergeAuthdata([Container(AD_SIGNTICKET, SignedPathDer(sp))], false);
      return Ok(());
    }

    // handle_signticket
    method HandleSignticket(inp: Input) returns (ret: Result<()>)
      modifies this
      ensures Does(ret, part, WithSignedPath(inp, old(part)))
    {
      var s4u2proxy := ConstrainedDelegation in inp.flags;
      var delegPath: seq<Principal> := [];
      if inp.subject.Some? && !OnlyPac(inp.subject.value.authdata) {
        var v := VerifySignedPath(inp.localTgt, inp.subject.value);
        if v.Err? {
          return Err(v.code);
        }
        if v.value.None? && s4u2proxy {
          return Err(KRB5KDC_ERR_BADOPTION);
        }
        if v.value.Some? {
          delegPath := v.value.value;
        }
      }
      if NoAuthDataRequired !in inp.server.attributes && !IsCrossTgs(inp.server.princ) && !OnlyPac(part.authdata) {
        ret := MakeSignedpath(inp.forUser, Intermediary(inp), inp.localTgt, delegPath);
      } else {
        ret := Ok(());
      }
    }

    // The loop over the loaded modules, each of which appends to the reply.
    method RunModules(modules: seq<seq<AuthData>>)
      modifies this
      ensures part == Appended(old(part), Flatten(modules))
    {
      ghost var part1 := part;
      assert part1.authdata + [] == part1.authdata;
      for i := 0 to |modules|
        invariant part == Appended(part1, Flatten(modules[..i]))
      {
        assert modules[..i + 1][..i] == modules[..i];
        assert part1.authdata + Flatten(modules[..i]) + modules[i]
            == part1.authdata + (Flatten(modules[..i]) + modules[i]);
        MergeAuthdata(modules[i], false);
      }
      assert modules[..|modules|] == modules;
    }

    // handle_authdata
    method HandleAuthdata(inp: Input) returns (ret: Result<()>)
      modifies this
      ensures Does(ret, part, Issue(inp, old(part)))
    {
      hide Without, HasMandatory, CammacCreate, SubjectPath, WantsKdb, Flatten;
      ret := Ok(());
      if inp.subject.Some? && inp.reqAuthdata.Some? {
        ret := CopyRequestAuthdata(inp, inp.subject.value, inp.reqAuthdata.value);
        if ret.Err? {
          return;
        }
      }
      if Anonymous !in part.flags {
        RunModules(inp.modules);
      }
      if inp.subject.Some? {
        ret := CopyTgtAuthdata(inp, inp.subject.value.authdata);
        if ret.Err? {
          return;
        }
      }
      if inp.indicators != [] && NoAuthDataRequired !in inp.server.attributes {
        ret := AddAuthIndicators(inp);
        if ret.Err? {
          return;
        }
      }
      if Anonymous !in part.flags {
        ret := FetchKdbAuthdata(inp);
        if ret.Err? {
          return;
        }
        ret := HandleSignticket(inp);
      }
    }
  }
}
