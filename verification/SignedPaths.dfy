/** Signed delegation paths: making and verifying AD-SIGNTICKET elements (kdc_authdata.c). */
module SignedPaths {
  import opened KdcTypes
  import opened KeySearch
  import opened AuthdataLists
  import opened Cammacs

  // make_signedpath_data: the signature covers the ticket's authorization data minus any AD-SIGNTICKET.
  method MakeSignedpathData(
    client: Principal, authtime: int, delegPath: seq<Principal>, methodData: string, authdata: seq<AuthData>)
    returns (data: Signable)
    ensures data == SignedPathData(client, authtime, delegPath, methodData, authdata)
  {
    var signAuthdata := CopyWithout(authdata, AD_SIGNTICKET);
    data := SignedPathDataDer(client, authtime, delegPath, methodData, signAuthdata);
  }

  function SignedPathData(
    client: Principal, authtime: int, delegPath: seq<Principal>, methodData: string, authdata: seq<AuthData>)
    : (data: Signable)
  {
    SignedPathDataDer(client, authtime, delegPath, methodData, Without(authdata, AD_SIGNTICKET))
  }

  /** The trial of successively lower versions, `kvno` first (0 for the highest), `tries` at most. */
  function Trials(krbtgt: seq<KeyData>, data: Signable, cksum: Checksum, kvno: int, tries: nat): (r: Result<bool>)
    decreases tries
  {
    var found := FindKey(krbtgt, kvno);
    if found.Err? then Ok(false)
    else if found.value.key.Err? then Err(found.value.key.code)
    else
      var v := VerifyChecksum(found.value.key.value, KEYUSAGE_AD_SIGNEDPATH, data, cksum);
      if v != Ok(true) && tries > 1 && found.value.kvno - 1 != 0
      then Trials(krbtgt, data, cksum, found.value.kvno - 1, tries - 1)
      else v
  }

  function PathChecksumValid(krbtgt: seq<KeyData>, tkt: EncTktPart, sp: SignedPath): (r: Result<bool>) {
    if !IsKeyedCksum(sp.checksum) then Err(KRB5KRB_AP_ERR_INAPP_CKSUM)
    else Trials(krbtgt,
                SignedPathData(tkt.client, tkt.times.authtime, sp.delegated, sp.methodData, tkt.authdata),
                sp.checksum, 0, 3)
  }

  // verify_signedpath_checksum.  The version is an unsigned 32-bit value: one below 0 is not 0, and as a
  // signed argument of the key search it is -1, which again means the highest version.
  method VerifySignedpathChecksum(krbtgt: seq<KeyData>, tkt: EncTktPart, sp: SignedPath) returns (r: Result<bool>)
    ensures r == PathChecksumValid(krbtgt, tkt, sp)
  {
    if !IsKeyedCksum(sp.checksum) {
      return Err(KRB5KRB_AP_ERR_INAPP_CKSUM);
    }
    var data := MakeSignedpathData(tkt.client, tkt.times.authtime, sp.delegated, sp.methodData, tkt.authdata);
    var kvno, tries := 0, 3;
    while true
      invariant 0 < tries <= 3
      invariant Trials(krbtgt, data, sp.checksum, kvno, tries) == Trials(krbtgt, data, sp.checksum, 0, 3)
      decreases tries
    {
      var found := SearchEnctype(krbtgt, kvno);
      if found.Err? {
        return Ok(false);
      }
      var kd := found.value;
      if kd.key.Err? {
        return Err(kd.key.code);
      }
      r := VerifyChecksum(kd.key.value, KEYUSAGE_AD_SIGNEDPATH, data, sp.checksum);
      if r == Ok(true) {
        return;
      }
      kvno := kd.kvno - 1;
      tries := tries - 1;
      if !(tries > 0 && kvno != 0) {
        return;
      }
    }
  }

  /** Version `kvno` is present, and its first key can be decrypted. */
  predicate Usable(krbtgt: seq<KeyData>, kvno: int) {
    kvno >= 1 && FindKey(krbtgt, kvno).Ok? && FindKey(krbtgt, kvno).value.key.Ok?
  }

  predicate FirstKeyIs(krbtgt: seq<KeyData>, kvno: int, key: Key) {
    Usable(krbtgt, kvno) && FindKey(krbtgt, kvno).value.key.value == key
  }

  predicate VerifiesAt(krbtgt: seq<KeyData>, kvno: int, data: Signable, cksum: Checksum) {
    && Usable(krbtgt, kvno)
    && VerifyChecksum(FindKey(krbtgt, kvno).value.key.value, KEYUSAGE_AD_SIGNEDPATH, data, cksum) == Ok(true)
  }

  /** Every version from `kvno` up to the highest is usable, and there are at most three of them. */
  ghost predicate AmongLastThree(krbtgt: seq<KeyData>, kvno: int) {
    && MaxKvno(krbtgt) - 3 < kvno <= MaxKvno(krbtgt)
    && forall v :: kvno <= v <= MaxKvno(krbtgt) ==> Usable(krbtgt, v)
  }

  ghost predicate KeyAmongLastThree(krbtgt: seq<KeyData>, key: Key) {
    exists v :: AmongLastThree(krbtgt, v) && FirstKeyIs(krbtgt, v, key)
  }

  lemma FoundVersion(krbtgt: seq<KeyData>, kvno: int)
    requires kvno >= 0 && FindKey(krbtgt, kvno).Ok?
    ensures FindKey(krbtgt, kvno).value.kvno == if kvno == 0 then MaxKvno(krbtgt) else kvno
  {
    FindKeyIs(krbtgt, kvno);
  }

  /** The trials accept exactly when the checksum verifies under the first key of one of at most three
      consecutive versions, counted down from the highest and stopping at the first missing one. */
  lemma TrialsAcceptExactly(krbtgt: seq<KeyData>, data: Signable, cksum: Checksum)
    requires MaxKvno(krbtgt) >= 1
    ensures Trials(krbtgt, data, cksum, 0, 3) == Ok(true) <==>
            exists v :: AmongLastThree(krbtgt, v) && VerifiesAt(krbtgt, v, data, cksum)
  {
    var h := MaxKvno(krbtgt);
    assert FindKey(krbtgt, 0) == FindKey(krbtgt, h);
    assert Trials(krbtgt, data, cksum, 0, 3) == Trials(krbtgt, data, cksum, h, 3);
    TrialsFrom(krbtgt, data, cksum, h, 3);
  }

  lemma {:induction false} TrialsFrom(krbtgt: seq<KeyData>, data: Signable, cksum: Checksum, kvno: int, tries: nat)
    requires 1 <= kvno && 0 < tries <= 3 && MaxKvno(krbtgt) - kvno == 3 - tries
    requires forall v :: kvno < v <= MaxKvno(krbtgt) ==> Usable(krbtgt, v)
    ensures Trials(krbtgt, data, cksum, kvno, tries) == Ok(true) <==>
            exists v :: v <= kvno && AmongLastThree(krbtgt, v) && VerifiesAt(krbtgt, v, data, cksum)
    decreases tries
  {
    hide FindKey, MaxKvno, VerifyChecksum;
    if Usable(krbtgt, kvno) && !VerifiesAt(krbtgt, kvno, data, cksum) {
      FoundVersion(krbtgt, kvno);
      if tries > 1 && kvno > 1 {
        TrialsFrom(krbtgt, data, cksum, kvno - 1, tries - 1);
      }
    } else if VerifiesAt(krbtgt, kvno, data, cksum) {
      assert AmongLastThree(krbtgt, kvno);
    }
  }

  /** A checksum made under the first key of version k is accepted by a later entry exactly when at most two
      newer versions have been added and every version from k on is still there, without a gap. */
  lemma SurvivesTwoRollovers(krbtgt: seq<KeyData>, data: Signable, key: Key, k: nat)
    requires 1 <= k <= MaxKvno(krbtgt)
    requires forall v :: Usable(krbtgt, v) ==> (FirstKeyIs(krbtgt, v, key) <==> v == k)
    ensures Trials(krbtgt, data, Mac(key, KEYUSAGE_AD_SIGNEDPATH, data), 0, 3) == Ok(true) <==>
            AmongLastThree(krbtgt, k)
  {
    TrialsAcceptExactly(krbtgt, data, Mac(key, KEYUSAGE_AD_SIGNEDPATH, data));
    if AmongLastThree(krbtgt, k) {
      assert Usable(krbtgt, k) && VerifiesAt(krbtgt, k, data, Mac(key, KEYUSAGE_AD_SIGNEDPATH, data));
    }
  }

  // make_signedpath: `server` is the intermediary to append, if any; the caller's path is extended.
  function MakeSignedPath(
    forUser: Option<Principal>, server: Option<Principal>, krbtgt: seq<KeyData>, delegPath: seq<Principal>,
    tkt: EncTktPart)
    : (r: Result<EncTktPart>)
  {
    var delegated := delegPath + if server.Some? then [server.value] else [];
    var client := if forUser.Some? then forUser.value else tkt.client;
    var found := FindKey(krbtgt, 0);
    if found.Err? then Err(found.code)
    else if found.value.key.Err? then Err(found.value.key.code)
    else
      var tgtkey := found.value.key.value;
      var cksum := MakeChecksum(tgtkey, KEYUSAGE_AD_SIGNEDPATH,
                                SignedPathData(client, tkt.times.authtime, delegated, "", tkt.authdata));
      if cksum == Err(KRB5KRB_AP_ERR_INAPP_CKSUM) then Ok(tkt)
      else if cksum.Err? then Err(cksum.code)
      else
        var sp := SignedPath(tgtkey.enctype, cksum.value, delegated, "");
        Ok(tkt.(authdata := tkt.authdata + [Container(AD_SIGNTICKET, SignedPathDer(sp))]))
  }

  // verify_signedpath: None when the ticket has no path that verifies.
  function VerifySignedPath(krbtgt: seq<KeyData>, tkt: EncTktPart): (r: Result<Option<seq<Principal>>>) {
    var found := FindAuthdata(tkt.authdata, AD_SIGNTICKET);
    if found.Err? then Err(found.code)
    else if |found.value| != 1 || !found.value[0].contents.SignedPathDer? then Ok(None)
    else
      var sp := found.value[0].contents.path;
      var valid := PathChecksumValid(krbtgt, tkt, sp);
      if valid.Err? then Err(valid.code) else Ok(if valid.value then Some(sp.delegated) else None)
  }

  /** A path that was made verifies on the finished ticket exactly when the ticket's other authorization data
      is searchable and holds no AD-SIGNTICKET, the path was made for the ticket's own client, and the
      signing key is the first of one of the last three contiguous versions.  It then reads back as made. */
  lemma SignedPathVerifies(
    forUser: Option<Principal>, server: Option<Principal>, krbtgt: seq<KeyData>, delegPath: seq<Principal>,
    tkt: EncTktPart, krbtgt': seq<KeyData>)
    requires var made := MakeSignedPath(forUser, server, krbtgt, delegPath, tkt);
             made.Ok? && made.value != tkt
    requires MaxKvno(krbtgt') >= 1
    ensures var tkt' := MakeSignedPath(forUser, server, krbtgt, delegPath, tkt).value;
            var path := delegPath + if server.Some? then [server.value] else [];
            && Leaves(tkt'.authdata, AD_SIGNTICKET) != []
            && (VerifySignedPath(krbtgt', tkt') == Ok(Some(path)) <==>
                && Decodes(tkt.authdata) && Leaves(tkt.authdata, AD_SIGNTICKET) == []
                && (forUser.Some? ==> forUser.value == tkt.client)
                && KeyAmongLastThree(krbtgt', FindKey(krbtgt, 0).value.key.value))
  {
    var key := FindKey(krbtgt, 0).value.key.value;
    var sp := PathSigned(forUser, server, key, delegPath, tkt);
    MadeIs(forUser, server, krbtgt, delegPath, tkt);
    hide MakeSignedPath, FindKey, MaxKvno, KeyAmongLastThree, Leaves, Decodes, Without, VerifySignedPath;
    hide PathChecksumValid, PathSigned;
    SignticketLeaf(tkt.authdata, SignedPathDer(sp));
    VerifyAdded(tkt, sp, krbtgt');
    ValidExactly(forUser, server, key, delegPath, tkt, krbtgt');
  }

  /** The path that is made under `key`. */
  function PathSigned(
    forUser: Option<Principal>, server: Option<Principal>, key: Key, delegPath: seq<Principal>, tkt: EncTktPart)
    : (sp: SignedPath)
    ensures sp.delegated == delegPath + if server.Some? then [server.value] else []
  {
    var delegated := delegPath + if server.Some? then [server.value] else [];
    var client := if forUser.Some? then forUser.value else tkt.client;
    var data := SignedPathData(client, tkt.times.authtime, delegated, "", tkt.authdata);
    SignedPath(key.enctype, Mac(key, KEYUSAGE_AD_SIGNEDPATH, data), delegated, "")
  }

  function PathAdded(tkt: EncTktPart, sp: SignedPath): (t: EncTktPart) {
    tkt.(authdata := tkt.authdata + [Container(AD_SIGNTICKET, SignedPathDer(sp))])
  }

  lemma MadeIs(
    forUser: Option<Principal>, server: Option<Principal>, krbtgt: seq<KeyData>, delegPath: seq<Principal>,
    tkt: EncTktPart)
    requires var made := MakeSignedPath(forUser, server, krbtgt, delegPath, tkt);
             made.Ok? && made.value != tkt
    ensures FindKey(krbtgt, 0).Ok? && FindKey(krbtgt, 0).value.key.Ok?
    ensures MakeSignedPath(forUser, server, krbtgt, delegPath, tkt)
         == Ok(PathAdded(tkt, PathSigned(forUser, server, FindKey(krbtgt, 0).value.key.value, delegPath, tkt)))
  {
    hide FindKey, SignedPathData;
  }

  /** Verification looks at the added path exactly if it is the only one to be found. */
  lemma VerifyAdded(tkt: EncTktPart, sp: SignedPath, krbtgt: seq<KeyData>)
    ensures VerifySignedPath(krbtgt, PathAdded(tkt, sp)) == Ok(Some(sp.delegated)) <==>
            && Decodes(tkt.authdata) && Leaves(tkt.authdata, AD_SIGNTICKET) == []
            && PathChecksumValid(krbtgt, PathAdded(tkt, sp), sp) == Ok(true)
  {
    hide PathChecksumValid, Leaves, Decodes, Without, FindAuthdata;
    SignticketLeaf(tkt.authdata, SignedPathDer(sp));
    var leaf := AuthData(AD_SIGNTICKET, SignedPathDer(sp));
    assert [] + [leaf] == [leaf];
  }

  /** The added path's checksum is valid exactly if it was made for the ticket's client under one of the last three
      versions. */
  lemma ValidExactly(
    forUser: Option<Principal>, server: Option<Principal>, key: Key, delegPath: seq<Principal>, tkt: EncTktPart,
    krbtgt: seq<KeyData>)
    requires MaxKvno(krbtgt) >= 1
    ensures var sp := PathSigned(forUser, server, key, delegPath, tkt);
            PathChecksumValid(krbtgt, PathAdded(tkt, sp), sp) == Ok(true) <==>
            (forUser.Some? ==> forUser.value == tkt.client) && KeyAmongLastThree(krbtgt, key)
  {
    hide Leaves, Decodes, Without, FindAuthdata, MaxKvno, AmongLastThree, FindKey, Trials;
    var sp := PathSigned(forUser, server, key, delegPath, tkt);
    var tkt' := PathAdded(tkt, sp);
    SignticketLeaf(tkt.authdata, SignedPathDer(sp));
    var data := SignedPathData(tkt'.client, tkt'.times.authtime, sp.delegated, sp.methodData, tkt'.authdata);
    TrialsAcceptExactly(krbtgt, data, sp.checksum);
    assert forall v :: VerifiesAt(krbtgt, v, data, sp.checksum) <==>
                       FirstKeyIs(krbtgt, v, key) && sp.checksum.over == data;
  }

  /** A ticket with any other number of signed paths than one gives no path; one whose containers do not decode, or
      whose path has a checksum without a key, is refused. */
  lemma {:induction false} WithoutOnePath(krbtgt: seq<KeyData>, tkt: EncTktPart)
    ensures var leaves := Leaves(tkt.authdata, AD_SIGNTICKET);
            && (!Decodes(tkt.authdata) ==> VerifySignedPath(krbtgt, tkt).Err?)
            && (Decodes(tkt.authdata) && |leaves| <= 256 && |leaves| != 1 ==> VerifySignedPath(krbtgt, tkt) == Ok(None))
            && (Decodes(tkt.authdata) && |leaves| == 1 && leaves[0].contents.SignedPathDer?
                && leaves[0].contents.path.checksum.RawChecksum? && !leaves[0].contents.path.checksum.keyed
                ==> VerifySignedPath(krbtgt, tkt) == Err(KRB5KRB_AP_ERR_INAPP_CKSUM))
  {
    FindAuthdataIs(tkt.authdata, AD_SIGNTICKET);
    hide FindAuthdata, Leaves, Decodes, Trials;
  }

  /** A checksum that the trials accept was made under a key of the entry, over exactly this data. */
  lemma {:induction false} AcceptedWasMade(
    krbtgt: seq<KeyData>, data: Signable, cksum: Checksum, kvno: int, tries: nat)
    requires Trials(krbtgt, data, cksum, kvno, tries) == Ok(true)
    ensures cksum.Mac? && HoldsKey(krbtgt, cksum.key) && cksum.usage == KEYUSAGE_AD_SIGNEDPATH && cksum.over == data
    decreases tries
  {
    hide FindKey;
    var found := FindKey(krbtgt, kvno).value;
    FoundIsHeld(krbtgt, kvno);
    if VerifyChecksum(found.key.value, KEYUSAGE_AD_SIGNEDPATH, data, cksum) != Ok(true) {
      AcceptedWasMade(krbtgt, data, cksum, found.kvno - 1, tries - 1);
    }
  }

  /** A path that verifies is the whole of what some key of the entry signed: for this client and time of
      authentication, with this very list of delegators, in a ticket with the same other authorization data. */
  lemma {:induction false} VerifiedWasSigned(krbtgt: seq<KeyData>, tkt: EncTktPart, path: seq<Principal>)
    requires VerifySignedPath(krbtgt, tkt) == Ok(Some(path))
    ensures exists sp: SignedPath ::
              && Leaves(tkt.authdata, AD_SIGNTICKET) == [AuthData(AD_SIGNTICKET, SignedPathDer(sp))]
              && sp.checksum.Mac? && HoldsKey(krbtgt, sp.checksum.key)
              && sp.checksum.usage == KEYUSAGE_AD_SIGNEDPATH
              && sp.checksum.over
                 == SignedPathDataDer(tkt.client, tkt.times.authtime, path, sp.methodData,
                                      Without(tkt.authdata, AD_SIGNTICKET))
  {
    hide Trials, Leaves, Without, FindAuthdata, FindKey;
    FindAuthdataIs(tkt.authdata, AD_SIGNTICKET);
    var leaf := FindAuthdata(tkt.authdata, AD_SIGNTICKET).value[0];
    var sp := leaf.contents.path;
    LeafType(tkt.authdata, AD_SIGNTICKET, leaf);
    var data := SignedPathData(tkt.client, tkt.times.authtime, sp.delegated, sp.methodData, tkt.authdata);
    AcceptedWasMade(krbtgt, data, sp.checksum, 0, 3);
    assert Leaves(tkt.authdata, AD_SIGNTICKET) == [AuthData(AD_SIGNTICKET, SignedPathDer(sp))];
  }

  /** So a signed path verifies on no ticket once its list of delegators has been changed, nor on one for another
      client, with another time of authentication, or with other authorization data beside it. */
  lemma {:induction false} AlteredPathFails(
    forUser: Option<Principal>, server: Option<Principal>, key: Key, delegPath: seq<Principal>, tkt: EncTktPart,
    krbtgt: seq<KeyData>, tkt': EncTktPart, delegated: seq<Principal>)
    requires var sp := PathSigned(forUser, server, key, delegPath, tkt);
             PathChecksumValid(krbtgt, tkt', sp.(delegated := delegated)) == Ok(true)
    ensures delegated == PathSigned(forUser, server, key, delegPath, tkt).delegated
    ensures tkt'.client == (if forUser.Some? then forUser.value else tkt.client)
    ensures tkt'.times.authtime == tkt.times.authtime
    ensures Without(tkt'.authdata, AD_SIGNTICKET) == Without(tkt.authdata, AD_SIGNTICKET)
  {
    hide Trials, Without;
    var sp := PathSigned(forUser, server, key, delegPath, tkt);
    AcceptedWasMade(krbtgt, SignedPathData(tkt'.client, tkt'.times.authtime, delegated, sp.methodData, tkt'.authdata),
                    sp.checksum, 0, 3);
  }

  /** An AD-SIGNTICKET in its own container is found after the others, and the signature does not cover it. */
  lemma SignticketLeaf(ads: seq<AuthData>, contents: Contents)
    ensures var all := ads + [Container(AD_SIGNTICKET, contents)];
            && Leaves(all, AD_SIGNTICKET) == Leaves(ads, AD_SIGNTICKET) + [AuthData(AD_SIGNTICKET, contents)]
            && (Decodes(all) <==> Decodes(ads))
            && Without(all, AD_SIGNTICKET) == Without(ads, AD_SIGNTICKET)
            && (FindAuthdata(all, AD_SIGNTICKET).Ok? <==> Decodes(all) && |Leaves(all, AD_SIGNTICKET)| <= 256)
            && (FindAuthdata(all, AD_SIGNTICKET).Ok? ==>
                  FindAuthdata(all, AD_SIGNTICKET).value == Leaves(all, AD_SIGNTICKET))
  {
    var added := Container(AD_SIGNTICKET, contents);
    var inner := added.contents.elements;
    LeavesConcat(ads, [added], AD_SIGNTICKET);
    WithoutConcat(ads, [added], AD_SIGNTICKET);
    FindAuthdataIs(ads + [added], AD_SIGNTICKET);
    assert Reserved(inner[0].adType, AD_SIGNTICKET);
    assert Without([added], AD_SIGNTICKET) == [] by {
      assert [added][..0] == [];
    }
    assert Leaves(inner, AD_SIGNTICKET) == inner;
    assert Leaves([added], AD_SIGNTICKET) == inner;
    assert DecodesIn(inner[0]) && Decodes(inner) && DecodesIn(added) && Decodes([added]);
  }
}
