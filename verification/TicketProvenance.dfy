/** Tickets pass through hands that can change them: a service holds the key its tickets are encrypted in.  What a
    KDC reads from the tickets presented to it goes back, all the same, to what the KDC itself signed.  A log is
    any sequence of exchanges with this KDC.  The tickets presented in it are arbitrary, except that nobody else
    makes checksums under its ticket-granting keys. */
module TicketProvenance {
  import opened KdcTypes
  import opened KeySearch
  import opened AuthdataLists
  import opened Cammacs
  import opened SignedPaths
  import opened TicketAuthdata
  import opened TgsIssue
  import opened TicketChains
  import opened IndicatorChains
  import opened PathChains

  datatype Exchange =
    | FromAs(inp: Input, base: EncTktPart)
    | FromTgs(hop: Hop, presented: EncTktPart)

  /** The exchange issued a ticket. */
  predicate Happened(e: Exchange) {
    match e
    case FromAs(inp, base) =>
      inp.subject.None? && inp.forUser.None? && ConstrainedDelegation !in inp.flags && Issue(inp, base).Ok?
    case FromTgs(hop, presented) => IssueTgs(hop, presented).Ok?
  }

  predicate IsLog(log: seq<Exchange>) {
    forall k :: 0 <= k < |log| ==> Happened(log[k])
  }

  function InputOf(e: Exchange): (inp: Input)
    requires Happened(e)
  {
    match e
    case FromAs(inp, _) => inp
    case FromTgs(hop, presented) => HopInput(hop, presented, HopIndicators(hop, presented).value)
  }

  function PartOf(e: Exchange): (t: EncTktPart) {
    match e
    case FromAs(_, base) => base
    case FromTgs(hop, presented) => ReplyPart(hop, presented)
  }

  // ----- Indicators -----

  function IndicatorsOf(e: Exchange): (r: seq<string>)
    requires Happened(e)
  {
    InputOf(e).indicators
  }

  /** What the exchange signs for its CAMMAC: its ticket, with its indicators for authorization data. */
  function CammacSignature(e: Exchange): (d: Signable)
    requires Happened(e)
  {
    EncTktDer(PartOf(e).(authdata := [AuthData(AD_AUTH_INDICATOR, StringsDer(IndicatorsOf(e)))]))
  }

  /** The CAMMAC that an exchange adds carries that signature. */
  lemma OwnCammacSignature(e: Exchange)
    requires Happened(e) && CammacPart(InputOf(e), PartOf(e)) != []
    ensures exists c: Cammac :: CammacPart(InputOf(e), PartOf(e)) == [Container(AD_CAMMAC, CammacDer(c))]
              && c.kdcVerifier.Some? && c.kdcVerifier.value.checksum.Mac?
              && c.kdcVerifier.value.checksum.over == CammacSignature(e)
  {
    hide FindKey, InputOf, PartOf, Happened;
    var inp, tkt := InputOf(e), PartOf(e);
    var made := CammacCreate(tkt, inp.serverKey, inp.localTgt, IndicatorData(inp.indicators)).value;
    var c := made[0].contents.elements[0].contents.cammac;
    assert made == [Container(AD_CAMMAC, CammacDer(c))];
  }

  /** If the KDC verifier of `ad` was made under a key of `krbtgt`, then by one of the first `n` exchanges. */
  ghost predicate VerifierGenuine(log: seq<Exchange>, n: nat, ad: AuthData, krbtgt: seq<KeyData>)
    requires n <= |log| && IsLog(log)
  {
    && ad.contents.CammacDer? && ad.contents.cammac.kdcVerifier.Some?
    && var c := ad.contents.cammac.kdcVerifier.value.checksum;
    && c.Mac? && c.usage == KEYUSAGE_CAMMAC && HoldsKey(krbtgt, c.key) ==>
      exists k :: 0 <= k < n && ad.contents.cammac.kdcVerifier.value.checksum.over == CammacSignature(log[k])
  }

  ghost predicate CammacsGenuine(log: seq<Exchange>, n: nat, t: EncTktPart, krbtgt: seq<KeyData>)
    requires n <= |log| && IsLog(log)
  {
    forall ad :: ad in Leaves(t.authdata, AD_CAMMAC) ==> VerifierGenuine(log, n, ad, krbtgt)
  }

  lemma {:induction false} SomeContributes(cammacs: seq<AuthData>, t: EncTktPart, krbtgt: seq<KeyData>, x: string)
    returns (ad: AuthData)
    requires Gathered(cammacs, t, krbtgt).Ok? && x in Gathered(cammacs, t, krbtgt).value
    ensures ad in cammacs && Contribution(ad, t, krbtgt).Ok? && x in Contribution(ad, t, krbtgt).value
  {
    if x in Contribution(cammacs[0], t, krbtgt).value {
      ad := cammacs[0];
    } else {
      ad := SomeContributes(cammacs[1..], t, krbtgt, x);
    }
  }

  /** Whatever has been done to a ticket, an indicator that it gives was signed by an earlier exchange for a ticket
      that is the same but for its authorization data. */
  lemma {:induction false} ReadWasSigned(log: seq<Exchange>, n: nat, t: EncTktPart, krbtgt: seq<KeyData>, x: string)
    returns (k: nat)
    requires n <= |log| && IsLog(log) && CammacsGenuine(log, n, t, krbtgt)
    requires AuthIndicators(t, krbtgt).Ok? && x in AuthIndicators(t, krbtgt).value
    ensures k < n && x in IndicatorsOf(log[k]) && PartOf(log[k]).(authdata := []) == t.(authdata := [])
  {
    FindAuthdataIs(t.authdata, AD_CAMMAC);
    hide Happened, InputOf, PartOf, FindAuthdata, Leaves, FindKey;
    var cammacs := Leaves(t.authdata, AD_CAMMAC);
    var ad := SomeContributes(cammacs, t, krbtgt, x);
    hide Gathered, CheckKdcver, Extracted;
    var cammac := ad.contents.cammac;
    VerifierCovers(cammac, t, krbtgt);
    assert VerifierGenuine(log, n, ad, krbtgt);
    k :| 0 <= k < n && cammac.kdcVerifier.value.checksum.over == CammacSignature(log[k]);
    var part, inds := PartOf(log[k]), IndicatorsOf(log[k]);
    assert t.(authdata := cammac.elements) == part.(authdata := IndicatorData(inds));
    assert cammac.elements == IndicatorData(inds);
    IndicatorDataReads(inds);
    assert part.(authdata := []) == part.(authdata := IndicatorData(inds)).(authdata := []);
    assert t.(authdata := []) == t.(authdata := cammac.elements).(authdata := []);
  }

  ghost predicate GenuineCammacs(log: seq<Exchange>)
    requires IsLog(log)
  {
    forall n :: 0 <= n < |log| && log[n].FromTgs? ==> CammacsGenuine(log, n, log[n].presented, log[n].hop.localTgt)
  }

  lemma TgsIndicators(hop: Hop, presented: EncTktPart)
    requires IssueTgs(hop, presented).Ok?
    ensures var e := FromTgs(hop, presented);
            && Happened(e)
            && (IndicatorsOf(e) == [] || AuthIndicators(presented, hop.localTgt) == Ok(IndicatorsOf(e)))
            && (IndicatorsOf(e) != [] ==> PartOf(e).client == presented.client)
            && PartOf(e).times.authtime == presented.times.authtime
  {
    hide AuthIndicators, Issue, Refusal, TransitError, MeetsRequirement;
    ReplyKeeps(hop, presented);
  }

  /** Over every log, however the tickets between the exchanges were changed: an indicator that a ticket is issued with
      was established by an AS exchange for the same client, at the same time of authentication. */
  lemma {:induction false} IndicatorsGoBackToAs(log: seq<Exchange>, n: nat, x: string) returns (m: nat)
    requires IsLog(log) && GenuineCammacs(log) && n < |log| && x in IndicatorsOf(log[n])
    ensures m <= n && log[m].FromAs? && x in log[m].inp.indicators
    ensures log[m].base.client == PartOf(log[n]).client
    ensures log[m].base.times.authtime == PartOf(log[n]).times.authtime
    decreases n
  {
    var e := log[n];
    assert Happened(e);
    if e.FromAs? {
      m := n;
    } else {
      TgsIndicators(e.hop, e.presented);
      hide Happened, InputOf, PartOf, AuthIndicators, CammacsGenuine;
      assert CammacsGenuine(log, n, e.presented, e.hop.localTgt);
      var k := ReadWasSigned(log, n, e.presented, e.hop.localTgt, x);
      assert PartOf(log[k]).client == PartOf(log[k]).(authdata := []).client;
      assert PartOf(log[k]).times == PartOf(log[k]).(authdata := []).times;
      m := IndicatorsGoBackToAs(log, k, x);
    }
  }

  // ----- Delegation paths -----

  /** The client that the exchange signs its path for. */
  function SignedClient(e: Exchange): (p: Principal)
    requires Happened(e)
  {
    if InputOf(e).forUser.Some? then InputOf(e).forUser.value else PartOf(e).client
  }

  /** `path` is the path of the exchange: that of the ticket presented, and the service that asks if it is a proxy. */
  predicate HasPath(e: Exchange, path: seq<Principal>)
    requires Happened(e)
  {
    && Anonymous !in PartOf(e).flags
    && var p := SubjectPath(InputOf(e)); p.Ok? && path == Extend(p.value, Intermediary(InputOf(e)))
  }

  function PathSignature(e: Exchange, path: seq<Principal>): (d: Signable)
    requires Happened(e)
  {
    SignedPathDataDer(SignedClient(e), PartOf(e).times.authtime, path, "",
                      Without(Unsigned(InputOf(e), PartOf(e)).authdata, AD_SIGNTICKET))
  }

  /** The path that an exchange adds carries that signature. */
  lemma OwnPathSignature(e: Exchange, path: seq<Principal>)
    requires Happened(e) && Signs(InputOf(e), PartOf(e)) && HasPath(e, path)
    requires Issue(InputOf(e), PartOf(e)).Ok?
    ensures exists sp: SignedPath ::
              && Issue(InputOf(e), PartOf(e)).value == PathAdded(Unsigned(InputOf(e), PartOf(e)), sp)
              && sp.delegated == path && sp.checksum.Mac? && sp.checksum.over == PathSignature(e, path)
  {
    hide InputOf, PartOf, Happened, Issue, Unsigned, SubjectPath, WantsSignedPath, FindKey, Without;
    var inp, tkt := InputOf(e), PartOf(e);
    var u, p := Unsigned(inp, tkt), SubjectPath(inp).value;
    IssueIsSigned(inp, tkt, p);
    MadePathAdds(inp, u, p);
    assert u.client == tkt.client && u.times == tkt.times by {
      UnsignedKeeps(inp, tkt);
    }
    hide MakeSignedPath;
    MadeIs(inp.forUser, Intermediary(inp), inp.localTgt, p, u);
    var sp := PathSigned(inp.forUser, Intermediary(inp), FindKey(inp.localTgt, 0).value.key.value, p, u);
    assert sp.checksum.over == PathSignature(e, path);
  }

  lemma UnsignedKeeps(inp: Input, tkt: EncTktPart)
    ensures Unsigned(inp, tkt).client == tkt.client && Unsigned(inp, tkt).times == tkt.times
  {
  }

  /** If the path checksum of `ad` was made under a key of `krbtgt`, then by one of the first `n` exchanges. */
  ghost predicate PathGenuine(log: seq<Exchange>, n: nat, ad: AuthData, krbtgt: seq<KeyData>)
    requires n <= |log| && IsLog(log)
  {
    && ad.contents.SignedPathDer?
    && var c := ad.contents.path.checksum;
    && c.Mac? && c.usage == KEYUSAGE_AD_SIGNEDPATH && HoldsKey(krbtgt, c.key) ==>
      exists k, path :: SignedBy(log, n, ad.contents.path.checksum.over, k, path)
  }

  ghost predicate SignedBy(log: seq<Exchange>, n: nat, d: Signable, k: int, path: seq<Principal>)
    requires n <= |log| && IsLog(log)
  {
    0 <= k < n && HasPath(log[k], path) && d == PathSignature(log[k], path)
  }

  ghost predicate PathsGenuine(log: seq<Exchange>, n: nat, t: EncTktPart, krbtgt: seq<KeyData>)
    requires n <= |log| && IsLog(log)
  {
    forall ad :: ad in Leaves(t.authdata, AD_SIGNTICKET) ==> PathGenuine(log, n, ad, krbtgt)
  }

  ghost predicate GenuinePaths(log: seq<Exchange>)
    requires IsLog(log)
  {
    forall n :: 0 <= n < |log| && log[n].FromTgs? ==> PathsGenuine(log, n, log[n].presented, log[n].hop.localTgt)
  }

  /** Whatever has been done to a ticket, a path that it gives was signed by an earlier exchange, for its client
      and time of authentication, with the same other authorization data. */
  lemma {:induction false} VerifiedPathIsOurs(
    log: seq<Exchange>, n: nat, t: EncTktPart, krbtgt: seq<KeyData>, path: seq<Principal>)
    returns (k: nat)
    requires n <= |log| && IsLog(log) && PathsGenuine(log, n, t, krbtgt)
    requires VerifySignedPath(krbtgt, t) == Ok(Some(path))
    ensures k < n && HasPath(log[k], path) && SignedClient(log[k]) == t.client
    ensures PartOf(log[k]).times.authtime == t.times.authtime
    ensures Without(Unsigned(InputOf(log[k]), PartOf(log[k])).authdata, AD_SIGNTICKET)
         == Without(t.authdata, AD_SIGNTICKET)
  {
    hide Happened, InputOf, PartOf, VerifySignedPath, Leaves, Without, Unsigned, HasPath, SignedClient;
    VerifiedWasSigned(krbtgt, t, path);
    var sp: SignedPath :|
      && Leaves(t.authdata, AD_SIGNTICKET) == [AuthData(AD_SIGNTICKET, SignedPathDer(sp))]
      && sp.checksum.Mac? && HoldsKey(krbtgt, sp.checksum.key) && sp.checksum.usage == KEYUSAGE_AD_SIGNEDPATH
      && sp.checksum.over
         == SignedPathDataDer(t.client, t.times.authtime, path, sp.methodData, Without(t.authdata, AD_SIGNTICKET));
    var ad := AuthData(AD_SIGNTICKET, SignedPathDer(sp));
    assert ad in Leaves(t.authdata, AD_SIGNTICKET);
    assert PathGenuine(log, n, ad, krbtgt);
    var k', path' :| SignedBy(log, n, sp.checksum.over, k', path');
    k := k';
  }

  /** The exchange is a proxy request by `service`. */
  predicate DelegatedBy(e: Exchange, service: Principal) {
    e.FromTgs? && e.hop.kind.ForProxy? && e.hop.kind.header.client == service
  }

  /** `at` are exchanges up to the n-th, in order, in which the services of `path` asked, one by one. */
  ghost predicate AskedAt(log: seq<Exchange>, n: nat, path: seq<Principal>, at: seq<nat>) {
    && |at| == |path| && n < |log|
    && (forall i :: 0 <= i < |at| ==> at[i] <= n && DelegatedBy(log[at[i]], path[i]))
    && (forall i, j :: 0 <= i < j < |at| ==> at[i] < at[j])
  }

  lemma TgsPath(hop: Hop, presented: EncTktPart, path: seq<Principal>) returns (p: seq<Principal>)
    requires Happened(FromTgs(hop, presented)) && HasPath(FromTgs(hop, presented), path)
    ensures p == [] || VerifySignedPath(hop.localTgt, presented) == Ok(Some(p))
    ensures path == if hop.kind.ForProxy? then p + [hop.kind.header.client] else p
  {
    hide Issue, VerifySignedPath, OnlyPac, AuthIndicators, TransitError, MeetsRequirement, PolicyError, ReplyPart;
    var inp := InputOf(FromTgs(hop, presented));
    p := SubjectPath(inp).value;
    assert Refusal(hop, presented) == 0;
    assert path == Extend(p, Intermediary(inp));
    assert p + [] == p;
  }

  lemma AskedNext(log: seq<Exchange>, k: nat, n: nat, p: seq<Principal>, at: seq<nat>)
    requires n < |log| && ((p == [] && at == []) || (k < n && AskedAt(log, k, p, at)))
    ensures AskedAt(log, n, p, at)
    ensures forall service :: DelegatedBy(log[n], service) ==> AskedAt(log, n, p + [service], at + [n])
  {
    hide DelegatedBy;
  }

  /** Over every log, however the tickets between the exchanges were changed: the path of a ticket names, in order,
      services that each asked to act as a proxy, in exchanges of the log that came one after the other. */
  lemma {:induction false} PathsGoBackToProxies(log: seq<Exchange>, n: nat, path: seq<Principal>) returns (at: seq<nat>)
    requires IsLog(log) && GenuinePaths(log) && n < |log| && HasPath(log[n], path)
    ensures AskedAt(log, n, path, at)
    decreases n
  {
    var e := log[n];
    assert Happened(e);
    if e.FromAs? {
      assert path == [];
      at := [];
    } else {
      var p := TgsPath(e.hop, e.presented, path);
      hide Happened, HasPath, VerifySignedPath, PathsGenuine, AskedAt;
      at := [];
      var k := 0;
      if p != [] {
        assert PathsGenuine(log, n, e.presented, e.hop.localTgt);
        k := VerifiedPathIsOurs(log, n, e.presented, e.hop.localTgt, p);
        at := PathsGoBackToProxies(log, k, p);
      }
      AskedNext(log, k, n, p, at);
      if e.hop.kind.ForProxy? {
        at := at + [n];
      }
    }
  }
}
