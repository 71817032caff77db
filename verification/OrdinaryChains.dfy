/** The chain theorems are about chains of exchanges that each issue a ticket.  Chains of ordinary exchanges always
    do: nothing their own CAMMACs and signed paths leave in one ticket gets in the way of the next. */
module OrdinaryChains {
  import opened KdcTypes
  import opened KeySearch
  import opened AuthdataLists
  import opened Cammacs
  import opened SignedPaths
  import opened TicketAuthdata
  import opened TgsPolicy
  import opened TgsIssue
  import opened TicketChains
  import opened IndicatorChains
  import opened PathChains
  import opened AnonymousTickets
  import opened RenewalChains

  /** The ticket holds nothing but at most one CAMMAC and one signed path. */
  ghost predicate OwnDataOnly(t: EncTktPart) {
    exists c, p :: t.authdata == c + p && AtMostOne(AD_CAMMAC, c) && AtMostOne(AD_SIGNTICKET, p)
  }

  lemma AtMostOneIsPlain(adType: int, list: seq<AuthData>)
    requires AtMostOne(adType, list) && adType != AD_WIN2K_PAC
    ensures !HasMandatory(list) && !HasKdcIssued(list, AD_WIN2K_PAC)
  {
    if list != [] {
      var contents :| list == [Container(adType, contents)];
    }
  }

  lemma OwnDataIsPlain(t: EncTktPart)
    requires OwnDataOnly(t)
    ensures Without(t.authdata, 0) == [] && !HasMandatory(t.authdata) && !OnlyPac(t.authdata)
  {
    var c, p :| t.authdata == c + p && AtMostOne(AD_CAMMAC, c) && AtMostOne(AD_SIGNTICKET, p);
    AtMostOneReserved(AD_CAMMAC, c);
    AtMostOneReserved(AD_SIGNTICKET, p);
    WithoutConcat(c, p, 0);
    AtMostOneIsPlain(AD_CAMMAC, c);
    AtMostOneIsPlain(AD_SIGNTICKET, p);
    hide Without, AtMostOne;
    forall i | 0 <= i < |t.authdata|
      ensures t.authdata[i].adType != AD_MANDATORY_FOR_KDC && !KdcIssued(t.authdata[i], AD_WIN2K_PAC)
    {
      if i < |c| {
        assert t.authdata[i] == c[i];
      } else {
        assert t.authdata[i] == p[i - |c|];
      }
    }
  }

  predicate SoundKeys(krbtgt: seq<KeyData>) {
    CanSign(krbtgt) && MaxKvno(krbtgt) >= 1
  }

  lemma SoundKeysRead(krbtgt: seq<KeyData>)
    requires SoundKeys(krbtgt)
    ensures Retains(krbtgt, krbtgt) && KeyAmongLastThree(krbtgt, SigningKey(krbtgt))
  {
    var h := MaxKvno(krbtgt);
    FoundVersion(krbtgt, 0);
    assert FindKey(krbtgt, h) == FindKey(krbtgt, 0);
    assert AmongLastThree(krbtgt, h) && FirstKeyIs(krbtgt, h, SigningKey(krbtgt));
  }

  /** No authorization data comes from the request, from modules or from the KDB, and the service takes some. */
  predicate OrdinaryInput(inp: Input) {
    && inp.reqAuthdata.None? && inp.modules == [] && inp.kdb == Err(KRB5_PLUGIN_OP_NOTSUPP)
    && SoundKeys(inp.localTgt) && inp.serverKey.macError == 0
    && NoAuthDataRequired !in inp.server.attributes && !IsCrossTgs(inp.server.princ)
  }

  /** The subject ticket, if any, holds its own data only and the path it hands on is `path`. */
  ghost predicate HandsOn(inp: Input, path: seq<Principal>) {
    if inp.subject.None? then path == []
    else OwnDataOnly(inp.subject.value) && VerifySignedPath(inp.localTgt, inp.subject.value) == Ok(Some(path))
  }

  lemma OrdinaryParts(inp: Input, tkt: EncTktPart, path: seq<Principal>)
    requires OrdinaryInput(inp) && HandsOn(inp, path) && tkt.authdata == []
    ensures Early(inp, tkt) == [] && KdbPart(inp, tkt) == [] && !MandatoryInput(inp)
    ensures SubjectPath(inp) == Ok(path)
  {
    hide Without, VerifySignedPath, FindKey, MaxKvno;
    if inp.subject.Some? {
      OwnDataIsPlain(inp.subject.value);
    }
    assert Flatten([]) == [];
  }

  /** Ordinary inputs hide nothing. */
  lemma OrdinaryIsQuiet(inp: Input, tkt: EncTktPart, path: seq<Principal>, reader: seq<KeyData>)
    requires OrdinaryInput(inp) && HandsOn(inp, path) && tkt.authdata == []
    ensures Quiet(inp, tkt, reader) && PathClean(inp, tkt)
  {
    OrdinaryParts(inp, tkt, path);
    hide Early, KdbPart, OrdinaryInput, HandsOn;
    assert Leaves([], AD_CAMMAC) == [];
  }

  lemma OrdinaryCammac(inp: Input, tkt: EncTktPart)
    requires OrdinaryInput(inp)
    ensures inp.indicators != [] ==>
              CammacCreate(tkt, inp.serverKey, inp.localTgt, IndicatorData(inp.indicators)).Ok?
    ensures AtMostOne(AD_CAMMAC, CammacPart(inp, tkt))
  {
    hide FindKey, MaxKvno;
  }

  lemma OrdinaryStages(inp: Input, tkt: EncTktPart, path: seq<Principal>)
    requires OrdinaryInput(inp) && HandsOn(inp, path) && tkt.authdata == [] && Anonymous !in tkt.flags
    ensures Issue(inp, tkt) == WithSignedPath(inp, tkt.(authdata := CammacPart(inp, tkt)))
    ensures Unsigned(inp, tkt) == tkt.(authdata := CammacPart(inp, tkt))
  {
    hide Without, VerifySignedPath, FindKey, MaxKvno, CammacCreate, WithSignedPath;
    OrdinaryParts(inp, tkt, path);
    OrdinaryCammac(inp, tkt);
    if inp.subject.Some? {
      OwnDataIsPlain(inp.subject.value);
    }
    assert WithRequest(inp, tkt) == Ok(tkt);
    assert WithModules(inp, tkt) == tkt by {
      assert Flatten(inp.modules) == [];
    }
    assert WithTgt(inp, tkt) == Ok(tkt);
    var cammac := CammacPart(inp, tkt);
    assert [] + cammac == cammac && [] + cammac + [] == cammac;
    assert WithIndicators(inp, tkt) == Ok(tkt.(authdata := cammac));
  }

  /** An ordinary exchange issues a ticket, and that ticket is again one that holds its own data only. */
  lemma {:induction false} OrdinaryIssue(inp: Input, tkt: EncTktPart, path: seq<Principal>)
    requires OrdinaryInput(inp) && HandsOn(inp, path) && tkt.authdata == [] && Anonymous !in tkt.flags
    ensures Issue(inp, tkt).Ok? && OwnDataOnly(Issue(inp, tkt).value)
    ensures Signs(inp, tkt)
  {
    OrdinaryParts(inp, tkt, path);
    OrdinaryStages(inp, tkt, path);
    OrdinaryCammac(inp, tkt);
    hide Issue, Unsigned, SubjectPath, FindKey, MaxKvno, CammacPart, Early, KdbPart;
    var u := tkt.(authdata := CammacPart(inp, tkt));
    AtMostOneIsPlain(AD_CAMMAC, u.authdata);
    assert WantsSignedPath(inp, u);
    MadePathAdds(inp, u, path);
    var made := MakeSignedPath(inp.forUser, Intermediary(inp), inp.localTgt, path, u).value;
    var added := made.authdata[|u.authdata|];
    assert made.authdata == u.authdata + [added];
    assert AtMostOne(AD_SIGNTICKET, [added]);
  }

  // ----- Ordinary exchanges -----

  /** What a ticket stands for: the client it names, the service it is for, the indicators and the delegators it vouches
      for, and whether its client was preauthenticated. */
  datatype Standing = Standing(
    client: Principal, server: Principal, indicators: seq<string>, path: seq<Principal>, preauth: bool)

  function After(s: Standing, hop: Hop): (r: Standing) {
    Standing(NextClient(hop, s.client), hop.server.princ, Vouched(hop, s.indicators),
             s.path + Delegators([hop], s.server),
             if hop.kind.ForProxy? then PreAuth in hop.kind.header.flags else s.preauth)
  }

  ghost predicate Typical(t: EncTktPart, krbtgt: seq<KeyData>, s: Standing) {
    && OwnDataOnly(t) && Usable(t) && t.client == s.client && (PreAuth in t.flags <==> s.preauth)
    && AuthIndicators(t, krbtgt) == Ok(s.indicators) && VerifySignedPath(krbtgt, t) == Ok(Some(s.path))
  }

  predicate Usable(t: EncTktPart) {
    Anonymous !in t.flags && Invalid !in t.flags && Forwardable in t.flags
  }

  /** Options that an ordinary exchange does not use. */
  const UNUSUAL_OPTIONS := NON_TGT_OPTIONS + {OptProxiable, OptAllowPostdate, OptPostdated}

  const UNUSUAL_ATTRIBUTES :=
    {DisallowForwardable, DisallowRenewable, DisallowAllTix, DisallowSvr, DisallowTgtBased, RequiresHwAuth}

  /** An exchange with ordinary inputs, on a ticket of this realm's TGS, which asks for a forwardable ticket and for
      nothing that policy would refuse. */
  predicate OrdinaryHop(hop: Hop, krbtgt: seq<KeyData>, s: Standing) {
    && OrdinaryRequest(hop) && OrdinaryService(hop, s)
    && (match hop.kind
        case Plain => hop.headerServer == s.server
        case ForProxy(_, _, _) => OrdinaryProxy(hop, s)
        case ForUser(_, _, _, _) => hop.headerServer == s.server && OrdinaryTransition(hop, s))
    && !Restricted(hop.realm, Requester(hop, s), hop.request.server)
    && hop.modules == [] && hop.kdb == Err(KRB5_PLUGIN_OP_NOTSUPP)
    && hop.localTgt == krbtgt && SoundKeys(krbtgt) && hop.serverKey.macError == 0
  }

  function Requester(hop: Hop, s: Standing): (p: Principal) {
    if hop.kind.ForProxy? then hop.kind.header.client else s.client
  }

  predicate OrdinaryRequest(hop: Hop) {
    && OptForwardable in hop.request.options && hop.request.options !! UNUSUAL_OPTIONS && hop.request.authdata.None?
    && hop.headerServer == LocalTgs(hop.realm) && hop.request.server.realm == hop.realm.name
    && hop.kdbPolicy == 0 && hop.transitError == 0 && (hop.realm.rejectBadTransit ==> hop.transitChecked)
  }

  /** The service is in the database under the name asked for, and allows the request. */
  predicate OrdinaryService(hop: Hop, s: Standing) {
    && hop.server.princ == hop.request.server && hop.server.attributes !! UNUSUAL_ATTRIBUTES
    && (RequiresPreAuth in hop.server.attributes ==> After(s, hop).preauth)
    && (hop.server.expiration != 0 ==> hop.kdcTime <= hop.server.expiration)
    && MeetsRequirement(hop.requireAuth, Vouched(hop, s.indicators))
    && NoAuthDataRequired !in ServerEntry(hop).attributes && !IsCrossTgs(hop.server.princ)
  }

  /** The service that the evidence ticket is for asks, with a usable ticket of its own. */
  predicate OrdinaryProxy(hop: Hop, s: Standing)
    requires hop.kind.ForProxy?
  {
    && Usable(hop.kind.header) && hop.kind.header.client == hop.kind.intermediary.princ == s.server
    && hop.kind.policy == 0
    && !IsTgs(hop.request.server) && hop.request.server.realm == hop.kind.intermediary.princ.realm
  }

  /** The service asks for a ticket to itself, for a user who may be represented by one that can be forwarded. */
  predicate OrdinaryTransition(hop: Hop, s: Standing)
    requires hop.kind.ForUser?
  {
    && NamesRequester(hop.request, s.client) && hop.kind.policy == 0
    && (hop.kind.userEntry.Some? ==> DisallowForwardable !in hop.kind.userEntry.value.attributes)
    && OkToAuthAsDelegate in hop.server.attributes
  }

  /** A protocol transition is asked for by a service of this realm. */
  predicate LocalTransition(hop: Hop, s: Standing) {
    hop.kind.ForUser? ==> s.client.realm == hop.realm.name
  }

  lemma OrdinaryOptions(hop: Hop, flags: set<TktFlag>)
    requires OrdinaryRequest(hop) && Forwardable in flags
    ensures OptionsBacked(hop.request.options, flags)
    ensures hop.request.options * NON_TGT_OPTIONS == {}
    ensures hop.server.attributes !! UNUSUAL_ATTRIBUTES ==>
              Denied(SVC_DENY_RULES, hop.request.options, hop.server.attributes) == 0
  {
    var o := hop.request.options;
    assert o * NON_TGT_OPTIONS == {};
    forall i | 0 <= i < |TGS_FLAG_RULES|
      ensures Backed(TGS_FLAG_RULES[i], o, flags)
    {
      assert i > 0 ==> o * TGS_FLAG_RULES[i].options == {};
    }
    if hop.server.attributes !! UNUSUAL_ATTRIBUTES {
      NoneDenies(SVC_DENY_RULES, o, hop.server.attributes);
    }
  }

  lemma OrdinaryPolicy(hop: Hop, subject: EncTktPart, krbtgt: seq<KeyData>, s: Standing)
    requires OrdinaryHop(hop, krbtgt, s) && Usable(subject) && subject.client == s.client
    requires PreAuth in subject.flags <==> s.preauth
    ensures PolicyError(hop, subject) == 0
  {
    hide SoundKeys, MeetsRequirement, IsCrossTgs;
    var header := Header(hop, subject);
    OrdinaryOptions(hop, header.flags);
    hide OptionsBacked, Denied;
    assert OptRenew !in hop.request.options && OptValidate !in hop.request.options;
    assert ServiceError(hop.server, hop.headerServer, header.flags, hop.kdcTime) == 0;
    assert NameError(hop.request, hop.headerServer) == 0;
  }

  lemma {:induction false} OrdinaryAdmitted(hop: Hop, subject: EncTktPart, krbtgt: seq<KeyData>, s: Standing)
    requires OrdinaryHop(hop, krbtgt, s) && Usable(subject) && subject.client == s.client
    requires PreAuth in subject.flags <==> s.preauth
    ensures Refusal(hop, subject) == 0
  {
    OrdinaryPolicy(hop, subject, krbtgt, s);
    OrdinaryOptions(hop, Header(hop, subject).flags);
    hide SoundKeys, MeetsRequirement, PolicyError, OptionsBacked, Denied, OrdinaryService, NamesRequester, Restricted;
    assert !IsReferral(hop) by {
      assert hop.server.princ == hop.request.server;
    }
  }

  lemma OrdinaryHopInput(hop: Hop, subject: EncTktPart, krbtgt: seq<KeyData>, s: Standing, indicators: seq<string>)
    requires OrdinaryHop(hop, krbtgt, s)
    ensures OrdinaryInput(HopInput(hop, subject, indicators))
  {
    hide SoundKeys, MeetsRequirement, OrdinaryProxy, OrdinaryTransition, Restricted, HopFlags;
  }

  lemma OrdinaryReplyFlags(hop: Hop, subject: EncTktPart, krbtgt: seq<KeyData>, s: Standing)
    requires OrdinaryHop(hop, krbtgt, s) && Usable(subject) && (PreAuth in subject.flags <==> s.preauth)
    ensures Usable(ReplyPart(hop, subject)) && TransitError(hop, subject) == 0
    ensures PreAuth in ReplyPart(hop, subject).flags <==> After(s, hop).preauth
  {
    ReplyAnonymous(hop, subject);
    ReplyInvalid(hop, subject);
    ReplyAuthFlags(hop, subject);
    hide SoundKeys, MeetsRequirement, ReplyRenew, ServerEntry, Restricted, IsCrossTgs, NamesRequester;
    var o := hop.request.options;
    assert OptRenew !in o && OptValidate !in o && OptPostdated !in o;
    assert Forwardable in FreshFlags(hop, Header(hop, subject));
  }

  lemma OrdinaryHopIssues(hop: Hop, subject: EncTktPart, krbtgt: seq<KeyData>, s: Standing)
    requires OrdinaryHop(hop, krbtgt, s) && Typical(subject, krbtgt, s)
    ensures HopIndicators(hop, subject) == Ok(Vouched(hop, s.indicators))
    ensures var inp := HopInput(hop, subject, Vouched(hop, s.indicators));
            && OrdinaryInput(inp) && HandsOn(inp, s.path)
            && IssueTgs(hop, subject) == Issue(inp, ReplyPart(hop, subject))
    ensures ReplyPart(hop, subject).authdata == [] && ReplyPart(hop, subject).client == NextClient(hop, s.client)
  {
    OrdinaryAdmitted(hop, subject, krbtgt, s);
    OrdinaryReplyFlags(hop, subject, krbtgt, s);
    OrdinaryHopInput(hop, subject, krbtgt, s, Vouched(hop, s.indicators));
    ReplyKeeps(hop, subject);
    hide Issue, ReplyPart, VerifySignedPath, AuthIndicators, SoundKeys, OwnDataOnly, Refusal, OrdinaryInput;
    hide TransitError, OrdinaryRequest, OrdinaryProxy, OrdinaryTransition, MeetsRequirement, Restricted, Usable;
  }

  /** An ordinary exchange about a typical ticket meets the conditions of both chain theorems. */
  lemma {:induction false} OrdinaryHopQualifies(hop: Hop, subject: EncTktPart, krbtgt: seq<KeyData>, s: Standing)
    requires OrdinaryHop(hop, krbtgt, s) && Typical(subject, krbtgt, s)
    ensures Traceable(hop, subject, s.server) && OwnDataOnly(IssueTgs(hop, subject).value)
    ensures Quiet(HopInput(hop, subject, Vouched(hop, s.indicators)), ReplyPart(hop, subject), krbtgt)
    ensures CleanHop(hop, subject, krbtgt) <==> NamesUser(hop, subject)
  {
    OrdinaryHopIssues(hop, subject, krbtgt, s);
    OrdinaryReplyFlags(hop, subject, krbtgt, s);
    SoundKeysRead(krbtgt);
    var inp, base := HopInput(hop, subject, Vouched(hop, s.indicators)), ReplyPart(hop, subject);
    OrdinaryIssue(inp, base, s.path);
    OrdinaryIsQuiet(inp, base, s.path, krbtgt);
    OwnDataIsPlain(subject);
    hide Issue, IssueTgs, ReplyPart, VerifySignedPath, AuthIndicators, FindKey, MaxKvno, KeyAmongLastThree, Retains;
    hide Quiet, CanSign, OwnDataOnly, Signs, OnlyPac, PathClean, MeetsRequirement, OrdinaryRequest, OrdinaryService;
    hide OrdinaryTransition, Restricted, NamesUser;
  }

  /** Ordinary exchanges keep tickets typical, so each one is as good a subject as the last. */
  lemma {:induction false} OrdinaryHopStaysTypical(hop: Hop, subject: EncTktPart, krbtgt: seq<KeyData>, s: Standing)
    requires OrdinaryHop(hop, krbtgt, s) && LocalTransition(hop, s) && Typical(subject, krbtgt, s)
    ensures IssueTgs(hop, subject).Ok? && Typical(IssueTgs(hop, subject).value, krbtgt, After(s, hop))
    ensures CleanHop(hop, subject, krbtgt)
  {
    OrdinaryHopQualifies(hop, subject, krbtgt, s);
    OrdinaryReplyFlags(hop, subject, krbtgt, s);
    SoundKeysRead(krbtgt);
    assert NamesUser(hop, subject);
    IssuedFlags(hop, subject);
    hide IssueTgs, ReplyPart, VerifySignedPath, AuthIndicators, FindKey, MaxKvno, KeyAmongLastThree, Retains, Quiet;
    hide CanSign, OwnDataOnly, Traceable, CleanHop, MeetsRequirement, OrdinaryRequest, OrdinaryProxy, NextClient;
    hide OrdinaryTransition, Restricted, NamesUser, Delegators, Vouched;
    HopExactly(hop, subject, s.indicators, krbtgt);
    HopTraces(hop, subject, s.server, s.path, krbtgt);
  }

  /** But where a service of another realm asks for an otherwise ordinary protocol transition, the ticket it gets does
      not give the path on: the path was signed for the user, and the ticket names the service. */
  lemma {:induction false} ForeignTransitionLosesPath(hop: Hop, subject: EncTktPart, krbtgt: seq<KeyData>, s: Standing)
    requires OrdinaryHop(hop, krbtgt, s) && Typical(subject, krbtgt, s)
    requires hop.kind.ForUser? && s.client.realm != hop.realm.name && hop.kind.user != s.client
    ensures var next := IssueTgs(hop, subject);
            && next.Ok? && next.value.client == s.client
            && VerifySignedPath(krbtgt, next.value) != Ok(Some(s.path))
  {
    OrdinaryHopQualifies(hop, subject, krbtgt, s);
    SoundKeysRead(krbtgt);
    assert !NamesUser(hop, subject);
    hide IssueTgs, ReplyPart, VerifySignedPath, AuthIndicators, FindKey, MaxKvno, KeyAmongLastThree, Retains, Quiet;
    hide CanSign, OwnDataOnly, Traceable, CleanHop, MeetsRequirement, OrdinaryRequest, OrdinaryProxy, Delegators;
    hide OrdinaryTransition, Restricted, NamesUser;
    HopExactly(hop, subject, s.indicators, krbtgt);
    HopTraces(hop, subject, s.server, s.path, krbtgt);
    NoDelegator(hop, s.server, s.path);
  }

  lemma NoDelegator(hop: Hop, server: Principal, path: seq<Principal>)
    requires !hop.kind.ForProxy?
    ensures path + Delegators([hop], server) == path
  {
    assert Delegators([hop][1..], hop.server.princ) == [];
  }

  // ----- Ordinary chains -----

  predicate OrdinaryChain(hops: seq<Hop>, krbtgt: seq<KeyData>, s: Standing) {
    hops != [] ==>
      && OrdinaryHop(hops[0], krbtgt, s) && LocalTransition(hops[0], s)
      && OrdinaryChain(hops[1..], krbtgt, After(s, hops[0]))
  }

  /** Every chain of ordinary exchanges meets the conditions of both chain theorems. */
  lemma {:induction false} OrdinaryChainsQualify(
    hops: seq<Hop>, subject: EncTktPart, krbtgt: seq<KeyData>, s: Standing)
    requires SoundKeys(krbtgt) && OrdinaryChain(hops, krbtgt, s) && Typical(subject, krbtgt, s)
    ensures KeepsKeys(s.indicators, krbtgt, hops, krbtgt) && QuietThroughout(s.indicators, hops, subject, krbtgt)
    ensures TraceableChain(hops, subject, s.server, krbtgt) && CleanThroughout(hops, subject, krbtgt)
    decreases |hops|
  {
    hide Typical, IssueTgs, Traceable, Quiet, CleanHop, MaxKvno, FindKey, KeyAmongLastThree, Retains;
    hide OrdinaryRequest, OrdinaryProxy, OrdinaryTransition, Restricted, MeetsRequirement, NextClient;
    SoundKeysRead(krbtgt);
    if hops != [] {
      OrdinaryHopQualifies(hops[0], subject, krbtgt, s);
      OrdinaryHopStaysTypical(hops[0], subject, krbtgt, s);
      assert Reader(hops, krbtgt) == krbtgt;
      ReadersAre(hops[1..], krbtgt, After(s, hops[0]));
      OrdinaryChainsQualify(hops[1..], IssueTgs(hops[0], subject).value, krbtgt, After(s, hops[0]));
    }
  }

  lemma ReadersAre(hops: seq<Hop>, krbtgt: seq<KeyData>, s: Standing)
    requires OrdinaryChain(hops, krbtgt, s)
    ensures Reader(hops, krbtgt) == krbtgt
  {
  }

  function Start(asInp: Input, base: EncTktPart): (s: Standing) {
    Standing(base.client, asInp.server.princ, asInp.indicators, [], PreAuth in base.flags)
  }

  lemma OrdinaryStart(asInp: Input, base: EncTktPart)
    requires OrdinaryInput(asInp) && asInp.subject.None? && ConstrainedDelegation !in asInp.flags
    requires asInp.forUser.None? && base.authdata == [] && Usable(base)
    ensures Issue(asInp, base).Ok? && Signs(asInp, base)
    ensures Quiet(asInp, base, asInp.localTgt) && PathClean(asInp, base)
    ensures Typical(Issue(asInp, base).value, asInp.localTgt, Start(asInp, base))
    ensures SoundKeys(asInp.localTgt) && NoAuthDataRequired !in asInp.server.attributes
  {
    hide Issue, FindKey, MaxKvno, OwnDataOnly, SubjectPath, VerifySignedPath, CanSign, IsCrossTgs, Early, KdbPart;
    hide MandatoryInput, Quiet, PathClean, Signs, AuthIndicators, KeyAmongLastThree, Retains;
    assert HandsOn(asInp, []);
    OrdinaryIssue(asInp, base, []);
    OrdinaryParts(asInp, base, []);
    OrdinaryIsQuiet(asInp, base, [], asInp.localTgt);
    SoundKeysRead(asInp.localTgt);
    IndicatorsExactly(asInp, base, asInp.localTgt);
    PathExactly(asInp, base, [], asInp.localTgt);
    assert Intermediary(asInp) == None;
    assert Extend([], Intermediary(asInp)) == [];
    IssueKeeps(asInp, base);
    assert Issue(asInp, base).value.flags == base.flags;
  }

  /** One such transition: a host of another realm, which this realm knows by the same name, asks on behalf of
      `user`. */
  function TransitionOfHost(asInp: Input, base: EncTktPart, realm: Realm, user: Principal): (hop: Hop) {
    var host, key := Principal(realm.name, base.client.components), asInp.serverKey;
    Hop(ForUser(user, None, true, 0), Request({OptForwardable}, host, HostBased, 0, 0, "", None), 0, realm,
        DbEntry(host, {OkToAuthAsDelegate}, [], 0, 0, 0), asInp.localTgt, key, key, key, LocalTgs(realm), 0,
        "", 0, true, None, [], Err(KRB5_PLUGIN_OP_NOTSUPP))
  }

  lemma TransitionOfHostIsOrdinary(asInp: Input, base: EncTktPart, realm: Realm, user: Principal)
    requires OrdinaryInput(asInp) && asInp.server.princ == LocalTgs(realm) && !realm.restrictAnon
    requires |base.client.components| == 2 && base.client.components[0] == "host"
    ensures OrdinaryHop(TransitionOfHost(asInp, base, realm, user), asInp.localTgt, Start(asInp, base))
  {
    hide SoundKeys, After;
  }

  /** The first ticket of that host gives the empty path, and the ticket of its protocol transition does not. */
  lemma {:induction false} TransitionOfHostLosesPath(asInp: Input, base: EncTktPart, realm: Realm, user: Principal)
    requires OrdinaryInput(asInp) && asInp.subject.None? && ConstrainedDelegation !in asInp.flags
    requires asInp.forUser.None? && base.authdata == [] && Usable(base)
    requires asInp.server.princ == LocalTgs(realm) && !realm.restrictAnon
    requires |base.client.components| == 2 && base.client.components[0] == "host"
    requires base.client.realm != realm.name && user != base.client
    ensures Issue(asInp, base).Ok?
    ensures var t := Issue(asInp, base).value; var next := IssueTgs(TransitionOfHost(asInp, base, realm, user), t);
            && VerifySignedPath(asInp.localTgt, t) == Ok(Some([]))
            && next.Ok? && VerifySignedPath(asInp.localTgt, next.value) != Ok(Some([]))
  {
    OrdinaryStart(asInp, base);
    TransitionOfHostIsOrdinary(asInp, base, realm, user);
    var t, hop := Issue(asInp, base).value, TransitionOfHost(asInp, base, realm, user);
    assert hop.kind.ForUser? && hop.kind.user == user && hop.realm == realm;
    hide Issue, IssueTgs, VerifySignedPath, AuthIndicators, OrdinaryInput, OrdinaryHop, OwnDataOnly, TransitionOfHost;
    ForeignTransitionLosesPath(hop, t, asInp.localTgt, Start(asInp, base));
  }

  /** So after any number of ordinary exchanges there is a ticket; it vouches for the indicators of the AS exchange
      (or for none, after a protocol transition), its path is the list of services that delegated, and it names the
      client of the AS exchange or the user of the last transition. */
  lemma {:induction false} OrdinaryChainsDeliver(asInp: Input, base: EncTktPart, hops: seq<Hop>)
    requires OrdinaryInput(asInp) && asInp.subject.None? && ConstrainedDelegation !in asInp.flags
    requires asInp.forUser.None? && base.authdata == [] && Usable(base)
    requires OrdinaryChain(hops, asInp.localTgt, Start(asInp, base))
    ensures Issue(asInp, base).Ok?
    ensures var end := Run(hops, Issue(asInp, base).value);
            && end.Ok? && AuthIndicators(end.value, asInp.localTgt) == Ok(VouchedAfter(hops, asInp.indicators))
            && VerifySignedPath(asInp.localTgt, end.value) == Ok(Some(Delegators(hops, asInp.server.princ)))
            && end.value.client == ClientAfter(hops, base.client) && end.value.times.authtime == base.times.authtime
  {
    hide Issue, VerifySignedPath, AuthIndicators, OrdinaryInput, Run, Delegators, Typical, OrdinaryChain, Signs, Quiet;
    hide QuietThroughout, ReadThroughout, TracedThroughout, CleanThroughout, TraceableChain, KeepsKeys, PathClean;
    hide KeyAmongLastThree, FindKey, MaxKvno, MeetsRequirement, VouchedAfter, ClientAfter, Usable;
    OrdinaryStart(asInp, base);
    SoundKeysRead(asInp.localTgt);
    var t := Issue(asInp, base).value;
    OrdinaryChainsQualify(hops, t, asInp.localTgt, Start(asInp, base));
    ReadersAre(hops, asInp.localTgt, Start(asInp, base));
    IndicatorsSurviveChain(asInp, base, hops, asInp.localTgt);
    PathIsDelegators(asInp, base, hops, asInp.localTgt);
  }

  // One request that is not ordinary: a malformed CAMMAC two containers deep, where the filter does not look.

  const MALFORMED := AuthData(AD_CAMMAC, Octets(""))
  const HIDDEN := AuthData(AD_IF_RELEVANT, ElementsDer([AuthData(AD_IF_RELEVANT, ElementsDer([MALFORMED]))]))

  lemma HiddenIsKept()
    ensures Without([HIDDEN], 0) == [HIDDEN] && !HasMandatory([HIDDEN]) && !HasKdcIssued([HIDDEN], AD_WIN2K_PAC)
    ensures Leaves([HIDDEN], AD_CAMMAC) == [MALFORMED]
  {
    var middle := HIDDEN.contents.elements[0];
    assert [HIDDEN][..0] == [];
    assert Leaves([MALFORMED], AD_CAMMAC) == LeavesOf(MALFORMED, AD_CAMMAC) + Leaves([MALFORMED][1..], AD_CAMMAC);
    assert Leaves([middle], AD_CAMMAC) == LeavesOf(middle, AD_CAMMAC) + Leaves([middle][1..], AD_CAMMAC);
    assert Leaves([HIDDEN], AD_CAMMAC) == LeavesOf(HIDDEN, AD_CAMMAC) + Leaves([HIDDEN][1..], AD_CAMMAC);
  }

  /** A ticket whose first CAMMAC is malformed gives no indicators to anyone. */
  lemma MalformedCammacFails(t: EncTktPart, krbtgt: seq<KeyData>)
    requires Leaves(t.authdata, AD_CAMMAC) != [] && !Leaves(t.authdata, AD_CAMMAC)[0].contents.CammacDer?
    ensures AuthIndicators(t, krbtgt).Err?
  {
    FindAuthdataIs(t.authdata, AD_CAMMAC);
  }

  /** `inp` with a request that carries the hidden CAMMAC, encrypted in the subject ticket's session key. */
  function Hiding(inp: Input): (r: Input)
    requires inp.subject.Some?
  {
    inp.(reqAuthdata := Some(
      EncData(inp.subject.value.session, KEYUSAGE_TGS_REQ_AD_SESSKEY, ElementsDer([HIDDEN]))))
  }

  lemma HidingRequest(inp: Input, tkt: EncTktPart)
    requires inp.subject.Some? && tkt.authdata == []
    ensures WithRequest(Hiding(inp), tkt) == Ok(tkt.(authdata := [HIDDEN]))
  {
    hide Without, HasMandatory, HasKdcIssued;
    HiddenIsKept();
    assert [] + [HIDDEN] == [HIDDEN];
  }

  lemma HidingUnsigned(inp: Input, tkt: EncTktPart, path: seq<Principal>)
    requires OrdinaryInput(inp) && inp.subject.Some? && HandsOn(inp, path)
    requires tkt.authdata == [] && Anonymous !in tkt.flags
    ensures Issue(Hiding(inp), tkt) == WithSignedPath(Hiding(inp), tkt.(authdata := [HIDDEN] + CammacPart(inp, tkt)))
  {
    var bad, t1 := Hiding(inp), tkt.(authdata := [HIDDEN]);
    HidingRequest(inp, tkt);
    OrdinaryCammac(inp, t1);
    OwnDataIsPlain(inp.subject.value);
    hide Without, VerifySignedPath, FindKey, MaxKvno, CammacCreate, WithSignedPath, OwnDataOnly, WithRequest, Hiding;
    assert bad.subject == inp.subject && bad.modules == [] && bad.kdb == inp.kdb && bad.indicators == inp.indicators
      && bad.server == inp.server && bad.serverKey == inp.serverKey && bad.localTgt == inp.localTgt by {
      HidingFields(inp);
    }
    assert [HIDDEN] + [] == [HIDDEN];
    assert WithModules(bad, t1) == t1 by {
      assert Flatten(bad.modules) == [];
    }
    assert WithTgt(bad, t1) == Ok(t1);
    var contents := IndicatorData(inp.indicators);
    SameCammac(tkt, t1, inp.serverKey, inp.localTgt, contents);
    assert WithIndicators(bad, t1) == Ok(tkt.(authdata := [HIDDEN] + CammacPart(inp, tkt)));
  }

  lemma HidingFields(inp: Input)
    requires inp.subject.Some?
    ensures var bad := Hiding(inp);
            && bad.subject == inp.subject && bad.modules == inp.modules && bad.kdb == inp.kdb
            && bad.indicators == inp.indicators && bad.server == inp.server && bad.serverKey == inp.serverKey
            && bad.localTgt == inp.localTgt && bad.flags == inp.flags && bad.forUser == inp.forUser
  {
  }

  /** The KDC verifier does not cover the authorization data the ticket has when it is made. */
  lemma SameCammac(a: EncTktPart, b: EncTktPart, serverKey: Key, krbtgt: seq<KeyData>, contents: seq<AuthData>)
    requires a.(authdata := []) == b.(authdata := [])
    ensures CammacCreate(a, serverKey, krbtgt, contents) == CammacCreate(b, serverKey, krbtgt, contents)
  {
    assert a.(authdata := contents) == a.(authdata := []).(authdata := contents);
    assert b.(authdata := contents) == b.(authdata := []).(authdata := contents);
  }

  lemma HidingPath(inp: Input, path: seq<Principal>)
    requires inp.subject.Some? && HandsOn(inp, path)
    ensures SubjectPath(Hiding(inp)) == Ok(path)
  {
    OwnDataIsPlain(inp.subject.value);
    HidingFields(inp);
    hide Hiding, OwnDataOnly, VerifySignedPath, OnlyPac;
  }

  lemma HidingSigns(inp: Input, u: EncTktPart, path: seq<Principal>)
    requires OrdinaryInput(inp) && inp.subject.Some? && HandsOn(inp, path)
    ensures WithSignedPath(Hiding(inp), u).Ok? && u.authdata <= WithSignedPath(Hiding(inp), u).value.authdata
  {
    HidingPath(inp, path);
    HidingFields(inp);
    var bad := Hiding(inp);
    hide Hiding, SubjectPath, WantsSignedPath, MakeSignedPath, HandsOn, CanSign, MaxKvno;
    MadePathAdds(bad, u, path);
    assert WithSignedPath(bad, u).Ok?;
    var added := AddedPath(bad, u);
  }

  /** Such a request is granted, in an otherwise ordinary exchange, but the ticket's indicators cannot be read. */
  lemma {:induction false} HiddenCammacLosesIndicators(
    inp: Input, tkt: EncTktPart, path: seq<Principal>, krbtgt: seq<KeyData>)
    requires OrdinaryInput(inp) && inp.subject.Some? && HandsOn(inp, path)
    requires tkt.authdata == [] && Anonymous !in tkt.flags
    ensures Issue(Hiding(inp), tkt).Ok? && AuthIndicators(Issue(Hiding(inp), tkt).value, krbtgt).Err?
  {
    var u := tkt.(authdata := [HIDDEN] + CammacPart(inp, tkt));
    HidingUnsigned(inp, tkt, path);
    hide Issue, FindKey, MaxKvno, CammacPart, Hiding, VerifySignedPath, AuthIndicators, HasKdcIssued, Leaves, Without;
    HidingSigns(inp, u, path);
    var t := Issue(Hiding(inp), tkt).value;
    var rest := t.authdata[1..];
    assert t.authdata == [HIDDEN] + rest;
    HiddenIsKept();
    LeavesConcat([HIDDEN], rest, AD_CAMMAC);
    MalformedCammacFails(t, krbtgt);
  }
}
