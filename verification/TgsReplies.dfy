/** What a TGS exchange gives, in terms of the request, the tickets and the database entries alone: whether it is
    refused and with what code, and every field of the ticket that is issued. */
module TgsReplies {
  import opened KdcTypes
  import opened Cammacs
  import opened TicketAuthdata
  import opened TgsPolicy
  import opened TgsIssue
  import opened TicketChains

  /** The ticket that the requester authenticates with: for a proxy request not the one it is about. */
  function Own(hop: Hop, subject: EncTktPart): (t: EncTktPart) {
    match hop.kind
    case ForProxy(header, _, _) => header
    case _ => subject
  }

  /** The entry whose limits apply beside the service's: the intermediary's, or that of the user named. */
  function Represented(hop: Hop): (r: Option<DbEntry>) {
    match hop.kind
    case Plain => None
    case ForProxy(_, intermediary, _) => Some(intermediary)
    case ForUser(_, userEntry, _, _) => userEntry
  }

  lemma IssuedFields(hop: Hop, subject: EncTktPart)
    requires IssueTgs(hop, subject).Ok?
    ensures IssueTgs(hop, subject).value.(authdata := []) == ReplyPart(hop, subject).(authdata := [])
  {
    hide Issue, HopIndicators, Refusal, ReplyPart, TransitError, MeetsRequirement;
    IssueKeeps(HopInput(hop, subject, HopIndicators(hop, subject).value), ReplyPart(hop, subject));
  }

  // ----- Times -----

  /** A ticket that starts now and ends at `e` is within a limit on its life, if the limit is set. */
  predicate Within(hop: Hop, e: int, limit: int) {
    limit == 0 || e - hop.kdcTime <= limit
  }

  /** Every bound on the end of a ticket that is not renewed allows `e`. */
  predicate EndAllowed(hop: Hop, own: EncTktPart, e: int) {
    && e <= own.times.endtime && e <= (if hop.request.till == 0 then KDC_INFINITY else hop.request.till)
    && Within(hop, e, hop.server.maxLife) && Within(hop, e, hop.realm.maxLife)
    && (Represented(hop).Some? ==> Within(hop, e, Represented(hop).value.maxLife))
  }

  /** A ticket that is not renewed ends at the latest time that the requester's ticket, the request, and the limits
      of the service, the realm and whoever is represented all allow. */
  lemma {:induction false} IssuedEnd(hop: Hop, subject: EncTktPart)
    requires IssueTgs(hop, subject).Ok? && OptRenew !in hop.request.options
    ensures var e := IssueTgs(hop, subject).value.times.endtime;
            EndAllowed(hop, Own(hop, subject), e) && !EndAllowed(hop, Own(hop, subject), e + 1)
  {
    IssuedFields(hop, subject);
    hide IssueTgs, ReplyRenew;
  }

  /** A renewed ticket lives as long as the old one did, but not past its renew-till time. */
  lemma {:induction false} IssuedRenewal(hop: Hop, subject: EncTktPart)
    requires IssueTgs(hop, subject).Ok? && OptRenew in hop.request.options
    ensures var old', e := Own(hop, subject).times, IssueTgs(hop, subject).value.times.endtime;
            var start := if old'.starttime != 0 then old'.starttime else old'.authtime;
            && e - hop.kdcTime <= old'.endtime - start && e <= old'.renewTill
            && (e - hop.kdcTime == old'.endtime - start || e == old'.renewTill)
  {
    IssuedFields(hop, subject);
    hide IssueTgs, ReplyRenew;
  }

  /** A ticket that ends at `e` may be made renewable. */
  predicate RenewableMade(hop: Hop, own: EncTktPart, e: int) {
    && Renewable in own.flags && DisallowRenewable !in hop.server.attributes
    && (Represented(hop).Some? ==> DisallowRenewable !in Represented(hop).value.attributes)
    && (OptRenewable in hop.request.options || (OptRenewableOk in hop.request.options && e < hop.request.till))
    && RenewAllowed(hop, own, e + 1)
  }

  /** Every bound on the renew-till time allows `r`. */
  predicate RenewAllowed(hop: Hop, own: EncTktPart, r: int) {
    && r <= own.times.renewTill && r <= RenewAsked(hop.request)
    && r - hop.kdcTime <= hop.server.maxRenewableLife && r - hop.kdcTime <= hop.realm.maxRlife
    && (Represented(hop).Some? ==> r - hop.kdcTime <= Represented(hop).value.maxRenewableLife)
  }

  /** What is asked for: the renew-till time of the request, for ever, or as long as the ticket itself. */
  function RenewAsked(request: Request): (r: int) {
    if OptRenewable !in request.options then request.till
    else if request.rtime == 0 then KDC_INFINITY
    else request.rtime
  }

  /** If a ticket can be renewed after it ends, it is until the latest time that all bounds allow. */
  lemma {:induction false} IssuedRenewTill(hop: Hop, subject: EncTktPart)
    requires IssueTgs(hop, subject).Ok?
    ensures var own, times := Own(hop, subject), IssueTgs(hop, subject).value.times;
            if RenewableMade(hop, own, times.endtime)
            then times.endtime < times.renewTill && RenewAllowed(hop, own, times.renewTill)
                 && !RenewAllowed(hop, own, times.renewTill + 1)
            else times.renewTill == 0
  {
    IssuedFields(hop, subject);
    ReplyRenewIs(hop, subject);
    hide IssueTgs, ReplyRenew, ReplyEnd;
  }

  lemma ReplyRenewIs(hop: Hop, subject: EncTktPart)
    ensures var own, e := Own(hop, subject), ReplyEnd(hop, subject);
            && (ReplyRenew(hop, subject).Some? <==> RenewableMade(hop, own, e))
            && (ReplyRenew(hop, subject).Some? ==>
                  var r := ReplyRenew(hop, subject).value;
                  e < r && RenewAllowed(hop, own, r) && !RenewAllowed(hop, own, r + 1))
  {
    hide ReplyEnd;
  }

  // ----- The other fields -----

  /** A ticket is issued for the user of a protocol transition that a client of this realm asks for, else for the
      client of the ticket the exchange is about; from the time that client authenticated, starting now, for the
      new session key; and for the addresses asked for if it is forwarded or proxied, else for those of the
      requester's ticket. */
  lemma {:induction false} IssuedWho(hop: Hop, subject: EncTktPart)
    requires IssueTgs(hop, subject).Ok?
    ensures var t, o, own := IssueTgs(hop, subject).value, hop.request.options, Own(hop, subject);
            && t.client == (if hop.kind.ForUser? && subject.client.realm == hop.realm.name then hop.kind.user
                            else subject.client)
            && t.session == hop.session && t.transited == hop.transited
            && t.times.authtime == subject.times.authtime
            && (if t.times.starttime == 0 then t.times.authtime else t.times.starttime)
               == (if hop.kdcTime == 0 then t.times.authtime else hop.kdcTime)
            && t.caddrs == (if (OptForwarded in o || OptProxy in o) && OptRenew !in o && OptValidate !in o
                            then hop.request.addresses else own.caddrs)
  {
    IssuedFields(hop, subject);
    hide IssueTgs, ReplyRenew, ReplyEnd, ReplyFlags;
    assert IssueTgs(hop, subject).value.client == ReplyClient(hop, subject);
  }

  /** Whether a ticket that ends at `e` has the flag `f`. */
  predicate FlagMeant(hop: Hop, own: EncTktPart, e: int, f: TktFlag) {
    var o := hop.request.options;
    var kept := OptRenew in o || OptValidate in o;
    match f
    case Invalid => if kept then Invalid in own.flags && OptRenew in o else OptPostdated in o
    case Renewable => (kept && Renewable in own.flags) || RenewableMade(hop, own, e)
    case TransitPolicyChecked => (kept && TransitPolicyChecked in own.flags) || hop.transitChecked
    case _ => if kept then f in own.flags else FreshMeant(hop, own, f)
  }

  /** The same for a ticket that is neither renewed nor validated. */
  predicate FreshMeant(hop: Hop, own: EncTktPart, f: TktFlag) {
    var o := hop.request.options;
    match f
    case Forwardable => OptForwardable in o && (hop.kind.ForUser? ==> ForwardableUser(hop, own))
    case Forwarded => OptForwarded in o || Forwarded in own.flags
    case Proxiable => OptProxiable in o
    case Proxy => OptProxy in o || Proxy in own.flags
    case MayPostdate => OptAllowPostdate in o
    case Postdated => OptPostdated in o
    case Invalid => OptPostdated in o
    case PreAuth => PreAuth in own.flags
    case HwAuth => HwAuth in own.flags
    case OkAsDelegate => OkAsDelegateAttr in hop.server.attributes
    case EncPaRep => true
    case Anonymous => Anonymous in own.flags
    case _ => false
  }

  /** A ticket to oneself for a user can be forwarded if the user's entry, the requester's ticket and the service's
      entry all allow it. */
  predicate ForwardableUser(hop: Hop, own: EncTktPart)
    requires hop.kind.ForUser?
  {
    && (hop.kind.userEntry.Some? ==> DisallowForwardable !in hop.kind.userEntry.value.attributes)
    && Forwardable in own.flags && OkToAuthAsDelegate in hop.server.attributes
  }

  lemma FreshFlag(hop: Hop, own: EncTktPart, f: TktFlag)
    requires hop.kind.ForUser? ==> !IsReferral(hop)
    ensures f in FreshFlags(hop, own) <==> FreshMeant(hop, own, f)
  {
    OptionFlag(hop.request.options, f);
    var copied := f in CopyTktFlags(own.flags);
    assert copied <==>
           f in own.flags && (f == Forwarded || f == Proxy || f == PreAuth || f == HwAuth || f == Anonymous);
    InFreshFlags(hop, own, f);
    hide Opts2Flags, CopyTktFlags, IsReferral, FreshFlags;
  }

  lemma InFreshFlags(hop: Hop, own: EncTktPart, f: TktFlag)
    ensures var o := hop.request.options;
            f in FreshFlags(hop, own) <==>
            && (f in Opts2Flags(o) || f in CopyTktFlags(own.flags) || f == EncPaRep
                || (f == OkAsDelegate && OkAsDelegateAttr in hop.server.attributes)
                || (f == Invalid && OptPostdated in o))
            && (f == Forwardable ==> KeepsForwardable(hop, own))
            && !(f == Anonymous && OptRequestAnonymous in o && Anonymous !in own.flags)
  {
    hide Opts2Flags, CopyTktFlags, KeepsForwardable;
  }

  lemma NoReferralForUser(hop: Hop, subject: EncTktPart)
    requires IssueTgs(hop, subject).Ok?
    ensures hop.kind.ForUser? ==> !IsReferral(hop)
  {
    hide Issue, HopIndicators, PolicyError, NamesRequester, TransitError, IsReferral;
    assert hop.kind.ForUser? ==> SelfError(hop, subject) == 0;
  }

  /** An issued ticket has exactly these flags. */
  lemma {:induction false} IssuedFlagsAre(hop: Hop, subject: EncTktPart, f: TktFlag)
    requires IssueTgs(hop, subject).Ok?
    ensures var t := IssueTgs(hop, subject).value;
            f in t.flags <==> FlagMeant(hop, Own(hop, subject), t.times.endtime, f)
  {
    IssuedFields(hop, subject);
    ReplyRenewIs(hop, subject);
    NoReferralForUser(hop, subject);
    var e, t := ReplyEnd(hop, subject), IssueTgs(hop, subject).value;
    assert t.flags == ReplyFlags(hop, subject) && t.times.endtime == e;
    FreshFlag(hop, Own(hop, subject), f);
    hide IssueTgs, ReplyRenew, ReplyEnd, FreshFlags, RenewableMade, ForwardableUser, IsReferral, FreshMeant;
    ReplyFlag(hop, subject, f);
  }

  lemma ReplyFlag(hop: Hop, subject: EncTktPart, f: TktFlag)
    ensures var own, o := Own(hop, subject), hop.request.options;
            f in ReplyFlags(hop, subject) <==>
            || (if OptRenew in o then f in own.flags
                else if OptValidate in o then f in own.flags && f != Invalid
                else f in FreshFlags(hop, own))
            || (f == Renewable && ReplyRenew(hop, subject).Some?)
            || (f == TransitPolicyChecked && hop.transitChecked)
  {
    hide ReplyRenew, FreshFlags;
  }

  // ----- Refusals -----

  function Unless(holds: bool, code: int): (r: int) {
    if holds then 0 else code
  }

  function Or(a: int, b: int): (r: int) {
    if a != 0 then a else b
  }

  /** The request is about the ticket itself: to forward, proxy, renew or validate it. */
  predicate AboutTicket(o: set<KdcOption>) {
    OptForwarded in o || OptProxy in o || OptRenew in o || OptValidate in o
  }

  predicate IsLocalTgs(p: Principal, realm: Realm) {
    p.realm == realm.name && p.components == ["krbtgt", realm.name]
  }

  function HeaderCode(hop: Hop, own: EncTktPart): (code: int) {
    Or(Unless(Invalid in own.flags ==> OptValidate in hop.request.options, KRB5KRB_AP_ERR_TKT_INVALID),
       Unless(hop.headerServer.realm != hop.realm.name && own.client.realm == hop.realm.name ==>
                hop.kind.ForUser? && hop.kind.byName, KRB5KDC_ERR_POLICY))
  }

  function OptionCode(o: set<KdcOption>, flags: set<TktFlag>): (code: int) {
    Unless(&& (OptForwarded in o || OptForwardable in o ==> Forwardable in flags)
           && (OptProxy in o || OptProxiable in o ==> Proxiable in flags)
           && (OptAllowPostdate in o || OptPostdated in o ==> MayPostdate in flags)
           && (OptValidate in o ==> Invalid in flags) && (OptRenew in o ==> Renewable in flags),
           KRB5KDC_ERR_BADOPTION)
  }

  function TimeCode(o: set<KdcOption>, times: Times, now: int): (code: int) {
    Or(Unless(OptValidate in o ==> (if times.starttime == 0 then times.authtime else times.starttime) <= now,
              KRB5KRB_AP_ERR_TKT_NYV),
       Unless(OptRenew in o ==> now <= times.renewTill, KRB5KRB_AP_ERR_TKT_EXPIRED))
  }

  function DenialCode(o: set<KdcOption>, a: set<Attribute>): (code: int) {
    Or(Unless(OptForwardable in o ==> DisallowForwardable !in a, KRB5KDC_ERR_POLICY),
       Or(Unless(OptRenewable in o ==> DisallowRenewable !in a, KRB5KDC_ERR_POLICY),
          Or(Unless(OptProxiable in o ==> DisallowProxiable !in a, KRB5KDC_ERR_POLICY),
             Unless(OptAllowPostdate in o ==> DisallowPostdated !in a, KRB5KDC_ERR_CANNOT_POSTDATE))))
  }

  function ServiceCode(server: DbEntry, name: Principal, flags: set<TktFlag>, now: int): (code: int) {
    var a := server.attributes;
    Or(Unless(DisallowAllTix !in a, KRB5KDC_ERR_S_PRINCIPAL_UNKNOWN),
       Or(Unless(DisallowSvr !in a, KRB5KDC_ERR_MUST_USE_USER2USER),
          Or(Unless(DisallowTgtBased in a ==> !IsTgs(name), KRB5KDC_ERR_POLICY),
             Or(Unless(&& (RequiresHwAuth in a ==> HwAuth in flags)
                       && (RequiresPreAuth in a ==> PreAuth in flags), KRB5KRB_ERR_GENERIC),
                Unless(server.expiration == 0 || now <= server.expiration, KRB5KDC_ERR_SERVICE_EXP)))))
  }

  function NameCode(request: Request, name: Principal): (code: int) {
    if AboutTicket(request.options)
    then Or(Unless(request.server == name, KRB5KDC_ERR_SERVER_NOMATCH),
            Unless(OptProxy in request.options ==> !IsTgs(request.server), KRB5KDC_ERR_BADOPTION))
    else Unless(name.components == ["krbtgt", request.server.realm], KRB5KRB_AP_ERR_NOT_US)
  }

  function SiteCode(hop: Hop, own: EncTktPart): (code: int) {
    Or(Unless(hop.realm.restrictAnon && own.client.components == ["WELLKNOWN", "ANONYMOUS"] ==>
                IsLocalTgs(hop.request.server, hop.realm), KRB5KDC_ERR_POLICY),
       hop.kdbPolicy)
  }

  /** The name asked for is the client's own.  The realm does not count for a host-based service of two components, and
      an enterprise name counts as what it stands for. */
  predicate AsksForItself(request: Request, client: Principal) {
    match request.form
    case Enterprise(principal) => principal == client
    case form =>
      && request.server.components == client.components
      && ((form.HostBased? && |request.server.components| == 2) || request.server.realm == client.realm)
  }

  function SelfCode(hop: Hop, own: EncTktPart): (code: int)
    requires hop.kind.ForUser?
  {
    Or(Unless(AsksForItself(hop.request, own.client), KRB5KDC_ERR_C_PRINCIPAL_UNKNOWN),
       Or(Unless(!AboutTicket(hop.request.options), KRB5KDC_ERR_BADOPTION),
          Or(if hop.kind.user.realm == hop.realm.name then hop.kind.policy else 0,
             Unless(IsTgs(hop.server.princ) && hop.server.princ.components[1] != hop.server.princ.realm ==>
                      hop.server.princ == hop.request.server, KRB5KDC_ERR_S_PRINCIPAL_UNKNOWN))))
  }

  function DelegationCode(hop: Hop, evidence: EncTktPart): (code: int)
    requires hop.kind.ForProxy?
  {
    Or(Unless(!AboutTicket(hop.request.options), KRB5KDC_ERR_BADOPTION),
       Or(Unless(hop.kind.intermediary.princ == hop.kind.header.client, KRB5KDC_ERR_SERVER_NOMATCH),
          Or(Unless(Forwardable in evidence.flags, KRB5_TKT_NOT_FORWARDABLE),
             Or(Unless(!IsTgs(hop.request.server) && hop.request.server.realm == hop.kind.intermediary.princ.realm,
                       KRB5KDC_ERR_POLICY),
                hop.kind.policy))))
  }

  lemma OptionsAre(o: set<KdcOption>, flags: set<TktFlag>)
    ensures OptionsBacked(o, flags) <==> OptionCode(o, flags) == 0
    ensures o * NON_TGT_OPTIONS != {} <==> AboutTicket(o)
  {
    var r := TGS_FLAG_RULES;
    SomeOf(o, OptForwarded, OptForwardable);
    SomeOf(o, OptProxy, OptProxiable);
    SomeOf(o, OptAllowPostdate, OptPostdated);
    assert OptValidate in o <==> o * {OptValidate} != {} by {
      assert OptValidate in o ==> OptValidate in o * {OptValidate};
    }
    assert OptRenew in o <==> o * {OptRenew} != {} by {
      assert OptRenew in o ==> OptRenew in o * {OptRenew};
    }
    assert OptionsBacked(o, flags) <==>
           && Backed(r[0], o, flags) && Backed(r[1], o, flags) && Backed(r[2], o, flags)
           && Backed(r[3], o, flags) && Backed(r[4], o, flags);
    var unusual := o * NON_TGT_OPTIONS;
    assert forall x :: x in unusual <==> x in o && x in NON_TGT_OPTIONS;
  }

  lemma SomeOf(o: set<KdcOption>, a: KdcOption, b: KdcOption)
    ensures o * {a, b} != {} <==> a in o || b in o
  {
    assert a in o ==> a in o * {a, b};
    assert b in o ==> b in o * {a, b};
  }

  /** The code of the first check that fails, or 0: on the header ticket, the options, the times, the service's
      entry, the name on the ticket and the site's policy, and then on the delegation asked for. */
  lemma {:induction false} RefusalIs(hop: Hop, subject: EncTktPart)
    ensures var own, request := Own(hop, subject), hop.request;
            Refusal(hop, subject) ==
            Or(HeaderCode(hop, own),
               Or(OptionCode(request.options, own.flags),
                  Or(TimeCode(request.options, own.times, hop.kdcTime),
                     Or(DenialCode(request.options, hop.server.attributes),
                        Or(ServiceCode(hop.server, hop.headerServer, own.flags, hop.kdcTime),
                           Or(NameCode(request, hop.headerServer),
                              Or(SiteCode(hop, own),
                                 match hop.kind
                                 case Plain => 0
                                 case ForUser(_, _, _, _) => SelfCode(hop, own)
                                 case ForProxy(_, _, _) => DelegationCode(hop, subject))))))))
  {
    var own, request := Own(hop, subject), hop.request;
    OptionsAre(request.options, own.flags);
    DenialsAre(request.options, hop.server.attributes);
    NamesAre(hop, own);
    hide OptionsBacked, Denied, ServiceError, NameError, Restricted, NamesRequester, IsReferral;
    hide DenialCode, ServiceCode, NameCode, AsksForItself;
    KindsAre(hop, subject);
  }

  lemma DenialsAre(o: set<KdcOption>, a: set<Attribute>)
    ensures Denied(SVC_DENY_RULES, o, a) == DenialCode(o, a)
  {
    var r := SVC_DENY_RULES;
    assert r[1..][1..] == r[2..] && r[2..][1..] == r[3..] && r[3..][1..] == [];
    assert Denied(r[3..], o, a) == if Denies(r[3], o, a) then r[3].error else Denied([], o, a);
    assert Denied(r[2..], o, a) == if Denies(r[2], o, a) then r[2].error else Denied(r[3..], o, a);
    assert Denied(r[1..], o, a) == if Denies(r[1], o, a) then r[1].error else Denied(r[2..], o, a);
  }

  lemma NamesAre(hop: Hop, own: EncTktPart)
    ensures NameError(hop.request, hop.headerServer) == NameCode(hop.request, hop.headerServer)
    ensures ServiceError(hop.server, hop.headerServer, own.flags, hop.kdcTime)
         == ServiceCode(hop.server, hop.headerServer, own.flags, hop.kdcTime)
    ensures Restricted(hop.realm, own.client, hop.request.server) <==>
            && hop.realm.restrictAnon && own.client.components == ["WELLKNOWN", "ANONYMOUS"]
            && !IsLocalTgs(hop.request.server, hop.realm)
  {
    OptionsAre(hop.request.options, own.flags);
    hide OptionsBacked;
    var c, realm := hop.headerServer.components, hop.request.server.realm;
    assert |c| == 2 && c[0] == "krbtgt" && c[1] == realm ==> c == ["krbtgt", realm];
  }

  lemma KindsAre(hop: Hop, subject: EncTktPart)
    ensures hop.kind.ForUser? ==> SelfError(hop, subject) == SelfCode(hop, subject)
    ensures hop.kind.ForProxy? ==> ProxyError(hop, subject) == DelegationCode(hop, subject)
  {
    OptionsAre(hop.request.options, subject.flags);
    hide OptionsBacked, IsTgs;
    var client := subject.client;
    assert hop.request.server == client <==>
           hop.request.server.components == client.components && hop.request.server.realm == client.realm;
  }

  // ----- From admission to the ticket -----

  /** What the ticket to be issued is made from. */
  lemma {:induction false} InputIs(hop: Hop, subject: EncTktPart, indicators: seq<string>)
    ensures var inp := HopInput(hop, subject, indicators);
            && (CrossRealm in inp.flags <==> Own(hop, subject).client.realm != hop.realm.name)
            && (ProtocolTransition in inp.flags <==> hop.kind.ForUser?)
            && (ConstrainedDelegation in inp.flags <==> hop.kind.ForProxy?)
            && (NoAuthDataRequired in inp.server.attributes <==>
                NoAuthDataRequired in hop.server.attributes && !hop.kind.ForProxy?)
            && inp.server.princ == hop.server.princ && inp.client == Represented(hop)
            && inp.forUser == (if hop.kind.ForUser? then Some(hop.kind.user) else None)
            && inp.subject == Some(subject) && inp.indicators == indicators && inp.localTgt == hop.localTgt
            && inp.clientKey == hop.clientKey && inp.serverKey == hop.serverKey
            && inp.reqAuthdata == hop.request.authdata && inp.modules == hop.modules && inp.kdb == hop.kdb
  {
  }

  /** The indicators that count for the service: those of the ticket, unless its client is not the user. */
  function Given(hop: Hop, subject: EncTktPart): (r: Result<seq<string>>) {
    if hop.kind.ForUser? then Ok([]) else AuthIndicators(subject, hop.localTgt)
  }

  /** The service requires no indicator, or one of those it names is given. */
  predicate RequirementMet(hop: Hop, given: seq<string>) {
    hop.requireAuth.Some? ==> exists x :: x in hop.requireAuth.value && x in given
  }

  /** The transit path is accepted, and checked if the realm insists on it. */
  predicate TransitAccepted(hop: Hop, own: EncTktPart) {
    var o := hop.request.options;
    && hop.transitError == 0
    && (hop.realm.rejectBadTransit ==>
          hop.transitChecked || ((OptRenew in o || OptValidate in o) && TransitPolicyChecked in own.flags))
  }

  /** A ticket is issued exactly if the request is not refused, the indicators of its ticket can be read and one
      that the service requires is among them, the transit path is accepted, and the ticket's contents can be made. */
  lemma {:induction false} GrantedExactly(hop: Hop, subject: EncTktPart)
    ensures IssueTgs(hop, subject).Ok? <==>
            && Refusal(hop, subject) == 0 && Given(hop, subject).Ok?
            && RequirementMet(hop, Given(hop, subject).value) && TransitAccepted(hop, Own(hop, subject))
            && Issue(HopInput(hop, subject, Given(hop, subject).value), ReplyPart(hop, subject)).Ok?
    ensures IssueTgs(hop, subject).Ok? ==>
            IssueTgs(hop, subject) == Issue(HopInput(hop, subject, Given(hop, subject).value), ReplyPart(hop, subject))
    ensures Refusal(hop, subject) == 0 && Given(hop, subject).Ok? && !RequirementMet(hop, Given(hop, subject).value) ==>
            IssueTgs(hop, subject) == Err(KRB5KDC_ERR_POLICY)
  {
    ReplyFlag(hop, subject, TransitPolicyChecked);
    NotFresh(hop, Own(hop, subject));
    hide Refusal, AuthIndicators, Issue, ReplyPart, ReplyFlags, FreshFlags, HopInput;
    assert HopIndicators(hop, subject) == Given(hop, subject);
    if Given(hop, subject).Ok? {
      RequirementIs(hop, Given(hop, subject).value);
    }
  }

  lemma NotFresh(hop: Hop, own: EncTktPart)
    ensures TransitPolicyChecked !in FreshFlags(hop, own)
  {
    InFreshFlags(hop, own, TransitPolicyChecked);
    OptionFlag(hop.request.options, TransitPolicyChecked);
    hide FreshFlags, Opts2Flags;
  }

  lemma RequirementIs(hop: Hop, given: seq<string>)
    ensures MeetsRequirement(hop.requireAuth, given) <==> RequirementMet(hop, given)
  {
    if hop.requireAuth.Some? {
      var required := hop.requireAuth.value;
      if RequirementMet(hop, given) {
        var x :| x in required && x in given;
        var i :| 0 <= i < |required| && required[i] == x;
      }
      if MeetsRequirement(hop.requireAuth, given) {
        var i :| 0 <= i < |required| && required[i] in given;
        assert required[i] in required;
      }
    }
  }
}
