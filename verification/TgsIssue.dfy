/** The issuing section of process_tgs_req (do_tgs_req.c), with the end-time and renew-time rules of
    kdc_util.c and the checks on header tickets and delegation requests there.  Renewal is section 3.3.3 of RFC 4120. */
module TgsIssue {
  import opened KdcTypes
  import opened Cammacs
  import opened TicketAuthdata
  import opened TgsPolicy

  /** A plain request is about its header ticket.  A proxy request (S4U2Proxy) is about an evidence ticket, with
      `intermediary` the entry of that ticket's server, `header` the requester's own TGT, and `policy` what the KDB says
      of the delegation.  A protocol transition request (S4U2Self) is about its header ticket on behalf of `user`, and
      `byName` if it carries a PA-FOR-USER element; `policy` is what looking up a user of this realm, and the AS policy
      for it, say. */
  datatype Kind =
    | Plain
    | ForProxy(header: EncTktPart, intermediary: DbEntry, policy: int)
    | ForUser(user: Principal, userEntry: Option<DbEntry>, byName: bool, policy: int)

  /** One TGS exchange: what the request, the database and the environment contribute.  `requireAuth` is the list of
      indicators of which the service's entry requires one, if it has such a list; `headerServer` is the service the
      header ticket is for, and `kdbPolicy` what the KDB's and the site's own policy say of the request; `transitError`
      is the first failure in assembling the transited field and checking whether the path may transit at all, or 0. */
  datatype Hop = Hop(
    kind: Kind, request: Request, kdcTime: int, realm: Realm, server: DbEntry, localTgt: seq<KeyData>,
    serverKey: Key, clientKey: Key, session: Key, headerServer: Principal, kdbPolicy: int,
    transited: string, transitError: int, transitChecked: bool, requireAuth: Option<seq<string>>,
    modules: seq<seq<AuthData>>, kdb: Result<seq<AuthData>>)

  const KDC_INFINITY := 0x7fff_ffff

  function Min(a: int, b: int): (m: int) {
    if a < b then a else b
  }

  function Header(hop: Hop, subject: EncTktPart): (t: EncTktPart) {
    if hop.kind.ForProxy? then hop.kind.header else subject
  }

  /** The header ticket's client is of another realm. */
  predicate IsCrossRealm(hop: Hop, subject: EncTktPart) {
    Header(hop, subject).client.realm != hop.realm.name
  }

  /** The header ticket was issued by another realm. */
  predicate ForeignTgt(hop: Hop) {
    hop.headerServer.realm != hop.realm.name
  }

  predicate IsReferral(hop: Hop) {
    IsCrossTgs(hop.server.princ) && hop.request.server != hop.server.princ
  }

  // The client entry known when the times are computed.
  function ClientEntry(hop: Hop): (c: Option<DbEntry>) {
    match hop.kind
    case Plain => None
    case ForProxy(_, intermediary, _) => Some(intermediary)
    case ForUser(_, userEntry, _, _) => userEntry
  }

  // kdc_get_ticket_endtime
  function EndTime(realm: Realm, starttime: int, endtime: int, till: int, client: Option<DbEntry>, server: DbEntry)
    : (e: int)
    ensures e <= endtime
  {
    var until := Min(if till == 0 then KDC_INFINITY else till, endtime);
    var life0 := until - starttime;
    var life1 := if client.Some? && client.value.maxLife != 0 then Min(life0, client.value.maxLife) else life0;
    var life2 := if server.maxLife != 0 then Min(life1, server.maxLife) else life1;
    var life3 := if realm.maxLife != 0 then Min(life2, realm.maxLife) else life2;
    starttime + life3
  }

  /** A limit on life counts only if it is set. */
  predicate WithinLife(starttime: int, e: int, maxLife: int) {
    maxLife != 0 ==> e <= starttime + maxLife
  }

  predicate ReachesLife(starttime: int, e: int, maxLife: int) {
    maxLife != 0 && e == starttime + maxLife
  }

  /** The end time is the latest that respects the header ticket, the request, and every limit on life. */
  lemma EndTimeIsLatest(
    realm: Realm, starttime: int, endtime: int, till: int, client: Option<DbEntry>, server: DbEntry)
    ensures var e := EndTime(realm, starttime, endtime, till, client, server);
            var asked := if till == 0 then KDC_INFINITY else till;
            && e <= endtime && e <= asked && (client.Some? ==> WithinLife(starttime, e, client.value.maxLife))
            && WithinLife(starttime, e, server.maxLife) && WithinLife(starttime, e, realm.maxLife)
            && (e == endtime || e == asked || (client.Some? && ReachesLife(starttime, e, client.value.maxLife))
                || ReachesLife(starttime, e, server.maxLife) || ReachesLife(starttime, e, realm.maxLife))
  {
  }

  // kdc_get_ticket_renewtime with a TGT: the renew-till time, or None when the ticket is not made renewable.
  function RenewTime(
    realm: Realm, request: Request, tgt: EncTktPart, client: Option<DbEntry>, server: DbEntry,
    starttime: int, endtime: int)
    : (r: Option<int>)
    ensures r.Some? ==> Renewable in tgt.flags && endtime < r.value <= tgt.times.renewTill
  {
    if DisallowRenewable in server.attributes then None
    else if client.Some? && DisallowRenewable in client.value.attributes then None
    else if Renewable !in tgt.flags then None
    else if OptRenewable !in request.options && !(OptRenewableOk in request.options && endtime < request.till) then None
    else
      var asked :=
        if OptRenewable in request.options then if request.rtime != 0 then request.rtime else KDC_INFINITY
        else request.till;
      var maxRlife0 := Min(server.maxRenewableLife, realm.maxRlife);
      var maxRlife := if client.Some? then Min(maxRlife0, client.value.maxRenewableLife) else maxRlife0;
      var rtime := Min(Min(asked, tgt.times.renewTill), starttime + maxRlife);
      if rtime > endtime then Some(rtime) else None
  }

  /** Renewable tickets are not ruled out, and this request asks for one. */
  predicate MayRenew(request: Request, tgt: EncTktPart, client: Option<DbEntry>, server: DbEntry, endtime: int) {
    && DisallowRenewable !in server.attributes && Renewable in tgt.flags
    && (client.Some? ==> DisallowRenewable !in client.value.attributes)
    && (OptRenewable in request.options || (OptRenewableOk in request.options && endtime < request.till))
  }

  /** The renew-till time respects what was asked for, the old renew-till time, and every limit on renewable life; a
      ticket is not made renewable exactly when this is ruled out or some bound is no later than the end time. */
  lemma RenewTimeIsLatest(
    realm: Realm, request: Request, tgt: EncTktPart, client: Option<DbEntry>, server: DbEntry, starttime: int,
    endtime: int)
    ensures var r := RenewTime(realm, request, tgt, client, server, starttime, endtime);
            var asked := if OptRenewable !in request.options then request.till
                         else if request.rtime != 0 then request.rtime else KDC_INFINITY;
            var bounds := {asked, tgt.times.renewTill, starttime + server.maxRenewableLife, starttime + realm.maxRlife}
                          + if client.Some? then {starttime + client.value.maxRenewableLife} else {};
            && (r.Some? <==>
                MayRenew(request, tgt, client, server, endtime) && forall b :: b in bounds ==> endtime < b)
            && (r.Some? ==> r.value in bounds && forall b :: b in bounds ==> r.value <= b)
  {
  }

  function Life(times: Times): (l: int) {
    times.endtime - EffectiveStart(times)
  }

  function ReplyEnd(hop: Hop, subject: EncTktPart): (e: int) {
    var header := Header(hop, subject);
    if OptRenew in hop.request.options then Min(header.times.renewTill, hop.kdcTime + Life(header.times))
    else EndTime(hop.realm, hop.kdcTime, header.times.endtime, hop.request.till, ClientEntry(hop), hop.server)
  }

  function ReplyRenew(hop: Hop, subject: EncTktPart): (r: Option<int>) {
    RenewTime(hop.realm, hop.request, Header(hop, subject), ClientEntry(hop), hop.server, hop.kdcTime,
              ReplyEnd(hop, subject))
  }

  function ReplyTimes(hop: Hop, subject: EncTktPart): (t: Times) {
    Times(subject.times.authtime,
          if hop.kdcTime == subject.times.authtime then 0 else hop.kdcTime,
          ReplyEnd(hop, subject),
          if ReplyRenew(hop, subject).Some? then ReplyRenew(hop, subject).value else 0)
  }

  // OPTS2FLAGS
  function Opts2Flags(o: set<KdcOption>): (f: set<TktFlag>) {
    (if OptForwardable in o then {Forwardable} else {}) + (if OptForwarded in o then {Forwarded} else {}) +
    (if OptProxiable in o then {Proxiable} else {}) + (if OptProxy in o then {Proxy} else {}) +
    (if OptAllowPostdate in o then {MayPostdate} else {}) + (if OptPostdated in o then {Postdated} else {}) +
    (if OptRequestAnonymous in o then {Anonymous} else {})
  }

  /** Each of these options asks for its flag, and no other does. */
  lemma OptionFlag(o: set<KdcOption>, f: TktFlag)
    ensures f in Opts2Flags(o) <==>
            match f
            case Forwardable => OptForwardable in o
            case Forwarded => OptForwarded in o
            case Proxiable => OptProxiable in o
            case Proxy => OptProxy in o
            case MayPostdate => OptAllowPostdate in o
            case Postdated => OptPostdated in o
            case Anonymous => OptRequestAnonymous in o
            case _ => false
  {
  }

  // COPY_TKT_FLAGS
  function CopyTktFlags(flags: set<TktFlag>): (f: set<TktFlag>) {
    flags * {Forwarded, Proxy, PreAuth, HwAuth, Anonymous}
  }

  /** A protocol-transition ticket stays forwardable only if the user, the header ticket and the service allow it. */
  predicate KeepsForwardable(hop: Hop, header: EncTktPart) {
    hop.kind.ForUser? && OptForwardable in hop.request.options ==>
      && !(hop.kind.userEntry.Some? && DisallowForwardable in hop.kind.userEntry.value.attributes)
      && Forwardable in header.flags
      && (IsReferral(hop) || OkToAuthAsDelegate in hop.server.attributes)
  }

  function FreshFlags(hop: Hop, header: EncTktPart): (f: set<TktFlag>) {
    var o := hop.request.options;
    (Opts2Flags(o) + CopyTktFlags(header.flags) + {EncPaRep}
     + (if OkAsDelegateAttr in hop.server.attributes then {OkAsDelegate} else {})
     + (if OptPostdated in o then {Invalid} else {}))
    - (if KeepsForwardable(hop, header) then {} else {Forwardable})
    - (if OptRequestAnonymous in o && Anonymous !in header.flags then {Anonymous} else {})
  }

  function ReplyFlags(hop: Hop, subject: EncTktPart): (f: set<TktFlag>) {
    var header, o := Header(hop, subject), hop.request.options;
    var flags :=
      if OptRenew in o then header.flags
      else if OptValidate in o then header.flags - {Invalid}
      else FreshFlags(hop, header);
    var flags' := if ReplyRenew(hop, subject).Some? then flags + {Renewable} else flags;
    if hop.transitChecked then flags' + {TransitPolicyChecked} else flags'
  }

  function ReplyAddresses(hop: Hop, subject: EncTktPart): (a: string) {
    var o := hop.request.options;
    if OptRenew !in o && OptValidate !in o && (OptForwarded in o || OptProxy in o) then hop.request.addresses
    else Header(hop, subject).caddrs
  }

  function ReplyClient(hop: Hop, subject: EncTktPart): (c: Principal) {
    if hop.kind.ForUser? && !IsCrossRealm(hop, subject) then hop.kind.user else subject.client
  }

  /** The encrypted part of the reply before its authorization data is built. */
  function ReplyPart(hop: Hop, subject: EncTktPart): (t: EncTktPart) {
    EncTktPart(ReplyFlags(hop, subject), hop.session, ReplyClient(hop, subject), hop.transited,
               ReplyTimes(hop, subject), ReplyAddresses(hop, subject), [])
  }

  // The flags of enc_tkt_reply, accumulated from the request and the header ticket.
  method FillFlags(hop: Hop, header: EncTktPart) returns (flags: set<TktFlag>)
    ensures flags == FreshFlags(hop, header)
  {
    var o := hop.request.options;
    flags := Opts2Flags(o);
    flags := flags + CopyTktFlags(header.flags);
    if OkAsDelegateAttr in hop.server.attributes {
      flags := flags + {OkAsDelegate};
    }
    flags := flags + {EncPaRep};
    if OptForwardable in o && hop.kind.ForUser? {
      if hop.kind.userEntry.Some? && DisallowForwardable in hop.kind.userEntry.value.attributes {
        flags := flags - {Forwardable};
      } else if Forwardable !in header.flags {
        flags := flags - {Forwardable};
      } else if !IsReferral(hop) && OkToAuthAsDelegate !in hop.server.attributes {
        flags := flags - {Forwardable};
      }
    }
    if OptRequestAnonymous in o && Anonymous !in header.flags {
      flags := flags - {Anonymous};
    }
    if OptPostdated in o {
      flags := flags + {Invalid};
    }
  }

  // The step-by-step overwriting of enc_tkt_reply.
  method FillReply(hop: Hop, subject: EncTktPart, reply: EncTktReply)
    modifies reply
    ensures reply.part == ReplyPart(hop, subject)
  {
    var header, client := Header(hop, subject), ClientEntry(hop);
    var o := hop.request.options;
    var flags := FillFlags(hop, header);
    var caddrs := header.caddrs;
    if OptForwarded in o || OptProxy in o {
      caddrs := hop.request.addresses;
    }
    if OptValidate in o {
      flags, caddrs := header.flags, header.caddrs;
      flags := flags - {Invalid};
    }
    var starttime, endtime := hop.kdcTime, 0;
    if OptRenew in o {
      flags, caddrs := header.flags, header.caddrs;
      var oldStarttime := if header.times.starttime != 0 then header.times.starttime else header.times.authtime;
      var oldLife := header.times.endtime - oldStarttime;
      endtime := Min(header.times.renewTill, hop.kdcTime + oldLife);
    } else {
      endtime := EndTime(hop.realm, starttime, header.times.endtime, hop.request.till, client, hop.server);
    }
    var renew := RenewTime(hop.realm, hop.request, header, client, hop.server, starttime, endtime);
    var renewTill := 0;
    if renew.Some? {
      flags := flags + {Renewable};
      renewTill := renew.value;
    }
    if starttime == subject.times.authtime {
      starttime := 0;
    }
    var replyClient := if hop.kind.ForUser? && !IsCrossRealm(hop, subject) then hop.kind.user else subject.client;
    if hop.transitChecked {
      flags := flags + {TransitPolicyChecked};
    }
    reply.part := EncTktPart(flags, hop.session, replyClient, hop.transited,
                             Times(subject.times.authtime, starttime, endtime, renewTill), caddrs, []);
  }

  /** Constrained delegation never lets the service opt out of authorization data. */
  function ServerEntry(hop: Hop): (s: DbEntry) {
    if hop.kind.ForProxy? then hop.server.(attributes := hop.server.attributes - {NoAuthDataRequired}) else hop.server
  }

  function HopFlags(hop: Hop, subject: EncTktPart): (f: set<KdbFlag>) {
    (if IsCrossRealm(hop, subject) then {CrossRealm} else {}) +
    (match hop.kind
     case Plain => if NoAuthDataRequired in hop.server.attributes then {} else {IncludePac}
     case ForProxy(_, _, _) => {ConstrainedDelegation}
     case ForUser(_, _, _, _) => {ProtocolTransition})
  }

  function HopInput(hop: Hop, subject: EncTktPart, indicators: seq<string>): (inp: Input) {
    Input(HopFlags(hop, subject), ClientEntry(hop), ServerEntry(hop), hop.localTgt, hop.clientKey, hop.serverKey,
          hop.request.authdata, if hop.kind.ForUser? then Some(hop.kind.user) else None,
          Some(subject), indicators, hop.modules, hop.kdb)
  }

  // kdc_process_s4u2proxy_req and check_allowed_to_delegate_to
  function ProxyError(hop: Hop, evidence: EncTktPart): (code: int)
    requires hop.kind.ForProxy?
  {
    if hop.request.options * NON_TGT_OPTIONS != {} then KRB5KDC_ERR_BADOPTION
    else if hop.kind.intermediary.princ != hop.kind.header.client then KRB5KDC_ERR_SERVER_NOMATCH
    else if Forwardable !in evidence.flags then KRB5_TKT_NOT_FORWARDABLE
    else if IsTgs(hop.request.server) then KRB5KDC_ERR_POLICY
    else if hop.kind.intermediary.princ.realm != hop.request.server.realm then KRB5KDC_ERR_POLICY
    else hop.kind.policy
  }

  /** The service asked for is the one that asks, by the rules for its form of name. */
  predicate NamesRequester(request: Request, requester: Principal) {
    if request.form == HostBased && |request.server.components| == 2
    then request.server.components == requester.components
    else if request.form.Enterprise? then request.form.principal == requester
    else request.server == requester
  }

  // kdc_process_s4u2self_req, and the check for referrals after it
  function SelfError(hop: Hop, header: EncTktPart): (code: int)
    requires hop.kind.ForUser?
  {
    if !NamesRequester(hop.request, header.client) then KRB5KDC_ERR_C_PRINCIPAL_UNKNOWN
    else if hop.request.options * NON_TGT_OPTIONS != {} then KRB5KDC_ERR_BADOPTION
    else if hop.kind.user.realm == hop.realm.name && hop.kind.policy != 0 then hop.kind.policy
    else if IsReferral(hop) then KRB5KDC_ERR_S_PRINCIPAL_UNKNOWN
    else 0
  }

  /** A ticket from another realm for a client of this one is refused, unless it is to be used for S4U2Self. */
  predicate FailsLineage(hop: Hop, subject: EncTktPart) {
    ForeignTgt(hop) && !(hop.kind.ForUser? && hop.kind.byName) && !IsCrossRealm(hop, subject)
  }

  /** What validate_tgs_request says of the exchange. */
  function PolicyError(hop: Hop, subject: EncTktPart): (code: int) {
    var header := Header(hop, subject);
    ValidateError(hop.request, hop.server, hop.headerServer, header, hop.realm, hop.kdbPolicy, hop.kdcTime)
  }

  /** The checks on the header ticket, on policy and on delegation: the code of the first that fails, or 0. */
  function Refusal(hop: Hop, subject: EncTktPart): (code: int) {
    var header := Header(hop, subject);
    if Invalid in header.flags && OptValidate !in hop.request.options then KRB5KRB_AP_ERR_TKT_INVALID
    else if FailsLineage(hop, subject) then KRB5KDC_ERR_POLICY
    else if PolicyError(hop, subject) != 0 then PolicyError(hop, subject)
    else if hop.kind.ForUser? then SelfError(hop, header)
    else if hop.kind.ForProxy? then ProxyError(hop, subject)
    else 0
  }

  method Admit(hop: Hop, subject: EncTktPart) returns (code: int)
    ensures code == Refusal(hop, subject)
  {
    hide ValidateError;
    var header := Header(hop, subject);
    if Invalid in header.flags && OptValidate !in hop.request.options {
      return KRB5KRB_AP_ERR_TKT_INVALID;
    }
    if ForeignTgt(hop) && !(hop.kind.ForUser? && hop.kind.byName) && header.client.realm == hop.realm.name {
      return KRB5KDC_ERR_POLICY;
    }
    code := ValidateTgsRequest(
      hop.request, hop.server, hop.headerServer, header, hop.realm, hop.kdbPolicy, hop.kdcTime);
    if code != 0 {
      return;
    }
    if hop.kind.ForUser? {
      return SelfError(hop, header);
    }
    if hop.kind.ForProxy? {
      return ProxyError(hop, subject);
    }
  }

  /** The indicators the reply vouches for: those of the subject ticket, or none when its client did not
      authenticate. */
  function HopIndicators(hop: Hop, subject: EncTktPart): (r: Result<seq<string>>) {
    if hop.kind.ForUser? then Ok([]) else AuthIndicators(subject, hop.localTgt)
  }

  predicate MeetsRequirement(required: Option<seq<string>>, indicators: seq<string>) {
    required.None? || exists i :: 0 <= i < |required.value| && required.value[i] in indicators
  }

  // check_indicators
  method CheckIndicators(required: Option<seq<string>>, indicators: seq<string>) returns (code: int)
    ensures code == 0 <==> MeetsRequirement(required, indicators)
    ensures code == 0 || code == KRB5KDC_ERR_POLICY
  {
    if required.None? {
      return 0;
    }
    for i := 0 to |required.value|
      invariant forall j :: 0 <= j < i ==> required.value[j] !in indicators
    {
      var found := AuthindContains(indicators, required.value[i]);
      if found {
        return 0;
      }
    }
    code := KRB5KDC_ERR_POLICY;
  }

  /** The transit path is not accepted, or the realm insists on checked ones and this one was not checked. */
  function TransitError(hop: Hop, subject: EncTktPart): (code: int) {
    if hop.transitError != 0 then hop.transitError
    else if hop.realm.rejectBadTransit && TransitPolicyChecked !in ReplyFlags(hop, subject) then KRB5KDC_ERR_POLICY
    else 0
  }

  function IssueTgs(hop: Hop, subject: EncTktPart): (r: Result<EncTktPart>) {
    if Refusal(hop, subject) != 0 then Err(Refusal(hop, subject)) else
    var indicators := HopIndicators(hop, subject);
    if indicators.Err? then Err(indicators.code)
    else if !MeetsRequirement(hop.requireAuth, indicators.value) then Err(KRB5KDC_ERR_POLICY)
    else if TransitError(hop, subject) != 0 then Err(TransitError(hop, subject))
    else Issue(HopInput(hop, subject, indicators.value), ReplyPart(hop, subject))
  }

  method ProcessTgsReq(hop: Hop, subject: EncTktPart) returns (r: Result<EncTktPart>)
    ensures r == IssueTgs(hop, subject)
  {
    var refused := Admit(hop, subject);
    if refused != 0 {
      return Err(refused);
    }
    var authIndicators := new IndicatorList();
    if !hop.kind.ForUser? {
      var code := authIndicators.GetAuthIndicators(subject, hop.localTgt);
      if code != 0 {
        return Err(code);
      }
    }
    var required := CheckIndicators(hop.requireAuth, authIndicators.items);
    if required != 0 {
      return Err(required);
    }
    var reply := new EncTktReply(subject);
    FillReply(hop, subject, reply);
    if hop.transitError != 0 {
      return Err(hop.transitError);
    }
    if hop.realm.rejectBadTransit && TransitPolicyChecked !in reply.part.flags {
      return Err(KRB5KDC_ERR_POLICY);
    }
    var ret := reply.HandleAuthdata(HopInput(hop, subject, authIndicators.items));
    if ret.Err? {
      return Err(ret.code);
    }
    r := Ok(reply.part);
  }
}
