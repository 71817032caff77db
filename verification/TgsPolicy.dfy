/** What a TGS request may ask of a header ticket and a service: validate_tgs_request (tgs_policy.c), with check_anon
    of kdc_util.c. */
module TgsPolicy {
  import opened KdcTypes

  datatype KdcOption =
    | OptForwardable | OptForwarded | OptProxiable | OptProxy | OptAllowPostdate | OptPostdated | OptRenewable
    | OptRequestAnonymous | OptRenewableOk | OptRenew | OptValidate

  /** How the service is named: as a host-based service, by an enterprise name that stands for `principal`, or
      otherwise. */
  datatype NameForm = HostBased | Enterprise(principal: Principal) | OtherForm

  datatype Request = Request(
    options: set<KdcOption>, server: Principal, form: NameForm, till: int, rtime: int, addresses: string,
    authdata: Option<EncData>)

  /** `restrictAnon` and `rejectBadTransit` are the realm's settings restrict_anonymous_to_tgt and
      reject_bad_transit. */
  datatype Realm = Realm(name: string, maxLife: int, maxRlife: int, restrictAnon: bool, rejectBadTransit: bool)

  const NON_TGT_OPTIONS := {OptForwarded, OptProxy, OptRenew, OptValidate}

  /** An absent start time means the time of authentication. */
  function EffectiveStart(times: Times): (s: int) {
    if times.starttime != 0 then times.starttime else times.authtime
  }

  /** The options of `options` need the header ticket to have `flag`. */
  datatype FlagRule = FlagRule(options: set<KdcOption>, flag: TktFlag)

  const TGS_FLAG_RULES := [
    FlagRule({OptForwarded, OptForwardable}, Forwardable), FlagRule({OptProxy, OptProxiable}, Proxiable),
    FlagRule({OptAllowPostdate, OptPostdated}, MayPostdate), FlagRule({OptValidate}, Invalid),
    FlagRule({OptRenew}, Renewable)]

  predicate Backed(rule: FlagRule, options: set<KdcOption>, flags: set<TktFlag>) {
    options * rule.options != {} ==> rule.flag in flags
  }

  /** The header ticket has the flags that the options asked for need. */
  predicate OptionsBacked(options: set<KdcOption>, flags: set<TktFlag>) {
    forall i :: 0 <= i < |TGS_FLAG_RULES| ==> Backed(TGS_FLAG_RULES[i], options, flags)
  }

  // check_tgs_opts
  method CheckTgsOpts(options: set<KdcOption>, flags: set<TktFlag>) returns (code: int)
    ensures code == if OptionsBacked(options, flags) then 0 else KRB5KDC_ERR_BADOPTION
  {
    for i := 0 to |TGS_FLAG_RULES|
      invariant forall j :: 0 <= j < i ==> Backed(TGS_FLAG_RULES[j], options, flags)
    {
      var rule := TGS_FLAG_RULES[i];
      if rule.options * options != {} && rule.flag !in flags {
        assert !Backed(rule, options, flags);
        return KRB5KDC_ERR_BADOPTION;
      }
    }
    code := 0;
  }

  // check_tgs_times
  function TimesError(options: set<KdcOption>, times: Times, now: int): (code: int) {
    if OptValidate in options && EffectiveStart(times) > now then KRB5KRB_AP_ERR_TKT_NYV
    else if OptRenew in options && times.renewTill < now then KRB5KRB_AP_ERR_TKT_EXPIRED
    else 0
  }

  /** An entry with `attribute` does not allow `option`. */
  datatype DenyRule = DenyRule(option: KdcOption, attribute: Attribute, error: int)

  const SVC_DENY_RULES := [
    DenyRule(OptForwardable, DisallowForwardable, KRB5KDC_ERR_POLICY),
    DenyRule(OptRenewable, DisallowRenewable, KRB5KDC_ERR_POLICY),
    DenyRule(OptProxiable, DisallowProxiable, KRB5KDC_ERR_POLICY),
    DenyRule(OptAllowPostdate, DisallowPostdated, KRB5KDC_ERR_CANNOT_POSTDATE)]

  predicate Denies(rule: DenyRule, options: set<KdcOption>, attributes: set<Attribute>) {
    rule.option in options && rule.attribute in attributes
  }

  /** The error of the first of `rules` that denies one of `options`, or 0. */
  function Denied(rules: seq<DenyRule>, options: set<KdcOption>, attributes: set<Attribute>): (code: int) {
    if rules == [] then 0
    else if Denies(rules[0], options, attributes) then rules[0].error
    else Denied(rules[1..], options, attributes)
  }

  lemma {:induction false} NoneDenies(rules: seq<DenyRule>, options: set<KdcOption>, attributes: set<Attribute>)
    requires forall i :: 0 <= i < |rules| ==> !Denies(rules[i], options, attributes)
    ensures Denied(rules, options, attributes) == 0
  {
    if rules != [] {
      NoneDenies(rules[1..], options, attributes);
    }
  }

  // check_tgs_svc_deny_opts
  method CheckTgsSvcDenyOpts(options: set<KdcOption>, attributes: set<Attribute>) returns (code: int)
    ensures code == Denied(SVC_DENY_RULES, options, attributes)
  {
    for i := 0 to |SVC_DENY_RULES|
      invariant Denied(SVC_DENY_RULES, options, attributes) == Denied(SVC_DENY_RULES[i..], options, attributes)
    {
      var rule := SVC_DENY_RULES[i];
      assert SVC_DENY_RULES[i..][0] == rule && SVC_DENY_RULES[i..][1..] == SVC_DENY_RULES[i + 1..];
      if rule.option in options && rule.attribute in attributes {
        return rule.error;
      }
    }
    code := 0;
  }

  // check_tgs_svc_deny_all, check_tgs_svc_reqd_flags and check_tgs_svc_time
  function ServiceError(server: DbEntry, name: Principal, flags: set<TktFlag>, now: int): (code: int) {
    if DisallowAllTix in server.attributes then KRB5KDC_ERR_S_PRINCIPAL_UNKNOWN
    else if DisallowSvr in server.attributes then KRB5KDC_ERR_MUST_USE_USER2USER
    else if DisallowTgtBased in server.attributes && IsTgs(name) then KRB5KDC_ERR_POLICY
    else if RequiresHwAuth in server.attributes && HwAuth !in flags then KRB5KRB_ERR_GENERIC
    else if RequiresPreAuth in server.attributes && PreAuth !in flags then KRB5KRB_ERR_GENERIC
    else if server.expiration != 0 && server.expiration < now then KRB5KDC_ERR_SERVICE_EXP
    else 0
  }

  // check_tgs_nontgt and check_tgs_tgt: `name` is the service the header ticket is for.
  function NameError(request: Request, name: Principal): (code: int) {
    if request.options * NON_TGT_OPTIONS != {} then
      if name != request.server then KRB5KDC_ERR_SERVER_NOMATCH
      else if OptProxy in request.options && IsTgs(request.server) then KRB5KDC_ERR_BADOPTION
      else 0
    else if !IsTgs(name) then KRB5KRB_AP_ERR_NOT_US
    else if name.components[1] != request.server.realm then KRB5KRB_AP_ERR_NOT_US
    else 0
  }

  const ANONYMOUS_REALM := "WELLKNOWN:ANONYMOUS"
  const ANONYMOUS_PRINCIPAL := Principal(ANONYMOUS_REALM, ["WELLKNOWN", "ANONYMOUS"])

  function LocalTgs(realm: Realm): (p: Principal) {
    Principal(realm.name, ["krbtgt", realm.name])
  }

  // check_anon
  predicate Restricted(realm: Realm, client: Principal, server: Principal) {
    realm.restrictAnon && client.components == ANONYMOUS_PRINCIPAL.components && server != LocalTgs(realm)
  }

  /** What makes validate_tgs_request refuse, or 0.  `name` is the service the header ticket is for, and `policy` what
      the KDB's and the site's own policy say of the request. */
  function ValidateError(
    request: Request, server: DbEntry, name: Principal, header: EncTktPart, realm: Realm, policy: int, now: int)
    : (code: int)
  {
    var o, denied := request.options, Denied(SVC_DENY_RULES, request.options, server.attributes);
    if !OptionsBacked(o, header.flags) then KRB5KDC_ERR_BADOPTION
    else if TimesError(o, header.times, now) != 0 then TimesError(o, header.times, now)
    else if denied != 0 then denied
    else if ServiceError(server, name, header.flags, now) != 0 then ServiceError(server, name, header.flags, now)
    else if NameError(request, name) != 0 then NameError(request, name)
    else if Restricted(realm, header.client, request.server) then KRB5KDC_ERR_POLICY
    else policy
  }

  method ValidateTgsRequest(
    request: Request, server: DbEntry, name: Principal, header: EncTktPart, realm: Realm, policy: int, now: int)
    returns (code: int)
    ensures code == ValidateError(request, server, name, header, realm, policy, now)
  {
    hide OptionsBacked, Denied;
    var o := request.options;
    code := CheckTgsOpts(o, header.flags);
    if code != 0 {
      return;
    }
    if OptValidate in o {
      var starttime := if header.times.starttime != 0 then header.times.starttime else header.times.authtime;
      if starttime > now {
        return KRB5KRB_AP_ERR_TKT_NYV;
      }
    }
    if OptRenew in o && header.times.renewTill < now {
      return KRB5KRB_AP_ERR_TKT_EXPIRED;
    }
    code := CheckTgsSvcDenyOpts(o, server.attributes);
    if code != 0 {
      return;
    }
    code := ServiceError(server, name, header.flags, now);
    if code != 0 {
      return;
    }
    code := NameError(request, name);
    if code != 0 {
      return;
    }
    code := if Restricted(realm, header.client, request.server) then KRB5KDC_ERR_POLICY else policy;
  }

  /** The options that name a service ticket itself are granted only for the service it is for, and every other request
      only on a ticket for the TGS of the service's realm. */
  lemma GrantedNames(
    request: Request, server: DbEntry, name: Principal, header: EncTktPart, realm: Realm, policy: int, now: int)
    requires ValidateError(request, server, name, header, realm, policy, now) == 0
    ensures if request.options * NON_TGT_OPTIONS != {} then name == request.server
            else IsTgs(name) && name.components[1] == request.server.realm
  {
    hide OptionsBacked, Denied, TimesError, ServiceError, Restricted;
  }
}
