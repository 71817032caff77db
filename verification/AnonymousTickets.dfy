/** Anonymous tickets and delegation.  An anonymous reply is issued without looking at the evidence ticket's path
    (handle_authdata, kdc_authdata.c), but an anonymous ticket names the anonymous principal (section 4.1 of RFC 6112),
    which can ask for no delegation in any realm but its own. */
module AnonymousTickets {
  import opened KdcTypes
  import opened Cammacs
  import opened SignedPaths
  import opened TicketAuthdata
  import opened TgsPolicy
  import opened TgsIssue
  import opened TicketChains

  /** An anonymous ticket is in the anonymous principal's name, as the AS exchange makes it. */
  predicate Named(t: EncTktPart) {
    Anonymous in t.flags ==> t.client == ANONYMOUS_PRINCIPAL
  }

  /** The hop is for a service of the KDC's own realm, which is not the anonymous realm; and if it is a proxy request,
      its header ticket is in order if this realm issued it. */
  predicate InRealm(hop: Hop) {
    && hop.request.server.realm == hop.realm.name != ANONYMOUS_REALM
    && (hop.kind.ForProxy? && !ForeignTgt(hop) ==> Named(hop.kind.header))
  }

  /** A TGS reply is anonymous exactly when the header ticket is. */
  lemma {:induction false} ReplyAnonymous(hop: Hop, subject: EncTktPart)
    ensures Anonymous in ReplyPart(hop, subject).flags <==> Anonymous in Header(hop, subject).flags
  {
    var header := Header(hop, subject);
    assert Anonymous in FreshFlags(hop, header) <==> Anonymous in header.flags;
  }

  /** The header ticket of a proxy request that is not refused is not anonymous. */
  lemma {:induction false} ProxyHeaderIsNotAnonymous(hop: Hop, subject: EncTktPart)
    requires hop.kind.ForProxy? && InRealm(hop) && Refusal(hop, subject) == 0
    ensures Anonymous !in hop.kind.header.flags
  {
    hide PolicyError;
    assert hop.kind.header.client.realm == hop.realm.name;
  }

  lemma IssuedPart(hop: Hop, subject: EncTktPart)
    requires IssueTgs(hop, subject).Ok?
    ensures Refusal(hop, subject) == 0 && HopIndicators(hop, subject).Ok?
    ensures var inp := HopInput(hop, subject, HopIndicators(hop, subject).value);
            IssueTgs(hop, subject) == Issue(inp, ReplyPart(hop, subject))
    ensures IssueTgs(hop, subject).value.(authdata := []) == ReplyPart(hop, subject).(authdata := [])
  {
    hide Issue, ReplyPart, Refusal;
    var inp := HopInput(hop, subject, HopIndicators(hop, subject).value);
    IssueKeeps(inp, ReplyPart(hop, subject));
  }

  /** Tickets issued from tickets in order are in order. */
  lemma HopKeepsNamed(hop: Hop, subject: EncTktPart)
    requires InRealm(hop) && Named(subject) && IssueTgs(hop, subject).Ok?
    ensures Named(IssueTgs(hop, subject).value)
  {
    hide IssueTgs, Refusal, ReplyFlags;
    IssuedPart(hop, subject);
    ReplyAnonymous(hop, subject);
    var t, part := IssueTgs(hop, subject).value, ReplyPart(hop, subject);
    assert t.flags == part.flags && t.client == part.client == ReplyClient(hop, subject);
    if hop.kind.ForProxy? {
      ProxyHeaderIsNotAnonymous(hop, subject);
    }
  }

  /** Along every chain, of hops of any kind, anonymous tickets stay in the anonymous principal's name. */
  lemma {:induction false} NamedAlongChain(hops: seq<Hop>, subject: EncTktPart)
    requires Named(subject) && Run(hops, subject).Ok? && forall i :: 0 <= i < |hops| ==> InRealm(hops[i])
    ensures Named(Run(hops, subject).value)
  {
    hide IssueTgs, InRealm, Named;
    if hops != [] {
      HopKeepsNamed(hops[0], subject);
      NamedAlongChain(hops[1..], IssueTgs(hops[0], subject).value);
    }
  }

  // ----- When a proxy request is refused -----

  /** The evidence ticket holds more than a PAC, and no path that verifies. */
  predicate Unproven(krbtgt: seq<KeyData>, evidence: EncTktPart) {
    var path := VerifySignedPath(krbtgt, evidence);
    !OnlyPac(evidence.authdata) && !(path.Ok? && path.value.Some?)
  }

  lemma UnprovenPathFails(inp: Input)
    requires inp.subject.Some? && ConstrainedDelegation in inp.flags && Unproven(inp.localTgt, inp.subject.value)
    ensures SubjectPath(inp).Err?
  {
    hide VerifySignedPath, OnlyPac;
  }

  /** No proxy request is granted on an evidence ticket without a path that verifies. */
  lemma {:induction false} ProxyNeedsPath(hop: Hop, subject: EncTktPart)
    requires hop.kind.ForProxy? && InRealm(hop) && Unproven(hop.localTgt, subject)
    ensures IssueTgs(hop, subject).Err?
  {
    if IssueTgs(hop, subject).Ok? {
      IssuedPart(hop, subject);
      ProxyHeaderIsNotAnonymous(hop, subject);
      ReplyAnonymous(hop, subject);
      hide IssueTgs, Refusal, ReplyPart, Issue, Unproven;
      var inp, tkt := HopInput(hop, subject, HopIndicators(hop, subject).value), ReplyPart(hop, subject);
      UnprovenPathFails(inp);
      hide SubjectPath;
      IssueShape(inp, tkt);
      assert false;
    }
  }

  /** The stages ahead of the signed path. */
  function Prepared(inp: Input, tkt: EncTktPart): (r: Result<EncTktPart>) {
    var r1 := WithRequest(inp, tkt);
    if r1.Err? then r1 else
    var r3 := WithTgt(inp, WithModules(inp, r1.value));
    if r3.Err? then r3 else
    var r4 := WithIndicators(inp, r3.value);
    if r4.Err? || Anonymous in tkt.flags then r4 else WithKdb(inp, r4.value)
  }

  /** Leaving names and realms aside, an unproven proxy request that gets as far as its path is granted exactly if the
      reply is anonymous. */
  lemma {:induction false} UnprovenExactly(inp: Input, tkt: EncTktPart)
    requires inp.subject.Some? && ConstrainedDelegation in inp.flags && Unproven(inp.localTgt, inp.subject.value)
    requires Prepared(inp, tkt).Ok?
    ensures Issue(inp, tkt).Ok? <==> Anonymous in tkt.flags
  {
    UnprovenPathFails(inp);
    hide WithRequest, WithTgt, WithModules, WithIndicators, WithKdb, SubjectPath;
  }

  // ----- The realm that is the exception: a KDC for the anonymous realm itself -----

  const SOME_KEY := Key(0, 0, 0)
  const BARE := EncTktPart({Forwardable}, SOME_KEY, ANONYMOUS_PRINCIPAL, "", Times(0, 0, 0, 0), "", [])
  const ANONYMOUS_SERVICE := Principal(ANONYMOUS_REALM, ["service"])

  function EntryOf(princ: Principal): (e: DbEntry) {
    DbEntry(princ, {}, [], 0, 0, 0)
  }

  /** The anonymous principal asks, with an anonymous TGT, to act on the ticket `BARE`, which was issued to it as a
      service and holds no authorization data at all. */
  function AnonymousProxy(krbtgt: seq<KeyData>): (hop: Hop) {
    var realm := Realm(ANONYMOUS_REALM, 0, 0, false, false);
    Hop(ForProxy(BARE.(flags := {Anonymous}), EntryOf(ANONYMOUS_PRINCIPAL), 0),
        Request({}, ANONYMOUS_SERVICE, OtherForm, 0, 0, "", None), 0, realm, EntryOf(ANONYMOUS_SERVICE), krbtgt,
        SOME_KEY, SOME_KEY, SOME_KEY, LocalTgs(realm), 0, "", 0, false, None, [], Ok([]))
  }

  lemma NothingAskedIsBacked(flags: set<TktFlag>)
    ensures OptionsBacked({}, flags)
  {
    forall i | 0 <= i < |TGS_FLAG_RULES|
      ensures Backed(TGS_FLAG_RULES[i], {}, flags)
    {
      assert {} * TGS_FLAG_RULES[i].options == {};
    }
  }

  lemma AnonymousProxyAdmitted(krbtgt: seq<KeyData>)
    ensures Refusal(AnonymousProxy(krbtgt), BARE) == 0
  {
    NothingAskedIsBacked({Anonymous});
    NoneDenies(SVC_DENY_RULES, {}, {});
    hide OptionsBacked, Denied;
    var none: set<KdcOption> := {};
    assert none * NON_TGT_OPTIONS == {};
  }

  lemma BareReads(krbtgt: seq<KeyData>)
    ensures AuthIndicators(BARE, krbtgt) == Ok([]) && Unproven(krbtgt, BARE)
  {
    hide Trials;
  }

  /** There, such a request is granted though the evidence proves nothing: `ProxyNeedsPath` needs the realm to be
      another one. */
  lemma {:induction false} GrantedInAnonymousRealm(krbtgt: seq<KeyData>)
    ensures var hop := AnonymousProxy(krbtgt);
            && hop.request.server.realm == hop.realm.name && Named(hop.kind.header) && Named(BARE)
            && Unproven(krbtgt, BARE) && IssueTgs(hop, BARE).Ok?
  {
    var hop := AnonymousProxy(krbtgt);
    AnonymousProxyAdmitted(krbtgt);
    BareReads(krbtgt);
    ReplyAnonymous(hop, BARE);
    hide Refusal, AuthIndicators, Unproven, ReplyFlags;
    var inp, tkt := HopInput(hop, BARE, []), ReplyPart(hop, BARE);
    assert WithRequest(inp, tkt).Ok? && WithTgt(inp, WithModules(inp, tkt)).Ok?;
    assert IssueTgs(hop, BARE) == Issue(inp, tkt);
  }
}
