/** Ticket times across a chain of exchanges. */
module RenewalChains {
  import opened KdcTypes
  import opened TicketAuthdata
  import opened TgsPolicy
  import opened TgsIssue
  import opened TicketChains

  /** The latest time a ticket could be made to last to. */
  function Horizon(times: Times): (h: int) {
    var h := if times.endtime > times.renewTill then times.endtime else times.renewTill;
    if h > 0 then h else 0
  }

  /** The ticket that bounds the last ticket's life and says how its client authenticated: the one the chain starts
      from, or the header ticket of the last proxy request. */
  function Origin(hops: seq<Hop>, start: EncTktPart): (t: EncTktPart)
    ensures (forall i :: 0 <= i < |hops| ==> !hops[i].kind.ForProxy?) ==> t == start
  {
    if hops == [] then start else Origin(hops[1..], Header(hops[0], start))
  }

  /** The times of an issued ticket are the computed ones. */
  lemma IssuedTimes(hop: Hop, subject: EncTktPart)
    requires IssueTgs(hop, subject).Ok?
    ensures IssueTgs(hop, subject).value.times == ReplyTimes(hop, subject)
    ensures HopIndicators(hop, subject).Ok? && Refusal(hop, subject) == 0
  {
    hide Issue, HopIndicators, Refusal;
    var indicators := HopIndicators(hop, subject).value;
    IssueKeeps(HopInput(hop, subject, indicators), ReplyPart(hop, subject));
  }

  /** One exchange, of any kind, keeps the authentication time and cannot push the horizon out beyond the header
      ticket's; a renewal cannot lengthen the ticket's life either, nor end it after the old ticket's renew-till
      time. */
  lemma {:induction false} HopTimes(hop: Hop, subject: EncTktPart)
    requires hop.kdcTime > 0 && IssueTgs(hop, subject).Ok?
    ensures var times := IssueTgs(hop, subject).value.times;
            && times.authtime == subject.times.authtime
            && EffectiveStart(times) == hop.kdcTime
            && Horizon(times) <= Horizon(Header(hop, subject).times)
            && (OptRenew in hop.request.options ==>
                  && Life(times) <= Life(subject.times)
                  && times.endtime <= subject.times.renewTill && times.renewTill <= subject.times.renewTill)
  {
    IssuedTimes(hop, subject);
    if OptRenew in hop.request.options {
      RenewalIsPlain(hop, subject);
    }
    hide IssueTgs, Refusal, HopIndicators;
  }

  /** Neither kind of delegation request can renew a ticket. */
  lemma RenewalIsPlain(hop: Hop, subject: EncTktPart)
    requires Refusal(hop, subject) == 0 && OptRenew in hop.request.options
    ensures hop.kind.Plain?
  {
    hide PolicyError, NamesRequester;
    assert OptRenew in hop.request.options * NON_TGT_OPTIONS;
  }

  /** No chain of exchanges, of any kind, outlives what the ticket it comes from allowed; and the time of authentication
      is the first ticket's throughout. */
  lemma {:induction false} ChainWithinHorizon(hops: seq<Hop>, subject: EncTktPart, start: EncTktPart)
    requires forall i :: 0 <= i < |hops| ==> hops[i].kdcTime > 0
    requires Run(hops, subject).Ok? && Horizon(subject.times) <= Horizon(start.times)
    ensures var times := Run(hops, subject).value.times;
            && times.authtime == subject.times.authtime
            && times.endtime <= Horizon(times) <= Horizon(Origin(hops, start).times)
  {
    hide IssueTgs;
    if hops != [] {
      HopTimes(hops[0], subject);
      ChainWithinHorizon(hops[1..], IssueTgs(hops[0], subject).value, Header(hops[0], start));
    }
  }

  /** Over any chain of renewals the authentication time is constant, the effective life never grows, and the
      ticket never ends after the first ticket's renew-till time. */
  lemma {:induction false} RenewalsNeverGain(hops: seq<Hop>, subject: EncTktPart)
    requires forall i :: 0 <= i < |hops| ==> hops[i].kdcTime > 0 && OptRenew in hops[i].request.options
    requires Run(hops, subject).Ok?
    ensures var times := Run(hops, subject).value.times;
            && times.authtime == subject.times.authtime && Life(times) <= Life(subject.times)
            && (hops != [] ==> times.endtime <= subject.times.renewTill)
            && times.renewTill <= subject.times.renewTill
  {
    hide IssueTgs, Life, Horizon;
    if hops != [] {
      HopTimes(hops[0], subject);
      RenewalsNeverGain(hops[1..], IssueTgs(hops[0], subject).value);
    }
  }

  /** The flags of `t` that say how its client authenticated are those of `from`, and `t` is neither initial nor
      renewable if `from` is not. */
  predicate SameStanding(t: EncTktPart, from: EncTktPart) {
    && (PreAuth in t.flags <==> PreAuth in from.flags) && (HwAuth in t.flags <==> HwAuth in from.flags)
    && (Anonymous in t.flags <==> Anonymous in from.flags)
    && (Initial in t.flags ==> Initial in from.flags) && (Renewable in t.flags ==> Renewable in from.flags)
  }

  lemma {:induction false} ReplyAuthFlags(hop: Hop, subject: EncTktPart)
    ensures SameStanding(ReplyPart(hop, subject), Header(hop, subject))
  {
    RenewableOnlyFromRenewable(hop, subject);
    FreshAuthFlags(hop, Header(hop, subject));
    hide ReplyRenew, FreshFlags;
  }

  lemma FreshAuthFlags(hop: Hop, header: EncTktPart)
    ensures var f := FreshFlags(hop, header);
            && (PreAuth in f <==> PreAuth in header.flags) && (HwAuth in f <==> HwAuth in header.flags)
            && (Anonymous in f <==> Anonymous in header.flags) && Initial !in f && Renewable !in f
  {
    OptionFlags(hop.request.options);
    CopiedFlags(header.flags);
    hide KeepsForwardable, Opts2Flags, CopyTktFlags;
  }

  lemma OptionFlags(o: set<KdcOption>)
    ensures var f := Opts2Flags(o);
            && PreAuth !in f && HwAuth !in f && Initial !in f && Renewable !in f
            && (Anonymous in f <==> OptRequestAnonymous in o)
  {
    OptionFlag(o, PreAuth);
    OptionFlag(o, HwAuth);
    OptionFlag(o, Initial);
    OptionFlag(o, Renewable);
    OptionFlag(o, Anonymous);
    hide Opts2Flags;
  }

  lemma CopiedFlags(flags: set<TktFlag>)
    ensures var f := CopyTktFlags(flags);
            && (PreAuth in f <==> PreAuth in flags) && (HwAuth in f <==> HwAuth in flags)
            && (Anonymous in f <==> Anonymous in flags) && Initial !in f && Renewable !in f
  {
  }

  lemma RenewableOnlyFromRenewable(hop: Hop, subject: EncTktPart)
    ensures ReplyRenew(hop, subject).Some? ==> Renewable in Header(hop, subject).flags
  {
  }

  lemma IssuedFlags(hop: Hop, subject: EncTktPart)
    requires IssueTgs(hop, subject).Ok?
    ensures IssueTgs(hop, subject).value.flags == ReplyPart(hop, subject).flags
  {
    hide Issue, HopIndicators, Refusal, ReplyPart, TransitError;
    var indicators := HopIndicators(hop, subject).value;
    IssueKeeps(HopInput(hop, subject, indicators), ReplyPart(hop, subject));
  }

  /** Along any chain of exchanges, of any kind, the flags that say how the client authenticated stay those of the
      ticket the chain comes from, and a ticket becomes neither initial nor renewable if that one was not. */
  lemma {:induction false} AuthFlagsAlongChain(hops: seq<Hop>, subject: EncTktPart, start: EncTktPart)
    requires Run(hops, subject).Ok? && SameStanding(subject, start)
    ensures SameStanding(Run(hops, subject).value, Origin(hops, start))
  {
    hide IssueTgs, ReplyPart;
    if hops != [] {
      IssuedFlags(hops[0], subject);
      ReplyAuthFlags(hops[0], subject);
      AuthFlagsAlongChain(hops[1..], IssueTgs(hops[0], subject).value, Header(hops[0], start));
    }
  }

  // ----- Tickets marked INVALID -----

  lemma ReplyInvalid(hop: Hop, subject: EncTktPart)
    ensures var o := hop.request.options;
            Invalid in ReplyPart(hop, subject).flags <==>
            if OptRenew in o then Invalid in Header(hop, subject).flags else OptPostdated in o && OptValidate !in o
  {
    hide ReplyRenew, KeepsForwardable;
    var header, o := Header(hop, subject), hop.request.options;
    assert Invalid !in Opts2Flags(o) && Invalid !in CopyTktFlags(header.flags);
    hide Opts2Flags, CopyTktFlags;
    assert Invalid in FreshFlags(hop, header) <==> OptPostdated in o;
  }

  /** A header ticket marked INVALID is good for validating it after its start time and for nothing else; and a
      ticket is issued with that mark exactly if it is postdated, or if a renewal undoes the validation asked for
      with it. */
  lemma {:induction false} InvalidOnlyValidates(hop: Hop, subject: EncTktPart)
    requires IssueTgs(hop, subject).Ok?
    ensures var header, o := Header(hop, subject), hop.request.options;
            && (Invalid in header.flags ==> OptValidate in o && EffectiveStart(header.times) <= hop.kdcTime)
            && (Invalid in IssueTgs(hop, subject).value.flags <==>
                if OptRenew in o then Invalid in header.flags else OptPostdated in o && OptValidate !in o)
  {
    IssuedFlags(hop, subject);
    ReplyInvalid(hop, subject);
    hide Issue, ReplyPart, TransitError, Denied, ServiceError, NameError, OptionsBacked;
    assert Refusal(hop, subject) == 0;
  }
}
