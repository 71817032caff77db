/** How what a service demands of tickets goes back, over a chain of exchanges, to what was verified in the AS
    exchange. */
module PreauthChains {
  import opened KdcTypes
  import opened PadataCheck
  import opened TicketAuthdata
  import opened TgsPolicy
  import opened TgsIssue
  import opened TicketChains
  import opened AsExchange
  import opened RenewalChains

  lemma HopDemands(hop: Hop, subject: EncTktPart)
    requires IssueTgs(hop, subject).Ok?
    ensures Demanded(hop.server.attributes) <= Header(hop, subject).flags
  {
    hide Issue, TransitError, Denied, TimesError, NameError, OptionsBacked, FailsLineage, HopIndicators;
    assert PolicyError(hop, subject) == 0;
    assert ServiceError(hop.server, hop.headerServer, Header(hop, subject).flags, hop.kdcTime) == 0;
  }

  /** Every service on a chain that demands preauthentication, or that it was done in hardware, is asked for with a
      ticket that comes from one with that flag. */
  lemma {:induction false} DemandsAlongChain(hops: seq<Hop>, subject: EncTktPart, start: EncTktPart, i: nat)
    requires Run(hops, subject).Ok? && SameStanding(subject, start) && i < |hops|
    ensures Demanded(hops[i].server.attributes) <= Origin(hops[..i + 1], start).flags
    decreases |hops|
  {
    hide IssueTgs, ReplyPart, Header;
    var first, next := hops[0], IssueTgs(hops[0], subject).value;
    if i == 0 {
      HopDemands(first, subject);
      HeadersAgree(first, subject, start);
      DemandedFlags(first.server.attributes);
      assert hops[..1][1..] == [] && Origin(hops[..1], start) == Header(first, start);
    } else {
      IssuedFlags(first, subject);
      ReplyAuthFlags(first, subject);
      HeadersAgree(first, subject, start);
      DemandsAlongChain(hops[1..], next, Header(first, start), i - 1);
      assert hops[..i + 1][1..] == hops[1..][..i];
    }
  }

  lemma HeadersAgree(hop: Hop, subject: EncTktPart, start: EncTktPart)
    requires SameStanding(subject, start)
    ensures SameStanding(Header(hop, subject), Header(hop, start))
  {
  }

  lemma DemandedFlags(attributes: set<Attribute>)
    ensures Demanded(attributes) <= {PreAuth, HwAuth}
  {
  }

  /** So if that ticket is the reply of an AS exchange with honest modules, whatever a service demands was verified
      there. */
  lemma {:induction false} DemandedWasVerified(
    input: AsInput, h: seq<Attempt>, hops: seq<Hop>, first: EncTktPart, i: nat, f: TktFlag)
    requires Run(hops, first).Ok? && i < |hops| && f in Demanded(hops[i].server.attributes) && Honest(h)
    requires f in Origin(hops[..i + 1], first).flags ==> f in FlagsAfter(input, h)
    ensures exists k :: 0 <= k < |h| && !h[k].Failed() && f in h[k].outcome.flagsSet
  {
    hide Run, Origin;
    DemandsAlongChain(hops, first, first, i);
    assert f in FlagsAfter(input, h) && f !in InitialFlags(input);
    FlagsSetBy(h, f);
    var k :| 0 <= k < |h| && f in h[k].outcome.flagsSet;
    assert !h[k].Failed();
  }
}
