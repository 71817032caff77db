/** Authentication indicators across a chain of exchanges: the CAMMAC of each ticket covers a ticket that later
    stages of the same exchange still extend, and each hop replaces it. */
module IndicatorChains {
  import opened KdcTypes
  import opened KeySearch
  import opened AuthdataLists
  import opened Cammacs
  import opened TicketAuthdata
  import opened TgsIssue
  import opened TicketChains

  lemma IndicatorDataReads(indicators: seq<string>)
    ensures Extracted(IndicatorData(indicators)) == Ok(indicators)
  {
    var ads := IndicatorData(indicators);
    FindAuthdataIs(ads, AD_AUTH_INDICATOR);
    assert DecodesIn(ads[0]) && Decodes(ads);
    assert Leaves(ads, AD_AUTH_INDICATOR) == LeavesOf(ads[0], AD_AUTH_INDICATOR) + Leaves(ads[1..], AD_AUTH_INDICATOR);
    assert Leaves(ads, AD_AUTH_INDICATOR) == ads;
    assert ads[..0] == [] && Strings(ads) == Strings(ads[..0]) + indicators == [] + indicators == indicators;
  }

  /** The CAMMAC an exchange adds contributes, on the finished ticket, the indicators it was made for. */
  lemma {:induction false} OwnCammacContributes(inp: Input, tkt: EncTktPart, t: EncTktPart, krbtgt': seq<KeyData>)
    requires CammacPart(inp, tkt) != [] && Retains(inp.localTgt, krbtgt')
    requires t.(authdata := []) == tkt.(authdata := [])
    ensures |Leaves(CammacPart(inp, tkt), AD_CAMMAC)| == 1
    ensures Gathered(Leaves(CammacPart(inp, tkt), AD_CAMMAC), t, krbtgt') == Ok(inp.indicators)
  {
    var contents := IndicatorData(inp.indicators);
    CammacVerifies(tkt, t, inp.serverKey, inp.serverKey, inp.localTgt, krbtgt', contents);
    var ad := CammacPart(inp, tkt)[0].contents.elements[0];
    ReservedContainer(AD_CAMMAC, ad.contents, AD_CAMMAC);
    assert CammacPart(inp, tkt) == [Container(AD_CAMMAC, ad.contents)];
    IndicatorDataReads(inp.indicators);
    GatheredOne(ad, t, krbtgt');
  }

  /** These elements can be searched, and none of the CAMMACs among them contributes an indicator. */
  predicate Silent(ads: seq<AuthData>, t: EncTktPart, krbtgt: seq<KeyData>) {
    Decodes(ads) && Gathered(Leaves(ads, AD_CAMMAC), t, krbtgt) == Ok([])
  }

  lemma ContributesSame(ad: AuthData, t: EncTktPart, t': EncTktPart, krbtgt: seq<KeyData>)
    requires t.(authdata := []) == t'.(authdata := [])
    ensures Contribution(ad, t, krbtgt) == Contribution(ad, t', krbtgt)
  {
    if ad.contents.CammacDer? {
      var elements := ad.contents.cammac.elements;
      assert t.(authdata := elements) == t.(authdata := []).(authdata := elements);
      assert t'.(authdata := elements) == t'.(authdata := []).(authdata := elements);
    }
  }

  /** What CAMMACs contribute does not depend on the ticket's own authorization data. */
  lemma {:induction false} GatheredSame(cammacs: seq<AuthData>, t: EncTktPart, t': EncTktPart, krbtgt: seq<KeyData>)
    requires t.(authdata := []) == t'.(authdata := [])
    ensures Gathered(cammacs, t, krbtgt) == Gathered(cammacs, t', krbtgt)
  {
    if cammacs != [] {
      ContributesSame(cammacs[0], t, t', krbtgt);
      GatheredSame(cammacs[1..], t, t', krbtgt);
    }
  }

  /** What surrounds the CAMMAC of this exchange is silent, and it makes at most 256 with the CAMMACs hidden there.
      This depends on the inputs of the exchange and the entry that will read the ticket, not on what is issued. */
  predicate Quiet(inp: Input, tkt: EncTktPart, reader: seq<KeyData>) {
    var early, kdb := Early(inp, tkt), KdbPart(inp, tkt);
    && Silent(early, tkt, reader) && Silent(kdb, tkt, reader)
    && |Leaves(early, AD_CAMMAC)| + |Leaves(kdb, AD_CAMMAC)| + (if inp.indicators == [] then 0 else 1) <= 256
  }

  /** The CAMMACs of an issued ticket: those ahead of its own, its own, and those the KDB added. */
  lemma IssuedCammacs(inp: Input, tkt: EncTktPart)
    requires Issue(inp, tkt).Ok?
    ensures var t, early := Issue(inp, tkt).value, Early(inp, tkt);
            var cammac, kdb := CammacPart(inp, tkt), KdbPart(inp, tkt);
            && Leaves(t.authdata, AD_CAMMAC)
               == Leaves(early, AD_CAMMAC) + Leaves(cammac, AD_CAMMAC) + Leaves(kdb, AD_CAMMAC)
            && (Decodes(t.authdata) <==> Decodes(early) && Decodes(kdb))
            && |Leaves(cammac, AD_CAMMAC)| == |cammac| <= 1
            && t.(authdata := []) == tkt.(authdata := [])
  {
    hide Issue, Leaves, Decodes, Early, CammacPart, KdbPart, Without;
    var path := IssuedComposition(inp, tkt);
    var early, cammac, kdb := Early(inp, tkt), CammacPart(inp, tkt), KdbPart(inp, tkt);
    EarlyIs(inp, tkt);
    AtMostOneReserved(AD_CAMMAC, cammac);
    AtMostOneReserved(AD_SIGNTICKET, path);
    LeavesConcat(early, cammac, AD_CAMMAC);
    LeavesConcat(early + cammac, kdb, AD_CAMMAC);
    LeavesConcat(early + cammac + kdb, path, AD_CAMMAC);
    var l := Leaves(early, AD_CAMMAC) + Leaves(cammac, AD_CAMMAC) + Leaves(kdb, AD_CAMMAC);
    assert l + [] == l;
  }

  lemma EarlyIs(inp: Input, tkt: EncTktPart)
    ensures Early(inp, tkt) == tkt.authdata + RequestPart(inp) + ModulePart(inp, tkt) + TgtPart(inp)
  {
  }

  /** What an issued ticket gives to `reader`, if it can be searched. */
  lemma {:induction false} IssuedGathers(inp: Input, tkt: EncTktPart, reader: seq<KeyData>)
    requires Issue(inp, tkt).Ok?
    ensures var t, early := Issue(inp, tkt).value, Early(inp, tkt);
            var cammac, kdb := CammacPart(inp, tkt), KdbPart(inp, tkt);
            var readable := Decodes(early) && Decodes(kdb)
                            && |Leaves(early, AD_CAMMAC)| + |Leaves(kdb, AD_CAMMAC)| + |cammac| <= 256;
            && (!readable ==> AuthIndicators(t, reader).Err?)
            && (readable ==>
                  AuthIndicators(t, reader) ==
                  Then(Then(Gathered(Leaves(early, AD_CAMMAC), tkt, reader),
                            Gathered(Leaves(cammac, AD_CAMMAC), tkt, reader)),
                       Gathered(Leaves(kdb, AD_CAMMAC), tkt, reader)))
  {
    hide Issue, Leaves, Decodes, Early, CammacPart, KdbPart, Gathered, FindAuthdata;
    IssuedCammacs(inp, tkt);
    var t := Issue(inp, tkt).value;
    var le, lc, lk := Leaves(Early(inp, tkt), AD_CAMMAC), Leaves(CammacPart(inp, tkt), AD_CAMMAC),
                      Leaves(KdbPart(inp, tkt), AD_CAMMAC);
    FindAuthdataIs(t.authdata, AD_CAMMAC);
    GatheredConcat(le, lc, t, reader);
    GatheredConcat(le + lc, lk, t, reader);
    GatheredSame(le, t, tkt, reader);
    GatheredSame(lc, t, tkt, reader);
    GatheredSame(lk, t, tkt, reader);
  }

  lemma OwnGathers(inp: Input, tkt: EncTktPart, reader: seq<KeyData>)
    requires Issue(inp, tkt).Ok? && NoAuthDataRequired !in inp.server.attributes
    requires inp.indicators != [] ==> Retains(inp.localTgt, reader)
    ensures Gathered(Leaves(CammacPart(inp, tkt), AD_CAMMAC), tkt, reader) == Ok(inp.indicators)
    ensures |CammacPart(inp, tkt)| == if inp.indicators == [] then 0 else 1
  {
    hide Issue;
    IssueShape(inp, tkt);
    AddedCammac(inp, tkt);
    if inp.indicators != [] {
      OwnCammacContributes(inp, tkt, tkt, reader);
    }
  }

  /** An issued ticket vouches to `reader` for exactly the indicators it was issued with if and only if the inputs of
      the exchange are quiet. */
  lemma {:induction false} IndicatorsExactly(inp: Input, tkt: EncTktPart, reader: seq<KeyData>)
    requires Issue(inp, tkt).Ok? && NoAuthDataRequired !in inp.server.attributes
    requires inp.indicators != [] ==> Retains(inp.localTgt, reader)
    ensures AuthIndicators(Issue(inp, tkt).value, reader) == Ok(inp.indicators) <==> Quiet(inp, tkt, reader)
  {
    hide Issue, Leaves, Decodes, Early, CammacPart, KdbPart, Gathered, AuthIndicators, Retains;
    IssuedGathers(inp, tkt, reader);
    OwnGathers(inp, tkt, reader);
    EqualsMiddle(Gathered(Leaves(Early(inp, tkt), AD_CAMMAC), tkt, reader), inp.indicators,
                 Gathered(Leaves(KdbPart(inp, tkt), AD_CAMMAC), tkt, reader));
  }

  lemma EqualsMiddle(a: Result<seq<string>>, m: seq<string>, b: Result<seq<string>>)
    ensures Then(Then(a, Ok(m)), b) == Ok(m) <==> a == Ok([]) && b == Ok([])
  {
    if a.Ok? && b.Ok? && a.value + m + b.value == m {
      assert |a.value| + |m| + |b.value| == |m|;
    }
    assert [] + m + [] == m;
  }

  /** With clean inputs, an issued ticket vouches for exactly the indicators it was issued with. */
  lemma {:induction false} IndicatorsOfIssued(inp: Input, tkt: EncTktPart, krbtgt': seq<KeyData>)
    requires Issue(inp, tkt).Ok? && NoAuthDataRequired !in inp.server.attributes
    requires CleanInputs(inp, tkt, AD_CAMMAC)
    requires inp.subject.Some? ==> PassesOnClean(inp.subject.value, AD_CAMMAC)
    requires inp.indicators != [] ==> Retains(inp.localTgt, krbtgt')
    ensures var t := Issue(inp, tkt).value;
            && AuthIndicators(t, krbtgt') == Ok(inp.indicators)
            && |Leaves(t.authdata, AD_CAMMAC)| == (if inp.indicators == [] then 0 else 1)
            && PassesOnClean(t, AD_CAMMAC)
            && t.(authdata := []) == tkt.(authdata := [])
  {
    IssueShape(inp, tkt);
    var path := IssuedLeaves(inp, tkt, AD_CAMMAC);
    AtMostOneReserved(AD_SIGNTICKET, path);
    var t, lc := Issue(inp, tkt).value, Leaves(CammacPart(inp, tkt), AD_CAMMAC);
    assert Leaves(t.authdata, AD_CAMMAC) == lc + [] == lc;
    FindAuthdataIs(t.authdata, AD_CAMMAC);
    if inp.indicators != [] {
      OwnCammacContributes(inp, tkt, t, krbtgt');
    }
  }

  // ----- Chains -----

  /** No hop is for a service without authorization data, and (if there are indicators to read) each reader still has
      the key that the ticket it reads was signed with. */
  predicate KeepsKeys(indicators: seq<string>, issuer: seq<KeyData>, hops: seq<Hop>, last: seq<KeyData>)
    decreases |hops|
  {
    && (indicators != [] ==> Retains(issuer, Reader(hops, last)))
    && (hops != [] ==>
          && NoAuthDataRequired !in ServerEntry(hops[0]).attributes
          && KeepsKeys(Vouched(hops[0], indicators), hops[0].localTgt, hops[1..], last))
  }

  /** Each hop issues a ticket, and `subject` and every ticket issued give their reader exactly the indicators to vouch
      for: `indicators` until the first protocol transition, and none from there on. */
  predicate ReadThroughout(indicators: seq<string>, hops: seq<Hop>, subject: EncTktPart, last: seq<KeyData>)
    decreases |hops|
  {
    && AuthIndicators(subject, Reader(hops, last)) == Ok(indicators)
    && (hops != [] ==>
          && IssueTgs(hops[0], subject).Ok?
          && ReadThroughout(Vouched(hops[0], indicators), hops[1..], IssueTgs(hops[0], subject).value, last))
  }

  /** Each hop issues a ticket, from inputs that are quiet for its reader. */
  predicate QuietThroughout(indicators: seq<string>, hops: seq<Hop>, subject: EncTktPart, last: seq<KeyData>)
    decreases |hops|
  {
    hops != [] ==>
      && var own := Vouched(hops[0], indicators);
      && Quiet(HopInput(hops[0], subject, own), ReplyPart(hops[0], subject), Reader(hops[1..], last))
      && IssueTgs(hops[0], subject).Ok?
      && QuietThroughout(own, hops[1..], IssueTgs(hops[0], subject).value, last)
  }

  /** One hop about a ticket that gives `indicators` issues one that gives what it should vouch for exactly if its
      inputs are quiet. */
  lemma {:induction false} HopExactly(hop: Hop, subject: EncTktPart, indicators: seq<string>, reader: seq<KeyData>)
    requires AuthIndicators(subject, hop.localTgt) == Ok(indicators)
    requires NoAuthDataRequired !in ServerEntry(hop).attributes && IssueTgs(hop, subject).Ok?
    requires Vouched(hop, indicators) != [] ==> Retains(hop.localTgt, reader)
    ensures var own := Vouched(hop, indicators);
            AuthIndicators(IssueTgs(hop, subject).value, reader) == Ok(own) <==>
            Quiet(HopInput(hop, subject, own), ReplyPart(hop, subject), reader)
    ensures MeetsRequirement(hop.requireAuth, indicators)
    ensures var next := IssueTgs(hop, subject).value;
            next.client == NextClient(hop, subject.client) && next.times.authtime == subject.times.authtime
  {
    hide Issue, AuthIndicators, Quiet, ReplyPart, Retains, TransitError, Refusal;
    var own := Vouched(hop, indicators);
    assert HopIndicators(hop, subject) == Ok(own);
    HopIssues(hop, subject, own);
    ReplyKeeps(hop, subject);
    IndicatorsExactly(HopInput(hop, subject, own), ReplyPart(hop, subject), reader);
    IssueKeeps(HopInput(hop, subject, own), ReplyPart(hop, subject));
  }

  /** Along a chain about a ticket that gives `indicators`, every ticket gives what it should vouch for exactly if every
      hop is quiet. */
  lemma {:induction false} IndicatorsAlongChain(
    indicators: seq<string>, issuer: seq<KeyData>, hops: seq<Hop>, subject: EncTktPart, last: seq<KeyData>)
    requires KeepsKeys(indicators, issuer, hops, last)
    requires AuthIndicators(subject, Reader(hops, last)) == Ok(indicators)
    ensures ReadThroughout(indicators, hops, subject, last) <==> QuietThroughout(indicators, hops, subject, last)
    decreases |hops|
  {
    hide IssueTgs, AuthIndicators, Retains, Quiet, MeetsRequirement, Vouched;
    if hops != [] && IssueTgs(hops[0], subject).Ok? {
      var next, own := IssueTgs(hops[0], subject).value, Vouched(hops[0], indicators);
      HopExactly(hops[0], subject, indicators, Reader(hops[1..], last));
      if AuthIndicators(next, Reader(hops[1..], last)) == Ok(own) {
        IndicatorsAlongChain(own, hops[0].localTgt, hops[1..], next, last);
      }
    }
  }

  lemma {:induction false} ReadThroughoutGives(
    indicators: seq<string>, issuer: seq<KeyData>, hops: seq<Hop>, subject: EncTktPart, last: seq<KeyData>)
    requires KeepsKeys(indicators, issuer, hops, last) && ReadThroughout(indicators, hops, subject, last)
    ensures var end := Run(hops, subject);
            && end.Ok? && AuthIndicators(end.value, last) == Ok(VouchedAfter(hops, indicators))
            && end.value.client == ClientAfter(hops, subject.client)
            && end.value.times.authtime == subject.times.authtime
    ensures forall i :: 0 <= i < |hops| ==> MeetsRequirement(hops[i].requireAuth, indicators)
    decreases |hops|
  {
    hide IssueTgs, AuthIndicators, Retains, Quiet, MeetsRequirement, Vouched, NextClient;
    if hops != [] {
      var own := Vouched(hops[0], indicators);
      HopExactly(hops[0], subject, indicators, Reader(hops[1..], last));
      ReadThroughoutGives(own, hops[0].localTgt, hops[1..], IssueTgs(hops[0], subject).value, last);
      forall i | 0 <= i < |hops|
        ensures MeetsRequirement(hops[i].requireAuth, indicators)
      {
        if i > 0 {
          assert hops[1..][i - 1] == hops[i];
          VouchedMeets(hops[0], hops[i].requireAuth, indicators);
        }
      }
    }
  }

  lemma VouchedMeets(hop: Hop, required: Option<seq<string>>, indicators: seq<string>)
    requires MeetsRequirement(required, Vouched(hop, indicators))
    ensures MeetsRequirement(required, indicators)
  {
  }

  /** For every chain of one AS exchange and any number of TGS exchanges of any kind, every ticket of the chain gives
      exactly the indicators of the AS exchange, in order (or none once the user is one that a service named), if and
      only if every exchange has quiet inputs.  The last ticket then does, and every service on the way that requires an
      indicator got one that the AS exchange established. */
  lemma {:induction false} IndicatorsSurviveChain(
    asInp: Input, base: EncTktPart, hops: seq<Hop>, last: seq<KeyData>)
    requires Issue(asInp, base).Ok? && NoAuthDataRequired !in asInp.server.attributes
    requires KeepsKeys(asInp.indicators, asInp.localTgt, hops, last)
    ensures var t := Issue(asInp, base).value;
            ReadThroughout(asInp.indicators, hops, t, last) <==>
            Quiet(asInp, base, Reader(hops, last)) && QuietThroughout(asInp.indicators, hops, t, last)
    ensures ReadThroughout(asInp.indicators, hops, Issue(asInp, base).value, last) ==>
            var end := Run(hops, Issue(asInp, base).value);
            && end.Ok? && AuthIndicators(end.value, last) == Ok(VouchedAfter(hops, asInp.indicators))
            && end.value.client == ClientAfter(hops, base.client) && end.value.times.authtime == base.times.authtime
            && forall i :: 0 <= i < |hops| ==> MeetsRequirement(hops[i].requireAuth, asInp.indicators)
  {
    hide Issue, IssueTgs, AuthIndicators, Retains, Quiet, QuietThroughout, MeetsRequirement, Run, VouchedAfter;
    hide ClientAfter;
    var t := Issue(asInp, base).value;
    IndicatorsExactly(asInp, base, Reader(hops, last));
    IssueKeeps(asInp, base);
    if AuthIndicators(t, Reader(hops, last)) == Ok(asInp.indicators) {
      IndicatorsAlongChain(asInp.indicators, asInp.localTgt, hops, t, last);
    }
    if ReadThroughout(asInp.indicators, hops, t, last) {
      ReadThroughoutGives(asInp.indicators, asInp.localTgt, hops, t, last);
    }
  }

  // ----- One CAMMAC at a time -----

  /** `t` holds exactly one CAMMAC, or none if it has no indicators to vouch for; and it passes none on. */
  predicate OneCammac(t: EncTktPart, indicators: seq<string>) {
    |Leaves(t.authdata, AD_CAMMAC)| == (if indicators == [] then 0 else 1) && PassesOnClean(t, AD_CAMMAC)
  }

  /** No hop's inputs other than the ticket it is about hide a CAMMAC. */
  predicate NoneHiddenThroughout(indicators: seq<string>, hops: seq<Hop>, subject: EncTktPart)
    decreases |hops|
  {
    hops != [] && IssueTgs(hops[0], subject).Ok? ==>
      && var own := Vouched(hops[0], indicators);
      && CleanInputs(HopInput(hops[0], subject, own), ReplyPart(hops[0], subject), AD_CAMMAC)
      && NoneHiddenThroughout(own, hops[1..], IssueTgs(hops[0], subject).value)
  }

  /** One hop strips the CAMMAC of the ticket it is about, and adds one of its own. */
  lemma {:induction false} HopReplacesCammac(
    hop: Hop, subject: EncTktPart, indicators: seq<string>, reader: seq<KeyData>)
    requires AuthIndicators(subject, hop.localTgt) == Ok(indicators) && PassesOnClean(subject, AD_CAMMAC)
    requires NoAuthDataRequired !in ServerEntry(hop).attributes && IssueTgs(hop, subject).Ok?
    requires Vouched(hop, indicators) != [] ==> Retains(hop.localTgt, reader)
    requires CleanInputs(HopInput(hop, subject, Vouched(hop, indicators)), ReplyPart(hop, subject), AD_CAMMAC)
    ensures var next, own := IssueTgs(hop, subject).value, Vouched(hop, indicators);
            AuthIndicators(next, reader) == Ok(own) && OneCammac(next, own)
  {
    hide Issue, AuthIndicators, ReplyPart, Retains, TransitError, Refusal, CleanInputs, PassesOnClean, Leaves;
    var own := Vouched(hop, indicators);
    assert HopIndicators(hop, subject) == Ok(own);
    HopIssues(hop, subject, own);
    IndicatorsOfIssued(HopInput(hop, subject, own), ReplyPart(hop, subject), reader);
  }

  /** Along every chain the CAMMAC of one ticket is gone from the next, which has a single fresh one. */
  lemma {:induction false} OneCammacAlongChain(
    indicators: seq<string>, issuer: seq<KeyData>, hops: seq<Hop>, subject: EncTktPart, last: seq<KeyData>)
    requires KeepsKeys(indicators, issuer, hops, last) && NoneHiddenThroughout(indicators, hops, subject)
    requires AuthIndicators(subject, Reader(hops, last)) == Ok(indicators) && OneCammac(subject, indicators)
    requires Run(hops, subject).Ok?
    ensures var end, own := Run(hops, subject).value, VouchedAfter(hops, indicators);
            AuthIndicators(end, last) == Ok(own) && OneCammac(end, own)
    decreases |hops|
  {
    hide IssueTgs, AuthIndicators, Retains, Vouched, CleanInputs, PassesOnClean, Leaves;
    if hops != [] {
      HopReplacesCammac(hops[0], subject, indicators, Reader(hops[1..], last));
      OneCammacAlongChain(Vouched(hops[0], indicators), hops[0].localTgt, hops[1..], IssueTgs(hops[0], subject).value,
                          last);
    }
  }

  /** So after an AS exchange and any number of TGS exchanges, none of whose inputs hides a CAMMAC, the ticket holds
      exactly one, the last exchange's own. */
  lemma {:induction false} OneCammacSinceAs(asInp: Input, base: EncTktPart, hops: seq<Hop>, last: seq<KeyData>)
    requires Issue(asInp, base).Ok? && NoAuthDataRequired !in asInp.server.attributes && asInp.subject.None?
    requires KeepsKeys(asInp.indicators, asInp.localTgt, hops, last)
    requires CleanInputs(asInp, base, AD_CAMMAC)
    requires NoneHiddenThroughout(asInp.indicators, hops, Issue(asInp, base).value)
    requires Run(hops, Issue(asInp, base).value).Ok?
    ensures var end, own := Run(hops, Issue(asInp, base).value).value, VouchedAfter(hops, asInp.indicators);
            AuthIndicators(end, last) == Ok(own) && OneCammac(end, own)
  {
    hide Issue, IssueTgs, AuthIndicators, Retains, CleanInputs, PassesOnClean, Leaves, Run, VouchedAfter;
    hide NoneHiddenThroughout;
    IndicatorsOfIssued(asInp, base, Reader(hops, last));
    OneCammacAlongChain(asInp.indicators, asInp.localTgt, hops, Issue(asInp, base).value, last);
  }

  // ----- What no ticket gives -----

  /** No KDC verifier made for a ticket with this session key is among the CAMMACs of `ads`. */
  predicate Unforged(ads: seq<AuthData>, session: Key) {
    var cammacs := Leaves(ads, AD_CAMMAC);
    forall i :: 0 <= i < |cammacs| ==> !ForSession(cammacs[i], session)
  }

  predicate ForSession(ad: AuthData, session: Key) {
    && ad.contents.CammacDer? && ad.contents.cammac.kdcVerifier.Some?
    && var c := ad.contents.cammac.kdcVerifier.value.checksum;
    && c.Mac? && c.over.EncTktDer? && c.over.tkt.session == session
  }

  lemma {:induction false} UnforgedGivesNothing(cammacs: seq<AuthData>, t: EncTktPart, reader: seq<KeyData>)
    requires forall i :: 0 <= i < |cammacs| ==> !ForSession(cammacs[i], t.session)
    ensures Gathered(cammacs, t, reader).Err? || Gathered(cammacs, t, reader) == Ok([])
  {
    if cammacs != [] {
      var none: seq<string> := [];
      assert none + none == none;
      UnforgedFails(cammacs[0], t, reader);
      UnforgedGivesNothing(cammacs[1..], t, reader);
    }
  }

  lemma UnforgedFails(ad: AuthData, t: EncTktPart, reader: seq<KeyData>)
    requires !ForSession(ad, t.session)
    ensures Contribution(ad, t, reader).Err? || Contribution(ad, t, reader) == Ok([])
  {
    hide FindKey, Extracted;
    if ad.contents.CammacDer? && CheckKdcver(ad.contents.cammac, t, reader) {
      assert KdcverEncpart(t, ad.contents.cammac.elements).tkt.session == t.session;
    }
  }

  /** `r` is an error, or no indicators, or exactly `indicators`. */
  predicate NoMoreThan(r: Result<seq<string>>, indicators: seq<string>) {
    r.Ok? ==> r.value == [] || r.value == indicators
  }

  lemma OwnGivesNoMore(inp: Input, tkt: EncTktPart, reader: seq<KeyData>)
    ensures NoMoreThan(Gathered(Leaves(CammacPart(inp, tkt), AD_CAMMAC), tkt, reader), inp.indicators)
    ensures Gathered(Leaves(CammacPart(inp, tkt), AD_CAMMAC), tkt, reader).Ok?
  {
    if CammacPart(inp, tkt) != [] {
      var ad := OwnCammac(inp, tkt);
      hide FindKey, Extracted, Gathered, Leaves, CammacPart, CheckKdcver;
      ReservedContainer(AD_CAMMAC, ad.contents, AD_CAMMAC);
      IndicatorDataReads(inp.indicators);
      GatheredOne(ad, tkt, reader);
    } else {
      assert Leaves([], AD_CAMMAC) == [];
    }
  }

  lemma OwnCammac(inp: Input, tkt: EncTktPart) returns (ad: AuthData)
    requires CammacPart(inp, tkt) != []
    ensures CammacPart(inp, tkt) == [Container(AD_CAMMAC, ad.contents)] && ad.adType == AD_CAMMAC
    ensures ad.contents.CammacDer? && ad.contents.cammac.elements == IndicatorData(inp.indicators)
  {
    hide FindKey, KdcverEncpart;
    ad := CammacPart(inp, tkt)[0].contents.elements[0];
  }

  /** Whatever a request hides, an issued ticket gives to no entry an indicator it was not issued with, as long as no
      verifier for its new session key is hidden in what went into it. */
  lemma {:induction false} IssuedGivesNoMore(inp: Input, tkt: EncTktPart, reader: seq<KeyData>)
    requires Issue(inp, tkt).Ok?
    requires Unforged(Early(inp, tkt), tkt.session) && Unforged(KdbPart(inp, tkt), tkt.session)
    ensures NoMoreThan(AuthIndicators(Issue(inp, tkt).value, reader), inp.indicators)
  {
    hide Issue, Leaves, Decodes, Early, CammacPart, KdbPart, Gathered, AuthIndicators, ForSession;
    IssuedGathers(inp, tkt, reader);
    OwnGivesNoMore(inp, tkt, reader);
    UnforgedGivesNothing(Leaves(Early(inp, tkt), AD_CAMMAC), tkt, reader);
    UnforgedGivesNothing(Leaves(KdbPart(inp, tkt), AD_CAMMAC), tkt, reader);
    var own := Gathered(Leaves(CammacPart(inp, tkt), AD_CAMMAC), tkt, reader).value;
    assert [] + own + [] == own && [] + own == own;
  }

  /** At each hop, no verifier for the new session key is hidden in what goes into the ticket. */
  predicate UnforgedThroughout(hops: seq<Hop>, subject: EncTktPart)
    decreases |hops|
  {
    hops != [] && IssueTgs(hops[0], subject).Ok? ==>
      && var inp, tkt := HopInput(hops[0], subject, HopIndicators(hops[0], subject).value), ReplyPart(hops[0], subject);
      && Unforged(Early(inp, tkt), tkt.session) && Unforged(KdbPart(inp, tkt), tkt.session)
      && UnforgedThroughout(hops[1..], IssueTgs(hops[0], subject).value)
  }

  lemma HopGivesNoMore(hop: Hop, subject: EncTktPart, indicators: seq<string>, reader: seq<KeyData>)
    requires IssueTgs(hop, subject).Ok? && NoMoreThan(AuthIndicators(subject, hop.localTgt), indicators)
    requires var inp, tkt := HopInput(hop, subject, HopIndicators(hop, subject).value), ReplyPart(hop, subject);
             Unforged(Early(inp, tkt), tkt.session) && Unforged(KdbPart(inp, tkt), tkt.session)
    ensures NoMoreThan(AuthIndicators(IssueTgs(hop, subject).value, reader), indicators)
    ensures MeetsRequirement(hop.requireAuth, indicators)
  {
    hide Issue, Leaves, Decodes, Early, CammacPart, KdbPart, AuthIndicators, ReplyPart, Unforged;
    var own := HopIndicators(hop, subject).value;
    HopIssues(hop, subject, own);
    IssuedGivesNoMore(HopInput(hop, subject, own), ReplyPart(hop, subject), reader);
    assert MeetsRequirement(hop.requireAuth, own);
    assert own == [] || own == indicators;
  }

  /** Along every chain, protocol transitions, key rollovers and hidden data included, no ticket gives any entry an
      indicator that the AS exchange did not establish, and no service that requires one is satisfied by another. */
  lemma {:induction false} NoIndicatorGained(
    indicators: seq<string>, hops: seq<Hop>, subject: EncTktPart, last: seq<KeyData>)
    requires Run(hops, subject).Ok? && UnforgedThroughout(hops, subject)
    requires forall reader :: NoMoreThan(AuthIndicators(subject, reader), indicators)
    ensures NoMoreThan(AuthIndicators(Run(hops, subject).value, last), indicators)
    ensures forall i :: 0 <= i < |hops| ==> MeetsRequirement(hops[i].requireAuth, indicators)
    decreases |hops|
  {
    hide IssueTgs, AuthIndicators, NoMoreThan, MeetsRequirement, Unforged, HopInput, ReplyPart, HopIndicators;
    if hops != [] {
      var next := IssueTgs(hops[0], subject).value;
      forall reader
        ensures NoMoreThan(AuthIndicators(next, reader), indicators)
      {
        HopGivesNoMore(hops[0], subject, indicators, reader);
      }
      HopGivesNoMore(hops[0], subject, indicators, last);
      NoIndicatorGained(indicators, hops[1..], next, last);
    }
  }

  lemma {:induction false} NoIndicatorGainedSinceAs(asInp: Input, base: EncTktPart, hops: seq<Hop>, last: seq<KeyData>)
    requires Issue(asInp, base).Ok? && Run(hops, Issue(asInp, base).value).Ok?
    requires Unforged(Early(asInp, base), base.session) && Unforged(KdbPart(asInp, base), base.session)
    requires UnforgedThroughout(hops, Issue(asInp, base).value)
    ensures NoMoreThan(AuthIndicators(Run(hops, Issue(asInp, base).value).value, last), asInp.indicators)
    ensures forall i :: 0 <= i < |hops| ==> MeetsRequirement(hops[i].requireAuth, asInp.indicators)
  {
    hide Issue, AuthIndicators, NoMoreThan, MeetsRequirement, Unforged, Run, UnforgedThroughout;
    var t := Issue(asInp, base).value;
    forall reader
      ensures NoMoreThan(AuthIndicators(t, reader), asInp.indicators)
    {
      IssuedGivesNoMore(asInp, base, reader);
    }
    NoIndicatorGained(asInp.indicators, hops, t, last);
  }
}
