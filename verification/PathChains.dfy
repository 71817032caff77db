/** Delegation paths across a chain of exchanges: every ticket's signed path names, in order, the services that
    have delegated so far. */
module PathChains {
  import opened KdcTypes
  import opened KeySearch
  import opened AuthdataLists
  import opened SignedPaths
  import opened TicketAuthdata
  import opened TgsPolicy
  import opened TgsIssue
  import opened TicketChains

  /** The key an entry signs paths with, if it can sign at all. */
  predicate CanSign(krbtgt: seq<KeyData>) {
    FindKey(krbtgt, 0).Ok? && FindKey(krbtgt, 0).value.key.Ok? && FindKey(krbtgt, 0).value.key.value.macError == 0
  }

  function SigningKey(krbtgt: seq<KeyData>): (k: Key)
    requires CanSign(krbtgt)
  {
    FindKey(krbtgt, 0).value.key.value
  }

  function Extend(path: seq<Principal>, service: Option<Principal>): (p: seq<Principal>) {
    path + if service.Some? then [service.value] else []
  }

  lemma MadePathAdds(inp: Input, u: EncTktPart, delegPath: seq<Principal>)
    requires CanSign(inp.localTgt)
    ensures var made := MakeSignedPath(inp.forUser, Intermediary(inp), inp.localTgt, delegPath, u);
            made.Ok? && |made.value.authdata| == |u.authdata| + 1
  {
  }

  /** Nothing that goes into the ticket ahead of its signed path hides an AD-SIGNTICKET or cannot be searched. */
  predicate PathClean(inp: Input, tkt: EncTktPart) {
    Clean(Early(inp, tkt), AD_SIGNTICKET) && Clean(KdbPart(inp, tkt), AD_SIGNTICKET)
  }

  lemma UnsignedClean(inp: Input, tkt: EncTktPart)
    ensures Clean(Unsigned(inp, tkt).authdata, AD_SIGNTICKET) <==> PathClean(inp, tkt)
  {
    hide Early, CammacPart, KdbPart, Leaves, Decodes, Without;
    var early, cammac, kdb := Early(inp, tkt), CammacPart(inp, tkt), KdbPart(inp, tkt);
    AddedCammac(inp, tkt);
    AtMostOneReserved(AD_CAMMAC, cammac);
    CleanConcat(early, cammac, AD_SIGNTICKET);
    CleanConcat(early + cammac, kdb, AD_SIGNTICKET);
  }

  /** The exchange signs a path at all: the reply is not anonymous, is for a service that takes authorization data and
      is no other realm's TGS, and holds more than a PAC; and the entry can sign. */
  predicate Signs(inp: Input, tkt: EncTktPart) {
    Anonymous !in tkt.flags && CanSign(inp.localTgt) && WantsSignedPath(inp, Unsigned(inp, tkt))
  }

  /** A path made on behalf of a user is for the client that the ticket names. */
  predicate ForItsClient(inp: Input, tkt: EncTktPart) {
    inp.forUser.Some? ==> inp.forUser.value == tkt.client
  }

  lemma IssueIsSigned(inp: Input, tkt: EncTktPart, path: seq<Principal>)
    requires Issue(inp, tkt).Ok? && Signs(inp, tkt) && SubjectPath(inp) == Ok(path)
    ensures Issue(inp, tkt) == MakeSignedPath(inp.forUser, Intermediary(inp), inp.localTgt, path, Unsigned(inp, tkt))
  {
    hide Issue, Unsigned, MakeSignedPath, CanSign, SubjectPath, WantsSignedPath, CammacPart, MandatoryInput;
    IssueShape(inp, tkt);
  }

  /** An issued ticket gives `reader` the path it was issued with, extended by the intermediary if there is one, if and
      only if its inputs are clean, it was made for its own client, and the signing key is among the reader's last three
      versions. */
  lemma {:induction false} PathExactly(inp: Input, tkt: EncTktPart, path: seq<Principal>, reader: seq<KeyData>)
    requires Issue(inp, tkt).Ok? && Signs(inp, tkt) && SubjectPath(inp) == Ok(path) && MaxKvno(reader) >= 1
    ensures VerifySignedPath(reader, Issue(inp, tkt).value) == Ok(Some(Extend(path, Intermediary(inp)))) <==>
            PathClean(inp, tkt) && ForItsClient(inp, tkt) && KeyAmongLastThree(reader, SigningKey(inp.localTgt))
  {
    IssueIsSigned(inp, tkt, path);
    UnsignedClean(inp, tkt);
    var u := Unsigned(inp, tkt);
    assert u.client == tkt.client;
    hide Issue, Unsigned, SubjectPath, WantsSignedPath, PathClean, KeyAmongLastThree, VerifySignedPath, MaxKvno;
    hide FindKey, Leaves, Decodes, MakeSignedPath;
    MadePathAdds(inp, u, path);
    SignedPathVerifies(inp.forUser, Intermediary(inp), inp.localTgt, path, u, reader);
  }

  /** A ticket whose path verifies holds exactly one AD-SIGNTICKET, at any depth. */
  lemma {:induction false} VerifiedHasOne(reader: seq<KeyData>, t: EncTktPart)
    requires VerifySignedPath(reader, t).Ok? && VerifySignedPath(reader, t).value.Some?
    ensures |Leaves(t.authdata, AD_SIGNTICKET)| == 1
  {
    hide PathChecksumValid, FindAuthdata, Leaves;
    FindAuthdataIs(t.authdata, AD_SIGNTICKET);
  }

  // ----- Chains -----

  /** The hop issues a ticket with a signed path, about a ticket with more than a PAC.  If it is a proxy request, its
      intermediary is the entry of the service `server` that the evidence ticket is for. */
  predicate Traceable(hop: Hop, subject: EncTktPart, server: Principal) {
    && IssueTgs(hop, subject).Ok? && !OnlyPac(subject.authdata)
    && Signs(HopInput(hop, subject, HopIndicators(hop, subject).value), ReplyPart(hop, subject))
    && (hop.kind.ForProxy? ==> hop.kind.intermediary.princ == server)
  }

  predicate TraceableChain(hops: seq<Hop>, subject: EncTktPart, server: Principal, last: seq<KeyData>)
    decreases |hops|
  {
    && MaxKvno(Reader(hops, last)) >= 1
    && (hops != [] ==>
          && Traceable(hops[0], subject, server)
          && TraceableChain(hops[1..], IssueTgs(hops[0], subject).value, hops[0].server.princ, last))
  }

  /** The services that delegated along the chain, in order: those that the evidence tickets were for. */
  function Delegators(hops: seq<Hop>, server: Principal): (r: seq<Principal>) {
    if hops == [] then []
    else (if hops[0].kind.ForProxy? then [server] else []) + Delegators(hops[1..], hops[0].server.princ)
  }

  /** `subject` gives its reader `path`, and every ticket issued gives its reader that and the delegators since. */
  predicate TracedThroughout(
    path: seq<Principal>, hops: seq<Hop>, subject: EncTktPart, server: Principal, last: seq<KeyData>)
    decreases |hops|
  {
    && VerifySignedPath(Reader(hops, last), subject) == Ok(Some(path))
    && (hops != [] && IssueTgs(hops[0], subject).Ok? ==>
          TracedThroughout(path + Delegators([hops[0]], server), hops[1..], IssueTgs(hops[0], subject).value,
                           hops[0].server.princ, last))
  }

  /** The hop is not a protocol transition asked for with another realm's client's ticket, on behalf of someone else:
      that one signs for the user, but names the client. */
  predicate NamesUser(hop: Hop, subject: EncTktPart) {
    hop.kind.ForUser? ==> !IsCrossRealm(hop, subject) || hop.kind.user == subject.client
  }

  /** The hop has clean inputs, names the client it signs for, and its reader has its signing key among the last three
      versions. */
  ghost predicate CleanHop(hop: Hop, subject: EncTktPart, reader: seq<KeyData>)
    requires IssueTgs(hop, subject).Ok?
  {
    && PathClean(HopInput(hop, subject, HopIndicators(hop, subject).value), ReplyPart(hop, subject))
    && NamesUser(hop, subject) && CanSign(hop.localTgt) && KeyAmongLastThree(reader, SigningKey(hop.localTgt))
  }

  ghost predicate CleanThroughout(hops: seq<Hop>, subject: EncTktPart, last: seq<KeyData>)
    decreases |hops|
  {
    hops != [] && IssueTgs(hops[0], subject).Ok? ==>
      && CleanHop(hops[0], subject, Reader(hops[1..], last))
      && CleanThroughout(hops[1..], IssueTgs(hops[0], subject).value, last)
  }

  lemma NamesUserMeans(hop: Hop, subject: EncTktPart, indicators: seq<string>)
    ensures ForItsClient(HopInput(hop, subject, indicators), ReplyPart(hop, subject)) <==> NamesUser(hop, subject)
  {
    hide ReplyFlags, ReplyTimes, HopFlags;
  }

  /** A hop of any kind, about a ticket that gives `path`, issues one that gives it and the delegator, if there is one,
      exactly if it is clean. */
  lemma {:induction false} HopTraces(
    hop: Hop, subject: EncTktPart, server: Principal, path: seq<Principal>, reader: seq<KeyData>)
    requires Traceable(hop, subject, server) && VerifySignedPath(hop.localTgt, subject) == Ok(Some(path))
    requires MaxKvno(reader) >= 1
    ensures VerifySignedPath(reader, IssueTgs(hop, subject).value) == Ok(Some(path + Delegators([hop], server))) <==>
            CleanHop(hop, subject, reader)
    ensures hop.kind.ForProxy? ==> Delegators([hop], server) == [hop.kind.header.client]
  {
    hide Issue, ReplyPart, VerifySignedPath, KeyAmongLastThree, MaxKvno, FindKey, PathClean, Unsigned, WantsSignedPath;
    hide OnlyPac, TransitError, NamesUser, ForItsClient, PolicyError, MeetsRequirement;
    var indicators := HopIndicators(hop, subject).value;
    var inp, tkt := HopInput(hop, subject, indicators), ReplyPart(hop, subject);
    HopIssues(hop, subject, indicators);
    assert SubjectPath(inp) == Ok(path);
    PathExactly(inp, tkt, path, reader);
    NamesUserMeans(hop, subject, indicators);
    assert Extend(path, Intermediary(inp)) == path + Delegators([hop], server) by {
      assert Delegators([hop][1..], hop.server.princ) == [];
    }
    assert Refusal(hop, subject) == 0;
  }

  /** Along a chain about a ticket that gives `path`, every ticket gives that and the delegators since exactly if every
      hop is clean. */
  lemma {:induction false} PathAlongChain(
    path: seq<Principal>, hops: seq<Hop>, subject: EncTktPart, server: Principal, last: seq<KeyData>)
    requires TraceableChain(hops, subject, server, last)
    requires VerifySignedPath(Reader(hops, last), subject) == Ok(Some(path))
    ensures TracedThroughout(path, hops, subject, server, last) <==> CleanThroughout(hops, subject, last)
    decreases |hops|
  {
    hide IssueTgs, VerifySignedPath, MaxKvno, CleanHop, Traceable, Delegators;
    if hops != [] {
      assert Traceable(hops[0], subject, server);
      TraceableMeans(hops[0], subject, server);
      var next, path' := IssueTgs(hops[0], subject).value, path + Delegators([hops[0]], server);
      HopTraces(hops[0], subject, server, path, Reader(hops[1..], last));
      if VerifySignedPath(Reader(hops[1..], last), next) == Ok(Some(path')) {
        PathAlongChain(path', hops[1..], next, hops[0].server.princ, last);
      }
    }
  }

  lemma TraceableMeans(hop: Hop, subject: EncTktPart, server: Principal)
    requires Traceable(hop, subject, server)
    ensures IssueTgs(hop, subject).Ok? && CanSign(hop.localTgt)
  {
    hide IssueTgs;
  }

  lemma {:induction false} TracedThroughoutGives(
    path: seq<Principal>, hops: seq<Hop>, subject: EncTktPart, server: Principal, last: seq<KeyData>)
    requires TraceableChain(hops, subject, server, last) && TracedThroughout(path, hops, subject, server, last)
    ensures var end := Run(hops, subject);
            end.Ok? && VerifySignedPath(last, end.value) == Ok(Some(path + Delegators(hops, server)))
    decreases |hops|
  {
    hide IssueTgs, VerifySignedPath, MaxKvno, Traceable, Delegators;
    if hops == [] {
      NoDelegators(path, server);
    } else {
      TraceableMeans(hops[0], subject, server);
      TracedThroughoutGives(path + Delegators([hops[0]], server), hops[1..], IssueTgs(hops[0], subject).value,
                            hops[0].server.princ, last);
      DelegatorsSplit(hops, server, path);
    }
  }

  lemma NoDelegators(path: seq<Principal>, server: Principal)
    ensures path + Delegators([], server) == path
  {
  }

  lemma DelegatorsSplit(hops: seq<Hop>, server: Principal, path: seq<Principal>)
    requires hops != []
    ensures path + Delegators([hops[0]], server) + Delegators(hops[1..], hops[0].server.princ)
         == path + Delegators(hops, server)
  {
    var own, rest := Delegators([hops[0]], server), Delegators(hops[1..], hops[0].server.princ);
    assert own == if hops[0].kind.ForProxy? then [server] else [] by {
      assert Delegators([hops[0]][1..], hops[0].server.princ) == [];
      assert own == own + [];
    }
    Associates(path, own, rest);
  }

  lemma Associates(a: seq<Principal>, b: seq<Principal>, c: seq<Principal>)
    ensures a + b + c == a + (b + c)
  {
  }

  /** For every chain of one AS exchange and any number of TGS exchanges of any kind that sign paths, every ticket of
      the chain gives its reader exactly the services that have delegated so far, in order, if and only if every
      exchange has clean inputs, names the client it signs for, and has a signing key its reader has among its last
      three versions.  The last ticket then gives all of them, in the one AD-SIGNTICKET it holds. */
  lemma {:induction false} PathIsDelegators(asInp: Input, base: EncTktPart, hops: seq<Hop>, last: seq<KeyData>)
    requires asInp.subject.None? && ConstrainedDelegation !in asInp.flags && asInp.forUser.None?
    requires Issue(asInp, base).Ok? && Signs(asInp, base)
    requires TraceableChain(hops, Issue(asInp, base).value, asInp.server.princ, last)
    ensures var t, server := Issue(asInp, base).value, asInp.server.princ;
            TracedThroughout([], hops, t, server, last) <==>
            && PathClean(asInp, base) && KeyAmongLastThree(Reader(hops, last), SigningKey(asInp.localTgt))
            && CleanThroughout(hops, t, last)
    ensures TracedThroughout([], hops, Issue(asInp, base).value, asInp.server.princ, last) ==>
            var end := Run(hops, Issue(asInp, base).value);
            && end.Ok? && VerifySignedPath(last, end.value) == Ok(Some(Delegators(hops, asInp.server.princ)))
            && |Leaves(end.value.authdata, AD_SIGNTICKET)| == 1
  {
    hide Issue, VerifySignedPath, KeyAmongLastThree, MaxKvno, PathClean, FindKey, CleanThroughout, Run, Delegators;
    hide Traceable, Unsigned, WantsSignedPath;
    var t, server := Issue(asInp, base).value, asInp.server.princ;
    PathExactly(asInp, base, [], Reader(hops, last));
    assert Extend([], Intermediary(asInp)) == [];
    if VerifySignedPath(Reader(hops, last), t) == Ok(Some([])) {
      PathAlongChain([], hops, t, server, last);
    }
    if TracedThroughout([], hops, t, server, last) {
      TracedThroughoutGives([], hops, t, server, last);
      assert [] + Delegators(hops, server) == Delegators(hops, server);
      VerifiedHasOne(last, Run(hops, t).value);
    }
  }

  // ----- Where delegation cannot lead -----

  /** The service that the issued ticket is for. */
  function TicketServer(hop: Hop): (p: Principal) {
    if OptRenew in hop.request.options || OptValidate in hop.request.options then hop.headerServer
    else if IsReferral(hop) then hop.server.princ
    else hop.request.server
  }

  /** The header ticket of each hop, unless it is a proxy request, is the ticket of the hop before. */
  predicate Linked(hops: seq<Hop>, server: Principal) {
    hops != [] ==>
      && (hops[0].kind.ForProxy? || hops[0].headerServer == server)
      && Linked(hops[1..], TicketServer(hops[0]))
  }

  function ServerAfter(hops: seq<Hop>, server: Principal): (p: Principal) {
    if hops == [] then server else ServerAfter(hops[1..], TicketServer(hops[0]))
  }

  /** A service ticket serves for proxy requests and for requests about the ticket itself; and what is issued is a
      ticket-granting ticket only by way of a referral. */
  lemma {:induction false} FromServiceTicket(hop: Hop, subject: EncTktPart)
    requires IssueTgs(hop, subject).Ok? && (hop.kind.ForProxy? || !IsTgs(hop.headerServer))
    ensures hop.kind.ForProxy? || (hop.kind.Plain? && hop.request.options * NON_TGT_OPTIONS != {})
    ensures hop.kind.Plain? ==> hop.request.server == hop.headerServer
    ensures IsTgs(TicketServer(hop)) ==> IsReferral(hop)
  {
    assert Refusal(hop, subject) == 0 && PolicyError(hop, subject) == 0;
    var header := Header(hop, subject);
    GrantedNames(hop.request, hop.server, hop.headerServer, header, hop.realm, hop.kdbPolicy, hop.kdcTime);
    hide IssueTgs, PolicyError, IsTgs, IsCrossTgs, FailsLineage, NamesRequester;
    var unusual := hop.request.options * NON_TGT_OPTIONS;
    assert OptRenew in hop.request.options ==> OptRenew in unusual;
    assert OptValidate in hop.request.options ==> OptValidate in unusual;
  }

  /** Once a chain has come to a service ticket, as every proxy request does, no number of further exchanges leads back
      to a ticket-granting ticket, unless by a referral: constrained delegation stays constrained. */
  lemma {:induction false} NeverBackToTgt(hops: seq<Hop>, subject: EncTktPart, server: Principal)
    requires Run(hops, subject).Ok? && Linked(hops, server) && !IsTgs(server)
    requires forall i :: 0 <= i < |hops| ==> !IsReferral(hops[i])
    ensures !IsTgs(ServerAfter(hops, server))
    ensures forall i :: 0 <= i < |hops| ==> !hops[i].kind.ForUser?
    decreases |hops|
  {
    hide IssueTgs, IsTgs, IsReferral, TicketServer;
    if hops != [] {
      FromServiceTicket(hops[0], subject);
      NeverBackToTgt(hops[1..], IssueTgs(hops[0], subject).value, TicketServer(hops[0]));
      forall i | 0 <= i < |hops|
        ensures !hops[i].kind.ForUser?
      {
        assert i > 0 ==> hops[1..][i - 1] == hops[i];
      }
    }
  }
}
