/** Checking the pre-authentication data of a request: next_padata, finish_verify_padata and finish_check_padata
    (kdc_preauth.c), an iteration suspended while each module verifies its element. */
module PadataCheck {
  import opened KdcTypes
  import opened PreauthTypes

  // The codes passed through to the client, as offsets in the krb5 error table.
  const PASSED_THROUGH := {
    14, 25, 31, 37, 62, 63, 64, 65, 66, 70, 71, 72, 73, 74, 75, 77, 78, 79, 80, 81, 91, 100}

  // filter_preauth_error
  function FilterPreauthError(code: int): (r: int)
    ensures r == 0 <==> code == 0
    ensures r == code || r == KRB5KDC_ERR_PREAUTH_FAILED
  {
    if code == 0 || code - ERROR_TABLE_BASE_KRB5 in PASSED_THROUGH || code == KRB5KDC_ERR_DISCARD then code
    else KRB5KDC_ERR_PREAUTH_FAILED
  }

  /** Passed on are success, the request to discard, the pre-authentication failure itself, and the codes for an
      unsupported enctype, missing pre-authentication, a failed integrity check, a clock skew, the PKINIT errors,
      and more pre-authentication data; anything else is reported as a pre-authentication failure. */
  lemma {:induction false} FilteredExactly(code: int)
    ensures var n := code - ERROR_TABLE_BASE_KRB5;
            FilterPreauthError(code) == code <==>
            || code == 0 || code == KRB5KDC_ERR_DISCARD || n == 24
            || n == 14 || n == 25 || n == 31 || n == 37 || 62 <= n <= 66 || (70 <= n <= 81 && n != 76) || n == 91
            || n == 100
  {
  }

  /** What a module's verify function reports, together with the ticket flags it set. */
  datatype Outcome = Outcome(code: int, eData: Option<seq<PaData>>, authz: seq<AuthData>, flagsSet: set<TktFlag>)

  /** A verification that was carried out: by which system, and with what outcome. */
  datatype Attempt = Attempt(system: PaSystem, outcome: Outcome) {
    predicate Failed() {
      outcome.code != 0
    }

    /** The check ends with this attempt. */
    predicate Stops() {
      if Failed() then PaRequired in system.flags else PaSufficient in system.flags
    }

    /** A failure whose error data is kept from being overwritten. */
    predicate FailedWithData() {
      Failed() && outcome.eData.Some?
    }
  }

  // ----- The answer, as a property of the attempts made -----

  predicate Succeeded(h: seq<Attempt>) {
    exists i :: 0 <= i < |h| && !h[i].Failed()
  }

  predicate RequiredFailed(h: seq<Attempt>) {
    exists i :: 0 <= i < |h| && h[i].Failed() && PaRequired in h[i].system.flags
  }

  /** No attempt before the last ended the check. */
  predicate Proper(h: seq<Attempt>) {
    forall i :: 0 <= i < |h| - 1 ==> !h[i].Stops()
  }

  /** `i` is the failure that is reported: the failure of a required system, else the first failure with error
      data, else the last failure. */
  predicate IsReported(h: seq<Attempt>, i: int) {
    && 0 <= i < |h| && h[i].Failed()
    && (RequiredFailed(h) ==> PaRequired in h[i].system.flags)
    && (!RequiredFailed(h) ==>
          if exists j :: 0 <= j < |h| && h[j].FailedWithData()
          then h[i].outcome.eData.Some? && forall j :: 0 <= j < i ==> !h[j].FailedWithData()
          else forall j :: i < j < |h| ==> !h[j].Failed())
  }

  /** The request elements that some system verifies, as the systems that do. */
  function Verifiers(systems: seq<PaSystem>, request: seq<PaData>): (r: seq<PaSystem>) {
    if request == [] then []
    else
      var n := |request| - 1;
      var s := SystemFor(systems, request[n].paType);
      Verifiers(systems, request[..n]) + if s.Some? && s.value.hasVerify then [s.value] else []
  }

  /** The attempts follow the request's verifiable elements in order. */
  predicate Follows(h: seq<Attempt>, verifiers: seq<PaSystem>) {
    |h| <= |verifiers| && forall i :: 0 <= i < |h| ==> h[i].system == verifiers[i]
  }

  /** No attempt has ended the check. */
  predicate GoesOn(h: seq<Attempt>) {
    forall i :: 0 <= i < |h| ==> !h[i].Stops()
  }

  /** The attempts are all there will be: the last one stopped the check, or every element was tried. */
  predicate Complete(h: seq<Attempt>, verifiers: seq<PaSystem>) {
    Follows(h, verifiers) && Proper(h) && (|h| == |verifiers| || (h != [] && h[|h| - 1].Stops()))
  }

  /** What the check answers, and the error data that goes with it. */
  datatype Answer = Answer(code: int, eData: Option<seq<PaData>>, typedEData: bool)

  /** What deciding on an extra PA-ETYPE-INFO2 element depends on: whether the client has a key, and what
      building the element gives. */
  datatype KeyInfo = KeyInfo(haveKey: bool, etypeInfo2: Result<PaData>)

  predicate AddsEtypeInfo(code: int, request: seq<PaData>, keyInfo: KeyInfo) {
    code == KRB5KDC_ERR_MORE_PREAUTH_DATA_REQUIRED && keyInfo.haveKey && !Includes(request, PADATA_FX_COOKIE)
  }

  /** `answer` is right for the attempts `h`. */
  ghost predicate Answers(answer: Answer, h: seq<Attempt>, request: seq<PaData>, keyInfo: KeyInfo) {
    if h == [] || (Succeeded(h) && !RequiredFailed(h)) then answer == Answer(0, None, false)
    else exists i :: IsReported(h, i) && Reports(answer, h[i], request, keyInfo)
  }

  predicate Reports(answer: Answer, failure: Attempt, request: seq<PaData>, keyInfo: KeyInfo) {
    var code, typed := failure.outcome.code, PaTypedEData in failure.system.flags;
    if !AddsEtypeInfo(code, request, keyInfo) then
      answer == Answer(FilterPreauthError(code), failure.outcome.eData, typed)
    else if keyInfo.etypeInfo2.Err? then answer == Answer(KRB5KDC_ERR_PREAUTH_FAILED, None, false)
    else
      var own := if failure.outcome.eData.Some? then failure.outcome.eData.value else [];
      answer == Answer(code, Some(own + [keyInfo.etypeInfo2.value]), typed)
  }

  /** The answer is 0 exactly when nothing was verifiable, or something verified and no required system failed;
      and it is determined by the attempts. */
  lemma AnswerIsZeroIff(answer: Answer, h: seq<Attempt>, request: seq<PaData>, keyInfo: KeyInfo)
    requires Answers(answer, h, request, keyInfo)
    ensures answer.code == 0 <==> h == [] || (Succeeded(h) && !RequiredFailed(h))
  {
  }

  lemma ReportedIsUnique(h: seq<Attempt>, i: int, j: int)
    requires Proper(h) && IsReported(h, i) && IsReported(h, j)
    ensures i == j
  {
    if RequiredFailed(h) {
      assert h[i].Stops() && h[j].Stops();
    }
  }

  lemma AnswerIsDetermined(a: Answer, b: Answer, h: seq<Attempt>, request: seq<PaData>, keyInfo: KeyInfo)
    requires Proper(h) && Answers(a, h, request, keyInfo) && Answers(b, h, request, keyInfo)
    ensures a == b
  {
    if !(h == [] || (Succeeded(h) && !RequiredFailed(h))) {
      var i :| IsReported(h, i) && Reports(a, h[i], request, keyInfo);
      var j :| IsReported(h, j) && Reports(b, h[j], request, keyInfo);
      ReportedIsUnique(h, i, j);
    }
  }

  /** `s` is the first system of the table that handles the type, and it can verify. */
  ghost predicate VerifiedWith(systems: seq<PaSystem>, paType: int, s: PaSystem) {
    s.hasVerify && exists k :: FirstFor(systems, paType, k) && s == systems[k]
  }

  ghost predicate Verifiable(systems: seq<PaSystem>, paType: int) {
    exists s :: VerifiedWith(systems, paType, s)
  }

  /** `at` are the elements of the request that some system verifies, in order, and `verifiers` those systems. */
  ghost predicate VerifiedBy(
    systems: seq<PaSystem>, request: seq<PaData>, verifiers: seq<PaSystem>, at: seq<nat>)
  {
    && |at| == |verifiers|
    && (forall i :: 0 <= i < |at| ==>
          at[i] < |request| && VerifiedWith(systems, request[at[i]].paType, verifiers[i]))
    && (forall i, j :: 0 <= i < j < |at| ==> at[i] < at[j])
    && (forall n :: 0 <= n < |request| && Verifiable(systems, request[n].paType) ==> n in at)
  }

  /** The systems called on to verify are those that handle an element of the request and can verify it. */
  lemma {:induction false} VerifiersAre(systems: seq<PaSystem>, request: seq<PaData>) returns (at: seq<nat>)
    ensures VerifiedBy(systems, request, Verifiers(systems, request), at)
  {
    at := [];
    if request != [] {
      var n := |request| - 1;
      at := VerifiersAre(systems, request[..n]);
      assert request == request[..n] + [request[n]];
      var s := SystemFor(systems, request[n].paType);
      VerifierIs(systems, request[n].paType);
      VerifiedNext(systems, request[..n], Verifiers(systems, request[..n]), at, request[n]);
      hide SystemFor, VerifiedBy, VerifiedWith, Verifiable;
      assert Verifiers(systems, request[..n]) + [] == Verifiers(systems, request[..n]);
      if s.Some? && s.value.hasVerify {
        at := at + [n];
      }
    }
  }

  lemma VerifierIs(systems: seq<PaSystem>, paType: int)
    ensures var s := SystemFor(systems, paType);
            && (Verifiable(systems, paType) <==> s.Some? && s.value.hasVerify)
            && (Verifiable(systems, paType) ==> VerifiedWith(systems, paType, s.value))
  {
    SystemForIs(systems, paType);
    hide SystemFor;
    var s := SystemFor(systems, paType);
    if Verifiable(systems, paType) {
      var s' :| VerifiedWith(systems, paType, s');
      var k' :| FirstFor(systems, paType, k') && s' == systems[k'];
      var k :| FirstFor(systems, paType, k) && s.value == systems[k];
      assert k == k';
    }
    if s.Some? && s.value.hasVerify {
      assert VerifiedWith(systems, paType, s.value);
    }
  }

  lemma VerifiedNext(
    systems: seq<PaSystem>, request: seq<PaData>, verifiers: seq<PaSystem>, at: seq<nat>, pa: PaData)
    requires VerifiedBy(systems, request, verifiers, at)
    ensures !Verifiable(systems, pa.paType) ==> VerifiedBy(systems, request + [pa], verifiers, at)
    ensures forall s :: VerifiedWith(systems, pa.paType, s) ==>
              VerifiedBy(systems, request + [pa], verifiers + [s], at + [|request|])
  {
    hide Verifiable, VerifiedWith;
    var request', at' := request + [pa], at + [|request|];
    assert forall i :: 0 <= i < |at| ==> request'[at[i]] == request[at[i]] && at'[i] == at[i];
    assert at'[|at|] == |request|;
    forall n | 0 <= n < |request'| && Verifiable(systems, request'[n].paType)
      ensures n in at'
      ensures !Verifiable(systems, pa.paType) ==> n in at
    {
      if n < |request| {
        assert request'[n] == request[n] && n in at;
        var i :| 0 <= i < |at| && at[i] == n;
        assert at'[i] == n;
      }
    }
  }

  /** The attempts follow the verifiers one by one, past failures of systems that are not required and successes of
      systems that are not sufficient, to the first other outcome or the end. */
  lemma {:induction false} CompleteMeans(h: seq<Attempt>, verifiers: seq<PaSystem>)
    ensures Complete(h, verifiers) <==>
            && |h| <= |verifiers| && (forall i :: 0 <= i < |h| ==> h[i].system == verifiers[i])
            && (forall i :: 0 <= i < |h| - 1 ==>
                  if h[i].outcome.code == 0 then PaSufficient !in h[i].system.flags
                  else PaRequired !in h[i].system.flags)
            && (|h| < |verifiers| ==>
                  && h != []
                  && var last := h[|h| - 1];
                  && if last.outcome.code == 0 then PaSufficient in last.system.flags
                     else PaRequired in last.system.flags)
  {
  }

  /** The answer after a failure: the first failure of a required system if there is one, else the first with error
      data, else the last.  Its code and error data are passed on, filtered; but if it asks for more
      preauthentication data of a client with a key that has sent no cookie, what tells the client its salt is
      added to them. */
  lemma {:induction false} AnswerAfterFailure(answer: Answer, h: seq<Attempt>, request: seq<PaData>, keyInfo: KeyInfo)
    requires Answers(answer, h, request, keyInfo) && h != []
    requires (forall j :: 0 <= j < |h| ==> h[j].outcome.code != 0)
          || (exists j :: 0 <= j < |h| && h[j].outcome.code != 0 && PaRequired in h[j].system.flags)
    ensures exists i ::
              && IsReported(h, i) && h[i].outcome.code != 0
              && var f, o := h[i], h[i].outcome;
              && var asksMore := && o.code == KRB5KDC_ERR_MORE_PREAUTH_DATA_REQUIRED && keyInfo.haveKey
                                 && (forall j :: 0 <= j < |request| ==> request[j].paType != PADATA_FX_COOKIE);
              && (!asksMore ==> answer == Answer(FilterPreauthError(o.code), o.eData, PaTypedEData in f.system.flags))
              && (asksMore && keyInfo.etypeInfo2.Err? ==> answer == Answer(KRB5KDC_ERR_PREAUTH_FAILED, None, false))
              && (asksMore && keyInfo.etypeInfo2.Ok? ==>
                    && answer.code == o.code && answer.typedEData == (PaTypedEData in f.system.flags)
                    && answer.eData.Some? && |answer.eData.value| > 0
                    && answer.eData.value[|answer.eData.value| - 1] == keyInfo.etypeInfo2.value
                    && answer.eData.value[..|answer.eData.value| - 1] == (if o.eData.Some? then o.eData.value else []))
  {
    assert !(h == [] || (Succeeded(h) && !RequiredFailed(h)));
    var i :| IsReported(h, i) && Reports(answer, h[i], request, keyInfo);
    hide FilterPreauthError, IsReported, Succeeded, RequiredFailed;
    assert 0 <= i < |h| && h[i].outcome.code != 0 by {
      ReportedFailed(h, i);
    }
  }

  lemma ReportedFailed(h: seq<Attempt>, i: int)
    requires IsReported(h, i)
    ensures 0 <= i < |h| && h[i].outcome.code != 0
  {
  }

  // ----- What the fields of the iteration keep track of -----

  /** The failure remembered after `h`: the latest, until one with error data is remembered. */
  function Remembered(h: seq<Attempt>): (p: int)
    ensures -1 <= p < |h| && (p != -1 ==> h[p].Failed())
  {
    if h == [] then -1
    else
      var n := |h| - 1;
      var p := Remembered(h[..n]);
      if !h[n].Failed() || (p != -1 && h[p].outcome.eData.Some?) then p else n
  }

  lemma {:induction false} RememberedIs(h: seq<Attempt>)
    ensures var p := Remembered(h);
            && (p == -1 ==> forall j :: 0 <= j < |h| ==> !h[j].Failed())
            && (p != -1 && !RequiredFailed(h) ==> IsReported(h, p))
            && (p != -1 && h[p].outcome.eData.Some? ==> forall j :: 0 <= j < p ==> !h[j].FailedWithData())
            && (p != -1 && h[p].outcome.eData.None? ==>
                  && (forall j :: 0 <= j < |h| ==> !h[j].FailedWithData())
                  && (forall j :: p < j < |h| ==> !h[j].Failed()))
  {
    if h != [] {
      RememberedIs(h[..|h| - 1]);
    }
  }

  lemma AppendAttempt(h: seq<Attempt>, a: Attempt)
    ensures Succeeded(h + [a]) <==> Succeeded(h) || !a.Failed()
    ensures RequiredFailed(h + [a]) <==> RequiredFailed(h) || (a.Failed() && PaRequired in a.system.flags)
    ensures Remembered(h + [a]) ==
            if !a.Failed() || (Remembered(h) != -1 && h[Remembered(h)].outcome.eData.Some?) then Remembered(h) else |h|
  {
    var h' := h + [a];
    assert h'[..|h|] == h && h'[|h|] == a;
    assert forall i :: 0 <= i < |h| ==> h'[i] == h[i];
  }

  /** One more attempt, by the system next in line. */
  lemma OneMore(h: seq<Attempt>, a: Attempt, seen: seq<PaSystem>, all: seq<PaSystem>)
    requires GoesOn(h) && Follows(h, seen) && |seen| == |h| + 1 && seen[|h|] == a.system && seen <= all
    ensures Follows(h + [a], seen)
    ensures if a.Stops() then Complete(h + [a], all) else GoesOn(h + [a])
  {
    var next := h + [a];
    assert next[|h|] == a && forall i :: 0 <= i < |h| ==> next[i] == h[i];
  }

  /** All are attempted. */
  lemma AllTried(h: seq<Attempt>, all: seq<PaSystem>)
    requires GoesOn(h) && Follows(h, all) && |h| == |all|
    ensures Complete(h, all)
  {
  }

  lemma NoStopNoRequiredFailure(h: seq<Attempt>)
    requires GoesOn(h)
    ensures !RequiredFailed(h)
  {
  }

  /** With no failure remembered, every attempt succeeded. */
  lemma NothingRemembered(h: seq<Attempt>)
    ensures h != [] && !Succeeded(h) ==> Remembered(h) != -1
  {
    hide Remembered;
    RememberedIs(h);
    if h != [] && Remembered(h) == -1 {
      assert !h[0].Failed();
    }
  }

  lemma NoneSucceeded()
    ensures !Succeeded([])
  {
  }

  lemma VerifiersNext(systems: seq<PaSystem>, request: seq<PaData>, n: nat)
    requires n < |request|
    ensures var s := SystemFor(systems, request[n].paType);
            Verifiers(systems, request[..n + 1])
            == Verifiers(systems, request[..n]) + if s.Some? && s.value.hasVerify then [s.value] else []
  {
    assert request[..n + 1][..n] == request[..n];
  }

  lemma {:induction false} VerifiersPrefix(systems: seq<PaSystem>, request: seq<PaData>, k: nat)
    requires k <= |request|
    ensures Verifiers(systems, request[..k]) <= Verifiers(systems, request)
  {
    if k == |request| {
      assert request[..k] == request;
    } else {
      var n := |request| - 1;
      assert request[..n][..k] == request[..k];
      VerifiersPrefix(systems, request[..n], k);
    }
  }

  /** What the fields hold after the attempts `h`. */
  predicate Records(h: seq<Attempt>, ok: bool, code: int, eData: Option<seq<PaData>>, typed: bool) {
    && ok == Succeeded(h)
    && var p := Remembered(h);
    && code == (if p == -1 then 0 else h[p].outcome.code)
    && eData == (if p == -1 then None else h[p].outcome.eData)
    && (p != -1 ==> typed == (PaTypedEData in h[p].system.flags))
  }

  /** The fields speak of the failure to report. */
  ghost predicate Tells(h: seq<Attempt>, code: int, eData: Option<seq<PaData>>, typed: bool) {
    exists i :: IsReported(h, i) && code == h[i].outcome.code && eData == h[i].outcome.eData &&
                typed == (PaTypedEData in h[i].system.flags)
  }

  lemma RecordsNext(h: seq<Attempt>, a: Attempt, ok: bool, code: int, eData: Option<seq<PaData>>, typed: bool)
    requires Records(h, ok, code, eData, typed)
    ensures var next := h + [a];
            && (!a.Failed() ==> Records(next, true, code, eData, typed))
            && (a.Failed() && eData.None? ==>
                  Records(next, ok, a.outcome.code, a.outcome.eData, PaTypedEData in a.system.flags))
            && (a.Failed() && eData.Some? ==> Records(next, ok, code, eData, typed))
  {
    hide Remembered;
    AppendAttempt(h, a);
    assert (h + [a])[|h|] == a && forall i :: 0 <= i < |h| ==> (h + [a])[i] == h[i];
  }

  /** A required failure is the one to report. */
  lemma RequiredTells(h: seq<Attempt>, a: Attempt)
    requires a.Failed() && PaRequired in a.system.flags
    ensures RequiredFailed(h + [a])
    ensures Tells(h + [a], a.outcome.code, a.outcome.eData, PaTypedEData in a.system.flags)
  {
    assert (h + [a])[|h|] == a;
    LastIsReported(h + [a]);
  }

  /** Without one, and with no success, the failure recorded is. */
  lemma RecordTells(h: seq<Attempt>, code: int, eData: Option<seq<PaData>>, typed: bool)
    requires h != [] && !RequiredFailed(h) && Records(h, false, code, eData, typed)
    ensures Tells(h, code, eData, typed)
  {
    hide Remembered, IsReported;
    RememberedIs(h);
    NothingRemembered(h);
  }

  // ----- The iteration -----

  class PadataState {
    const systems: seq<PaSystem>
    const request: seq<PaData>
    const keyInfo: KeyInfo

    var next: nat                        // elements of the request already looked at
    var paSys: Option<PaSystem>          // the system whose verification is awaited, if any
    var paFound: nat
    var paOk: bool
    var savedCode: int
    var paEData: Option<seq<PaData>>
    var typedEDataFlag: bool
    var responses: seq<Answer>           // every answer given so far
    var replyFlags: set<TktFlag>         // the ticket being built
    var replyAuthdata: seq<AuthData>
    ghost var history: seq<Attempt>

    constructor (systems: seq<PaSystem>, request: seq<PaData>, keyInfo: KeyInfo, flags: set<TktFlag>)
      ensures this.systems == systems && this.request == request && this.keyInfo == keyInfo
      ensures Valid() && Idle() && history == [] && replyFlags == flags && replyAuthdata == []
    {
      this.systems, this.request, this.keyInfo := systems, request, keyInfo;
      next, paSys, paFound, paOk, savedCode, paEData, typedEDataFlag := 0, None, 0, false, 0, None, false;
      responses, replyFlags, replyAuthdata, history := [], flags, [], [];
    }

    /** About to look at the next element. */
    ghost predicate Idle()
      reads `paSys, `responses
    {
      paSys.None? && responses == []
    }

    ghost predicate Waiting()
      reads `paSys
    {
      paSys.Some?
    }

    ghost predicate Answered()
      reads `paSys, `responses
    {
      paSys.None? && |responses| == 1
    }

    ghost function Seen(): (r: seq<PaSystem>)
      reads `next
      requires next <= |request|
    {
      Verifiers(systems, request[..next])
    }

    /** The fields record what the attempts so far imply. */
    ghost predicate Recorded()
      reads `paOk, `savedCode, `paEData, `typedEDataFlag, `history
    {
      Records(history, paOk, savedCode, paEData, typedEDataFlag)
    }

    ghost predicate Valid()
      reads `next, `paSys, `paFound, `paOk, `savedCode, `paEData, `typedEDataFlag, `responses, `history
    {
      && next <= |request|
      && (Answered() ==>
            Complete(history, Verifiers(systems, request)) && Answers(responses[0], history, request, keyInfo))
      && (!Answered() ==>
            && responses == [] && Recorded() && GoesOn(history)
            && paFound == |Seen()| && Follows(history, Seen())
            && (if paSys.Some? then |Seen()| == |history| + 1 && Seen()[|history|] == paSys.value
                else |Seen()| == |history|))
    }

    /** What finish_check_padata is entitled to assume: the attempts are complete, and the fields and `code` speak
        of the failure to report, unless there is none. */
    ghost predicate Concluding(code: int)
      reads `next, `paSys, `paFound, `paOk, `savedCode, `paEData, `typedEDataFlag, `responses, `history
    {
      && paSys.None? && responses == [] && next <= |request|
      && Complete(history, Verifiers(systems, request))
      && (paOk || paFound == 0 <==> history == [] || (Succeeded(history) && !RequiredFailed(history)))
      && (!paOk && paFound != 0 ==> Tells(history, code, paEData, typedEDataFlag))
    }

    // finish_check_padata, with maybe_add_etype_info2
    method FinishCheckPadata(code: int)
      requires Concluding(code)
      modifies this`responses
      ensures Valid() && Answered()
    {
      var answer;
      if paOk || paFound == 0 {
        answer := Answer(0, None, false);
      } else if code != KRB5KDC_ERR_MORE_PREAUTH_DATA_REQUIRED || !keyInfo.haveKey {
        answer := Answer(FilterPreauthError(code), paEData, typedEDataFlag);
      } else {
        var sentCookie := PaListIncludes(request, PADATA_FX_COOKIE);
        if sentCookie {
          answer := Answer(FilterPreauthError(code), paEData, typedEDataFlag);
        } else if keyInfo.etypeInfo2.Err? {
          answer := Answer(FilterPreauthError(KRB5KDC_ERR_PREAUTH_FAILED), None, false);
        } else {
          var list := if paEData.Some? then paEData.value else [];
          answer := Answer(FilterPreauthError(code), Some(list + [keyInfo.etypeInfo2.value]), typedEDataFlag);
        }
      }
      responses := responses + [answer];
    }

    lemma ReadyToConclude()
      requires Valid() && Idle() && next == |request|
      ensures Concluding(savedCode)
    {
      hide Remembered, Answers, Succeeded, Verifiers, IsReported, Tells;
      assert request[..next] == request;
      NoStopNoRequiredFailure(history);
      AllTried(history, Verifiers(systems, request));
      hide RequiredFailed, Complete;
      if history != [] && !paOk {
        RecordTells(history, savedCode, paEData, typedEDataFlag);
      }
      NoneSucceeded();
    }

    // next_padata
    method NextPadata()
      requires Valid() && Idle()
      modifies this`next, this`paSys, this`paFound, this`responses
      ensures Valid() && (Waiting() || Answered())
      ensures old(next) <= next && (Waiting() ==> old(next) < next)
      decreases |request| - next
    {
      hide Remembered, Answers, Recorded, Concluding, Succeeded, RequiredFailed;
      if next == |request| {
        ReadyToConclude();
        FinishCheckPadata(savedCode);
        return;
      }
      var found := FindPaSystem(systems, request[next].paType);
      VerifiersNext(systems, request, next);
      hide Verifiers;
      next := next + 1;
      if found.None? || !found.value.hasVerify {
        NextPadata();
        return;
      }
      paFound := paFound + 1;
      paSys := found;
    }

    /** The attempt `a`, by the awaited system, follows those made. */
    lemma InLine(a: Attempt)
      requires Valid() && Waiting() && a.system == paSys.value
      ensures Follows(history + [a], Seen()) && |Seen()| == |history| + 1 && paFound > 0 && !RequiredFailed(history)
      ensures if a.Stops() then Complete(history + [a], Verifiers(systems, request)) else GoesOn(history + [a])
    {
      hide Remembered, Records, Tells, Answers, Complete;
      NoStopNoRequiredFailure(history);
      VerifiersPrefix(systems, request, next);
      OneMore(history, a, Seen(), Verifiers(systems, request));
    }

    // finish_verify_padata, up to where it concludes or goes on, when a required module failed
    method RecordRequiredFailure(outcome: Outcome) returns (stop: Option<int>)
      requires Valid() && Waiting() && outcome.code != 0 && PaRequired in paSys.value.flags
      modifies this`paSys, this`paOk, this`savedCode, this`paEData, this`typedEDataFlag, this`history
      ensures history == old(history) + [Attempt(old(paSys.value), outcome)]
      ensures if stop.Some? then Concluding(stop.value) else Valid() && Idle()
    {
      hide Remembered, Verifiers, Succeeded, RequiredFailed, Records, Tells, Answers, Follows, Complete, GoesOn;
      ghost var a := Attempt(paSys.value, outcome);
      InLine(a);
      RequiredTells(history, a);
      history := history + [a];
      paEData := outcome.eData;
      typedEDataFlag := PaTypedEData in paSys.value.flags;
      paOk := false;
      paSys := None;
      stop := Some(outcome.code);
    }

    // ... when another module failed
    method RecordFailure(outcome: Outcome) returns (stop: Option<int>)
      requires Valid() && Waiting() && outcome.code != 0 && PaRequired !in paSys.value.flags
      modifies this`paSys, this`paOk, this`savedCode, this`paEData, this`typedEDataFlag, this`history
      ensures history == old(history) + [Attempt(old(paSys.value), outcome)]
      ensures if stop.Some? then Concluding(stop.value) else Valid() && Idle()
    {
      hide Remembered, Verifiers, Succeeded, RequiredFailed, Records, Tells, Answers, Follows, Complete, GoesOn;
      ghost var a := Attempt(paSys.value, outcome);
      InLine(a);
      RecordsNext(history, a, paOk, savedCode, paEData, typedEDataFlag);
      history := history + [a];
      if paEData.None? {
        paEData := outcome.eData;
        typedEDataFlag := PaTypedEData in paSys.value.flags;
        savedCode := outcome.code;
      }
      paSys := None;
      stop := None;
    }

    // ... when a module succeeded
    method RecordSuccess(outcome: Outcome) returns (stop: Option<int>)
      requires Valid() && Waiting() && outcome.code == 0
      modifies this`paSys, this`paOk, this`savedCode, this`paEData, this`typedEDataFlag, this`history
      ensures history == old(history) + [Attempt(old(paSys.value), outcome)]
      ensures if stop.Some? then Concluding(stop.value) else Valid() && Idle()
    {
      hide Remembered, Verifiers, Succeeded, RequiredFailed, Records, Tells, Answers, Follows, Complete, GoesOn;
      ghost var a := Attempt(paSys.value, outcome);
      InLine(a);
      AppendAttempt(history, a);
      RecordsNext(history, a, paOk, savedCode, paEData, typedEDataFlag);
      history := history + [a];
      paOk := true;
      stop := if PaSufficient in paSys.value.flags then Some(savedCode) else None;
      paSys := None;
    }

    // finish_verify_padata: the awaited module responds.
    method FinishVerifyPadata(outcome: Outcome)
      requires Valid() && Waiting()
      modifies this
      ensures Valid() && (Waiting() || Answered())
      ensures history == old(history) + [Attempt(old(paSys.value), outcome)]
      ensures replyFlags == old(replyFlags) + outcome.flagsSet
      ensures replyAuthdata == old(replyAuthdata) + if outcome.code == 0 then outcome.authz else []
      ensures old(next) <= next && (Waiting() ==> old(next) < next)
    {
      hide Recorded, Verifiers, Answers, Complete, Concluding;
      replyFlags := replyFlags + outcome.flagsSet;
      if outcome.code == 0 {
        replyAuthdata := replyAuthdata + outcome.authz;
      }
      var stop;
      if outcome.code != 0 && PaRequired in paSys.value.flags {
        stop := RecordRequiredFailure(outcome);
      } else if outcome.code != 0 {
        stop := RecordFailure(outcome);
      } else {
        stop := RecordSuccess(outcome);
      }
      if stop.Some? {
        FinishCheckPadata(stop.value);
      } else {
        NextPadata();
      }
    }
  }

  lemma LastIsReported(h: seq<Attempt>)
    requires h != [] && h[|h| - 1].Failed() && PaRequired in h[|h| - 1].system.flags
    ensures IsReported(h, |h| - 1) && RequiredFailed(h)
  {
  }

  /** The module's responses in `h` are those of `modules`, each given what went before. */
  ghost predicate RespondsAs(h: seq<Attempt>, modules: (seq<Attempt>, PaSystem) -> Outcome) {
    forall i :: 0 <= i < |h| ==> h[i].outcome == modules(h[..i], h[i].system)
  }

  lemma RespondsAtFirst(modules: (seq<Attempt>, PaSystem) -> Outcome)
    ensures RespondsAs([], modules)
  {
  }

  lemma RespondsOnce(h: seq<Attempt>, sys: PaSystem, modules: (seq<Attempt>, PaSystem) -> Outcome)
    requires RespondsAs(h, modules)
    ensures RespondsAs(h + [Attempt(sys, modules(h, sys))], modules)
  {
    var h' := h + [Attempt(sys, modules(h, sys))];
    assert forall i :: 0 <= i <= |h| ==> h'[..i] == h[..i];
  }

  // check_padata, run to its end with modules that each respond once: the check terminates with one answer, the
  // right one for the attempts that were made.
  method CheckPadata(
    systems: seq<PaSystem>, request: Option<seq<PaData>>, keyInfo: KeyInfo, flags: set<TktFlag>,
    modules: (seq<Attempt>, PaSystem) -> Outcome)
    returns (answer: Answer, history: seq<Attempt>)
    ensures request.None? ==> answer == Answer(0, None, false) && history == []
    ensures request.Some? ==>
              && Complete(history, Verifiers(systems, request.value))
              && Answers(answer, history, request.value, keyInfo)
    ensures RespondsAs(history, modules)
  {
    hide Answers, Complete, PadataState.Recorded, Verifiers, RespondsAs;
    history := [];
    RespondsAtFirst(modules);
    if request.None? {
      return Answer(0, None, false), [];
    }
    var state := new PadataState(systems, request.value, keyInfo, flags);
    state.NextPadata();
    while state.responses == []
      invariant state.Valid() && (state.Waiting() || state.Answered())
      invariant state.systems == systems && state.request == request.value && state.keyInfo == keyInfo
      invariant state.history == history && RespondsAs(history, modules)
      decreases |request.value| - state.next, state.responses == []
    {
      var sys := state.paSys.value;
      var outcome := modules(history, sys);
      state.FinishVerifyPadata(outcome);
      RespondsOnce(history, sys, modules);
      history := history + [Attempt(sys, outcome)];
    }
    answer := state.responses[0];
  }
}
