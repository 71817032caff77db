/** The AS exchange as a state machine: process_as_req, finish_preauth, finish_missing_required_preauth and
    finish_process_as_req (do_as_req.c), suspended while preauthentication modules respond. */
module AsExchange {
  import opened KdcTypes
  import opened PreauthTypes
  import opened PadataCheck
  import opened HintList
  import TgsIssue
  import TgsPolicy

  const KRB_ERR_MAX := 127
  const KRB_ERR_GENERIC := 60

  /** A step that failed: its (nonzero) code and the status it logs. */
  datatype Failure = Failure(code: int, status: string)

  /** One AS request.  `early` is the first check to fail before preauthentication (with `policyData` the error
      data that the policy check left), `build` the first step to fail in assembling the reply, and `prepare` the
      outcome of encoding an error packet. */
  datatype AsInput = AsInput(
    options: set<TgsPolicy.KdcOption>, attributes: set<Attribute>, systems: seq<PaSystem>, padata: Option<seq<PaData>>,
    keyInfo: KeyInfo, vagueErrors: bool, early: Option<Failure>, policyData: Option<seq<PaData>>,
    build: Option<Failure>, prepare: Result<()>)
  {
    ghost predicate Valid() {
      (early.Some? ==> early.value.code != 0) && (build.Some? ==> build.value.code != 0)
    }
  }

  datatype Message =
    | AsRep
    | KrbError(error: int, eData: Option<seq<PaData>>, typedEData: bool, status: string)
    | NoMessage

  datatype Response = Response(code: int, message: Message)

  datatype Phase = Checking | Hinting | Done

  // The flags of the reply ticket before preauthentication.
  function InitialFlags(input: AsInput): (f: set<TktFlag>)
    ensures PreAuth !in f && HwAuth !in f
  {
    TgsIssue.OptionFlag(input.options, PreAuth);
    TgsIssue.OptionFlag(input.options, HwAuth);
    hide TgsIssue.Opts2Flags;
    TgsIssue.Opts2Flags(input.options) + {Initial, EncPaRep}
    + if TgsPolicy.OptPostdated in input.options then {Invalid} else {}
  }

  /** Beside what the options ask for, an initial ticket is marked as such, and as INVALID if it is postdated. */
  lemma {:induction false} InitialFlagsAre(input: AsInput, f: TktFlag)
    ensures var o := input.options;
            f in InitialFlags(input) <==>
            match f
            case Forwardable => TgsPolicy.OptForwardable in o
            case Forwarded => TgsPolicy.OptForwarded in o
            case Proxiable => TgsPolicy.OptProxiable in o
            case Proxy => TgsPolicy.OptProxy in o
            case MayPostdate => TgsPolicy.OptAllowPostdate in o
            case Postdated => TgsPolicy.OptPostdated in o
            case Anonymous => TgsPolicy.OptRequestAnonymous in o
            case Invalid => TgsPolicy.OptPostdated in o
            case Initial => true
            case EncPaRep => true
            case _ => false
  {
    TgsIssue.OptionFlag(input.options, f);
    hide TgsIssue.Opts2Flags;
  }

  // An anonymous request must be preauthenticated.
  function ClientAttributes(input: AsInput): (a: set<Attribute>) {
    input.attributes + if TgsPolicy.OptRequestAnonymous in input.options then {RequiresPreAuth} else {}
  }

  // missing_required_preauth
  function MissingRequiredPreauth(attributes: set<Attribute>, flags: set<TktFlag>): (status: Option<string>) {
    if RequiresPreAuth in attributes && PreAuth !in flags then Some("NEEDED_PREAUTH")
    else if RequiresHwAuth in attributes && HwAuth !in flags then Some("NEEDED_HW_PREAUTH")
    else None
  }

  /** The flags a client's entry demands of its initial tickets. */
  function Demanded(attributes: set<Attribute>): (f: set<TktFlag>) {
    (if RequiresPreAuth in attributes then {PreAuth} else {}) + (if RequiresHwAuth in attributes then {HwAuth} else {})
  }

  lemma MissingMeansDemanded(attributes: set<Attribute>, flags: set<TktFlag>)
    ensures MissingRequiredPreauth(attributes, flags).None? <==> Demanded(attributes) <= flags
  {
  }

  // ----- The response, given the answer of the check, the reply's flags and the hint list -----

  function ErrorResponse(input: AsInput, code: int, status: string, eData: Option<seq<PaData>>, typedEData: bool)
    : (r: Response)
    ensures !r.message.AsRep?
  {
    if code == KRB5KDC_ERR_DISCARD then Response(code, NoMessage)
    else if input.prepare.Err? then Response(input.prepare.code, NoMessage)
    else
      var error := code - ERROR_TABLE_BASE_KRB5;
      Response(0, KrbError(if 0 <= error <= KRB_ERR_MAX then error else KRB_ERR_GENERIC, eData, typedEData, status))
  }

  function Reported(input: AsInput, code: int): (c: int) {
    if input.vagueErrors then KRB5KRB_ERR_GENERIC else code
  }

  /** The one response to a request: an early error; the module's error data, or the hint list for a plain
      failure; the hint list if a demanded flag is missing; an error in assembling the reply; or the reply. */
  function Expected(input: AsInput, answer: Answer, flags: set<TktFlag>, hintList: seq<PaData>): (r: Response) {
    var missing := MissingRequiredPreauth(ClientAttributes(input), flags);
    if input.early.Some? then
      ErrorResponse(input, input.early.value.code, input.early.value.status, input.policyData, false)
    else if answer.code == KRB5KDC_ERR_PREAUTH_FAILED then
      ErrorResponse(input, Reported(input, answer.code), "PREAUTH_FAILED", Some(hintList), answer.typedEData)
    else if answer.code != 0 then
      ErrorResponse(input, Reported(input, answer.code), "PREAUTH_FAILED", answer.eData, answer.typedEData)
    else if missing.Some? then
      ErrorResponse(input, KRB5KDC_ERR_PREAUTH_REQUIRED, missing.value, Some(hintList), false)
    else if input.build.Some? then
      ErrorResponse(input, input.build.value.code, input.build.value.status, None, false)
    else Response(0, AsRep)
  }

  /** The flags that attempts set. */
  function FlagsSet(h: seq<Attempt>): (f: set<TktFlag>) {
    if h == [] then {} else FlagsSet(h[..|h| - 1]) + h[|h| - 1].outcome.flagsSet
  }

  /** The flags of the reply after these attempts. */
  function FlagsAfter(input: AsInput, h: seq<Attempt>): (f: set<TktFlag>) {
    InitialFlags(input) + FlagsSet(h)
  }

  /** Hardware systems only, if the client must use one. */
  predicate HwOnly(input: AsInput) {
    RequiresHwAuth in ClientAttributes(input)
  }

  /** The hint list of this request, where the i-th system's module responds `edata(i)`. */
  function HintsFor(input: AsInput, edata: nat -> Edata): (l: seq<PaData>) {
    Hints(input.systems, HwOnly(input), seq(|input.systems|, i requires 0 <= i => edata(i)))
  }

  /** The response carries the hint list. */
  predicate SendsHints(input: AsInput, answer: Answer, flags: set<TktFlag>) {
    input.early.None? && (answer.code == KRB5KDC_ERR_PREAUTH_FAILED
                          || (answer.code == 0 && !(Demanded(ClientAttributes(input)) <= flags)))
  }

  lemma HintsMatterOnlyIfSent(input: AsInput, answer: Answer, flags: set<TktFlag>, a: seq<PaData>, b: seq<PaData>)
    requires SendsHints(input, answer, flags) ==> a == b
    ensures Expected(input, answer, flags, a) == Expected(input, answer, flags, b)
  {
    MissingMeansDemanded(ClientAttributes(input), flags);
  }

  /** Flag `f` was set by one of the attempts. */
  predicate SetBy(h: seq<Attempt>, f: TktFlag) {
    exists i :: 0 <= i < |h| && f in h[i].outcome.flagsSet
  }

  lemma {:induction false} FlagsSetBy(h: seq<Attempt>, f: TktFlag)
    ensures f in FlagsSet(h) <==> SetBy(h, f)
  {
    if h != [] {
      var n := |h| - 1;
      FlagsSetBy(h[..n], f);
      if SetBy(h[..n], f) {
        var i :| 0 <= i < n && f in h[..n][i].outcome.flagsSet;
        assert f in h[i].outcome.flagsSet;
      }
    }
  }

  /** A reply ticket may be issued: each demanded flag was set by an attempt of this exchange, and no required
      system failed. */
  predicate Justified(attributes: set<Attribute>, h: seq<Attempt>) {
    (forall f :: f in Demanded(attributes) ==> SetBy(h, f)) && !RequiredFailed(h)
  }

  /** Modules set flags only when they verify successfully, as ec_verify does. */
  predicate Honest(h: seq<Attempt>) {
    forall i :: 0 <= i < |h| && h[i].Failed() ==> h[i].outcome.flagsSet == {}
  }

  /** With honest modules, each demanded flag of an issued ticket comes from a verification that succeeded. */
  lemma IssuedOnlyAfterVerification(attributes: set<Attribute>, h: seq<Attempt>, f: TktFlag)
    requires Justified(attributes, h) && Honest(h) && f in Demanded(attributes)
    ensures exists i :: 0 <= i < |h| && !h[i].Failed() && f in h[i].outcome.flagsSet
    ensures !RequiredFailed(h)
  {
    var i :| 0 <= i < |h| && f in h[i].outcome.flagsSet;
    assert !h[i].Failed();
  }

  class AsReqState {
    const input: AsInput
    ghost const edata: nat -> Edata // what each system's module responds when asked for its hint
    const check: PadataState
    const hints: HintState

    var phase: Phase
    var status: Option<string>
    var preauthErr: int
    var eData: Option<seq<PaData>>
    var typedEData: bool
    var responses: seq<Response>

    constructor (input: AsInput, ghost edata: nat -> Edata)
      requires input.Valid()
      ensures this.input == input && this.edata == edata && fresh(check) && fresh(hints) && fresh(hints.slots)
      ensures Base() && Untouched() && HintsUnused() && responses == [] && eData.None? && !typedEData
    {
      this.input, this.edata := input, edata;
      check := new PadataState(
        input.systems, if input.padata.Some? then input.padata.value else [], input.keyInfo, InitialFlags(input));
      hints := new HintState(input.systems, HwOnly(input));
      phase, status, preauthErr, eData, typedEData, responses := Checking, None, 0, None, false, [];
    }

    ghost predicate Untouched()
      reads this, check, hints, hints.slots
    {
      phase.Checking? && check.Idle() && check.history == []
    }

    /** The modules asked so far responded as they do. */
    ghost predicate HintsAgree()
      reads hints
    {
      && hints.ap <= |hints.systems| && |hints.responses| == hints.ap
      && forall i :: 0 <= i < hints.ap && Asked(hints.systems[i], hints.hwOnly) ==> hints.responses[i] == edata(i)
    }

    /** The answer of the check: a request without pa-data passes. */
    ghost function TheAnswer(): (a: Answer)
      reads check`responses
    {
      if check.responses == [] then Answer(0, None, false) else check.responses[0]
    }

    ghost function TheHints(): (l: seq<PaData>)
      reads hints`responded
    {
      if hints.responded == [] then [] else hints.responded[0]
    }

    /** The check is over, and the exchange may go on. */
    ghost predicate CheckOver()
      reads check
    {
      input.early.None? && if input.padata.Some? then check.Answered() else check.Idle()
    }

    /** What holds whatever the phase. */
    ghost predicate Base()
      reads check, hints, hints.slots
    {
      && input.Valid() && check.Valid() && hints.Valid()
      && check.systems == input.systems && check.keyInfo == input.keyInfo && hints.systems == input.systems
      && hints.hwOnly == HwOnly(input) && HintsAgree()
      && check.replyFlags == FlagsAfter(input, check.history)
      && check.request == (if input.padata.Some? then input.padata.value else [])
      && (input.padata.None? ==> check.Idle() && check.history == [])
    }

    ghost predicate HintsUnused()
      reads hints
    {
      hints.ap == 0 && !hints.waiting && hints.responded == []
    }

    /** The hint list was called for, and the fields hold what its error is to say. */
    ghost predicate NeedsHints()
      reads this, check
    {
      && CheckOver() && responses == []
      && var answer := TheAnswer();
      if answer.code != 0
      then answer.code == KRB5KDC_ERR_PREAUTH_FAILED && status == Some("PREAUTH_FAILED") &&
           preauthErr == Reported(input, answer.code) && typedEData == answer.typedEData
      else status.Some? && status == MissingRequiredPreauth(ClientAttributes(input), check.replyFlags) &&
           preauthErr == KRB5KDC_ERR_PREAUTH_REQUIRED && !typedEData
    }

    ghost predicate Valid()
      reads this, check, hints, hints.slots
    {
      && Base()
      && match phase
         case Checking => responses == [] && HintsUnused() && eData.None? && !typedEData && input.early.None?
         case Hinting => NeedsHints() && hints.waiting
         case Done =>
           && responses == [Expected(input, TheAnswer(), check.replyFlags, TheHints())]
           && (input.early.None? ==> CheckOver())
           && (input.early.Some? ==> check.Idle() && check.history == [])
           && (SendsHints(input, TheAnswer(), check.replyFlags) ==> |hints.responded| == 1)
    }

    /** The hint list that is sent is that of the modules' responses. */
    lemma FinalHints()
      requires Valid() && phase.Done?
      ensures SendsHints(input, TheAnswer(), check.replyFlags) ==> TheHints() == HintsFor(input, edata)
    {
      hide PadataState.Valid, Expected, Hints, FlagsAfter, SendsHints;
      if SendsHints(input, TheAnswer(), check.replyFlags) {
        HintsDependOnAsked(
          input.systems, HwOnly(input), hints.responses, seq(|input.systems|, i requires 0 <= i => edata(i)));
      }
    }

    // finish_process_as_req.  An error must come with a status: the code asserts as much.
    method FinishProcessAsReq(errcode: int)
      requires input.Valid() && responses == []
      requires errcode != 0 ==> status.Some?
      modifies this`phase, this`status, this`responses
      ensures phase.Done?
      ensures responses ==
              [if errcode != 0 then ErrorResponse(input, errcode, old(status.value), eData, typedEData)
               else if input.build.Some?
               then ErrorResponse(input, input.build.value.code, input.build.value.status, eData, typedEData)
               else Response(0, AsRep)]
    {
      var code, message := errcode, AsRep;
      if code == 0 && input.build.Some? {
        status := Some(input.build.value.status);
        code := input.build.value.code;
      }
      if code != 0 {
        message := NoMessage;
        if code != KRB5KDC_ERR_DISCARD {
          var error := code - ERROR_TABLE_BASE_KRB5;
          if error < 0 || error > KRB_ERR_MAX {
            error := KRB_ERR_GENERIC;
          }
          if input.prepare.Ok? {
            code, message := 0, KrbError(error, eData, typedEData, status.value);
          } else {
            code := input.prepare.code;
          }
          status := None;
        }
      }
      phase := Done;
      responses := responses + [Response(code, message)];
    }

    // finish_missing_required_preauth, if the hint list is ready
    method AfterHints()
      requires Base() && NeedsHints() && (hints.waiting || |hints.responded| == 1)
      modifies this
      ensures Valid() && (phase.Hinting? || phase.Done?)
    {
      hide PadataState.Valid, HintState.Valid, Hints, FlagsAfter, ErrorResponse, Demanded;
      phase := Hinting;
      if !hints.waiting {
        eData := Some(hints.responded[0]);
        FinishProcessAsReq(preauthErr);
      }
    }

    // finish_preauth
    method FinishPreauth(code: int)
      requires Base() && HintsUnused() && CheckOver() && responses == [] && code == TheAnswer().code
      requires eData == TheAnswer().eData && typedEData == TheAnswer().typedEData
      requires code == 0 ==> eData.None? && !typedEData
      modifies this, hints, hints.slots
      ensures Valid() && (phase.Hinting? || phase.Done?)
    {
      hide PadataState.Valid, HintState.Valid, Hints, FlagsAfter, ErrorResponse, Demanded, ClientAttributes;
      MissingMeansDemanded(ClientAttributes(input), check.replyFlags);
      var realCode, reported := code, code;
      if code != 0 {
        if input.vagueErrors {
          reported := KRB5KRB_ERR_GENERIC;
        }
        status := Some("PREAUTH_FAILED");
        if realCode == KRB5KDC_ERR_PREAUTH_FAILED {
          preauthErr := reported;
          hints.HintListNext();
          AfterHints();
          return;
        }
      } else {
        status := MissingRequiredPreauth(ClientAttributes(input), check.replyFlags);
        if status.Some? {
          preauthErr := KRB5KDC_ERR_PREAUTH_REQUIRED;
          hints.HintListNext();
          AfterHints();
          return;
        }
      }
      FinishProcessAsReq(reported);
    }

    // The continuation of check_padata: nothing yet if a module is still to respond.
    method AfterCheck()
      requires Base() && HintsUnused() && responses == [] && (check.Waiting() || check.Answered())
      requires input.early.None? && input.padata.Some? && eData.None? && !typedEData
      modifies this, hints, hints.slots
      ensures Valid() && (phase.Checking? ==> check.Waiting())
    {
      hide HintState.Valid, Hints, FlagsAfter, Expected, SendsHints, Verifiers, Complete, PadataState.Recorded;
      phase := Checking;
      if check.responses != [] {
        var answer := check.responses[0];
        AnswerIsZeroIff(answer, check.history, check.request, check.keyInfo);
        eData, typedEData := answer.eData, answer.typedEData;
        FinishPreauth(answer.code);
      }
    }

    // process_as_req
    method ProcessAsReq()
      requires Base() && Untouched() && HintsUnused() && responses == [] && eData.None? && !typedEData
      modifies this, check, hints, hints.slots
      ensures Valid() && (phase.Checking? ==> check.Waiting())
      ensures check.history == old(check.history)
    {
      hide HintState.Valid, Hints, Demanded, ErrorResponse, Verifiers, PadataState.Recorded, Answers, Complete;
      if input.early.Some? {
        status := Some(input.early.value.status);
        eData := input.policyData;
        FinishProcessAsReq(input.early.value.code);
        return;
      }
      if input.padata.Some? {
        check.NextPadata();
        AfterCheck();
      } else {
        FinishPreauth(0);
      }
    }

    /** What is left to respond: strictly less after every module response. */
    ghost function Remaining(): (n: int)
      reads this, check, hints
    {
      match phase
      case Checking => |check.request| - check.next + |hints.systems| + 2
      case Hinting => |hints.systems| - hints.ap + 1
      case Done => 0
    }

    // A module responds to verify.
    method VerifyResponds(outcome: Outcome)
      requires Valid() && phase.Checking? && check.Waiting()
      modifies this, check, hints, hints.slots
      ensures Valid() && (phase.Checking? ==> check.Waiting())
      ensures check.history == old(check.history) + [Attempt(old(check.paSys.value), outcome)]
      ensures 0 <= Remaining() < old(Remaining())
    {
      ghost var h := check.history;
      check.FinishVerifyPadata(outcome);
      assert check.history[..|h|] == h;
      AfterCheck();
    }

    // A module responds to edata.
    method EdataResponds(response: Edata)
      requires Valid() && phase.Hinting? && response == edata(hints.ap)
      modifies this, hints, hints.slots
      ensures Valid() && (phase.Hinting? || phase.Done?)
      ensures 0 <= Remaining() < old(Remaining())
    {
      hide PadataState.Valid, Hints, FlagsAfter, Expected, SendsHints;
      ghost var before := hints.responses + [response];
      hints.FinishGetEdata(response);
      assert forall i :: 0 <= i < |before| ==> hints.responses[i] == before[i];
      AfterHints();
    }
  }

  /** The response is a reply ticket exactly when nothing failed: no early check, no verification that counts, no
      demanded flag missing, no step of assembling the reply. */
  lemma AsRepExactly(input: AsInput, answer: Answer, flags: set<TktFlag>, hintList: seq<PaData>)
    ensures Expected(input, answer, flags, hintList).message.AsRep? <==>
            && input.early.None? && input.build.None? && answer.code == 0
            && Demanded(ClientAttributes(input)) <= flags
  {
    MissingMeansDemanded(ClientAttributes(input), flags);
  }

  /** The demanded flags can only come from attempts. */
  lemma DemandedIsSet(input: AsInput, h: seq<Attempt>)
    requires Demanded(ClientAttributes(input)) <= FlagsAfter(input, h) && !RequiredFailed(h)
    ensures Justified(ClientAttributes(input), h)
  {
    forall f | f in Demanded(ClientAttributes(input))
      ensures SetBy(h, f)
    {
      FlagsSetBy(h, f);
    }
  }

  // ----- The response, in terms of the request and the attempts -----

  /** The client must be preauthenticated: its entry says so, or it asks to be anonymous. */
  predicate MustPreauth(input: AsInput) {
    RequiresPreAuth in input.attributes || TgsPolicy.OptRequestAnonymous in input.options
  }

  /** And that in hardware. */
  predicate MustUseHardware(input: AsInput) {
    RequiresHwAuth in input.attributes
  }

  /** The client is told of an error, by a KRB-ERROR with a protocol code (the generic one if there is none) unless that
      cannot be made, or by nothing if the request is to be discarded. */
  predicate TellsError(
    input: AsInput, r: Response, code: int, status: string, eData: Option<seq<PaData>>, typedEData: bool)
  {
    if code == KRB5KDC_ERR_DISCARD then r == Response(code, NoMessage)
    else if input.prepare.Err? then r == Response(input.prepare.code, NoMessage)
    else
      && r.code == 0 && r.message.KrbError?
      && r.message.eData == eData && r.message.typedEData == typedEData && r.message.status == status
      && if ERROR_TABLE_BASE_KRB5 <= code <= ERROR_TABLE_BASE_KRB5 + 127
         then r.message.error == code - ERROR_TABLE_BASE_KRB5 else r.message.error == 60
  }

  /** What the client is told of instead of being given a ticket, given its hints. */
  ghost predicate TellsWhy(input: AsInput, r: Response, answer: Answer, h: seq<Attempt>, hints: seq<PaData>) {
    if input.early.Some? then
      TellsError(input, r, input.early.value.code, input.early.value.status, input.policyData, false)
    else if answer.code != 0 then
      TellsError(input, r, if input.vagueErrors then KRB5KRB_ERR_GENERIC else answer.code, "PREAUTH_FAILED",
                 if answer.code == KRB5KDC_ERR_PREAUTH_FAILED then Some(hints) else answer.eData, answer.typedEData)
    else if MustPreauth(input) && !SetBy(h, PreAuth) then
      TellsError(input, r, KRB5KDC_ERR_PREAUTH_REQUIRED, "NEEDED_PREAUTH", Some(hints), false)
    else if MustUseHardware(input) && !SetBy(h, HwAuth) then
      TellsError(input, r, KRB5KDC_ERR_PREAUTH_REQUIRED, "NEEDED_HW_PREAUTH", Some(hints), false)
    else
      input.build.Some? && TellsError(input, r, input.build.value.code, input.build.value.status, None, false)
  }

  /** The client has shown what it must. */
  predicate HasShown(input: AsInput, h: seq<Attempt>) {
    (MustPreauth(input) ==> SetBy(h, PreAuth)) && (MustUseHardware(input) ==> SetBy(h, HwAuth))
  }

  lemma FlagsShow(input: AsInput, h: seq<Attempt>)
    ensures PreAuth in FlagsAfter(input, h) <==> SetBy(h, PreAuth)
    ensures HwAuth in FlagsAfter(input, h) <==> SetBy(h, HwAuth)
    ensures Demanded(ClientAttributes(input)) <= FlagsAfter(input, h) <==> HasShown(input, h)
    ensures HwOnly(input) <==> MustUseHardware(input)
  {
    FlagsSetBy(h, PreAuth);
    FlagsSetBy(h, HwAuth);
    hide FlagsSet, SetBy, InitialFlags;
  }

  /** The response is a ticket exactly if nothing failed and the client has shown what it must, and otherwise tells the
      client why not. */
  lemma {:induction false} ResponseIs(input: AsInput, answer: Answer, h: seq<Attempt>, hints: seq<PaData>)
    ensures var r := Expected(input, answer, FlagsAfter(input, h), hints);
            if input.early.None? && answer.code == 0 && HasShown(input, h) && input.build.None?
            then r == Response(0, AsRep)
            else TellsWhy(input, r, answer, h, hints)
  {
    FlagsShow(input, h);
    hide FlagsAfter, SetBy;
  }

  /** The attempts `h` let the client pass: there are none, or one succeeded and no required system failed. */
  predicate Passes(h: seq<Attempt>) {
    h == [] || (Succeeded(h) && !RequiredFailed(h))
  }

  lemma HintsForHardware(input: AsInput, edata: nat -> Edata)
    ensures HintsFor(input, edata)
         == Hints(input.systems, MustUseHardware(input), seq(|input.systems|, i requires 0 <= i => edata(i)))
  {
    FlagsShow(input, []);
  }

  // An AS exchange run to its end, with modules that each respond once.  It ends, with exactly one response, which
  // depends on the request, the attempts and the modules' hints alone.  It is an AS-REP if and only if nothing fails
  // before and after, the attempts let the client pass, and every demanded flag was set, which only attempts can do.
  method Serve(input: AsInput, verify: (seq<Attempt>, PaSystem) -> Outcome, edata: nat -> Edata)
    returns (response: Response, history: seq<Attempt>, answer: Answer)
    requires input.Valid()
    ensures RespondsAs(history, verify)
    ensures response == Expected(input, answer, FlagsAfter(input, history), HintsFor(input, edata))
    ensures input.early.None? && input.padata.Some? ==>
              && Complete(history, Verifiers(input.systems, input.padata.value))
              && Answers(answer, history, input.padata.value, input.keyInfo)
    ensures input.early.Some? || input.padata.None? ==> answer == Answer(0, None, false) && history == []
    ensures response.message.AsRep? <==>
              && input.early.None? && input.build.None? && Passes(history)
              && Demanded(ClientAttributes(input)) <= FlagsAfter(input, history)
    ensures response.message.AsRep? ==> Justified(ClientAttributes(input), history)
    ensures input.early.None? && input.build.None? && Passes(history) && HasShown(input, history) ==>
              response == Response(0, AsRep)
    ensures !(input.early.None? && input.build.None? && Passes(history) && HasShown(input, history)) ==>
              var responses := seq(|input.systems|, i requires 0 <= i => edata(i));
              TellsWhy(input, response, answer, history, Hints(input.systems, MustUseHardware(input), responses))
  {
    hide RespondsAs, Expected, HintState.Valid, Answers, Complete, Verifiers, PadataState.Recorded, FlagsAfter, Hints;
    hide HintsFor, SendsHints;
    var state := new AsReqState(input, edata);
    history := [];
    RespondsAtFirst(verify);
    state.ProcessAsReq();
    while !state.phase.Done?
      invariant state.Valid() && (state.phase.Checking? ==> state.check.Waiting()) && state.input == input
      invariant state.edata == edata && (input.early.Some? ==> state.phase.Done? && history == [])
      invariant fresh(state) && fresh(state.check) && fresh(state.hints) && fresh(state.hints.slots)
      invariant state.check.history == history && RespondsAs(history, verify)
      decreases state.Remaining()
    {
      if state.phase.Checking? {
        var sys := state.check.paSys.value;
        var outcome := verify(history, sys);
        RespondsOnce(history, sys, verify);
        history := history + [Attempt(sys, outcome)];
        state.VerifyResponds(outcome);
      } else {
        state.EdataResponds(edata(state.hints.ap));
      }
    }
    response := state.responses[0];
    answer := if state.check.responses == [] then Answer(0, None, false) else state.check.responses[0];
    state.FinalHints();
    HintsMatterOnlyIfSent(input, answer, state.check.replyFlags, state.TheHints(), HintsFor(input, edata));
    AsRepExactly(input, answer, FlagsAfter(input, history), HintsFor(input, edata));
    ResponseIs(input, answer, history, HintsFor(input, edata));
    HintsForHardware(input, edata);
    hide TellsWhy, HasShown;
    if input.early.None? && input.padata.Some? {
      AnswerIsZeroIff(answer, history, input.padata.value, input.keyInfo);
    }
    if response.message.AsRep? {
      DemandedIsSet(input, history);
    }
  }
}
