/** Building the hint list of a PREAUTH_REQUIRED error: hint_list_next, finish_get_edata and hint_list_finish
    (kdc_preauth.c), an iteration suspended while each module prepares its element. */
module HintList {
  import opened KdcTypes
  import opened PreauthTypes

  /** What a module's edata function responds: a code, and an element or None for an empty one. */
  datatype Edata = Edata(code: int, pa: Option<PaData>)

  function EmptyElement(paType: int): (pa: PaData) {
    PaData(paType, Bytes(""))
  }

  /** The system may appear in the list. */
  predicate Offered(system: PaSystem, hwOnly: bool) {
    (hwOnly ==> PaHardware in system.flags) && PaPseudo !in system.flags
  }

  /** Its edata function is called. */
  predicate Asked(system: PaSystem, hwOnly: bool) {
    Offered(system, hwOnly) && system.hasEdata
  }

  /** The element of an offered system, if its edata step succeeded (a system without one always succeeds). */
  function ElementOf(system: PaSystem, response: Edata): (r: seq<PaData>) {
    if !system.hasEdata then [EmptyElement(system.paType)]
    else if response.code != 0 then []
    else if response.pa.Some? then [response.pa.value]
    else [EmptyElement(system.paType)]
  }

  /** The hint list: in table order, the elements of the offered systems, where `responses[i]` is what the i-th
      system's edata function responds. */
  function Hints(systems: seq<PaSystem>, hwOnly: bool, responses: seq<Edata>): (r: seq<PaData>)
    requires |responses| == |systems|
  {
    if systems == [] then []
    else
      var n := |systems| - 1;
      Hints(systems[..n], hwOnly, responses[..n]) +
      if Offered(systems[n], hwOnly) then ElementOf(systems[n], responses[n]) else []
  }

  /** The list depends only on the responses that were asked for, and has at most one element per system. */
  lemma {:induction false} HintsDependOnAsked(
    systems: seq<PaSystem>, hwOnly: bool, responses: seq<Edata>, responses': seq<Edata>)
    requires |responses| == |responses'| == |systems|
    requires forall i :: 0 <= i < |systems| && Asked(systems[i], hwOnly) ==> responses[i] == responses'[i]
    ensures Hints(systems, hwOnly, responses) == Hints(systems, hwOnly, responses')
    ensures |Hints(systems, hwOnly, responses)| <= |systems|
  {
    if systems != [] {
      var n := |systems| - 1;
      HintsDependOnAsked(systems[..n], hwOnly, responses[..n], responses'[..n]);
    }
  }

  /** The system has an element in the list: it is a real system, of hardware if only that will do, and its edata
      function, if it has one, succeeded. */
  predicate Listed(system: PaSystem, hwOnly: bool, response: Edata) {
    && PaPseudo !in system.flags && (PaHardware in system.flags || !hwOnly)
    && (system.hasEdata ==> response.code == 0)
  }

  /** The element is what the function made, or an empty one of the system's type. */
  predicate IsHint(pa: PaData, system: PaSystem, response: Edata) {
    if system.hasEdata && response.pa.Some? then pa == response.pa.value
    else pa.paType == system.paType && pa.body == Bytes("")
  }

  /** `list` has one element for each of the systems `at`, in table order, and these are all that are listed. */
  ghost predicate HintsOf(
    list: seq<PaData>, systems: seq<PaSystem>, hwOnly: bool, responses: seq<Edata>, at: seq<nat>)
    requires |responses| == |systems|
  {
    && |at| == |list|
    && (forall i :: 0 <= i < |at| ==> at[i] < |systems| && IsHint(list[i], systems[at[i]], responses[at[i]]))
    && (forall i, j :: 0 <= i < j < |at| ==> at[i] < at[j])
    && (forall k :: 0 <= k < |systems| ==> (Listed(systems[k], hwOnly, responses[k]) <==> k in at))
  }

  lemma {:induction false} HintsAre(systems: seq<PaSystem>, hwOnly: bool, responses: seq<Edata>) returns (at: seq<nat>)
    requires |responses| == |systems|
    ensures HintsOf(Hints(systems, hwOnly, responses), systems, hwOnly, responses, at)
  {
    at := [];
    if systems != [] {
      var n := |systems| - 1;
      at := HintsAre(systems[..n], hwOnly, responses[..n]);
      var element := if Offered(systems[n], hwOnly) then ElementOf(systems[n], responses[n]) else [];
      assert Listed(systems[n], hwOnly, responses[n]) <==> |element| == 1;
      assert element != [] ==> IsHint(element[0], systems[n], responses[n]);
      assert element == [] || element == [element[0]];
      assert systems == systems[..n] + [systems[n]] && responses == responses[..n] + [responses[n]];
      var list, none: seq<PaData> := Hints(systems[..n], hwOnly, responses[..n]), [];
      assert list + none == list;
      if element == [] {
        HintSkipped(list, systems[..n], hwOnly, responses[..n], at, systems[n], responses[n]);
      } else {
        HintAdded(list, systems[..n], hwOnly, responses[..n], at, element[0], systems[n], responses[n]);
      }
      hide HintsOf, Listed, IsHint, Offered, ElementOf;
      if element != [] {
        at := at + [n];
      }
    }
  }

  lemma HintSkipped(
    list: seq<PaData>, systems: seq<PaSystem>, hwOnly: bool, responses: seq<Edata>, at: seq<nat>, system: PaSystem,
    response: Edata)
    requires |responses| == |systems| && HintsOf(list, systems, hwOnly, responses, at)
    requires !Listed(system, hwOnly, response)
    ensures HintsOf(list, systems + [system], hwOnly, responses + [response], at)
  {
    hide Listed, IsHint;
    var systems', responses' := systems + [system], responses + [response];
    assert forall k :: 0 <= k < |systems| ==> systems'[k] == systems[k] && responses'[k] == responses[k];
    assert |systems| !in at;
  }

  lemma HintAdded(
    list: seq<PaData>, systems: seq<PaSystem>, hwOnly: bool, responses: seq<Edata>, at: seq<nat>, element: PaData,
    system: PaSystem, response: Edata)
    requires |responses| == |systems| && HintsOf(list, systems, hwOnly, responses, at)
    requires Listed(system, hwOnly, response) && IsHint(element, system, response)
    ensures HintsOf(list + [element], systems + [system], hwOnly, responses + [response], at + [|systems|])
  {
    hide Listed, IsHint;
    var systems', responses', at' := systems + [system], responses + [response], at + [|systems|];
    assert forall k :: 0 <= k < |systems| ==> systems'[k] == systems[k] && responses'[k] == responses[k];
    assert at'[|at|] == |systems| && forall i :: 0 <= i < |at| ==> at'[i] == at[i] < |systems|;
    assert forall k: nat :: k in at' <==> k in at || k == |systems|;
  }

  class HintState {
    const systems: seq<PaSystem>
    const hwOnly: bool
    const slots: array<PaData>     // room for one element per system, and the terminator

    var ap: nat                    // the next system in the table
    var waiting: bool              // its edata response is awaited
    var paCur: nat
    var responded: seq<seq<PaData>>
    ghost var responses: seq<Edata>

    constructor (systems: seq<PaSystem>, hwOnly: bool)
      ensures this.systems == systems && this.hwOnly == hwOnly && fresh(slots)
      ensures Valid() && !waiting && ap == 0 && responded == []
    {
      this.systems, this.hwOnly := systems, hwOnly;
      ap, waiting, paCur, responded, responses := 0, false, 0, [], [];
      slots := new PaData[|systems| + 1](_ => EmptyElement(0));
    }

    ghost predicate Valid()
      reads this, slots
    {
      && |responses| == ap <= |systems| && slots.Length == |systems| + 1 && paCur <= ap
      && slots[..paCur] == Hints(systems[..ap], hwOnly, responses)
      && (waiting ==> ap < |systems| && Offered(systems[ap], hwOnly) && systems[ap].hasEdata && responded == [])
      && (responded != [] ==> ap == |systems| && responded == [Hints(systems, hwOnly, responses)])
    }

    // hint_list_next
    method HintListNext()
      requires Valid() && !waiting && responded == []
      modifies this`ap, this`waiting, this`paCur, this`responded, this`responses, slots
      ensures Valid() && (waiting || |responded| == 1)
      ensures old(ap) <= ap && old(responses) <= responses
      ensures forall i :: old(ap) <= i < ap ==> !Asked(systems[i], hwOnly)
      decreases |systems| - ap
    {
      if ap == |systems| {
        assert systems[..ap] == systems;
        responded := responded + [slots[..paCur]];
        return;
      }
      if hwOnly && PaHardware !in systems[ap].flags {
        Advance([], Edata(0, None));
        HintListNext();
      } else if PaPseudo in systems[ap].flags {
        Advance([], Edata(0, None));
        HintListNext();
      } else if systems[ap].hasEdata {
        waiting := true;
      } else {
        Advance([EmptyElement(systems[ap].paType)], Edata(0, None));
        HintListNext();
      }
    }

    // finish_get_edata: the awaited module responds.
    method FinishGetEdata(response: Edata)
      requires Valid() && waiting
      modifies this`ap, this`waiting, this`paCur, this`responded, this`responses, slots
      ensures Valid() && (waiting || |responded| == 1)
      ensures old(ap) < ap && old(responses) + [response] <= responses
      ensures forall i :: old(ap) < i < ap ==> !Asked(systems[i], hwOnly)
    {
      waiting := false;
      if response.code == 0 {
        Advance([if response.pa.Some? then response.pa.value else EmptyElement(systems[ap].paType)], response);
      } else {
        Advance([], response);
      }
      HintListNext();
    }

    method Advance(element: seq<PaData>, ghost response: Edata)
      requires Valid() && !waiting && responded == [] && ap < |systems|
      requires element == if Offered(systems[ap], hwOnly) then ElementOf(systems[ap], response) else []
      modifies this`ap, this`paCur, this`responses, slots
      ensures Valid() && ap == old(ap) + 1 && responses == old(responses) + [response]
    {
      assert systems[..ap + 1][..ap] == systems[..ap];
      assert (responses + [response])[..ap] == responses;
      ghost var before := slots[..paCur];
      if |element| == 1 {
        slots[paCur] := element[0];
        paCur := paCur + 1;
        assert slots[..paCur] == before + element;
      } else {
        assert before + element == before;
      }
      responses := responses + [response];
      ap := ap + 1;
    }
  }

  // get_preauth_hint_list, run to its end with modules that each respond once.
  method GetPreauthHintList(systems: seq<PaSystem>, hwOnly: bool, modules: nat -> Edata) returns (list: seq<PaData>)
    ensures list == Hints(systems, hwOnly, seq(|systems|, i requires 0 <= i => modules(i)))
    ensures |list| <= |systems|
  {
    hide Hints;
    var state := new HintState(systems, hwOnly);
    state.HintListNext();
    while state.responded == []
      invariant state.Valid() && (state.waiting || |state.responded| == 1) && fresh(state) && fresh(state.slots)
      invariant state.systems == systems && state.hwOnly == hwOnly
      invariant forall i :: 0 <= i < state.ap && Asked(systems[i], hwOnly) ==> state.responses[i] == modules(i)
      decreases |systems| - state.ap, state.responded == []
    {
      ghost var before := state.responses + [modules(state.ap)];
      state.FinishGetEdata(modules(state.ap));
      assert forall i :: 0 <= i < |before| ==> state.responses[i] == before[i];
    }
    list := state.responded[0];
    HintsDependOnAsked(systems, hwOnly, state.responses, seq(|systems|, i requires 0 <= i => modules(i)));
  }
}
