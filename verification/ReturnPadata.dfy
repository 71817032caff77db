/** Preparing the pa-data of an AS-REP: return_padata (kdc_preauth.c), which runs the systems in sorted order and
    lets at most one of them replace the reply key. */
module ReturnPadata {
  import opened KdcTypes
  import opened PreauthTypes
  import opened PaOrder

  /** What a return function does: its code, the reply key as it leaves it, and the element to send, if any. */
  datatype Reply = Reply(code: int, key: Key, send: Option<PaData>)

  /** A call that was made, of the system at index `system`, with the reply key as it then was. */
  datatype Call = Call(system: int, keyBefore: Key, reply: Reply) {
    predicate Changed() {
      reply.key != keyBefore
    }
  }

  /** What return_etype_info depends on: whether the client has a key, whether a requested enctype demands
      etype-info2, and the code of building the element. */
  datatype EtypeEnv = EtypeEnv(haveClientKey: bool, requiresInfo2: bool, makeCode: int)

  // return_etype_info
  function ReturnEtypeInfo(paType: int, key: Key, env: EtypeEnv): (r: Reply) {
    if !env.haveClientKey || (paType == PADATA_ETYPE_INFO && env.requiresInfo2) then Reply(0, key, None)
    else if env.makeCode != 0 then Reply(env.makeCode, key, None)
    else Reply(0, key, Some(PaData(paType, EtypeInfo(key.enctype))))
  }

  predicate IsEtypeInfo(i: int) {
    i == 1 || i == 2
  }

  /** The return function of the system at index `i`: the static table has return_etype_info at 1 and 2. */
  function Return(systems: seq<PaSystem>, i: int, key: Key, env: EtypeEnv, modules: (int, Key) -> Reply): (r: Reply)
    requires 0 <= i < |systems|
  {
    if IsEtypeInfo(i) then ReturnEtypeInfo(systems[i].paType, key, env) else modules(i, key)
  }

  predicate Replaces(systems: seq<PaSystem>, i: int) {
    0 <= i < |systems| && PaReplacesKey in systems[i].flags
  }

  /** Only systems flagged as replacing the key change it. */
  ghost predicate Disciplined(systems: seq<PaSystem>, modules: (int, Key) -> Reply) {
    forall i, key :: 0 <= i < |systems| && !Replaces(systems, i) ==> modules(i, key).key == key
  }

  function KeyAfter(calls: seq<Call>, key: Key): (k: Key) {
    if calls == [] then key else calls[|calls| - 1].reply.key
  }

  function Sent(calls: seq<Call>): (r: seq<PaData>) {
    if calls == [] then []
    else
      var n := |calls| - 1;
      Sent(calls[..n]) + if calls[n].reply.send.Some? then [calls[n].reply.send.value] else []
  }

  /** The calls form a run: each is made with the key the one before left, and only the last may have failed. */
  ghost predicate IsRun(
    calls: seq<Call>, systems: seq<PaSystem>, key: Key, env: EtypeEnv, modules: (int, Key) -> Reply)
  {
    && (forall i :: 0 <= i < |calls| ==>
          && 0 <= calls[i].system < |systems|
          && calls[i].keyBefore == KeyAfter(calls[..i], key)
          && calls[i].reply == Return(systems, calls[i].system, calls[i].keyBefore, env, modules))
    && (forall i :: 0 <= i < |calls| - 1 ==> calls[i].reply.code == 0)
  }

  /** At most one call changes the key, and no key replacer is called after it. */
  predicate AtMostOneChange(calls: seq<Call>, systems: seq<PaSystem>) {
    forall i, j :: 0 <= i < j < |calls| && calls[i].Changed() ==>
      !calls[j].Changed() && !Replaces(systems, calls[j].system)
  }

  predicate SomeChange(calls: seq<Call>) {
    exists i :: 0 <= i < |calls| && calls[i].Changed()
  }

  predicate WasCalled(calls: seq<Call>, i: int) {
    exists k :: 0 <= k < |calls| && calls[k].system == i
  }

  /** Every system that does not replace the key was called with the final key. */
  predicate SettledFor(calls: seq<Call>, systems: seq<PaSystem>, key: Key) {
    forall i :: 0 <= i < |calls| && !Replaces(systems, calls[i].system) ==> calls[i].keyBefore == key
  }

  /** The first `p` systems of the order were called, except key replacers passed over after a change. */
  predicate Covered(calls: seq<Call>, systems: seq<PaSystem>, order: seq<int>, p: nat)
    requires p <= |order|
  {
    forall q :: 0 <= q < p ==> WasCalled(calls, order[q]) || (Replaces(systems, order[q]) && SomeChange(calls))
  }

  /** The calls went through the order in order. */
  ghost predicate InOrder(calls: seq<Call>, order: seq<int>, at: seq<nat>) {
    && |at| == |calls|
    && (forall i :: 0 <= i < |at| ==> at[i] < |order| && calls[i].system == order[at[i]])
    && (forall i, j :: 0 <= i < j < |at| ==> at[i] < at[j])
  }

  lemma {:induction false} ExtendRun(
    calls: seq<Call>, call: Call, systems: seq<PaSystem>, key: Key, env: EtypeEnv, modules: (int, Key) -> Reply)
    requires IsRun(calls, systems, key, env, modules) && (calls != [] ==> calls[|calls| - 1].reply.code == 0)
    requires 0 <= call.system < |systems| && call.keyBefore == KeyAfter(calls, key)
    requires call.reply == Return(systems, call.system, call.keyBefore, env, modules)
    ensures IsRun(calls + [call], systems, key, env, modules)
  {
    hide Return;
    var calls' := calls + [call];
    assert calls'[..|calls|] == calls;
    forall i | 0 <= i < |calls|
      ensures calls'[i] == calls[i] && calls'[..i] == calls[..i]
    {
    }
  }

  datatype Setting = Setting(
    systems: seq<PaSystem>, order: seq<int>, key: Key, env: EtypeEnv, modules: (int, Key) -> Reply)

  ghost predicate WellSet(t: Setting) {
    && IsTable(t.systems) && Disciplined(t.systems, t.modules) && ReplacersFirst(t.order, t.systems)
    && forall q :: 0 <= q < |t.order| ==> 0 <= t.order[q] < |t.systems|
  }

  /** The calls so far, with the reply key now `key`. */
  ghost predicate Sound(t: Setting, calls: seq<Call>, at: seq<nat>, key: Key) {
    && IsRun(calls, t.systems, t.key, t.env, t.modules) && key == KeyAfter(calls, t.key)
    && InOrder(calls, t.order, at)
    && AtMostOneChange(calls, t.systems) && SettledFor(calls, t.systems, key)
  }

  /** Positions below `p` are done with, and nothing has failed. */
  ghost predicate Progress(t: Setting, calls: seq<Call>, at: seq<nat>, key: Key, p: nat) {
    && Sound(t, calls, at, key) && p <= |t.order|
    && (forall i :: 0 <= i < |calls| ==> calls[i].reply.code == 0)
    && (forall i :: 0 <= i < |at| ==> at[i] < p)
    && (SomeChange(calls) <==> key != t.key)
    && Covered(calls, t.systems, t.order, p)
  }

  lemma StepCall(t: Setting, calls: seq<Call>, at: seq<nat>, key: Key, p: nat, call: Call)
    requires WellSet(t) && Progress(t, calls, at, key, p) && p < |t.order|
    requires call == Call(t.order[p], key, Return(t.systems, t.order[p], key, t.env, t.modules))
    requires key != t.key ==> !Replaces(t.systems, t.order[p])
    ensures Sound(t, calls + [call], at + [p], call.reply.key)
    ensures call.reply.code == 0 ==> Progress(t, calls + [call], at + [p], call.reply.key, p + 1)
  {
    hide InOrder, Covered, AtMostOneChange, SettledFor, ReplacersFirst, IsRun, SomeChange;
    NoChangeByOthers(t, t.order[p], key);
    ExtendRun(calls, call, t.systems, t.key, t.env, t.modules);
    ExtendFacts(calls, call, t.systems, t.order, at, p, key);
  }

  lemma NoChangeByOthers(t: Setting, i: int, key: Key)
    requires WellSet(t) && 0 <= i < |t.systems|
    ensures !Replaces(t.systems, i) ==> Return(t.systems, i, key, t.env, t.modules).key == key
  {
  }

  lemma StepSkip(t: Setting, calls: seq<Call>, at: seq<nat>, key: Key, p: nat)
    requires Progress(t, calls, at, key, p) && p < |t.order|
    requires key != t.key && Replaces(t.systems, t.order[p])
    ensures Progress(t, calls, at, key, p + 1)
  {
  }

  // return_padata
  method ReturnPadata(
    systems: seq<PaSystem>, padata: Option<seq<PaData>>, key: Key, env: EtypeEnv, modules: (int, Key) -> Reply)
    returns (r: Result<seq<PaData>>, finalKey: Key, calls: seq<Call>, paOrder: seq<int>)
    requires IsTable(systems) && Disciplined(systems, modules)
    ensures Sorted(paOrder, systems, padata) && (exists at :: InOrder(calls, paOrder, at))
    ensures IsRun(calls, systems, key, env, modules) && finalKey == KeyAfter(calls, key)
    ensures AtMostOneChange(calls, systems) && SettledFor(calls, systems, finalKey)
    ensures r.Err? ==> calls != [] && r.code == calls[|calls| - 1].reply.code != 0
    ensures r.Ok? ==> r.value == Sent(calls) && Covered(calls, systems, paOrder, |paOrder|)
    ensures r.Ok? && LeaveEtypeInfo(systems, modules) ==>
              forall pa :: pa in r.value && IsEtypeInfoType(pa.paType) ==> pa.body == EtypeInfo(finalKey.enctype)
    ensures r.Ok? ==> EtypeInfoSent(r.value, env)
    ensures r.Ok? && LeaveEtypeInfo(systems, modules) ==> NoOtherEtypeInfo(r.value, env)
  {
    hide Repliers, Keep, Front, InOrder, IsRun, AtMostOneChange, SettledFor, Covered, Sorted, Progress, Return;
    hide ReplacersFirst, Disciplined, LeaveEtypeInfo, IsEtypeInfoType;
    var order := new int[|Repliers(systems)| + 1];
    SortPaOrder(systems, padata, order);
    var n := |Repliers(systems)|;
    paOrder := order[..n];
    SortedIndices(paOrder, systems, padata);
    ghost var t := Setting(systems, paOrder, key, env, modules);
    var originalKey := key;
    var keyModified := false;
    var sendPaList: seq<PaData> := [];
    calls, finalKey := [], key;
    ghost var at: seq<nat> := [];
    AtTheStart(t);
    var p := 0;
    while order[p] != -1
      invariant 0 <= p <= n && paOrder == order[..n] && order[n] == -1
      invariant WellSet(t) && Progress(t, calls, at, finalKey, p)
      invariant keyModified ==> finalKey != originalKey
      invariant sendPaList == Sent(calls)
      decreases n - p
    {
      var i := order[p];
      if !keyModified && originalKey != finalKey {
        keyModified := true;
      }
      if keyModified && PaReplacesKey in systems[i].flags {
        StepSkip(t, calls, at, finalKey, p);
      } else {
        var call := Call(i, finalKey, Return(systems, i, finalKey, env, modules));
        NoChangeByOthers(t, i, finalKey);
        StepCall(t, calls, at, finalKey, p, call);
        assert (calls + [call])[..|calls|] == calls;
        calls, at, finalKey := calls + [call], at + [p], call.reply.key;
        if call.reply.code != 0 {
          return Err(call.reply.code), finalKey, calls, paOrder;
        }
        if call.reply.send.Some? {
          sendPaList := sendPaList + [call.reply.send.value];
        }
      }
      p := p + 1;
    }
    AtTheEnd(t, calls, at, finalKey);
    if LeaveEtypeInfo(systems, modules) {
      forall pa | pa in Sent(calls) && IsEtypeInfoType(pa.paType)
        ensures pa.body == EtypeInfo(finalKey.enctype)
      {
        EtypeInfoNamesFinalKey(calls, systems, key, env, modules, pa);
      }
    }
    EtypeInfoIsSent(calls, systems, paOrder, padata, key, env, modules);
    r := Ok(sendPaList);
  }

  lemma AtTheStart(t: Setting)
    ensures Progress(t, [], [], t.key, 0)
  {
  }

  lemma AtTheEnd(t: Setting, calls: seq<Call>, at: seq<nat>, key: Key)
    requires Progress(t, calls, at, key, |t.order|)
    ensures Sound(t, calls, at, key) && Covered(calls, t.systems, t.order, |t.order|)
    ensures forall i :: 0 <= i < |calls| ==> calls[i].reply.code == 0
  {
  }

  /** In a sorted order, no key replacer follows a system that is not one. */
  predicate ReplacersFirst(order: seq<int>, systems: seq<PaSystem>) {
    forall p, q :: 0 <= p < q < |order| && Replaces(systems, order[q]) ==> Replaces(systems, order[p])
  }

  lemma SortedIndices(s: seq<int>, systems: seq<PaSystem>, padata: Option<seq<PaData>>)
    requires Sorted(s, systems, padata)
    ensures ReplacersFirst(s, systems)
    ensures forall q :: 0 <= q < |s| ==> 0 <= s[q] < |systems|
  {
    var repliers, marks := Repliers(systems), KeyReplacers(systems);
    var c := |Keep(repliers, marks)|;
    SameMembers(s, repliers);
    SameMembers(s[..c], Keep(repliers, marks));
    KeepMembers(repliers, marks);
    forall q | 0 <= q < |s|
      ensures 0 <= s[q] < |systems| && (Replaces(systems, s[q]) <==> q < c)
    {
      assert s[q] in s;
      if q < c {
        assert s[..c][q] in Keep(repliers, marks);
        assert Marked(s[q], marks);
      } else {
        assert !Marked(s[q], marks);
      }
    }
  }

  /** What adding a call at position `p` of the order keeps. */
  lemma ExtendFacts(
    calls: seq<Call>, call: Call, systems: seq<PaSystem>, order: seq<int>, at: seq<nat>, p: nat, key: Key)
    requires p < |order| && call.system == order[p] && call.keyBefore == key && ReplacersFirst(order, systems)
    requires InOrder(calls, order, at) && (forall i :: 0 <= i < |at| ==> at[i] < p)
    requires AtMostOneChange(calls, systems) && SettledFor(calls, systems, key) && Covered(calls, systems, order, p)
    requires !Replaces(systems, call.system) ==> !call.Changed()
    requires SomeChange(calls) ==> !Replaces(systems, call.system)
    ensures var calls' := calls + [call];
            && InOrder(calls', order, at + [p])
            && AtMostOneChange(calls', systems) && SettledFor(calls', systems, call.reply.key)
            && Covered(calls', systems, order, p + 1)
            && (SomeChange(calls') <==> SomeChange(calls) || call.Changed())
  {
    var calls' := calls + [call];
    assert forall i :: 0 <= i < |calls| ==> calls'[i] == calls[i];
    assert calls'[|calls|] == call;
    forall i | 0 <= i < |calls| && !Replaces(systems, calls[i].system)
      ensures calls[i].keyBefore == call.reply.key
    {
      assert order[at[i]] == calls[i].system && at[i] < p;
      assert !Replaces(systems, call.system);
    }
    assert SomeChange(calls) ==> SomeChange(calls') by {
      if SomeChange(calls) {
        var i :| 0 <= i < |calls| && calls[i].Changed();
        assert calls'[i].Changed();
      }
    }
    forall q | 0 <= q < p + 1
      ensures WasCalled(calls', order[q]) || (Replaces(systems, order[q]) && SomeChange(calls'))
    {
      if q < p && WasCalled(calls, order[q]) {
        var k :| 0 <= k < |calls| && calls[k].system == order[q];
        assert calls'[k].system == order[q];
      }
    }
  }

  /** A client with a key is sent ETYPE-INFO2, and ETYPE-INFO too unless an enctype it asked for demands the other. */
  predicate EtypeInfoSent(list: seq<PaData>, env: EtypeEnv) {
    env.haveClientKey ==>
      && env.makeCode == 0 && Includes(list, PADATA_ETYPE_INFO2)
      && (!env.requiresInfo2 ==> Includes(list, PADATA_ETYPE_INFO))
  }

  /** And no other client, and not in that case. */
  predicate NoOtherEtypeInfo(list: seq<PaData>, env: EtypeEnv) {
    && (Includes(list, PADATA_ETYPE_INFO2) ==> env.haveClientKey)
    && (Includes(list, PADATA_ETYPE_INFO) ==> env.haveClientKey && !env.requiresInfo2)
  }

  lemma {:induction false} SentIncludes(calls: seq<Call>, i: nat)
    requires i < |calls| && calls[i].reply.send.Some?
    ensures calls[i].reply.send.value in Sent(calls)
  {
    var n := |calls| - 1;
    if i < n {
      SentIncludes(calls[..n], i);
    }
  }

  /** The system at `i`, one of the two that return etype-info, was called, and sent its element if it was to. */
  lemma {:induction false} EtypeCall(
    calls: seq<Call>, systems: seq<PaSystem>, order: seq<int>, padata: Option<seq<PaData>>, key: Key, env: EtypeEnv,
    modules: (int, Key) -> Reply, i: int)
    requires IsTable(systems) && Sorted(order, systems, padata) && IsRun(calls, systems, key, env, modules)
    requires Covered(calls, systems, order, |order|) && (forall k :: 0 <= k < |calls| ==> calls[k].reply.code == 0)
    requires IsEtypeInfo(i) && env.haveClientKey
    ensures env.makeCode == 0 || (systems[i].paType == PADATA_ETYPE_INFO && env.requiresInfo2)
    ensures (systems[i].paType == PADATA_ETYPE_INFO && env.requiresInfo2) || Includes(Sent(calls), systems[i].paType)
  {
    assert systems[1] == STATIC_SYSTEMS[1] && systems[2] == STATIC_SYSTEMS[2];
    SortedMeans(order, systems, padata);
    hide Sorted, Sent;
    assert i in order;
    var q :| 0 <= q < |order| && order[q] == i;
    assert !Replaces(systems, i) && WasCalled(calls, order[q]);
    var k :| 0 <= k < |calls| && calls[k].system == i;
    assert calls[k].reply == ReturnEtypeInfo(systems[i].paType, calls[k].keyBefore, env);
    if calls[k].reply.send.Some? {
      SentIncludes(calls, k);
      var pa := calls[k].reply.send.value;
      var n :| 0 <= n < |Sent(calls)| && Sent(calls)[n] == pa;
      assert pa.paType == systems[i].paType;
    }
  }

  lemma {:induction false} EtypeInfoIsSent(
    calls: seq<Call>, systems: seq<PaSystem>, order: seq<int>, padata: Option<seq<PaData>>, key: Key, env: EtypeEnv,
    modules: (int, Key) -> Reply)
    requires IsTable(systems) && Sorted(order, systems, padata) && IsRun(calls, systems, key, env, modules)
    requires Covered(calls, systems, order, |order|) && (forall k :: 0 <= k < |calls| ==> calls[k].reply.code == 0)
    ensures EtypeInfoSent(Sent(calls), env)
    ensures LeaveEtypeInfo(systems, modules) ==> NoOtherEtypeInfo(Sent(calls), env)
  {
    assert systems[1] == STATIC_SYSTEMS[1] && systems[2] == STATIC_SYSTEMS[2];
    if env.haveClientKey {
      EtypeCall(calls, systems, order, padata, key, env, modules, 1);
      EtypeCall(calls, systems, order, padata, key, env, modules, 2);
    }
    hide Sorted, Sent, Covered;
    if LeaveEtypeInfo(systems, modules) {
      forall n | 0 <= n < |Sent(calls)| && IsEtypeInfoType(Sent(calls)[n].paType)
        ensures env.haveClientKey && (Sent(calls)[n].paType == PADATA_ETYPE_INFO ==> !env.requiresInfo2)
      {
        var pa := Sent(calls)[n];
        SentByCall(calls, pa);
        var i :| 0 <= i < |calls| && calls[i].reply.send == Some(pa);
        assert IsEtypeInfo(calls[i].system);
        assert calls[i].reply == ReturnEtypeInfo(systems[calls[i].system].paType, calls[i].keyBefore, env);
      }
    }
  }

  predicate IsEtypeInfoType(paType: int) {
    paType == PADATA_ETYPE_INFO || paType == PADATA_ETYPE_INFO2
  }

  /** No module sends an etype-info element of its own. */
  ghost predicate LeaveEtypeInfo(systems: seq<PaSystem>, modules: (int, Key) -> Reply) {
    forall i, key :: 0 <= i < |systems| && !IsEtypeInfo(i) && modules(i, key).send.Some? ==>
      !IsEtypeInfoType(modules(i, key).send.value.paType)
  }

  lemma {:induction false} SentByCall(calls: seq<Call>, pa: PaData)
    requires pa in Sent(calls)
    ensures exists i :: 0 <= i < |calls| && calls[i].reply.send == Some(pa)
  {
    var n := |calls| - 1;
    if calls[n].reply.send != Some(pa) {
      SentByCall(calls[..n], pa);
      var i :| 0 <= i < n && calls[..n][i].reply.send == Some(pa);
      assert calls[i].reply.send == Some(pa);
    }
  }

  /** The element a call of return_etype_info sends names the enctype of the final reply key. */
  lemma CallNamesFinalKey(
    calls: seq<Call>, systems: seq<PaSystem>, key: Key, env: EtypeEnv, modules: (int, Key) -> Reply, i: nat)
    requires IsTable(systems) && IsRun(calls, systems, key, env, modules)
    requires SettledFor(calls, systems, KeyAfter(calls, key))
    requires i < |calls| && IsEtypeInfo(calls[i].system) && calls[i].reply.send.Some?
    ensures calls[i].reply.send.value.body == EtypeInfo(KeyAfter(calls, key).enctype)
  {
    assert systems[1] == STATIC_SYSTEMS[1] && systems[2] == STATIC_SYSTEMS[2];
    assert !Replaces(systems, calls[i].system);
  }

  /** Every etype-info element in the list that is sent names the enctype of the final reply key. */
  lemma EtypeInfoNamesFinalKey(
    calls: seq<Call>, systems: seq<PaSystem>, key: Key, env: EtypeEnv, modules: (int, Key) -> Reply, pa: PaData)
    requires IsTable(systems) && IsRun(calls, systems, key, env, modules) && LeaveEtypeInfo(systems, modules)
    requires SettledFor(calls, systems, KeyAfter(calls, key))
    requires pa in Sent(calls) && IsEtypeInfoType(pa.paType)
    ensures pa.body == EtypeInfo(KeyAfter(calls, key).enctype)
  {
    SentByCall(calls, pa);
    var i :| 0 <= i < |calls| && calls[i].reply.send == Some(pa);
    assert IsEtypeInfo(calls[i].system);
    CallNamesFinalKey(calls, systems, key, env, modules, i);
  }
}
