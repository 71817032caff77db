/** The table of preauthentication systems and the pa-data they exchange (kdc_preauth.c). */
module PreauthTypes {
  import opened KdcTypes

  datatype PaFlag = PaHardware | PaRequired | PaSufficient | PaReplacesKey | PaPseudo | PaTypedEData

  /** `hasEdata`, `hasVerify` and `hasReturn` say which of the optional functions the system provides. */
  datatype PaSystem = PaSystem(paType: int, flags: set<PaFlag>, hasEdata: bool, hasVerify: bool, hasReturn: bool)

  datatype PaBody = Bytes(bytes: string) | EtypeInfo(enctype: int)

  datatype PaData = PaData(paType: int, body: PaBody)

  const PADATA_PW_SALT := 3
  const PADATA_ETYPE_INFO := 11
  const PADATA_ETYPE_INFO2 := 19
  const PADATA_PAC_REQUEST := 128
  const PADATA_FX_COOKIE := 133
  const PADATA_FX_FAST := 136

  const STATIC_SYSTEMS := [
    PaSystem(PADATA_FX_FAST, {PaHardware}, false, false, false),
    PaSystem(PADATA_ETYPE_INFO, {}, true, false, true),
    PaSystem(PADATA_ETYPE_INFO2, {}, true, false, true),
    PaSystem(PADATA_PW_SALT, {PaPseudo}, false, false, true),
    PaSystem(PADATA_PAC_REQUEST, {PaPseudo}, false, false, false)]

  /** The static systems come first; no system has the end-of-list type -1. */
  predicate IsTable(systems: seq<PaSystem>) {
    STATIC_SYSTEMS <= systems && forall i :: 0 <= i < |systems| ==> systems[i].paType != -1
  }

  predicate Includes(list: seq<PaData>, paType: int) {
    exists i :: 0 <= i < |list| && list[i].paType == paType
  }

  // pa_list_includes
  method PaListIncludes(list: seq<PaData>, paType: int) returns (found: bool)
    ensures found == Includes(list, paType)
  {
    for i := 0 to |list|
      invariant forall j :: 0 <= j < i ==> list[j].paType != paType
    {
      if list[i].paType == paType {
        return true;
      }
    }
    return false;
  }

  /** The system that handles a type: the first in the table with that type, or None. */
  function SystemFor(systems: seq<PaSystem>, paType: int): (r: Option<PaSystem>) {
    if systems == [] then None
    else if systems[0].paType == paType then Some(systems[0])
    else SystemFor(systems[1..], paType)
  }

  /** The k-th system is the first of the table that handles the type. */
  predicate FirstFor(systems: seq<PaSystem>, paType: int, k: int) {
    0 <= k < |systems| && systems[k].paType == paType && forall j :: 0 <= j < k ==> systems[j].paType != paType
  }

  lemma {:induction false} SystemForIs(systems: seq<PaSystem>, paType: int)
    ensures SystemFor(systems, paType).None? <==> forall k :: 0 <= k < |systems| ==> systems[k].paType != paType
    ensures SystemFor(systems, paType).Some? ==>
              exists k :: FirstFor(systems, paType, k) && SystemFor(systems, paType).value == systems[k]
  {
    if systems != [] {
      if systems[0].paType == paType {
        assert FirstFor(systems, paType, 0);
      } else {
        var rest := systems[1..];
        SystemForIs(rest, paType);
        assert forall k :: 1 <= k < |systems| ==> systems[k] == rest[k - 1];
        if SystemFor(rest, paType).Some? {
          var k :| FirstFor(rest, paType, k) && SystemFor(rest, paType).value == rest[k];
          assert FirstFor(systems, paType, k + 1) && systems[k + 1] == rest[k];
        }
      }
    }
  }

  // find_pa_system
  method FindPaSystem(systems: seq<PaSystem>, paType: int) returns (r: Option<PaSystem>)
    ensures r == SystemFor(systems, paType)
  {
    var i := 0;
    while i < |systems| && systems[i].paType != paType
      invariant 0 <= i <= |systems| && SystemFor(systems, paType) == SystemFor(systems[i..], paType)
    {
      i := i + 1;
    }
    r := if i == |systems| then None else Some(systems[i]);
  }
}
