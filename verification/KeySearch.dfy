/** Finding a key of a database entry by version (krb5_dbe_def_search_enctype with no enctype or salt type,
    which is how the KDC looks up its own ticket-granting keys). */
module KeySearch {
  import opened KdcTypes

  function MaxKvno(keys: seq<KeyData>): (m: nat)
    ensures forall i :: 0 <= i < |keys| ==> keys[i].kvno <= m
    ensures m == 0 || exists i :: 0 <= i < |keys| && keys[i].kvno == m
  {
    if keys == [] then 0
    else
      var last := keys[|keys| - 1].kvno;
      var m := MaxKvno(keys[..|keys| - 1]);
      if m < last then last else m
  }

  /** The version asked for: 0 (or -1) means the highest one present. */
  function Version(keys: seq<KeyData>, kvno: int): (v: int) {
    if kvno == 0 || kvno == -1 then MaxKvno(keys) else kvno
  }

  predicate Matches(kd: KeyData, version: int) {
    version >= 0 ==> kd.kvno == version
  }

  predicate Candidate(kd: KeyData, version: int) {
    kd.permitted && Matches(kd, version)
  }

  /** `i` is the first of the candidates of greatest version. */
  ghost predicate IsBest(keys: seq<KeyData>, version: int, i: int) {
    && 0 <= i < |keys| && Candidate(keys[i], version)
    && (forall j :: 0 <= j < |keys| && Candidate(keys[j], version) ==> keys[j].kvno <= keys[i].kvno)
    && (forall j :: 0 <= j < i && Candidate(keys[j], version) ==> keys[j].kvno < keys[i].kvno)
  }

  ghost predicate NoCandidate(keys: seq<KeyData>, version: int) {
    forall j :: 0 <= j < |keys| ==> !Candidate(keys[j], version)
  }

  function BestIndex(keys: seq<KeyData>, version: int): (best: int)
    ensures -1 <= best < |keys|
  {
    if keys == [] then -1
    else
      var n := |keys| - 1;
      var best := BestIndex(keys[..n], version);
      if Candidate(keys[n], version) && (best == -1 || keys[best].kvno < keys[n].kvno) then n else best
  }

  lemma {:induction false} BestIndexIsBest(keys: seq<KeyData>, version: int)
    ensures var best := BestIndex(keys, version);
            if best == -1 then NoCandidate(keys, version) else IsBest(keys, version, best)
  {
    if keys != [] {
      BestIndexIsBest(keys[..|keys| - 1], version);
    }
  }

  function FindKey(keys: seq<KeyData>, kvno: int): (r: Result<KeyData>) {
    var version := Version(keys, kvno);
    var best := BestIndex(keys, version);
    if best != -1 then Ok(keys[best])
    else if exists i :: 0 <= i < |keys| && Matches(keys[i], version) then Err(KRB5_KDB_NO_PERMITTED_KEY)
    else Err(KRB5_KDB_NO_MATCHING_KEY)
  }

  /** The lookup returns the first permitted key of the version asked for, and fails only when there is none. */
  lemma FindKeyIs(keys: seq<KeyData>, kvno: int)
    ensures var r := FindKey(keys, kvno); var version := Version(keys, kvno);
            && (r.Err? <==> NoCandidate(keys, version))
            && (r.Err? ==> r.code != 0)
            && forall i :: IsBest(keys, version, i) ==> r == Ok(keys[i])
    ensures FindKey(keys, kvno).Ok? ==>
              exists i :: IsBest(keys, Version(keys, kvno), i) && keys[i] == FindKey(keys, kvno).value
  {
    BestIndexIsBest(keys, Version(keys, kvno));
  }

  /** The i-th key is the first that is permitted and of version `v`. */
  predicate FirstOf(keys: seq<KeyData>, v: int, i: int) {
    && 0 <= i < |keys| && keys[i].permitted && keys[i].kvno == v
    && forall j :: 0 <= j < i ==> !(keys[j].permitted && keys[j].kvno == v)
  }

  /** A lookup of version 0 or -1 is of the highest version there is.  It gives the first permitted key of the
      version, and otherwise says whether there are keys of that version at all. */
  lemma {:induction false} FindKeyMeans(keys: seq<KeyData>, kvno: int)
    requires kvno >= -1
    ensures var r, v := FindKey(keys, kvno), if kvno <= 0 then MaxKvno(keys) else kvno;
            && (forall i :: FirstOf(keys, v, i) ==> r == Ok(keys[i]))
            && (r.Ok? ==> exists i :: FirstOf(keys, v, i) && r.value == keys[i])
            && (r == Err(KRB5_KDB_NO_MATCHING_KEY) <==> forall i :: 0 <= i < |keys| ==> keys[i].kvno != v)
            && (r == Err(KRB5_KDB_NO_PERMITTED_KEY) <==>
                && (exists i :: 0 <= i < |keys| && keys[i].kvno == v)
                && (forall i :: 0 <= i < |keys| && keys[i].kvno == v ==> !keys[i].permitted))
  {
    FindKeyIs(keys, kvno);
    var v := if kvno <= 0 then MaxKvno(keys) else kvno;
    assert Version(keys, kvno) == v;
    forall i
      ensures IsBest(keys, v, i) <==> FirstOf(keys, v, i)
    {
      hide BestIndex, MaxKvno;
    }
    hide BestIndex, MaxKvno;
    assert forall i :: 0 <= i < |keys| ==> (Matches(keys[i], v) <==> keys[i].kvno == v);
  }

  /** One of the keys is `key`. */
  predicate HoldsKey(keys: seq<KeyData>, key: Key) {
    exists i :: 0 <= i < |keys| && keys[i].key == Ok(key)
  }

  lemma FoundIsHeld(keys: seq<KeyData>, kvno: int)
    requires FindKey(keys, kvno).Ok? && FindKey(keys, kvno).value.key.Ok?
    ensures HoldsKey(keys, FindKey(keys, kvno).value.key.value)
  {
    FindKeyIs(keys, kvno);
    var i :| IsBest(keys, Version(keys, kvno), i) && keys[i] == FindKey(keys, kvno).value;
    assert keys[i].key.Ok?;
  }

  method HighestKvno(keys: seq<KeyData>) returns (kvno: nat)
    ensures kvno == MaxKvno(keys)
  {
    kvno := 0;
    for i := 0 to |keys|
      invariant kvno == MaxKvno(keys[..i])
    {
      assert keys[..i + 1][..i] == keys[..i];
      if kvno < keys[i].kvno {
        kvno := keys[i].kvno;
      }
    }
    assert keys[..|keys|] == keys;
  }

  method SearchEnctype(keys: seq<KeyData>, kvno: int) returns (r: Result<KeyData>)
    ensures r == FindKey(keys, kvno)
  {
    var wanted := kvno;
    if kvno == 0 || kvno == -1 {
      wanted := HighestKvno(keys);
    }
    var maxkvno: int, idx: int, sawNonPermitted := -1, -1, false;
    for i := 0 to |keys|
      invariant idx == BestIndex(keys[..i], wanted)
      invariant maxkvno == if idx == -1 then -1 else keys[idx].kvno
      invariant sawNonPermitted <==> exists j :: 0 <= j < i && Matches(keys[j], wanted) && !keys[j].permitted
    {
      assert keys[..i + 1][..i] == keys[..i];
      if wanted >= 0 && keys[i].kvno != wanted {
      } else if !keys[i].permitted {
        sawNonPermitted := true;
      } else if keys[i].kvno > maxkvno {
        maxkvno, idx := keys[i].kvno, i;
      }
    }
    assert keys[..|keys|] == keys;
    BestIndexIsBest(keys, wanted);
    if maxkvno >= 0 {
      r := Ok(keys[idx]);
    } else {
      r := Err(if sawNonPermitted then KRB5_KDB_NO_PERMITTED_KEY else KRB5_KDB_NO_MATCHING_KEY);
    }
  }

  /** Adding keys of other versions in front, as a rollover does, leaves a lookup by version unchanged. */
  lemma FindKeyAfterRollover(newer: seq<KeyData>, keys: seq<KeyData>, kvno: int)
    requires kvno >= 1
    requires forall i :: 0 <= i < |newer| ==> newer[i].kvno != kvno
    requires FindKey(keys, kvno).Ok?
    ensures FindKey(newer + keys, kvno) == FindKey(keys, kvno)
  {
    hide FindKey;
    FindKeyIs(keys, kvno);
    var i :| IsBest(keys, Version(keys, kvno), i) && keys[i] == FindKey(keys, kvno).value;
    BestAfterRollover(newer, keys, kvno, i);
    FindKeyIs(newer + keys, kvno);
  }

  lemma BestAfterRollover(newer: seq<KeyData>, keys: seq<KeyData>, kvno: int, i: int)
    requires kvno >= 1 && IsBest(keys, kvno, i)
    requires forall j :: 0 <= j < |newer| ==> newer[j].kvno != kvno
    ensures IsBest(newer + keys, kvno, |newer| + i) && (newer + keys)[|newer| + i] == keys[i]
  {
    var all := newer + keys;
    forall j | 0 <= j < |all| && Candidate(all[j], kvno)
      ensures |newer| <= j && keys[j - |newer|] == all[j]
    {
    }
  }
}
