/** Verifying an encrypted challenge: ec_verify (kdc_preauth_ec.c).  Section 5.4.6 of RFC 6113. */
module EncryptedChallenge {
  import opened KdcTypes
  import opened PadataCheck

  const ENOENT := 2

  /** What is in the challenge for a given client key: None if the challenge key derived from it does not decrypt
      the challenge, else the timestamp, or the code of decoding one. */
  type Opener = Key -> Option<Result<int>>

  datatype Challenge = Challenge(
    armored: bool, encData: Result<Opener>, clientKeys: Result<seq<Key>>, now: Result<int>, clockskew: int)

  function Abs(x: int): (a: int) {
    if x < 0 then -x else x
  }

  /** The timestamp read with the first client key that decrypts the challenge. */
  function FirstOpened(keys: seq<Key>, open: Opener): (r: Option<Result<int>>) {
    if keys == [] then None else if open(keys[0]).Some? then open(keys[0]) else FirstOpened(keys[1..], open)
  }

  /** The challenge is armored, decrypts under some client key, and holds a timestamp within the clock skew. */
  predicate Accepts(c: Challenge) {
    && c.armored && c.encData.Ok? && c.clientKeys.Ok?
    && var ts := FirstOpened(c.clientKeys.value, c.encData.value);
    && ts.Some? && ts.value.Ok? && c.now.Ok? && Abs(c.now.value - ts.value.value) < c.clockskew
  }

  /** Every error code the collaborators return is nonzero. */
  ghost predicate WellCoded(c: Challenge) {
    && (c.encData.Err? ==> c.encData.code != 0) && (c.clientKeys.Err? ==> c.clientKeys.code != 0)
    && (c.now.Err? ==> c.now.code != 0)
    && (c.encData.Ok? ==> forall k :: c.encData.value(k).Some? && c.encData.value(k).value.Err? ==>
                            c.encData.value(k).value.code != 0)
  }

  /** The i-th client key is the first that decrypts the challenge. */
  predicate OpensFirst(keys: seq<Key>, open: Opener, i: int) {
    0 <= i < |keys| && open(keys[i]).Some? && forall j :: 0 <= j < i ==> open(keys[j]).None?
  }

  lemma {:induction false} FirstOpenedIs(keys: seq<Key>, open: Opener)
    ensures FirstOpened(keys, open).None? <==> forall i :: 0 <= i < |keys| ==> open(keys[i]).None?
    ensures forall i :: OpensFirst(keys, open, i) ==> FirstOpened(keys, open) == open(keys[i])
    ensures FirstOpened(keys, open).Some? ==> exists i :: OpensFirst(keys, open, i)
  {
    if keys != [] {
      var rest := keys[1..];
      FirstOpenedIs(rest, open);
      assert forall i :: 1 <= i < |keys| ==> keys[i] == rest[i - 1];
      forall i | OpensFirst(keys, open, i)
        ensures FirstOpened(keys, open) == open(keys[i])
      {
        if i > 0 {
          assert open(keys[0]).None? && OpensFirst(rest, open, i - 1);
        }
      }
      if open(keys[0]).Some? {
        assert OpensFirst(keys, open, 0);
      } else if FirstOpened(rest, open).Some? {
        var i :| OpensFirst(rest, open, i);
        assert OpensFirst(keys, open, i + 1);
      }
    }
  }

  /** The i-th client key is the first that decrypts the challenge, and the timestamp in it is less than the clock skew
      before or after now. */
  predicate InTime(c: Challenge, i: int)
    requires c.encData.Ok? && c.clientKeys.Ok?
  {
    && OpensFirst(c.clientKeys.value, c.encData.value, i) && c.now.Ok?
    && var plain := c.encData.value(c.clientKeys.value[i]).value;
    && plain.Ok? && -c.clockskew < c.now.value - plain.value < c.clockskew
  }

  /** The same, but the timestamp is further away. */
  predicate OutOfTime(c: Challenge, i: int)
    requires c.encData.Ok? && c.clientKeys.Ok?
  {
    && OpensFirst(c.clientKeys.value, c.encData.value, i) && c.now.Ok?
    && var plain := c.encData.value(c.clientKeys.value[i]).value;
    && plain.Ok? && !(-c.clockskew < c.now.value - plain.value < c.clockskew)
  }

  lemma AcceptsMeans(c: Challenge)
    ensures Accepts(c) <==> c.armored && c.encData.Ok? && c.clientKeys.Ok? && exists i :: InTime(c, i)
  {
    if c.encData.Ok? && c.clientKeys.Ok? {
      FirstOpenedIs(c.clientKeys.value, c.encData.value);
      hide FirstOpened;
      if Accepts(c) {
        var i :| OpensFirst(c.clientKeys.value, c.encData.value, i);
        assert InTime(c, i);
      }
    }
  }

  // ec_verify: it succeeds exactly on acceptable challenges, and marks the ticket pre-authenticated exactly when
  // it succeeds.
  method EcVerify(c: Challenge) returns (o: Outcome)
    requires WellCoded(c)
    ensures o.code == 0 <==> Accepts(c)
    ensures o.code == 0 <==> c.armored && c.encData.Ok? && c.clientKeys.Ok? && exists i :: InTime(c, i)
    ensures !c.armored ==> o.code == ENOENT
    ensures c.armored && c.encData.Ok? && c.clientKeys.Ok?
            && (forall i :: 0 <= i < |c.clientKeys.value| ==> c.encData.value(c.clientKeys.value[i]).None?) ==>
              o.code == KRB5KDC_ERR_PREAUTH_FAILED
    ensures c.armored && c.encData.Ok? && c.clientKeys.Ok? && (exists i :: OutOfTime(c, i)) ==>
              o.code == KRB5KRB_AP_ERR_SKEW
    ensures o.flagsSet == if o.code == 0 then {PreAuth} else {}
    ensures o.eData.None? && o.authz == []
  {
    AcceptsMeans(c);
    if c.encData.Ok? && c.clientKeys.Ok? {
      FirstOpenedIs(c.clientKeys.value, c.encData.value);
    }
    hide InTime;
    var retval := 0;
    if !c.armored {
      retval := ENOENT;
    }
    if retval == 0 && c.encData.Err? {
      retval := c.encData.code;
    }
    if retval == 0 && c.clientKeys.Err? {
      retval := c.clientKeys.code;
    }
    var plain: Option<Result<int>> := None;
    if retval == 0 {
      var keys, open := c.clientKeys.value, c.encData.value;
      var i := 0;
      while i < |keys|
        invariant 0 <= i <= |keys| && plain.None?
        invariant FirstOpened(keys, open) == FirstOpened(keys[i..], open)
      {
        plain := open(keys[i]);
        if plain.Some? {
          break;
        }
        i := i + 1;
      }
      if i == |keys| {
        retval := KRB5KDC_ERR_PREAUTH_FAILED;
      }
    }
    var flagsSet := {};
    if retval == 0 {
      if plain.value.Err? {
        retval := plain.value.code;
      } else if c.now.Err? {
        retval := c.now.code;
      } else if Abs(c.now.value - plain.value.value) < c.clockskew {
        flagsSet := {PreAuth};
      } else {
        retval := KRB5KRB_AP_ERR_SKEW;
      }
    }
    o := Outcome(retval, None, [], flagsSet);
  }
}
