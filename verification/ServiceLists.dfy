/** Membership in a list of service names separated by white space and commas (in_list in do_tgs_req.c), which decides
    for which services a referral may be given. */
module ServiceLists {
  import opened KdcTypes

  /** White space of the C locale, or a comma. */
  predicate IsSeparator(c: char) {
    c == ' ' || c == '\t' || c == '\n' || c == '\U{0B}' || c == '\U{0C}' || c == '\r' || c == ','
  }

  predicate OccursAt(s: string, item: string, i: nat) {
    i + |item| <= |s| && s[i..i + |item|] == item
  }

  predicate Bounded(s: string, item: string, i: nat) {
    && OccursAt(s, item, i)
    && (i == 0 || IsSeparator(s[i - 1]))
    && (i + |item| == |s| || IsSeparator(s[i + |item|]))
  }

  ghost predicate Listed(s: string, item: string) {
    exists i: nat :: Bounded(s, item, i)
  }

  /** The first occurrence at or after `start`. */
  method StrStr(s: string, start: nat, item: string) returns (r: Option<nat>)
    requires start <= |s|
    ensures r.Some? ==> start <= r.value && OccursAt(s, item, r.value)
    ensures forall i: nat :: start <= i && (r.Some? ==> i < r.value) ==> !OccursAt(s, item, i)
  {
    var i := start;
    while i + |item| <= |s|
      invariant start <= i
      invariant forall j: nat :: start <= j < i ==> !OccursAt(s, item, j)
    {
      if s[i..i + |item|] == item {
        return Some(i);
      }
      i := i + 1;
    }
    r := None;
  }

  /** For an empty item the scan visits every position and, if it does not succeed, goes past the end of the list. */
  method InList(list: Option<string>, item: string) returns (found: bool)
    requires item == "" && list.Some? ==> Listed(list.value, item)
    ensures found <==> list.Some? && Listed(list.value, item)
  {
    if list.None? {
      return false;
    }
    var s, len := list.value, |item|;
    var p := StrStr(s, 0, item);
    while p.Some?
      invariant p.Some? ==> OccursAt(s, item, p.value)
      invariant forall i: nat :: (p.Some? ==> i < p.value) ==> !Bounded(s, item, i)
      decreases if p.Some? then |s| - p.value else -1
    {
      var i := p.value;
      if (i == 0 || IsSeparator(s[i - 1])) && (i + len == |s| || IsSeparator(s[i + len])) {
        assert Bounded(s, item, i);
        return true;
      }
      p := StrStr(s, i + 1, item);
    }
    found := false;
  }

  // The tokens of a list, and their agreement with the scan above.

  function WordLength(s: string): (n: nat)
    ensures n <= |s| && (n == |s| || IsSeparator(s[n]))
    ensures forall i :: 0 <= i < n ==> !IsSeparator(s[i])
    ensures s != "" && !IsSeparator(s[0]) ==> n > 0
  {
    if s == "" || IsSeparator(s[0]) then 0 else 1 + WordLength(s[1..])
  }

  function Tokens(s: string): (words: seq<string>)
    decreases |s|
  {
    if s == "" then []
    else if IsSeparator(s[0]) then Tokens(s[1..])
    else [s[..WordLength(s)]] + Tokens(s[WordLength(s)..])
  }

  predicate IsWord(item: string) {
    item != "" && forall i :: 0 <= i < |item| ==> !IsSeparator(item[i])
  }

  lemma {:induction false} TokensAreWords(s: string)
    ensures forall w :: w in Tokens(s) ==> IsWord(w)
    decreases |s|
  {
    if s != "" {
      if IsSeparator(s[0]) {
        TokensAreWords(s[1..]);
      } else {
        TokensAreWords(s[WordLength(s)..]);
      }
    }
  }

  lemma Shift(s: string, n: nat, item: string, i: nat)
    requires n <= i && n <= |s|
    ensures OccursAt(s, item, i) <==> OccursAt(s[n..], item, i - n)
  {
    if i + |item| <= |s| {
      assert s[i..i + |item|] == s[n..][i - n..i - n + |item|];
    }
  }

  /** A name with no separator in it occurs where there is none. */
  lemma StartsWord(s: string, item: string, i: nat)
    requires IsWord(item) && OccursAt(s, item, i)
    ensures i < |s| && !IsSeparator(s[i])
  {
    assert s[i..i + |item|][0] == item[0];
  }

  lemma AfterSeparator(s: string, item: string, i: nat)
    requires IsWord(item) && s != "" && IsSeparator(s[0])
    ensures !Bounded(s, item, 0)
    ensures i > 0 ==> (Bounded(s, item, i) <==> Bounded(s[1..], item, i - 1))
  {
    hide IsSeparator;
    if OccursAt(s, item, 0) {
      StartsWord(s, item, 0);
    }
    if 0 < i {
      Shift(s, 1, item, i);
    }
  }

  lemma AtWord(s: string, item: string)
    requires IsWord(item) && s != "" && !IsSeparator(s[0])
    ensures Bounded(s, item, 0) <==> item == s[..WordLength(s)]
  {
    hide IsSeparator;
    if Bounded(s, item, 0) {
      assert s[0..0 + |item|] == s[..|item|] == item;
      assert forall k :: 0 <= k < |item| ==> s[k] == item[k];
    }
  }

  lemma AfterWord(s: string, item: string, i: nat)
    requires IsWord(item) && s != "" && !IsSeparator(s[0])
    ensures 0 < i <= WordLength(s) ==> !Bounded(s, item, i)
    ensures !Bounded(s[WordLength(s)..], item, 0)
    ensures i > WordLength(s) ==> (Bounded(s, item, i) <==> Bounded(s[WordLength(s)..], item, i - WordLength(s)))
  {
    hide IsSeparator, WordLength;
    var n := WordLength(s);
    if OccursAt(s[n..], item, 0) {
      StartsWord(s[n..], item, 0);
    }
    if n < i {
      Shift(s, n, item, i);
    }
  }

  /** A name without separators is found exactly when it is one of the tokens of the list. */
  lemma {:induction false} ListedIsToken(s: string, item: string)
    requires IsWord(item)
    ensures Listed(s, item) <==> item in Tokens(s)
    decreases |s|
  {
    if s != "" {
      hide Bounded, IsSeparator, WordLength, IsWord;
      if IsSeparator(s[0]) {
        ListedIsToken(s[1..], item);
        forall i: nat
          ensures !Bounded(s, item, 0) && (i > 0 ==> (Bounded(s, item, i) <==> Bounded(s[1..], item, i - 1)))
        {
          AfterSeparator(s, item, i);
        }
        if j: nat :| Bounded(s[1..], item, j) {
          assert Bounded(s, item, j + 1);
        }
      } else {
        var n := WordLength(s);
        ListedIsToken(s[n..], item);
        AtWord(s, item);
        forall i: nat
          ensures (0 < i <= n ==> !Bounded(s, item, i)) && !Bounded(s[n..], item, 0)
          ensures i > n ==> (Bounded(s, item, i) <==> Bounded(s[n..], item, i - n))
        {
          AfterWord(s, item, i);
        }
        if j: nat :| Bounded(s[n..], item, j) {
          assert Bounded(s, item, j + n);
        }
      }
    }
  }

  /** For any other name the two differ on some list: the one that is the name itself. */
  lemma OtherNamesDiffer(item: string)
    requires item != "" && !IsWord(item)
    ensures Listed(item, item) && item !in Tokens(item)
  {
    assert Bounded(item, item, 0);
    TokensAreWords(item);
  }
}
