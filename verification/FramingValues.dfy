/** Which header values count: legal lengths, the words the fold looks for, and the expectation of a request. */
module FramingValues {
  import opened Basics
  import opened Payload
  import opened Transfer
  import opened Decimal
  import opened Framing

  // ---------------------------------------------------------------- lengths

  /** One or more digits and nothing else, for a number that fits 64 bits (section 3.3.2 of RFC 7230). */
  predicate IsLength(v: Bytes, n: nat) {
    v != [] && (forall i :: 0 <= i < |v| ==> IsDigit(v[i])) && Number(v) == n < TWO_64
  }

  lemma NoBlankInFront(v: Bytes)
    requires v != [] && !IsBlank(v[0])
    ensures TrimStart(v) == v
  {}

  lemma PlainNumber(v: Bytes, n: nat)
    requires v == [] || v[0] != PLUS
    ensures ParseU64(v) == Some(n) <==> IsLength(v, n)
  {}

  /** A `Content-Length` is legal exactly if it is a length; a sign or a blank makes it illegal. */
  lemma LengthIff(v: Bytes, n: nat)
    ensures LengthOf(v) == Some(n) <==> IsLength(v, n)
  {
    if v == [] || v[0] != PLUS {
      PlainNumber(v, n);
      if IsLength(v, n) {
        assert IsDigit(v[0]);
        NoBlankInFront(v);
      }
    } else {
      NoBlankInFront(v);
      assert !IsDigit(v[0]);
    }
  }

  // ---------------------------------------------------------------- words

  /** The word, in letters of either case. */
  predicate Spells(v: Bytes, word: Bytes) {
    |v| == |word| && forall i :: 0 <= i < |v| ==> v[i] == word[i] || (65 <= v[i] <= 90 && v[i] + 32 == word[i])
  }

  /** The value is the word with blanks around it. */
  ghost predicate SpellsWithin(v: Bytes, word: Bytes, i: nat, j: nat) {
    && i <= j <= |v| && Spells(v[i..j], word)
    && (forall k :: 0 <= k < i ==> IsBlank(v[k])) && (forall k :: j <= k < |v| ==> IsBlank(v[k]))
  }

  /** Small letters and hyphens, at least one of them. */
  predicate IsWord(word: Bytes) {
    word != [] && forall i :: 0 <= i < |word| ==> 97 <= word[i] <= 122 || word[i] == 45
  }

  lemma SpellsIsSame(v: Bytes, word: Bytes)
    requires IsWord(word)
    ensures Spells(v, word) <==> EqIgnoreCase(v, word)
  {
    if EqIgnoreCase(v, word) {
      forall i | 0 <= i < |v| ensures v[i] == word[i] || (65 <= v[i] <= 90 && v[i] + 32 == word[i]) {
        assert Lower(v[i]) == Lower(word[i]);
      }
    }
  }

  lemma {:induction false} StartTrimmed(v: Bytes) returns (i: nat)
    ensures i <= |v| && TrimStart(v) == v[i..] && (forall k :: 0 <= k < i ==> IsBlank(v[k]))
    ensures i < |v| ==> !IsBlank(v[i])
  {
    i := 0;
    if v != [] && IsBlank(v[0]) {
      i := StartTrimmed(v[1..]);
      assert v[1..][i..] == v[i + 1..];
      assert forall k :: 0 < k < i + 1 ==> v[k] == v[1..][k - 1];
      i := i + 1;
    }
  }

  lemma {:induction false} EndTrimmed(v: Bytes) returns (j: nat)
    ensures j <= |v| && TrimEnd(v) == v[..j] && (forall k :: j <= k < |v| ==> IsBlank(v[k]))
    ensures j > 0 ==> !IsBlank(v[j - 1])
  {
    j := |v|;
    if v != [] && IsBlank(v[|v| - 1]) {
      j := EndTrimmed(v[..|v| - 1]);
      assert v[..|v| - 1][..j] == v[..j];
    }
  }

  /** What trimming leaves. */
  lemma BothTrimmed(v: Bytes) returns (i: nat, j: nat)
    ensures i <= j <= |v| && TrimEnd(TrimStart(v)) == v[i..j]
    ensures (forall k :: 0 <= k < i ==> IsBlank(v[k])) && (forall k :: j <= k < |v| ==> IsBlank(v[k]))
    ensures i < j ==> !IsBlank(v[i]) && !IsBlank(v[j - 1])
  {
    i := StartTrimmed(v);
    var rest := v[i..];
    var n := EndTrimmed(rest);
    j := i + n;
    assert rest[..n] == v[i..j];
    forall k | j <= k < |v| ensures IsBlank(v[k]) {
      assert v[k] == rest[k - i];
    }
    if i < j {
      assert rest[n - 1] == v[j - 1];
    }
  }

  /** A word has no blanks, so it fixes where it begins and ends. */
  lemma SpelledAt(v: Bytes, word: Bytes, i: nat, j: nat, a: nat, b: nat)
    requires IsWord(word) && SpellsWithin(v, word, a, b)
    requires i <= j <= |v|
    requires (forall k :: 0 <= k < i ==> IsBlank(v[k])) && (forall k :: j <= k < |v| ==> IsBlank(v[k]))
    requires i < j ==> !IsBlank(v[i]) && !IsBlank(v[j - 1])
    ensures i == a && j == b
  {
    var w := v[a..b];
    assert v[a] == w[0] && v[b - 1] == w[|w| - 1];
    assert !IsBlank(v[a]) && !IsBlank(v[b - 1]);
  }

  /** A value says a word exactly if it is that word in any case, with nothing but blanks around it. */
  lemma SaysIff(v: Bytes, word: Bytes)
    requires IsWord(word)
    ensures Says(v, word) <==> IsText(v) && exists i: nat, j: nat :: SpellsWithin(v, word, i, j)
  {
    var i, j := BothTrimmed(v);
    SpellsIsSame(v[i..j], word);
    if Says(v, word) {
      assert SpellsWithin(v, word, i, j);
    }
    if exists a: nat, b: nat :: SpellsWithin(v, word, a, b) {
      var a: nat, b: nat :| SpellsWithin(v, word, a, b);
      SpelledAt(v, word, i, j, a, b);
    }
  }

  /** The words the fold looks for. */
  lemma WordsOfTheFold()
    ensures IsWord(S_CHUNKED) && IsWord(S_IDENTITY) && IsWord(S_WEBSOCKET)
  {}

  // ---------------------------------------------------------------- the expectation

  predicate Expects(h: Header) {
    h.name == Expect && |h.value| >= 4 && h.value[..4] == [49, 48, 48, 45]
  }

  /** A head that is accepted expects an answer before its body exactly if one of its headers says so. */
  lemma {:induction false} ExpectsIff(version: Version, hs: seq<Header>)
    ensures var st := FoldHeaders(Fresh(version), hs);
      st.Some? ==> (st.value.expects <==> exists i :: 0 <= i < |hs| && Expects(hs[i]))
  {
    if hs != [] {
      var before, h := hs[..|hs| - 1], hs[|hs| - 1];
      ExpectsIff(version, before);
      assert forall i :: 0 <= i < |before| ==> before[i] == hs[i];
      var st := FoldHeaders(Fresh(version), before);
      if st.Some? && st.value.expects {
        var i :| 0 <= i < |before| && Expects(before[i]);
        assert Expects(hs[i]);
      }
    }
  }
}
