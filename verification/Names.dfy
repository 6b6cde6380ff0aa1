/** Diameter identities and realms as octet strings: trimming, lower-casing, prefixes and suffixes. */
module Names {
  import opened Bytes

  const DOT: byte := 46
  const BAR: byte := 124     // the '|' between host and session in a forward key

  predicate IsSpace(b: byte) { 9 <= b <= 13 || b == 32 }

  function LowerByte(b: byte): byte { if 65 <= b <= 90 then b + 32 else b }

  function Lower(s: Text): (r: Text)
    ensures |r| == |s|
  {
    seq(|s|, i requires 0 <= i < |s| => LowerByte(s[i]))
  }

  function TrimLeft(s: Text): Text {
    if s != [] && IsSpace(s[0]) then TrimLeft(s[1..]) else s
  }

  function TrimRight(s: Text): Text {
    if s != [] && IsSpace(s[|s| - 1]) then TrimRight(s[..|s| - 1]) else s
  }

  function TrimSpace(s: Text): Text { TrimRight(TrimLeft(s)) }

  /** Strips one trailing dot, and only one. */
  function TrimDot(s: Text): Text {
    if s != [] && s[|s| - 1] == DOT then s[..|s| - 1] else s
  }

  /** The normal form topology hiding uses for keys. */
  function Normalize(s: Text): Text { Lower(TrimDot(TrimSpace(s))) }

  /** The normal form the edge registry uses: it does not trim spaces. */
  function NormalizeRealm(s: Text): Text { Lower(TrimDot(s)) }

  predicate NormalForm(s: Text) { Normalize(s) == s }

  predicate HasSuffix(s: Text, t: Text) { |t| <= |s| && s[|s| - |t|..] == t }

  // ---------------------------------------------------------------- letter case does not matter

  lemma {:induction false} TrimLeftOfLower(s: Text)
    ensures TrimLeft(Lower(s)) == Lower(TrimLeft(s))
  {
    if s != [] && IsSpace(s[0]) {
      TrimLeftOfLower(s[1..]);
      assert Lower(s)[1..] == Lower(s[1..]);
    }
  }

  lemma {:induction false} TrimRightOfLower(s: Text)
    ensures TrimRight(Lower(s)) == Lower(TrimRight(s))
  {
    if s != [] && IsSpace(s[|s| - 1]) {
      TrimRightOfLower(s[..|s| - 1]);
      assert Lower(s)[..|s| - 1] == Lower(s[..|s| - 1]);
    }
  }

  /** The same octet, or the same ASCII letter in the other case. */
  predicate SameLetter(x: byte, y: byte) {
    x == y || (65 <= x <= 90 && y == x + 32) || (97 <= x <= 122 && y == x - 32)
  }

  /** The same text but for the case of its letters. */
  predicate AnyCase(s: Text, t: Text) { |s| == |t| && forall i :: 0 <= i < |s| ==> SameLetter(s[i], t[i]) }

  /** Lower-casing turns A-Z into a-z and leaves the rest, so it identifies the spellings of one text. */
  lemma LowerExactly(s: Text, t: Text)
    ensures forall i :: 0 <= i < |s| ==> Lower(s)[i] == if 65 <= s[i] <= 90 then s[i] + 32 else s[i]
    ensures Lower(s) == Lower(t) <==> AnyCase(s, t)
  {
    if Lower(s) == Lower(t) {
      forall i | 0 <= i < |s|
        ensures SameLetter(s[i], t[i])
      {
        assert Lower(s)[i] == Lower(t)[i];
      }
    }
  }

  /** Two realms have the same key exactly when, less one final dot (46) each, they differ in letter case alone. */
  lemma RealmKeys(s: Text, t: Text)
    ensures var x := if s != [] && s[|s| - 1] == 46 then s[..|s| - 1] else s;
            var y := if t != [] && t[|t| - 1] == 46 then t[..|t| - 1] else t;
            NormalizeRealm(s) == NormalizeRealm(t) <==> AnyCase(x, y)
  {
    LowerExactly(TrimDot(s), TrimDot(t));
  }

  /** The octets 9 to 13 and 32. */
  predicate AllSpace(s: Text) { forall i :: 0 <= i < |s| ==> 9 <= s[i] <= 13 || s[i] == 32 }

  lemma {:induction false} TrimLeftIs(s: Text) returns (i: nat)
    ensures i <= |s| && TrimLeft(s) == s[i..] && AllSpace(s[..i])
    ensures i < |s| ==> !(9 <= s[i] <= 13) && s[i] != 32
  {
    i := 0;
    if s != [] && IsSpace(s[0]) {
      var j := TrimLeftIs(s[1..]);
      i := j + 1;
      assert s[..i] == [s[0]] + s[1..][..j];
    }
  }

  lemma AllSpaceNext(s: Text, b: byte)
    requires AllSpace(s) && IsSpace(b)
    ensures AllSpace(s + [b])
  {
  }

  lemma {:induction false} TrimRightIs(s: Text) returns (j: nat)
    ensures j <= |s| && TrimRight(s) == s[..j] && AllSpace(s[j..])
    ensures j > 0 ==> !(9 <= s[j - 1] <= 13) && s[j - 1] != 32
  {
    j := |s|;
    if s != [] && IsSpace(s[|s| - 1]) {
      var init, last := s[..|s| - 1], s[|s| - 1];
      j := TrimRightIs(init);
      assert init[..j] == s[..j];
      AllSpaceNext(init[j..], last);
      hide TrimRight, AllSpace;
      assert s[j..] == init[j..] + [last];
    }
  }

  /**
   * The normal form is what is left between the white space at both ends, less one final dot (46), in
   * lower case.
   */
  lemma NormalizeIs(s: Text) returns (i: nat, j: nat)
    ensures i <= j <= |s| && AllSpace(s[..i]) && AllSpace(s[j..])
    ensures i < j ==> !(9 <= s[i] <= 13) && s[i] != 32 && !(9 <= s[j - 1] <= 13) && s[j - 1] != 32
    ensures Normalize(s) == Lower(if i < j && s[j - 1] == 46 then s[i..j - 1] else s[i..j])
  {
    i := TrimLeftIs(s);
    var k := TrimRightIs(s[i..]);
    j := i + k;
    assert s[j..] == s[i..][k..] && s[i..j] == s[i..][..k];
  }

  /** Two spellings that differ only in letter case have the same normal form. */
  lemma NormalizeIgnoresCase(s: Text, t: Text)
    requires AnyCase(s, t)
    ensures Normalize(s) == Normalize(t)
  {
    LowerExactly(s, t);
    LowerFirst(s);
    LowerFirst(t);
  }

  lemma LowerFirst(s: Text)
    ensures Normalize(Lower(s)) == Normalize(s)
  {
    TrimLeftOfLower(s);
    TrimRightOfLower(TrimLeft(s));
    var u := TrimSpace(s);
    assert TrimSpace(Lower(s)) == Lower(u);
    assert TrimDot(Lower(u)) == Lower(TrimDot(u));
    assert Lower(Lower(TrimDot(u))) == Lower(TrimDot(u));
  }

  // ---------------------------------------------------------------- what normalising keeps out

  lemma {:induction false} TrimLeftPart(x: Text, b: byte)
    ensures b !in x ==> b !in TrimLeft(x)
  {
    if x != [] && IsSpace(x[0]) {
      TrimLeftPart(x[1..], b);
    }
  }

  lemma {:induction false} TrimRightPart(x: Text, b: byte)
    ensures b !in x ==> b !in TrimRight(x)
  {
    if x != [] && IsSpace(x[|x| - 1]) {
      TrimRightPart(x[..|x| - 1], b);
    }
  }

  lemma NormalizeAddsNoBar(x: Text)
    requires BAR !in x
    ensures BAR !in Normalize(x)
  {
    TrimLeftPart(x, BAR);
    TrimRightPart(TrimLeft(x), BAR);
    var y := TrimDot(TrimSpace(x));
    assert BAR !in y;
    forall i | 0 <= i < |y|
      ensures Lower(y)[i] != BAR
    {
      assert y[i] in y;
    }
  }

  lemma {:induction false} TrimRightFirst(x: Text)
    ensures TrimRight(x) == [] || TrimRight(x)[0] == x[0]
  {
    if x != [] && IsSpace(x[|x| - 1]) {
      TrimRightFirst(x[..|x| - 1]);
    }
  }

  lemma {:induction false} TrimLeftFirst(x: Text)
    ensures TrimLeft(x) == [] || !IsSpace(TrimLeft(x)[0])
  {
    if x != [] && IsSpace(x[0]) {
      TrimLeftFirst(x[1..]);
    }
  }

  lemma NormalizedStart(x: Text)
    ensures Normalize(x) == [] || !IsSpace(Normalize(x)[0])
    ensures Lower(Normalize(x)) == Normalize(x)
  {
    TrimLeftFirst(x);
    TrimRightFirst(TrimLeft(x));
  }

  /** A text without leading space, in lower case, is the normal form of itself with a dot behind it. */
  lemma DottedNormal(s: Text)
    requires (s == [] || !IsSpace(s[0])) && Lower(s) == s
    ensures Normalize(s + [DOT]) == s
  {
    assert TrimSpace(s + [DOT]) == s + [DOT];
    assert (s + [DOT])[..|s + [DOT]| - 1] == s;
  }
}
