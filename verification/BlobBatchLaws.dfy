/** Which size texts the parser reads, and as what, told by their bytes. */
module BlobBatchLaws {
  import opened Foundations
  import opened BlobBatch

  predicate AllBlank(s: Bytes) {
    forall i :: 0 <= i < |s| ==> s[i] in {9, 10, 11, 12, 13, 32}
  }

  /** Digits, between which single underscores may stand. */
  predicate Digits(s: Bytes) {
    && s != [] && s[0] != 95 && s[|s| - 1] != 95
    && (forall i :: 0 <= i < |s| ==> IsDigit(s[i]) || s[i] == 95)
    && (forall i :: 0 < i < |s| ==> s[i - 1] != 95 || s[i] != 95)
  }

  lemma DigitsExactly(s: Bytes)
    ensures IsNumeral(s) <==> Digits(s)
  {
  }

  /** An optional sign and such digits. */
  predicate Signed(core: Bytes) {
    core != [] && if core[0] == 43 || core[0] == 45 then Digits(core[1..]) else Digits(core)
  }

  /** What a signed numeral stands for. */
  function Meaning(core: Bytes): int
    requires Signed(core)
  {
    if core[0] == 45 then -(ValueOf(core[1..]) as int) else if core[0] == 43 then ValueOf(core[1..]) else ValueOf(core)
  }

  /** The core stands in the text with only blanks around it. */
  ghost predicate Within(s: Bytes, core: Bytes) {
    exists i, j :: 0 <= i <= j <= |s| && AllBlank(s[..i]) && s[i..j] == core && AllBlank(s[j..])
  }

  lemma {:induction false} StripLeftCuts(s: Bytes) returns (i: nat)
    ensures i <= |s| && AllBlank(s[..i]) && StripLeft(s) == s[i..] && (i < |s| ==> !IsBlank(s[i]))
  {
    if s != [] && IsBlank(s[0]) {
      var k := StripLeftCuts(s[1..]);
      i := k + 1;
      assert s[..i] == [s[0]] + s[1..][..k] && s[i..] == s[1..][k..];
    } else {
      i := 0;
    }
  }

  lemma {:induction false} StripRightCuts(s: Bytes) returns (j: nat)
    ensures j <= |s| && AllBlank(s[j..]) && StripRight(s) == s[..j] && (j > 0 ==> !IsBlank(s[j - 1]))
  {
    if s != [] && IsBlank(s[|s| - 1]) {
      var front := s[..|s| - 1];
      j := StripRightCuts(front);
      assert s[j..] == front[j..] + [s[|s| - 1]] && s[..j] == front[..j];
    } else {
      j := |s|;
    }
  }

  /** The stripped text is the one core without blanks at its ends, if the text is not all blank. */
  lemma StrippedIsWithin(s: Bytes)
    ensures var t := StripRight(StripLeft(s));
            Within(s, t) && (t != [] ==> !IsBlank(t[0]) && !IsBlank(t[|t| - 1]))
  {
    var i := StripLeftCuts(s);
    var rest := s[i..];
    var j := StripRightCuts(rest);
    assert s[i..i + j] == rest[..j] && s[i + j..] == rest[j..];
    if j > 0 {
      assert rest[0] == s[i] && rest[..j][0] == rest[0] && rest[..j][j - 1] == rest[j - 1];
    }
  }

  lemma BlanksAround(s: Bytes, i: nat, j: nat)
    requires i <= j <= |s| && AllBlank(s[..i]) && AllBlank(s[j..])
    ensures forall m :: 0 <= m < i || j <= m < |s| ==> IsBlank(s[m])
  {
    forall m | 0 <= m < i || j <= m < |s| ensures IsBlank(s[m]) {
      if m < i {
        assert s[..i][m] == s[m];
      } else {
        assert s[j..][m - j] == s[m];
      }
    }
  }

  /** The core's place: it is that part, its ends are not blank, and everything outside is. */
  ghost predicate CutAt(s: Bytes, core: Bytes, i: int, j: int) {
    && 0 <= i < j <= |s| && s[i..j] == core && !IsBlank(s[i]) && !IsBlank(s[j - 1])
    && forall m :: 0 <= m < i || j <= m < |s| ==> IsBlank(s[m])
  }

  lemma WithinIsCut(s: Bytes, core: Bytes) returns (i: int, j: int)
    requires Within(s, core) && core != [] && !IsBlank(core[0]) && !IsBlank(core[|core| - 1])
    ensures CutAt(s, core, i, j)
  {
    hide IsBlank, AllBlank;
    i, j :| 0 <= i <= j <= |s| && AllBlank(s[..i]) && s[i..j] == core && AllBlank(s[j..]);
    BlanksAround(s, i, j);
    assert core[0] == s[i] && core[|core| - 1] == s[j - 1];
  }

  lemma CutsAgree(s: Bytes, a: Bytes, b: Bytes, i: int, j: int, k: int, l: int)
    requires CutAt(s, a, i, j) && CutAt(s, b, k, l)
    ensures a == b
  {
    hide IsBlank;
    assert i == k && j == l;
  }

  lemma CoresAgree(s: Bytes, a: Bytes, b: Bytes)
    requires Within(s, a) && Within(s, b) && a != [] && b != []
    requires !IsBlank(a[0]) && !IsBlank(a[|a| - 1]) && !IsBlank(b[0]) && !IsBlank(b[|b| - 1])
    ensures a == b
  {
    hide Within, CutAt, IsBlank;
    var i, j := WithinIsCut(s, a);
    var k, l := WithinIsCut(s, b);
    CutsAgree(s, a, b, i, j, k, l);
  }

  lemma SignedHasNoBlankEnds(core: Bytes)
    requires Signed(core)
    ensures core != [] && !IsBlank(core[0]) && !IsBlank(core[|core| - 1])
  {
  }

  /** A size is read exactly when it is a signed numeral between blanks, and as what that stands for. */
  lemma SizeIsReadExactly(s: Bytes)
    ensures ParseInt(s).Some? <==> exists core :: Signed(core) && Within(s, core)
    ensures forall core :: Signed(core) && Within(s, core) ==> ParseInt(s) == Some(Meaning(core))
  {
    var t := StripRight(StripLeft(s));
    StrippedIsWithin(s);
    hide Within, StripLeft, StripRight;
    DigitsExactly(t);
    if t != [] {
      DigitsExactly(t[1..]);
    }
    hide IsNumeral, Digits;
    forall core | Signed(core) && Within(s, core) ensures t == core {
      SignedHasNoBlankEnds(core);
      if t == [] {
        BlankHasNoCore(s, core);
      } else {
        CoresAgree(s, t, core);
      }
    }
  }

  lemma BlankHasNoCore(s: Bytes, core: Bytes)
    requires Within(s, []) && Within(s, core) && core != []
    ensures IsBlank(core[0])
  {
    hide IsBlank, AllBlank;
    var k, l :| 0 <= k <= l <= |s| && AllBlank(s[..k]) && s[k..l] == [] && AllBlank(s[l..]);
    BlanksAround(s, k, l);
    var i, j :| 0 <= i <= j <= |s| && AllBlank(s[..i]) && s[i..j] == core && AllBlank(s[j..]);
    assert core[0] == s[i];
  }

  /** Underscores do not change what the digits mean. */
  lemma {:induction false} UnderscoresAreIgnored(a: Bytes, b: Bytes)
    requires forall i :: 0 <= i < |a| ==> IsDigit(a[i]) || a[i] == UNDERSCORE
    requires forall i :: 0 <= i < |b| ==> IsDigit(b[i]) || b[i] == UNDERSCORE
    ensures ValueOf(a + [UNDERSCORE] + b) == ValueOf(a + b)
  {
    if b == [] {
      assert (a + [UNDERSCORE] + b)[..|a|] == a && a + b == a;
    } else {
      var front := b[..|b| - 1];
      assert (a + [UNDERSCORE] + b)[..|a| + |b|] == a + [UNDERSCORE] + front && (a + b)[..|a + b| - 1] == a + front;
      UnderscoresAreIgnored(a, front);
    }
  }
}
