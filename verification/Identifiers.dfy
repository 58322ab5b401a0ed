/**
  The text checks components apply to identifiers and symbols. Letter case is ASCII.
 */
module Identifiers {

  /** Characters that Python's `str.strip` removes (ASCII and Latin-1). */
  predicate IsBlank(c: char) {
    var n := c as int;
    9 <= n <= 13 || 28 <= n <= 32 || n == 133 || n == 160
  }

  /** Non-empty, with nothing for `str.strip` to remove. */
  predicate NonBlank(s: string) {
    |s| > 0 && !IsBlank(s[0]) && !IsBlank(s[|s| - 1])
  }

  predicate NoLowerCase(s: string) {
    forall i :: 0 <= i < |s| ==> !('a' <= s[i] <= 'z')
  }

  /** A symbol where forbidden markers are not looked for. */
  predicate PlainSymbol(s: string) {
    NonBlank(s) && NoLowerCase(s)
  }

  function LowerChar(c: char): char {
    if 'A' <= c <= 'Z' then (c as int + 32) as char else c
  }

  function Lower(s: string): (r: string)
    ensures |r| == |s|
    ensures forall i :: 0 <= i < |s| ==> r[i] == LowerChar(s[i])
  {
    seq(|s|, i requires 0 <= i < |s| => LowerChar(s[i]))
  }

  const FORBIDDEN_MARKERS: seq<string> := [
    "account=", "account:", "api_key=", "api_key:", "authorization=", "authorization:",
    "password=", "password:", "private_key=", "private_key:", "secret=", "secret:",
    "submit order", "token=", "token:", "transmit order"]

  predicate ContainsAt(s: string, m: string, i: int) {
    0 <= i <= |s| - |m| && s[i..i + |m|] == m
  }

  predicate Contains(s: string, m: string) {
    exists i :: 0 <= i <= |s| && ContainsAt(s, m, i)
  }

  predicate HasForbiddenText(s: string) {
    exists k :: 0 <= k < |FORBIDDEN_MARKERS| && Contains(Lower(s), FORBIDDEN_MARKERS[k])
  }

  predicate ValidIdentifier(s: string) {
    NonBlank(s) && !HasForbiddenText(s)
  }

  predicate ValidSymbol(s: string) {
    ValidIdentifier(s) && NoLowerCase(s)
  }

  lemma OccurrenceHolds(text: string, term: string, i: int, j: nat)
    requires j < |term| && ContainsAt(text, term, i)
    ensures term[j] in text
  {
    assert text[i + j] == text[i..i + |term|][j];
  }

  lemma MissingCharacter(text: string, term: string, j: nat)
    requires j < |term| && term[j] !in text
    ensures !Contains(text, term)
  {
    if Contains(text, term) {
      var i :| ContainsAt(text, term, i);
      OccurrenceHolds(text, term, i, j);
    }
  }

  // ---------- texts of lower-case words ----------

  predicate LowerWord(s: string) {
    s != "" && forall i :: 0 <= i < |s| ==> 'a' <= s[i] <= 'z' || s[i] == '_'
  }

  /** Where each forbidden marker has the character no lower-case word has. */
  function MarkPlace(k: nat): int
    requires k < |FORBIDDEN_MARKERS|
  {
    if k == 12 then 6 else if k == 15 then 8 else |FORBIDDEN_MARKERS[k]| - 1
  }

  lemma MarkIsThere(k: nat)
    requires k < |FORBIDDEN_MARKERS|
    ensures 0 <= MarkPlace(k) < |FORBIDDEN_MARKERS[k]| && FORBIDDEN_MARKERS[k][MarkPlace(k)] in {'=', ':', ' '}
  {
  }

  /** Every forbidden marker has an equals sign, a colon or a space, so words of letters and underscores have none. */
  lemma LowerWordIsValid(s: string)
    requires LowerWord(s)
    ensures ValidIdentifier(s)
  {
    hide FORBIDDEN_MARKERS, MarkPlace, ContainsAt;
    forall k | 0 <= k < |FORBIDDEN_MARKERS| ensures !Contains(Lower(s), FORBIDDEN_MARKERS[k]) {
      MarkIsThere(k);
      MissingCharacter(Lower(s), FORBIDDEN_MARKERS[k], MarkPlace(k));
    }
  }

  // ---------- acknowledgement references ----------

  const ACKNOWLEDGEMENT_PREFIX := "paper-ack-"

  function LocalAcknowledgement(idempotencyKey: string): string {
    ACKNOWLEDGEMENT_PREFIX + idempotencyKey
  }

  lemma MarkersAreLongAndHyphenFree(k: nat)
    requires k < |FORBIDDEN_MARKERS|
    ensures |FORBIDDEN_MARKERS[k]| >= 6
    ensures '-' !in FORBIDDEN_MARKERS[k]
  {
  }

  lemma OccurrenceAvoidsHyphens(text: string, marker: string, i: int, hyphen: nat)
    requires ContainsAt(text, marker, i)
    requires hyphen < |text| && text[hyphen] == '-'
    requires '-' !in marker
    ensures hyphen < i || i + |marker| <= hyphen
  {
    assert forall h :: i <= h < i + |marker| ==> text[h] == marker[h - i];
  }

  predicate HyphenWithin(prefix: string, i: nat) {
    exists h :: i <= h < i + 6 && h < |prefix| && prefix[h] == '-'
  }

  /** Every position of the prefix is followed, within any marker's length, by one of its hyphens. */
  predicate HyphenGuarded(prefix: string) {
    forall i :: 0 <= i < |prefix| ==> HyphenWithin(prefix, i)
  }

  /** A marker found after a guarded prefix is joined to a text lies wholly inside the text. */
  lemma MarkerComesFromText(prefix: string, text: string, k: nat)
    requires HyphenGuarded(prefix)
    requires k < |FORBIDDEN_MARKERS|
    requires Contains(Lower(prefix + text), FORBIDDEN_MARKERS[k])
    ensures Contains(Lower(text), FORBIDDEN_MARKERS[k])
  {
    hide FORBIDDEN_MARKERS, ContainsAt;
    var all, m := Lower(prefix + text), FORBIDDEN_MARKERS[k];
    var i :| 0 <= i <= |all| && ContainsAt(all, m, i);
    OccurrenceIsLate(prefix, text, k, i);
    assert Lower(text) == all[|prefix|..];
    OccurrenceInTail(all, m, |prefix|, i);
  }

  lemma OccurrenceIsLate(prefix: string, text: string, k: nat, i: int)
    requires HyphenGuarded(prefix)
    requires k < |FORBIDDEN_MARKERS| && ContainsAt(Lower(prefix + text), FORBIDDEN_MARKERS[k], i)
    ensures i >= |prefix|
  {
    hide FORBIDDEN_MARKERS;
    var all, m := Lower(prefix + text), FORBIDDEN_MARKERS[k];
    MarkersAreLongAndHyphenFree(k);
    if i < |prefix| {
      assert HyphenWithin(prefix, i);
      var h :| i <= h < i + 6 && h < |prefix| && prefix[h] == '-';
      OccurrenceAvoidsHyphens(all, m, i, h);
    }
  }

  lemma OccurrenceInTail(all: string, m: string, n: nat, i: int)
    requires n <= i && n <= |all| && ContainsAt(all, m, i)
    ensures ContainsAt(all[n..], m, i - n)
  {
    assert all[n..][i - n..i - n + |m|] == all[i..i + |m|];
  }

  /** A marker inside a text is still there after a prefix is joined to it. */
  lemma MarkerSurvivesPrefix(prefix: string, text: string, k: nat)
    requires k < |FORBIDDEN_MARKERS|
    requires Contains(Lower(text), FORBIDDEN_MARKERS[k])
    ensures Contains(Lower(prefix + text), FORBIDDEN_MARKERS[k])
  {
    var all, m := Lower(prefix + text), FORBIDDEN_MARKERS[k];
    var j :| 0 <= j <= |Lower(text)| && ContainsAt(Lower(text), m, j);
    assert Lower(text) == all[|prefix|..];
    assert all[|prefix| + j..|prefix| + j + |m|] == Lower(text)[j..j + |m|];
    assert ContainsAt(all, m, |prefix| + j);
  }

  /**
    Joining a guarded prefix to a text neither assembles a forbidden marker across the seam nor hides
    one: the joined text is a valid identifier exactly when the text itself ends well and has no marker.
   */
  lemma PrefixedIdentifierIsValid(prefix: string, text: string)
    requires HyphenGuarded(prefix) && |prefix| > 0 && !IsBlank(prefix[0])
    requires |text| > 0 && !IsBlank(text[|text| - 1])
    ensures ValidIdentifier(prefix + text) <==> !HasForbiddenText(text)
  {
    forall k | 0 <= k < |FORBIDDEN_MARKERS|
      ensures Contains(Lower(prefix + text), FORBIDDEN_MARKERS[k]) <==> Contains(Lower(text), FORBIDDEN_MARKERS[k])
    {
      if Contains(Lower(prefix + text), FORBIDDEN_MARKERS[k]) {
        MarkerComesFromText(prefix, text, k);
      }
      if Contains(Lower(text), FORBIDDEN_MARKERS[k]) {
        MarkerSurvivesPrefix(prefix, text, k);
      }
    }
  }

  /** The acknowledgement reference derived from a valid key always passes the identifier check. */
  lemma AcknowledgementIsValidIdentifier(key: string)
    requires ValidIdentifier(key)
    ensures ValidIdentifier(LocalAcknowledgement(key))
  {
    assert ACKNOWLEDGEMENT_PREFIX[5] == '-' && ACKNOWLEDGEMENT_PREFIX[9] == '-';
    PrefixedIdentifierIsValid(ACKNOWLEDGEMENT_PREFIX, key);
  }
}
