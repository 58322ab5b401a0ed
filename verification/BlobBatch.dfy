/** Reading the output of a batch of length-prefixed blobs: "id blob size", the content, a newline. */
module BlobBatch {
  import opened Foundations

  newtype byte = x: int | 0 <= x < 256

  type Bytes = seq<byte>

  const NEWLINE: byte := 10
  const SPACE: byte := 32
  const BLOB: Bytes := [98, 108, 111, 98]

  // ---------- the string operations the parser relies on ----------

  /** A Python slice bound: negative bounds count from the end, and both ends are clipped. */
  function Bound(n: nat, i: int): (r: nat)
    ensures r <= n
    ensures 0 <= i <= n ==> r == i
  {
    if i < 0 then if i + n < 0 then 0 else i + n
    else if i > n then n else i
  }

  /** The Python slice `s[a:b]`. */
  function Slice(s: Bytes, a: int, b: int): (r: Bytes)
    ensures 0 <= a <= b <= |s| ==> r == s[a..b]
  {
    var from, to := Bound(|s|, a), Bound(|s|, b);
    if from <= to then s[from..to] else []
  }

  /** The first newline at or after a Python start bound, or -1. */
  function FindNewline(s: Bytes, start: int): (r: int)
    ensures -1 <= r < |s|
    ensures r >= 0 ==> s[r] == NEWLINE && r >= Bound(|s|, start) && start <= |s|
    ensures r >= 0 ==> forall i :: Bound(|s|, start) <= i < r ==> s[i] != NEWLINE
    ensures r == -1 && start <= |s| ==> forall i :: Bound(|s|, start) <= i < |s| ==> s[i] != NEWLINE
  {
    if start > |s| then -1 else ScanNewline(s, Bound(|s|, start))
  }

  function ScanNewline(s: Bytes, i: nat): (r: int)
    requires i <= |s|
    ensures -1 <= r < |s|
    ensures r >= 0 ==> s[r] == NEWLINE && r >= i && forall k :: i <= k < r ==> s[k] != NEWLINE
    ensures r == -1 ==> forall k :: i <= k < |s| ==> s[k] != NEWLINE
    decreases |s| - i
  {
    if i == |s| then -1 else if s[i] == NEWLINE then i else ScanNewline(s, i + 1)
  }

  /** The pieces between single spaces, as `split(" ")` gives them. */
  function Split(s: Bytes): (r: seq<Bytes>)
    ensures |r| >= 1
  {
    if s == [] then [[]]
    else if s[0] == SPACE then [[]] + Split(s[1..])
    else var rest := Split(s[1..]); [[s[0]] + rest[0]] + rest[1..]
  }

  predicate IsAscii(s: Bytes) {
    forall i :: 0 <= i < |s| ==> s[i] < 128
  }

  predicate IsDigit(b: byte) {
    48 <= b <= 57
  }

  /** The blanks that `int` strips around an ASCII numeral. */
  predicate IsBlank(b: byte) {
    9 <= b <= 13 || b == 32
  }

  function StripLeft(s: Bytes): Bytes {
    if s != [] && IsBlank(s[0]) then StripLeft(s[1..]) else s
  }

  function StripRight(s: Bytes): Bytes {
    if s != [] && IsBlank(s[|s| - 1]) then StripRight(s[..|s| - 1]) else s
  }

  const UNDERSCORE: byte := 95

  /** Digits, with single underscores allowed between them. */
  predicate IsNumeral(s: Bytes) {
    && s != [] && IsDigit(s[0]) && IsDigit(s[|s| - 1])
    && (forall i :: 0 <= i < |s| ==> IsDigit(s[i]) || s[i] == UNDERSCORE)
    && (forall i :: 0 < i < |s| ==> IsDigit(s[i]) || IsDigit(s[i - 1]))
  }

  function ValueOf(s: Bytes): nat
    requires forall i :: 0 <= i < |s| ==> IsDigit(s[i]) || s[i] == UNDERSCORE
  {
    if s == [] then 0
    else if IsDigit(s[|s| - 1]) then 10 * ValueOf(s[..|s| - 1]) + (s[|s| - 1] as int - 48)
    else ValueOf(s[..|s| - 1])
  }

  function Negated(n: int): int {
    -n
  }

  /** Python's `int(text)`: blanks around, an optional sign, and a numeral; `None` where it raises. */
  function ParseInt(s: Bytes): Option<int> {
    var t := StripRight(StripLeft(s));
    if t == [] then None
    else if t[0] == 45 then (if IsNumeral(t[1..]) then Some(Negated(ValueOf(t[1..]))) else None)
    else if t[0] == 43 then (if IsNumeral(t[1..]) then Some(ValueOf(t[1..])) else None)
    else if IsNumeral(t) then Some(ValueOf(t)) else None
  }

  // ---------- the parser ----------

  datatype BatchError = IncompleteHeader | NotAscii | UnexpectedObject | InvalidSize | IncompleteContent | TrailingContent

  /** One object: its content, and where the next header starts. */
  function ReadObject(output: Bytes, cursor: int, expected: Bytes): Result<(Bytes, int), BatchError> {
    var headerEnd := FindNewline(output, cursor);
    if headerEnd < 0 then Err(IncompleteHeader) else
    var text := Slice(output, cursor, headerEnd);
    if !IsAscii(text) then Err(NotAscii) else
    var header := Split(text);
    if |header| != 3 || header[0] != expected || header[1] != BLOB then Err(UnexpectedObject) else
    var size := ParseInt(header[2]);
    if size.None? then Err(InvalidSize) else
    var contentStart := headerEnd + 1;
    var contentEnd := contentStart + size.value;
    if contentEnd >= |output| || Slice(output, contentEnd, contentEnd + 1) != [NEWLINE] then Err(IncompleteContent)
    else Ok((Slice(output, contentStart, contentEnd), contentEnd + 1))
  }

  function ReadFrom(output: Bytes, cursor: int, ids: seq<Bytes>): Result<seq<Bytes>, BatchError>
    decreases ids
  {
    if ids == [] then
      if cursor != |output| then Err(TrailingContent) else Ok([])
    else
      var first := ReadObject(output, cursor, ids[0]);
      if first.Err? then Err(first.error) else
      var rest := ReadFrom(output, first.value.1, ids[1..]);
      After([first.value.0], rest)
  }

  /** A result preceded by contents already read. */
  function After(contents: seq<Bytes>, rest: Result<seq<Bytes>, BatchError>): Result<seq<Bytes>, BatchError> {
    if rest.Err? then rest else Ok(contents + rest.value)
  }

  lemma AfterStep(output: Bytes, cursor: int, ids: seq<Bytes>, contents: seq<Bytes>)
    requires ids != [] && ReadObject(output, cursor, ids[0]).Ok?
    ensures var (content, next) := ReadObject(output, cursor, ids[0]).value;
            After(contents, ReadFrom(output, cursor, ids)) == After(contents + [content], ReadFrom(output, next, ids[1..]))
  {
    hide ReadObject;
    var (content, next) := ReadObject(output, cursor, ids[0]).value;
    var rest := ReadFrom(output, next, ids[1..]);
    if rest.Ok? {
      assert contents + ([content] + rest.value) == contents + [content] + rest.value;
    }
  }

  /** Reads one object the way the loop body does. */
  method ReadNext(output: Bytes, cursor: int, expected: Bytes) returns (r: Result<(Bytes, int), BatchError>)
    ensures r == ReadObject(output, cursor, expected)
  {
    var headerEnd := FindNewline(output, cursor);
    if headerEnd < 0 {
      return Err(IncompleteHeader);
    }
    var text := Slice(output, cursor, headerEnd);
    if !IsAscii(text) {
      return Err(NotAscii);
    }
    var header := Split(text);
    if |header| != 3 || header[0] != expected || header[1] != BLOB {
      return Err(UnexpectedObject);
    }
    var size := ParseInt(header[2]);
    if size.None? {
      return Err(InvalidSize);
    }
    var contentStart := headerEnd + 1;
    var contentEnd := contentStart + size.value;
    if contentEnd >= |output| || Slice(output, contentEnd, contentEnd + 1) != [NEWLINE] {
      return Err(IncompleteContent);
    }
    return Ok((Slice(output, contentStart, contentEnd), contentEnd + 1));
  }

  method GitBlobBatch(output: Bytes, ids: seq<Bytes>) returns (r: Result<seq<Bytes>, BatchError>)
    ensures r == ReadFrom(output, 0, ids)
  {
    hide ReadObject;
    var cursor := 0;
    var contents: seq<Bytes> := [];
    ghost var whole := ReadFrom(output, 0, ids);
    assert ids[0..] == ids && (whole.Ok? ==> [] + whole.value == whole.value);
    for i := 0 to |ids|
      invariant whole == After(contents, ReadFrom(output, cursor, ids[i..]))
    {
      assert ids[i..][0] == ids[i] && ids[i..][1..] == ids[i + 1..];
      var next := ReadNext(output, cursor, ids[i]);
      if next.Err? {
        return Err(next.error);
      }
      AfterStep(output, cursor, ids[i..], contents);
      contents := contents + [next.value.0];
      cursor := next.value.1;
    }
    if cursor != |output| {
      return Err(TrailingContent);
    }
    assert contents + [] == contents;
    return Ok(contents);
  }

  // ---------- the printer ----------

  function Decimal(n: nat): (r: Bytes)
    ensures r != [] && forall i :: 0 <= i < |r| ==> IsDigit(r[i])
    ensures n > 0 ==> r[0] != 48
  {
    var digit := [(48 + n % 10) as byte];
    if n < 10 then digit else Decimal(n / 10) + digit
  }

  function Header(id: Bytes, size: Bytes): Bytes {
    id + [SPACE] + BLOB + [SPACE] + size
  }

  function Frame(id: Bytes, content: Bytes): Bytes {
    Header(id, Decimal(|content|)) + [NEWLINE] + content + [NEWLINE]
  }

  function Print(ids: seq<Bytes>, contents: seq<Bytes>): Bytes
    requires |ids| == |contents|
  {
    if ids == [] then [] else Frame(ids[0], contents[0]) + Print(ids[1..], contents[1..])
  }

  /** Object ids as the repository writes them: ASCII, without spaces or newlines. */
  ghost predicate CleanId(id: Bytes) {
    forall i :: 0 <= i < |id| ==> id[i] < 128 && id[i] != SPACE && id[i] != NEWLINE
  }

  ghost predicate CleanIds(ids: seq<Bytes>) {
    forall k :: 0 <= k < |ids| ==> CleanId(ids[k])
  }

  /** A size written as a decimal without sign, blanks, underscores or leading zeros. */
  predicate IsCanonical(s: Bytes) {
    && s != [] && (forall i :: 0 <= i < |s| ==> IsDigit(s[i])) && (s[0] == 48 ==> |s| == 1)
  }

  /** Every size field the parser meets is canonical. */
  predicate SizesCanonical(output: Bytes, cursor: int, ids: seq<Bytes>)
    decreases ids
  {
    if ids == [] then true else
    var entry := ReadObject(output, cursor, ids[0]);
    && entry.Ok?
    && IsCanonical(Split(Slice(output, cursor, FindNewline(output, cursor)))[2])
    && SizesCanonical(output, entry.value.1, ids[1..])
  }
}
