/** The batch parser inverts its printer, and accepts nothing else in canonical form. */
module BlobBatchRoundTrip {
  import opened Foundations
  import opened BlobBatch

  // ---------- splitting ----------

  predicate NoSpace(s: Bytes) {
    forall i :: 0 <= i < |s| ==> s[i] != SPACE
  }

  lemma {:induction false} SplitPlain(s: Bytes)
    requires NoSpace(s)
    ensures Split(s) == [s]
  {
    if s != [] {
      SplitPlain(s[1..]);
      assert [s[0]] + s[1..] == s;
    }
  }

  lemma {:induction false} SplitAtSpace(a: Bytes, rest: Bytes)
    requires NoSpace(a)
    ensures Split(a + [SPACE] + rest) == [a] + Split(rest)
  {
    var all := a + [SPACE] + rest;
    if a == [] {
      assert all[1..] == rest;
    } else {
      assert all[1..] == a[1..] + [SPACE] + rest;
      SplitAtSpace(a[1..], rest);
      assert [a[0]] + a[1..] == a;
    }
  }

  lemma SplitHeader(id: Bytes, size: Bytes)
    requires CleanId(id) && NoSpace(size)
    ensures Split(Header(id, size)) == [id, BLOB, size]
  {
    assert Header(id, size) == id + [SPACE] + (BLOB + [SPACE] + size);
    SplitAtSpace(id, BLOB + [SPACE] + size);
    SplitAtSpace(BLOB, size);
    SplitPlain(size);
  }

  function Join(parts: seq<Bytes>): Bytes
    requires |parts| >= 1
  {
    if |parts| == 1 then parts[0] else parts[0] + [SPACE] + Join(parts[1..])
  }

  lemma SplitAtFront(s: Bytes)
    requires s != [] && s[0] == SPACE
    ensures Split(s) == [[]] + Split(s[1..])
  {
  }

  lemma SplitWithin(s: Bytes)
    requires s != [] && s[0] != SPACE
    ensures Split(s) == [[s[0]] + Split(s[1..])[0]] + Split(s[1..])[1..]
  {
  }

  lemma JoinCons(first: Bytes, rest: seq<Bytes>)
    requires |rest| >= 1
    ensures Join([first] + rest) == first + [SPACE] + Join(rest)
  {
    assert ([first] + rest)[1..] == rest;
  }

  lemma Regroup(b: byte, first: Bytes, tail: Bytes)
    ensures [b] + first + [SPACE] + tail == [b] + (first + [SPACE] + tail)
  {
  }

  lemma JoinGrows(b: byte, first: Bytes, rest: seq<Bytes>)
    ensures Join([[b] + first] + rest) == [b] + Join([first] + rest)
  {
    if rest == [] {
      assert [[b] + first] + rest == [[b] + first] && [first] + rest == [first];
    } else {
      JoinCons(first, rest);
      JoinCons([b] + first, rest);
      Regroup(b, first, Join(rest));
    }
  }

  lemma {:induction false} JoinSplit(s: Bytes)
    ensures Join(Split(s)) == s
  {
    if s != [] {
      var rest := Split(s[1..]);
      JoinSplit(s[1..]);
      assert s == [s[0]] + s[1..];
      hide Split;
      if s[0] == SPACE {
        SplitAtFront(s);
        JoinCons([], rest);
        assert [] + [SPACE] + s[1..] == s;
      } else {
        SplitWithin(s);
        JoinGrows(s[0], rest[0], rest[1..]);
        assert rest == [rest[0]] + rest[1..];
      }
    }
  }

  lemma SplitInThree(s: Bytes, a: Bytes, b: Bytes, c: Bytes)
    requires Split(s) == [a, b, c]
    ensures s == a + [SPACE] + b + [SPACE] + c
  {
    JoinSplit(s);
    assert [a, b, c][1..] == [b, c] && [b, c][1..] == [c];
    assert Join([b, c]) == b + [SPACE] + Join([c]);
    assert a + [SPACE] + (b + [SPACE] + c) == a + [SPACE] + b + [SPACE] + c;
  }

  // ---------- sizes ----------

  predicate AllDigits(s: Bytes) {
    forall i :: 0 <= i < |s| ==> IsDigit(s[i])
  }

  lemma DigitsParse(s: Bytes)
    requires s != [] && AllDigits(s)
    ensures ParseInt(s) == Some(ValueOf(s))
  {
    assert IsDigit(s[0]) && IsDigit(s[|s| - 1]);
    assert StripLeft(s) == s && StripRight(s) == s;
  }

  lemma {:induction false} DecimalValue(n: nat)
    ensures ValueOf(Decimal(n)) == n
  {
    var text := Decimal(n);
    if n >= 10 {
      DecimalValue(n / 10);
      assert text[..|text| - 1] == Decimal(n / 10);
    } else {
      assert text[..|text| - 1] == [];
    }
  }

  lemma DecimalIsCanonical(n: nat)
    ensures IsCanonical(Decimal(n)) && ParseInt(Decimal(n)) == Some(n)
  {
    DigitsParse(Decimal(n));
    DecimalValue(n);
  }

  lemma {:induction false} CanonicalIsPositive(s: Bytes)
    requires s != [] && AllDigits(s) && s[0] != 48
    ensures ValueOf(s) >= 1
  {
    if |s| > 1 {
      CanonicalIsPositive(s[..|s| - 1]);
    }
  }

  lemma {:induction false} CanonicalIsDecimal(s: Bytes)
    requires IsCanonical(s)
    ensures ParseInt(s) == Some(ValueOf(s)) && Decimal(ValueOf(s)) == s
  {
    DigitsParse(s);
    var front, last := s[..|s| - 1], s[|s| - 1];
    assert s == front + [last];
    if |s| > 1 {
      CanonicalIsDecimal(front);
      CanonicalIsPositive(front);
      assert ValueOf(s) / 10 == ValueOf(front) && ValueOf(s) % 10 == last as int - 48;
    }
  }

  // ---------- reading back what was printed ----------

  lemma HeaderIsClean(id: Bytes, size: Bytes)
    requires CleanId(id) && AllDigits(size)
    ensures IsAscii(Header(id, size)) && NoSpace(size)
    ensures forall i :: 0 <= i < |Header(id, size)| ==> Header(id, size)[i] != NEWLINE
  {
  }

  /** A frame lying in the output from `cursor`, its header ending at `end`. */
  ghost predicate FrameAt(output: Bytes, cursor: nat, end: nat, id: Bytes, content: Bytes) {
    && cursor <= end && end + 1 + |content| < |output|
    && output[cursor..end] == Header(id, Decimal(|content|)) && output[end] == NEWLINE
    && output[end + 1..end + 1 + |content|] == content && output[end + 1 + |content|] == NEWLINE
  }

  lemma Pieces(a: Bytes, x: byte, b: Bytes, y: byte, c: Bytes)
    ensures var tail, n := a + [x] + b + [y] + c, |a| + 1 + |b|;
            && |tail| == n + 1 + |c| && tail[..|a|] == a && tail[|a|] == x
            && tail[|a| + 1..n] == b && tail[n] == y && tail[n + 1..] == c
  {
  }

  lemma WithinTail(s: Bytes, from: nat, i: nat, j: nat)
    requires from <= |s| && i <= j <= |s| - from
    ensures s[from..][i..j] == s[from + i..from + j] && s[from..][j..] == s[from + j..]
    ensures i < |s| - from ==> s[from..][i] == s[from + i]
  {
  }

  lemma PiecesLie(output: Bytes, cursor: nat, header: Bytes, content: Bytes, rest: Bytes)
    requires cursor <= |output| && output[cursor..] == header + [NEWLINE] + content + [NEWLINE] + rest
    ensures var end := cursor + |header|;
            && end + 1 + |content| < |output| && output[cursor..end] == header && output[end] == NEWLINE
            && output[end + 1..end + 1 + |content|] == content && output[end + 1 + |content|] == NEWLINE
            && output[end + 2 + |content|..] == rest
  {
    var h, n := |header|, |header| + 1 + |content|;
    Pieces(header, NEWLINE, content, NEWLINE, rest);
    WithinTail(output, cursor, 0, h);
    WithinTail(output, cursor, h, h);
    WithinTail(output, cursor, h + 1, n);
    WithinTail(output, cursor, n, n + 1);
  }

  lemma FrameLies(output: Bytes, cursor: nat, id: Bytes, content: Bytes, rest: Bytes)
    requires cursor <= |output| && output[cursor..] == Frame(id, content) + rest
    ensures var end := cursor + |Header(id, Decimal(|content|))|;
            FrameAt(output, cursor, end, id, content) && output[end + 2 + |content|..] == rest
  {
    hide Header, Decimal;
    PiecesLie(output, cursor, Header(id, Decimal(|content|)), content, rest);
  }

  lemma HeaderEndsAt(output: Bytes, cursor: nat, end: nat, id: Bytes, content: Bytes)
    requires CleanId(id) && FrameAt(output, cursor, end, id, content)
    ensures FindNewline(output, cursor) == end
  {
    var header := Header(id, Decimal(|content|));
    HeaderIsClean(id, Decimal(|content|));
    assert forall i :: cursor <= i < end ==> output[i] == header[i - cursor];
    hide Header, Decimal, ScanNewline;
  }

  lemma ReadsGivenParts(output: Bytes, cursor: nat, end: nat, id: Bytes, size: Bytes, content: Bytes)
    requires FindNewline(output, cursor) == end
    requires IsAscii(Slice(output, cursor, end)) && Split(Slice(output, cursor, end)) == [id, BLOB, size]
    requires ParseInt(size) == Some(|content|) && end + 1 + |content| < |output|
    requires Slice(output, end + 1, end + 1 + |content|) == content
    requires Slice(output, end + 1 + |content|, end + 2 + |content|) == [NEWLINE]
    ensures ReadObject(output, cursor, id) == Ok((content, end + 2 + |content|))
  {
    hide FindNewline, Split, ParseInt, IsAscii, Slice;
  }

  lemma SliceOfOne(s: Bytes, i: nat)
    requires i < |s|
    ensures s[i..i + 1] == [s[i]]
  {
  }

  lemma FrameSlices(output: Bytes, cursor: nat, end: nat, id: Bytes, content: Bytes)
    requires FrameAt(output, cursor, end, id, content)
    ensures Slice(output, cursor, end) == Header(id, Decimal(|content|))
    ensures Slice(output, end + 1, end + 1 + |content|) == content
    ensures Slice(output, end + 1 + |content|, end + 2 + |content|) == [NEWLINE]
  {
    hide Header, Decimal, Bound, Slice;
    var after := end + 1 + |content|;
    SliceOfOne(output, after);
    assert Slice(output, after, after + 1) == output[after..after + 1];
  }

  lemma ReadsFrameAt(output: Bytes, cursor: nat, end: nat, id: Bytes, content: Bytes)
    requires CleanId(id) && FrameAt(output, cursor, end, id, content)
    ensures ReadObject(output, cursor, id) == Ok((content, end + 2 + |content|))
    ensures FindNewline(output, cursor) == end
    ensures Split(Slice(output, cursor, end)) == [id, BLOB, Decimal(|content|)]
  {
    var size := Decimal(|content|);
    HeaderEndsAt(output, cursor, end, id, content);
    HeaderIsClean(id, size);
    SplitHeader(id, size);
    DecimalIsCanonical(|content|);
    FrameSlices(output, cursor, end, id, content);
    hide ReadObject, Header, Decimal, FindNewline, Split, ParseInt, IsAscii, Slice, CleanId, NoSpace, IsCanonical;
    ReadsGivenParts(output, cursor, end, id, size, content);
  }

  lemma ReadsOneMore(output: Bytes, cursor: nat, ids: seq<Bytes>, content: Bytes, next: nat, rest: seq<Bytes>)
    requires ids != [] && ReadObject(output, cursor, ids[0]) == Ok((content, next))
    requires FindNewline(output, cursor) >= 0
    requires Split(Slice(output, cursor, FindNewline(output, cursor))) == [ids[0], BLOB, Decimal(|content|)]
    requires ReadFrom(output, next, ids[1..]) == Ok(rest) && SizesCanonical(output, next, ids[1..])
    ensures ReadFrom(output, cursor, ids) == Ok([content] + rest) && SizesCanonical(output, cursor, ids)
  {
    DecimalIsCanonical(|content|);
    hide ReadObject, FindNewline, Split, Slice, Decimal, IsCanonical;
  }

  lemma PrintUnfold(ids: seq<Bytes>, contents: seq<Bytes>)
    requires |ids| == |contents| && ids != []
    ensures Print(ids, contents) == Frame(ids[0], contents[0]) + Print(ids[1..], contents[1..])
  {
    hide Frame;
  }

  lemma NothingPrinted(output: Bytes, cursor: nat, contents: seq<Bytes>)
    requires cursor <= |output| && contents == [] && output[cursor..] == Print([], contents)
    ensures ReadFrom(output, cursor, []) == Ok(contents) && SizesCanonical(output, cursor, [])
  {
    assert cursor == |output|;
  }

  lemma {:induction false} PrintedReadsBack(output: Bytes, cursor: nat, ids: seq<Bytes>, contents: seq<Bytes>)
    requires CleanIds(ids) && |ids| == |contents|
    requires cursor <= |output| && output[cursor..] == Print(ids, contents)
    ensures ReadFrom(output, cursor, ids) == Ok(contents)
    ensures SizesCanonical(output, cursor, ids)
    decreases ids
  {
    hide ReadObject, ReadFrom, SizesCanonical, FindNewline, Split, Slice, Header, Decimal, CleanId, Frame;
    if ids == [] {
      NothingPrinted(output, cursor, contents);
    } else {
      var rest := Print(ids[1..], contents[1..]);
      PrintUnfold(ids, contents);
      var end := cursor + |Header(ids[0], Decimal(|contents[0]|))|;
      var next := end + 2 + |contents[0]|;
      FrameLies(output, cursor, ids[0], contents[0], rest);
      ReadsFrameAt(output, cursor, end, ids[0], contents[0]);
      PrintedReadsBack(output, next, ids[1..], contents[1..]);
      ReadsOneMore(output, cursor, ids, contents[0], next, contents[1..]);
      assert [contents[0]] + contents[1..] == contents;
    }
  }

  /** Contents of any bytes, newlines included, come back exactly as printed. */
  lemma RoundTrip(ids: seq<Bytes>, contents: seq<Bytes>)
    requires CleanIds(ids) && |ids| == |contents|
    ensures ReadFrom(Print(ids, contents), 0, ids) == Ok(contents)
  {
    var output := Print(ids, contents);
    assert output[0..] == output;
    PrintedReadsBack(output, 0, ids, contents);
  }

  // ---------- what is accepted was printed ----------

  /** What reading one object has checked, piece by piece. */
  lemma AcceptedPieces(output: Bytes, cursor: int, id: Bytes)
    requires ReadObject(output, cursor, id).Ok?
    ensures var end := FindNewline(output, cursor);
            var header := Split(Slice(output, cursor, end));
            && end >= 0 && |header| == 3 && header == [id, BLOB, header[2]] && ParseInt(header[2]).Some?
            && var n := ParseInt(header[2]).value;
            && end + 1 + n < |output| && Slice(output, end + 1 + n, end + 2 + n) == [NEWLINE]
            && ReadObject(output, cursor, id).value == (Slice(output, end + 1, end + 1 + n), end + 2 + n)
  {
    hide FindNewline, Slice, Split, ParseInt, IsAscii;
  }

  lemma NewlineFrom(output: Bytes, cursor: nat)
    requires cursor <= |output| && FindNewline(output, cursor) >= 0
    ensures var end := FindNewline(output, cursor);
            cursor <= end < |output| && output[end] == NEWLINE
  {
  }

  /** A header, a newline, `n` bytes and a newline are the frame of those bytes. */
  lemma CutIsFrame(output: Bytes, cursor: nat, end: nat, n: nat, id: Bytes)
    requires cursor <= end && end + 1 + n < |output|
    requires output[cursor..end] == Header(id, Decimal(n)) && output[end] == NEWLINE && output[end + 1 + n] == NEWLINE
    ensures output[cursor..end + 2 + n] == Frame(id, output[end + 1..end + 1 + n])
  {
    hide Header, Decimal;
    var content, after := output[end + 1..end + 1 + n], end + 1 + n;
    SliceOfOne(output, end);
    SliceOfOne(output, after);
    assert output[cursor..after + 1] == output[cursor..end] + output[end..end + 1] + content + output[after..after + 1];
  }

  lemma AcceptedIsFrame(output: Bytes, cursor: nat, id: Bytes)
    requires cursor <= |output| && ReadObject(output, cursor, id).Ok?
    requires IsCanonical(Split(Slice(output, cursor, FindNewline(output, cursor)))[2])
    ensures var (content, next) := ReadObject(output, cursor, id).value;
            cursor <= next <= |output| && output[cursor..next] == Frame(id, content)
  {
    hide ReadObject, FindNewline, Slice, Split, ParseInt, Decimal, Frame, ValueOf;
    AcceptedPieces(output, cursor, id);
    NewlineFrom(output, cursor);
    var end := FindNewline(output, cursor);
    var text := Slice(output, cursor, end);
    var size := Split(text)[2];
    SplitInThree(text, id, BLOB, size);
    CanonicalIsDecimal(size);
    var n := ValueOf(size);
    SliceOfOne(output, end + 1 + n);
    CutIsFrame(output, cursor, end, n, id);
  }

  lemma {:induction false} AcceptedWasPrinted(output: Bytes, cursor: nat, ids: seq<Bytes>)
    requires cursor <= |output| && ReadFrom(output, cursor, ids).Ok? && SizesCanonical(output, cursor, ids)
    ensures var contents := ReadFrom(output, cursor, ids).value;
            |contents| == |ids| && output[cursor..] == Print(ids, contents)
    decreases ids
  {
    hide ReadObject, Frame, FindNewline, Split, Slice;
    if ids != [] {
      AcceptedIsFrame(output, cursor, ids[0]);
      var (content, next) := ReadObject(output, cursor, ids[0]).value;
      AcceptedWasPrinted(output, next, ids[1..]);
      var rest := ReadFrom(output, next, ids[1..]).value;
      assert ([content] + rest)[1..] == rest;
      CutAt(output, cursor, next);
    }
  }

  lemma CutAt(s: Bytes, a: nat, b: nat)
    requires a <= b <= |s|
    ensures s[a..] == s[a..b] + s[b..]
  {
  }

  /**
    Exactly what the parser accepts: an output is accepted with canonical sizes throughout if and
    only if it is the printing of some contents, one for each requested id, with nothing left over.
   */
  lemma AcceptsExactlyPrintings(output: Bytes, ids: seq<Bytes>)
    requires CleanIds(ids)
    ensures ReadFrom(output, 0, ids).Ok? && SizesCanonical(output, 0, ids)
       <==> exists contents :: |contents| == |ids| && output == Print(ids, contents)
  {
    if ReadFrom(output, 0, ids).Ok? && SizesCanonical(output, 0, ids) {
      AcceptedWasPrinted(output, 0, ids);
      assert output[0..] == output;
    }
    forall contents | |contents| == |ids| && output == Print(ids, contents)
      ensures ReadFrom(output, 0, ids).Ok? && SizesCanonical(output, 0, ids)
    {
      assert output[0..] == output;
      PrintedReadsBack(output, 0, ids, contents);
    }
  }

  const NEGATIVE_OUTPUT: Bytes := [97, 32, 98, 108, 111, 98, 32, 45, 49, 10]

  lemma NegativeHeader()
    ensures FindNewline(NEGATIVE_OUTPUT, 0) == 9
    ensures IsAscii(Slice(NEGATIVE_OUTPUT, 0, 9)) && Split(Slice(NEGATIVE_OUTPUT, 0, 9)) == [[97], BLOB, [45, 49]]
  {
    var output := NEGATIVE_OUTPUT;
    var id: Bytes := [97];
    var size: Bytes := [45, 49];
    assert output[0..9] == Header(id, size);
    SplitHeader(id, size);
    assert output[9] == NEWLINE;
    assert forall i :: 0 <= i < 9 ==> output[i] != NEWLINE;
    hide ScanNewline, Split;
  }

  lemma NegativeSizeParses()
    ensures ParseInt([45, 49]) == Some(-1)
  {
    var size: Bytes := [45, 49];
    var digits: Bytes := [49];
    assert size[1..] == digits && digits[..0] == [];
    assert ValueOf(digits) == 1;
    assert StripLeft(size) == size && StripRight(size) == size;
  }

  lemma NegativeReads(ids: seq<Bytes>)
    requires |ids| == 1 && ReadObject(NEGATIVE_OUTPUT, 0, ids[0]) == Ok(([], 10)) && ReadFrom(NEGATIVE_OUTPUT, 10, []) == Ok([])
    ensures ReadFrom(NEGATIVE_OUTPUT, 0, ids) == Ok([[]])
  {
    hide ReadObject, NEGATIVE_OUTPUT;
    assert ids[1..] == [];
    var one: seq<Bytes> := [[]];
    assert one + [] == one;
  }

  /** A size that is no canonical decimal can be accepted: "a blob -1" and a newline yields an empty content. */
  lemma NegativeSizeIsAccepted()
    ensures ReadFrom(NEGATIVE_OUTPUT, 0, [[97]]) == Ok([[]])
    ensures !SizesCanonical(NEGATIVE_OUTPUT, 0, [[97]])
  {
    NegativeHeader();
    NegativeSizeParses();
    var id: Bytes := [97];
    assert NEGATIVE_OUTPUT[9..10] == [NEWLINE];
    assert !IsCanonical([45, 49]);
    hide FindNewline, Split, ParseInt, IsAscii, IsCanonical;
    assert ReadObject(NEGATIVE_OUTPUT, 0, id) == Ok(([], 10));
    var ids: seq<Bytes> := [id];
    assert ids[0] == id && ids[1..] == [] && |NEGATIVE_OUTPUT| == 10;
    NothingPrinted(NEGATIVE_OUTPUT, 10, []);
    NegativeReads(ids);
  }
}
