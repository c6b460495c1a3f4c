/** PDF string literals and the content stream of a page, each with a reader that recovers what was written. */
module PdfText {
  import opened Prelude
  import opened Texts

  const LP: byte := 0x28
  const RP: byte := 0x29
  const BACKSLASH: byte := 0x5c

  // ---- Literals ----

  function EscapeByte(b: byte): Bytes {
    if b == BACKSLASH || b == LP || b == RP then [BACKSLASH, b] else if b < 0x20 then [SPACE] else [b]
  }

  function Escaped(s: Bytes): Bytes {
    if s == [] then [] else EscapeByte(s[0]) + Escaped(s[1..])
  }

  method PdfString(s: Bytes) returns (b: Bytes)
    ensures b == Escaped(s)
  {
    hide Escaped;
    b := [];
    assert b + Escaped(s) == Escaped(s) && s[0..] == s;
    for i := 0 to |s|
      invariant b + Escaped(s[i..]) == Escaped(s)
    {
      var ch := s[i];
      EscapeNext(s, i);
      ghost var before := b;
      if ch == BACKSLASH {
        b := b + [BACKSLASH, BACKSLASH];
      } else if ch == LP {
        b := b + [BACKSLASH, LP];
      } else if ch == RP {
        b := b + [BACKSLASH, RP];
      } else if ch < 0x20 {
        b := b + [SPACE];
      } else {
        b := b + [ch];
      }
      assert b == before + EscapeByte(ch);
    }
    NothingEscaped();
    assert b + [] == b && s[|s|..] == [];
  }

  lemma NothingEscaped()
    ensures Escaped([]) == []
  {
  }

  lemma EscapeNext(s: Bytes, i: nat)
    requires i < |s|
    ensures Escaped(s[i..]) == EscapeByte(s[i]) + Escaped(s[i + 1..])
  {
    assert s[i..][1..] == s[i + 1..];
  }

  /** A text with its control characters turned to spaces. */
  function Cleaned(s: Bytes): (r: Bytes)
    ensures |r| == |s|
  {
    seq(|s|, i requires 0 <= i < |s| => if s[i] < 0x20 then SPACE else s[i])
  }

  datatype Read = Read(text: Bytes, rest: Bytes)

  /** What a backslash makes of the byte after it, octal codes and line breaks aside. */
  function Unescape(b: byte): byte {
    if b == 0x6e then NL else if b == 0x72 then CR else if b == 0x74 then 0x09
    else if b == 0x62 then 0x08 else if b == 0x66 then 0x0c else b
  }

  function Prepend(b: byte, r: Option<Read>): Option<Read> {
    if r.Some? then Some(Read([b] + r.value.text, r.value.rest)) else None
  }

  /**
   * Reads a literal string behind its opening parenthesis, as section 7.3.4.2 of
   * ISO 32000-1 has it: parentheses nest, a backslash escapes, and a bare carriage
   * return counts as a line feed. Octal escapes and escaped line breaks read as nothing.
   */
  function ReadString(s: Bytes, depth: nat): (r: Option<Read>)
    ensures r.Some? ==> |r.value.rest| < |s|
    decreases |s|
  {
    if s == [] then None
    else if s[0] == BACKSLASH then
      if |s| < 2 || 0x30 <= s[1] <= 0x37 || s[1] == NL || s[1] == CR then None
      else Prepend(Unescape(s[1]), ReadString(s[2..], depth))
    else if s[0] == LP then Prepend(LP, ReadString(s[1..], depth + 1))
    else if s[0] == RP then
      if depth == 0 then Some(Read([], s[1..])) else Prepend(RP, ReadString(s[1..], depth - 1))
    else Prepend(if s[0] == CR then NL else s[0], ReadString(s[1..], depth))
  }

  /** An escaped text reads back as itself, its control characters as spaces, and ends where it should. */
  lemma {:induction false} LiteralReads(s: Bytes, rest: Bytes)
    ensures ReadString(Escaped(s) + [RP] + rest, 0) == Some(Read(Cleaned(s), rest))
  {
    hide EscapeByte;
    if s == [] {
      assert Escaped(s) + [RP] + rest == [RP] + rest;
    } else {
      LiteralReads(s[1..], rest);
      var tail := Escaped(s[1..]) + [RP] + rest;
      assert Escaped(s) + [RP] + rest == EscapeByte(s[0]) + tail;
      EscapeReads(s[0], tail);
      assert [Cleaned(s)[0]] + Cleaned(s[1..]) == Cleaned(s);
    }
  }

  lemma EscapeReads(b: byte, tail: Bytes)
    ensures ReadString(EscapeByte(b) + tail, 0) == Prepend(if b < 0x20 then SPACE else b, ReadString(tail, 0))
  {
    var e := EscapeByte(b);
    assert (e + tail)[|e|..] == tail;
  }

  // ---- Content streams ----

  function Show(s: Bytes): Bytes {
    [LP] + Escaped(s) + Ascii(") Tj\n")
  }

  const PAGE_START: Bytes := Ascii("BT\n") + Ascii("/F2 14 Tf\n") + Ascii("40 752 Td\n")
  const BODY_FONT: Bytes := Ascii("/F1 8 Tf\n") + Ascii("0 -22 Td\n")
  const NEXT_ROW: Bytes := Ascii("0 -12 Td\n")
  const PAGE_END: Bytes := Ascii("ET\n")

  function Rows(lines: seq<Bytes>): Bytes {
    if lines == [] then [] else Rows(lines[..|lines| - 1]) + NEXT_ROW + Show(lines[|lines| - 1])
  }

  function PageStream(title: Bytes, header: Bytes, sep: Bytes, lines: seq<Bytes>): Bytes {
    PAGE_START + Show(title) + BODY_FONT + Show(header) + NEXT_ROW + Show(sep) + Rows(lines) + PAGE_END
  }

  method WritePage(title: Bytes, header: Bytes, sep: Bytes, lines: seq<Bytes>) returns (c: Bytes)
    ensures c == PageStream(title, header, sep, lines)
  {
    hide Ascii, Escaped;
    var t := PdfString(title);
    var h := PdfString(header);
    var s := PdfString(sep);
    c := PAGE_START;
    c := c + ([LP] + t + Ascii(") Tj\n"));
    c := c + BODY_FONT + ([LP] + h + Ascii(") Tj\n"));
    c := c + NEXT_ROW + ([LP] + s + Ascii(") Tj\n"));
    ghost var top := c;
    for i := 0 to |lines|
      invariant c == top + Rows(lines[..i])
    {
      var line := PdfString(lines[i]);
      ghost var before := c;
      c := c + NEXT_ROW + ([LP] + line + Ascii(") Tj\n"));
      assert lines[..i + 1][..i] == lines[..i];
      assert c == before + (NEXT_ROW + Show(lines[i]));
    }
    assert lines[..|lines|] == lines;
    c := c + PAGE_END;
  }

  /** The strings a content stream shows: every literal in it, in order. */
  function ShownTexts(s: Bytes): seq<Bytes>
    decreases |s|
  {
    if s == [] then []
    else if s[0] != LP then ShownTexts(s[1..])
    else
      var r := ReadString(s[1..], 0);
      if r.None? then [] else [r.value.text] + ShownTexts(r.value.rest)
  }

  lemma {:induction false} OperatorsShowNothing(ops: Bytes, rest: Bytes)
    requires LP !in ops
    ensures ShownTexts(ops + rest) == ShownTexts(rest)
  {
    if ops == [] {
      assert ops + rest == rest;
    } else {
      assert (ops + rest)[1..] == ops[1..] + rest;
      OperatorsShowNothing(ops[1..], rest);
    }
  }

  lemma ShowShows(s: Bytes, rest: Bytes)
    ensures ShownTexts(Show(s) + rest) == [Cleaned(s)] + ShownTexts(rest)
  {
    hide ReadString, Escaped, Cleaned;
    var tj := Ascii(" Tj\n");
    assert Ascii(") Tj\n") == [RP] + tj;
    var tail := Escaped(s) + [RP] + (tj + rest);
    assert Show(s) + rest == [LP] + tail;
    assert ([LP] + tail)[1..] == tail;
    LiteralReads(s, tj + rest);
    OperatorsShowNothing(tj, rest);
  }

  function AllCleaned(lines: seq<Bytes>): (r: seq<Bytes>)
    ensures |r| == |lines|
  {
    seq(|lines|, i requires 0 <= i < |lines| => Cleaned(lines[i]))
  }

  lemma OperatorBytes()
    ensures LP !in PAGE_START && LP !in BODY_FONT && LP !in NEXT_ROW && LP !in PAGE_END
  {
    NoParenthesis("BT\n");
    NoParenthesis("/F2 14 Tf\n");
    NoParenthesis("40 752 Td\n");
    NoParenthesis("/F1 8 Tf\n");
    NoParenthesis("0 -22 Td\n");
    NoParenthesis("0 -12 Td\n");
    NoParenthesis("ET\n");
  }

  lemma NoParenthesis(s: string)
    requires forall i | 0 <= i < |s| :: s[i] != '(' && s[i] as int < 0x100
    ensures LP !in Ascii(s)
  {
  }

  lemma {:induction false} RowsShow(lines: seq<Bytes>, rest: Bytes)
    ensures ShownTexts(Rows(lines) + rest) == AllCleaned(lines) + ShownTexts(rest)
  {
    hide Show, ShownTexts, Cleaned;
    if lines == [] {
      assert Rows(lines) + rest == rest;
    } else {
      var n := |lines| - 1;
      var last := lines[n];
      RowsShow(lines[..n], NEXT_ROW + (Show(last) + rest));
      OperatorBytes();
      OperatorsShowNothing(NEXT_ROW, Show(last) + rest);
      ShowShows(last, rest);
      assert Rows(lines) + rest == Rows(lines[..n]) + (NEXT_ROW + (Show(last) + rest));
      assert AllCleaned(lines) == AllCleaned(lines[..n]) + [Cleaned(last)];
    }
  }

  /** A page shows its title, the column headings, the rule and its lines, and nothing else. */
  lemma PageShows(title: Bytes, header: Bytes, sep: Bytes, lines: seq<Bytes>)
    ensures ShownTexts(PageStream(title, header, sep, lines)) == AllCleaned([title, header, sep] + lines)
  {
    hide Show, ShownTexts, Cleaned, Rows, Ascii;
    OperatorBytes();
    var s4 := Rows(lines) + PAGE_END;
    var s3 := NEXT_ROW + (Show(sep) + s4);
    var s2 := BODY_FONT + (Show(header) + s3);
    assert PageStream(title, header, sep, lines) == PAGE_START + (Show(title) + s2);
    OperatorsShowNothing(PAGE_START, Show(title) + s2);
    ShowShows(title, s2);
    OperatorsShowNothing(BODY_FONT, Show(header) + s3);
    ShowShows(header, s3);
    OperatorsShowNothing(NEXT_ROW, Show(sep) + s4);
    ShowShows(sep, s4);
    RowsShow(lines, PAGE_END);
    OperatorsShowNothing(PAGE_END, []);
    assert PAGE_END + [] == PAGE_END;
    assert ShownTexts([]) == [] by { NothingShown(); }
    assert AllCleaned([title, header, sep] + lines) == [Cleaned(title)] + ([Cleaned(header)] + ([Cleaned(sep)] + AllCleaned(lines)));
  }

  lemma NothingShown()
    ensures ShownTexts([]) == []
  {
  }

  // ---- Pages ----

  /** The text column of a US Letter page in 8-point Courier, and the rows below its headings. */
  const MAX_CHARS: int := ((612.0 - 2.0 * 40.0) / (8.0 * 0.6)).Floor
  const PER_PAGE: int := ((752.0 - 22.0 - 2.0 * 12.0 - 48.0) / 12.0).Floor + 1

  lemma PageHolds55Rows()
    ensures PER_PAGE == 55 && MAX_CHARS == 110
  {
  }

  function Chunks(lines: seq<Bytes>, n: nat): seq<seq<Bytes>>
    requires n > 0
  {
    if lines == [] then [] else if |lines| <= n then [lines] else [lines[..n]] + Chunks(lines[n..], n)
  }

  function Flatten(pages: seq<seq<Bytes>>): seq<Bytes> {
    if pages == [] then [] else pages[0] + Flatten(pages[1..])
  }

  ghost predicate FullPages(pages: seq<seq<Bytes>>, n: nat) {
    forall i | 0 <= i < |pages| :: 0 < |pages[i]| <= n && (i + 1 < |pages| ==> |pages[i]| == n)
  }

  /** The pages hold the lines in order, none empty and all full but the last. */
  lemma {:induction false} ChunksHoldLines(lines: seq<Bytes>, n: nat)
    requires n > 0
    ensures Flatten(Chunks(lines, n)) == lines && FullPages(Chunks(lines, n), n)
  {
    if |lines| > n {
      hide FullPages, Flatten;
      ChunksHoldLines(lines[n..], n);
      OnePageMore(lines[..n], Chunks(lines[n..], n), n);
      assert lines[..n] + lines[n..] == lines;
    } else if lines != [] {
      assert Chunks(lines, n)[1..] == [];
    }
  }

  lemma OnePageMore(page: seq<Bytes>, pages: seq<seq<Bytes>>, n: nat)
    requires FullPages(pages, n) && |page| == n > 0
    ensures FullPages([page] + pages, n) && Flatten([page] + pages) == page + Flatten(pages)
  {
    assert ([page] + pages)[1..] == pages;
  }

  method Paginate(title: Bytes, header: Bytes, sep: Bytes, lines: seq<Bytes>) returns (streams: seq<Bytes>)
    ensures var pages := Chunks(lines, PER_PAGE);
            && |streams| == |pages|
            && forall i | 0 <= i < |pages| ::
                 && streams[i] == PageStream(title, header, sep, pages[i])
                 && ShownTexts(streams[i]) == AllCleaned([title, header, sep] + pages[i])
  {
    hide PageStream, ShownTexts, AllCleaned, Chunks, Drop;
    PageHolds55Rows();
    streams := [];
    ghost var pages := [];
    DropEnds(lines, 0);
    var start := 0;
    while start < |lines|
      invariant start >= 0
      invariant pages + Chunks(Drop(lines, start), PER_PAGE) == Chunks(lines, PER_PAGE)
      invariant |streams| == |pages|
      invariant forall i | 0 <= i < |pages| ::
                  && streams[i] == PageStream(title, header, sep, pages[i])
                  && ShownTexts(streams[i]) == AllCleaned([title, header, sep] + pages[i])
    {
      var end := start + PER_PAGE;
      if end > |lines| {
        end := |lines|;
      }
      var c := WritePage(title, header, sep, lines[start..end]);
      PageShows(title, header, sep, lines[start..end]);
      NextChunk(lines, start, PER_PAGE);
      pages := pages + [lines[start..end]];
      streams := streams + [c];
      start := start + PER_PAGE;
    }
    DropEnds(lines, start);
    assert pages + [] == pages;
  }

  lemma DropEnds(lines: seq<Bytes>, k: nat)
    ensures Drop(lines, 0) == lines
    ensures k >= |lines| ==> Chunks(Drop(lines, k), PER_PAGE) == []
  {
    PageHolds55Rows();
  }

  lemma NextChunk(lines: seq<Bytes>, start: nat, n: nat)
    requires start < |lines| && n > 0
    ensures var end := if start + n > |lines| then |lines| else start + n;
            Chunks(Drop(lines, start), n) == [lines[start..end]] + Chunks(Drop(lines, start + n), n)
  {
    if start + n < |lines| {
      assert lines[start..][n..] == lines[start + n..] && lines[start..][..n] == lines[start..start + n];
    } else {
      assert lines[start..] == lines[start..|lines|];
    }
  }
}
