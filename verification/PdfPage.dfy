/** Where a page puts its texts: an interpreter of content streams, and the layout that it finds. */
module PdfPage {
  import opened Prelude
  import opened Texts
  import opened Decimal
  import opened PdfText

  datatype Operand = Number(n: int) | Name(name: Bytes) | Text(text: Bytes)

  /** The current font and its size, and where the current row starts, in points from the page's lower left corner. */
  datatype Place = Place(font: Bytes, size: int, x: int, y: int)

  const NOWHERE := Place([], 0, 0, 0)

  datatype Placed = Placed(text: Bytes, at: Place)

  // ---- The interpreter ----

  const SLASH: byte := 0x2f
  const MINUS: byte := 0x2d

  const BT: Bytes := [0x42, 0x54]
  const ET: Bytes := [0x45, 0x54]
  const TF: Bytes := [0x54, 0x66]
  const TD: Bytes := [0x54, 0x64]
  const TJ: Bytes := [0x54, 0x6a]

  predicate Ends(b: byte) {
    IsSpace(b) || b == LP
  }

  /** The word that a stream begins with. */
  function Word(s: Bytes): (w: Bytes)
    ensures w <= s
    ensures s != [] && !Ends(s[0]) ==> w != []
  {
    if s == [] || Ends(s[0]) then [] else [s[0]] + Word(s[1..])
  }

  predicate IsNumeral(ds: Bytes) {
    ds != [] && forall i | 0 <= i < |ds| :: IsDigit(ds[i])
  }

  predicate IsNumber(w: Bytes) {
    IsNumeral(if w != [] && w[0] == MINUS then w[1..] else w)
  }

  function NumberOf(w: Bytes): int {
    if w != [] && w[0] == MINUS then 0 - Value(w[1..]) else Value(w)
  }

  /** What an operator does to the font and the place: Tf sets the font, Td moves by so much, BT starts anew. */
  function After(op: Bytes, args: seq<Operand>, at: Place): Place {
    if op == BT then at.(x := 0, y := 0)
    else if op == TF && |args| == 2 && args[0].Name? && args[1].Number? then at.(font := args[0].name, size := args[1].n)
    else if op == TD && |args| == 2 && args[0].Number? && args[1].Number? then at.(x := at.x + args[0].n, y := at.y + args[1].n)
    else at
  }

  /** What an operator shows: Tj its text, where the row stands. */
  function Shows(op: Bytes, args: seq<Operand>, at: Place): seq<Placed> {
    if op == TJ && |args| == 1 && args[0].Text? then [Placed(args[0].text, at)] else []
  }

  /** The texts of a content stream and their places, as sections 9.3 and 9.4 of ISO 32000-1 have the operators it uses. */
  function Run(s: Bytes, args: seq<Operand>, at: Place): seq<Placed>
    decreases |s|
  {
    if s == [] then []
    else if IsSpace(s[0]) then Run(s[1..], args, at)
    else if s[0] == LP then
      var r := ReadString(s[1..], 0);
      if r.None? then [] else Run(r.value.rest, args + [Text(r.value.text)], at)
    else
      var w := Word(s);
      var rest := s[|w|..];
      if IsNumber(w) then Run(rest, args + [Number(NumberOf(w))], at)
      else if w[0] == SLASH then Run(rest, args + [Name(w[1..])], at)
      else Shows(w, args, at) + Run(rest, [], After(w, args, at))
  }

  // ---- One word at a time ----

  predicate IsWord(w: Bytes) {
    w != [] && forall i | 0 <= i < |w| :: !Ends(w[i])
  }

  lemma {:induction false} WordIsRead(w: Bytes, b: byte, rest: Bytes)
    requires (forall i | 0 <= i < |w| :: !Ends(w[i])) && Ends(b)
    ensures Word(w + ([b] + rest)) == w
  {
    if w != [] {
      WordIsRead(w[1..], b, rest);
      assert (w + ([b] + rest))[1..] == w[1..] + ([b] + rest);
    }
  }

  /** A word and the white space after it. */
  lemma WordRuns(w: Bytes, b: byte, rest: Bytes, args: seq<Operand>, at: Place)
    requires IsWord(w) && IsSpace(b)
    ensures Run(w + ([b] + rest), args, at)
         == if IsNumber(w) then Run(rest, args + [Number(NumberOf(w))], at)
            else if w[0] == SLASH then Run(rest, args + [Name(w[1..])], at)
            else Shows(w, args, at) + Run(rest, [], After(w, args, at))
  {
    hide IsNumber, NumberOf, Shows, After, Word;
    var s := w + ([b] + rest);
    WordIsRead(w, b, rest);
    assert s[0] == w[0] && s[|w|..] == [b] + rest;
    SpaceRuns(b, rest, args + [Number(NumberOf(w))], at);
    SpaceRuns(b, rest, args + [Name(w[1..])], at);
    SpaceRuns(b, rest, [], After(w, args, at));
  }

  lemma SpaceRuns(b: byte, rest: Bytes, args: seq<Operand>, at: Place)
    requires IsSpace(b)
    ensures Run([b] + rest, args, at) == Run(rest, args, at)
  {
    assert ([b] + rest)[1..] == rest;
  }

  /** Two operands and their operator, as they are written. */
  function Written(a: Bytes, b: Bytes, op: Bytes): Bytes {
    a + [SPACE] + b + [SPACE] + op + [NL]
  }

  lemma WrittenInFront(a: Bytes, b: Bytes, op: Bytes, rest: Bytes)
    ensures Written(a, b, op) + rest == a + ([SPACE] + (b + ([SPACE] + (op + ([NL] + rest)))))
  {
  }

  lemma MoveRuns(dx: Bytes, dy: Bytes, rest: Bytes, at: Place)
    requires IsWord(dx) && IsNumber(dx) && IsWord(dy) && IsNumber(dy)
    ensures Run(Written(dx, dy, TD) + rest, [], at)
         == Run(rest, [], at.(x := at.x + NumberOf(dx), y := at.y + NumberOf(dy)))
  {
    hide Run, IsWord, NumberOf, IsNumber, Written;
    WrittenInFront(dx, dy, TD, rest);
    var tail := TD + ([NL] + rest);
    var args := [Number(NumberOf(dx)), Number(NumberOf(dy))];
    WordRuns(dx, SPACE, dy + ([SPACE] + tail), [], at);
    assert [] + [Number(NumberOf(dx))] == [Number(NumberOf(dx))];
    WordRuns(dy, SPACE, tail, [Number(NumberOf(dx))], at);
    assert [Number(NumberOf(dx))] + [Number(NumberOf(dy))] == args;
    OperatorRuns(TD, rest, args, at);
  }

  lemma FontRuns(name: Bytes, size: Bytes, rest: Bytes, at: Place)
    requires IsWord([SLASH] + name) && IsWord(size) && IsNumber(size)
    ensures Run(Written([SLASH] + name, size, TF) + rest, [], at) == Run(rest, [], at.(font := name, size := NumberOf(size)))
  {
    hide Run, IsWord, NumberOf, Written;
    WrittenInFront([SLASH] + name, size, TF, rest);
    var tail := TF + ([NL] + rest);
    var args := [Name(name), Number(NumberOf(size))];
    NotNumber([SLASH] + name);
    hide IsNumber;
    WordRuns([SLASH] + name, SPACE, size + ([SPACE] + tail), [], at);
    assert ([SLASH] + name)[1..] == name && [] + [Name(name)] == [Name(name)];
    WordRuns(size, SPACE, tail, [Name(name)], at);
    assert [Name(name)] + [Number(NumberOf(size))] == args;
    OperatorRuns(TF, rest, args, at);
  }

  lemma NotNumber(w: Bytes)
    requires w != [] && w[0] != MINUS && !IsDigit(w[0])
    ensures !IsNumber(w)
  {
  }

  lemma OperatorRuns(op: Bytes, rest: Bytes, args: seq<Operand>, at: Place)
    requires op in {BT, TF, TD, TJ, ET}
    ensures Run(op + ([NL] + rest), args, at) == Shows(op, args, at) + Run(rest, [], After(op, args, at))
  {
    hide Run, Shows, After;
    NotNumber(op);
    WordRuns(op, NL, rest, args, at);
  }

  /** A shown string: its text stands at the current place, which does not move. */
  lemma ShowRuns(s: Bytes, rest: Bytes, at: Place)
    ensures Run(Show(s) + rest, [], at) == [Placed(Cleaned(s), at)] + Run(rest, [], at)
  {
    hide ReadString, Escaped, Cleaned;
    var tail := [SPACE] + (TJ + ([NL] + rest));
    assert Ascii(") Tj\n") == [RP] + [SPACE] + TJ + [NL];
    assert Show(s) + rest == [LP] + (Escaped(s) + [RP] + tail);
    assert ([LP] + (Escaped(s) + [RP] + tail))[1..] == Escaped(s) + [RP] + tail;
    LiteralReads(s, tail);
    var args := [Text(Cleaned(s))];
    assert [] + args == args;
    ShownRuns(args, rest, at);
  }

  lemma ShownRuns(args: seq<Operand>, rest: Bytes, at: Place)
    requires |args| == 1 && args[0].Text?
    ensures Run([SPACE] + (TJ + ([NL] + rest)), args, at) == [Placed(args[0].text, at)] + Run(rest, [], at)
  {
    hide Run;
    SpaceRuns(SPACE, TJ + ([NL] + rest), args, at);
    OperatorRuns(TJ, rest, args, at);
  }

  // ---- The page ----

  /** The k-th text of a page: its title in 14-point bold, and below it rows of 8-point Courier, 12 points apart. */
  function PlaceOf(k: nat): Place {
    if k == 0 then Place([0x46, 0x32], 14, 40, 752) else Place([0x46, 0x31], 8, 40, 742 - 12 * k)
  }

  /** Texts one below the other from the k-th place on. */
  function Column(texts: seq<Bytes>, k: nat): (ps: seq<Placed>)
    ensures |ps| == |texts|
  {
    seq(|texts|, i requires 0 <= i < |texts| => Placed(texts[i], PlaceOf(k + i)))
  }

  const FONT_BOLD: Bytes := [0x46, 0x32]
  const FONT_BODY: Bytes := [0x46, 0x31]
  const N0: Bytes := [0x30]
  const N8: Bytes := [0x38]
  const N14: Bytes := [0x31, 0x34]
  const N40: Bytes := [0x34, 0x30]
  const N752: Bytes := [0x37, 0x35, 0x32]
  const DOWN12: Bytes := [MINUS, 0x31, 0x32]
  const DOWN22: Bytes := [MINUS, 0x32, 0x32]

  lemma Words()
    ensures Ascii("BT\n") == BT + [NL] && PAGE_END == ET + [NL]
    ensures Ascii("/F2 14 Tf\n") == Written([SLASH] + FONT_BOLD, N14, TF) && Ascii("/F1 8 Tf\n") == Written([SLASH] + FONT_BODY, N8, TF)
    ensures Ascii("40 752 Td\n") == Written(N40, N752, TD)
    ensures Ascii("0 -22 Td\n") == Written(N0, DOWN22, TD) && NEXT_ROW == Written(N0, DOWN12, TD)
  {
    hide Ascii;
    AsciiIs("BT\n", BT + [NL]);
    AsciiIs("ET\n", ET + [NL]);
    AsciiIs("/F2 14 Tf\n", Written([SLASH] + FONT_BOLD, N14, TF));
    AsciiIs("/F1 8 Tf\n", Written([SLASH] + FONT_BODY, N8, TF));
    AsciiIs("40 752 Td\n", Written(N40, N752, TD));
    AsciiIs("0 -22 Td\n", Written(N0, DOWN22, TD));
    AsciiIs("0 -12 Td\n", Written(N0, DOWN12, TD));
  }

  lemma AsciiIs(s: string, b: Bytes)
    requires |s| == |b| && forall i | 0 <= i < |s| :: s[i] as int == b[i] as int
    ensures Ascii(s) == b
  {
  }

  lemma Numbers()
    ensures IsNumber(N0) && IsNumber(N8) && IsNumber(N14) && IsNumber(N40) && IsNumber(N752) && IsNumber(DOWN12) && IsNumber(DOWN22)
    ensures NumberOf(N0) == 0 && NumberOf(N8) == 8 && NumberOf(N14) == 14 && NumberOf(N40) == 40 && NumberOf(N752) == 752
    ensures NumberOf(DOWN12) == -12 && NumberOf(DOWN22) == -22
  {
    TwoDigitsSpell(0x31, 0x34);
    TwoDigitsSpell(0x34, 0x30);
    TwoDigitsSpell(0x37, 0x35);
    ValueOfSnoc([0x37, 0x35], 0x32);
    assert N752 == [0x37, 0x35] + [0x32];
    TwoDigitsSpell(0x31, 0x32);
    TwoDigitsSpell(0x32, 0x32);
    assert DOWN12[1..] == [0x31, 0x32] && DOWN22[1..] == [0x32, 0x32];
    ValueOfSnoc([], 0x30);
    ValueOfSnoc([], 0x38);
    assert [] + N0 == N0 && [] + N8 == N8;
  }

  lemma TwoDigitsSpell(a: byte, b: byte)
    requires IsDigit(a) && IsDigit(b)
    ensures Value([a, b]) == 10 * (a - 0x30) as int + (b - 0x30) as int
  {
    ValueOfSnoc([], a);
    ValueOfSnoc([a], b);
    assert [] + [a] == [a] && [a] + [b] == [a, b];
  }

  lemma BodyRowRuns(text: Bytes, rest: Bytes, k: nat)
    ensures Run(NEXT_ROW + (Show(text) + rest), [], PlaceOf(k + 1))
         == [Placed(Cleaned(text), PlaceOf(k + 2))] + Run(rest, [], PlaceOf(k + 2))
  {
    hide Run, Show, Cleaned, Written, Ascii;
    Words();
    Numbers();
    var more := Show(text) + rest;
    MoveRuns(N0, DOWN12, more, PlaceOf(k + 1));
    ShowRuns(text, rest, PlaceOf(k + 2));
  }

  lemma {:induction false} RowsRun(lines: seq<Bytes>, rest: Bytes)
    ensures Run(Rows(lines) + rest, [], PlaceOf(2)) == Column(AllCleaned(lines), 3) + Run(rest, [], PlaceOf(2 + |lines|))
  {
    hide Run, Show, Cleaned, PlaceOf;
    if lines == [] {
      assert Rows(lines) + rest == rest;
    } else {
      var n := |lines| - 1;
      RowsRun(lines[..n], NEXT_ROW + (Show(lines[n]) + rest));
      BodyRowRuns(lines[n], rest, 1 + n);
      assert Rows(lines) + rest == Rows(lines[..n]) + (NEXT_ROW + (Show(lines[n]) + rest));
      assert Column(AllCleaned(lines), 3) == Column(AllCleaned(lines[..n]), 3) + [Placed(Cleaned(lines[n]), PlaceOf(3 + n))];
    }
  }

  /** A page: its title, its headings, the rule and its lines, each at its place, and nothing else. */
  lemma PageIsLaidOut(title: Bytes, header: Bytes, sep: Bytes, lines: seq<Bytes>)
    ensures Run(PageStream(title, header, sep, lines), [], NOWHERE) == Column(AllCleaned([title, header, sep] + lines), 0)
  {
    hide Run, Show, Cleaned, Rows, PAGE_START, BODY_FONT, NEXT_ROW, PAGE_END;
    var s4 := Rows(lines) + PAGE_END;
    var s3 := NEXT_ROW + (Show(sep) + s4);
    var s2 := BODY_FONT + (Show(header) + s3);
    TitleRuns(title, s2);
    HeadingRuns(header, s3);
    BodyRowRuns(sep, s4, 0);
    RowsRun(lines, PAGE_END);
    EndRuns(PlaceOf(2 + |lines|));
    assert PageStream(title, header, sep, lines) == PAGE_START + (Show(title) + s2);
    assert Column(AllCleaned([title, header, sep] + lines), 0)
        == [Placed(Cleaned(title), PlaceOf(0))] + ([Placed(Cleaned(header), PlaceOf(1))] + ([Placed(Cleaned(sep), PlaceOf(2))] + Column(AllCleaned(lines), 3)));
  }

  lemma TitleIsWritten(more: Bytes)
    ensures PAGE_START + more == BT + ([NL] + (Written([SLASH] + FONT_BOLD, N14, TF) + (Written(N40, N752, TD) + more)))
  {
    hide Written, Ascii;
    Words();
  }

  lemma TitleRuns(title: Bytes, rest: Bytes)
    ensures Run(PAGE_START + (Show(title) + rest), [], NOWHERE) == [Placed(Cleaned(title), PlaceOf(0))] + Run(rest, [], PlaceOf(0))
  {
    hide Run, Show, Cleaned, Written, PAGE_START;
    Numbers();
    var more := Show(title) + rest;
    TitleIsWritten(more);
    var moved := Written(N40, N752, TD) + more;
    var fonted := Written([SLASH] + FONT_BOLD, N14, TF) + moved;
    OperatorRuns(BT, fonted, [], NOWHERE);
    FontRuns(FONT_BOLD, N14, moved, NOWHERE);
    MoveRuns(N40, N752, more, NOWHERE.(font := FONT_BOLD, size := 14));
    ShowRuns(title, rest, PlaceOf(0));
  }

  lemma HeadingRuns(header: Bytes, rest: Bytes)
    ensures Run(BODY_FONT + (Show(header) + rest), [], PlaceOf(0)) == [Placed(Cleaned(header), PlaceOf(1))] + Run(rest, [], PlaceOf(1))
  {
    hide Run, Show, Cleaned, Written, Ascii;
    Words();
    Numbers();
    var more := Show(header) + rest;
    var moved := Written(N0, DOWN22, TD) + more;
    assert BODY_FONT + more == Written([SLASH] + FONT_BODY, N8, TF) + moved;
    FontRuns(FONT_BODY, N8, moved, PlaceOf(0));
    MoveRuns(N0, DOWN22, more, PlaceOf(0).(font := FONT_BODY, size := 8));
    ShowRuns(header, rest, PlaceOf(1));
  }

  lemma EndRuns(at: Place)
    ensures Run(PAGE_END, [], at) == []
  {
    hide Run;
    Words();
    OperatorRuns(ET, [], [], at);
    assert PAGE_END == ET + ([NL] + []);
    assert Run([], [], at) == [] by { NothingRuns(at); }
  }

  lemma NothingRuns(at: Place)
    ensures Run([], [], at) == []
  {
  }

  /**
   * A page's texts stand one below the other: the title in 14-point bold at the
   * top, the others in 8-point Courier under it, 12 points apart, every one at the
   * left margin and none below the bottom margin.
   */
  ghost predicate StandsOnPage(stream: Bytes) {
    var ps, texts := Run(stream, [], NOWHERE), ShownTexts(stream);
    && |ps| == |texts|
    && forall k | 0 <= k < |ps| ::
         && ps[k].text == texts[k] && ps[k].at.x == 40 && ps[k].at.y >= 48
         && (k == 0 ==> ps[k].at == Place([0x46, 0x32], 14, 40, 752))
         && (k >= 1 ==> ps[k].at == Place([0x46, 0x31], 8, 40, 730 - 12 * (k - 1)))
  }

  lemma FullPageFits(title: Bytes, header: Bytes, sep: Bytes, lines: seq<Bytes>)
    requires |lines| <= 55
    ensures StandsOnPage(PageStream(title, header, sep, lines))
  {
    hide Run, ShownTexts, PageStream, Cleaned;
    PageIsLaidOut(title, header, sep, lines);
    PageShows(title, header, sep, lines);
    var texts := AllCleaned([title, header, sep] + lines);
    var ps := Column(texts, 0);
    forall k | 0 <= k < |ps| ensures ps[k] == Placed(texts[k], PlaceOf(k)) {
      assert 0 + k == k;
    }
    assert |texts| <= 58;
  }
}
