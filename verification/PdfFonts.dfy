/** What a page of the file needs to be shown: its size, its fonts, and how many pages there are, as a reader finds them. */
module PdfFonts {
  import opened Prelude
  import opened Texts
  import opened Decimal
  import opened PdfFile
  import opened PdfReader

  const FONTS_KEY: Bytes := Ascii("/Font << /F1 ")
  const SECOND_FONT_KEY: Bytes := Ascii("/F2 ")
  const BASE_FONT_KEY: Bytes := Ascii("/BaseFont ")
  const BOX_KEY: Bytes := Ascii("/MediaBox [")
  const COUNT_KEY: Bytes := Ascii("/Count ")

  /** The typeface that a font object names. */
  predicate IsFont(file: Bytes, n: nat, face: Bytes) {
    var named := AfterKey(ObjectAt(file, n), BASE_FONT_KEY);
    named.Some? && face <= named.value
  }

  /** The fonts that a page means by F1 and F2. */
  predicate HasFonts(file: Bytes, page: nat, f1: Bytes, f2: Bytes) {
    var fonts := AfterKey(ObjectAt(file, page), FONTS_KEY);
    && fonts.Some? && RefsIn(fonts.value) != [] && RefAfter(fonts.value, SECOND_FONT_KEY).Some?
    && IsFont(file, RefsIn(fonts.value)[0], f1)
    && IsFont(file, RefAfter(fonts.value, SECOND_FONT_KEY).value, f2)
  }

  /** The size of a page, as it is written. */
  predicate HasBox(file: Bytes, page: nat, box: Bytes) {
    var b := AfterKey(ObjectAt(file, page), BOX_KEY);
    b.Some? && box <= b.value
  }

  /** How many pages the page tree says there are. */
  predicate CountsPages(file: Bytes, n: nat) {
    var c := AfterKey(ObjectAt(file, 2), COUNT_KEY);
    c.Some? && Value(c.value[..DigitRun(c.value)]) == n
  }

  lemma AsciiParts(s: string, t: string)
    ensures Ascii(s + t) == Ascii(s) + Ascii(t)
  {
  }

  /** A key in the middle of an object. */
  lemma KeyInObject(objects: seq<Bytes>, n: nat, front: Bytes, key: Bytes, rest: Bytes) returns (tail: Bytes)
    requires Addressable(objects) && 0 < n <= |objects| && objects[n - 1] == front + key + rest
    requires |key| >= 2 && key[0] == SLASH && NoName(front, key[1])
    ensures AfterKey(ObjectAt(FileOf(objects), n), key) == Some(rest + tail)
  {
    hide AfterKey, Ascii, NoName, Addressable, FileOf, ObjectAt, Digits;
    var head := Digits(n) + Ascii(" 0 obj\n");
    tail := ObjectStartsThere(objects, n, front + key + rest);
    ObjectHeadHasNoName(n, key[1]);
    NoNameConcat(head, front, key[1]);
    KeyIsFound(head + front, key, rest + tail);
    assert head + (front + key + rest + tail) == head + front + key + (rest + tail);
  }

  lemma FontNames(objects: seq<Bytes>, n: nat, face: string)
    requires Addressable(objects) && 0 < n <= |objects|
    requires objects[n - 1] == Ascii("<< /Type /Font /Subtype /Type1 ") + BASE_FONT_KEY + Ascii(face)
    ensures IsFont(FileOf(objects), n, Ascii(face))
  {
    hide AfterKey, Ascii, NoName, Addressable, FileOf, ObjectAt;
    TextNoName("<< /Type /Font /Subtype /Type1 ", 0x42);
    KeyBytes();
    var _ := KeyInObject(objects, n, Ascii("<< /Type /Font /Subtype /Type1 "), BASE_FONT_KEY, Ascii(face));
  }

  lemma KeyBytes()
    ensures |BASE_FONT_KEY| >= 2 && BASE_FONT_KEY[0] == SLASH && BASE_FONT_KEY[1] == 0x42
    ensures |FONTS_KEY| >= 2 && FONTS_KEY[0] == SLASH && FONTS_KEY[1] == 0x46
    ensures |SECOND_FONT_KEY| >= 2 && SECOND_FONT_KEY[0] == SLASH && SECOND_FONT_KEY[1] == 0x46
    ensures |BOX_KEY| >= 2 && BOX_KEY[0] == SLASH && BOX_KEY[1] == 0x4d
    ensures |COUNT_KEY| >= 2 && COUNT_KEY[0] == SLASH && COUNT_KEY[1] == 0x43
  {
  }

  lemma FontParts()
    ensures COURIER == Ascii("<< /Type /Font /Subtype /Type1 ") + BASE_FONT_KEY + Ascii("/Courier >>")
    ensures HELVETICA_BOLD == Ascii("<< /Type /Font /Subtype /Type1 ") + BASE_FONT_KEY + Ascii("/Helvetica-Bold >>")
  {
    hide Ascii;
    AsciiParts("<< /Type /Font /Subtype /Type1 ", "/BaseFont ");
    AsciiParts("<< /Type /Font /Subtype /Type1 " + "/BaseFont ", "/Courier >>");
    AsciiParts("<< /Type /Font /Subtype /Type1 " + "/BaseFont ", "/Helvetica-Bold >>");
    assert "<< /Type /Font /Subtype /Type1 " + "/BaseFont " + "/Courier >>" == "<< /Type /Font /Subtype /Type1 /BaseFont /Courier >>";
    assert "<< /Type /Font /Subtype /Type1 " + "/BaseFont " + "/Helvetica-Bold >>"
        == "<< /Type /Font /Subtype /Type1 /BaseFont /Helvetica-Bold >>";
  }

  lemma PageParts()
    ensures PAGE_BOX == BOX_KEY + Ascii("0 0 612 792] ")
    ensures PAGE_RESOURCES + PAGE_FONTS
         == Ascii("/Resources << ") + FONTS_KEY + (Ref(3) + ([SPACE] + (SECOND_FONT_KEY + (Ref(4) + Ascii(" >> >> ")))))
  {
    hide Ascii;
    AsciiParts("/MediaBox [", "0 0 612 792] ");
    assert "/MediaBox [" + "0 0 612 792] " == "/MediaBox [0 0 612 792] ";
    FontRefs();
    AsciiParts("/Resources << ", "/Font << ");
    AsciiParts("/Font << ", "/F1 ");
    assert "/Font << " + "/F1 " == "/Font << /F1 ";
    assert "/Resources << " + "/Font << " == "/Resources << /Font << ";
  }

  lemma FontRefs()
    ensures PAGE_FONTS == Ascii("/F1 ") + (Ref(3) + ([SPACE] + (SECOND_FONT_KEY + (Ref(4) + Ascii(" >> >> ")))))
  {
    hide Ascii, Digits;
    ThreeAndFour();
    AsciiParts("/F1 ", "3");
    AsciiParts("/F1 " + "3", " 0 R");
    AsciiParts("/F1 " + "3" + " 0 R", " ");
    AsciiParts("/F1 " + "3" + " 0 R" + " ", "/F2 ");
    AsciiParts("/F1 " + "3" + " 0 R" + " " + "/F2 ", "4");
    AsciiParts("/F1 " + "3" + " 0 R" + " " + "/F2 " + "4", " 0 R");
    AsciiParts("/F1 " + "3" + " 0 R" + " " + "/F2 " + "4" + " 0 R", " >> >> ");
    assert "/F1 " + "3" + " 0 R" + " " + "/F2 " + "4" + " 0 R" + " >> >> " == "/F1 3 0 R /F2 4 0 R >> >> ";
  }

  lemma ThreeAndFour()
    ensures Digits(3) == Ascii("3") && Digits(4) == Ascii("4") && Ascii(" ") == [SPACE]
  {
  }

  /** Every page means Courier by F1 and bold Helvetica by F2. */
  lemma PageHasFonts(objects: seq<Bytes>, streams: seq<Bytes>, i: nat)
    requires IsDocument(objects, streams) && Addressable(objects) && i < |streams|
    ensures HasFonts(FileOf(objects), PageObj(i), Ascii("/Courier >>"), Ascii("/Helvetica-Bold >>"))
  {
    hide FileOf, Addressable, AfterKey, RefAfter, RefsIn, ObjectAt, Ascii, Ref, NoName, IsFont, StreamBody, PagesBody;
    FontParts();
    PageParts();
    KeyBytes();
    FontNames(objects, 3, "/Courier >>");
    FontNames(objects, 4, "/Helvetica-Bold >>");
    var front := PAGE_HEAD + PAGE_BOX + Ascii("/Resources << ");
    var rest := CONTENTS_KEY + Ref(ContentObj(i)) + DICT_END;
    var second := SECOND_FONT_KEY + (Ref(4) + (Ascii(" >> >> ") + rest));
    var fonts := Ref(3) + ([SPACE] + second);
    FrontHasNoFont();
    var shown := PAGE_RESOURCES + PAGE_FONTS;
    assert PageBody(ContentObj(i)) == PAGE_HEAD + PAGE_BOX + shown + rest;
    assert shown + rest == Ascii("/Resources << ") + FONTS_KEY + fonts;
    assert PAGE_HEAD + PAGE_BOX + (shown + rest) == front + FONTS_KEY + fonts;
    var tail := KeyInObject(objects, PageObj(i), front, FONTS_KEY, fonts);
    assert fonts + tail == Ref(3) + ([SPACE] + (second + tail));
    RefReadsAs(3, [SPACE] + (second + tail));
    SecondFont(Ascii(" >> >> ") + rest + tail);
    assert fonts + tail == Ref(3) + [SPACE] + SECOND_FONT_KEY + (Ref(4) + (Ascii(" >> >> ") + rest + tail));
  }

  lemma SecondFont(tail: Bytes)
    ensures RefAfter(Ref(3) + [SPACE] + SECOND_FONT_KEY + (Ref(4) + tail), SECOND_FONT_KEY) == Some(4)
  {
    hide RefAfter, NoName;
    KeyBytes();
    assert SLASH !in Ref(3) + [SPACE];
    NoSlashNoName(Ref(3) + [SPACE], 0x46);
    RefIsFound(Ref(3) + [SPACE], SECOND_FONT_KEY, 4, tail);
  }

  lemma FrontHasNoFont()
    ensures NoName(PAGE_HEAD + PAGE_BOX + Ascii("/Resources << "), 0x46)
  {
    hide NoName, Ascii;
    TextNoName("<< /Type /Page /Parent 2 0 R ", 0x46);
    TextNoName("/MediaBox [0 0 612 792] ", 0x46);
    TextNoName("/Resources << ", 0x46);
    NoNameConcat(PAGE_HEAD, PAGE_BOX, 0x46);
    NoNameConcat(PAGE_HEAD + PAGE_BOX, Ascii("/Resources << "), 0x46);
  }

  /** Every page is of US Letter size, 612 by 792 points. */
  lemma PageHasBox(objects: seq<Bytes>, streams: seq<Bytes>, i: nat)
    requires IsDocument(objects, streams) && Addressable(objects) && i < |streams|
    ensures HasBox(FileOf(objects), PageObj(i), Ascii("0 0 612 792] "))
  {
    hide FileOf, Addressable, AfterKey, ObjectAt, Ascii, Ref, NoName, StreamBody, PagesBody;
    PageParts();
    KeyBytes();
    TextNoName("<< /Type /Page /Parent 2 0 R ", 0x4d);
    var rest := Ascii("0 0 612 792] ") + (PAGE_RESOURCES + PAGE_FONTS + CONTENTS_KEY + Ref(ContentObj(i)) + DICT_END);
    assert PageBody(ContentObj(i)) == PAGE_HEAD + BOX_KEY + rest;
    var _ := KeyInObject(objects, PageObj(i), PAGE_HEAD, BOX_KEY, rest);
  }

  /** The page tree counts the pages. */
  lemma TreeCountsPages(objects: seq<Bytes>, streams: seq<Bytes>)
    requires IsDocument(objects, streams) && Addressable(objects)
    ensures CountsPages(FileOf(objects), |streams|)
  {
    hide FileOf, Addressable, AfterKey, ObjectAt, Ascii, NoName, StreamBody, PageBody, TrimSpace, KidsText, Digits, Value, DigitRun;
    var n, kids := |streams|, TrimSpace(KidsText(|streams|));
    KeyBytes();
    CountParts();
    var front := PAGES_HEAD + KIDS_KEY + kids + Ascii("] ");
    FrontHasNoCount(n);
    assert PagesBody(kids, n) == front + COUNT_KEY + (Digits(n) + DICT_END);
    var tail := KeyInObject(objects, 2, front, COUNT_KEY, Digits(n) + DICT_END);
    var s := Digits(n) + (DICT_END + tail);
    assert Digits(n) + DICT_END + tail == s;
    DictEnds();
    DigitRunOf(Digits(n), DICT_END + tail);
    assert s[..|Digits(n)|] == Digits(n);
    DigitsRead(n);
  }

  lemma CountParts()
    ensures Ascii("] /Count ") == Ascii("] ") + COUNT_KEY
  {
  }

  lemma DictEnds()
    ensures DICT_END != [] && !IsDigit(DICT_END[0])
  {
  }

  lemma FrontHasNoCount(n: nat)
    ensures NoName(PAGES_HEAD + KIDS_KEY + TrimSpace(KidsText(n)) + Ascii("] "), 0x43)
  {
    hide NoName, Ascii, KidsText, TrimSpace;
    TextNoName("<< /Type /Pages ", 0x43);
    TextNoName("/Kids [", 0x43);
    TextNoName("] ", 0x43);
    var kids := TrimSpace(KidsText(n));
    KidsHaveNoSlash(n);
    var from := TrimSpaceShape(KidsText(n));
    assert forall b <- kids :: b in KidsText(n);
    NoSlashNoName(kids, 0x43);
    NoNameConcat(PAGES_HEAD, KIDS_KEY, 0x43);
    NoNameConcat(PAGES_HEAD + KIDS_KEY, kids, 0x43);
    NoNameConcat(PAGES_HEAD + KIDS_KEY + kids, Ascii("] "), 0x43);
  }

  lemma {:induction false} KidsHaveNoSlash(n: nat)
    ensures SLASH !in KidsText(n)
  {
    if n > 0 {
      KidsHaveNoSlash(n - 1);
      assert forall b <- Digits(PageObj(n - 1)) :: IsDigit(b);
    }
  }
}
