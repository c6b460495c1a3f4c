/** A reader of PDF files that follows what is written in them: from startxref to each page's own stream. */
module PdfReader {
  import opened Prelude
  import opened Texts
  import opened Decimal
  import opened PdfFile

  const SLASH: byte := 0x2f

  /** What stands behind the first occurrence of a key. */
  function AfterKey(s: Bytes, key: Bytes): Option<Bytes> {
    if |s| < |key| then None
    else if s[..|key|] == key then Some(s[|key|..])
    else if s == [] then None
    else AfterKey(s[1..], key)
  }

  /** The object that the first occurrence of a key refers to. */
  function RefAfter(s: Bytes, key: Bytes): Option<nat> {
    match AfterKey(s, key)
    case None => None
    case Some(rest) => if RefsIn(rest) == [] then None else Some(RefsIn(rest)[0])
  }

  /** An object and all that follows it in the file, found through the cross-reference table. */
  function ObjectAt(file: Bytes, n: nat): Bytes {
    Drop(file, XrefOffset(file, n))
  }

  /** The data of a stream object, as many bytes as it says, if they end where they should. */
  function ReadStream(s: Bytes): Option<Bytes> {
    match AfterKey(s, LENGTH_KEY)
    case None => None
    case Some(rest) =>
      var k := DigitRun(rest);
      var length, start := Value(rest[..k]), k + |STREAM_START|;
      if k == 0 || |rest| < start + length + |STREAM_END| || rest[k..start] != STREAM_START
         || rest[start + length..start + length + |STREAM_END|] != STREAM_END
      then None else Some(rest[start..start + length])
  }

  function ReadPage(file: Bytes, page: nat): Option<Bytes> {
    match RefAfter(ObjectAt(file, page), CONTENTS_KEY)
    case None => None
    case Some(contents) => ReadStream(ObjectAt(file, contents))
  }

  function ReadKids(file: Bytes, kids: seq<nat>): Option<seq<Bytes>> {
    if kids == [] then Some([])
    else
      var last := ReadPage(file, kids[|kids| - 1]);
      match ReadKids(file, kids[..|kids| - 1])
      case None => None
      case Some(front) => if last.None? then None else Some(front + [last.value])
  }

  /** The content streams of a file's pages: startxref, root, page tree, kids, contents, and the data itself. */
  function ReadPages(file: Bytes): Option<seq<Bytes>> {
    match RefAfter(Drop(file, StartXref(file)), ROOT_KEY)
    case None => None
    case Some(root) =>
      match RefAfter(ObjectAt(file, root), PAGES_KEY)
      case None => None
      case Some(tree) =>
        match AfterKey(ObjectAt(file, tree), KIDS_KEY)
        case None => None
        case Some(kids) => ReadKids(file, RefsIn(kids))
  }

  // ---- A key is found where it was put ----

  /** No name in the text starts with `c`. */
  predicate NoName(s: Bytes, c: byte) {
    forall i | 0 <= i < |s| :: s[i] == SLASH ==> i + 1 < |s| && s[i + 1] != c
  }

  lemma {:induction false} KeyIsFound(front: Bytes, key: Bytes, rest: Bytes)
    requires |key| >= 2 && key[0] == SLASH && NoName(front, key[1])
    ensures AfterKey(front + key + rest, key) == Some(rest)
  {
    var s := front + key + rest;
    if front == [] {
      assert s == key + rest;
    } else {
      assert s[..|key|][0] == front[0] && (|front| > 1 ==> s[..|key|][1] == front[1]);
      assert s[1..] == front[1..] + key + rest;
      KeyIsFound(front[1..], key, rest);
    }
  }

  lemma RefIsFound(front: Bytes, key: Bytes, n: nat, tail: Bytes)
    requires |key| >= 2 && key[0] == SLASH && NoName(front, key[1])
    ensures RefAfter(front + key + (Ref(n) + tail), key) == Some(n)
  {
    hide AfterKey, RefsIn, Ref, NoName;
    KeyIsFound(front, key, Ref(n) + tail);
    RefReadsAs(n, tail);
  }

  lemma NoNameConcat(a: Bytes, b: Bytes, c: byte)
    requires NoName(a, c) && NoName(b, c)
    ensures NoName(a + b, c)
  {
  }

  lemma NoSlashNoName(s: Bytes, c: byte)
    requires SLASH !in s
    ensures NoName(s, c)
  {
  }

  lemma TextNoName(s: string, c: byte)
    requires forall i | 0 <= i < |s| :: s[i] as int < 0x100
    requires forall i | 0 <= i < |s| :: s[i] == '/' ==> i + 1 < |s| && s[i + 1] as int != c as int
    ensures NoName(Ascii(s), c)
  {
  }

  lemma DigitsNoName(n: nat, c: byte)
    ensures NoName(Digits(n), c)
  {
    assert forall b <- Digits(n) :: IsDigit(b);
  }

  // ---- What is found in a written file ----

  /** An object's text stands at its place, so reading from there starts with it. */
  lemma ObjectStartsThere(objects: seq<Bytes>, n: nat, body: Bytes) returns (rest: Bytes)
    requires Addressable(objects) && 0 < n <= |objects| && objects[n - 1] == body
    ensures ObjectAt(FileOf(objects), n) == Digits(n) + Ascii(" 0 obj\n") + (body + rest)
  {
    hide FileOf, XrefOffset, Addressable, Ascii, Digits;
    var file, at := FileOf(objects), XrefOffset(FileOf(objects), n);
    ObjectIsFound(objects, n, body);
    var text := ObjectText(n, body);
    assert file[at..at + |text|] == text;
    assert |text| > 0;
    rest := Ascii("\nendobj\n") + file[at + |text|..];
    assert file[at..] == text + file[at + |text|..];
  }

  lemma ObjectHeadHasNoName(n: nat, c: byte)
    ensures NoName(Digits(n) + Ascii(" 0 obj\n"), c)
  {
    hide NoName, Ascii;
    DigitsNoName(n, c);
    TextNoName(" 0 obj\n", c);
    NoNameConcat(Digits(n), Ascii(" 0 obj\n"), c);
  }

  lemma Keys()
    ensures |ROOT_KEY| == 6 && ROOT_KEY[0] == SLASH && ROOT_KEY[1] == 0x52
    ensures |PAGES_KEY| == 7 && PAGES_KEY[0] == SLASH && PAGES_KEY[1] == 0x50
    ensures |KIDS_KEY| == 7 && KIDS_KEY[0] == SLASH && KIDS_KEY[1] == 0x4b
    ensures |CONTENTS_KEY| == 10 && CONTENTS_KEY[0] == SLASH && CONTENTS_KEY[1] == 0x43
    ensures |LENGTH_KEY| == 8 && LENGTH_KEY[0] == SLASH && LENGTH_KEY[1] == 0x4c
  {
  }

  lemma HeadsHaveNoKey()
    ensures NoName(CATALOG_HEAD, 0x50) && NoName(PAGES_HEAD, 0x4b) && NoName(STREAM_HEAD, 0x4c) && NoName(TRAILER_HEAD, 0x52)
  {
    hide NoName, Ascii;
    TextNoName("<< /Type /Catalog ", 0x50);
    TextNoName("<< /Type /Pages ", 0x4b);
    TextNoName("<< ", 0x4c);
    TextNoName("trailer\n<< /Size ", 0x52);
  }

  lemma PageHeadHasNoKey()
    ensures NoName(PAGE_HEAD, 0x43) && NoName(PAGE_BOX, 0x43) && NoName(PAGE_RESOURCES, 0x43) && NoName(PAGE_FONTS, 0x43)
  {
    hide NoName, Ascii;
    TextNoName("<< /Type /Page /Parent 2 0 R ", 0x43);
    TextNoName("/MediaBox [0 0 612 792] ", 0x43);
    PageFontsHaveNoKey();
  }

  lemma PageFontsHaveNoKey()
    ensures NoName(PAGE_RESOURCES, 0x43) && NoName(PAGE_FONTS, 0x43)
  {
    hide NoName, Ascii;
    TextNoName("/Resources << /Font << ", 0x43);
    TextNoName("/F1 3 0 R /F2 4 0 R >> >> ", 0x43);
  }

  lemma CatalogNamesPages(objects: seq<Bytes>)
    requires Addressable(objects) && |objects| > 0 && objects[0] == CATALOG
    ensures RefAfter(ObjectAt(FileOf(objects), 1), PAGES_KEY) == Some(2)
  {
    hide RefAfter, Ref, Ascii, NoName, Addressable, FileOf, ObjectAt, Digits;
    var rest := ObjectStartsThere(objects, 1, CATALOG);
    var head := Digits(1) + Ascii(" 0 obj\n");
    Keys();
    HeadsHaveNoKey();
    ObjectHeadHasNoName(1, 0x50);
    NoNameConcat(head, CATALOG_HEAD, 0x50);
    RefIsFound(head + CATALOG_HEAD, PAGES_KEY, 2, DICT_END + rest);
    assert head + (CATALOG + rest) == head + CATALOG_HEAD + PAGES_KEY + (Ref(2) + (DICT_END + rest));
  }

  lemma PagesNameKids(objects: seq<Bytes>, n: nat)
    requires Addressable(objects) && |objects| > 1 && objects[1] == PagesBody(TrimSpace(KidsText(n)), n)
    ensures var kids := AfterKey(ObjectAt(FileOf(objects), 2), KIDS_KEY);
            kids.Some? && RefsIn(kids.value) == PageNumbers(n)
  {
    hide AfterKey, RefsIn, Ref, Ascii, NoName, Addressable, FileOf, ObjectAt, Digits, TrimSpace, KidsText;
    var kids := TrimSpace(KidsText(n));
    var rest := ObjectStartsThere(objects, 2, PagesBody(kids, n));
    var head := Digits(2) + Ascii(" 0 obj\n");
    Keys();
    HeadsHaveNoKey();
    ObjectHeadHasNoName(2, 0x4b);
    NoNameConcat(head, PAGES_HEAD, 0x4b);
    var count := Ascii(" /Count ") + Digits(n) + DICT_END + rest;
    var tail := [0x5d as byte] + count;
    CountMark();
    assert Ascii("] /Count ") + Digits(n) + DICT_END + rest == tail;
    KeyIsFound(head + PAGES_HEAD, KIDS_KEY, kids + tail);
    assert head + (PagesBody(kids, n) + rest) == head + PAGES_HEAD + KIDS_KEY + (kids + tail);
    assert RefsIn(count) == [] by { NoRefs(count); }
    KidsArePages(n, 0x5d, count);
    assert kids + [0x5d] + count == kids + tail;
  }

  lemma CountMark()
    ensures Ascii("] /Count ") == [0x5d] + Ascii(" /Count ") && |Ascii(" /Count ")| == 8 && !IsDigit(Ascii(" /Count ")[0])
  {
  }

  lemma PageNamesContents(objects: seq<Bytes>, page: nat, contents: nat)
    requires Addressable(objects) && 0 < page <= |objects| && objects[page - 1] == PageBody(contents)
    ensures RefAfter(ObjectAt(FileOf(objects), page), CONTENTS_KEY) == Some(contents)
  {
    hide RefAfter, Ref, Ascii, NoName, Addressable, FileOf, ObjectAt, Digits;
    var rest := ObjectStartsThere(objects, page, PageBody(contents));
    var head := Digits(page) + Ascii(" 0 obj\n");
    Keys();
    PageHeadHasNoKey();
    ObjectHeadHasNoName(page, 0x43);
    NoNameConcat(head, PAGE_HEAD, 0x43);
    NoNameConcat(head + PAGE_HEAD, PAGE_BOX, 0x43);
    NoNameConcat(head + PAGE_HEAD + PAGE_BOX, PAGE_RESOURCES, 0x43);
    NoNameConcat(head + PAGE_HEAD + PAGE_BOX + PAGE_RESOURCES, PAGE_FONTS, 0x43);
    var front := head + PAGE_HEAD + PAGE_BOX + PAGE_RESOURCES + PAGE_FONTS;
    RefIsFound(front, CONTENTS_KEY, contents, DICT_END + rest);
    assert head + (PageBody(contents) + rest) == front + CONTENTS_KEY + (Ref(contents) + (DICT_END + rest));
  }

  /** A stream object gives back its data, the length being the one it states. */
  lemma StreamIsRead(objects: seq<Bytes>, n: nat, s: Bytes)
    requires Addressable(objects) && 0 < n <= |objects| && objects[n - 1] == StreamBody(s)
    ensures ReadStream(ObjectAt(FileOf(objects), n)) == Some(s)
  {
    hide AfterKey, Ascii, NoName, Addressable, FileOf, ObjectAt, Digits, Value, DigitRun;
    var rest := ObjectStartsThere(objects, n, StreamBody(s));
    var head := Digits(n) + Ascii(" 0 obj\n");
    var ds := Digits(|s|);
    var data := STREAM_START + s + STREAM_END + rest;
    Keys();
    HeadsHaveNoKey();
    ObjectHeadHasNoName(n, 0x4c);
    NoNameConcat(head, STREAM_HEAD, 0x4c);
    KeyIsFound(head + STREAM_HEAD, LENGTH_KEY, ds + data);
    assert head + (StreamBody(s) + rest) == head + STREAM_HEAD + LENGTH_KEY + (ds + data);
    StreamMark();
    DigitRunOf(ds, data);
    DigitsRead(|s|);
    DataIsRead(ds, s, rest);
  }

  lemma StreamMark()
    ensures STREAM_START != [] && !IsDigit(STREAM_START[0])
  {
  }

  lemma DataIsRead(ds: Bytes, s: Bytes, rest: Bytes)
    ensures var text, start := ds + (STREAM_START + s + STREAM_END + rest), |ds| + |STREAM_START|;
            && text[..|ds|] == ds && |text| >= start + |s| + |STREAM_END|
            && text[|ds|..start] == STREAM_START && text[start..start + |s|] == s
            && text[start + |s|..start + |s| + |STREAM_END|] == STREAM_END
  {
    hide Ascii;
    var text, start := ds + (STREAM_START + s + STREAM_END + rest), |ds| + |STREAM_START|;
    assert text == ds + STREAM_START + (s + (STREAM_END + rest));
    assert text == ds + STREAM_START + s + (STREAM_END + rest);
  }

  lemma {:induction false} EntriesHaveNoSlash(objects: seq<Bytes>, k: nat)
    requires k <= |objects|
    ensures SLASH !in Entries(objects, k)
  {
    hide Padded, OffsetOf;
    if k > 0 {
      EntriesHaveNoSlash(objects, k - 1);
      assert forall b <- Padded(OffsetOf(objects, k), 10) :: IsDigit(b);
    }
  }

  lemma XrefHeadHasNoSlash(size: nat)
    ensures SLASH !in XrefHead(size)
  {
    assert forall b <- Digits(size) :: IsDigit(b);
  }

  lemma TrailerNamesRoot(objects: seq<Bytes>)
    ensures RefAfter(Drop(FileOf(objects), StartXref(FileOf(objects))), ROOT_KEY) == Some(1)
  {
    hide RefAfter, Ref, Ascii, NoName, Body, Entries, XrefHead, Digits, StartXref;
    var n, at := |objects|, |Body(objects, |objects|)|;
    StartxrefPointsAtTable(objects);
    var front := XrefHead(n + 1) + Entries(objects, n) + TRAILER_HEAD + Digits(n + 1) + [SPACE];
    var tail := TRAILER_END + Digits(at) + EOF_MARK;
    Keys();
    HeadsHaveNoKey();
    XrefHeadHasNoSlash(n + 1);
    EntriesHaveNoSlash(objects, n);
    NoSlashNoName(XrefHead(n + 1) + Entries(objects, n), 0x52);
    NoSlashNoName([SPACE], 0x52);
    DigitsNoName(n + 1, 0x52);
    NoNameConcat(XrefHead(n + 1) + Entries(objects, n), TRAILER_HEAD, 0x52);
    NoNameConcat(XrefHead(n + 1) + Entries(objects, n) + TRAILER_HEAD, Digits(n + 1), 0x52);
    NoNameConcat(XrefHead(n + 1) + Entries(objects, n) + TRAILER_HEAD + Digits(n + 1), [SPACE], 0x52);
    RefIsFound(front, ROOT_KEY, 1, tail);
    assert FileOf(objects) == Body(objects, n) + (front + ROOT_KEY + (Ref(1) + tail));
    assert Drop(FileOf(objects), at) == front + ROOT_KEY + (Ref(1) + tail);
  }

  lemma PageIsRead(objects: seq<Bytes>, streams: seq<Bytes>, i: nat)
    requires IsDocument(objects, streams) && Addressable(objects) && i < |streams|
    ensures ReadPage(FileOf(objects), PageObj(i)) == Some(streams[i])
  {
    hide FileOf, Addressable, RefAfter, ReadStream, ObjectAt, PageBody, StreamBody;
    PageNamesContents(objects, PageObj(i), ContentObj(i));
    StreamIsRead(objects, ContentObj(i), streams[i]);
  }

  lemma {:induction false} KidsAreRead(objects: seq<Bytes>, streams: seq<Bytes>, n: nat)
    requires IsDocument(objects, streams) && Addressable(objects) && n <= |streams|
    ensures ReadKids(FileOf(objects), PageNumbers(n)) == Some(streams[..n])
  {
    hide FileOf, Addressable, ReadPage, IsDocument;
    if n > 0 {
      KidsAreRead(objects, streams, n - 1);
      PageIsRead(objects, streams, n - 1);
      assert PageNumbers(n)[..n - 1] == PageNumbers(n - 1);
      assert streams[..n] == streams[..n - 1] + [streams[n - 1]];
    } else {
      assert PageNumbers(0) == [] && streams[..0] == [];
    }
  }

  /**
   * A reader that starts at the end of the file and follows startxref, the root,
   * the page tree, the kids, their contents and the stated lengths gets back
   * exactly the streams that were written, in order. The cross-reference table
   * needs the objects to end within ten to the tenth bytes.
   */
  lemma ReaderRecoversStreams(objects: seq<Bytes>, streams: seq<Bytes>)
    requires IsDocument(objects, streams) && Addressable(objects)
    ensures ReadPages(FileOf(objects)) == Some(streams)
  {
    hide FileOf, Addressable, RefAfter, AfterKey, RefsIn, ObjectAt, ReadKids, Drop, StartXref, PagesBody, PageBody, StreamBody;
    TrailerNamesRoot(objects);
    CatalogNamesPages(objects);
    PagesNameKids(objects, |streams|);
    KidsAreRead(objects, streams, |streams|);
    assert streams[..|streams|] == streams;
  }
}
