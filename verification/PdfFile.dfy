/** Assembling a PDF: the object graph, the byte offset of each object, and a reader that follows them. */
module PdfFile {
  import opened Prelude
  import opened Texts
  import opened Decimal

  // ---- Objects ----

  /** An indirect reference to an object. */
  function Ref(n: nat): Bytes {
    Digits(n) + Ascii(" 0 R")
  }

  function ContentObj(i: nat): nat { 5 + 2 * i }

  function PageObj(i: nat): nat { 6 + 2 * i }

  function KidsText(n: nat): Bytes {
    if n == 0 then [] else KidsText(n - 1) + (Ref(PageObj(n - 1)) + [SPACE])
  }

  const ROOT_KEY: Bytes := Ascii("/Root ")
  const PAGES_KEY: Bytes := Ascii("/Pages ")
  const KIDS_KEY: Bytes := Ascii("/Kids [")
  const CONTENTS_KEY: Bytes := Ascii("/Contents ")
  const LENGTH_KEY: Bytes := Ascii("/Length ")

  const COURIER: Bytes := Ascii("<< /Type /Font /Subtype /Type1 /BaseFont /Courier >>")
  const HELVETICA_BOLD: Bytes := Ascii("<< /Type /Font /Subtype /Type1 /BaseFont /Helvetica-Bold >>")
  const CATALOG_HEAD: Bytes := Ascii("<< /Type /Catalog ")
  const PAGES_HEAD: Bytes := Ascii("<< /Type /Pages ")
  const PAGE_HEAD: Bytes := Ascii("<< /Type /Page /Parent 2 0 R ")
  const PAGE_BOX: Bytes := Ascii("/MediaBox [0 0 612 792] ")
  const PAGE_RESOURCES: Bytes := Ascii("/Resources << /Font << ")
  const PAGE_FONTS: Bytes := Ascii("/F1 3 0 R /F2 4 0 R >> >> ")
  const STREAM_HEAD: Bytes := Ascii("<< ")
  const STREAM_START: Bytes := Ascii(" >>\nstream\n")
  const STREAM_END: Bytes := Ascii("\nendstream")
  const DICT_END: Bytes := Ascii(" >>")

  const CATALOG: Bytes := CATALOG_HEAD + PAGES_KEY + Ref(2) + DICT_END

  function PagesBody(kids: Bytes, count: nat): Bytes {
    PAGES_HEAD + KIDS_KEY + kids + Ascii("] /Count ") + Digits(count) + DICT_END
  }

  function StreamBody(s: Bytes): Bytes {
    STREAM_HEAD + LENGTH_KEY + Digits(|s|) + STREAM_START + s + STREAM_END
  }

  function PageBody(contents: nat): Bytes {
    PAGE_HEAD + PAGE_BOX + PAGE_RESOURCES + PAGE_FONTS + CONTENTS_KEY + Ref(contents) + DICT_END
  }

  /** The document's objects, which its streams determine; number i is at index i - 1. */
  predicate IsDocument(objects: seq<Bytes>, streams: seq<Bytes>) {
    && |objects| == 4 + 2 * |streams|
    && objects[0] == CATALOG
    && objects[1] == PagesBody(TrimSpace(KidsText(|streams|)), |streams|)
    && objects[2] == COURIER && objects[3] == HELVETICA_BOLD
    && forall i | 0 <= i < |streams| ::
         && objects[ContentObj(i) - 1] == StreamBody(streams[i])
         && objects[PageObj(i) - 1] == PageBody(ContentObj(i))
  }

  method BuildObjects(streams: seq<Bytes>) returns (objects: seq<Bytes>)
    ensures IsDocument(objects, streams)
  {
    hide PagesBody, StreamBody, PageBody, TrimSpace, Ref, KidsText;
    var n := |streams|;
    objects := [CATALOG];
    var kids: Bytes := [];
    NoKids();
    for i := 0 to n
      invariant kids == KidsText(i)
    {
      MoreKids(i);
      kids := kids + (Ref(PageObj(i)) + [SPACE]);
    }
    objects := objects + [PagesBody(TrimSpace(kids), n)];
    objects := objects + [COURIER];
    objects := objects + [HELVETICA_BOLD];
    for i := 0 to n
      invariant |objects| == 4 + 2 * i
      invariant objects[..4] == [CATALOG, PagesBody(TrimSpace(KidsText(n)), n), COURIER, HELVETICA_BOLD]
      invariant forall k | 0 <= k < i :: objects[4 + 2 * k] == StreamBody(streams[k]) && objects[5 + 2 * k] == PageBody(5 + 2 * k)
    {
      objects := objects + [StreamBody(streams[i])];
      objects := objects + [PageBody(ContentObj(i))];
    }
    assert forall k | 0 <= k < 4 :: objects[k] == objects[..4][k];
  }

  lemma NoKids()
    ensures KidsText(0) == []
  {
  }

  lemma MoreKids(i: nat)
    ensures KidsText(i + 1) == KidsText(i) + (Ref(PageObj(i)) + [SPACE])
  {
  }

  // ---- Reading references ----

  /** How many digits a text starts with. */
  function DigitRun(s: Bytes): (k: nat)
    ensures k <= |s|
  {
    if s != [] && IsDigit(s[0]) then 1 + DigitRun(s[1..]) else 0
  }

  lemma {:induction false} DigitRunOf(ds: Bytes, rest: Bytes)
    requires forall i | 0 <= i < |ds| :: IsDigit(ds[i])
    requires rest == [] || !IsDigit(rest[0])
    ensures DigitRun(ds + rest) == |ds|
  {
    if ds == [] {
      assert ds + rest == rest;
    } else {
      assert (ds + rest)[1..] == ds[1..] + rest;
      DigitRunOf(ds[1..], rest);
    }
  }

  /** The object numbers of a list of references, a space between. */
  function RefsIn(s: Bytes): seq<nat>
    decreases |s|
  {
    var k := DigitRun(s);
    if k == 0 || |s| < k + 4 || s[k..k + 4] != Ascii(" 0 R") then []
    else [Value(s[..k])] + RefsIn(if |s| == k + 4 then [] else s[k + 5..])
  }

  lemma RefReads(n: nat, rest: Bytes)
    ensures RefsIn(Ref(n)) == [n]
    ensures RefsIn(Ref(n) + [SPACE] + rest) == [n] + RefsIn(rest)
  {
    hide Value, IsDigit;
    RefReadsAs(n, []);
    RefReadsAs(n, [SPACE] + rest);
    assert Ref(n) + [] == Ref(n) && Ref(n) + [SPACE] + rest == Ref(n) + ([SPACE] + rest);
    assert ([SPACE] + rest)[1..] == rest;
    assert RefsIn([]) == [];
  }

  lemma RefReadsAs(n: nat, tail: Bytes)
    ensures RefsIn(Ref(n) + tail) == [n] + RefsIn(if tail == [] then [] else tail[1..])
  {
    hide Value, RefsIn, IsDigit, Ascii;
    var ds, r := Digits(n), Ascii(" 0 R");
    assert |r| == 4 && !IsDigit(r[0]) by { RefMark(); }
    var s := Ref(n) + tail;
    assert s == ds + (r + tail);
    DigitRunOf(ds, r + tail);
    DigitsRead(n);
    assert s[..|ds|] == ds;
    assert s[|ds|..|ds| + 4] == r;
    if tail != [] {
      assert s[|ds| + 5..] == tail[1..];
    }
    RefsInHead(s, |ds|);
  }

  lemma RefMark()
    ensures |Ascii(" 0 R")| == 4 && !IsDigit(Ascii(" 0 R")[0])
  {
  }

  lemma RefsInHead(s: Bytes, k: nat)
    requires DigitRun(s) == k > 0 && |s| >= k + 4 && s[k..k + 4] == Ascii(" 0 R")
    ensures RefsIn(s) == [Value(s[..k])] + RefsIn(if |s| == k + 4 then [] else s[k + 5..])
  {
  }

  function PageNumbers(n: nat): seq<nat> {
    seq(n, i requires 0 <= i < n => PageObj(i))
  }

  lemma {:induction false} KidsRead(n: nat, rest: Bytes)
    ensures RefsIn(KidsText(n) + rest) == PageNumbers(n) + RefsIn(rest)
  {
    hide RefsIn, Ref;
    if n == 0 {
      assert KidsText(0) + rest == rest;
      assert PageNumbers(0) + RefsIn(rest) == RefsIn(rest);
    } else {
      var r := Ref(PageObj(n - 1));
      KidsRead(n - 1, r + [SPACE] + rest);
      RefReads(PageObj(n - 1), rest);
      assert KidsText(n) + rest == KidsText(n - 1) + (r + [SPACE] + rest);
      assert PageNumbers(n) == PageNumbers(n - 1) + [PageObj(n - 1)];
    }
  }

  lemma RefShape(n: nat)
    ensures |Ref(n)| > 4 && IsDigit(Ref(n)[0]) && Ref(n)[|Ref(n)| - 1] == 0x52
  {
  }

  lemma {:induction false} KidsStart(n: nat)
    requires n > 0
    ensures KidsText(n) != [] && IsDigit(KidsText(n)[0])
  {
    hide IsDigit;
    RefShape(PageObj(n - 1));
    if n > 1 {
      KidsStart(n - 1);
    } else {
      assert KidsText(0) == [];
    }
  }

  lemma TrimmedKids(n: nat)
    requires n > 0
    ensures TrimSpace(KidsText(n)) == KidsText(n - 1) + Ref(PageObj(n - 1))
  {
    hide Ref, KidsText;
    var front := KidsText(n - 1) + Ref(PageObj(n - 1));
    MoreKids(n - 1);
    assert KidsText(n) == front + [SPACE];
    RefShape(PageObj(n - 1));
    KidsStart(n);
    assert front[|front| - 1] == 0x52;
    assert KidsText(n)[..|KidsText(n)| - 1] == front;
    assert TrimSpace(front) == front;
  }

  /** The kids read as references to exactly the page objects, in order, whatever follows the bracket. */
  lemma KidsArePages(n: nat, bracket: byte, rest: Bytes)
    requires RefsIn(rest) == [] && !IsDigit(bracket)
    ensures RefsIn(TrimSpace(KidsText(n)) + [bracket] + rest) == PageNumbers(n)
  {
    hide KidsText, Ref, TrimSpace, Value;
    var tail := [bracket] + rest;
    assert tail[1..] == rest;
    if n == 0 {
      NoKids();
      assert TrimSpace([]) == [] by { NothingToTrim(); }
      assert [] + [bracket] + rest == tail;
      NoRefs(tail);
    } else {
      var last := Ref(PageObj(n - 1));
      TrimmedKids(n);
      KidsRead(n - 1, last + tail);
      RefReadsAs(PageObj(n - 1), tail);
      assert KidsText(n - 1) + last + [bracket] + rest == KidsText(n - 1) + (last + tail);
      assert PageNumbers(n) == PageNumbers(n - 1) + [PageObj(n - 1)];
    }
  }

  lemma NothingToTrim()
    ensures TrimSpace([]) == []
  {
  }

  lemma NoRefs(s: Bytes)
    requires s == [] || !IsDigit(s[0])
    ensures RefsIn(s) == []
  {
  }

  // ---- The file ----

  const HEAD: Bytes := Ascii("%PDF-1.4\n")

  function ObjectText(n: nat, body: Bytes): Bytes {
    Digits(n) + Ascii(" 0 obj\n") + body + Ascii("\nendobj\n")
  }

  /** The head and the first k objects. */
  function Body(objects: seq<Bytes>, k: nat): Bytes
    requires k <= |objects|
  {
    if k == 0 then HEAD else Body(objects, k - 1) + ObjectText(k, objects[k - 1])
  }

  /** Where object n starts. */
  function OffsetOf(objects: seq<Bytes>, n: nat): nat
    requires 0 < n <= |objects|
  {
    |Body(objects, n - 1)|
  }

  function Entry(offset: nat): Bytes {
    Padded(offset, 10) + Ascii(" 00000 n \n")
  }

  /** The entries of objects 1 to k, behind the free entry 0. */
  function Entries(objects: seq<Bytes>, k: nat): Bytes
    requires k <= |objects|
  {
    if k == 0 then Ascii("0000000000 65535 f \n") else Entries(objects, k - 1) + Entry(OffsetOf(objects, k))
  }

  function XrefHead(size: nat): Bytes {
    Ascii("xref\n0 ") + Digits(size) + [NL]
  }

  const EOF_MARK: Bytes := Ascii("\n%%EOF\n")

  const TRAILER_HEAD: Bytes := Ascii("trailer\n<< /Size ")
  const TRAILER_END: Bytes := Ascii(" >>\nstartxref\n")

  function Trailer(size: nat, xrefAt: nat): Bytes {
    TRAILER_HEAD + Digits(size) + [SPACE] + ROOT_KEY + Ref(1) + TRAILER_END + Digits(xrefAt) + EOF_MARK
  }

  function FileOf(objects: seq<Bytes>): Bytes {
    var n := |objects|;
    Body(objects, n) + XrefHead(n + 1) + Entries(objects, n) + Trailer(n + 1, |Body(objects, n)|)
  }

  /** Writes the file in one pass, noting each object's offset as it goes. */
  method AssemblePDF(streams: seq<Bytes>) returns (buf: Bytes)
    ensures exists objects :: IsDocument(objects, streams) && buf == FileOf(objects)
  {
    hide ObjectText, Entry, Trailer, XrefHead, IsDocument, Body, Entries;
    var objs := BuildObjects(streams);
    var n := |objs|;
    buf := HEAD;
    FileStarts(objs);
    var offsets := new nat[n + 1](_ => 0);
    for i := 0 to n
      invariant buf == Body(objs, i)
      invariant forall k | 0 < k <= i :: offsets[k] == OffsetOf(objs, k)
    {
      offsets[i + 1] := |buf|;
      buf := buf + ObjectText(i + 1, objs[i]);
      NextObject(objs, i);
    }
    var xrefAt := |buf|;
    buf := buf + XrefHead(n + 1);
    ghost var before := buf;
    buf := buf + Ascii("0000000000 65535 f \n");
    for i := 1 to n + 1
      invariant buf == before + Entries(objs, i - 1)
      invariant forall k | 0 < k <= n :: offsets[k] == OffsetOf(objs, k)
    {
      buf := buf + Entry(offsets[i]);
      NextObject(objs, i - 1);
      assert buf == before + (Entries(objs, i - 1) + Entry(OffsetOf(objs, i)));
    }
    buf := buf + Trailer(n + 1, xrefAt);
    assert IsDocument(objs, streams) && buf == FileOf(objs);
  }

  lemma FileStarts(objects: seq<Bytes>)
    ensures Body(objects, 0) == HEAD && Entries(objects, 0) == Ascii("0000000000 65535 f \n")
  {
  }

  lemma NextObject(objects: seq<Bytes>, i: nat)
    requires i < |objects|
    ensures Body(objects, i + 1) == Body(objects, i) + ObjectText(i + 1, objects[i])
    ensures Entries(objects, i + 1) == Entries(objects, i) + Entry(OffsetOf(objects, i + 1))
  {
  }

  // ---- Reading the file back ----

  predicate StandsAt(s: Bytes, at: nat, part: Bytes) {
    at + |part| <= |s| && s[at..at + |part|] == part
  }

  lemma StandsInside(s: Bytes, at: nat, part: Bytes, rest: Bytes)
    requires StandsAt(s, at, part)
    ensures StandsAt(s + rest, at, part)
  {
    assert (s + rest)[at..at + |part|] == s[at..at + |part|];
  }

  /** A cross-reference entry is 20 bytes, as section 7.5.4 of ISO 32000-1 asks, exactly below ten to the tenth. */
  lemma EntryIs20Bytes(offset: nat)
    ensures |Entry(offset)| == 20 <==> offset < Pow10(10)
    ensures Value(Padded(offset, 10)) == offset
  {
    PaddedReads(offset, 10);
  }

  lemma {:induction false} ObjectStands(objects: seq<Bytes>, k: nat, n: nat)
    requires 0 < n <= k <= |objects|
    ensures StandsAt(Body(objects, k), OffsetOf(objects, n), ObjectText(n, objects[n - 1]))
  {
    hide ObjectText, StandsAt;
    if n < k {
      ObjectStands(objects, k - 1, n);
      StandsInside(Body(objects, k - 1), OffsetOf(objects, n), ObjectText(n, objects[n - 1]), ObjectText(k, objects[k - 1]));
    } else {
      StandsLast(Body(objects, k - 1), ObjectText(k, objects[k - 1]));
    }
  }

  lemma StandsLast(front: Bytes, part: Bytes)
    ensures StandsAt(front + part, |front|, part)
  {
  }

  predicate Addressable(objects: seq<Bytes>) {
    |Body(objects, |objects|)| <= Pow10(10)
  }

  lemma {:induction false} OffsetsGrow(objects: seq<Bytes>, n: nat, k: nat)
    requires 0 < n <= k <= |objects|
    ensures OffsetOf(objects, n) < |Body(objects, k)|
  {
    if n < k {
      OffsetsGrow(objects, n, k - 1);
    }
  }

  lemma {:induction false} EntryStands(objects: seq<Bytes>, k: nat, n: nat)
    requires Addressable(objects) && n <= k <= |objects|
    ensures |Entries(objects, k)| == 20 * (k + 1)
    ensures n > 0 ==> StandsAt(Entries(objects, k), 20 * n, Entry(OffsetOf(objects, n)))
  {
    hide Entry, StandsAt, Addressable, OffsetOf;
    if k > 0 {
      EntryIs20Bytes(OffsetOf(objects, k));
      assert OffsetOf(objects, k) < Pow10(10) by { OffsetFits(objects, k); }
      if n < k {
        EntryStands(objects, k - 1, n);
        if n > 0 {
          StandsInside(Entries(objects, k - 1), 20 * n, Entry(OffsetOf(objects, n)), Entry(OffsetOf(objects, k)));
        }
      } else {
        EntryStands(objects, k - 1, 0);
        StandsLast(Entries(objects, k - 1), Entry(OffsetOf(objects, k)));
      }
    }
  }

  lemma OffsetFits(objects: seq<Bytes>, n: nat)
    requires Addressable(objects) && 0 < n <= |objects|
    ensures OffsetOf(objects, n) < Pow10(10)
  {
    OffsetsGrow(objects, n, |objects|);
  }

  /** How many digits a text ends with. */
  function DigitTail(s: Bytes): (k: nat)
    ensures k <= |s|
  {
    if s != [] && IsDigit(s[|s| - 1]) then 1 + DigitTail(s[..|s| - 1]) else 0
  }

  lemma {:induction false} DigitTailOf(front: Bytes, ds: Bytes)
    requires forall i | 0 <= i < |ds| :: IsDigit(ds[i])
    requires front == [] || !IsDigit(front[|front| - 1])
    ensures DigitTail(front + ds) == |ds|
  {
    if ds == [] {
      assert front + ds == front;
    } else {
      assert (front + ds)[..|front + ds| - 1] == front + ds[..|ds| - 1];
      DigitTailOf(front, ds[..|ds| - 1]);
    }
  }

  /** The number in front of the end-of-file mark: where the table starts. */
  function StartXref(file: Bytes): nat {
    var s := if |file| < |EOF_MARK| then [] else file[..|file| - |EOF_MARK|];
    Value(s[|s| - DigitTail(s)..])
  }

  /** The position after the next newline from `at`. */
  function NextLine(s: Bytes, at: nat): nat
    decreases |s| - at
  {
    if at >= |s| then at else if s[at] == NL then at + 1 else NextLine(s, at + 1)
  }

  /** The offset that entry n of the table gives; the entries follow two lines of heading. */
  function XrefOffset(file: Bytes, n: nat): nat {
    var at := NextLine(file, NextLine(file, StartXref(file))) + 20 * n;
    if at + 10 <= |file| then Value(file[at..at + 10]) else 0
  }

  lemma {:induction false} LineEnds(s: Bytes, at: nat, end: nat)
    requires at <= end < |s| && s[end] == NL && NL !in s[at..end]
    ensures NextLine(s, at) == end + 1
    decreases end - at
  {
    if at < end {
      assert s[at] == s[at..end][0];
      assert s[at + 1..end] == s[at..end][1..];
      LineEnds(s, at + 1, end);
    }
  }

  lemma LineStands(s: Bytes, at: nat, line: Bytes)
    requires StandsAt(s, at, line + [NL]) && NL !in line
    ensures NextLine(s, at) == at + |line| + 1
  {
    assert s[at..at + |line| + 1] == line + [NL];
    assert s[at + |line|] == (line + [NL])[|line|];
    assert s[at..at + |line|] == (line + [NL])[..|line|] == line;
    LineEnds(s, at, at + |line|);
  }

  /** startxref gives the offset of the table. */
  lemma StartxrefPointsAtTable(objects: seq<Bytes>)
    ensures StartXref(FileOf(objects)) == |Body(objects, |objects|)|
  {
    hide Value, IsDigit, Body, Entries, XrefHead, Ref;
    var n, at := |objects|, |Body(objects, |objects|)|;
    var trailer := TRAILER_HEAD + Digits(n + 1) + [SPACE] + ROOT_KEY + Ref(1) + TRAILER_END;
    var front := Body(objects, n) + XrefHead(n + 1) + Entries(objects, n) + trailer;
    assert Trailer(n + 1, at) == trailer + Digits(at) + EOF_MARK;
    SplitFile(Body(objects, n) + XrefHead(n + 1) + Entries(objects, n), trailer, Digits(at), EOF_MARK);
    assert FileOf(objects) == front + Digits(at) + EOF_MARK;
    NumberBeforeMark(front, at);
  }

  lemma SplitFile(a: Bytes, b: Bytes, c: Bytes, d: Bytes)
    ensures a + (b + c + d) == a + b + c + d
  {
  }

  lemma NumberBeforeMark(front: Bytes, n: nat)
    requires |front| >= |TRAILER_END| && front[|front| - |TRAILER_END|..] == TRAILER_END
    ensures StartXref(front + Digits(n) + EOF_MARK) == n
  {
    hide Value, IsDigit;
    var file := front + Digits(n) + EOF_MARK;
    assert file[..|file| - |EOF_MARK|] == front + Digits(n);
    EndsInNewline();
    assert front[|front| - 1] == TRAILER_END[|TRAILER_END| - 1];
    DigitTailOf(front, Digits(n));
    assert (front + Digits(n))[|front|..] == Digits(n);
    DigitsRead(n);
  }

  lemma EndsInNewline()
    ensures TRAILER_END != [] && !IsDigit(TRAILER_END[|TRAILER_END| - 1])
  {
  }

  lemma HeadingLines(n: nat)
    ensures XrefHead(n) == (Ascii("xref") + [NL]) + ((Ascii("0 ") + Digits(n)) + [NL])
    ensures NL !in Ascii("xref") && NL !in Ascii("0 ") + Digits(n)
  {
    assert Ascii("xref\n0 ") == Ascii("xref") + [NL] + Ascii("0 ");
    assert forall b <- Digits(n) :: IsDigit(b);
  }

  lemma StandsBetween(a: Bytes, b: Bytes, c: Bytes)
    ensures StandsAt(a + b + c, |a|, b)
  {
    assert (a + b + c)[|a|..|a| + |b|] == b;
  }

  /** The entries start two lines into the table. */
  lemma EntriesFollowHeading(objects: seq<Bytes>)
    ensures var file, at := FileOf(objects), |Body(objects, |objects|)|;
            NextLine(file, NextLine(file, at)) == at + |XrefHead(|objects| + 1)|
  {
    hide Body, Entries, Trailer, StandsAt, NextLine, Ascii, XrefHead;
    var n := |objects|;
    var file := FileOf(objects);
    var l1, l2 := Ascii("xref"), Ascii("0 ") + Digits(n + 1);
    HeadingLines(n + 1);
    var rest := Entries(objects, n) + Trailer(n + 1, |Body(objects, n)|);
    assert file == Body(objects, n) + (l1 + [NL]) + ((l2 + [NL]) + rest);
    assert file == (Body(objects, n) + (l1 + [NL])) + (l2 + [NL]) + rest;
    StandsBetween(Body(objects, n), l1 + [NL], (l2 + [NL]) + rest);
    StandsBetween(Body(objects, n) + (l1 + [NL]), l2 + [NL], rest);
    LineStands(file, |Body(objects, n)|, l1);
    LineStands(file, |Body(objects, n) + (l1 + [NL])|, l2);
  }

  /**
   * Following startxref and the table, a reader finds every object at the offset
   * its entry gives. This needs the objects to end within ten to the tenth bytes.
   */
  lemma ReaderFindsObject(objects: seq<Bytes>, n: nat)
    requires Addressable(objects) && 0 < n <= |objects|
    ensures XrefOffset(FileOf(objects), n) == OffsetOf(objects, n)
    ensures StandsAt(FileOf(objects), XrefOffset(FileOf(objects), n), ObjectText(n, objects[n - 1]))
  {
    hide Body, Entries, Trailer, XrefHead, Addressable, OffsetOf, ObjectText, Value, StartXref, NextLine, Entry;
    var size := |objects|;
    var file, offset := FileOf(objects), OffsetOf(objects, n);
    var front := Body(objects, size) + XrefHead(size + 1);
    var entries, trailer := Entries(objects, size), Trailer(size + 1, |Body(objects, size)|);
    StartxrefPointsAtTable(objects);
    EntriesFollowHeading(objects);
    EntryStands(objects, size, n);
    OffsetFits(objects, n);
    EntryIs20Bytes(offset);
    EntryField(front, entries, trailer, 20 * n, offset);
    assert file == front + entries + trailer;
    ObjectStands(objects, size, n);
    StandsInside(Body(objects, size), offset, ObjectText(n, objects[n - 1]), XrefHead(size + 1) + entries + trailer);
    assert file == Body(objects, size) + (XrefHead(size + 1) + entries + trailer);
  }

  /** The first ten bytes of an entry are its offset. */
  lemma EntryField(front: Bytes, entries: Bytes, rest: Bytes, at: nat, offset: nat)
    requires offset < Pow10(10) && StandsAt(entries, at, Entry(offset))
    ensures |front| + at + 10 <= |front + entries + rest|
    ensures (front + entries + rest)[|front| + at..|front| + at + 10] == Padded(offset, 10)
  {
    PaddedReads(offset, 10);
    assert Entry(offset)[..10] == Padded(offset, 10);
    assert entries[at..at + |Entry(offset)|][..10] == entries[at..at + 10];
    assert (front + entries + rest)[|front| + at..|front| + at + 10] == entries[at..at + 10];
  }

  lemma ObjectIsFound(objects: seq<Bytes>, n: nat, body: Bytes)
    requires Addressable(objects) && 0 < n <= |objects| && objects[n - 1] == body
    ensures StandsAt(FileOf(objects), XrefOffset(FileOf(objects), n), ObjectText(n, body))
  {
    hide FileOf, XrefOffset, ObjectText, StandsAt, Addressable;
    ReaderFindsObject(objects, n);
  }
}
