/** Exporting a table as a PDF: rows fitted to the page, flowed over pages, assembled into a file. */
module PdfReport {
  import opened Prelude
  import opened Texts
  import opened Decimal
  import opened PdfColumns
  import opened PdfText
  import opened PdfPage
  import opened PdfFile
  import opened PdfReader
  import opened PdfFonts

  const NO_RECORDS: Bytes := Ascii("(no records in this range)")
  const DASH: byte := 0x2d

  /** A laid-out row: as long as the page's rows are, each cell in its own column. */
  predicate IsRow(row: Bytes, cells: seq<Bytes>, widths: seq<nat>, numeric: seq<bool>) {
    && |row| == LineLen(widths)
    && forall c | 0 <= c < |widths| ::
         InPlace(row, StartOf(widths, c), CellFit(CellOf(cells, c), widths[c], c < |numeric| && numeric[c]), c + 1 == |widths|)
  }

  /** The lines of the table: one a row, or a note that there are none. */
  predicate AreRows(lines: seq<Bytes>, t: Table, widths: seq<nat>) {
    if t.rows == [] then lines == [NO_RECORDS]
    else |lines| == |t.rows| && forall r | 0 <= r < |lines| :: IsRow(lines[r], t.rows[r], widths, t.numeric)
  }

  /** What page i of the file shows: the title, the headings, a rule across the row, and its share of the lines. */
  ghost predicate PagesShow(streams: seq<Bytes>, title: Bytes, header: Bytes, widths: seq<nat>, lines: seq<Bytes>)
  {
    PageHolds55Rows();
    var pages := Chunks(lines, PER_PAGE);
    && |streams| == |pages|
    && forall i | 0 <= i < |pages| ::
         && ShownTexts(streams[i]) == AllCleaned([title, header, Repeat(DASH, LineLen(widths))] + pages[i])
         && StandsOnPage(streams[i])
  }

  method FormatRows(t: Table, widths: seq<nat>) returns (lines: seq<Bytes>)
    ensures AreRows(lines, t, widths)
  {
    hide InPlace, LineLen, StartOf, CellFit;
    if |t.rows| == 0 {
      return [NO_RECORDS];
    }
    lines := [];
    for r := 0 to |t.rows|
      invariant |lines| == r && forall k | 0 <= k < r :: IsRow(lines[k], t.rows[k], widths, t.numeric)
    {
      var row := FormatRow(t.rows[r], widths, t.numeric);
      lines := lines + [row];
    }
  }

  /** The page title: what it is, when it was made, and how many records it lists. */
  function TitleText(title: Bytes, stamp: Bytes, count: nat): Bytes {
    title + Ascii("   ") + stamp + Ascii("   (") + Digits(count) + Ascii(")")
  }

  /** A laid-out report: columns fitted to 110 characters, headings, lines, and the pages that show them. */
  ghost predicate IsLayout(t: Table, title: Bytes, widths: seq<nat>, header: Bytes, lines: seq<Bytes>, streams: seq<Bytes>) {
    && Fitted(t, MAX_CHARS, widths)
    && IsRow(header, t.headers, widths, [])
    && AreRows(lines, t, widths)
    && PagesShow(streams, title, header, widths, lines)
  }

  // ---- What a reader sees of each cell ----

  /**
   * A slot of a row holds a cell: the cell itself with spaces on one side, on the
   * left if it is a number; or, of a cell too long for it, the beginning and two
   * dots, or just the beginning in a slot too narrow for dots.
   */
  predicate Holds(slot: Bytes, cell: Bytes, right: bool) {
    var w := |slot|;
    if |cell| <= w then
      var at := if right then w - |cell| else 0;
      && slot[at..at + |cell|] == cell
      && forall i | 0 <= i < w && !(at <= i < at + |cell|) :: slot[i] == SPACE
    else if w <= 2 then slot == cell[..w]
    else slot[..w - 2] == cell[..w - 2] && slot[w - 2] == slot[w - 1] == DOT
  }

  /** The row's own cells stand in their columns, and a column past them is blank. */
  ghost predicate HoldsCells(row: Bytes, cells: seq<Bytes>, widths: seq<nat>, numeric: seq<bool>) {
    forall c | 0 <= c < |widths| ::
      && StartOf(widths, c) + widths[c] <= |row|
      && Holds(row[StartOf(widths, c)..StartOf(widths, c) + widths[c]], if c < |cells| then cells[c] else [],
               c < |numeric| && numeric[c])
  }

  lemma FittedCellHolds(cell: Bytes, w: nat, right: bool)
    ensures |CellFit(cell, w, right)| == w && Holds(CellFit(cell, w, right), cell, right)
  {
    CellFillsWidth(cell, w, right);
    var slot := CellFit(cell, w, right);
    if |cell| > w && w > 2 {
      assert slot[w - 2..][0] == DOT && slot[w - 2..][1] == DOT;
    }
  }

  lemma RowHoldsItsCells(row: Bytes, cells: seq<Bytes>, widths: seq<nat>, numeric: seq<bool>)
    requires IsRow(row, cells, widths, numeric)
    ensures HoldsCells(row, cells, widths, numeric)
  {
    hide StartOf, CellFit, Holds;
    forall c | 0 <= c < |widths|
      ensures StartOf(widths, c) + widths[c] <= |row|
      ensures Holds(row[StartOf(widths, c)..StartOf(widths, c) + widths[c]], if c < |cells| then cells[c] else [],
                    c < |numeric| && numeric[c])
    {
      FittedCellHolds(if c < |cells| then cells[c] else [], widths[c], c < |numeric| && numeric[c]);
    }
  }

  /** What holds of a row holds of what a page shows of it. */
  lemma CleanedCellHolds(slot: Bytes, cell: Bytes, right: bool)
    requires Holds(slot, cell, right)
    ensures Holds(Cleaned(slot), Cleaned(cell), right)
  {
    hide Cleaned;
    var w := |slot|;
    SpacesStayClean(slot);
    if |cell| <= w {
      var at := if right then w - |cell| else 0;
      CleanedSlice(slot, at, at + |cell|);
    } else if w <= 2 {
      CleanedSlice(cell, 0, w);
    } else {
      CleanedSlice(slot, 0, w - 2);
      CleanedSlice(cell, 0, w - 2);
    }
  }

  lemma CleanedSlice(s: Bytes, a: nat, b: nat)
    requires a <= b <= |s|
    ensures Cleaned(s)[a..b] == Cleaned(s[a..b])
  {
  }

  lemma SpacesStayClean(s: Bytes)
    ensures forall i | 0 <= i < |s| && s[i] >= SPACE :: Cleaned(s)[i] == s[i]
  {
  }

  lemma CleanedRowHolds(row: Bytes, cells: seq<Bytes>, widths: seq<nat>, numeric: seq<bool>)
    requires HoldsCells(row, cells, widths, numeric)
    ensures HoldsCells(Cleaned(row), AllCleaned(cells), widths, numeric)
  {
    hide StartOf, Holds;
    forall c | 0 <= c < |widths|
      ensures StartOf(widths, c) + widths[c] <= |row|
      ensures Holds(Cleaned(row)[StartOf(widths, c)..StartOf(widths, c) + widths[c]],
                    if c < |cells| then AllCleaned(cells)[c] else [], c < |numeric| && numeric[c])
    {
      var a, b := StartOf(widths, c), StartOf(widths, c) + widths[c];
      CleanedCellHolds(row[a..b], if c < |cells| then cells[c] else [], c < |numeric| && numeric[c]);
      assert Cleaned(row)[a..b] == Cleaned(row[a..b]);
      assert Cleaned([]) == [];
    }
  }

  /** Line r of the table is line r mod 55 of page r div 55. */
  lemma {:induction false} LineIsOnItsPage(lines: seq<Bytes>, r: nat)
    requires r < |lines|
    ensures var pages := Chunks(lines, 55);
            r / 55 < |pages| && r % 55 < |pages[r / 55]| && pages[r / 55][r % 55] == lines[r]
  {
    if r >= 55 {
      LineIsOnItsPage(lines[55..], r - 55);
      assert (r - 55) / 55 == r / 55 - 1 && (r - 55) % 55 == r % 55;
      assert Chunks(lines, 55) == [lines[..55]] + Chunks(lines[55..], 55);
    }
  }

  /**
   * The pages of a table, in the table's own terms. Each shows the title, the day
   * and the number of records; the headings, each in its column; a rule; and
   * below them its 55 rows, each cell in its column. Control bytes show as spaces.
   */
  ghost predicate ShowTable(streams: seq<Bytes>, t: Table, title: Bytes, stamp: Bytes, widths: seq<nat>) {
    && streams != []
    && (forall page | 0 <= page < |streams| :: StandsOnPage(streams[page]))
    && (forall page | 0 <= page < |streams| :: ShowsHeadings(ShownTexts(streams[page]), t, title, stamp, widths))
    && (forall r | 0 <= r < |t.rows| :: ShowsRow(streams, t, widths, r))
    && (t.rows == [] ==> |streams| == 1 && UnderHeadings(ShownTexts(streams[0])) == [NO_RECORDS])
  }

  ghost predicate ShowsHeadings(texts: seq<Bytes>, t: Table, title: Bytes, stamp: Bytes, widths: seq<nat>) {
    && |texts| >= 3
    && texts[0] == Cleaned(title + [SPACE, SPACE, SPACE] + stamp + [SPACE, SPACE, SPACE, LP] + Digits(|t.rows|) + [RP])
    && |texts[1]| == |texts[2]| == LineLen(widths)
    && HoldsCells(texts[1], AllCleaned(t.headers), widths, [])
    && forall i | 0 <= i < |texts[2]| :: texts[2][i] == DASH
  }

  ghost predicate ShowsRow(streams: seq<Bytes>, t: Table, widths: seq<nat>, r: nat)
    requires r < |t.rows|
  {
    && r / 55 < |streams|
    && 3 + r % 55 < |ShownTexts(streams[r / 55])|
    && |ShownTexts(streams[r / 55])[3 + r % 55]| == LineLen(widths)
    && HoldsCells(ShownTexts(streams[r / 55])[3 + r % 55], AllCleaned(t.rows[r]), widths, t.numeric)
  }

  lemma LayoutShowsTable(t: Table, title: Bytes, stamp: Bytes, widths: seq<nat>, header: Bytes, lines: seq<Bytes>, streams: seq<Bytes>)
    requires IsLayout(t, TitleText(title, stamp, |t.rows|), widths, header, lines, streams)
    ensures ShowTable(streams, t, title, stamp, widths)
  {
    hide ShownTexts, Fitted, HoldsCells, LineLen, Chunks, IsRow;
    PageHolds55Rows();
    forall page | 0 <= page < |streams| ensures ShowsHeadings(ShownTexts(streams[page]), t, title, stamp, widths) {
      HeadingsShow(t, title, stamp, widths, header, lines, streams, page);
    }
    forall r | 0 <= r < |t.rows| ensures ShowsRow(streams, t, widths, r) {
      RowShows(t, TitleText(title, stamp, |t.rows|), widths, header, lines, streams, r);
    }
    LineIsOnItsPage(lines, 0);
    if t.rows == [] {
      NoRecordsShow(TitleText(title, stamp, 0), header, widths, streams);
    }
  }

  lemma NoRecordsShow(title: Bytes, header: Bytes, widths: seq<nat>, streams: seq<Bytes>)
    requires PagesShow(streams, title, header, widths, [NO_RECORDS])
    ensures |streams| == 1 && UnderHeadings(ShownTexts(streams[0])) == [NO_RECORDS]
  {
    hide ShownTexts, LineLen;
    PageHolds55Rows();
    assert Chunks([NO_RECORDS], PER_PAGE) == [[NO_RECORDS]];
    var sep := Repeat(DASH, LineLen(widths));
    assert AllCleaned([title, header, sep] + [NO_RECORDS])[3..] == [Cleaned(NO_RECORDS)];
    NoRecordsIsClean();
  }

  lemma NoRecordsIsClean()
    ensures Cleaned(NO_RECORDS) == NO_RECORDS
  {
    CleanText("(no records in this range)");
  }

  lemma CleanText(s: string)
    requires forall i | 0 <= i < |s| :: ' ' <= s[i] <= '~'
    ensures Cleaned(Ascii(s)) == Ascii(s)
  {
  }

  lemma HeadingsShow(t: Table, title: Bytes, stamp: Bytes, widths: seq<nat>, header: Bytes, lines: seq<Bytes>, streams: seq<Bytes>, page: nat)
    requires IsLayout(t, TitleText(title, stamp, |t.rows|), widths, header, lines, streams) && page < |streams|
    ensures ShowsHeadings(ShownTexts(streams[page]), t, title, stamp, widths)
  {
    hide ShownTexts, Fitted, HoldsCells, LineLen, Chunks, AreRows;
    PageHolds55Rows();
    var sep := Repeat(DASH, LineLen(widths));
    var head := TitleText(title, stamp, |t.rows|);
    var texts := AllCleaned([head, header, sep] + Chunks(lines, PER_PAGE)[page]);
    assert ShownTexts(streams[page]) == texts;
    assert texts[0] == Cleaned(head) && texts[1] == Cleaned(header) && texts[2] == Cleaned(sep);
    TitleMarks();
    assert head == title + [SPACE, SPACE, SPACE] + stamp + [SPACE, SPACE, SPACE, LP] + Digits(|t.rows|) + [RP];
    RowHoldsItsCells(header, t.headers, widths, []);
    CleanedRowHolds(header, t.headers, widths, []);
  }

  lemma TitleMarks()
    ensures Ascii("   ") == [SPACE, SPACE, SPACE] && Ascii("   (") == [SPACE, SPACE, SPACE, LP] && Ascii(")") == [RP]
  {
  }

  lemma BelowHeadings(title: Bytes, header: Bytes, sep: Bytes, page: seq<Bytes>, k: nat)
    requires k < |page|
    ensures var texts := AllCleaned([title, header, sep] + page);
            |texts| == 3 + |page| && texts[3 + k] == Cleaned(page[k])
  {
  }

  lemma RowShows(t: Table, title: Bytes, widths: seq<nat>, header: Bytes, lines: seq<Bytes>, streams: seq<Bytes>, r: nat)
    requires IsLayout(t, title, widths, header, lines, streams) && r < |t.rows|
    ensures ShowsRow(streams, t, widths, r)
  {
    hide ShownTexts, Fitted, HoldsCells, LineLen, Chunks, AllCleaned, Cleaned, Repeat, StandsOnPage;
    PageHolds55Rows();
    LineIsOnItsPage(lines, r);
    BelowHeadings(title, header, Repeat(DASH, LineLen(widths)), Chunks(lines, 55)[r / 55], r % 55);
    RowHoldsItsCells(lines[r], t.rows[r], widths, t.numeric);
    CleanedRowHolds(lines[r], t.rows[r], widths, t.numeric);
    hide IsRow;
  }

  /**
   * The file shows the whole table, in order, 55 rows a page at most, its columns
   * fitted to 110 characters; and a reader that follows the file's own references
   * finds exactly those pages, while the offsets fit their table. `stamp` is the
   * day it was made, as printed.
   */
  method WritePdf(t: Table, title: Bytes, stamp: Bytes) returns (file: Bytes)
    ensures exists widths, header, lines, streams ::
              && IsLayout(t, TitleText(title, stamp, |t.rows|), widths, header, lines, streams)
              && ShowTable(streams, t, title, stamp, widths)
              && (|file| <= Pow10(10) ==> ReadPages(file) == Some(streams) && PagesAreSetUp(file, |streams|))
  {
    hide Fitted, IsRow, AreRows, ShownTexts, AllCleaned, IsDocument, FileOf, LineLen, InPlace, StartOf, CellFit, ReadPages, PagesAreSetUp, ShowTable, TitleText, PagesShow, PageStream;
    PageHolds55Rows();
    var ws := FitWidths(t, MAX_CHARS);
    ghost var widths := ws[..];
    var header := FormatRow(t.headers, ws[..], []);
    assert IsRow(header, t.headers, widths, []) by { RowIsRow(header, t.headers, widths, []); }
    var len := ComputeLineLen(ws);
    var sep := Repeat(DASH, len);
    var lines := FormatRows(t, ws[..]);
    var titleText := TitleText(title, stamp, |t.rows|);
    var streams := Paginate(titleText, header, sep, lines);
    assert PagesShow(streams, titleText, header, widths, lines) by { PagesStand(titleText, header, widths, lines, streams); }
    file := AssemblePDF(streams);
    FileReadsBack(file, streams);
    assert IsLayout(t, titleText, widths, header, lines, streams);
    LayoutShowsTable(t, title, stamp, widths, header, lines, streams);
  }

  lemma PagesStand(title: Bytes, header: Bytes, widths: seq<nat>, lines: seq<Bytes>, streams: seq<Bytes>)
    requires var pages := Chunks(lines, 55);
             && |streams| == |pages|
             && forall i | 0 <= i < |pages| ::
                  && streams[i] == PageStream(title, header, Repeat(DASH, LineLen(widths)), pages[i])
                  && ShownTexts(streams[i]) == AllCleaned([title, header, Repeat(DASH, LineLen(widths))] + pages[i])
    ensures PagesShow(streams, title, header, widths, lines)
  {
    hide ShownTexts, AllCleaned, LineLen, PageStream, StandsOnPage;
    PageHolds55Rows();
    ChunksHoldLines(lines, 55);
    var pages := Chunks(lines, 55);
    forall i | 0 <= i < |pages| ensures StandsOnPage(streams[i]) {
      FullPageFits(title, header, Repeat(DASH, LineLen(widths)), pages[i]);
    }
  }

  /** As the file says, it has n pages of 612 by 792 points, on which F1 is Courier and F2 bold Helvetica. */
  ghost predicate PagesAreSetUp(file: Bytes, n: nat) {
    && CountsPages(file, n)
    && forall i | 0 <= i < n ::
         && HasBox(file, 6 + 2 * i, Ascii("0 0 612 792] "))
         && HasFonts(file, 6 + 2 * i, Ascii("/Courier >>"), Ascii("/Helvetica-Bold >>"))
  }

  /** A file short enough for its table reads back. */
  lemma FileReadsBack(file: Bytes, streams: seq<Bytes>)
    requires exists objects :: IsDocument(objects, streams) && file == FileOf(objects)
    ensures |file| <= Pow10(10) ==> ReadPages(file) == Some(streams) && PagesAreSetUp(file, |streams|)
  {
    hide IsDocument, Pow10, ReadPages, HasBox, HasFonts, CountsPages, Ascii;
    var objects :| IsDocument(objects, streams) && file == FileOf(objects);
    if |file| <= Pow10(10) {
      assert |Body(objects, |objects|)| <= |file|;
      ReaderRecoversStreams(objects, streams);
      TreeCountsPages(objects, streams);
      forall i | 0 <= i < |streams|
        ensures HasBox(file, 6 + 2 * i, Ascii("0 0 612 792] "))
        ensures HasFonts(file, 6 + 2 * i, Ascii("/Courier >>"), Ascii("/Helvetica-Bold >>"))
      {
        PageHasBox(objects, streams, i);
        PageHasFonts(objects, streams, i);
      }
    }
  }

  /** In any such report, the lines that the pages show after their headings are the table's, in order. */
  lemma PagesShowWholeTable(t: Table, title: Bytes, widths: seq<nat>, header: Bytes, lines: seq<Bytes>, streams: seq<Bytes>)
    requires IsLayout(t, title, widths, header, lines, streams)
    ensures streams != []
    ensures Flatten(seq(|streams|, i requires 0 <= i < |streams| => UnderHeadings(ShownTexts(streams[i])))) == AllCleaned(lines)
  {
    hide ShownTexts, Fitted, IsRow, Repeat, Cleaned, LineLen;
    PageHolds55Rows();
    ChunksHoldLines(lines, PER_PAGE);
    var pages := Chunks(lines, PER_PAGE);
    var shown := seq(|streams|, i requires 0 <= i < |streams| => UnderHeadings(ShownTexts(streams[i])));
    forall i | 0 <= i < |pages| ensures shown[i] == AllCleaned(pages[i]) {
      assert AllCleaned([title, header, Repeat(DASH, LineLen(widths))] + pages[i])[3..] == AllCleaned(pages[i]);
    }
    CleanedFlatten(pages, shown);
    assert lines != [];
  }

  /** What a page shows below its three heading lines. */
  function UnderHeadings(texts: seq<Bytes>): seq<Bytes> {
    if |texts| < 3 then [] else texts[3..]
  }

  lemma {:induction false} CleanedFlatten(pages: seq<seq<Bytes>>, shown: seq<seq<Bytes>>)
    requires |shown| == |pages| && forall i | 0 <= i < |pages| :: shown[i] == AllCleaned(pages[i])
    ensures Flatten(shown) == AllCleaned(Flatten(pages))
  {
    hide Cleaned;
    if pages != [] {
      CleanedFlatten(pages[1..], shown[1..]);
      assert AllCleaned(pages[0] + Flatten(pages[1..])) == AllCleaned(pages[0]) + AllCleaned(Flatten(pages[1..]));
    }
  }

  lemma RowIsRow(row: Bytes, cells: seq<Bytes>, widths: seq<nat>, numeric: seq<bool>)
    requires |row| == LineLen(widths)
    requires forall c | 0 <= c < |widths| ::
               InPlace(row, StartOf(widths, c), CellFit(CellOf(cells, c), widths[c], c < |numeric| && numeric[c]), c + 1 == |widths|)
    ensures IsRow(row, cells, widths, numeric)
  {
  }
}
