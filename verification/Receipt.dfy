/** Sale receipts: the lines of each theme, their ESC/POS bytes, and the proof that the decoder reads them back. */
module Receipt {
  import opened Prelude
  import opened Texts
  import opened Decimal
  import opened Raster
  import opened EscPos

  datatype Item = Item(name: Bytes, qty: int, priceCents: int)

  /** `when` is the sale's time as printed; `picture` is what the logo's bytes decode to, if anything. */
  datatype ReceiptData = ReceiptData(
    shopName: Bytes,
    headerLine: Bytes,
    footer: Bytes,
    logo: Bytes,
    picture: Option<Image>,
    when: Bytes,
    widthMM: int,
    theme: string,
    items: seq<Item>,
    subtotalCents: int,
    taxCents: int,
    taxRateBps: nat,
    taxMode: string,
    totalCents: int,
    paidCents: int,
    changeCents: int)

  datatype Line = Line(center: bool, bold: bool, double: bool, text: Bytes)

  function Left(text: Bytes): Line { Line(false, false, false, text) }

  function CharsForWidth(mm: int): nat {
    if mm == 58 then 32 else 48
  }

  // ---- Text helpers ----

  function LeftRight(left: Bytes, right: Bytes, width: nat): Bytes {
    var space := if width - |right| < 1 then 1 else width - |right|;
    var kept := if |left| > space - 1 then left[..space - 1] else left;
    var pad := width - |kept| - |right|;
    kept + Repeat(SPACE, if pad < 1 then 1 else pad) + right
  }

  /**
   * The right text stays whole at the end, behind a space; the left text keeps
   * what fits of it; the row is exactly as wide as the paper whenever the right
   * text leaves room for that space.
   */
  lemma LeftRightShape(left: Bytes, right: Bytes, width: nat)
    ensures var r := LeftRight(left, right, width);
            var room := if width - |right| < 1 then 0 else width - |right| - 1;
            var n := if |left| <= room then |left| else room;
            && |r| == (if |right| < width then width else |right| + 1)
            && n < |r| - |right| && r[|r| - |right|..] == right && r[..n] == left[..n]
            && forall i | n <= i < |r| - |right| :: r[i] == SPACE
  {
  }

  function Center(text: Bytes, width: nat): Bytes {
    if |text| >= width then text else Repeat(SPACE, (width - |text|) / 2) + text
  }

  /** A centred text keeps within the paper, its margins equal to within one character. */
  lemma CenterBalances(text: Bytes, width: nat)
    requires |text| <= width
    ensures var r := Center(text, width);
            var before, after := |r| - |text|, width - |r|;
            && 0 <= before <= after <= before + 1
            && r[before..] == text && forall i | 0 <= i < before :: r[i] == SPACE
  {
  }

  // ---- Money ----

  function Abs(n: int): nat {
    if n < 0 then -n else n
  }

  /** An amount as printed, for example "KSh 1,234.50". */
  function MoneyText(cents: int): Bytes {
    (if cents < 0 then Ascii("-") else []) + Ascii("KSh ")
    + Grouped(Digits(Abs(cents) / 100)) + Ascii(".") + Padded(Abs(cents) % 100, 2)
  }

  method Money(cents: int) returns (out: Bytes)
    ensures out == MoneyText(cents)
  {
    hide Grouped, Digits, Padded, Value;
    var neg := cents < 0;
    var c := if neg then -cents else cents;
    var shillings := GroupThousands(c / 100);
    out := Ascii("KSh ") + shillings + Ascii(".") + Padded(c % 100, 2);
    if neg {
      out := Ascii("-") + out;
    }
    assert neg || [] + out == out;
    assert out == MoneyText(cents);
  }

  lemma TwoDigits(n: nat)
    requires n < 100
    ensures var ds := Padded(n, 2); |ds| == 2 && forall a :: Value(a + ds) == 100 * Value(a) + n
  {
    PaddedReads(n, 2);
    assert Pow10(2) == 10 * Pow10(1) == 100;
    var ds := Padded(n, 2);
    assert ds == [] + [ds[0]] + [ds[1]];
    ValueOfSnoc([], ds[0]);
    ValueOfSnoc([] + [ds[0]], ds[1]);
    forall a ensures Value(a + ds) == 100 * Value(a) + n {
      ValueOfSnoc(a, ds[0]);
      ValueOfSnoc(a + [ds[0]], ds[1]);
      assert a + ds == a + [ds[0]] + [ds[1]];
    }
  }

  /** Bytes that are not digits leave the number before them as it was. */
  lemma {:induction false} NoDigits(a: Bytes, s: Bytes)
    requires forall i | 0 <= i < |s| :: !IsDigit(s[i])
    ensures Value(a + s) == Value(a)
  {
    if s == [] {
      assert a + s == a;
    } else {
      NoDigits(a, s[..|s| - 1]);
      ValueOfSnoc(a + s[..|s| - 1], s[|s| - 1]);
      assert a + s == a + s[..|s| - 1] + [s[|s| - 1]];
    }
  }

  /** A text with no digits but a number's, then two places after the point, spells hundredths. */
  lemma SpelledParts(prefix: Bytes, g: Bytes, point: Bytes, n: nat)
    requires n < 100
    requires forall i | 0 <= i < |prefix| :: !IsDigit(prefix[i])
    requires forall i | 0 <= i < |point| :: !IsDigit(point[i])
    ensures Value(prefix + g + point + Padded(n, 2)) == 100 * Value(g) + n
  {
    hide IsDigit, Padded;
    NoDigits([], prefix);
    assert [] + prefix == prefix && [] + g == g;
    SameTail(prefix, [], g);
    NoDigits(prefix + g, point);
    TwoDigits(n);
  }

  /** A printed amount gives back its cents, and is signed exactly when negative. */
  lemma MoneyReads(cents: int)
    ensures Value(MoneyText(cents)) == Abs(cents)
    ensures MoneyText(cents)[0] == 0x2d <==> cents < 0
  {
    hide Value, Grouped, Digits, Padded;
    var c := Abs(cents);
    var g := Grouped(Digits(c / 100));
    GroupedReads(Digits(c / 100));
    DigitsRead(c / 100);
    SpelledParts((if cents < 0 then Ascii("-") else []) + Ascii("KSh "), g, Ascii("."), c % 100);
  }

  lemma {:induction false} GroupedLength(ds: Bytes)
    requires ds != []
    ensures |Grouped(ds)| == |ds| + (|ds| - 1) / 3
  {
    if |ds| > 3 {
      GroupedLength(ds[..|ds| - 3]);
    }
  }

  lemma ShillingsHave17Digits(n: nat)
    requires n <= 92_233_720_368_547_758
    ensures |Digits(n)| <= 17
  {
    DigitCount(n, 17);
    assert Pow10(4) == 10 * Pow10(3) && Pow10(2) == 100 && Pow10(3) == 1000;
    assert Pow10(8) == 10 * Pow10(7) && Pow10(7) == 10 * Pow10(6) && Pow10(6) == 10 * Pow10(5);
    assert Pow10(12) == 10 * Pow10(11) && Pow10(11) == 10 * Pow10(10) && Pow10(10) == 10 * Pow10(9);
    assert Pow10(16) == 10 * Pow10(15) && Pow10(15) == 10 * Pow10(14) && Pow10(14) == 10 * Pow10(13);
  }

  predicate Int64(n: int) {
    -0x8000_0000_0000_0000 < n < 0x8000_0000_0000_0000
  }

  /** Every 64-bit amount is narrower than the narrowest paper. */
  lemma AmountsFit(cents: int)
    requires Int64(cents)
    ensures |MoneyText(cents)| < 32
  {
    var n := Abs(cents) / 100;
    ShillingsHave17Digits(n);
    GroupedLength(Digits(n));
    TwoDigits(Abs(cents) % 100);
  }

  /** A tax rate in basis points as a caption: "VAT (16%)", "VAT (16.5%)", "VAT (16.25%)". */
  function VatLabel(rateBps: nat): Bytes {
    var whole, frac := rateBps / 100, rateBps % 100;
    if frac == 0 then Ascii("VAT (") + Digits(whole) + Ascii("%)")
    else
      var s := Digits(whole) + Ascii(".") + Padded(frac, 2);
      Ascii("VAT (") + TrimRight(TrimRight(s, 0x30), 0x2e) + Ascii("%)")
  }

  /** The caption shows one decimal exactly when the hundredths are zero, and never trims the whole part. */
  lemma LabelShowsTheRate(rateBps: nat)
    ensures var whole, frac := Digits(rateBps / 100), rateBps % 100;
            VatLabel(rateBps) == Ascii("VAT (")
              + (if frac == 0 then whole
                 else if frac % 10 == 0 then whole + Ascii(".") + [DigitOf(frac / 10)]
                 else whole + Ascii(".") + [DigitOf(frac / 10)] + [DigitOf(frac % 10)])
              + Ascii("%)")
  {
    var whole, frac := Digits(rateBps / 100), rateBps % 100;
    if frac != 0 {
      TwoPlaces(frac);
      var s := whole + Ascii(".") + Padded(frac, 2);
      assert s[|s| - 1] == DigitOf(frac % 10);
      if frac % 10 == 0 {
        var t := whole + Ascii(".") + [DigitOf(frac / 10)];
        assert s[..|s| - 1] == t;
        assert TrimRight(t, 0x30) == t && TrimRight(t, 0x2e) == t;
      } else {
        assert s == whole + Ascii(".") + [DigitOf(frac / 10)] + [DigitOf(frac % 10)];
        assert TrimRight(s, 0x30) == s && TrimRight(s, 0x2e) == s;
      }
    }
  }

  lemma TwoPlaces(n: nat)
    requires n < 100
    ensures Padded(n, 2) == [DigitOf(n / 10), DigitOf(n % 10)]
  {
    if n < 10 {
      assert Zeros(1) == [DigitOf(0)];
    } else {
      assert Digits(n / 10) == [DigitOf(n / 10)];
    }
  }

  // ---- The blocks of a receipt ----

  function ItemLine(it: Item, w: nat): Line {
    var name := if it.qty > 1 then it.name + Ascii(" x") + Digits(it.qty) else it.name;
    Left(LeftRight(name, MoneyText(it.priceCents * it.qty), w))
  }

  function ItemBlock(items: seq<Item>, w: nat): (ls: seq<Line>)
    ensures |ls| == |items|
  {
    seq(|items|, i requires 0 <= i < |items| => ItemLine(items[i], w))
  }

  method ItemLines(d: ReceiptData, w: nat) returns (ls: seq<Line>)
    ensures ls == ItemBlock(d.items, w)
  {
    ls := [];
    for i := 0 to |d.items|
      invariant ls == ItemBlock(d.items[..i], w)
    {
      var it := d.items[i];
      var name := it.name;
      if it.qty > 1 {
        name := it.name + Ascii(" x") + Digits(it.qty);
      }
      var amount := Money(it.priceCents * it.qty);
      ls := ls + [Left(LeftRight(name, amount, w))];
      assert ls[i] == ItemLine(it, w);
      assert ItemBlock(d.items[..i + 1], w) == ItemBlock(d.items[..i], w) + [ItemLine(it, w)];
    }
    assert d.items[..|d.items|] == d.items;
  }

  function Row(caption: Bytes, cents: int, w: nat): Line {
    Left(LeftRight(caption, MoneyText(cents), w))
  }

  /** Totals: the tax shows before the total when added, below it when included, and not at all when zero. */
  function MoneyBlock(d: ReceiptData, w: nat, caption: Bytes, bold: bool): seq<Line> {
    var taxed, inclusive := d.taxCents > 0, d.taxMode == "inclusive";
    (if taxed && !inclusive
     then [Row(Ascii("Subtotal"), d.subtotalCents, w), Row(VatLabel(d.taxRateBps), d.taxCents, w)] else [])
    + [Row(caption, d.totalCents, w).(bold := bold)]
    + (if taxed && inclusive then [Row(Ascii("Incl. ") + VatLabel(d.taxRateBps), d.taxCents, w)] else [])
    + [Row(Ascii("Cash"), d.paidCents, w), Row(Ascii("Change"), d.changeCents, w)]
  }

  method MoneyLines(d: ReceiptData, w: nat, caption: Bytes, bold: bool) returns (ls: seq<Line>)
    ensures ls == MoneyBlock(d, w, caption, bold)
  {
    hide MoneyText, LeftRight, VatLabel;
    ls := [];
    var inclusive := d.taxMode == "inclusive";
    var tax := Money(d.taxCents);
    if d.taxCents > 0 && !inclusive {
      var subtotal := Money(d.subtotalCents);
      ls := ls + [Left(LeftRight(Ascii("Subtotal"), subtotal, w)), Left(LeftRight(VatLabel(d.taxRateBps), tax, w))];
    }
    var total := Money(d.totalCents);
    ls := ls + [Line(false, bold, false, LeftRight(caption, total, w))];
    if d.taxCents > 0 && inclusive {
      ls := ls + [Left(LeftRight(Ascii("Incl. ") + VatLabel(d.taxRateBps), tax, w))];
    }
    var cash := Money(d.paidCents);
    var change := Money(d.changeCents);
    ls := ls + [Left(LeftRight(Ascii("Cash"), cash, w)), Left(LeftRight(Ascii("Change"), change, w))];
  }

  function FooterTexts(footer: Bytes): seq<Bytes> {
    if TrimSpace(footer) == [] then []
    else
      var parts := Split(footer, NL);
      [[]] + seq(|parts|, i requires 0 <= i < |parts| => TrimRight(parts[i], CR))
  }

  /** A footer's lines are its text split at newlines, under a blank line; only carriage returns at line ends are dropped. */
  lemma FooterKeepsText(footer: Bytes)
    requires TrimSpace(footer) != []
    ensures FooterTexts(footer)[0] == [] && forall line <- FooterTexts(footer) :: NL !in line
    ensures CR !in footer ==> Join(FooterTexts(footer)[1..], NL) == footer
  {
    hide TrimSpace, Join;
    var parts := Split(footer, NL);
    SplitJoins(footer, NL);
    SplitParts(footer, NL);
    forall i | 0 <= i < |parts| ensures NL !in TrimRight(parts[i], CR) && (CR !in parts[i] ==> TrimRight(parts[i], CR) == parts[i]) {
      assert parts[i] in parts;
      TrimRightWithin(parts[i], CR);
    }
    if CR !in footer {
      forall i | 0 <= i < |parts| ensures CR !in parts[i] {
        SplitWithin(footer, NL, i);
      }
      assert FooterTexts(footer)[1..] == parts;
    }
  }

  method FooterLines(footer: Bytes) returns (out: seq<Bytes>)
    ensures out == FooterTexts(footer)
  {
    hide TrimSpace, Split, TrimRight;
    if TrimSpace(footer) == [] {
      return [];
    }
    ghost var all := FooterTexts(footer);
    out := [[]];
    var parts := Split(footer, NL);
    for i := 0 to |parts|
      invariant out == all[..i + 1]
    {
      assert all[i + 1] == TrimRight(parts[i], CR);
      out := out + [TrimRight(parts[i], CR)];
    }
    assert all[..|all|] == all;
  }

  // ---- Themes ----

  /** What tells the themes apart. */
  datatype Style = Style(
    topRule: bool, rule: Option<byte>, centered: bool, totalLabel: Bytes, totalBold: bool, footerBold: bool)

  const CLASSIC := Style(false, Some(0x2d), true, Ascii("TOTAL"), true, false)
  const MINIMAL := Style(false, None, false, Ascii("Total"), false, false)
  const BOLD := Style(true, Some(0x3d), true, Ascii("TOTAL"), true, true)

  function StyleOf(theme: string): Style {
    if theme == "minimal" then MINIMAL else if theme == "bold" then BOLD else CLASSIC
  }

  function Rule(st: Style, w: nat): Line {
    Left(if st.rule.Some? then Repeat(st.rule.value, w) else [])
  }

  function Footer(st: Style, footer: Bytes): seq<Line> {
    var fs := FooterTexts(footer);
    seq(|fs|, i requires 0 <= i < |fs| => Line(st.centered, st.footerBold, false, fs[i]))
  }

  function Heading(st: Style, d: ReceiptData): seq<Line> {
    var h := TrimSpace(d.headerLine);
    [Line(st.centered, true, st.centered, d.shopName), Line(st.centered, false, false, d.when)]
    + if h != [] then [Line(st.centered, false, false, h)] else []
  }

  /** A receipt's lines, from top to bottom. */
  function Layout(st: Style, d: ReceiptData, w: nat): seq<Line> {
    (if st.topRule then [Rule(st, w)] else []) + Heading(st, d)
    + [Rule(st, w)] + ItemBlock(d.items, w) + [Rule(st, w)]
    + MoneyBlock(d, w, st.totalLabel, st.totalBold) + Footer(st, d.footer)
  }

  method AddFooter(st: Style, ls: seq<Line>, footer: Bytes) returns (out: seq<Line>)
    ensures out == ls + Footer(st, footer)
  {
    out := ls;
    var fs := FooterLines(footer);
    for i := 0 to |fs|
      invariant out == ls + Footer(st, footer)[..i]
    {
      out := out + [Line(st.centered, st.footerBold, false, fs[i])];
    }
    assert Footer(st, footer)[..|fs|] == Footer(st, footer);
  }

  method ClassicLines(d: ReceiptData, w: nat) returns (ls: seq<Line>)
    ensures ls == Layout(CLASSIC, d, w)
  {
    hide ItemBlock, MoneyBlock, Footer, TrimSpace;
    ls := [Line(true, true, true, d.shopName), Line(true, false, false, d.when)];
    var h := TrimSpace(d.headerLine);
    if h != [] {
      ls := ls + [Line(true, false, false, h)];
    }
    ls := ls + [Left(Repeat(0x2d, w))];
    var items := ItemLines(d, w);
    ls := ls + items + [Left(Repeat(0x2d, w))];
    var totals := MoneyLines(d, w, Ascii("TOTAL"), true);
    ls := AddFooter(CLASSIC, ls + totals, d.footer);
  }

  method MinimalLines(d: ReceiptData, w: nat) returns (ls: seq<Line>)
    ensures ls == Layout(MINIMAL, d, w)
  {
    hide ItemBlock, MoneyBlock, Footer, TrimSpace;
    ls := [Line(false, true, false, d.shopName), Left(d.when)];
    var h := TrimSpace(d.headerLine);
    if h != [] {
      ls := ls + [Left(h)];
    }
    ls := ls + [Left([])];
    var items := ItemLines(d, w);
    ls := ls + items + [Left([])];
    var totals := MoneyLines(d, w, Ascii("Total"), false);
    ls := AddFooter(MINIMAL, ls + totals, d.footer);
  }

  method BoldLines(d: ReceiptData, w: nat) returns (ls: seq<Line>)
    ensures ls == Layout(BOLD, d, w)
  {
    hide ItemBlock, MoneyBlock, Footer, TrimSpace;
    ls := [Left(Repeat(0x3d, w)), Line(true, true, true, d.shopName), Line(true, false, false, d.when)];
    var h := TrimSpace(d.headerLine);
    if h != [] {
      ls := ls + [Line(true, false, false, h)];
    }
    ls := ls + [Left(Repeat(0x3d, w))];
    var items := ItemLines(d, w);
    ls := ls + items + [Left(Repeat(0x3d, w))];
    var totals := MoneyLines(d, w, Ascii("TOTAL"), true);
    ls := AddFooter(BOLD, ls + totals, d.footer);
  }

  method ThemeLines(d: ReceiptData, w: nat) returns (ls: seq<Line>)
    ensures ls == Layout(StyleOf(d.theme), d, w)
  {
    if d.theme == "minimal" {
      ls := MinimalLines(d, w);
    } else if d.theme == "bold" {
      ls := BoldLines(d, w);
    } else {
      ls := ClassicLines(d, w);
    }
  }

  /** Every item and totals row is exactly as wide as the paper. */
  lemma ColumnsAlign(d: ReceiptData, w: nat, caption: Bytes, bold: bool)
    requires w >= 32
    requires Int64(d.subtotalCents) && Int64(d.taxCents) && Int64(d.totalCents)
    requires Int64(d.paidCents) && Int64(d.changeCents)
    requires forall it <- d.items :: Int64(it.priceCents * it.qty)
    ensures forall l <- ItemBlock(d.items, w) + MoneyBlock(d, w, caption, bold) :: |l.text| == w
  {
    hide MoneyText, VatLabel, LeftRight;
    forall cents, name | Int64(cents) ensures |LeftRight(name, MoneyText(cents), w)| == w {
      AmountsFit(cents);
      LeftRightShape(name, MoneyText(cents), w);
    }
    forall l | l in ItemBlock(d.items, w) ensures |l.text| == w {
      var i :| 0 <= i < |d.items| && l == ItemLine(d.items[i], w);
    }
  }

  // ---- ESC/POS ----

  /** A growing byte buffer. */
  class Buffer {
    var data: Bytes

    constructor ()
      ensures data == []
    {
      data := [];
    }

    method Write(p: Bytes)
      modifies this
      ensures data == old(data) + p
    {
      data := data + p;
    }
  }

  function Opening(l: Line): Bytes {
    (if l.center then ALIGN_CENTER else ALIGN_LEFT) + (if l.double then DOUBLE_SIZE else []) + (if l.bold then BOLD_ON else [])
  }

  function Closing(l: Line): Bytes {
    (if l.bold then BOLD_OFF else []) + (if l.double then NORMAL_SIZE else [])
  }

  /** One line between its commands. */
  function LineBytes(l: Line): Bytes {
    Opening(l) + (l.text + LINE_FEED) + Closing(l)
  }

  function LinesBytes(ls: seq<Line>): Bytes {
    if ls == [] then [] else LinesBytes(ls[..|ls| - 1]) + LineBytes(ls[|ls| - 1])
  }

  /** The lines' texts, each ended by a newline. */
  function Joined(ls: seq<Line>): Bytes {
    if ls == [] then [] else Joined(ls[..|ls| - 1]) + ls[|ls| - 1].text + [NL]
  }

  method WriteLines(b: Buffer, ls: seq<Line>)
    modifies b
    ensures b.data == old(b.data) + LinesBytes(ls)
  {
    hide Opening, Closing;
    for i := 0 to |ls|
      invariant b.data == old(b.data) + LinesBytes(ls[..i])
    {
      var ln := ls[i];
      ghost var before := b.data;
      OpenLine(b, ln);
      b.Write(ln.text);
      b.Write(LINE_FEED);
      CloseLine(b, ln);
      assert b.data == before + LineBytes(ln);
      assert ls[..i + 1][..i] == ls[..i];
    }
    assert ls[..|ls|] == ls;
  }

  method OpenLine(b: Buffer, ln: Line)
    modifies b
    ensures b.data == old(b.data) + Opening(ln)
  {
    if ln.center {
      b.Write(ALIGN_CENTER);
    } else {
      b.Write(ALIGN_LEFT);
    }
    if ln.double {
      b.Write(DOUBLE_SIZE);
    }
    if ln.bold {
      b.Write(BOLD_ON);
    }
  }

  method CloseLine(b: Buffer, ln: Line)
    modifies b
    ensures b.data == old(b.data) + Closing(ln)
  {
    if ln.bold {
      b.Write(BOLD_OFF);
    }
    if ln.double {
      b.Write(NORMAL_SIZE);
    }
  }

  /** A line as the screen shows it: centring is spelled out in spaces. */
  function OnScreen(l: Line, w: nat): Line {
    if l.center then l.(text := Center(l.text, w)) else l
  }

  function AllOnScreen(ls: seq<Line>, w: nat): (r: seq<Line>)
    ensures |r| == |ls|
  {
    seq(|ls|, i requires 0 <= i < |ls| => OnScreen(ls[i], w))
  }

  method LinesToText(ls: seq<Line>, w: nat) returns (text: Bytes)
    ensures text == Joined(AllOnScreen(ls, w))
  {
    text := [];
    ghost var shown := AllOnScreen(ls, w);
    for i := 0 to |ls|
      invariant text == Joined(shown[..i])
    {
      var t := ls[i].text;
      if ls[i].center {
        t := Center(t, w);
      }
      text := text + t + [NL];
      assert shown[..i + 1][..i] == shown[..i];
    }
    assert shown[..|ls|] == shown;
  }

  /** The on-screen preview shows the very lines that RenderReceipt prints. */
  method PreviewText(d: ReceiptData) returns (text: Bytes)
    ensures var w := CharsForWidth(d.widthMM); text == Joined(AllOnScreen(Layout(StyleOf(d.theme), d, w), w))
  {
    var w := CharsForWidth(d.widthMM);
    var ls := ThemeLines(d, w);
    text := LinesToText(ls, w);
  }

  lemma LineIsShown(l: Line, rest: Bytes)
    requires ComesBack(l.text)
    ensures Decode(LineBytes(l) + rest) == Kept(l.text) + [NL] + Decode(rest)
  {
    hide Decode, Kept, Opening, Closing, ComesBack;
    var text, tail := l.text + LINE_FEED, Closing(l) + rest;
    OpeningIsSilent(l, text + tail);
    LineOfTextIsShown(l.text, tail);
    ClosingIsSilent(l, rest);
    assert LineBytes(l) + rest == Opening(l) + (text + tail);
  }

  lemma OpeningIsSilent(l: Line, rest: Bytes)
    ensures Decode(Opening(l) + rest) == Decode(rest)
  {
    hide Decode, IsCommand;
    PrinterCommands();
    SkipThree(if l.center then ALIGN_CENTER else ALIGN_LEFT, if l.double then DOUBLE_SIZE else [], if l.bold then BOLD_ON else [], rest);
  }

  lemma ClosingIsSilent(l: Line, rest: Bytes)
    ensures Decode(Closing(l) + rest) == Decode(rest)
  {
    hide Decode, IsCommand;
    PrinterCommands();
    var bold, size := if l.bold then BOLD_OFF else [], if l.double then NORMAL_SIZE else [];
    SkipThree([], bold, size, rest);
    assert [] + bold + size == bold + size;
  }

  lemma SkipThree(a: Bytes, b: Bytes, c: Bytes, rest: Bytes)
    requires a == [] || IsCommand(a)
    requires b == [] || IsCommand(b)
    requires c == [] || IsCommand(c)
    ensures Decode(a + b + c + rest) == Decode(rest)
  {
    hide Decode, IsCommand;
    Skip(c, rest);
    Skip(b, c + rest);
    Skip(a, b + (c + rest));
    assert a + b + c + rest == a + (b + (c + rest));
  }

  lemma KeptNewline()
    ensures Kept(LINE_FEED) == [NL]
  {
  }

  lemma Skip(c: Bytes, rest: Bytes)
    requires c == [] || IsCommand(c)
    ensures Decode(c + rest) == Decode(rest)
  {
    if c == [] {
      assert c + rest == rest;
    } else {
      CommandIsSilent(c, rest);
    }
  }

  /** No line's text swallows anything showable of itself or its newline. */
  predicate LinesComeBack(ls: seq<Line>) {
    forall l <- ls :: ComesBack(l.text)
  }

  /** The bytes of such lines decode to their texts, a newline after each. */
  lemma {:induction false} LinesAreShown(ls: seq<Line>, rest: Bytes)
    requires LinesComeBack(ls)
    ensures Decode(LinesBytes(ls) + rest) == Kept(Joined(ls)) + Decode(rest)
  {
    hide Decode, Kept, LineBytes, ComesBack;
    if ls == [] {
      assert LinesBytes(ls) + rest == rest;
      assert Kept([]) == [] by { KeptNothing(); }
    } else {
      var front, l := ls[..|ls| - 1], ls[|ls| - 1];
      LinesAreShown(front, LineBytes(l) + rest);
      LineIsShown(l, rest);
      assert LinesBytes(ls) + rest == LinesBytes(front) + (LineBytes(l) + rest);
      KeptLine(Joined(front), l.text);
      assert Joined(ls) == Joined(front) + l.text + [NL];
    }
  }

  /** One line, printed alone, shows its printable bytes and its newline if and only if it swallows none of them. */
  lemma LineBytesComeBackIff(l: Line)
    ensures Decode(LineBytes(l)) == Kept(l.text) + [NL] <==> ComesBack(l.text)
  {
    hide Decode, Kept, ComesBack, Opening;
    OpeningIsSilent(l, l.text + LINE_FEED + Closing(l));
    assert LineBytes(l) == Opening(l) + (l.text + LINE_FEED + Closing(l));
    ClosingIsSilent(l, []);
    assert Closing(l) + [] == Closing(l);
    assert Decode([]) == [] by { DecodeNothing(); }
    LineComesBackIff(l.text, Closing(l));
  }

  /** The lines, as far as the n-th, come back whole. */
  predicate WholeUpTo(ls: seq<Line>, n: nat)
    requires n <= |ls|
  {
    Decode(LinesBytes(ls[..n])) == Kept(Joined(ls[..n]))
  }

  /** Printed lines come back whole, at every line, if and only if none swallows anything showable of its own. */
  lemma {:induction false} LinesAreWholeIff(ls: seq<Line>)
    ensures (forall n | 0 <= n <= |ls| :: WholeUpTo(ls, n)) <==> LinesComeBack(ls)
  {
    hide Decode, Kept, LinesBytes, Joined, ComesBack;
    if LinesComeBack(ls) {
      forall n | 0 <= n <= |ls| ensures WholeUpTo(ls, n) {
        LinesAreShown(ls[..n], []);
        assert LinesBytes(ls[..n]) + [] == LinesBytes(ls[..n]);
        assert Decode([]) == [] by { DecodeNothing(); }
        assert Kept(Joined(ls[..n])) + [] == Kept(Joined(ls[..n]));
      }
    } else {
      var n := FirstBadLine(ls);
      assert !WholeUpTo(ls, n + 1) by { BadLineShows(ls, n); }
    }
  }

  lemma {:induction false} FirstBadLine(ls: seq<Line>) returns (n: nat)
    requires !LinesComeBack(ls)
    ensures n < |ls| && !ComesBack(ls[n].text) && LinesComeBack(ls[..n])
  {
    hide ComesBack;
    if !ComesBack(ls[0].text) {
      n := 0;
    } else {
      n := FirstBadLine(ls[1..]);
      assert ls[..n + 1] == [ls[0]] + ls[1..][..n];
      n := n + 1;
    }
  }

  lemma BadLineShows(ls: seq<Line>, n: nat)
    requires n < |ls| && !ComesBack(ls[n].text) && LinesComeBack(ls[..n])
    ensures !WholeUpTo(ls, n + 1)
  {
    hide Decode, Kept, LineBytes, ComesBack;
    var front, l := ls[..n], ls[n];
    assert ls[..n + 1][..n] == front;
    LinesAreShown(front, LineBytes(l));
    LineBytesComeBackIff(l);
    KeptLine(Joined(front), l.text);
    var kept, whole := Kept(Joined(front)), Kept(l.text) + [NL];
    assert LinesBytes(ls[..n + 1]) == LinesBytes(front) + LineBytes(l);
    assert Joined(ls[..n + 1]) == Joined(front) + l.text + [NL];
    assert (kept + whole)[|kept|..] == whole && (kept + Decode(LineBytes(l)))[|kept|..] == Decode(LineBytes(l));
  }

  lemma KeptNothing()
    ensures Kept([]) == []
  {
  }

  lemma KeptLine(above: Bytes, text: Bytes)
    ensures Kept(above + text + [NL]) == Kept(above) + (Kept(text) + [NL])
  {
    hide Kept;
    KeptOfConcat(above + text, [NL]);
    KeptOfConcat(above, text);
    assert Kept([NL]) == [NL] by { KeptNewline(); }
  }

  // ---- Texts of a receipt ----

  /** No ESC or GS; and when `strict`, nothing but printable ASCII and newlines. */
  predicate TextOk(s: Bytes, strict: bool) {
    forall i | 0 <= i < |s| :: s[i] != 0x1b && s[i] != 0x1d && (strict ==> s[i] == 0x0a || 0x20 <= s[i] <= 0x7e)
  }

  predicate LinesOk(ls: seq<Line>, strict: bool) {
    forall l <- ls :: TextOk(l.text, strict)
  }

  predicate DataOk(d: ReceiptData, strict: bool) {
    && TextOk(d.shopName, strict) && TextOk(d.headerLine, strict) && TextOk(d.footer, strict) && TextOk(d.when, strict)
    && forall it <- d.items :: TextOk(it.name, strict)
  }

  lemma MoneyOk(cents: int, strict: bool)
    ensures TextOk(MoneyText(cents), strict)
  {
    hide TextOk, Grouped, Digits, Padded, Ascii;
    var g := Grouped(Digits(Abs(cents) / 100));
    GroupedBytes(Digits(Abs(cents) / 100));
    NumeralOk(g, strict);
    NumeralOk(Padded(Abs(cents) % 100, 2), strict);
    AsciiOk("-", strict);
    AsciiOk("KSh ", strict);
    AsciiOk(".", strict);
    NumeralOk([], strict);
    forall a, b | TextOk(a, strict) && TextOk(b, strict) ensures TextOk(a + b, strict) { ConcatOk(a, b, strict); }
  }

  lemma {:induction false} TrimRightOk(s: Bytes, b: byte, strict: bool)
    requires TextOk(s, strict)
    ensures TextOk(TrimRight(s, b), strict)
  {
    if s != [] && s[|s| - 1] == b {
      TrimRightOk(s[..|s| - 1], b, strict);
    }
  }

  lemma {:induction false} TrimSpaceOk(s: Bytes, strict: bool)
    requires TextOk(s, strict)
    ensures TextOk(TrimSpace(s), strict)
  {
    if s != [] && IsSpace(s[0]) {
      TrimSpaceOk(s[1..], strict);
    } else if s != [] && IsSpace(s[|s| - 1]) {
      TrimSpaceOk(s[..|s| - 1], strict);
    }
  }

  lemma {:induction false} SplitOk(s: Bytes, sep: byte, strict: bool)
    requires TextOk(s, strict)
    ensures forall part <- Split(s, sep) :: TextOk(part, strict)
  {
    if s != [] {
      SplitOk(s[1..], sep, strict);
      var rest := Split(s[1..], sep);
      assert rest[0] in rest && forall part <- rest[1..] :: part in rest;
    }
  }

  lemma LabelOk(rateBps: nat, strict: bool)
    ensures TextOk(VatLabel(rateBps), strict)
  {
    hide TextOk, VatLabel;
    LabelShowsTheRate(rateBps);
    var whole, frac := Digits(rateBps / 100), rateBps % 100;
    AsciiOk("VAT (", strict);
    AsciiOk("%)", strict);
    AsciiOk(".", strict);
    NumeralOk(whole, strict);
    NumeralOk([DigitOf(frac / 10)], strict);
    NumeralOk([DigitOf(frac % 10)], strict);
    forall a, b | TextOk(a, strict) && TextOk(b, strict) ensures TextOk(a + b, strict) { ConcatOk(a, b, strict); }
  }

  lemma NumeralOk(ds: Bytes, strict: bool)
    requires forall i | 0 <= i < |ds| :: ds[i] == COMMA || IsDigit(ds[i])
    ensures TextOk(ds, strict)
  {
  }

  lemma ConcatOk(a: Bytes, b: Bytes, strict: bool)
    requires TextOk(a, strict) && TextOk(b, strict)
    ensures TextOk(a + b, strict)
  {
  }

  lemma RowOk(left: Bytes, cents: int, w: nat, strict: bool)
    requires TextOk(left, strict)
    ensures TextOk(LeftRight(left, MoneyText(cents), w), strict)
  {
    hide MoneyText;
    MoneyOk(cents, strict);
  }

  lemma MoneyBlockOk(d: ReceiptData, w: nat, caption: Bytes, bold: bool, strict: bool)
    requires TextOk(caption, strict)
    ensures LinesOk(MoneyBlock(d, w, caption, bold), strict)
  {
    hide MoneyText, LeftRight, VatLabel;
    LabelOk(d.taxRateBps, strict);
    forall left, cents | TextOk(left, strict) ensures TextOk(LeftRight(left, MoneyText(cents), w), strict) {
      RowOk(left, cents, w, strict);
    }
    LabelsOk(strict);
  }

  lemma AsciiOk(s: string, strict: bool)
    requires forall i | 0 <= i < |s| :: ' ' <= s[i] <= '~'
    ensures TextOk(Ascii(s), strict)
  {
  }

  lemma LabelsOk(strict: bool)
    ensures TextOk(Ascii("Subtotal"), strict) && TextOk(Ascii("Cash"), strict) && TextOk(Ascii("Change"), strict)
    ensures TextOk(Ascii("TOTAL"), strict) && TextOk(Ascii("Total"), strict)
    ensures TextOk(Ascii("Incl. "), strict) && TextOk(Ascii(" x"), strict)
  {
    hide TextOk, Ascii;
    AsciiOk("Subtotal", strict);
    AsciiOk("Cash", strict);
    AsciiOk("Change", strict);
    AsciiOk("TOTAL", strict);
    AsciiOk("Total", strict);
    AsciiOk("Incl. ", strict);
    AsciiOk(" x", strict);
  }

  lemma FooterOk(st: Style, footer: Bytes, strict: bool)
    requires TextOk(footer, strict)
    ensures LinesOk(Footer(st, footer), strict)
  {
    var parts := Split(footer, NL);
    SplitOk(footer, NL, strict);
    forall i | 0 <= i < |parts| ensures TextOk(TrimRight(parts[i], CR), strict) {
      TrimRightOk(parts[i], CR, strict);
    }
  }

  lemma ItemBlockOk(items: seq<Item>, w: nat, strict: bool)
    requires forall it <- items :: TextOk(it.name, strict)
    ensures LinesOk(ItemBlock(items, w), strict)
  {
    hide MoneyText, LeftRight;
    LabelsOk(strict);
    forall i | 0 <= i < |items| ensures TextOk(ItemLine(items[i], w).text, strict) {
      var it := items[i];
      assert it in items;
      var name := if it.qty > 1 then it.name + Ascii(" x") + Digits(it.qty) else it.name;
      RowOk(name, it.priceCents * it.qty, w, strict);
    }
  }

  lemma LinesOkConcat(a: seq<Line>, b: seq<Line>, strict: bool)
    requires LinesOk(a, strict) && LinesOk(b, strict)
    ensures LinesOk(a + b, strict)
  {
  }

  lemma HeadingOk(st: Style, d: ReceiptData, strict: bool)
    requires DataOk(d, strict)
    ensures LinesOk(Heading(st, d), strict)
  {
    hide TrimSpace, TextOk;
    TrimSpaceOk(d.headerLine, strict);
  }

  lemma RuleOk(st: Style, w: nat, strict: bool)
    requires st.rule.Some? ==> 0x20 <= st.rule.value <= 0x7e
    ensures LinesOk([Rule(st, w)], strict)
  {
  }

  lemma LayoutOk(d: ReceiptData, w: nat, strict: bool)
    requires DataOk(d, strict)
    ensures LinesOk(Layout(StyleOf(d.theme), d, w), strict)
  {
    hide ItemBlock, MoneyBlock, Footer, TextOk, Heading, Rule;
    var st := StyleOf(d.theme);
    LabelsOk(strict);
    HeadingOk(st, d, strict);
    ItemBlockOk(d.items, w, strict);
    MoneyBlockOk(d, w, st.totalLabel, st.totalBold, strict);
    FooterOk(st, d.footer, strict);
    RuleOk(st, w, strict);
    hide LinesOk;
    forall a, b | LinesOk(a, strict) && LinesOk(b, strict) ensures LinesOk(a + b, strict) { LinesOkConcat(a, b, strict); }
    assert LinesOk([], strict) by { NoLinesOk(strict); }
  }

  lemma NoLinesOk(strict: bool)
    ensures LinesOk([], strict)
  {
  }

  lemma {:induction false} JoinedOk(ls: seq<Line>)
    requires forall l <- ls :: TextOk(l.text, true)
    ensures Kept(Joined(ls)) == Joined(ls)
  {
    if ls != [] {
      var front, l := ls[..|ls| - 1], ls[|ls| - 1];
      JoinedOk(front);
      KeptLine(Joined(front), l.text);
      KeptOfPrintable(l.text);
    }
  }

  lemma {:induction false} JoinedHolds(ls: seq<Line>, k: nat, i: nat)
    requires k < |ls| && i < |ls[k].text| && Shown(ls[k].text[i])
    ensures ls[k].text[i] in Kept(Joined(ls))
  {
    var front, l := ls[..|ls| - 1], ls[|ls| - 1];
    KeptLine(Joined(front), l.text);
    if k < |front| {
      JoinedHolds(front, k, i);
    } else {
      KeptHolds(l.text, i);
    }
  }

  lemma {:induction false} KeptHolds(s: Bytes, i: nat)
    requires i < |s| && Shown(s[i])
    ensures s[i] in Kept(s)
  {
    if i > 0 {
      KeptHolds(s[1..], i - 1);
    }
  }

  /** Every receipt prints some text, the amounts at least. */
  lemma LayoutPrints(st: Style, d: ReceiptData, w: nat)
    ensures TrimNewlines(Kept(Joined(Layout(st, d, w)))) != []
  {
    hide ItemBlock, Footer, TrimSpace, LeftRight, Kept, Joined, TrimNewlines;
    var ls := Layout(st, d, w);
    var total := Row(st.totalLabel, d.totalCents, w).(bold := st.totalBold);
    var ms := MoneyBlock(d, w, st.totalLabel, st.totalBold);
    assert total in ms;
    var above := (if st.topRule then [Rule(st, w)] else []) + Heading(st, d) + [Rule(st, w)] + ItemBlock(d.items, w) + [Rule(st, w)];
    assert ls == above + ms + Footer(st, d.footer);
    assert total in ls;
    var k :| 0 <= k < |ls| && ls[k] == total;
    var m := MoneyText(d.totalCents);
    var at := if d.totalCents < 0 then 1 else 0;
    assert m[at] == 0x4b;
    LeftRightShape(st.totalLabel, m, w);
    assert total.text[|total.text| - |m|..][at] == m[at];
    JoinedHolds(ls, k, |total.text| - |m| + at);
    var s := Kept(Joined(ls));
    var i :| 0 <= i < |s| && s[i] == 0x4b;
    TrimLeavesText(s, i);
  }

  // ---- The receipt ----

  predicate HasPicture(d: ReceiptData) {
    d.logo != [] && d.picture.Some? && d.picture.value.width > 0 && d.picture.value.height > 0
  }

  /** The logo's part of a job: the picture's raster, centred, or nothing when there is none to print. */
  ghost predicate IsLogo(logo: Bytes, d: ReceiptData) {
    if HasPicture(d) then
      var img := d.picture.value;
      exists raster, tw, th ::
        && IsScaled(img.width, img.height, CappedWidth(img.width, PaperDots(d.widthMM)), tw, th)
        && IsRaster(raster, img, tw, th)
        && logo == ALIGN_CENTER + raster + LINE_FEED + ALIGN_LEFT
    else logo == []
  }

  /** A whole job: a reset, the logo, the lines, and a cut. */
  ghost predicate IsJob(out: Bytes, d: ReceiptData) {
    exists logo :: IsLogo(logo, d) && out == JobBytes(logo, Layout(StyleOf(d.theme), d, CharsForWidth(d.widthMM)))
  }

  function JobBytes(logo: Bytes, ls: seq<Line>): Bytes {
    ESC_INIT + logo + LinesBytes(ls) + ALIGN_LEFT + LINE_FEED + FEED_AND_CUT
  }

  lemma LogoShowsNoText(logo: Bytes, d: ReceiptData, rest: Bytes)
    requires IsLogo(logo, d)
    ensures Decode(logo + rest) == (if HasPicture(d) then [NL] else []) + Decode(rest)
  {
    hide Decode, IsCommand, IsScaled, IsRaster;
    if HasPicture(d) {
      var raster, tw, th :| IsRaster(raster, d.picture.value, tw, th) && logo == ALIGN_CENTER + raster + LINE_FEED + ALIGN_LEFT;
      RasterIsCommand(raster, d.picture.value, tw, th);
      PrinterCommands();
      Skip(ALIGN_LEFT, rest);
      NewlineShows(ALIGN_LEFT + rest);
      Skip(raster, LINE_FEED + (ALIGN_LEFT + rest));
      Skip(ALIGN_CENTER, raster + (LINE_FEED + (ALIGN_LEFT + rest)));
      assert logo + rest == ALIGN_CENTER + (raster + (LINE_FEED + (ALIGN_LEFT + rest)));
    } else {
      assert logo + rest == rest && [] + Decode(rest) == Decode(rest);
    }
  }

  lemma TailShowsNoText()
    ensures Decode(ALIGN_LEFT + LINE_FEED + FEED_AND_CUT) == [NL]
  {
    hide Decode, IsCommand;
    PrinterCommands();
    assert FEED_AND_CUT + [] == FEED_AND_CUT;
    Skip(FEED_AND_CUT, []);
    NewlineShows(FEED_AND_CUT);
    Skip(ALIGN_LEFT, LINE_FEED + FEED_AND_CUT);
    assert ALIGN_LEFT + LINE_FEED + FEED_AND_CUT == ALIGN_LEFT + (LINE_FEED + FEED_AND_CUT);
    DecodeNothing();
  }

  /** A job shows the lines' texts and nothing else: no command, no dot of the logo. */
  lemma JobShowsLines(logo: Bytes, d: ReceiptData, ls: seq<Line>)
    requires IsLogo(logo, d)
    requires LinesComeBack(ls)
    ensures TrimNewlines(Decode(JobBytes(logo, ls))) == TrimNewlines(Kept(Joined(ls)))
  {
    hide Decode, IsCommand, LinesBytes, Joined, Kept, TrimNewlines, IsLogo, LinesComeBack;
    var end := ALIGN_LEFT + LINE_FEED + FEED_AND_CUT;
    var body := LinesBytes(ls) + end;
    var text := Kept(Joined(ls));
    PrinterCommands();
    assert JobBytes(logo, ls) == ESC_INIT + (logo + body);
    Skip(ESC_INIT, logo + body);
    LogoShowsNoText(logo, d, body);
    LinesAreShown(ls, end);
    TailShowsNoText();
    assert [] + (text + [NL]) == text + [NL];
    TrimIgnoresFrame(text);
    TrimIgnoresFrame(text + [NL]);
  }

  lemma DecodeNothing()
    ensures Decode([]) == []
  {
  }

  lemma NewlineShows(rest: Bytes)
    ensures Decode(LINE_FEED + rest) == [NL] + Decode(rest)
  {
    TextIsShown(LINE_FEED, rest);
    assert Kept(LINE_FEED) == [NL];
  }

  method WriteLogo(b: Buffer, d: ReceiptData) returns (ghost logo: Bytes)
    modifies b
    ensures b.data == old(b.data) + logo && IsLogo(logo, d)
  {
    hide IsRaster, IsScaled;
    logo := [];
    if |d.logo| > 0 {
      var raster := RasterFromImage(d.picture, PaperDots(d.widthMM));
      if raster.Some? {
        b.Write(ALIGN_CENTER);
        b.Write(raster.value);
        b.Write(LINE_FEED);
        b.Write(ALIGN_LEFT);
        logo := ALIGN_CENTER + raster.value + LINE_FEED + ALIGN_LEFT;
      }
    }
  }

  /**
   * The ESC/POS bytes of a receipt. Whatever the theme, the paper and the logo,
   * the decoder reads back exactly the receipt's lines, if no laid-out line
   * swallows anything of its own, as none does without an ESC or a GS; printable
   * text comes back unchanged.
   */
  method RenderReceipt(d: ReceiptData) returns (out: Bytes)
    ensures IsJob(out, d)
    ensures var lines := Joined(Layout(StyleOf(d.theme), d, CharsForWidth(d.widthMM)));
            && (LinesComeBack(Layout(StyleOf(d.theme), d, CharsForWidth(d.widthMM))) ==> Preview(out) == TrimNewlines(Kept(lines)))
            && (DataOk(d, false) ==> Preview(out) == TrimNewlines(Kept(lines)))
            && (DataOk(d, true) ==> Preview(out) == TrimNewlines(lines))
  {
    hide Layout, Joined, Kept, TrimNewlines, LinesBytes, DataOk, IsLogo, Preview, LinesComeBack;
    var w := CharsForWidth(d.widthMM);
    var b := new Buffer();
    b.Write(ESC_INIT);
    ghost var logo := WriteLogo(b, d);
    var ls := ThemeLines(d, w);
    WriteLines(b, ls);
    b.Write(ALIGN_LEFT);
    b.Write(LINE_FEED);
    b.Write(FEED_AND_CUT);
    out := b.data;
    assert out == JobBytes(logo, ls);
    ReceiptComesBack(out, d);
  }

  /** The decoder recovers a receipt's lines from its job. */
  lemma ReceiptComesBack(out: Bytes, d: ReceiptData)
    requires IsJob(out, d)
    ensures var lines := Joined(Layout(StyleOf(d.theme), d, CharsForWidth(d.widthMM)));
            && (LinesComeBack(Layout(StyleOf(d.theme), d, CharsForWidth(d.widthMM))) ==> Preview(out) == TrimNewlines(Kept(lines)))
            && (DataOk(d, false) ==> Preview(out) == TrimNewlines(Kept(lines)))
            && (DataOk(d, true) ==> Preview(out) == TrimNewlines(lines))
  {
    hide Layout, Joined, Decode, IsLogo, Kept, TrimNewlines, LinesBytes, JobBytes, LinesComeBack;
    var w := CharsForWidth(d.widthMM);
    var ls := Layout(StyleOf(d.theme), d, w);
    var logo :| IsLogo(logo, d) && out == JobBytes(logo, ls);
    LayoutPrints(StyleOf(d.theme), d, w);
    if DataOk(d, true) {
      LayoutOk(d, w, true);
      OkLinesComeBack(ls, true);
      JoinedOk(ls);
    } else if DataOk(d, false) {
      LayoutOk(d, w, false);
      OkLinesComeBack(ls, false);
    }
    if LinesComeBack(ls) {
      JobShowsLines(logo, d, ls);
    }
    assert DataOk(d, true) ==> DataOk(d, false);
  }

  lemma OkLinesComeBack(ls: seq<Line>, strict: bool)
    requires LinesOk(ls, strict)
    ensures LinesComeBack(ls)
  {
    hide ComesBack;
    forall l | l in ls ensures ComesBack(l.text) {
      PlainTextComesBack(l.text);
    }
  }
}
