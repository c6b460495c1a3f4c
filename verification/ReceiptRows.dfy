/** What a receipt must show, row by row, and the proof that every theme's lines show it. */
module ReceiptRows {
  import opened Prelude
  import opened Texts
  import opened Decimal
  import opened EscPos
  import opened Receipt

  const POINT: byte := 0x2e

  // ---- Amounts ----

  /**
   * A text reads as an amount: the currency behind a minus sign if it is negative,
   * the shillings with a comma before every three digits, a point and two digits.
   */
  predicate ReadsAs(amount: Bytes, cents: int) {
    var from := if cents < 0 then 5 else 4;
    var point := |amount| - 3;
    && point > from
    && amount[..from] == (if cents < 0 then Ascii("-KSh ") else Ascii("KSh "))
    && (forall k | from <= k < point :: if (point - 1 - k) % 4 == 3 then amount[k] == 0x2c else 0x30 <= amount[k] <= 0x39)
    && amount[point] == POINT && 0x30 <= amount[point + 1] <= 0x39 && 0x30 <= amount[point + 2] <= 0x39
    && Value(amount) == if cents < 0 then -cents else cents
  }

  lemma MoneyShape(cents: int)
    ensures ReadsAs(MoneyText(cents), cents)
  {
    hide Value, Grouped, Digits, Padded;
    var amount, c := MoneyText(cents), Abs(cents);
    var sign, g, two := (if cents < 0 then Ascii("-") else []) + Ascii("KSh "), Grouped(Digits(c / 100)), Padded(c % 100, 2);
    CommasEveryThird(Digits(c / 100));
    TwoDigits(c % 100);
    MoneyReads(cents);
    SignIsCurrency(cents);
    assert amount == sign + g + [POINT] + two;
    var from, point := |sign|, |amount| - 3;
    forall k | from <= k < point
      ensures if (point - 1 - k) % 4 == 3 then amount[k] == COMMA else IsDigit(amount[k])
    {
      assert amount[k] == g[|g| - 1 - (point - 1 - k)];
    }
    assert amount[point + 1] == two[0] && amount[point + 2] == two[1];
  }

  lemma SignIsCurrency(cents: int)
    ensures (if cents < 0 then Ascii("-") else []) + Ascii("KSh ") == if cents < 0 then Ascii("-KSh ") else Ascii("KSh ")
    ensures |Ascii("-KSh ")| == 5 && |Ascii("KSh ")| == 4 && Ascii(".") == [POINT]
  {
  }

  // ---- Rows ----

  /** A row shows a caption, as much of it as fits, and behind spaces an amount; it is as wide as the paper. */
  ghost predicate RowReads(text: Bytes, caption: Bytes, cents: int, w: nat) {
    && (Int64(cents) && w >= 32 ==> |text| == w)
    && exists n: nat, at: nat ::
         && n <= |caption| && n < at <= |text|
         && text[..n] == caption[..n] && (n < |caption| ==> at == n + 1)
         && (forall i | n <= i < at :: text[i] == SPACE)
         && ReadsAs(text[at..], cents)
  }

  lemma LeftRightReads(caption: Bytes, cents: int, w: nat)
    ensures RowReads(LeftRight(caption, MoneyText(cents), w), caption, cents, w)
  {
    hide MoneyText, ReadsAs;
    var amount := MoneyText(cents);
    LeftRightShape(caption, amount, w);
    if Int64(cents) { AmountsFit(cents); }
    MoneyShape(cents);
    var text := LeftRight(caption, amount, w);
    var room := if w - |amount| < 1 then 0 else w - |amount| - 1;
    var n := if |caption| <= room then |caption| else room;
    var at := |text| - |amount|;
    assert text[at..] == amount;
    assert n < |caption| ==> at == n + 1;
  }

  ghost predicate RowShows(l: Line, caption: Bytes, cents: int, bold: bool, w: nat) {
    !l.center && !l.double && l.bold == bold && RowReads(l.text, caption, cents, w)
  }

  /** A rule: hyphens across the paper, equals signs on the bold theme, a blank line on the minimal one. */
  predicate RuleShows(l: Line, theme: string, w: nat) {
    && !l.center && !l.double && !l.bold
    && |l.text| == (if theme == "minimal" then 0 else w)
    && forall i | 0 <= i < |l.text| :: l.text[i] == if theme == "bold" then 0x3d else 0x2d
  }

  /** What an item is called on its row: its name, and how many if more than one. */
  function ItemCaption(it: Item): Bytes {
    if it.qty > 1 then it.name + Ascii(" x") + Digits(it.qty) else it.name
  }

  // ---- The whole receipt ----

  /** The heading: the shop's name, the time and the header line, one below the other. */
  predicate HeadingShows(ls: seq<Line>, d: ReceiptData) {
    var centered, header := d.theme != "minimal", TrimSpace(d.headerLine);
    && |ls| == (if header == [] then 2 else 3)
    && ls[0] == Line(centered, true, centered, d.shopName)
    && ls[1] == Line(centered, false, false, d.when)
    && (header != [] ==> ls[2] == Line(centered, false, false, header))
  }

  /** The items: each on a row of its own, its price times its quantity. */
  ghost predicate ItemsShow(ls: seq<Line>, d: ReceiptData, w: nat) {
    && |ls| == |d.items|
    && forall i | 0 <= i < |ls| ::
         RowShows(ls[i], ItemCaption(d.items[i]), d.items[i].priceCents * d.items[i].qty, false, w)
  }

  /**
   * The totals. Above the total an added tax and what it is added to; below it an
   * included tax; and last the cash paid and the change given.
   */
  ghost predicate TotalsShow(ls: seq<Line>, d: ReceiptData, w: nat) {
    var added, included := d.taxCents > 0 && d.taxMode != "inclusive", d.taxCents > 0 && d.taxMode == "inclusive";
    var total := if added then 2 else 0;
    var cash := if included then total + 2 else total + 1;
    && |ls| == cash + 2
    && (added ==>
         && RowShows(ls[0], Ascii("Subtotal"), d.subtotalCents, false, w)
         && RowShows(ls[1], VatLabel(d.taxRateBps), d.taxCents, false, w))
    && RowShows(ls[total], if d.theme == "minimal" then Ascii("Total") else Ascii("TOTAL"), d.totalCents, d.theme != "minimal", w)
    && (included ==> RowShows(ls[total + 1], Ascii("Incl. ") + VatLabel(d.taxRateBps), d.taxCents, false, w))
    && RowShows(ls[cash], Ascii("Cash"), d.paidCents, false, w)
    && RowShows(ls[cash + 1], Ascii("Change"), d.changeCents, false, w)
  }

  /** The footer: its lines under a blank one, or nothing at all. */
  predicate FooterShows(ls: seq<Line>, d: ReceiptData) {
    var texts := FooterTexts(d.footer);
    |ls| == |texts| && forall i | 0 <= i < |ls| :: ls[i] == Line(d.theme != "minimal", d.theme == "bold", false, texts[i])
  }

  /**
   * A receipt from top to bottom: on the bold theme a rule, then the heading, a
   * rule, the items, a rule, the totals and the footer.
   */
  ghost predicate ReceiptShows(ls: seq<Line>, d: ReceiptData, w: nat) {
    exists a: nat, b: nat, c: nat, e: nat ::
      && a < b < c < e <= |ls|
      && a == (if d.theme == "bold" then 1 else 0)
      && (d.theme == "bold" ==> RuleShows(ls[0], d.theme, w))
      && HeadingShows(ls[a..b], d)
      && RuleShows(ls[b], d.theme, w)
      && ItemsShow(ls[b + 1..c], d, w)
      && RuleShows(ls[c], d.theme, w)
      && TotalsShow(ls[c + 1..e], d, w)
      && FooterShows(ls[e..], d)
  }

  lemma ItemBlockShows(d: ReceiptData, w: nat)
    ensures ItemsShow(ItemBlock(d.items, w), d, w)
  {
    hide MoneyText, LeftRight, RowReads;
    forall i | 0 <= i < |d.items|
      ensures RowShows(ItemLine(d.items[i], w), ItemCaption(d.items[i]), d.items[i].priceCents * d.items[i].qty, false, w)
    {
      LeftRightReads(ItemCaption(d.items[i]), d.items[i].priceCents * d.items[i].qty, w);
    }
  }

  lemma MoneyBlockShows(d: ReceiptData, w: nat)
    ensures TotalsShow(MoneyBlock(d, w, StyleOf(d.theme).totalLabel, StyleOf(d.theme).totalBold), d, w)
  {
    hide MoneyText, LeftRight, RowReads, VatLabel, Ascii;
    forall caption, cents ensures RowReads(LeftRight(caption, MoneyText(cents), w), caption, cents, w) {
      LeftRightReads(caption, cents, w);
    }
  }

  /** Whatever the theme, the lines of a receipt show the sale. */
  lemma LayoutShowsSale(d: ReceiptData, w: nat)
    ensures ReceiptShows(Layout(StyleOf(d.theme), d, w), d, w)
  {
    hide ItemBlock, MoneyBlock, FooterTexts, TrimSpace, ItemsShow, TotalsShow, Ascii;
    var st := StyleOf(d.theme);
    var top, head, items := if st.topRule then [Rule(st, w)] else [], Heading(st, d), ItemBlock(d.items, w);
    var totals, footer := MoneyBlock(d, w, st.totalLabel, st.totalBold), Footer(st, d.footer);
    var a := |top|;
    var b := a + |head|;
    var c := b + 1 + |items|;
    var e := c + 1 + |totals|;
    var ls := Layout(st, d, w);
    ItemBlockShows(d, w);
    MoneyBlockShows(d, w);
    assert ls[a..b] == head && ls[b + 1..c] == items && ls[c + 1..e] == totals && ls[e..] == footer;
    assert ls[b] == ls[c] == Rule(st, w);
    assert HeadingShows(head, d) && FooterShows(footer, d) && RuleShows(Rule(st, w), d.theme, w);
  }

  /** The text that the decoder reads off a printed receipt shows the sale. */
  lemma PaperShowsSale(out: Bytes, d: ReceiptData)
    requires IsJob(out, d) && DataOk(d, true)
    ensures exists ls :: ReceiptShows(ls, d, if d.widthMM == 58 then 32 else 48) && Preview(out) == TrimNewlines(Joined(ls))
  {
    hide Layout, ReceiptShows, Joined, TrimNewlines, DataOk, Preview, IsJob;
    var w := CharsForWidth(d.widthMM);
    LayoutShowsSale(d, w);
    ReceiptComesBack(out, d);
    assert ReceiptShows(Layout(StyleOf(d.theme), d, w), d, w);
  }

  /** A line on the screen: the printed text, behind half of the room it leaves if it is centred. */
  predicate IndentedOnly(shown: Bytes, l: Line, w: nat) {
    var n := |shown| - |l.text|;
    && n >= 0 && shown[n..] == l.text
    && (forall i | 0 <= i < n :: shown[i] == SPACE)
    && if l.center && |l.text| <= w then n <= w - |shown| <= n + 1 else n == 0
  }

  /** The preview on screen shows the sale too, whatever its texts. */
  lemma ScreenShowsSale(text: Bytes, d: ReceiptData)
    requires var w := CharsForWidth(d.widthMM); text == Joined(AllOnScreen(Layout(StyleOf(d.theme), d, w), w))
    ensures var w := if d.widthMM == 58 then 32 else 48;
            exists ls, shown: seq<Line> ::
              && ReceiptShows(ls, d, w) && text == Joined(shown)
              && |shown| == |ls| && forall i | 0 <= i < |ls| :: IndentedOnly(shown[i].text, ls[i], w)
  {
    hide Layout, ReceiptShows, Joined, IndentedOnly;
    var w := CharsForWidth(d.widthMM);
    var ls := Layout(StyleOf(d.theme), d, w);
    LayoutShowsSale(d, w);
    var shown := AllOnScreen(ls, w);
    forall i | 0 <= i < |ls| ensures IndentedOnly(shown[i].text, ls[i], w) {
      LineOnScreen(ls[i], w);
    }
    assert ReceiptShows(ls, d, w) && text == Joined(shown);
  }

  lemma LineOnScreen(l: Line, w: nat)
    ensures IndentedOnly(OnScreen(l, w).text, l, w)
  {
    if l.center && |l.text| <= w {
      CenterBalances(l.text, w);
    }
  }
}
