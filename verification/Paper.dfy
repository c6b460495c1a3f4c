/** What a printer puts on paper: every byte of a receipt in the alignment, weight and size of its line. */
module Paper {
  import opened Prelude
  import opened Texts
  import opened Raster
  import opened EscPos
  import opened Receipt

  /** How the printer is set: centred or at the left, emphasised or not, double or normal size. */
  datatype Pen = Pen(center: bool, bold: bool, double: bool)

  const PLAIN := Pen(false, false, false)

  /** A byte as printed; a newline ends its row. */
  datatype Mark = Mark(b: byte, pen: Pen)

  /**
   * The settings after the command that `data` begins with: ESC @ resets them,
   * ESC a aligns, ESC E emphasises, GS ! sizes. No other command touches them.
   */
  function PenAfter(data: Bytes, pen: Pen): Pen
    requires data != []
  {
    if |data| >= 2 && data[0] == 0x1b && data[1] == 0x40 then PLAIN
    else if |data| < 3 then pen
    else if data[0] == 0x1b && data[1] == 0x61 then pen.(center := data[2] == 1)
    else if data[0] == 0x1b && data[1] == 0x45 then pen.(bold := data[2] == 1)
    else if data[0] == 0x1d && data[1] == 0x21 then pen.(double := data[2] == 0x11)
    else pen
  }

  /** What a job puts on paper, pictures aside. Commands are as long as the decoder takes them to be. */
  function Draw(data: Bytes, pen: Pen): seq<Mark>
    decreases |data|
  {
    if data == [] then []
    else if data[0] == ESC then Draw(Drop(data, SkipESC(data, 0)), PenAfter(data, pen))
    else if data[0] == GS then Draw(Drop(data, SkipGS(data, 0)), PenAfter(data, pen))
    else [Mark(data[0], pen)] + Draw(data[1..], pen)
  }

  /** The marks of a text under one setting. */
  function Marks(text: Bytes, pen: Pen): seq<Mark> {
    seq(|text|, i requires 0 <= i < |text| => Mark(text[i], pen))
  }

  /** Lines as they should stand on paper: each in its own style, a newline after it. */
  function AllMarks(ls: seq<Line>): seq<Mark> {
    if ls == [] then []
    else
      var l := ls[|ls| - 1];
      AllMarks(ls[..|ls| - 1]) + Marks(l.text + [NL], Pen(l.center, l.bold, l.double))
  }

  lemma CommandSetsPen(c: Bytes, rest: Bytes, pen: Pen)
    requires IsCommand(c)
    ensures Draw(c + rest, pen) == Draw(rest, PenAfter(c, pen))
  {
    assert Drop(c + rest, |c|) == rest;
    if c[0] == ESC {
      assert SkipESC(c + rest, 0) == |c|;
    } else {
      assert SkipGS(c + rest, 0) == |c|;
    }
    assert PenAfter(c + rest, pen) == PenAfter(c, pen);
  }

  lemma {:induction false} TextIsDrawn(s: Bytes, rest: Bytes, pen: Pen)
    requires PlainText(s)
    ensures Draw(s + rest, pen) == Marks(s, pen) + Draw(rest, pen)
  {
    if s == [] {
      assert s + rest == rest && Marks(s, pen) == [];
    } else {
      assert (s + rest)[1..] == s[1..] + rest;
      TextIsDrawn(s[1..], rest, pen);
      assert Marks(s, pen) == [Mark(s[0], pen)] + Marks(s[1..], pen);
    }
  }

  /** A command that may be left out. */
  lemma Switch(on: bool, c: Bytes, rest: Bytes, pen: Pen)
    requires IsCommand(c)
    ensures Draw((if on then c else []) + rest, pen) == Draw(rest, if on then PenAfter(c, pen) else pen)
  {
    hide Draw, IsCommand, PenAfter;
    if on {
      CommandSetsPen(c, rest, pen);
    } else {
      assert [] + rest == rest;
    }
  }

  lemma CommandsSetPen(pen: Pen)
    ensures PenAfter(ESC_INIT, pen) == PLAIN
    ensures PenAfter(ALIGN_CENTER, pen) == pen.(center := true) && PenAfter(ALIGN_LEFT, pen) == pen.(center := false)
    ensures PenAfter(BOLD_ON, pen) == pen.(bold := true) && PenAfter(BOLD_OFF, pen) == pen.(bold := false)
    ensures PenAfter(DOUBLE_SIZE, pen) == pen.(double := true) && PenAfter(NORMAL_SIZE, pen) == pen.(double := false)
    ensures PenAfter(FEED_AND_CUT, pen) == pen
  {
  }

  lemma OpeningIsDrawn(l: Line, rest: Bytes, pen: Pen)
    requires !pen.bold && !pen.double
    ensures Draw(Opening(l) + rest, pen) == Draw(rest, Pen(l.center, l.bold, l.double))
  {
    hide Draw, IsCommand, PenAfter;
    PrinterCommands();
    CommandsSetPen(pen);
    CommandsSetPen(Pen(l.center, false, false));
    CommandsSetPen(Pen(l.center, false, l.double));
    var big, fat := if l.double then DOUBLE_SIZE else [], if l.bold then BOLD_ON else [];
    var align := if l.center then ALIGN_CENTER else ALIGN_LEFT;
    CommandSetsPen(align, big + (fat + rest), pen);
    Switch(l.double, DOUBLE_SIZE, fat + rest, Pen(l.center, false, false));
    Switch(l.bold, BOLD_ON, rest, Pen(l.center, false, l.double));
    assert Opening(l) + rest == align + (big + (fat + rest));
  }

  lemma ClosingIsDrawn(l: Line, rest: Bytes)
    ensures Draw(Closing(l) + rest, Pen(l.center, l.bold, l.double)) == Draw(rest, Pen(l.center, false, false))
  {
    hide Draw, IsCommand, PenAfter;
    PrinterCommands();
    CommandsSetPen(Pen(l.center, l.bold, l.double));
    CommandsSetPen(Pen(l.center, false, l.double));
    var thin, small := if l.bold then BOLD_OFF else [], if l.double then NORMAL_SIZE else [];
    Switch(l.bold, BOLD_OFF, small + rest, Pen(l.center, l.bold, l.double));
    Switch(l.double, NORMAL_SIZE, rest, Pen(l.center, false, l.double));
    assert Closing(l) + rest == thin + (small + rest);
  }

  /** A line's own commands put it in its style and take it back to plain. */
  lemma LineIsDrawn(l: Line, rest: Bytes, pen: Pen)
    requires PlainText(l.text) && !pen.bold && !pen.double
    ensures Draw(LineBytes(l) + rest, pen)
         == Marks(l.text + [NL], Pen(l.center, l.bold, l.double)) + Draw(rest, Pen(l.center, false, false))
  {
    hide Draw, Marks, Opening, Closing;
    var text, tail := l.text + LINE_FEED, Closing(l) + rest;
    OpeningIsDrawn(l, text + tail, pen);
    TextIsDrawn(text, tail, Pen(l.center, l.bold, l.double));
    ClosingIsDrawn(l, rest);
    assert LineBytes(l) + rest == Opening(l) + (text + tail);
  }

  predicate AllPlain(ls: seq<Line>) {
    forall l <- ls :: PlainText(l.text)
  }

  /** The printer behind printed lines: plain, and aligned as the last of them. */
  function PenBehind(ls: seq<Line>, pen: Pen): Pen {
    if ls == [] then pen else Pen(ls[|ls| - 1].center, false, false)
  }

  /** Printed lines stand on paper each in its own style, and leave the printer plain behind them. */
  lemma {:induction false} LinesAreDrawn(ls: seq<Line>, rest: Bytes, pen: Pen)
    requires AllPlain(ls) && !pen.bold && !pen.double
    ensures Draw(LinesBytes(ls) + rest, pen)
         == AllMarks(ls) + Draw(rest, PenBehind(ls, pen))
  {
    hide Draw, LineBytes, Marks, PlainText;
    if ls == [] {
      assert LinesBytes(ls) + rest == rest && AllMarks(ls) + Draw(rest, pen) == Draw(rest, pen);
    } else {
      var front, l := ls[..|ls| - 1], ls[|ls| - 1];
      var behind := PenBehind(front, pen);
      LinesAreDrawn(front, LineBytes(l) + rest, pen);
      LineIsDrawn(l, rest, behind);
      assert LinesBytes(ls) + rest == LinesBytes(front) + (LineBytes(l) + rest);
    }
  }

  /** Behind its logo a job is an empty centred row, or nothing, and the printer is at the left again. */
  lemma LogoIsDrawn(logo: Bytes, d: ReceiptData, rest: Bytes)
    requires IsLogo(logo, d)
    ensures Draw(logo + rest, PLAIN)
         == (if HasPicture(d) then [Mark(NL, Pen(true, false, false))] else []) + Draw(rest, PLAIN)
  {
    hide Draw, IsCommand, IsScaled, PenAfter;
    if HasPicture(d) {
      var raster, tw, th :| IsRaster(raster, d.picture.value, tw, th) && logo == ALIGN_CENTER + raster + LINE_FEED + ALIGN_LEFT;
      var centered := Pen(true, false, false);
      RasterIsCommand(raster, d.picture.value, tw, th);
      PrinterCommands();
      CommandsSetPen(PLAIN);
      CommandsSetPen(centered);
      RasterKeepsPen(raster, d.picture.value, tw, th, centered);
      hide IsRaster;
      CommandSetsPen(ALIGN_CENTER, raster + (LINE_FEED + (ALIGN_LEFT + rest)), PLAIN);
      CommandSetsPen(raster, LINE_FEED + (ALIGN_LEFT + rest), centered);
      TextIsDrawn(LINE_FEED, ALIGN_LEFT + rest, centered);
      CommandSetsPen(ALIGN_LEFT, rest, centered);
      assert Marks(LINE_FEED, centered) == [Mark(NL, centered)];
      assert logo + rest == ALIGN_CENTER + (raster + (LINE_FEED + (ALIGN_LEFT + rest)));
    } else {
      assert logo + rest == rest;
    }
  }

  lemma RasterKeepsPen(raster: Bytes, img: Image, tw: nat, th: nat, pen: Pen)
    requires IsRaster(raster, img, tw, th)
    ensures PenAfter(raster, pen) == pen
  {
    assert raster[0] == raster[..8][0] && raster[1] == raster[..8][1];
  }

  /**
   * A job on paper, however the printer was set before it: below the logo exactly
   * the receipt's lines, every byte in its line's style, and one blank row.
   */
  lemma JobIsDrawn(out: Bytes, d: ReceiptData, before: Pen)
    requires IsJob(out, d) && DataOk(d, false)
    ensures Draw(out, before)
         == (if HasPicture(d) then [Mark(NL, Pen(true, false, false))] else [])
            + AllMarks(Layout(StyleOf(d.theme), d, CharsForWidth(d.widthMM))) + [Mark(NL, PLAIN)]
  {
    hide Layout, Draw, IsLogo, LinesBytes, AllMarks, AllPlain, DataOk;
    var w := CharsForWidth(d.widthMM);
    var ls := Layout(StyleOf(d.theme), d, w);
    var logo :| IsLogo(logo, d) && out == JobBytes(logo, ls);
    LayoutIsPlain(d, w);
    LinesOfJobAreDrawn(logo, d, ls, before);
  }

  lemma LinesOfJobAreDrawn(logo: Bytes, d: ReceiptData, ls: seq<Line>, before: Pen)
    requires IsLogo(logo, d) && AllPlain(ls)
    ensures Draw(JobBytes(logo, ls), before)
         == (if HasPicture(d) then [Mark(NL, Pen(true, false, false))] else []) + AllMarks(ls) + [Mark(NL, PLAIN)]
  {
    hide Draw, IsLogo, LinesBytes, IsCommand, PenAfter, AllMarks, AllPlain, HasPicture;
    var end := ALIGN_LEFT + (LINE_FEED + FEED_AND_CUT);
    var body := LinesBytes(ls) + end;
    PrinterCommands();
    CommandsSetPen(before);
    CommandSetsPen(ESC_INIT, logo + body, before);
    LogoIsDrawn(logo, d, body);
    LinesAreDrawn(ls, end, PLAIN);
    EndIsDrawn(PenBehind(ls, PLAIN));
    assert JobBytes(logo, ls) == ESC_INIT + (logo + body);
  }

  lemma EndIsDrawn(pen: Pen)
    requires !pen.bold && !pen.double
    ensures Draw(ALIGN_LEFT + (LINE_FEED + FEED_AND_CUT), pen) == [Mark(NL, PLAIN)]
  {
    hide Draw, IsCommand, PenAfter;
    PrinterCommands();
    CommandsSetPen(pen);
    CommandSetsPen(ALIGN_LEFT, LINE_FEED + FEED_AND_CUT, pen);
    TextIsDrawn(LINE_FEED, FEED_AND_CUT, PLAIN);
    CommandSetsPen(FEED_AND_CUT, [], PLAIN);
    assert FEED_AND_CUT + [] == FEED_AND_CUT && Marks(LINE_FEED, PLAIN) == [Mark(NL, PLAIN)];
    assert Draw([], PenAfter(FEED_AND_CUT, PLAIN)) == [] by { NothingIsDrawn(PenAfter(FEED_AND_CUT, PLAIN)); }
  }

  lemma NothingIsDrawn(pen: Pen)
    ensures Draw([], pen) == []
  {
  }

  lemma LayoutIsPlain(d: ReceiptData, w: nat)
    requires DataOk(d, false)
    ensures AllPlain(Layout(StyleOf(d.theme), d, w))
  {
    hide Layout;
    LayoutOk(d, w, false);
  }
}
