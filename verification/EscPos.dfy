/** The fake printer's ESC/POS decoder: recovering the printable text of a job. */
module EscPos {
  import opened Prelude
  import opened Texts
  import opened Raster

  const ESC: byte := 0x1b
  const GS: byte := 0x1d

  const ESC_INIT: Bytes := [0x1b, 0x40]
  const ALIGN_CENTER: Bytes := [0x1b, 0x61, 0x01]
  const ALIGN_LEFT: Bytes := [0x1b, 0x61, 0x00]
  const BOLD_ON: Bytes := [0x1b, 0x45, 0x01]
  const BOLD_OFF: Bytes := [0x1b, 0x45, 0x00]
  const DOUBLE_SIZE: Bytes := [0x1d, 0x21, 0x11]
  const NORMAL_SIZE: Bytes := [0x1d, 0x21, 0x00]
  const FEED_AND_CUT: Bytes := [0x1d, 0x56, 0x42, 0x00]
  const LINE_FEED: Bytes := [NL]

  const IMAGE_ONLY: Bytes := Ascii("(no printable text, image only)")

  /** How far to move past the GS sequence at `i`: possibly beyond the end, but always forward. */
  function SkipGS(data: Bytes, i: nat): (n: nat)
    requires i < |data|
    ensures n >= 1
  {
    if i + 1 >= |data| then 1
    else if data[i + 1] == 0x21 then 3
    else if data[i + 1] == 0x56 then 4
    else if data[i + 1] == 0x76 then
      if i + 8 > |data| then |data| - i
      else
        var width := data[i + 4] as nat + data[i + 5] as nat * 0x100;
        var height := data[i + 6] as nat + data[i + 7] as nat * 0x100;
        8 + width * height
    else 2
  }

  function SkipESC(data: Bytes, i: nat): (n: nat)
    requires i < |data|
    ensures n >= 2
  {
    if i + 1 < |data| && (data[i + 1] == 0x61 || data[i + 1] == 0x45) then 3 else 2
  }

  predicate Shown(b: byte) {
    b == NL || 0x20 <= b <= 0x7e
  }

  /** The printable text of a job, newlines included. */
  function Decode(data: Bytes): Bytes
    decreases |data|
  {
    if data == [] then []
    else if data[0] == ESC then Decode(Drop(data, SkipESC(data, 0)))
    else if data[0] == GS then Decode(Drop(data, SkipGS(data, 0)))
    else if Shown(data[0]) then [data[0]] + Decode(data[1..])
    else Decode(data[1..])
  }

  // ---- Trimming newlines ----

  function TrimNewlines(s: Bytes): Bytes {
    TrimRight(TrimLeft(s, NL), NL)
  }

  lemma {:induction false} TrimKeepsSplit(s: Bytes, t: Bytes, b: byte)
    ensures TrimLeft(s + t, b) == if TrimLeft(s, b) == [] then TrimLeft(t, b) else TrimLeft(s, b) + t
  {
    if s == [] {
      assert s + t == t;
    } else if s[0] == b {
      TrimKeepsSplit(s[1..], t, b);
      assert (s + t)[1..] == s[1..] + t;
    }
  }

  /** Newlines before and after a text do not survive trimming. */
  lemma TrimIgnoresFrame(s: Bytes)
    ensures TrimNewlines([NL] + s) == TrimNewlines(s) == TrimNewlines(s + [NL])
  {
    assert ([NL] + s)[1..] == s;
    TrimKeepsSplit(s, [NL], NL);
    var t := TrimLeft(s, NL);
    if t == [] {
      assert TrimLeft([NL], NL) == TrimLeft([NL][1..], NL);
    } else {
      assert (t + [NL])[..|t + [NL]| - 1] == t;
    }
  }

  lemma {:induction false} TrimRightKeeps(s: Bytes, b: byte, i: nat)
    requires i < |s| && s[i] != b
    ensures i < |TrimRight(s, b)| && TrimRight(s, b)[i] == s[i]
  {
    if s[|s| - 1] == b {
      TrimRightKeeps(s[..|s| - 1], b, i);
    }
  }

  lemma {:induction false} TrimLeftKeeps(s: Bytes, b: byte, i: nat) returns (j: nat)
    requires i < |s| && s[i] != b
    ensures j < |TrimLeft(s, b)| && TrimLeft(s, b)[j] == s[i]
  {
    if s[0] == b {
      j := TrimLeftKeeps(s[1..], b, i - 1);
    } else {
      j := i;
    }
  }

  /** A text with a byte other than a newline does not trim to nothing. */
  lemma TrimLeavesText(s: Bytes, i: nat)
    requires i < |s| && s[i] != NL
    ensures TrimNewlines(s) != []
  {
    var j := TrimLeftKeeps(s, NL, i);
    TrimRightKeeps(TrimLeft(s, NL), NL, j);
  }

  function Preview(data: Bytes): Bytes {
    var text := TrimNewlines(Decode(data));
    if text == [] then IMAGE_ONLY else text
  }

  lemma SkipsAreLocal(data: Bytes, i: nat)
    requires i < |data|
    ensures SkipGS(data, i) == SkipGS(data[i..], 0) && SkipESC(data, i) == SkipESC(data[i..], 0)
  {
  }

  /** Steps over commands and keeps what prints; it always ends, truncated commands included. */
  method TextPreview(data: Bytes) returns (out: Bytes)
    ensures out == Preview(data)
  {
    hide SkipGS, SkipESC, Decode, Drop;
    var b: Bytes := [];
    var i := 0;
    DecodeStart(data);
    while i < |data|
      invariant b + Decode(Drop(data, i)) == Decode(data)
      decreases |data| - i
    {
      DecodeStep(data, i);
      var c := data[i];
      if c == ESC {
        i := i + SkipESC(data, i);
      } else if c == GS {
        i := i + SkipGS(data, i);
      } else {
        if Shown(c) {
          b := b + [c];
        }
        i := i + 1;
      }
    }
    DecodeEnd(data, i);
    assert b + [] == b;
    out := TrimNewlines(b);
    if out == [] {
      out := IMAGE_ONLY;
    }
  }

  lemma DecodeStart(data: Bytes)
    ensures Drop(data, 0) == data
  {
  }

  lemma DecodeEnd(data: Bytes, i: nat)
    requires i >= |data|
    ensures Decode(Drop(data, i)) == []
  {
  }

  lemma DecodeStep(data: Bytes, i: nat)
    requires i < |data|
    ensures var c := data[i];
            Decode(Drop(data, i))
              == if c == ESC then Decode(Drop(data, i + SkipESC(data, i)))
                 else if c == GS then Decode(Drop(data, i + SkipGS(data, i)))
                 else (if Shown(c) then [c] else []) + Decode(Drop(data, i + 1))
  {
    hide SkipGS, SkipESC, Decode, Drop;
    var rest := data[i..];
    assert rest[0] == data[i];
    SkipsAreLocal(data, i);
    DecodeHead(rest);
    DropTwice(data, i, 0);
    DropTwice(data, i, 1);
    DecodeStart(rest);
    DropTwice(data, i, SkipESC(data, i));
    DropTwice(data, i, SkipGS(data, i));
    assert [] + Decode(Drop(rest, 1)) == Decode(Drop(rest, 1));
  }

  lemma DecodeHead(rest: Bytes)
    requires rest != []
    ensures Decode(rest)
      == if rest[0] == ESC then Decode(Drop(rest, SkipESC(rest, 0)))
         else if rest[0] == GS then Decode(Drop(rest, SkipGS(rest, 0)))
         else if Shown(rest[0]) then [rest[0]] + Decode(Drop(rest, 1))
         else Decode(Drop(rest, 1))
  {
    hide SkipGS, SkipESC;
    assert rest[1..] == Drop(rest, 1);
  }

  lemma DropTwice(data: Bytes, i: nat, n: nat)
    requires i < |data|
    ensures Drop(data[i..], n) == Drop(data, i + n)
  {
  }

  /** The preview is never empty, and nothing but newlines and printable ASCII gets into it. */
  lemma PreviewIsPrintable(data: Bytes)
    ensures Preview(data) != []
    ensures forall b <- Preview(data) :: b == 0x0a || 0x20 <= b <= 0x7e
  {
    hide TrimNewlines, Decode, Ascii;
    DecodedIsPrintable(data);
    TrimNewlinesWithin(Decode(data));
    NoteIsPrintable("(no printable text, image only)");
  }

  lemma NoteIsPrintable(s: string)
    requires s != "" && forall i | 0 <= i < |s| :: ' ' <= s[i] <= '~'
    ensures Ascii(s) != [] && forall b <- Ascii(s) :: 0x20 <= b <= 0x7e
  {
  }

  lemma {:induction false} DecodedIsPrintable(data: Bytes)
    ensures forall b <- Decode(data) :: b == 0x0a || 0x20 <= b <= 0x7e
    decreases |data|
  {
    if data != [] {
      DecodedIsPrintable(if data[0] == ESC then Drop(data, SkipESC(data, 0)) else if data[0] == GS then Drop(data, SkipGS(data, 0)) else data[1..]);
    }
  }

  lemma TrimNewlinesWithin(s: Bytes)
    ensures forall b <- TrimNewlines(s) :: b in s
  {
    TrimLeftWithin(s, NL);
    TrimRightWithin(TrimLeft(s, NL), NL);
  }

  lemma {:induction false} TrimLeftWithin(s: Bytes, b: byte)
    ensures forall c <- TrimLeft(s, b) :: c in s
  {
    if s != [] && s[0] == b { TrimLeftWithin(s[1..], b); }
  }

  // ---- What the decoder sees ----

  /** A complete ESC or GS sequence, as long as its own header says. */
  predicate IsCommand(c: Bytes) {
    if |c| < 2 then false
    else if c[0] == ESC then |c| == SkipESC(c, 0)
    else c[0] == GS && |c| == SkipGS(c, 0) && (c[1] == 0x76 ==> |c| >= 8)
  }

  /** No byte of a complete command, bitmap bytes included, reaches the text. */
  lemma CommandIsSilent(c: Bytes, rest: Bytes)
    requires IsCommand(c)
    ensures Decode(c + rest) == Decode(rest)
  {
    assert Drop(c + rest, |c|) == rest;
    if c[0] == ESC {
      assert SkipESC(c + rest, 0) == |c|;
    } else {
      assert SkipGS(c + rest, 0) == |c|;
    }
  }

  /**
   * What the decoder steps over, byte for byte: three bytes of ESC a, ESC E and
   * GS !, four of GS V, two of any other command, of a GS v raster its header and
   * the bytes that the header counts, and all of a raster without a whole header.
   */
  lemma StepsOver(c: Bytes, rest: Bytes)
    requires |c| >= 2 && (c[0] == 0x1b || c[0] == 0x1d)
    requires if c[0] == 0x1b then |c| == (if c[1] == 0x61 || c[1] == 0x45 then 3 else 2)
             else if c[1] == 0x21 then |c| == 3
             else if c[1] == 0x56 then |c| == 4
             else if c[1] == 0x76 then
               |c| >= 8 && |c| == 8 + (c[4] as int + 256 * c[5] as int) * (c[6] as int + 256 * c[7] as int)
             else |c| == 2
    ensures Decode(c + rest) == Decode(rest)
  {
    hide Decode;
    CommandIsSilent(c, rest);
  }

  lemma CutShortShowsNothing(c: Bytes)
    requires c == [0x1d] || c == [0x1b] || (|c| < 8 && [0x1d, 0x76] <= c)
    ensures Decode(c) == []
  {
    assert Decode([]) == [];
  }

  lemma PrinterCommands()
    ensures IsCommand(ESC_INIT) && IsCommand(ALIGN_CENTER) && IsCommand(ALIGN_LEFT) && IsCommand(BOLD_ON)
    ensures IsCommand(BOLD_OFF) && IsCommand(DOUBLE_SIZE) && IsCommand(NORMAL_SIZE) && IsCommand(FEED_AND_CUT)
  {
  }

  /** A raster's header decodes to exactly the length of its payload. */
  lemma RasterIsCommand(raster: Bytes, img: Image, tw: nat, th: nat)
    requires IsRaster(raster, img, tw, th)
    ensures IsCommand(raster) && SkipGS(raster, 0) == |raster|
  {
    var h := Header(tw / 8, th);
    assert forall i | 0 <= i < 8 :: raster[i] == raster[..8][i];
    assert raster[4] as nat + raster[5] as nat * 0x100 == tw / 8;
    assert raster[6] as nat + raster[7] as nat * 0x100 == th;
  }

  predicate PlainText(s: Bytes) {
    forall i | 0 <= i < |s| :: s[i] != ESC && s[i] != GS
  }

  /** The bytes of a text the preview can show. */
  function Kept(s: Bytes): Bytes {
    if s == [] then [] else if Shown(s[0]) then [s[0]] + Kept(s[1..]) else Kept(s[1..])
  }

  lemma {:induction false} KeptOfConcat(a: Bytes, b: Bytes)
    ensures Kept(a + b) == Kept(a) + Kept(b)
  {
    if a == [] {
      assert a + b == b;
    } else {
      assert (a + b)[1..] == a[1..] + b;
      KeptOfConcat(a[1..], b);
    }
  }

  lemma {:induction false} KeptOfPrintable(s: Bytes)
    requires forall i | 0 <= i < |s| :: Shown(s[i])
    ensures Kept(s) == s
  {
    if s != [] {
      KeptOfPrintable(s[1..]);
    }
  }

  /** Text without ESC or GS shows its printable bytes and newlines, whatever follows. */
  lemma {:induction false} TextIsShown(s: Bytes, rest: Bytes)
    requires PlainText(s)
    ensures Decode(s + rest) == Kept(s) + Decode(rest)
  {
    if s == [] {
      assert s + rest == rest;
    } else {
      assert (s + rest)[1..] == s[1..] + rest;
      TextIsShown(s[1..], rest);
    }
  }

  // ---- Exactly when a text loses something ----

  function Before(data: Bytes, n: nat): Bytes {
    if n >= |data| then data else data[..n]
  }

  /** The bytes that the decoder takes for commands and their operands. */
  function SteppedOver(data: Bytes): Bytes
    decreases |data|
  {
    if data == [] then []
    else if data[0] == ESC then Before(data, SkipESC(data, 0)) + SteppedOver(Drop(data, SkipESC(data, 0)))
    else if data[0] == GS then Before(data, SkipGS(data, 0)) + SteppedOver(Drop(data, SkipGS(data, 0)))
    else SteppedOver(data[1..])
  }

  /** What can be shown of a text is shown or stepped over, and all of it is shown if nothing is stepped over. */
  lemma {:induction false} ShownOrSteppedOver(s: Bytes)
    ensures |Kept(s)| == |Decode(s)| + |Kept(SteppedOver(s))|
    ensures Kept(SteppedOver(s)) == [] ==> Decode(s) == Kept(s)
    decreases |s|
  {
    hide SkipESC, SkipGS;
    if s != [] {
      var n := if s[0] == ESC then SkipESC(s, 0) else if s[0] == GS then SkipGS(s, 0) else 1;
      var rest := Drop(s, n);
      ShownOrSteppedOver(rest);
      assert Before(s, n) + rest == s;
      KeptOfConcat(Before(s, n), rest);
      KeptOfConcat(Before(s, n), SteppedOver(rest));
      if s[0] != ESC && s[0] != GS {
        assert rest == s[1..] && Before(s, 1) == [s[0]];
        KeptOne(s[0]);
      }
    }
  }

  lemma KeptOne(b: byte)
    ensures Kept([b]) == if Shown(b) then [b] else []
  {
    assert [b][1..] == [];
  }

  lemma {:induction false} KeepsNothingIff(s: Bytes)
    ensures Kept(s) == [] <==> forall b <- s :: !Shown(b)
  {
    if s != [] {
      KeepsNothingIff(s[1..]);
      assert s == [s[0]] + s[1..];
    }
  }

  /** A text comes back with every byte that can be shown exactly when no such byte stands inside a command. */
  lemma TextIsWholeIff(s: Bytes)
    ensures Decode(s) == Kept(s) <==> forall b <- SteppedOver(s) :: !Shown(b)
  {
    ShownOrSteppedOver(s);
    KeepsNothingIff(SteppedOver(s));
  }

  // ---- Lines of text ----

  /** A line's text that keeps its commands to itself: none swallows anything showable, its own newline included. */
  predicate ComesBack(text: Bytes) {
    forall b <- SteppedOver(text + [NL]) :: !Shown(b)
  }

  /** A command that ends inside a text is as long whatever follows the text. */
  lemma SkipsEndInside(s: Bytes, rest: Bytes)
    requires s != []
    ensures SkipESC(s, 0) < |s| ==> SkipESC(s + rest, 0) == SkipESC(s, 0)
    ensures SkipGS(s, 0) < |s| ==> SkipGS(s + rest, 0) == SkipGS(s, 0)
  {
  }

  lemma NewlineIsSwallowed(s: Bytes, n: nat, more: Bytes)
    requires s != [] && s[|s| - 1] == NL && n >= |s|
    ensures NL in Before(s, n) + more
  {
  }

  /** Such a line shows exactly its printable bytes and its newline, whatever follows. */
  lemma {:induction false} LineOfTextIsShown(text: Bytes, rest: Bytes)
    requires ComesBack(text)
    ensures Decode(text + [NL] + rest) == Kept(text) + [NL] + Decode(rest)
    decreases |text|
  {
    hide SkipESC, SkipGS, Decode, Kept;
    var s := text + [NL];
    DecodeHead(s + rest);
    if text == [] {
      assert Drop(s + rest, 1) == rest;
      assert Kept([]) == [] by { KeepsNothingIff([]); }
    } else if text[0] == ESC || text[0] == GS {
      var n := if text[0] == ESC then SkipESC(s, 0) else SkipGS(s, 0);
      assert SteppedOver(s) == Before(s, n) + SteppedOver(Drop(s, n));
      if n > |text| { NewlineIsSwallowed(s, n, SteppedOver(Drop(s, n))); }
      assert n <= |text|;
      SkipsEndInside(s, rest);
      assert Drop(s, n) == text[n..] + [NL] && Drop(s + rest, n) == text[n..] + [NL] + rest;
      LineOfTextIsShown(text[n..], rest);
      assert Before(s, n) == text[..n];
      KeepsNothingIff(text[..n]);
      KeptOfConcat(text[..n], text[n..]);
      assert text[..n] + text[n..] == text;
    } else {
      assert s[1..] == text[1..] + [NL] && Drop(s + rest, 1) == text[1..] + [NL] + rest;
      LineOfTextIsShown(text[1..], rest);
      KeptOne(text[0]);
      KeptOfConcat([text[0]], text[1..]);
      assert [text[0]] + text[1..] == text;
    }
  }

  lemma {:induction false} PlainTextComesBack(text: Bytes)
    requires PlainText(text)
    ensures SteppedOver(text + [NL]) == [] && ComesBack(text)
  {
    if text != [] {
      PlainTextComesBack(text[1..]);
      assert (text + [NL])[1..] == text[1..] + [NL];
    }
  }

  lemma {:induction false} DecodeWithin(s: Bytes)
    ensures forall b <- Decode(s) :: b in s
    decreases |s|
  {
    hide SkipESC, SkipGS;
    if s != [] {
      var n := if s[0] == ESC then SkipESC(s, 0) else if s[0] == GS then SkipGS(s, 0) else 1;
      DecodeWithin(Drop(s, n));
      DecodeHead(s);
      assert forall b <- Drop(s, n) :: b in s;
    }
  }

  /**
   * A text that ends in a newline, and commands behind it. Either the decoder
   * comes out between the two, or a command of the text swallowed the newline and
   * what is shown of the commands behind, if anything, holds none.
   */
  lemma {:induction false} CrossesOrNot(s: Bytes, after: Bytes) returns (crossed: bool, shown: Bytes, leaked: Bytes)
    requires (s == [] || s[|s| - 1] == NL) && Decode(after) == [] && NL !in after
    ensures !crossed ==> Decode(s + after) == Decode(s)
    ensures crossed ==> Decode(s + after) == shown + leaked && |shown| < |Kept(s)| && NL !in leaked
    decreases |s|
  {
    hide SkipESC, SkipGS, Decode, Kept;
    crossed, shown, leaked := false, [], [];
    if s == [] {
      assert s + after == after;
      assert Decode([]) == [] by { ShownOrSteppedOver([]); KeepsNothingIff([]); }
    } else {
      DecodeHead(s);
      DecodeHead(s + after);
      var command := s[0] == ESC || s[0] == GS;
      var n := if s[0] == ESC then SkipESC(s + after, 0) else if s[0] == GS then SkipGS(s + after, 0) else 1;
      if n <= |s| {
        if command { SkipsAgree(s, after); }
        var head, rest := s[..n], s[n..];
        DropsFront(head, rest, after);
        assert head + rest == s;
        crossed, shown, leaked := CrossesOrNot(rest, after);
        KeptOfConcat(head, rest);
        if !command {
          KeptOne(s[0]);
          assert head == [s[0]];
          shown := Kept(head) + shown;
        }
      } else {
        crossed, leaked := true, Decode(Drop(s + after, n));
        DecodeWithin(Drop(s + after, n));
        assert forall b <- Drop(s + after, n) :: b in after;
        KeepsNothingIff(s);
        assert NL in s;
        assert [] + leaked == leaked;
      }
    }
  }

  lemma DropsFront(head: Bytes, rest: Bytes, after: Bytes)
    ensures Drop(head + rest, |head|) == rest && Drop(head + rest + after, |head|) == rest + after
  {
  }

  lemma SkipsAgree(s: Bytes, rest: Bytes)
    requires |s| > 1
    ensures SkipESC(s + rest, 0) <= |s| ==> SkipESC(s, 0) == SkipESC(s + rest, 0)
    ensures SkipGS(s + rest, 0) <= |s| ==> SkipGS(s, 0) == SkipGS(s + rest, 0)
  {
    var t := s + rest;
    assert t[0] == s[0] && t[1] == s[1];
    if |s| >= 8 {
      assert t[4] == s[4] && t[5] == s[5] && t[6] == s[6] && t[7] == s[7];
    } else if |t| >= 8 && t[1] == 0x76 {
      RasterSkipIsLong(t);
    }
  }

  lemma RasterSkipIsLong(t: Bytes)
    requires |t| >= 8 && t[1] == 0x76
    ensures SkipGS(t, 0) >= 8
  {
    var width, height := t[4] as nat + t[5] as nat * 0x100, t[6] as nat + t[7] as nat * 0x100;
    assert width * height >= 0;
  }

  /** A line, in front of commands, shows exactly its printable bytes and its newline if and only if it keeps its commands to itself. */
  lemma LineComesBackIff(text: Bytes, after: Bytes)
    requires Decode(after) == [] && NL !in after
    ensures Decode(text + [NL] + after) == Kept(text) + [NL] <==> ComesBack(text)
  {
    hide Decode, Kept;
    var s := text + [NL];
    KeptOfConcat(text, [NL]);
    KeptOne(NL);
    assert Kept(s) == Kept(text) + [NL];
    if ComesBack(text) {
      LineOfTextIsShown(text, after);
    } else {
      var crossed, shown, leaked := CrossesOrNot(s, after);
      TextIsWholeIff(s);
      assert crossed && leaked != [] ==> (shown + leaked)[|shown + leaked| - 1] == leaked[|leaked| - 1];
    }
  }
}
