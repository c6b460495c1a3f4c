/** A logo as an ESC/POS "GS v 0" raster: scaled to the paper, one bit a dot, most significant bit first. */
module Raster {
  import opened Prelude

  const LOGO_MAX_WIDTH := 384
  const LOGO_MAX_HEIGHT := 320

  /** Channels are 16 bits wide. */
  datatype Pixel = Pixel(r: nat, g: nat, b: nat, a: nat)

  /** A decoded picture: its bounds' corner, its size, and its colours. */
  datatype Image = Image(minX: int, minY: int, width: nat, height: nat, at: (int, int) -> Pixel)

  function PaperDots(mm: int): int {
    if mm == 58 then 384 else 576
  }

  predicate Inside(img: Image, x: int, y: int) {
    img.minX <= x < img.minX + img.width && img.minY <= y < img.minY + img.height
  }

  /** Opaque and dark. */
  predicate Inked(p: Pixel) {
    p.a >= 0x8000 && (299 * p.r + 587 * p.g + 114 * p.b) / 1000 < 0x8000
  }

  /** The source pixel behind dot (x, y) of a tw by th raster. */
  function Sample(img: Image, tw: nat, th: nat, x: nat, y: nat): (int, int)
    requires tw > 0 && th > 0
  {
    (img.minX + x * img.width / tw, img.minY + y * img.height / th)
  }

  predicate Dot(img: Image, tw: nat, th: nat, x: nat, y: nat)
    requires tw > 0 && th > 0
  {
    var (sx, sy) := Sample(img, tw, th, x, y);
    Inked(img.at(sx, sy))
  }

  lemma QuotientBelow(a: nat, n: nat, m: nat)
    requires n > 0 && a < m * n
    ensures 0 <= a / n < m
  {
    var q := a / n;
    assert q * n <= a;
    if q >= m {
      MulMonotone(m, q, n);
    }
  }

  lemma ScaledIndexInside(i: nat, src: nat, n: nat)
    requires i < n && src > 0
    ensures 0 <= i * src / n < src
  {
    MulMonotone(i + 1, n, src);
    assert i * src + src == (i + 1) * src <= n * src == src * n;
    QuotientBelow(i * src, n, src);
  }

  /** Every sampled coordinate lies inside the picture. */
  lemma SampleInside(img: Image, tw: nat, th: nat, x: nat, y: nat)
    requires x < tw && y < th && img.width > 0 && img.height > 0
    ensures var (sx, sy) := Sample(img, tw, th, x, y); Inside(img, sx, sy)
  {
    ScaledIndexInside(x, img.width, tw);
    ScaledIndexInside(y, img.height, th);
  }

  // ---- Scaling ----

  function Down8(n: nat): nat {
    n - n % 8
  }

  /** Height the picture gets at width `w`, its proportions kept. */
  function HeightAt(srcW: nat, srcH: nat, w: nat): nat
    requires srcW > 0
  {
    srcH * w / srcW
  }

  lemma TallPicturesNarrow(srcW: nat, srcH: nat, w: nat)
    requires srcW > 0 && srcH > 0 && HeightAt(srcW, srcH, w) > LOGO_MAX_HEIGHT
    ensures srcW * LOGO_MAX_HEIGHT / srcH <= w
  {
    var h := HeightAt(srcW, srcH, w);
    assert srcH * w == h * srcW + srcH * w % srcW;
    MulMonotone(LOGO_MAX_HEIGHT + 1, h, srcW);
    var q := srcW * LOGO_MAX_HEIGHT / srcH;
    assert srcW * LOGO_MAX_HEIGHT == q * srcH + srcW * LOGO_MAX_HEIGHT % srcH;
    if q > w {
      MulMonotone(w + 1, q, srcH);
    }
  }

  /** The widest allowed multiple of eight. */
  function CappedWidth(srcW: nat, maxWidthDots: int): (w: nat)
    ensures w % 8 == 0 && 8 <= w <= LOGO_MAX_WIDTH
    ensures 8 <= maxWidthDots <= LOGO_MAX_WIDTH ==> w <= maxWidthDots
    ensures 8 <= srcW ==> w <= srcW
  {
    var cap := if maxWidthDots <= 0 || maxWidthDots > LOGO_MAX_WIDTH then LOGO_MAX_WIDTH else maxWidthDots;
    var w := Down8(if srcW > cap then cap else srcW);
    if w < 8 then 8 else w
  }

  /**
   * The size of the raster at capped width `w`: a short picture takes that width
   * and the floor of its proportional height, a tall one the height cap and the
   * widest multiple of eight in proportion, and neither side vanishes.
   */
  predicate IsScaled(srcW: nat, srcH: nat, w: nat, tw: nat, th: nat)
    requires srcW > 0 && srcH > 0
  {
    var h := HeightAt(srcW, srcH, w);
    var proportional := Down8(srcW * LOGO_MAX_HEIGHT / srcH);
    if h <= LOGO_MAX_HEIGHT then tw == w && th == (if h == 0 then 1 else h)
    else th == LOGO_MAX_HEIGHT && tw == if proportional == 0 then 8 else proportional
  }

  method Scale(srcW: nat, srcH: nat, maxWidthDots: int) returns (tw: nat, th: nat)
    requires srcW > 0 && srcH > 0
    ensures tw % 8 == 0 && 8 <= tw <= CappedWidth(srcW, maxWidthDots)
    ensures 1 <= th <= LOGO_MAX_HEIGHT
    ensures IsScaled(srcW, srcH, CappedWidth(srcW, maxWidthDots), tw, th)
  {
    hide CappedWidth;
    tw := CappedWidth(srcW, maxWidthDots);
    th := HeightAt(srcW, srcH, tw);
    if th > LOGO_MAX_HEIGHT {
      TallPicturesNarrow(srcW, srcH, tw);
      th := LOGO_MAX_HEIGHT;
      tw := Down8(srcW * th / srcH);
      if tw < 8 {
        tw := 8;
      }
    }
    if th < 1 {
      th := 1;
    }
  }

  // ---- Bits ----

  /** The mask of the k-th bit from the left. */
  function Mask(k: nat): bv8
    requires k < 8
  {
    0x80 >> k
  }

  predicate BitAt(b: bv8, k: nat)
    requires k < 8
  {
    b & Mask(k) != 0
  }

  /** OR-ing a mask in sets one bit and no other. */
  lemma SettingOneBit(b: bv8, k: nat, j: nat)
    requires k < 8 && j < 8
    ensures BitAt(b | Mask(k), j) <==> BitAt(b, j) || j == k
  {
    MasksAreDisjoint(k, j);
    BitsOfOr(b, Mask(k), Mask(j));
  }

  lemma BitsOfOr(b: bv8, m: bv8, n: bv8)
    requires n != 0 && (m == n || m & n == 0)
    ensures (b | m) & n != 0 <==> b & n != 0 || m == n
  {
    assert (b | m) & n == (b & n) | (m & n);
  }

  lemma MasksAreDisjoint(k: nat, j: nat)
    requires k < 8 && j < 8
    ensures Mask(j) != 0 && if j == k then Mask(k) == Mask(j) else Mask(k) != Mask(j) && Mask(k) & Mask(j) == 0
  {
    assert Mask(0) == 0x80 && Mask(1) == 0x40 && Mask(2) == 0x20 && Mask(3) == 0x10;
    assert Mask(4) == 8 && Mask(5) == 4 && Mask(6) == 2 && Mask(7) == 1;
  }

  lemma NoBitsInZero(k: nat)
    requires k < 8
    ensures !BitAt(0, k)
  {
  }

  lemma ByteKeepsBits(b: bv8)
    ensures (b as byte) as bv8 == b
  {
  }

  /** Dot number n in reading order is column n mod tw of row n div tw, and bit n mod 8 of byte n div 8. */
  lemma DotPosition(tw: nat, x: nat, y: nat)
    requires tw > 0 && tw % 8 == 0 && x < tw
    ensures var n := y * tw + x;
            n / tw == y && n % tw == x && n / 8 == y * (tw / 8) + x / 8 && n % 8 == x % 8
  {
    var n, w := y * tw + x, tw / 8;
    assert tw == 8 * w && y * tw == 8 * (y * w);
    var q := n / tw;
    assert n == q * tw + n % tw;
    if q < y {
      MulMonotone(q + 1, y, tw);
    } else if q > y {
      MulMonotone(y + 1, q, tw);
    }
  }

  /** Dot number n of the raster. */
  predicate DotNumber(img: Image, tw: nat, th: nat, n: nat)
    requires tw > 0 && th > 0
  {
    Dot(img, tw, th, n % tw, n / tw)
  }

  /** Exactly the first `done` dots have been drawn. */
  ghost predicate Drawn(img: Image, tw: nat, th: nat, bits: seq<bv8>, done: nat)
    requires tw > 0 && th > 0
  {
    forall i, k | 0 <= i < |bits| && 0 <= k < 8 :: BitAt(bits[i], k) <==> 8 * i + k < done && DotNumber(img, tw, th, 8 * i + k)
  }

  lemma DrawOne(img: Image, tw: nat, th: nat, bits: seq<bv8>, n: nat, bits': seq<bv8>)
    requires tw > 0 && th > 0 && n / 8 < |bits| && Drawn(img, tw, th, bits, n)
    requires bits' == if DotNumber(img, tw, th, n) then bits[n / 8 := bits[n / 8] | Mask(n % 8)] else bits
    ensures Drawn(img, tw, th, bits', n + 1)
  {
    forall i, k | 0 <= i < |bits'| && 0 <= k < 8
      ensures BitAt(bits'[i], k) <==> 8 * i + k < n + 1 && DotNumber(img, tw, th, 8 * i + k)
    {
      SettingOneBit(bits[n / 8], n % 8, k);
      assert 8 * i + k == n <==> i == n / 8 && k == n % 8;
    }
  }

  lemma NothingDrawn(img: Image, tw: nat, th: nat, bits: seq<bv8>)
    requires tw > 0 && th > 0 && forall i | 0 <= i < |bits| :: bits[i] == 0
    ensures Drawn(img, tw, th, bits, 0)
  {
    forall k: nat | k < 8 ensures !BitAt(0, k) { NoBitsInZero(k); }
  }

  lemma RowInside(w: nat, i: nat, y: nat, th: nat)
    requires i < w && y < th
    ensures 0 <= y * w + i < w * th
  {
    MulMonotone(y + 1, th, w);
    assert (y + 1) * w == y * w + w;
  }

  /** Inks dot (x, y), or leaves it blank. */
  method DrawDot(img: Image, tw: nat, th: nat, bits: array<bv8>, x: nat, y: nat)
    requires tw % 8 == 0 && x < tw && y < th && bits.Length == tw / 8 * th
    requires Drawn(img, tw, th, bits[..], y * tw + x)
    modifies bits
    ensures Drawn(img, tw, th, bits[..], y * tw + x + 1)
  {
    hide Drawn, Dot, Mask;
    var bytesPerRow := tw / 8;
    DotPosition(tw, x, y);
    RowInside(bytesPerRow, x / 8, y, th);
    ghost var before := bits[..];
    if Dot(img, tw, th, x, y) {
      bits[y * bytesPerRow + x / 8] := bits[y * bytesPerRow + x / 8] | Mask(x % 8);
    }
    DrawOne(img, tw, th, before, y * tw + x, bits[..]);
  }

  method Draw(img: Image, tw: nat, th: nat) returns (bits: array<bv8>)
    requires tw % 8 == 0 && tw > 0 && th > 0
    ensures fresh(bits) && bits.Length == tw / 8 * th && Drawn(img, tw, th, bits[..], tw * th)
  {
    hide Drawn;
    bits := new bv8[tw / 8 * th](_ => 0);
    NothingDrawn(img, tw, th, bits[..]);
    for y := 0 to th
      invariant Drawn(img, tw, th, bits[..], y * tw)
    {
      for x := 0 to tw
        invariant Drawn(img, tw, th, bits[..], y * tw + x)
      {
        DrawDot(img, tw, th, bits, x, y);
      }
      assert (y + 1) * tw == y * tw + tw;
    }
    assert th * tw == tw * th;
  }

  // ---- The command ----

  function Header(bytesPerRow: nat, th: nat): Bytes
    requires bytesPerRow < 0x10000 && th < 0x10000
  {
    [0x1d, 0x76, 0x30, 0x00,
     (bytesPerRow % 0x100) as byte, (bytesPerRow / 0x100) as byte, (th % 0x100) as byte, (th / 0x100) as byte]
  }

  /** Bit (x, y) of the raster: bit x mod 8, from the left, of byte x div 8 of row y. */
  ghost predicate RasterBit(raster: Bytes, tw: nat, th: nat, x: nat, y: nat)
    requires tw % 8 == 0 && x < tw && y < th && |raster| == 8 + tw / 8 * th
  {
    RowInside(tw / 8, x / 8, y, th);
    BitAt(raster[8 + (y * (tw / 8) + x / 8)] as bv8, x % 8)
  }

  /** A raster command for a tw by th picture: header, then one bit a dot, set exactly where the sample is dark. */
  ghost predicate IsRaster(raster: Bytes, img: Image, tw: nat, th: nat)
  {
    && 8 <= tw <= LOGO_MAX_WIDTH && tw % 8 == 0 && 1 <= th <= LOGO_MAX_HEIGHT
    && |raster| == 8 + tw / 8 * th
    && raster[..8] == Header(tw / 8, th)
    && forall x, y | 0 <= x < tw && 0 <= y < th :: RasterBit(raster, tw, th, x, y) <==> Dot(img, tw, th, x, y)
  }

  /** The bits of a drawn raster are exactly its dark samples. */
  lemma DrawnIsRaster(img: Image, tw: nat, th: nat, bits: seq<bv8>, raster: Bytes)
    requires 8 <= tw <= LOGO_MAX_WIDTH && tw % 8 == 0 && 1 <= th <= LOGO_MAX_HEIGHT
    requires |bits| == tw / 8 * th && Drawn(img, tw, th, bits, tw * th)
    requires |raster| == 8 + |bits| && raster[..8] == Header(tw / 8, th)
    requires forall i | 0 <= i < |bits| :: raster[8 + i] == bits[i] as byte
    ensures IsRaster(raster, img, tw, th)
  {
    hide Drawn, Dot, RasterBit, Header;
    forall x, y | 0 <= x < tw && 0 <= y < th
      ensures RasterBit(raster, tw, th, x, y) <==> Dot(img, tw, th, x, y)
    {
      PackedDot(img, tw, th, bits, raster, x, y);
    }
  }

  lemma PackedDot(img: Image, tw: nat, th: nat, bits: seq<bv8>, raster: Bytes, x: nat, y: nat)
    requires tw % 8 == 0 && x < tw && y < th && |bits| == tw / 8 * th && Drawn(img, tw, th, bits, tw * th)
    requires |raster| == 8 + |bits| && forall i | 0 <= i < |bits| :: raster[8 + i] == bits[i] as byte
    ensures RasterBit(raster, tw, th, x, y) <==> Dot(img, tw, th, x, y)
  {
    hide Drawn, Dot, Mask, BitAt;
    DotIsDrawn(img, tw, th, bits, x, y);
    RowInside(tw / 8, x / 8, y, th);
    var i := y * (tw / 8) + x / 8;
    assert raster[8 + i] == bits[i] as byte;
    ByteKeepsBits(bits[i]);
  }

  lemma DotIsDrawn(img: Image, tw: nat, th: nat, bits: seq<bv8>, x: nat, y: nat)
    requires tw % 8 == 0 && x < tw && y < th && |bits| == tw / 8 * th && Drawn(img, tw, th, bits, tw * th)
    ensures y * (tw / 8) + x / 8 < |bits|
    ensures BitAt(bits[y * (tw / 8) + x / 8], x % 8) <==> Dot(img, tw, th, x, y)
  {
    hide Dot, Mask, BitAt;
    DotPosition(tw, x, y);
    RowInside(tw / 8, x / 8, y, th);
    RowInside(tw, x, y, th);
    var i := y * (tw / 8) + x / 8;
    assert 8 * i + x % 8 == y * tw + x;
  }

  /**
   * The raster of a picture, or nothing when the bytes hold no picture or an
   * empty one. Decoding the bytes is not modelled: `img` is what they decode to.
   */
  method RasterFromImage(img: Option<Image>, maxWidthDots: int) returns (raster: Option<Bytes>)
    ensures raster.None? <==> img.None? || img.value.width == 0 || img.value.height == 0
    ensures raster.Some? ==>
      var w := CappedWidth(img.value.width, maxWidthDots);
      exists tw, th :: IsScaled(img.value.width, img.value.height, w, tw, th) && IsRaster(raster.value, img.value, tw, th)
  {
    if img.None? || img.value.width == 0 || img.value.height == 0 {
      return None;
    }
    var tw, th := Scale(img.value.width, img.value.height, maxWidthDots);
    var bits := Draw(img.value, tw, th);
    var out := Header(tw / 8, th) + seq(bits.Length, i requires 0 <= i < bits.Length reads bits => bits[i] as byte);
    DrawnIsRaster(img.value, tw, th, bits[..], out);
    raster := Some(out);
  }

  // ---- What stands on the paper ----

  /** The floor of n/d, told without dividing. */
  predicate IsFloor(q: nat, n: nat, d: nat) {
    q * d <= n < (q + 1) * d
  }

  lemma Floors(n: nat, d: nat)
    requires d > 0
    ensures n / d >= 0 && IsFloor(n / d, n, d)
  {
    var q := n / d;
    assert n == d * q + n % d;
    assert (q + 1) * d == q * d + d;
    if q < 0 { MulMonotone(q, -1, d); }
  }

  /** A dot prints black. */
  predicate Black(p: Pixel) {
    p.a >= 0x8000 && 299 * p.r + 587 * p.g + 114 * p.b < 0x8000 * 1000
  }

  lemma InkedIsBlack(p: Pixel)
    ensures Inked(p) <==> Black(p)
  {
  }

  /** The place that is proportionally as far into `src` as `i` is into `n`. */
  predicate InProportion(at: nat, src: nat, i: nat, n: nat) {
    at < src && IsFloor(at, i * src, n)
  }

  lemma ScaledInProportion(i: nat, src: nat, n: nat)
    requires i < n && src > 0
    ensures i * src / n >= 0 && InProportion(i * src / n, src, i, n)
  {
    ScaledIndexInside(i, src, n);
    Floors(i * src, n);
  }

  /** Bit k from the left. */
  predicate BitSet(b: byte, k: nat)
    requires k < 8
  {
    (b as bv8) & (0x80 >> k) != 0
  }

  /**
   * Dot (x, y) of a printed picture is bit x mod 8, from the left, of byte x div 8
   * of row y, and it is set exactly when the pixel proportionally as far into the
   * picture is at least half opaque and its luma, 0.299 R + 0.587 G + 0.114 B,
   * below one half.
   */
  lemma DotShowsPixel(raster: Bytes, img: Image, tw: nat, th: nat, x: nat, y: nat) returns (sx: nat, sy: nat, at: nat)
    requires IsRaster(raster, img, tw, th) && x < tw && y < th && img.width > 0 && img.height > 0
    ensures InProportion(sx, img.width, x, tw) && InProportion(sy, img.height, y, th)
    ensures at == y * (tw / 8) + x / 8 && 8 + at < |raster|
    ensures BitSet(raster[8 + at], x % 8) <==> Black(img.at(img.minX + sx, img.minY + sy))
  {
    hide IsFloor, Inked, Black, Header, BitSet, RasterBit;
    ScaledInProportion(x, img.width, tw);
    ScaledInProportion(y, img.height, th);
    sx, sy := x * img.width / tw, y * img.height / th;
    at := PlaceOfBit(raster, tw, th, x, y);
    assert RasterBit(raster, tw, th, x, y) <==> Dot(img, tw, th, x, y);
    InkedIsBlack(img.at(img.minX + sx, img.minY + sy));
  }

  lemma PlaceOfBit(raster: Bytes, tw: nat, th: nat, x: nat, y: nat) returns (at: nat)
    requires tw % 8 == 0 && x < tw && y < th && |raster| == 8 + tw / 8 * th
    ensures at == y * (tw / 8) + x / 8 && 8 + at < |raster|
    ensures BitSet(raster[8 + at], x % 8) <==> RasterBit(raster, tw, th, x, y)
  {
    hide BitAt, BitSet;
    RowInside(tw / 8, x / 8, y, th);
    at := y * (tw / 8) + x / 8;
    MaskedBit(raster[8 + at], x % 8);
  }

  lemma MaskedBit(b: byte, k: nat)
    requires k < 8
    ensures BitAt(b as bv8, k) <==> BitSet(b, k)
  {
  }

  /** The command before the dots: GS v 0, mode 0, the bytes a row and the rows, low byte first. */
  lemma HeaderReads(raster: Bytes, img: Image, tw: nat, th: nat)
    requires IsRaster(raster, img, tw, th)
    ensures raster[0] == 0x1d && raster[1] == 0x76 && raster[2] == 0x30 && raster[3] == 0
    ensures 8 * (raster[4] as int + 256 * raster[5] as int) == tw && raster[6] as int + 256 * raster[7] as int == th
  {
    hide RasterBit;
    var h := Header(tw / 8, th);
    assert forall i | 0 <= i < 8 :: raster[i] == raster[..8][i] == h[i];
  }

  /**
   * The picture keeps its proportions as far as whole dots allow. It is as wide as
   * the paper and its own width let it be, in multiples of eight, and as high as
   * that makes it; or, where that is above 320 dots, it is 320 high and as wide as
   * that makes it, in multiples of eight. Neither side is left with nothing.
   */
  lemma ProportionsKept(srcW: nat, srcH: nat, maxWidthDots: int, tw: nat, th: nat) returns (w: nat, h: nat, v: nat)
    requires srcW > 0 && srcH > 0 && IsScaled(srcW, srcH, CappedWidth(srcW, maxWidthDots), tw, th)
    ensures var cap := if 0 < maxWidthDots <= 384 then maxWidthDots else 384;
            var widest := if srcW < cap then srcW else cap;
            w % 8 == 0 && if widest < 8 then w == 8 else w <= widest < w + 8
    ensures IsFloor(h, srcH * w, srcW) && IsFloor(v, srcW * 320, srcH)
    ensures if h <= 320 then tw == w && th == (if h == 0 then 1 else h)
            else th == 320 && tw == if v < 8 then 8 else v - v % 8
  {
    hide IsFloor;
    w := CappedWidth(srcW, maxWidthDots);
    Floors(srcH * w, srcW);
    Floors(srcW * LOGO_MAX_HEIGHT, srcH);
    h, v := srcH * w / srcW, srcW * LOGO_MAX_HEIGHT / srcH;
  }
}
