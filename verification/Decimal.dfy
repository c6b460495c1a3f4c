/** Decimal numerals: printing a number, padding it, grouping it by thousands, and reading it back. */
module Decimal {
  import opened Prelude
  import opened Texts

  const COMMA: byte := 0x2c

  predicate IsDigit(b: byte) {
    0x30 <= b <= 0x39
  }

  function DigitOf(d: nat): (b: byte)
    requires d < 10
    ensures IsDigit(b)
  {
    (0x30 + d) as byte
  }

  /** The number `n` as fmt prints it with %d. */
  function Digits(n: nat): (ds: Bytes)
    ensures |ds| > 0 && forall i | 0 <= i < |ds| :: IsDigit(ds[i])
  {
    if n < 10 then [DigitOf(n)] else Digits(n / 10) + [DigitOf(n % 10)]
  }

  /** The number a text spells, reading its digits and passing over everything else. */
  function Value(ds: Bytes): nat {
    if ds == [] then 0
    else
      var before, last := Value(ds[..|ds| - 1]), ds[|ds| - 1];
      if IsDigit(last) then 10 * before + (last - 0x30) as int else before
  }

  function Pow10(k: nat): (p: nat)
    ensures p > 0
  {
    if k == 0 then 1 else 10 * Pow10(k - 1)
  }

  lemma ValueOfSnoc(ds: Bytes, b: byte)
    ensures Value(ds + [b]) == if IsDigit(b) then 10 * Value(ds) + (b - 0x30) as int else Value(ds)
  {
    assert (ds + [b])[..|ds + [b]| - 1] == ds;
  }

  lemma {:induction false} DigitsRead(n: nat)
    ensures Value(Digits(n)) == n
  {
    if n < 10 {
      ValueOfSnoc([], DigitOf(n));
      assert [] + [DigitOf(n)] == [DigitOf(n)];
    } else {
      DigitsRead(n / 10);
      ValueOfSnoc(Digits(n / 10), DigitOf(n % 10));
    }
  }

  /** A number has at most k digits exactly when it is below ten to the k. */
  lemma {:induction false} DigitCount(n: nat, k: nat)
    requires k > 0
    ensures |Digits(n)| <= k <==> n < Pow10(k)
  {
    if k == 1 {
      assert Pow10(1) == 10 * Pow10(0);
    } else if n >= 10 {
      DigitCount(n / 10, k - 1);
      assert Pow10(k) == 10 * Pow10(k - 1);
    } else {
      assert Pow10(k) == 10 * Pow10(k - 1) && Pow10(k - 1) == 10 * Pow10(k - 2);
    }
  }

  // ---- Zero padding ----

  function Zeros(k: nat): (z: Bytes)
    ensures |z| == k && forall i | 0 <= i < k :: IsDigit(z[i])
  {
    seq(k, _ => 0x30)
  }

  /** The number `n` as fmt prints it with %0wd. */
  function Padded(n: nat, w: nat): (ds: Bytes)
    ensures |ds| >= w && forall i | 0 <= i < |ds| :: IsDigit(ds[i])
  {
    var ds := Digits(n);
    if |ds| < w then Zeros(w - |ds|) + ds else ds
  }

  lemma {:induction false} LeadingZeros(k: nat, ds: Bytes)
    ensures Value(Zeros(k) + ds) == Value(ds)
  {
    if ds != [] {
      LeadingZeros(k, ds[..|ds| - 1]);
      assert Zeros(k) + ds == (Zeros(k) + ds[..|ds| - 1]) + [ds[|ds| - 1]];
      ValueOfSnoc(Zeros(k) + ds[..|ds| - 1], ds[|ds| - 1]);
    } else if k > 0 {
      LeadingZeros(k - 1, []);
      assert Zeros(k) + [] == (Zeros(k - 1) + []) + [0x30];
      ValueOfSnoc(Zeros(k - 1) + [], 0x30);
    } else {
      assert Zeros(0) + ds == ds;
    }
  }

  /** A padded number reads back, and fills its field exactly when it is below ten to the width. */
  lemma PaddedReads(n: nat, w: nat)
    requires w > 0
    ensures Value(Padded(n, w)) == n
    ensures |Padded(n, w)| == w <==> n < Pow10(w)
  {
    DigitsRead(n);
    DigitCount(n, w);
    if |Digits(n)| < w {
      LeadingZeros(w - |Digits(n)|, Digits(n));
    }
  }

  // ---- Grouping by thousands ----

  function Grouped(ds: Bytes): Bytes {
    if |ds| <= 3 then ds else Grouped(ds[..|ds| - 3]) + [COMMA] + ds[|ds| - 3..]
  }

  /** Commas stand at every fourth place from the right, and nowhere else. */
  lemma {:induction false} CommasEveryThird(ds: Bytes)
    requires ds != [] && forall i | 0 <= i < |ds| :: IsDigit(ds[i])
    ensures Grouped(ds) != []
    ensures forall k | 0 <= k < |Grouped(ds)| ::
              var b := Grouped(ds)[|Grouped(ds)| - 1 - k];
              if k % 4 == 3 then b == COMMA else IsDigit(b)
    ensures IsDigit(Grouped(ds)[0])
  {
    if |ds| > 3 {
      var front := ds[..|ds| - 3];
      CommasEveryThird(front);
      forall k | 0 <= k < |Grouped(ds)|
        ensures var b := Grouped(ds)[|Grouped(ds)| - 1 - k]; if k % 4 == 3 then b == COMMA else IsDigit(b)
      {
        if k >= 4 {
          assert Grouped(ds)[|Grouped(ds)| - 1 - k] == Grouped(front)[|Grouped(front)| - 1 - (k - 4)];
          assert k % 4 == (k - 4) % 4;
        } else if k < 3 {
          assert Grouped(ds)[|Grouped(ds)| - 1 - k] == ds[|ds| - 1 - k];
        }
      }
    }
  }

  lemma {:induction false} GroupedBytes(ds: Bytes)
    requires forall i | 0 <= i < |ds| :: IsDigit(ds[i])
    ensures forall i | 0 <= i < |Grouped(ds)| :: Grouped(ds)[i] == COMMA || IsDigit(Grouped(ds)[i])
  {
    if |ds| > 3 {
      GroupedBytes(ds[..|ds| - 3]);
    }
  }

  lemma {:induction false} GroupedReads(ds: Bytes)
    ensures Value(Grouped(ds)) == Value(ds)
  {
    if |ds| > 3 {
      var n := |ds|;
      var g := Grouped(ds[..n - 3]) + [COMMA];
      GroupedReads(ds[..n - 3]);
      ValueOfSnoc(Grouped(ds[..n - 3]), COMMA);
      SameTail(g, ds[..n - 3], ds[n - 3..]);
      assert ds[..n - 3] + ds[n - 3..] == ds;
    }
  }

  lemma {:induction false} SameTail(a: Bytes, b: Bytes, tail: Bytes)
    requires Value(a) == Value(b)
    ensures Value(a + tail) == Value(b + tail)
  {
    if tail == [] {
      assert a + tail == a && b + tail == b;
    } else {
      var front, last := tail[..|tail| - 1], tail[|tail| - 1];
      SameTail(a, b, front);
      ValueOfSnoc(a + front, last);
      ValueOfSnoc(b + front, last);
      assert a + tail == (a + front) + [last] && b + tail == (b + front) + [last];
    }
  }

  /** Inserts the commas, taking three digits at a time from the right. */
  method GroupThousands(n: nat) returns (r: Bytes)
    ensures r == Grouped(Digits(n))
    ensures Value(r) == n
    ensures forall k | 0 <= k < |r| :: if k % 4 == 3 then r[|r| - 1 - k] == COMMA else IsDigit(r[|r| - 1 - k])
  {
    hide Value, Digits, IsDigit, Grouped, Join;
    GroupedNumber(n);
    var s := Digits(n);
    if |s| <= 3 {
      ShortGroup(s);
      return s;
    }
    var parts: seq<Bytes> := [];
    while |s| > 3
      invariant s != []
      invariant Grouped(Digits(n)) == if parts == [] then Grouped(s) else Grouped(s) + [COMMA] + Join(parts, COMMA)
    {
      TakeGroup(s, parts);
      parts := [s[|s| - 3..]] + parts;
      s := s[..|s| - 3];
    }
    ShortGroup(s);
    JoinGrows(s, parts, COMMA);
    parts := [s] + parts;
    r := Join(parts, COMMA);
  }

  lemma GroupedNumber(n: nat)
    ensures Value(Grouped(Digits(n))) == n
    ensures var r := Grouped(Digits(n));
            forall k | 0 <= k < |r| :: if k % 4 == 3 then r[|r| - 1 - k] == COMMA else IsDigit(r[|r| - 1 - k])
  {
    CommasEveryThird(Digits(n));
    GroupedReads(Digits(n));
    DigitsRead(n);
  }

  lemma ShortGroup(s: Bytes)
    requires |s| <= 3
    ensures Grouped(s) == s
  {
  }

  /** Moving the last three digits over to the parts leaves the whole as it was. */
  lemma TakeGroup(s: Bytes, parts: seq<Bytes>)
    requires |s| > 3
    ensures var front, last := s[..|s| - 3], s[|s| - 3..];
            Grouped(front) + [COMMA] + Join([last] + parts, COMMA)
              == if parts == [] then Grouped(s) else Grouped(s) + [COMMA] + Join(parts, COMMA)
  {
    JoinGrows(s[|s| - 3..], parts, COMMA);
  }
}
