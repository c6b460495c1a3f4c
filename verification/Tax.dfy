/** Sale tax in integer cents, rounded half up line by line. */
module Tax {
  import opened Prelude
  import opened Records

  const TAX_MODE_NONE := "none"
  const TAX_MODE_INCLUSIVE := "inclusive"
  const TAX_MODE_EXCLUSIVE := "exclusive"

  /** One basis point is one ten-thousandth. */
  const BPS := 10000

  function RoundHalfUp(n: int, d: int): int {
    if d == 0 then 0 else GoDiv(n + GoDiv(d, 2), d)
  }

  function Gross(item: SaleItem): int {
    item.priceCents * item.qty
  }

  /** Whether a line is taxed at all under the shop's settings. */
  predicate Taxed(rateBps: int, mode: string, item: SaleItem) {
    rateBps > 0 && item.taxable && (mode == TAX_MODE_EXCLUSIVE || mode == TAX_MODE_INCLUSIVE)
  }

  function LineTax(rateBps: int, mode: string, item: SaleItem): int {
    if !Taxed(rateBps, mode, item) then 0
    else if mode == TAX_MODE_EXCLUSIVE then RoundHalfUp(Gross(item) * rateBps, BPS)
    else RoundHalfUp(Gross(item) * rateBps, BPS + rateBps)
  }

  function TaxedLines(rateBps: int, mode: string, items: seq<SaleItem>): seq<SaleItem> {
    seq(|items|, i requires 0 <= i < |items| => items[i].(taxCents := LineTax(rateBps, mode, items[i])))
  }

  function GrossSum(items: seq<SaleItem>): int {
    if items == [] then 0 else GrossSum(items[..|items| - 1]) + Gross(items[|items| - 1])
  }

  function TaxSum(items: seq<SaleItem>): int {
    if items == [] then 0 else TaxSum(items[..|items| - 1]) + items[|items| - 1].taxCents
  }

  function TotalOf(rateBps: int, mode: string, subtotal: int, tax: int): int {
    if mode == TAX_MODE_EXCLUSIVE && rateBps > 0 then subtotal + tax else subtotal
  }

  lemma SumsOfLongerList(rateBps: int, mode: string, items: seq<SaleItem>, item: SaleItem)
    ensures GrossSum(items + [item]) == GrossSum(items) + Gross(item)
    ensures TaxSum(items + [item]) == TaxSum(items) + item.taxCents
    ensures TaxedLines(rateBps, mode, items + [item])
            == TaxedLines(rateBps, mode, items) + [item.(taxCents := LineTax(rateBps, mode, item))]
  {
    assert (items + [item])[..|items|] == items;
  }

  lemma SumsOfNoLines(rateBps: int, mode: string)
    ensures GrossSum([]) == 0 && TaxSum([]) == 0 && TaxedLines(rateBps, mode, []) == []
  {
  }

  /** Sets every line's tax in place and returns the sale's subtotal, tax and total. */
  method ComputeTax(rateBps: int, mode: string, items: array<SaleItem>) returns (subtotal: int, tax: int, total: int)
    modifies items
    ensures items[..] == TaxedLines(rateBps, mode, old(items[..]))
    ensures subtotal == GrossSum(old(items[..]))
    ensures tax == TaxSum(items[..])
    ensures total == TotalOf(rateBps, mode, subtotal, tax)
  {
    hide RoundHalfUp, GrossSum, TaxSum, TaxedLines;
    ghost var before := items[..];
    subtotal, tax := 0, 0;
    SumsOfNoLines(rateBps, mode);
    for i := 0 to items.Length
      invariant items[..i] == TaxedLines(rateBps, mode, before[..i])
      invariant forall k | i <= k < items.Length :: items[k] == before[k]
      invariant subtotal == GrossSum(before[..i])
      invariant tax == TaxSum(items[..i])
    {
      ghost var done := items[..i];
      var gross := items[i].priceCents * items[i].qty;
      subtotal := subtotal + gross;
      if rateBps <= 0 || mode == TAX_MODE_NONE || mode == "" || !items[i].taxable {
        items[i] := items[i].(taxCents := 0);
      } else {
        if mode == TAX_MODE_EXCLUSIVE {
          items[i] := items[i].(taxCents := RoundHalfUp(gross * rateBps, BPS));
        } else if mode == TAX_MODE_INCLUSIVE {
          items[i] := items[i].(taxCents := RoundHalfUp(gross * rateBps, BPS + rateBps));
        } else {
          items[i] := items[i].(taxCents := 0);
        }
        tax := tax + items[i].taxCents;
      }
      assert items[i] == before[i].(taxCents := LineTax(rateBps, mode, before[i]));
      assert before[..i + 1] == before[..i] + [before[i]];
      assert items[..i + 1] == done + [items[i]];
      SumsOfLongerList(rateBps, mode, before[..i], before[i]);
      SumsOfLongerList(rateBps, mode, done, items[i]);
    }
    assert items[..] == items[..items.Length];
    assert before == before[..items.Length];
    if mode == TAX_MODE_EXCLUSIVE && rateBps > 0 {
      total := subtotal + tax;
    } else {
      total := subtotal;
    }
  }

  // ---- What one line's rounding means ----

  /** The rounded quotient is the integer nearest to n/d, a tie going up. */
  lemma RoundsToNearest(n: int, d: int)
    requires n >= 0 && d > 0
    ensures var q := RoundHalfUp(n, d); q >= 0 && 2 * (q * d) <= 2 * n + d < 2 * (q * d) + 2 * d
  {
    var m := n + d / 2;
    var q := RoundHalfUp(n, d);
    assert q == m / d && m == q * d + m % d && 0 <= m % d < d;
    if d % 2 == 1 {
      assert d == 2 * (d / 2) + 1;
      assert (2 * (q * d) + 2 * d) % 2 == 0;
    }
  }

  /** Being nearest with ties up determines the integer. */
  lemma {:induction false} NearestIsUnique(n: int, d: int, q: int)
    requires n >= 0 && d > 0
    requires 2 * (q * d) <= 2 * n + d < 2 * (q * d) + 2 * d
    ensures q == RoundHalfUp(n, d)
  {
    hide RoundHalfUp;
    var r := RoundHalfUp(n, d);
    RoundsToNearest(n, d);
    if q < r {
      MulMonotone(q + 1, r, d);
    } else if r < q {
      MulMonotone(r + 1, q, d);
    }
  }

  /** A taxable line of one item costing `cents`. */
  function TaxableLine(cents: int): SaleItem {
    SaleItem([], [], cents, 1, true, 0)
  }

  function ExclusiveTax(rateBps: int, net: int): int {
    LineTax(rateBps, TAX_MODE_EXCLUSIVE, TaxableLine(net))
  }

  function InclusiveTax(rateBps: int, gross: int): int {
    LineTax(rateBps, TAX_MODE_INCLUSIVE, TaxableLine(gross))
  }

  /** Adding exclusive tax and extracting it again from the gross is exact. */
  lemma ExtractingAddedTaxIsExact(rateBps: int, net: int)
    requires rateBps > 0 && net >= 0
    ensures InclusiveTax(rateBps, net + ExclusiveTax(rateBps, net)) == ExclusiveTax(rateBps, net)
  {
    var t := ExclusiveTax(rateBps, net);
    var n, d := net * rateBps, BPS + rateBps;
    assert n >= 0;
    RoundsToNearest(n, BPS);
    var m := (net + t) * rateBps;
    assert m == n + t * rateBps;
    assert t * d == t * BPS + t * rateBps;
    assert m >= 0;
    NearestIsUnique(m, d, t);
  }

  // ---- Taking embedded tax out and taxing the net again ----

  /** By how much the re-taxed net of a gross price misses it. */
  function RetaxingMiss(rateBps: int, gross: int): int {
    var net := gross - InclusiveTax(rateBps, gross);
    net + ExclusiveTax(rateBps, net) - gross
  }

  /** What the exact embedded tax leaves over when divided out: the part that rounding settles. */
  function Remainder(rateBps: int, gross: int): int
    requires rateBps > 0
  {
    gross * rateBps % (BPS + rateBps)
  }

  /** The miss, from the remainder alone: it depends on which way the embedded tax was rounded. */
  lemma MissFromRemainder(rateBps: int, gross: int)
    requires rateBps > 0 && gross >= 0
    ensures var rho := Remainder(rateBps, gross);
            && 0 <= rho < BPS + rateBps
            && RetaxingMiss(rateBps, gross)
               == if 2 * rho < BPS + rateBps then (rho + BPS / 2) / BPS else (rho - rateBps + BPS / 2) / BPS - 1
  {
    hide RoundHalfUp, ExclusiveTax, InclusiveTax;
    var d := BPS + rateBps;
    var n := gross * rateBps;
    assert n >= 0;
    var k, rho := n / d, n % d;
    assert n == k * d + rho;
    InclusiveTaxIs(rateBps, gross, k, rho);
    var t := InclusiveTax(rateBps, gross);
    InclusiveTaxWithinGross(rateBps, gross);
    var over := if t == k then rho else rho - rateBps;
    assert (gross - t) * rateBps == k * BPS + over by {
      assert (gross - t) * rateBps == n - t * rateBps;
      assert k * d == k * BPS + k * rateBps;
      assert (k + 1) * rateBps == k * rateBps + rateBps;
    }
    ExclusiveTaxIs(rateBps, gross - t, k, over);
  }

  lemma InclusiveTaxIs(rateBps: int, gross: int, k: int, rho: int)
    requires rateBps > 0 && gross >= 0 && 0 <= rho < BPS + rateBps && gross * rateBps == k * (BPS + rateBps) + rho
    ensures InclusiveTax(rateBps, gross) == if 2 * rho < BPS + rateBps then k else k + 1
  {
    hide RoundHalfUp;
    var n, d := gross * rateBps, BPS + rateBps;
    assert n >= 0;
    assert (k + 1) * d == k * d + d;
    NearestIsUnique(n, d, if 2 * rho < d then k else k + 1);
  }

  lemma ExclusiveTaxIs(rateBps: int, net: int, k: int, over: int)
    requires rateBps > 0 && net >= 0 && net * rateBps == k * BPS + over
    ensures ExclusiveTax(rateBps, net) == k + (over + BPS / 2) / BPS
  {
    hide RoundHalfUp;
    assert net * rateBps >= 0;
    NearestIsUnique(net * rateBps, BPS, k + (over + BPS / 2) / BPS);
  }

  /**
   * Re-taxing the net of a gross price misses it by at most one cent exactly when
   * the remainder is below a cent and a half's worth, or within half a cent's
   * worth of the rate or past it.
   */
  lemma RetaxingIsWithinOneCentIff(rateBps: int, gross: int)
    requires rateBps > 0 && gross >= 0
    ensures -1 <= RetaxingMiss(rateBps, gross) <= 1
            <==> Remainder(rateBps, gross) < 15000 || Remainder(rateBps, gross) >= rateBps - 5000
  {
    MissFromRemainder(rateBps, gross);
  }

  /** Up to 200% no remainder falls between the two. */
  lemma RetaxingNetIsWithinOneCent(rateBps: int, gross: int)
    requires 0 < rateBps <= 2 * BPS && gross >= 0
    ensures gross - InclusiveTax(rateBps, gross) >= 0 && -1 <= RetaxingMiss(rateBps, gross) <= 1
  {
    InclusiveTaxWithinGross(rateBps, gross);
    RetaxingIsWithinOneCentIff(rateBps, gross);
  }

  /** A gross price that a rate above 200% misses. */
  function MissedGross(rateBps: int): int
    requires rateBps > 2 * BPS
  {
    3 * (4999 / (rateBps - 2 * BPS)) + 2
  }

  /** Above 200% some gross price is missed by more than a cent. */
  lemma RetaxingMissesAbove200Percent(rateBps: int)
    requires rateBps > 2 * BPS
    ensures MissedGross(rateBps) >= 0 && !(-1 <= RetaxingMiss(rateBps, MissedGross(rateBps)) <= 1)
  {
    var d, over := BPS + rateBps, rateBps - 2 * BPS;
    var j := 4999 / over;
    var gross := MissedGross(rateBps);
    assert 0 <= j;
    assert 4999 == j * over + 4999 % over && 0 <= 4999 % over < over;
    var rho := rateBps - BPS + j * over;
    assert gross * rateBps == (gross - j - 1) * d + rho by {
      assert j * d == j * over + 30000 * j;
      assert gross * rateBps == gross * d - gross * BPS;
      assert (gross - j - 1) * d == gross * d - j * d - d;
    }
    RemainderIs(gross * rateBps, gross - j - 1, d, rho);
    RetaxingIsWithinOneCentIff(rateBps, gross);
  }

  lemma RemainderIs(n: int, q: int, d: int, r: int)
    requires d > 0 && 0 <= r < d && n == q * d + r
    ensures n % d == r
  {
    var k := n / d;
    assert n == k * d + n % d;
    if k < q {
      MulMonotone(k + 1, q, d);
    } else if k > q {
      MulMonotone(q + 1, k, d);
    }
  }

  /** So one cent bounds the miss of every gross price exactly for rates up to 200%. */
  lemma OneCentBoundIffUpTo200Percent(rateBps: int)
    requires rateBps > 0
    ensures (forall gross: nat :: -1 <= RetaxingMiss(rateBps, gross) <= 1) <==> rateBps <= 2 * BPS
  {
    if rateBps <= 2 * BPS {
      forall gross: nat ensures -1 <= RetaxingMiss(rateBps, gross) <= 1 {
        RetaxingNetIsWithinOneCent(rateBps, gross);
      }
    } else {
      RetaxingMissesAbove200Percent(rateBps);
      var gross: nat := MissedGross(rateBps);
    }
  }

  lemma InclusiveTaxWithinGross(rateBps: int, gross: int)
    requires rateBps > 0 && gross >= 0
    ensures 0 <= InclusiveTax(rateBps, gross) <= gross
  {
    var d := BPS + rateBps;
    var t := InclusiveTax(rateBps, gross);
    assert gross * rateBps >= 0;
    RoundsToNearest(gross * rateBps, d);
    assert gross * d == gross * BPS + gross * rateBps;
    if t > gross {
      MulMonotone(gross + 1, t, d);
    }
  }

  // ---- What a whole sale's tax means ----

  predicate NonNegative(items: seq<SaleItem>) {
    forall item <- items :: item.priceCents >= 0 && item.qty >= 0
  }

  function TaxableCount(items: seq<SaleItem>): nat {
    if items == [] then 0
    else TaxableCount(items[..|items| - 1]) + if items[|items| - 1].taxable then 1 else 0
  }

  function TaxableGross(items: seq<SaleItem>): int {
    if items == [] then 0
    else TaxableGross(items[..|items| - 1]) + if items[|items| - 1].taxable then Gross(items[|items| - 1]) else 0
  }

  lemma TaxedLinesPrefix(rateBps: int, mode: string, items: seq<SaleItem>)
    requires items != []
    ensures TaxedLines(rateBps, mode, items)[..|items| - 1] == TaxedLines(rateBps, mode, items[..|items| - 1])
  {
  }

  lemma LineDrift(rateBps: int, gross: int)
    requires rateBps > 0 && gross >= 0
    ensures -BPS <= 2 * (ExclusiveTax(rateBps, gross) * BPS - gross * rateBps) <= BPS
  {
    assert gross * rateBps >= 0;
    RoundsToNearest(gross * rateBps, BPS);
  }

  lemma DriftAdds(rateBps: int, tax: int, base: int, count: int, lineTax: int, gross: int)
    requires -BPS * count <= 2 * (tax * BPS - base * rateBps) <= BPS * count
    requires -BPS <= 2 * (lineTax * BPS - gross * rateBps) <= BPS
    ensures -BPS * (count + 1) <= 2 * ((tax + lineTax) * BPS - (base + gross) * rateBps) <= BPS * (count + 1)
  {
    assert (base + gross) * rateBps == base * rateBps + gross * rateBps;
  }

  /** Exclusive tax drifts from the exact rate by at most half a cent per taxable line. */
  lemma {:induction false} ExclusiveDrift(rateBps: int, items: seq<SaleItem>)
    requires rateBps > 0 && NonNegative(items)
    ensures var drift := TaxSum(TaxedLines(rateBps, TAX_MODE_EXCLUSIVE, items)) * BPS - TaxableGross(items) * rateBps;
            -BPS * TaxableCount(items) <= 2 * drift <= BPS * TaxableCount(items)
  {
    if items != [] {
      var n := |items| - 1;
      var last := items[n];
      ExclusiveDrift(rateBps, items[..n]);
      SumsOfLongerList(rateBps, TAX_MODE_EXCLUSIVE, items[..n], last);
      assert items == items[..n] + [last];
      var taxed := last.(taxCents := LineTax(rateBps, TAX_MODE_EXCLUSIVE, last));
      SumsOfLongerList(rateBps, TAX_MODE_EXCLUSIVE, TaxedLines(rateBps, TAX_MODE_EXCLUSIVE, items[..n]), taxed);
      assert last in items;
      assert Gross(last) >= 0;
      assert taxed.taxCents == if last.taxable then ExclusiveTax(rateBps, Gross(last)) else 0;
      hide LineTax, ExclusiveTax, Gross;
      if last.taxable {
        LineDrift(rateBps, Gross(last));
        DriftAdds(rateBps, TaxSum(TaxedLines(rateBps, TAX_MODE_EXCLUSIVE, items[..n])), TaxableGross(items[..n]),
                  TaxableCount(items[..n]), taxed.taxCents, Gross(last));
      }
    }
  }

  /** Embedded tax never exceeds the price it is embedded in, line by line and in total. */
  lemma {:induction false} InclusiveWithinGross(rateBps: int, items: seq<SaleItem>)
    requires rateBps > 0 && NonNegative(items)
    ensures 0 <= TaxSum(TaxedLines(rateBps, TAX_MODE_INCLUSIVE, items)) <= TaxableGross(items) <= GrossSum(items)
  {
    if items != [] {
      var n := |items| - 1;
      InclusiveWithinGross(rateBps, items[..n]);
      TaxedLinesPrefix(rateBps, TAX_MODE_INCLUSIVE, items);
      assert items[n] in items;
      assert Gross(items[n]) >= 0;
      InclusiveTaxWithinGross(rateBps, Gross(items[n]));
    }
  }

  /**
   * Tax is never negative, and zero unless some mode applies; the total is the
   * subtotal plus exactly the tax added on top, so never below it.
   */
  lemma {:induction false} TaxIsNonNegative(rateBps: int, mode: string, items: seq<SaleItem>)
    requires NonNegative(items)
    ensures TaxSum(TaxedLines(rateBps, mode, items)) >= 0
    ensures !(rateBps > 0 && (mode == TAX_MODE_EXCLUSIVE || mode == TAX_MODE_INCLUSIVE))
            ==> TaxSum(TaxedLines(rateBps, mode, items)) == 0
    ensures var subtotal, tax := GrossSum(items), TaxSum(TaxedLines(rateBps, mode, items));
            var total := TotalOf(rateBps, mode, subtotal, tax);
            && 0 <= subtotal <= total
            && total - subtotal == if mode == TAX_MODE_INCLUSIVE then 0 else tax
  {
    if items != [] {
      var n := |items| - 1;
      TaxIsNonNegative(rateBps, mode, items[..n]);
      TaxedLinesPrefix(rateBps, mode, items);
      assert items[n] in items;
      assert Gross(items[n]) >= 0;
      LineTaxIsNonNegative(rateBps, mode, items[n]);
    }
  }

  lemma LineTaxIsNonNegative(rateBps: int, mode: string, item: SaleItem)
    requires Gross(item) >= 0
    ensures LineTax(rateBps, mode, item) >= 0
  {
    if Taxed(rateBps, mode, item) {
      var g := Gross(item);
      assert g * rateBps >= 0;
      RoundsToNearest(g * rateBps, BPS);
      RoundsToNearest(g * rateBps, BPS + rateBps);
    }
  }
}
