/** What a sale charges, told from the products as stored and the lines as requested. */
module SaleCharges {
  import opened Prelude
  import opened Records
  import opened StoreModel
  import opened StoreInvariants
  import opened Stock
  import Tax

  function Sum(xs: seq<int>): int {
    if xs == [] then 0 else Sum(xs[..|xs| - 1]) + xs[|xs| - 1]
  }

  /** The integer nearest to n/d, a tie going up. */
  predicate IsNearest(q: int, n: int, d: int) {
    2 * (q * d) <= 2 * n + d < 2 * (q * d) + 2 * d
  }

  ghost predicate LinesOk(products: map<Id, Product>, lines: seq<SaleLine>) {
    forall line <- lines :: line.qty > 0 && line.productId in products
  }

  /** The price of each line: the stored product's, times the quantity asked for. */
  function LineCents(products: map<Id, Product>, lines: seq<SaleLine>): (cents: seq<int>)
    requires forall line <- lines :: line.productId in products
    ensures |cents| == |lines|
    ensures forall i | 0 <= i < |lines| :: cents[i] == products[lines[i].productId].priceCents * lines[i].qty
  {
    seq(|lines|, i requires 0 <= i < |lines| => products[lines[i].productId].priceCents * lines[i].qty)
  }

  lemma {:induction false} GrossSumIs(items: seq<SaleItem>, cents: seq<int>)
    requires |items| == |cents| && forall i | 0 <= i < |items| :: items[i].priceCents * items[i].qty == cents[i]
    ensures Tax.GrossSum(items) == Sum(cents)
  {
    if items != [] {
      GrossSumIs(items[..|items| - 1], cents[..|cents| - 1]);
    }
  }

  lemma {:induction false} TaxSumIs(items: seq<SaleItem>, cents: seq<int>)
    requires |items| == |cents| && forall i | 0 <= i < |items| :: items[i].taxCents == cents[i]
    ensures Tax.TaxSum(items) == Sum(cents)
  {
    if items != [] {
      TaxSumIs(items[..|items| - 1], cents[..|cents| - 1]);
    }
  }

  /** The tax of a line that comes to `cents`, at a rate and in a mode: nearest to its share, and nothing unless it is due. */
  predicate IsTaxOf(tax: int, cents: int, taxable: bool, rateBps: int, mode: string) {
    if !taxable || rateBps <= 0 then tax == 0
    else if mode == "exclusive" then IsNearest(tax, cents * rateBps, 10000)
    else if mode == "inclusive" then IsNearest(tax, cents * rateBps, 10000 + rateBps)
    else tax == 0
  }

  lemma LineTaxIs(rateBps: int, mode: string, item: SaleItem)
    requires item.priceCents * item.qty >= 0
    ensures IsTaxOf(Tax.LineTax(rateBps, mode, item), item.priceCents * item.qty, item.taxable, rateBps, mode)
  {
    hide Tax.RoundHalfUp;
    var cents := item.priceCents * item.qty;
    if item.taxable && rateBps > 0 {
      assert cents * rateBps >= 0;
      Tax.RoundsToNearest(cents * rateBps, 10000);
      Tax.RoundsToNearest(cents * rateBps, 10000 + rateBps);
    }
  }

  /** Line i of a sale: the stored product's name, price and taxability, the quantity asked for, and the tax of just that. */
  ghost predicate IsLineOf(item: SaleItem, p: Product, qty: int, rateBps: int, mode: string) {
    && item.productId == p.id && item.name == p.name && item.priceCents == p.priceCents && item.taxable == p.taxable
    && item.qty == qty
    && (p.priceCents * qty >= 0 ==> IsTaxOf(item.taxCents, p.priceCents * qty, p.taxable, rateBps, mode))
  }

  /**
   * What an accepted sale records is told from the stored products and the request
   * alone: each line at the product's price times the quantity asked for and with
   * the tax on that, and the sums of them.
   */
  lemma SaleChargesWhatWasAsked(st: StoreState, input: SaleInput, saleId: Id, now: Time)
    requires BuildSale(st, input, saleId, now).Ok?
    ensures input.lines != [] && LinesOk(st.products, input.lines)
    ensures var sale := BuildSale(st, input, saleId, now).value;
            && sale.id == saleId && sale.createdAt == now && sale.reference == input.reference
            && sale.paymentMethod == (if input.paymentMethod == "" then "cash" else input.paymentMethod)
            && sale.taxRateBps == TaxRate(st.settings) && sale.taxMode == TaxMode(st.settings)
            && |sale.items| == |input.lines|
            && forall i | 0 <= i < |input.lines| ::
                 IsLineOf(sale.items[i], st.products[input.lines[i].productId], input.lines[i].qty, sale.taxRateBps, sale.taxMode)
    ensures var sale := BuildSale(st, input, saleId, now).value;
            && sale.subtotalCents == Sum(LineCents(st.products, input.lines))
            && sale.taxCents == Sum(seq(|sale.items|, i requires 0 <= i < |sale.items| => sale.items[i].taxCents))
            && sale.totalCents == sale.subtotalCents + (if sale.taxMode == "exclusive" && sale.taxRateBps > 0 then sale.taxCents else 0)
            && sale.paidCents == input.paidCents && sale.changeCents == input.paidCents - sale.totalCents >= 0
  {
    hide TaxRate, TaxMode, Tax.LineTax, Tax.GrossSum, Tax.TaxSum, Sum;
    var sale := BuildSale(st, input, saleId, now).value;
    var items := SaleItems(st.products, input.lines).value;
    var rate, mode := TaxRate(st.settings), TaxMode(st.settings);
    LinesAcceptedIff(st.products, input.lines);
    SnapshotsAreOfRequestedLines(st.products, input.lines);
    assert sale.items == Tax.TaxedLines(rate, mode, items);
    forall i | 0 <= i < |input.lines|
      ensures IsLineOf(sale.items[i], st.products[input.lines[i].productId], input.lines[i].qty, rate, mode)
    {
      if items[i].priceCents * items[i].qty >= 0 { LineTaxIs(rate, mode, items[i]); }
    }
    assert forall line <- input.lines :: line.productId in st.products;
    GrossSumIs(items, LineCents(st.products, input.lines));
    TaxSumIs(sale.items, seq(|sale.items|, i requires 0 <= i < |sale.items| => sale.items[i].taxCents));
  }

  /** How much of a product each line asks for. */
  function AskedFor(lines: seq<SaleLine>, productId: Id): (asked: seq<int>)
    ensures |asked| == |lines|
    ensures forall i | 0 <= i < |lines| :: asked[i] == if lines[i].productId == productId then lines[i].qty else 0
  {
    seq(|lines|, i requires 0 <= i < |lines| => if lines[i].productId == productId then lines[i].qty else 0)
  }

  lemma {:induction false} QtyRequestedIs(lines: seq<SaleLine>, productId: Id)
    ensures QtyRequested(lines, productId) == Sum(AskedFor(lines, productId))
  {
    if lines != [] {
      QtyRequestedIs(lines[..|lines| - 1], productId);
      assert AskedFor(lines, productId)[..|lines| - 1] == AskedFor(lines[..|lines| - 1], productId);
    }
  }

  /** A sale takes off every product's on-hand what its lines ask of that product. */
  lemma SaleTakesWhatWasAsked(st: StoreState, input: SaleInput, saleId: Id, now: Time, productId: Id)
    requires Inv(st) && saleId !in st.sales && BuildSale(st, input, saleId, now).Ok?
    ensures OnHand(Run(st, CreateSale(input, saleId, now)), productId)
         == OnHand(st, productId) - Sum(AskedFor(input.lines, productId))
  {
    hide OnHand, Inv, BuildSale;
    SaleMovesStockAndBalances(st, input, saleId, now, productId);
    QtyRequestedIs(input.lines, productId);
  }

  /** What accepted lines come to under the shop's tax settings. */
  function Charge(st: StoreState, lines: seq<SaleLine>): int {
    match SaleItems(st.products, lines)
    case Err(_) => 0
    case Ok(items) =>
      var rate, mode := TaxRate(st.settings), TaxMode(st.settings);
      Tax.TotalOf(rate, mode, Tax.GrossSum(items), Tax.TaxSum(Tax.TaxedLines(rate, mode, items)))
  }

  /**
   * A sale is accepted exactly when it has lines, every line asks for a positive
   * quantity of a stored product, and the payment covers a total that depends on
   * the lines alone and is the one recorded.
   */
  lemma SaleAcceptedIff(st: StoreState, input: SaleInput, saleId: Id, now: Time) returns (total: int)
    ensures forall paid ::
              var r := BuildSale(st, input.(paidCents := paid), saleId, now);
              && (r.Ok? <==> input.lines != [] && LinesOk(st.products, input.lines) && total <= paid)
              && (r.Ok? ==> r.value.totalCents == total)
              && (r == Err(EmptySale) <==> input.lines == [])
              && (r == Err(Underpaid) <==> input.lines != [] && LinesOk(st.products, input.lines) && paid < total)
  {
    hide TaxRate, TaxMode, Tax.LineTax, Tax.GrossSum, Tax.TaxSum, Tax.TaxedLines, Tax.TotalOf;
    LinesAcceptedIff(st.products, input.lines);
    if LinesOk(st.products, input.lines) {
      SnapshotsAreOfRequestedLines(st.products, input.lines);
    } else {
      LinesAcceptedIff(st.products, input.lines);
      var _ := LineErrors(st.products, input.lines);
    }
    total := Charge(st, input.lines);
    forall paid ensures
      var r := BuildSale(st, input.(paidCents := paid), saleId, now);
      && (r.Ok? <==> input.lines != [] && LinesOk(st.products, input.lines) && total <= paid)
      && (r.Ok? ==> r.value.totalCents == total)
      && (r == Err(EmptySale) <==> input.lines == [])
      && (r == Err(Underpaid) <==> input.lines != [] && LinesOk(st.products, input.lines) && paid < total)
    {
    }
  }

  /** The first bad line decides the error: a quantity that is not positive, or else an unknown product. */
  lemma {:induction false} LineErrors(products: map<Id, Product>, lines: seq<SaleLine>) returns (i: nat)
    requires SaleItems(products, lines).Err?
    ensures i < |lines| && LinesOk(products, lines[..i])
    ensures SaleItems(products, lines).error == if lines[i].qty <= 0 then InvalidQuantity else UnknownProduct
    ensures lines[i].qty <= 0 || lines[i].productId !in products
  {
    var n := |lines| - 1;
    if SaleItems(products, lines[..n]).Err? {
      i := LineErrors(products, lines[..n]);
      assert lines[..n][..i] == lines[..i];
    } else {
      i := n;
      LinesAcceptedIff(products, lines[..n]);
    }
  }
}
