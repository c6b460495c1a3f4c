/** On-hand stock derived from logs: how it merges, and what each write does to it. */
module Stock {
  import opened Prelude
  import opened Records
  import opened Sums
  import opened StoreModel
  import opened StoreInvariants
  import Tax

  /** Two tills' logs never disagree on a row both hold. */
  ghost predicate LogsAgree(a: StoreState, b: StoreState) {
    Agree(a.stockEvents, b.stockEvents) && Agree(a.sales, b.sales)
  }

  ghost function MergedLogs(a: StoreState, b: StoreState): StoreState {
    EMPTY.(stockEvents := a.stockEvents + b.stockEvents, sales := a.sales + b.sales)
  }

  ghost function SharedLogs(a: StoreState, b: StoreState): StoreState {
    EMPTY.(stockEvents := Common(a.stockEvents, b.stockEvents), sales := Common(a.sales, b.sales))
  }

  /** Reconciling two tills adds their stock up and counts what they share once. */
  lemma MergedOnHand(a: StoreState, b: StoreState, productId: Id)
    requires LogsAgree(a, b)
    ensures OnHand(MergedLogs(a, b), productId) + OnHand(SharedLogs(a, b), productId)
            == OnHand(a, productId) + OnHand(b, productId)
  {
    SumOfMerge(a.stockEvents, b.stockEvents, DeltaFor(productId));
    SumOfMerge(a.sales, b.sales, SoldFor(productId));
  }

  function QtyRequested(lines: seq<SaleLine>, productId: Id): int {
    if lines == [] then 0
    else
      var last := lines[|lines| - 1];
      QtyRequested(lines[..|lines| - 1], productId) + if last.productId == productId then last.qty else 0
  }

  /** The requested lines are accepted exactly when each asks for a positive quantity of a stored product. */
  lemma {:induction false} LinesAcceptedIff(products: map<Id, Product>, lines: seq<SaleLine>)
    ensures SaleItems(products, lines).Ok? <==> forall line <- lines :: line.qty > 0 && line.productId in products
  {
    if lines != [] {
      var front, last := lines[..|lines| - 1], lines[|lines| - 1];
      LinesAcceptedIff(products, front);
      LastLineDecides(products, lines);
      hide SaleItems;
      assert lines == front + [last];
    }
  }

  lemma LastLineDecides(products: map<Id, Product>, lines: seq<SaleLine>)
    requires lines != []
    ensures var last := lines[|lines| - 1];
            SaleItems(products, lines).Ok?
            <==> SaleItems(products, lines[..|lines| - 1]).Ok? && last.qty > 0 && last.productId in products
  {
  }

  /** The snapshot lines are the requested ones, at the prices and names of the moment. */
  lemma {:induction false} SnapshotsAreOfRequestedLines(products: map<Id, Product>, lines: seq<SaleLine>)
    requires SaleItems(products, lines).Ok?
    ensures |SaleItems(products, lines).value| == |lines|
    ensures forall i | 0 <= i < |lines| ::
              && lines[i].qty > 0 && lines[i].productId in products
              && SaleItems(products, lines).value[i] == Snapshot(products[lines[i].productId], lines[i].qty)
  {
    if lines != [] {
      SnapshotsAreOfRequestedLines(products, lines[..|lines| - 1]);
    }
  }

  lemma {:induction false} SnapshotSellsWhatWasAsked(products: map<Id, Product>, lines: seq<SaleLine>, productId: Id)
    requires KeyedProducts(products) && SaleItems(products, lines).Ok?
    ensures QtySold(SaleItems(products, lines).value, productId) == QtyRequested(lines, productId)
  {
    if lines != [] {
      var init := lines[..|lines| - 1];
      SnapshotSellsWhatWasAsked(products, init, productId);
      var items := SaleItems(products, lines).value;
      assert items[..|items| - 1] == SaleItems(products, init).value;
    }
  }

  lemma {:induction false} TaxingKeepsQuantities(rate: int, mode: string, items: seq<SaleItem>, productId: Id)
    ensures QtySold(Tax.TaxedLines(rate, mode, items), productId) == QtySold(items, productId)
  {
    if items != [] {
      TaxingKeepsQuantities(rate, mode, items[..|items| - 1], productId);
      Tax.TaxedLinesPrefix(rate, mode, items);
    }
  }

  /** A sale takes exactly the requested quantity off every product's on-hand, and balances its money. */
  lemma SaleMovesStockAndBalances(st: StoreState, input: SaleInput, saleId: Id, now: Time, productId: Id)
    requires Inv(st) && saleId !in st.sales && BuildSale(st, input, saleId, now).Ok?
    ensures var sale := BuildSale(st, input, saleId, now).value;
            && OnHand(AfterSale(st, sale), productId) == OnHand(st, productId) - QtyRequested(input.lines, productId)
            && sale.paidCents == sale.totalCents + sale.changeCents && sale.changeCents >= 0
            && sale.taxCents == Tax.TaxSum(sale.items)
            && sale.totalCents == sale.subtotalCents
               + (if sale.taxMode == Tax.TAX_MODE_EXCLUSIVE && sale.taxRateBps > 0 then sale.taxCents else 0)
  {
    var sale := BuildSale(st, input, saleId, now).value;
    var items := SaleItems(st.products, input.lines).value;
    SnapshotSellsWhatWasAsked(st.products, input.lines, productId);
    TaxingKeepsQuantities(sale.taxRateBps, sale.taxMode, items, productId);
    SumInsert(st.sales, SoldFor(productId), saleId, sale);
  }
}
