/**
 * The till's store: bucket fields updated in place, one method call per bbolt
 * transaction. A transaction that returns an error leaves every bucket alone.
 */
module BoltStore {
  import opened Prelude
  import opened Records
  import opened Sums
  import opened StoreModel
  import opened StoreInvariants
  import opened ByteOrder
  import opened SaleLists
  import opened Sorting
  import opened RefIndex
  import Tax

  /** A catalogue entry shows its on-hand floored at zero, or nothing when untracked. */
  ghost function Displayed(p: Product, st: StoreState): Product {
    p.(stock := if !p.trackStock || OnHand(st, p.id) < 0 then 0 else OnHand(st, p.id))
  }

  predicate ByName(a: Product, b: Product) {
    AtMost(a.name, b.name)
  }

  lemma ByNameIsPreorder()
    ensures TotalPreorder(ByName)
  {
    forall a, b ensures ByName(a, b) || ByName(b, a) { BelowIsTotal(a.name, b.name); }
    forall a, b, c | ByName(a, b) && ByName(b, c) ensures ByName(a, c) {
      if a.name != b.name && b.name != c.name { BelowIsTransitive(a.name, b.name, c.name); }
    }
  }

  function Get(counts: map<Id, int>, id: Id): int {
    if id in counts then counts[id] else 0
  }

  /** Precomputed totals, as one pass over the logs leaves them. */
  function DerivedStock(p: Product, delta: map<Id, int>, sold: map<Id, int>): int {
    if !p.trackStock then 0 else Max0(Get(delta, p.id) - Get(sold, p.id))
  }

  /** What a barcode scan must answer: the active product the index entry leads to, if any. */
  ghost predicate ResolvesTo(st: StoreState, code: Bytes, r: Option<Product>) {
    match r
    case None => code in st.barcodeIdx && st.barcodeIdx[code] in st.products ==> !st.products[st.barcodeIdx[code]].active
    case Some(p) =>
      && code in st.barcodeIdx && st.barcodeIdx[code] in st.products
      && var stored := st.products[st.barcodeIdx[code]];
         && stored.active && stored.barcode == code
         && p == stored.(stock := if !stored.trackStock then stored.stock else if OnHand(st, stored.id) < 0 then 0 else OnHand(st, stored.id))
  }

  /** A bad line is reported whatever lines follow it. */
  lemma {:induction false} FirstErrorStands(products: map<Id, Product>, lines: seq<SaleLine>, n: nat)
    requires n <= |lines| && SaleItems(products, lines[..n]).Err?
    ensures SaleItems(products, lines) == SaleItems(products, lines[..n])
    decreases |lines|
  {
    if n < |lines| {
      assert lines[..|lines| - 1][..n] == lines[..n];
      FirstErrorStands(products, lines[..|lines| - 1], n);
    } else {
      assert lines[..n] == lines;
    }
  }

  /** A tracked edit leaves the signed on-hand exactly at the entered count, even after overselling. */
  lemma UpdateSetsOnHand(st: StoreState, id: Id, d: ProductDraft, eventId: Id, now: Time)
    requires UpdateError(st, id, d).None? && eventId !in st.stockEvents
    ensures OnHand(AfterUpdate(st, id, d, eventId, now), id) == if d.trackStock then d.stock else OnHand(st, id)
    ensures forall other: Id :: other != id ==>
              OnHand(AfterUpdate(st, id, d, eventId, now), other) == OnHand(st, other)
  {
    var ev := StockEvent(eventId, id, d.stock - OnHand(st, id), Adjustment, now);
    var r := AfterUpdate(st, id, d, eventId, now);
    assert r.sales == st.sales;
    assert r.stockEvents == if d.trackStock && ev.delta != 0 then st.stockEvents[eventId := ev] else st.stockEvents;
    SumInsert(st.stockEvents, DeltaFor(id), eventId, ev);
    forall other: Id | other != id ensures OnHand(r, other) == OnHand(st, other) {
      SumInsert(st.stockEvents, DeltaFor(other), eventId, ev);
    }
  }

  ghost function Members(ids: seq<Id>): set<Id> {
    set id | id in ids
  }

  lemma ListsById<T>(out: seq<T>, rows: map<Id, T>, marks: set<Id>, idOf: T -> Id)
    requires |out| == |rows.Keys * marks|
    requires forall x <- out :: idOf(x) in marks && idOf(x) in rows && rows[idOf(x)] == x
    requires forall id <- marks :: id in rows ==> rows[id] in out
    ensures Lists(out, rows, marks)
  {
  }

  /** Reads the rows behind a bucket of marks. */
  method ReadMarked<T>(rows: map<Id, T>, marks: set<Id>, idOf: T -> Id) returns (out: seq<T>)
    requires forall id <- rows :: idOf(rows[id]) == id
    ensures Lists(out, rows, marks)
  {
    out := [];
    var todo := marks;
    ghost var read: set<Id> := {};
    while todo != {}
      invariant todo <= marks && read !! todo && |out| == |read|
      invariant forall id :: id in read ==> id in rows && id in marks
      invariant forall id <- marks :: id in rows ==> id in todo || id in read
      invariant forall x <- out :: idOf(x) in marks && idOf(x) in rows && rows[idOf(x)] == x
      invariant forall id <- read :: rows[id] in out
      decreases todo
    {
      var id :| id in todo;
      todo := todo - {id};
      if id in rows {
        ghost var before := out;
        out := out + [rows[id]];
        assert forall x <- before :: x in out;
        assert rows[id] in out;
        read := read + {id};
      }
    }
    assert read == rows.Keys * marks;
    ListsById(out, rows, marks, idOf);
  }

  /** Deletes the listed ids from a bucket of marks. */
  method Unmark(marks: set<Id>, ids: seq<Id>) returns (left: set<Id>)
    ensures left == marks - Members(ids)
  {
    left := marks;
    for i := 0 to |ids|
      invariant left == marks - Members(ids[..i])
    {
      assert Members(ids[..i + 1]) == Members(ids[..i]) + {ids[i]} by {
        assert ids[..i + 1] == ids[..i] + [ids[i]];
      }
      left := left - {ids[i]};
    }
    assert ids[..|ids|] == ids;
  }

  /** The entries of a map under chosen keys. */
  ghost function Chosen(values: map<string, string>, keys: set<string>): map<string, string> {
    map k | k in keys && k in values :: values[k]
  }

  lemma ChooseOne(before: map<string, string>, values: map<string, string>, keys: set<string>, k: string)
    ensures before + Chosen(values, keys + {k})
         == if k in values then (before + Chosen(values, keys))[k := values[k]] else before + Chosen(values, keys)
  {
  }

  class Store {
    var products: map<Id, Product>
    var sales: map<Id, Sale>
    var stockEvents: map<Id, StockEvent>
    var settings: map<string, string>
    var barcodeIdx: map<Bytes, Id>
    var refIdx: set<Bytes>
    var pendingProds: set<Id>
    var pendingSales: set<Id>
    var pendingStock: set<Id>
    var settingsDue: Option<Time>
    var link: Option<CloudLink>
    var cursor: nat
    var lastSync: Option<Time>
    var lastError: string

    /** The buckets as one value. */
    function State(): StoreState
      reads this
    {
      StoreState(products, sales, stockEvents, settings, barcodeIdx, refIdx, pendingProds, pendingSales,
                 pendingStock, settingsDue, link, cursor, lastSync, lastError)
    }

    ghost predicate Valid()
      reads this
    {
      Inv(State())
    }

    constructor ()
      ensures Valid() && State() == EMPTY
    {
      products, sales, stockEvents, settings := map[], map[], map[], map[];
      barcodeIdx, refIdx := map[], {};
      pendingProds, pendingSales, pendingStock := {}, {}, {};
      settingsDue, link, cursor, lastSync, lastError := None, None, 0, None, "";
      new;
      EmptyIsValid();
    }

    // ---- Stock ----

    method AppendEvent(ev: StockEvent)
      modifies this
      ensures State() == AppendStockEvent(old(State()), ev)
    {
      stockEvents := stockEvents[ev.id := ev];
      pendingStock := pendingStock + {ev.id};
    }

    /** Walks both logs for one product. */
    method OnHandOf(productId: Id) returns (total: int)
      ensures total == OnHand(State(), productId)
    {
      total := 0;
      var todo := stockEvents.Keys;
      assert stockEvents - todo == map[];
      while todo != {}
        invariant todo <= stockEvents.Keys
        invariant total == SumOver(stockEvents - todo, DeltaFor(productId))
        decreases todo
      {
        var id :| id in todo;
        ghost var before := stockEvents - todo;
        todo := todo - {id};
        assert stockEvents - todo == before[id := stockEvents[id]];
        SumInsert(before, DeltaFor(productId), id, stockEvents[id]);
        if stockEvents[id].productId == productId {
          total := total + stockEvents[id].delta;
        }
      }
      assert stockEvents - {} == stockEvents;
      var added := total;
      todo := sales.Keys;
      assert sales - todo == map[];
      while todo != {}
        invariant todo <= sales.Keys
        invariant total == added - SumOver(sales - todo, SoldFor(productId))
        decreases todo
      {
        var id :| id in todo;
        ghost var before := sales - todo;
        todo := todo - {id};
        assert sales - todo == before[id := sales[id]];
        SumInsert(before, SoldFor(productId), id, sales[id]);
        var items, start := sales[id].items, total;
        for i := 0 to |items|
          invariant total == start - QtySold(items[..i], productId)
        {
          assert items[..i + 1][..i] == items[..i];
          if items[i].productId == productId {
            total := total - items[i].qty;
          }
        }
        assert items[..|items|] == items;
      }
      assert sales - {} == sales;
    }

    /** One pass over both logs totals every product at once. */
    method StockTotals() returns (delta: map<Id, int>, sold: map<Id, int>)
      ensures forall p: Id :: Get(delta, p) == SumOver(stockEvents, DeltaFor(p))
      ensures forall p: Id :: Get(sold, p) == SumOver(sales, SoldFor(p))
    {
      delta, sold := map[], map[];
      var todo := stockEvents.Keys;
      assert stockEvents - todo == map[];
      while todo != {}
        invariant todo <= stockEvents.Keys
        invariant forall p: Id :: Get(delta, p) == SumOver(stockEvents - todo, DeltaFor(p))
        decreases todo
      {
        var id :| id in todo;
        ghost var before := stockEvents - todo;
        todo := todo - {id};
        var ev := stockEvents[id];
        assert stockEvents - todo == before[id := ev];
        forall p: Id ensures SumOver(before[id := ev], DeltaFor(p)) == SumOver(before, DeltaFor(p)) + DeltaFor(p)(ev) {
          SumInsert(before, DeltaFor(p), id, ev);
        }
        delta := delta[ev.productId := Get(delta, ev.productId) + ev.delta];
      }
      assert stockEvents - {} == stockEvents;
      todo := sales.Keys;
      assert sales - todo == map[];
      while todo != {}
        invariant todo <= sales.Keys
        invariant forall p: Id :: Get(sold, p) == SumOver(sales - todo, SoldFor(p))
        decreases todo
      {
        var id :| id in todo;
        ghost var before := sales - todo;
        todo := todo - {id};
        var items := sales[id].items;
        assert sales - todo == before[id := sales[id]];
        forall p: Id
          ensures SumOver(before[id := sales[id]], SoldFor(p)) == SumOver(before, SoldFor(p)) + QtySold(items, p)
        {
          SumInsert(before, SoldFor(p), id, sales[id]);
        }
        ghost var start := sold;
        for i := 0 to |items|
          invariant forall p: Id :: Get(sold, p) == Get(start, p) + QtySold(items[..i], p)
        {
          assert items[..i + 1][..i] == items[..i];
          sold := sold[items[i].productId := Get(sold, items[i].productId) + items[i].qty];
        }
        assert items[..|items|] == items;
      }
      assert sales - {} == sales;
    }

    /** The active products by name, each with the on-hand the logs give it. */
    method Products() returns (out: seq<Product>)
      requires Valid()
      ensures SortedBy(out, ByName) && DistinctBy(out, ProductId)
      ensures forall p <- out :: p.id in products && products[p.id].active && p == Displayed(products[p.id], State())
      ensures forall id <- products :: products[id].active ==> Displayed(products[id], State()) in out
    {
      var delta, sold := StockTotals();
      out := [];
      var todo := products.Keys;
      while todo != {}
        invariant todo <= products.Keys && DistinctBy(out, ProductId)
        invariant forall p <- out :: p.id in products && p.id !in todo && products[p.id].active
                                     && p == Displayed(products[p.id], State())
        invariant forall id <- products :: id !in todo && products[id].active ==> Displayed(products[id], State()) in out
        decreases todo
      {
        var id :| id in todo;
        todo := todo - {id};
        var p := products[id];
        if p.active {
          p := p.(stock := DerivedStock(p, delta, sold));
          assert p == Displayed(products[id], State());
          ghost var before := out;
          out := out + [p];
          assert p in out && forall q <- before :: q in out;
        }
      }
      ghost var found := out;
      ByNameIsPreorder();
      out := Sort(out, ByName);
      SameElements(found, out);
      DistinctSurvives(found, out, ProductId);
    }

    method Restock(productId: Id, qty: int, eventId: Id, now: Time) returns (r: Result<Product>)
      requires Valid() && FreshIds(State(), LocalOp.Restock(productId, qty, eventId, now))
      modifies this
      ensures Valid() && State() == Run(old(State()), LocalOp.Restock(productId, qty, eventId, now))
      ensures r.Err? <==> productId !in old(products)
      ensures r.Err? ==> r.error == NotFound
      ensures r.Ok? ==> var onHand := old(OnHand(State(), productId)) + qty; r.value == products[productId].(stock := if onHand < 0 then 0 else onHand)
    {
      hide Inv;
      RunKeepsInv(State(), LocalOp.Restock(productId, qty, eventId, now));
      if productId !in products {
        return Err(NotFound);
      }
      if qty != 0 {
        var ev := StockEvent(eventId, productId, qty, Restocked, now);
        SumInsert(stockEvents, DeltaFor(productId), eventId, ev);
        AppendEvent(ev);
      }
      var onHand := OnHandOf(productId);
      r := Ok(products[productId].(stock := Max0(onHand)));
    }

    // ---- Products ----

    method AddProduct(d: ProductDraft, pending: bool, newId: Id, eventId: Id, now: Time) returns (r: Result<Product>)
      requires Valid() && FreshIds(State(), LocalOp.AddProduct(d, pending, newId, eventId, now))
      modifies this
      ensures Valid() && State() == Run(old(State()), LocalOp.AddProduct(d, pending, newId, eventId, now))
      ensures r.Err? <==> d.barcode != [] && d.barcode in old(barcodeIdx)
      ensures r.Err? ==> r.error == BarcodeTaken
      ensures r.Ok? ==> r.value == NewProduct(d, newId, now)
    {
      RunKeepsInv(State(), LocalOp.AddProduct(d, pending, newId, eventId, now));
      hide Inv;
      if d.barcode != [] && d.barcode in barcodeIdx {
        return Err(BarcodeTaken);
      }
      InsertProduct(d, newId, now);
      var p := NewProduct(d, newId, now);
      if pending {
        if d.trackStock && d.stock != 0 {
          AppendEvent(StockEvent(eventId, newId, d.stock, Initial, now));
        }
        pendingProds := pendingProds + {newId};
      }
      r := Ok(p);
    }

    /** Stores a new product under its id and its barcode. */
    method InsertProduct(d: ProductDraft, newId: Id, now: Time)
      modifies this
      ensures State() == StoreAdded(old(State()), d, newId, now)
    {
      products := products[newId := NewProduct(d, newId, now)];
      if d.barcode != [] {
        barcodeIdx := barcodeIdx[d.barcode := newId];
      }
    }

    method SaveEdit(id: Id, d: ProductDraft, now: Time)
      requires id in products
      modifies this
      ensures State() == StoreEdited(old(State()), id, d, now)
    {
      var p := products[id];
      if p.barcode != d.barcode && p.barcode != [] {
        barcodeIdx := barcodeIdx - {p.barcode};
      }
      p := p.(name := d.name, priceCents := d.priceCents, barcode := d.barcode, trackStock := d.trackStock,
      stock := d.stock, taxable := d.taxable, updatedAt := now);
      products := products[id := p];
      if d.barcode != [] {
        barcodeIdx := barcodeIdx[d.barcode := id];
      }
      pendingProds := pendingProds + {id};
    }

    method UpdateProduct(id: Id, d: ProductDraft, eventId: Id, now: Time) returns (r: Result<Product>)
      requires Valid() && FreshIds(State(), LocalOp.UpdateProduct(id, d, eventId, now))
      modifies this
      ensures Valid() && State() == Run(old(State()), LocalOp.UpdateProduct(id, d, eventId, now))
      ensures r == Err(NotFound) <==> id !in old(products)
      ensures r == Err(BarcodeTaken) <==>
                id in old(products) && d.barcode != [] && d.barcode in old(barcodeIdx) && old(barcodeIdx)[d.barcode] != id
      ensures r.Err? ==> r.error == NotFound || r.error == BarcodeTaken
      ensures r.Ok? ==> id in products && r.value == products[id].(stock := if d.trackStock then d.stock else 0)
      ensures r.Ok? ==> OnHand(State(), id) == if d.trackStock then d.stock else old(OnHand(State(), id))
    {
      hide Inv;
      ghost var before := State();
      RunKeepsInv(before, LocalOp.UpdateProduct(id, d, eventId, now));
      if id !in products {
        return Err(NotFound);
      }
      var beforeOnHand := OnHandOf(id);
      if d.barcode != [] && d.barcode in barcodeIdx && barcodeIdx[d.barcode] != id {
        return Err(BarcodeTaken);
      }
      UpdateSetsOnHand(before, id, d, eventId, now);
      SaveEdit(id, d, now);
      var p := products[id];
      if d.trackStock {
        var delta := d.stock - beforeOnHand;
        if delta != 0 {
          AppendEvent(StockEvent(eventId, id, delta, Adjustment, now));
        }
        p := p.(stock := d.stock);
      } else {
        p := p.(stock := 0);
      }
      r := Ok(p);
    }

    method DeleteProduct(id: Id, now: Time) returns (r: Result<()>)
      requires Valid()
      modifies this
      ensures Valid() && State() == Run(old(State()), LocalOp.DeleteProduct(id, now))
      ensures r.Err? <==> id !in old(products)
      ensures r.Err? ==> r.error == NotFound
    {
      hide Inv;
      RunKeepsInv(State(), LocalOp.DeleteProduct(id, now));
      if id !in products {
        return Err(NotFound);
      }
      var p := products[id];
      if p.barcode != [] {
        barcodeIdx := barcodeIdx - {p.barcode};
      }
      p := p.(active := false, deletedAt := Some(now), updatedAt := now);
      products := products[id := p];
      pendingProds := pendingProds + {id};
      r := Ok(());
    }

    /** A scan resolves to an active product that carries the scanned code, or to nothing. */
    method ProductByBarcode(code: Bytes) returns (r: Option<Product>)
      requires Valid()
      ensures ResolvesTo(State(), code, r)
    {
      if code !in barcodeIdx || barcodeIdx[code] !in products {
        return None;
      }
      var p := products[barcodeIdx[code]];
      if !p.active {
        return None;
      }
      if p.trackStock {
        var onHand := OnHandOf(p.id);
        p := p.(stock := Max0(onHand));
      }
      r := Some(p);
      assert barcodeIdx[code] in products && products[barcodeIdx[code]].id == barcodeIdx[code];
    }

    // ---- Sales ----

    /** Snapshots the requested lines from the current products, or reports the first bad one. */
    method PriceLines(lines: seq<SaleLine>) returns (r: Result<seq<SaleItem>>)
      ensures r == SaleItems(products, lines)
    {
      var items: seq<SaleItem> := [];
      for i := 0 to |lines|
        invariant SaleItems(products, lines[..i]) == Ok(items)
      {
        var it := lines[i];
        assert lines[..i + 1][..i] == lines[..i];
        if it.qty <= 0 {
          FirstErrorStands(products, lines, i + 1);
          return Err(InvalidQuantity);
        }
        if it.productId !in products {
          FirstErrorStands(products, lines, i + 1);
          return Err(UnknownProduct);
        }
        items := items + [Snapshot(products[it.productId], it.qty)];
      }
      assert lines[..|lines|] == lines;
      r := Ok(items);
    }

    /** Taxes the lines under the shop's settings as they stand and checks the payment. */
    method PriceSale(lines: seq<SaleItem>, input: SaleInput, saleId: Id, now: Time) returns (r: Result<Sale>)
      requires SaleItems(products, input.lines) == Ok(lines)
      ensures r == BuildSale(State(), input, saleId, now)
    {
      hide Tax.LineTax, Tax.GrossSum, Tax.TaxSum, Tax.TaxedLines, Tax.TotalOf;
      if lines == [] {
        return Err(EmptySale);
      }
      var rate, mode := TaxRate(settings), TaxMode(settings);
      var items := new SaleItem[|lines|](i requires 0 <= i < |lines| => lines[i]);
      assert items[..] == lines;
      var subtotal, tax, total := Tax.ComputeTax(rate, mode, items);
      if input.paidCents < total {
        return Err(Underpaid);
      }
      var paidBy := if input.paymentMethod == "" then "cash" else input.paymentMethod;
      r := Ok(Sale(saleId, now, items[..], subtotal, tax, total, input.paidCents, input.paidCents - total,
                   paidBy, input.reference, rate, mode));
    }

    method CreateSale(input: SaleInput, saleId: Id, now: Time) returns (r: Result<Sale>)
      requires Valid() && FreshIds(State(), LocalOp.CreateSale(input, saleId, now))
      modifies this
      ensures Valid() && State() == Run(old(State()), LocalOp.CreateSale(input, saleId, now))
      ensures r == BuildSale(old(State()), input, saleId, now)
    {
      hide Inv, RefKey, FreshIds;
      RunKeepsInv(State(), LocalOp.CreateSale(input, saleId, now));
      var lines := PriceLines(input.lines);
      if lines.Err? {
        return Err(lines.error);
      }
      hide BuildSale, SaleItems;
      r := PriceSale(lines.value, input, saleId, now);
      if r.Ok? {
        var sale := r.value;
        sales := sales[sale.id := sale];
        if sale.reference != [] {
          refIdx := refIdx + {RefKey(sale.reference, sale.id)};
        }
        pendingSales := pendingSales + {sale.id};
      }
    }

    /** Every sale whose reference is exactly `reference`, newest first, by a prefix scan of the index. */
    method SalesByReference(reference: Bytes) returns (out: seq<Sale>)
      requires Valid()
      ensures NewestFirst(out)
      ensures reference == [] ==> out == []
      ensures reference != [] ==> Selects(out, State(), HasReference(reference))
    {
      out := [];
      if reference == [] {
        return;
      }
      var prefix := reference + [0];
      var k := Seek(refIdx, prefix);
      ScanStarts(State(), reference, k);
      while k.Some? && prefix <= k.value
        invariant Scanning(State(), reference, k, out)
        decreases Ahead(refIdx, k)
      {
        var key := k.value;
        var id := key[|prefix|..];
        ghost var before := out;
        if id in sales {
          out := out + [sales[id]];
        }
        k := Next(refIdx, key);
        ScanAdvances(State(), reference, key, before, k, out);
      }
      ScanEnds(State(), reference, k, out);
      ghost var found := out;
      out := Sort(out, NotOlder);
      SortedSelection(found, out, State(), HasReference(reference));
    }

    /** The index-backed path: the sales of one reference that meet the other criteria. */
    method SearchByReference(c: SearchCriteria, lower: Bytes -> Bytes) returns (out: seq<Sale>)
      requires Valid() && c.reference != []
      ensures Selects(out, State(), Satisfying(c, lower))
    {
      out := [];
      var candidates := SalesByReference(c.reference);
      for i := 0 to |candidates|
        invariant Distinct(out)
        invariant forall sale <- out :: sale in candidates[..i] && MatchesCriteria(sale, c, lower)
        invariant forall sale <- candidates[..i] :: MatchesCriteria(sale, c, lower) ==> sale in out
      {
        assert candidates[..i + 1] == candidates[..i] + [candidates[i]];
        assert forall sale <- candidates[..i] :: SaleId(sale) != SaleId(candidates[i]);
        var ok := Matches(candidates[i], c, lower);
        if ok {
          out := out + [candidates[i]];
        }
      }
      assert candidates[..|candidates|] == candidates;
    }

    /** The scan path: one pass over the sales bucket. */
    method SearchByScan(c: SearchCriteria, lower: Bytes -> Bytes) returns (out: seq<Sale>)
      requires Valid() && c.reference == []
      ensures Selects(out, State(), Satisfying(c, lower))
    {
      out := [];
      var todo := sales.Keys;
      while todo != {}
        invariant todo <= sales.Keys && Distinct(out)
        invariant forall sale <- out :: sale.id in sales && sale.id !in todo && sales[sale.id] == sale
                                        && MatchesCriteria(sale, c, lower)
        invariant forall id <- sales :: id !in todo && MatchesCriteria(sales[id], c, lower) ==> sales[id] in out
        decreases todo
      {
        var id :| id in todo;
        todo := todo - {id};
        var ok := Matches(sales[id], c, lower);
        if ok {
          ghost var before := out;
          out := out + [sales[id]];
          assert forall sale <- before :: sale in out;
        }
      }
    }

    /** The newest stored sales that satisfy every set criterion, cut to the limit. */
    method SearchSales(c: SearchCriteria, lower: Bytes -> Bytes) returns (out: seq<Sale>)
      requires Valid()
      ensures NewestFirst(out) && Distinct(out) && |out| <= LimitOf(c)
      ensures forall sale <- out :: sale.id in sales && sales[sale.id] == sale && Satisfies(sale, c, lower)
      ensures forall id <- sales :: Satisfies(sales[id], c, lower) && sales[id] !in out ==>
                |out| == LimitOf(c) && forall kept <- out :: sales[id].createdAt <= kept.createdAt
    {
      if c.reference != [] {
        out := SearchByReference(c, lower);
      } else {
        out := SearchByScan(c, lower);
      }
      ghost var found := out;
      out := Sort(out, NotOlder);
      SortedSelection(found, out, State(), Satisfying(c, lower));
      var limit := if c.limit <= 0 then DEFAULT_SEARCH_CAP else c.limit;
      if |out| > limit {
        CutKeepsNewest(out, limit);
        out := out[..limit];
      }
    }

    // ---- Settings and link ----

    /** The settings the till shows: whatever was saved, over the defaults. */
    method Settings() returns (out: map<string, string>)
      ensures out == SettingsOf(State())
    {
      hide DEFAULTS;
      out := DEFAULTS;
      var todo := settings.Keys;
      while todo != {}
        invariant todo <= settings.Keys
        invariant out == DEFAULTS + map k | k in settings && k !in todo :: settings[k]
        decreases todo
      {
        var k :| k in todo;
        todo := todo - {k};
        out := out[k := settings[k]];
      }
      assert (map k | k in settings && k !in todo :: settings[k]) == settings;
    }

    method SetSetting(key: string, value: string, now: Time)
      requires Valid()
      modifies this
      ensures Valid() && State() == Run(old(State()), LocalOp.SetSetting(key, value, now))
    {
      settings := settings[key := value];
      if key in SYNC_SETTING_KEYS {
        settingsDue := Some(now);
      }
    }

    method Link(to: CloudLink)
      requires Valid()
      modifies this
      ensures Valid() && State() == Run(old(State()), LocalOp.Link(to))
      ensures link == Some(to) && lastError == "" && cursor == old(cursor)
    {
      link := Some(to);
      lastError := "";
    }

    method Unlink()
      requires Valid()
      modifies this
      ensures Valid() && State() == Run(old(State()), LocalOp.Unlink)
      ensures link == None && lastError == "" && cursor == 0
      ensures pendingProds == old(pendingProds) && pendingSales == old(pendingSales) && pendingStock == old(pendingStock)
    {
      link := None;
      cursor := 0;
      lastError := "";
    }

    method SetCursor(to: nat)
      requires Valid()
      modifies this
      ensures Valid() && State() == old(State()).(cursor := to)
    {
      cursor := to;
    }

    method SetSyncResult(at: Time, message: string)
      requires Valid()
      modifies this
      ensures Valid() && State() == old(State()).(lastSync := Some(at), lastError := message)
    {
      lastSync := Some(at);
      lastError := message;
    }

    // ---- Outbox ----

    method PendingProducts() returns (out: seq<Product>)
      requires Valid()
      ensures Lists(out, products, pendingProds)
    {
      out := ReadMarked(products, pendingProds, ProductId);
    }

    method PendingSales() returns (out: seq<Sale>)
      requires Valid()
      ensures Lists(out, sales, pendingSales)
    {
      out := ReadMarked(sales, pendingSales, SaleId);
    }

    method PendingStockEvents() returns (out: seq<StockEvent>)
      requires Valid()
      ensures Lists(out, stockEvents, pendingStock)
    {
      out := ReadMarked(stockEvents, pendingStock, EventId);
    }

    /** Removes exactly the marks of the pushed ids, and the settings marker only if it has not moved on. */
    method ClearPushed(productIds: seq<Id>, saleIds: seq<Id>, eventIds: seq<Id>, settingsAt: Option<Time>)
      requires Valid()
      modifies this
      ensures Valid()
      ensures State() == StoreModel.ClearPushed(old(State()), Members(productIds), Members(saleIds), Members(eventIds), settingsAt)
    {
      ClearPushedKeepsInv(State(), Members(productIds), Members(saleIds), Members(eventIds), settingsAt);
      pendingProds := Unmark(pendingProds, productIds);
      pendingSales := Unmark(pendingSales, saleIds);
      pendingStock := Unmark(pendingStock, eventIds);
      if settingsAt.Some? && settingsDue.Some? && settingsDue.value <= settingsAt.value {
        settingsDue := None;
      }
    }

    // ---- Applying pulled changes ----

    method ApplyProduct(p: Product)
      modifies this
      ensures State() == PulledProduct(old(State()), p)
    {
      var have := p.id in products;
      if have {
        if p.updatedAt <= products[p.id].updatedAt {
          return;
        }
        if products[p.id].barcode != [] {
          barcodeIdx := barcodeIdx - {products[p.id].barcode};
        }
      }
      products := products[p.id := p];
      if p.active && p.barcode != [] {
        barcodeIdx := barcodeIdx[p.barcode := p.id];
      }
    }

    method ApplySale(sale: Sale)
      modifies this
      ensures State() == PulledSale(old(State()), sale)
    {
      if sale.id in sales {
        return;
      }
      sales := sales[sale.id := sale];
      if sale.reference != [] {
        refIdx := refIdx + {RefKey(sale.reference, sale.id)};
      }
    }

    method ApplyStockEvent(ev: StockEvent)
      modifies this
      ensures State() == PulledStockEvent(old(State()), ev)
    {
      if ev.id in stockEvents {
        return;
      }
      stockEvents := stockEvents[ev.id := ev];
    }

    method ApplySettings(change: SettingsChange)
      modifies this
      ensures State() == PulledSettings(old(State()), change)
    {
      if settingsDue.Some? && change.at < settingsDue.value {
        return;
      }
      hide SYNC_SETTING_KEYS;
      ghost var before := settings;
      var todo := SYNC_SETTING_KEYS;
      assert settings == before + Chosen(change.values, SYNC_SETTING_KEYS - todo);
      while todo != {}
        invariant todo <= SYNC_SETTING_KEYS
        invariant settings == before + Chosen(change.values, SYNC_SETTING_KEYS - todo)
        invariant State() == old(State()).(settings := settings)
        decreases todo
      {
        var k :| k in todo;
        ChooseOne(before, change.values, SYNC_SETTING_KEYS - todo, k);
        assert SYNC_SETTING_KEYS - (todo - {k}) == SYNC_SETTING_KEYS - todo + {k};
        todo := todo - {k};
        if k in change.values {
          settings := settings[k := change.values[k]];
        }
      }
      assert SYNC_SETTING_KEYS - {} == SYNC_SETTING_KEYS;
    }

    method ApplyProducts(ps: seq<Product>)
      modifies this
      ensures State() == PulledProducts(old(State()), ps)
    {
      for i := 0 to |ps|
        invariant State() == PulledProducts(old(State()), ps[..i])
      {
        assert ps[..i + 1][..i] == ps[..i];
        ApplyProduct(ps[i]);
      }
      assert ps[..|ps|] == ps;
    }

    method ApplySales(pulled: seq<Sale>)
      modifies this
      ensures State() == PulledSales(old(State()), pulled)
    {
      for i := 0 to |pulled|
        invariant State() == PulledSales(old(State()), pulled[..i])
      {
        assert pulled[..i + 1][..i] == pulled[..i];
        ApplySale(pulled[i]);
      }
      assert pulled[..|pulled|] == pulled;
    }

    method ApplyStockEvents(evs: seq<StockEvent>)
      modifies this
      ensures State() == PulledStockEvents(old(State()), evs)
    {
      for i := 0 to |evs|
        invariant State() == PulledStockEvents(old(State()), evs[..i])
      {
        assert evs[..i + 1][..i] == evs[..i];
        ApplyStockEvent(evs[i]);
      }
      assert evs[..|evs|] == evs;
    }

    /** Merges one pulled batch in a single transaction. */
    method ApplyPulled(b: Batch)
      requires Valid() && forall sale <- b.sales :: NulFree(sale.id)
      modifies this
      ensures Valid() && State() == StoreModel.ApplyPulled(old(State()), b)
    {
      ApplyPulledKeepsInv(State(), b);
      ApplyProducts(b.products);
      ApplySales(b.sales);
      ApplyStockEvents(b.stockEvents);
      if b.settings.Some? {
        ApplySettings(b.settings.value);
      }
    }
  }
}
