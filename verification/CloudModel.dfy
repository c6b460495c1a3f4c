/**
 * The shared cloud, as the wire types and the engine describe it: products are
 * last-write-wins, sales and stock events are inserted if absent, every applied
 * row gets a fresh sequence number.
 */
module CloudModel {
  import opened Prelude
  import opened Records
  import opened StoreModel

  datatype Row<T> = Row(value: T, seqNo: nat)

  datatype Cloud = Cloud(
    products: map<Id, Row<Product>>,
    sales: map<Id, Row<Sale>>,
    stockEvents: map<Id, Row<StockEvent>>,
    settings: Option<Row<SettingsChange>>,
    last: nat)

  const EMPTY_CLOUD := Cloud(map[], map[], map[], None, 0)

  /** What a pull replies: the rows past the cursor and the shop's highest sequence. */
  datatype Reply = Reply(batch: Batch, cursor: nat)

  function PutProduct(c: Cloud, p: Product): Cloud {
    if p.id in c.products && p.updatedAt <= c.products[p.id].value.updatedAt then c
    else c.(products := c.products[p.id := Row(p, c.last + 1)], last := c.last + 1)
  }

  function PutSale(c: Cloud, sale: Sale): Cloud {
    if sale.id in c.sales then c
    else c.(sales := c.sales[sale.id := Row(sale, c.last + 1)], last := c.last + 1)
  }

  function PutStockEvent(c: Cloud, ev: StockEvent): Cloud {
    if ev.id in c.stockEvents then c
    else c.(stockEvents := c.stockEvents[ev.id := Row(ev, c.last + 1)], last := c.last + 1)
  }

  function PutSettings(c: Cloud, change: SettingsChange): Cloud {
    if c.settings.Some? && change.at <= c.settings.value.value.at then c
    else c.(settings := Some(Row(change, c.last + 1)), last := c.last + 1)
  }

  function PutProducts(c: Cloud, ps: seq<Product>): Cloud {
    if ps == [] then c else PutProduct(PutProducts(c, ps[..|ps| - 1]), ps[|ps| - 1])
  }

  function PutSales(c: Cloud, sales: seq<Sale>): Cloud {
    if sales == [] then c else PutSale(PutSales(c, sales[..|sales| - 1]), sales[|sales| - 1])
  }

  function PutStockEvents(c: Cloud, evs: seq<StockEvent>): Cloud {
    if evs == [] then c else PutStockEvent(PutStockEvents(c, evs[..|evs| - 1]), evs[|evs| - 1])
  }

  function ApplyPush(c: Cloud, b: Batch): Cloud {
    var rows := PutStockEvents(PutSales(PutProducts(c, b.products), b.sales), b.stockEvents);
    if b.settings.Some? then PutSettings(rows, b.settings.value) else rows
  }

  function CloudSettings(c: Cloud): Option<SettingsChange> {
    if c.settings.Some? then Some(c.settings.value.value) else None
  }

  /** The reply holds exactly the rows past `since`, in any order. */
  ghost predicate RowsPast<T>(rows: map<Id, Row<T>>, since: nat, xs: seq<T>) {
    && (forall id <- rows :: rows[id].seqNo > since ==> rows[id].value in xs)
    && (forall x <- xs :: exists id :: id in rows && rows[id].seqNo > since && rows[id].value == x)
  }

  ghost predicate IsPull(c: Cloud, since: nat, r: Reply) {
    && r.cursor == c.last
    && RowsPast(c.products, since, r.batch.products)
    && RowsPast(c.sales, since, r.batch.sales)
    && RowsPast(c.stockEvents, since, r.batch.stockEvents)
    && (r.batch.settings.Some? ==> r.batch.settings == CloudSettings(c))
  }

  // ---- How the cloud changes ----

  /** Rows are never removed or changed, and new rows are numbered after every old one. */
  ghost predicate LogGrows<T>(a: map<Id, Row<T>>, last: nat, b: map<Id, Row<T>>, last': nat) {
    && (forall id <- a :: id in b && b[id] == a[id])
    && (forall id <- b :: id in a || last < b[id].seqNo <= last')
  }

  /** A product row is kept, or replaced by a later version under a new number. */
  ghost predicate ProductsGrow(a: map<Id, Row<Product>>, last: nat, b: map<Id, Row<Product>>, last': nat) {
    && (forall id <- a :: id in b && a[id].value.updatedAt <= b[id].value.updatedAt)
    && (forall id <- b :: (id in a && b[id] == a[id]) || last < b[id].seqNo <= last')
  }

  ghost predicate Grows(c: Cloud, c': Cloud) {
    && c.last <= c'.last
    && ProductsGrow(c.products, c.last, c'.products, c'.last)
    && LogGrows(c.sales, c.last, c'.sales, c'.last)
    && LogGrows(c.stockEvents, c.last, c'.stockEvents, c'.last)
  }

  /** Every row after the push is an old row or one of the pushed values, filed under its id. */
  ghost predicate PushedRows<T>(a: map<Id, Row<T>>, xs: seq<T>, b: map<Id, Row<T>>, idOf: T -> Id) {
    forall id <- b :: (id in a && b[id] == a[id]) || (b[id].value in xs && idOf(b[id].value) == id)
  }

  ghost predicate ProductsPushed(c: Cloud, ps: seq<Product>, r: Cloud) {
    && r == c.(products := r.products, last := r.last)
    && c.last <= r.last
    && ProductsGrow(c.products, c.last, r.products, r.last)
    && PushedRows(c.products, ps, r.products, ProductId)
    && (forall p <- ps :: p.id in r.products && p.updatedAt <= r.products[p.id].value.updatedAt)
  }

  lemma PutProductEffect(c: Cloud, ps: seq<Product>, r: Cloud, p: Product)
    requires ProductsPushed(c, ps, r)
    ensures ProductsPushed(c, ps + [p], PutProduct(r, p))
  {
    var r' := PutProduct(r, p);
    assert forall id <- r'.products :: id != p.id ==> id in r.products && r'.products[id] == r.products[id];
    assert r'.last >= r.last;
  }

  lemma {:induction false} PutProductsEffect(c: Cloud, ps: seq<Product>)
    ensures ProductsPushed(c, ps, PutProducts(c, ps))
  {
    if ps != [] {
      PutProductsEffect(c, ps[..|ps| - 1]);
      PutProductEffect(c, ps[..|ps| - 1], PutProducts(c, ps[..|ps| - 1]), ps[|ps| - 1]);
      assert ps == ps[..|ps| - 1] + [ps[|ps| - 1]];
    }
  }

  lemma {:induction false} PutSalesEffect(c: Cloud, sales: seq<Sale>)
    ensures var r := PutSales(c, sales);
            && r == c.(sales := r.sales, last := r.last)
            && c.last <= r.last
            && LogGrows(c.sales, c.last, r.sales, r.last)
            && PushedRows(c.sales, sales, r.sales, SaleId)
            && (forall sale <- sales :: sale.id in r.sales)
  {
    if sales != [] {
      PutSalesEffect(c, sales[..|sales| - 1]);
      assert sales == sales[..|sales| - 1] + [sales[|sales| - 1]];
    }
  }

  lemma {:induction false} PutStockEventsEffect(c: Cloud, evs: seq<StockEvent>)
    ensures var r := PutStockEvents(c, evs);
            && r == c.(stockEvents := r.stockEvents, last := r.last)
            && c.last <= r.last
            && LogGrows(c.stockEvents, c.last, r.stockEvents, r.last)
            && PushedRows(c.stockEvents, evs, r.stockEvents, EventId)
            && (forall ev <- evs :: ev.id in r.stockEvents)
  {
    if evs != [] {
      PutStockEventsEffect(c, evs[..|evs| - 1]);
      assert evs == evs[..|evs| - 1] + [evs[|evs| - 1]];
    }
  }

  /** After a push the cloud holds everything pushed, at least as new, and lost nothing. */
  ghost predicate PushEffect(c: Cloud, b: Batch, r: Cloud) {
    && Grows(c, r)
    && PushedRows(c.products, b.products, r.products, ProductId)
    && PushedRows(c.sales, b.sales, r.sales, SaleId)
    && PushedRows(c.stockEvents, b.stockEvents, r.stockEvents, EventId)
    && (forall p <- b.products :: p.id in r.products && p.updatedAt <= r.products[p.id].value.updatedAt)
    && (forall sale <- b.sales :: sale.id in r.sales)
    && (forall ev <- b.stockEvents :: ev.id in r.stockEvents)
  }

  lemma ApplyPushEffect(c: Cloud, b: Batch)
    ensures PushEffect(c, b, ApplyPush(c, b))
  {
    PutProductsEffect(c, b.products);
    var c1 := PutProducts(c, b.products);
    PutSalesEffect(c1, b.sales);
    var c2 := PutSales(c1, b.sales);
    PutStockEventsEffect(c2, b.stockEvents);
  }
}
