/** What every store operation keeps true of one till's buckets. */
module StoreInvariants {
  import opened Prelude
  import opened Records
  import opened StoreModel

  predicate NulFree(id: Id) {
    0 !in id
  }

  /** Every product is filed under its own id. */
  ghost predicate KeyedProducts(products: map<Id, Product>) {
    forall id <- products :: products[id].id == id
  }

  /** Rows are filed under their own ids. */
  ghost predicate Keyed(st: StoreState) {
    && KeyedProducts(st.products)
    && (forall id <- st.sales :: st.sales[id].id == id && NulFree(id))
    && (forall id <- st.stockEvents :: st.stockEvents[id].id == id)
  }

  /** Every outbox mark names a stored row. */
  ghost predicate MarksAreStored(st: StoreState) {
    && st.pendingProds <= st.products.Keys
    && st.pendingSales <= st.sales.Keys
    && st.pendingStock <= st.stockEvents.Keys
  }

  ghost function RefKeys(sales: map<Id, Sale>): set<Bytes> {
    set id | id in sales && sales[id].reference != [] :: RefKey(sales[id].reference, id)
  }

  /** The reference index holds the keys of the referenced sales and nothing else. */
  ghost predicate RefIndexExact(st: StoreState) {
    st.refIdx == RefKeys(st.sales)
  }

  /** Every barcode entry points at a stored product carrying that very barcode. */
  ghost predicate BarcodeSound(st: StoreState) {
    forall code <- st.barcodeIdx ::
      code != [] && st.barcodeIdx[code] in st.products && st.products[st.barcodeIdx[code]].barcode == code
  }

  ghost predicate Inv(st: StoreState) {
    Keyed(st) && MarksAreStored(st) && RefIndexExact(st) && BarcodeSound(st)
  }

  /** The ids a write mints have never been used on this till. */
  ghost predicate FreshIds(st: StoreState, op: LocalOp) {
    match op
    case AddProduct(_, _, newId, eventId, _) => newId !in st.products && eventId !in st.stockEvents
    case UpdateProduct(_, _, eventId, _) => eventId !in st.stockEvents
    case CreateSale(_, saleId, _) => saleId !in st.sales && NulFree(saleId)
    case Restock(_, _, eventId, _) => eventId !in st.stockEvents
    case _ => true
  }

  lemma EmptyIsValid()
    ensures Inv(EMPTY)
  {
  }

  lemma RefKeysOfInsert(sales: map<Id, Sale>, id: Id, sale: Sale)
    requires id !in sales
    ensures RefKeys(sales[id := sale])
            == RefKeys(sales) + if sale.reference != [] then {RefKey(sale.reference, id)} else {}
  {
    var more := sales[id := sale];
    forall k | k in RefKeys(sales) ensures k in RefKeys(more) {
      var j :| j in sales && sales[j].reference != [] && k == RefKey(sales[j].reference, j);
      assert j in more && more[j] == sales[j];
    }
    if sale.reference != [] {
      assert id in more && RefKey(more[id].reference, id) in RefKeys(more);
    }
  }

  lemma StoreSaleKeepsInv(st: StoreState, sale: Sale)
    requires Inv(st) && sale.id !in st.sales && NulFree(sale.id)
    ensures Inv(StoreSale(st, sale))
  {
    RefKeysOfInsert(st.sales, sale.id, sale);
  }

  /** A committed sale keeps its id, whatever else it snapshots. */
  lemma BuiltSaleId(st: StoreState, input: SaleInput, id: Id, now: Time)
    ensures BuildSale(st, input, id, now).Ok? ==> BuildSale(st, input, id, now).value.id == id
  {
  }

  lemma AddKeepsInv(st: StoreState, d: ProductDraft, pending: bool, id: Id, eventId: Id, now: Time)
    requires Inv(st) && id !in st.products && AddError(st, d).None?
    ensures Inv(AfterAdd(st, d, pending, id, eventId, now))
  {
    var after := AfterAdd(st, d, pending, id, eventId, now);
    assert after.products == st.products[id := NewProduct(d, id, now)];
    assert after.refIdx == st.refIdx && after.sales == st.sales;
  }

  lemma UpdateKeepsInv(st: StoreState, id: Id, d: ProductDraft, eventId: Id, now: Time)
    requires Inv(st) && UpdateError(st, id, d).None?
    ensures Inv(AfterUpdate(st, id, d, eventId, now))
  {
    var after := AfterUpdate(st, id, d, eventId, now);
    assert after.products == st.products[id := Edited(st.products[id], d, now)];
    assert after.refIdx == st.refIdx && after.sales == st.sales;
  }

  lemma DeleteKeepsInv(st: StoreState, id: Id, now: Time)
    requires Inv(st) && id in st.products
    ensures Inv(AfterDelete(st, id, now))
  {
  }

  /** Every local write keeps the invariants, given fresh ids. */
  lemma RunKeepsInv(st: StoreState, op: LocalOp)
    requires Inv(st) && FreshIds(st, op)
    ensures Inv(Run(st, op))
  {
    match op
    case AddProduct(d, pending, id, eventId, now) =>
      if AddError(st, d).None? { AddKeepsInv(st, d, pending, id, eventId, now); }
    case UpdateProduct(id, d, eventId, now) =>
      if UpdateError(st, id, d).None? { UpdateKeepsInv(st, id, d, eventId, now); }
    case DeleteProduct(id, now) =>
      if id in st.products { DeleteKeepsInv(st, id, now); }
    case CreateSale(input, saleId, now) =>
      BuiltSaleId(st, input, saleId, now);
      match BuildSale(st, input, saleId, now) {
        case Err(_) =>
        case Ok(sale) => StoreSaleKeepsInv(st, sale);
      }
    case Restock(_, _, _, _) =>
    case SetSetting(_, _, _) =>
    case Link(_) =>
    case Unlink =>
  }

  lemma ClearPushedKeepsInv(st: StoreState, ps: set<Id>, ss: set<Id>, es: set<Id>, at: Option<Time>)
    requires Inv(st)
    ensures Inv(ClearPushed(st, ps, ss, es, at))
  {
  }

  lemma PulledProductKeepsInv(st: StoreState, p: Product)
    requires Inv(st)
    ensures Inv(PulledProduct(st, p))
  {
  }

  lemma {:induction false} PulledProductsKeepInv(st: StoreState, ps: seq<Product>)
    requires Inv(st)
    ensures Inv(PulledProducts(st, ps))
  {
    if ps != [] {
      PulledProductsKeepInv(st, ps[..|ps| - 1]);
      PulledProductKeepsInv(PulledProducts(st, ps[..|ps| - 1]), ps[|ps| - 1]);
    }
  }

  lemma {:induction false} PulledSalesKeepInv(st: StoreState, sales: seq<Sale>)
    requires Inv(st) && forall sale <- sales :: NulFree(sale.id)
    ensures Inv(PulledSales(st, sales))
  {
    if sales != [] {
      PulledSalesKeepInv(st, sales[..|sales| - 1]);
      var before := PulledSales(st, sales[..|sales| - 1]);
      assert sales[|sales| - 1] in sales;
      if sales[|sales| - 1].id !in before.sales {
        StoreSaleKeepsInv(before, sales[|sales| - 1]);
      }
    }
  }

  lemma {:induction false} PulledStockEventsKeepInv(st: StoreState, evs: seq<StockEvent>)
    requires Inv(st)
    ensures Inv(PulledStockEvents(st, evs))
  {
    if evs != [] {
      PulledStockEventsKeepInv(st, evs[..|evs| - 1]);
    }
  }

  lemma ApplyPulledKeepsInv(st: StoreState, b: Batch)
    requires Inv(st) && forall sale <- b.sales :: NulFree(sale.id)
    ensures Inv(ApplyPulled(st, b))
  {
    PulledProductsKeepInv(st, b.products);
    PulledSalesKeepInv(PulledProducts(st, b.products), b.sales);
    PulledStockEventsKeepInv(PulledSales(PulledProducts(st, b.products), b.sales), b.stockEvents);
  }

  /** The products bucket after a local write. */
  function ProductsAfter(st: StoreState, op: LocalOp): map<Id, Product> {
    match op
    case AddProduct(d, _, newId, _, now) =>
      if AddError(st, d).Some? then st.products else st.products[newId := NewProduct(d, newId, now)]
    case UpdateProduct(id, d, _, now) =>
      if UpdateError(st, id, d).Some? then st.products else st.products[id := Edited(st.products[id], d, now)]
    case DeleteProduct(id, now) =>
      if id !in st.products then st.products else st.products[id := Tombstone(st.products[id], now)]
    case _ => st.products
  }

  lemma RunProducts(st: StoreState, op: LocalOp)
    ensures Run(st, op).products == ProductsAfter(st, op)
  {
    match op
    case AddProduct(d, pending, id, eventId, now) =>
      assert AfterAdd(st, d, pending, id, eventId, now).products == st.products[id := NewProduct(d, id, now)];
    case UpdateProduct(id, d, eventId, now) =>
      if id in st.products {
        assert AfterUpdate(st, id, d, eventId, now).products == st.products[id := Edited(st.products[id], d, now)];
      }
    case _ =>
  }

  /** The product marks after a local write. */
  function PendingAfter(st: StoreState, op: LocalOp): set<Id> {
    match op
    case AddProduct(d, pending, id, eventId, now) =>
      if AddError(st, d).None? && pending then st.pendingProds + {id} else st.pendingProds
    case UpdateProduct(id, d, eventId, now) =>
      if UpdateError(st, id, d).None? then st.pendingProds + {id} else st.pendingProds
    case DeleteProduct(id, now) =>
      if id in st.products then st.pendingProds + {id} else st.pendingProds
    case _ => st.pendingProds
  }

  lemma RunPending(st: StoreState, op: LocalOp)
    ensures Run(st, op).pendingProds == PendingAfter(st, op) && Run(st, op).cursor <= st.cursor
  {
    hide NewProduct, Edited, BuildSale, RefKey;
    match op
    case UpdateProduct(id, d, eventId, now) =>
      if UpdateError(st, id, d).None? {
        assert AfterUpdate(st, id, d, eventId, now).pendingProds == st.pendingProds + {id};
      }
    case _ =>
  }
}
