/** What each write to the catalogue leaves on record and in stock, field by field. */
module ProductFacts {
  import opened Prelude
  import opened Records
  import opened Sums
  import opened StoreModel
  import opened BoltStore

  /** The other products are as they were, and so is the stock of every one of them. */
  ghost predicate OthersUntouched(before: StoreState, after: StoreState, id: Id) {
    && (forall other: Id :: other != id ==>
         && (other in after.products <==> other in before.products)
         && (other in before.products ==> after.products[other] == before.products[other])
         && (other in after.pendingProds <==> other in before.pendingProds)
         && OnHand(after, other) == OnHand(before, other))
    && after.sales == before.sales && after.settings == before.settings
  }

  lemma OneProductWritten(before: StoreState, after: StoreState, id: Id, p: Product)
    requires after.products == before.products[id := p]
    requires after.pendingProds == before.pendingProds || after.pendingProds == before.pendingProds + {id}
    requires after.sales == before.sales && after.settings == before.settings
    requires forall other: Id :: other != id ==> OnHand(after, other) == OnHand(before, other)
    ensures OthersUntouched(before, after, id)
  {
    hide OnHand;
  }

  /** One stock event more moves one product's on-hand by its delta. */
  lemma EventMovesOnHand(st: StoreState, after: StoreState, ev: StockEvent)
    requires ev.id !in st.stockEvents
    requires after.stockEvents == st.stockEvents[ev.id := ev] && after.sales == st.sales
    ensures OnHand(after, ev.productId) == OnHand(st, ev.productId) + ev.delta
    ensures forall other: Id :: other != ev.productId ==> OnHand(after, other) == OnHand(st, other)
  {
    SumInsert(st.stockEvents, DeltaFor(ev.productId), ev.id, ev);
    forall other: Id | other != ev.productId ensures OnHand(after, other) == OnHand(st, other) {
      SumInsert(st.stockEvents, DeltaFor(other), ev.id, ev);
    }
  }

  /**
   * An added product is stored as drafted, on sale, and found by its code. Its
   * opening count goes on record as an event of its own, so that its on-hand grows
   * by just that, if it is tracked and the addition is to be pushed; a seeded one
   * is neither marked nor counted.
   */
  lemma AddingRecords(st: StoreState, d: ProductDraft, pending: bool, id: Id, eventId: Id, now: Time)
    requires AddError(st, d).None? && eventId !in st.stockEvents
    ensures var r := Run(st, AddProduct(d, pending, id, eventId, now));
            && OthersUntouched(st, r, id) && id in r.products
            && var p := r.products[id];
               && p.id == id && p.name == d.name && p.priceCents == d.priceCents && p.barcode == d.barcode
               && p.trackStock == d.trackStock && p.stock == d.stock && p.taxable == d.taxable
               && p.active && p.updatedAt == now && p.deletedAt == None
               && (d.barcode != [] ==> d.barcode in r.barcodeIdx && r.barcodeIdx[d.barcode] == id)
    ensures var r := Run(st, AddProduct(d, pending, id, eventId, now));
            && OnHand(r, id) == OnHand(st, id) + (if pending && d.trackStock then d.stock else 0)
            && r.pendingProds == (if pending then st.pendingProds + {id} else st.pendingProds)
            && (pending && d.trackStock && d.stock != 0 ==>
                  r.stockEvents == st.stockEvents[eventId := StockEvent(eventId, id, d.stock, Initial, now)] && eventId in r.pendingStock)
  {
    hide OnHand;
    var r := Run(st, AddProduct(d, pending, id, eventId, now));
    if pending && d.trackStock && d.stock != 0 {
      EventMovesOnHand(st, r, StockEvent(eventId, id, d.stock, Initial, now));
    } else {
      SameLogsSameOnHand(st, r);
    }
    OneProductWritten(st, r, id, NewProduct(d, id, now));
    hide OthersUntouched;
  }

  /** Stock starts at nothing; what moves it is told by the lemmas here and by SaleTakesWhatWasAsked. */
  lemma StockStartsAtZero(id: Id)
    ensures OnHand(EMPTY, id) == 0
  {
  }

  lemma SameLogsSameOnHand(a: StoreState, b: StoreState)
    requires a.stockEvents == b.stockEvents && a.sales == b.sales
    ensures forall id: Id :: OnHand(a, id) == OnHand(b, id)
  {
  }

  /**
   * An edited product takes the draft's fields and is marked for a push; it keeps
   * its id and whether it is on sale. If it is tracked the difference to the
   * counted stock goes on record as an event, and the on-hand is then the count.
   */
  lemma EditingRecords(st: StoreState, id: Id, d: ProductDraft, eventId: Id, now: Time)
    requires UpdateError(st, id, d).None? && eventId !in st.stockEvents
    ensures var r := Run(st, UpdateProduct(id, d, eventId, now));
            && OthersUntouched(st, r, id) && id in r.products && id in r.pendingProds
            && var p, was := r.products[id], st.products[id];
               && p.name == d.name && p.priceCents == d.priceCents && p.barcode == d.barcode
               && p.trackStock == d.trackStock && p.stock == d.stock && p.taxable == d.taxable && p.updatedAt == now
               && p.id == was.id && p.active == was.active && p.deletedAt == was.deletedAt
               && (d.barcode != [] ==> d.barcode in r.barcodeIdx && r.barcodeIdx[d.barcode] == id)
               && (was.barcode != d.barcode && was.barcode != [] ==> was.barcode !in r.barcodeIdx)
    ensures var r := Run(st, UpdateProduct(id, d, eventId, now));
            && OnHand(r, id) == (if d.trackStock then d.stock else OnHand(st, id))
            && (r.stockEvents != st.stockEvents ==>
                  r.stockEvents == st.stockEvents[eventId := StockEvent(eventId, id, d.stock - OnHand(st, id), Adjustment, now)]
                  && eventId in r.pendingStock)
  {
    UpdateSetsOnHand(st, id, d, eventId, now);
    CodesMoved(st.barcodeIdx, st.products[id].barcode, d.barcode, id);
    hide OnHand, Repointed;
    var r := Run(st, UpdateProduct(id, d, eventId, now));
    assert r == AfterUpdate(st, id, d, eventId, now);
    OneProductWritten(st, r, id, Edited(st.products[id], d, now));
    hide OthersUntouched;
    assert r.barcodeIdx == Repointed(st.barcodeIdx, st.products[id].barcode, d.barcode, id);
  }

  lemma CodesMoved(idx: map<Bytes, Id>, was: Bytes, code: Bytes, id: Id)
    ensures var r := Repointed(idx, was, code, id);
            && (code != [] ==> code in r && r[code] == id)
            && (was != code && was != [] ==> was !in r)
  {
  }

  /** A deleted product stays on record, off sale and without its code, and moves no stock. */
  lemma DeletingRecords(st: StoreState, id: Id, now: Time)
    requires id in st.products
    ensures var r := Run(st, DeleteProduct(id, now));
            && OthersUntouched(st, r, id) && OnHand(r, id) == OnHand(st, id) && r.stockEvents == st.stockEvents
            && id in r.products && id in r.pendingProds
            && var p, was := r.products[id], st.products[id];
               && !p.active && p.deletedAt == Some(now) && p.updatedAt == now
               && p.id == was.id && p.name == was.name && p.priceCents == was.priceCents && p.barcode == was.barcode
               && p.trackStock == was.trackStock && p.stock == was.stock && p.taxable == was.taxable
               && (was.barcode != [] ==> was.barcode !in r.barcodeIdx)
  {
    var r := Run(st, DeleteProduct(id, now));
    SameLogsSameOnHand(st, r);
    OneProductWritten(st, r, id, Tombstone(st.products[id], now));
    hide OnHand, OthersUntouched;
  }

  /** Restocking changes nothing but the stock: its product's on-hand by the quantity, on record as an event. */
  lemma RestockingRecords(st: StoreState, id: Id, qty: int, eventId: Id, now: Time)
    requires id in st.products && eventId !in st.stockEvents
    ensures var r := Run(st, Restock(id, qty, eventId, now));
            && OthersUntouched(st, r, id) && r.products == st.products && r.barcodeIdx == st.barcodeIdx
            && OnHand(r, id) == OnHand(st, id) + qty
            && (qty != 0 ==>
                  r.stockEvents == st.stockEvents[eventId := StockEvent(eventId, id, qty, Restocked, now)] && eventId in r.pendingStock)
  {
    hide OnHand;
    var r := Run(st, Restock(id, qty, eventId, now));
    if qty != 0 {
      EventMovesOnHand(st, r, StockEvent(eventId, id, qty, Restocked, now));
    } else {
      SameLogsSameOnHand(st, r);
    }
  }

  /**
   * A sale is stored under its id with its reference findable, and marked for a
   * push; products and stock events stay as they are.
   */
  lemma SellingRecords(st: StoreState, input: SaleInput, saleId: Id, now: Time)
    requires BuildSale(st, input, saleId, now).Ok?
    ensures var r, sale := Run(st, CreateSale(input, saleId, now)), BuildSale(st, input, saleId, now).value;
            && r.sales == st.sales[saleId := sale] && r.pendingSales == st.pendingSales + {saleId}
            && r.products == st.products && r.stockEvents == st.stockEvents && r.settings == st.settings
            && (input.reference != [] ==> input.reference + [0] + saleId in r.refIdx)
  {
  }
}
