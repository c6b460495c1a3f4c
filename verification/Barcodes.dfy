/** When the barcode index is an exact bijection with the active barcoded products, and when it stops being one. */
module Barcodes {
  import opened Prelude
  import opened Records
  import opened StoreModel
  import opened StoreInvariants

  /** Entries and active barcoded products correspond one to one. */
  ghost predicate BarcodeExact(st: StoreState) {
    && (forall code <- st.barcodeIdx ::
          && code != []
          && st.barcodeIdx[code] in st.products
          && st.products[st.barcodeIdx[code]].active
          && st.products[st.barcodeIdx[code]].barcode == code)
    && (forall id <- st.products :: Listed(st, id))
  }

  /** An active barcoded product is what its barcode resolves to. */
  ghost predicate Listed(st: StoreState, id: Id)
    requires id in st.products
  {
    var p := st.products[id];
    p.active && p.barcode != [] ==> p.barcode in st.barcodeIdx && st.barcodeIdx[p.barcode] == id
  }

  /** No product other than `id` holds the barcode. */
  predicate FreeFor(st: StoreState, code: Bytes, id: Id) {
    code in st.barcodeIdx ==> st.barcodeIdx[code] == id
  }

  lemma AddKeepsExact(st: StoreState, d: ProductDraft, pending: bool, id: Id, eventId: Id, now: Time)
    requires BarcodeExact(st) && id !in st.products && AddError(st, d).None?
    ensures BarcodeExact(AfterAdd(st, d, pending, id, eventId, now))
  {
    var after := AfterAdd(st, d, pending, id, eventId, now);
    assert after.products == st.products[id := NewProduct(d, id, now)];
    assert after.barcodeIdx == if d.barcode != [] then st.barcodeIdx[d.barcode := id] else st.barcodeIdx;
    forall j | j in after.products ensures Listed(after, j) {
      if j != id { assert Listed(st, j); }
    }
  }

  /**
   * An edit keeps the index exact precisely when its target is live, or when it
   * leaves a tombstone without a barcode and takes no live product's entry away.
   */
  lemma UpdateKeepsExactIff(st: StoreState, id: Id, d: ProductDraft, eventId: Id, now: Time)
    requires BarcodeExact(st) && UpdateError(st, id, d).None?
    ensures BarcodeExact(AfterUpdate(st, id, d, eventId, now))
            <==> st.products[id].active || (d.barcode == [] && st.products[id].barcode !in st.barcodeIdx)
  {
    var p := st.products[id];
    var after := AfterUpdate(st, id, d, eventId, now);
    assert after.products == st.products[id := Edited(p, d, now)];
    assert Listed(st, id);
    if p.active || (d.barcode == [] && p.barcode !in st.barcodeIdx) {
      forall j | j in after.products ensures Listed(after, j) {
        if j != id { assert Listed(st, j); }
      }
    } else if d.barcode != [] {
      assert after.barcodeIdx[d.barcode] == id && !after.products[id].active;
    } else {
      var owner := st.barcodeIdx[p.barcode];
      assert p.barcode !in after.barcodeIdx && !Listed(after, owner);
    }
  }

  /** A delete keeps the index exact precisely when its target is live or its stored barcode has no entry. */
  lemma DeleteKeepsExactIff(st: StoreState, id: Id, now: Time)
    requires BarcodeExact(st) && id in st.products
    ensures BarcodeExact(AfterDelete(st, id, now))
            <==> st.products[id].active || st.products[id].barcode !in st.barcodeIdx
  {
    var p := st.products[id];
    var after := AfterDelete(st, id, now);
    assert Listed(st, id);
    if p.active || p.barcode !in st.barcodeIdx {
      forall j | j in after.products ensures Listed(after, j) {
        if j != id { assert Listed(st, j); }
      }
    } else {
      assert !Listed(after, st.barcodeIdx[p.barcode]);
    }
  }

  /**
   * A pulled row that takes effect keeps the index exact precisely when neither
   * the barcode it frees nor the barcode it claims belongs to another product.
   */
  lemma PullKeepsExactIff(st: StoreState, p: Product)
    requires BarcodeExact(st)
    requires p.id in st.products ==> st.products[p.id].updatedAt < p.updatedAt
    ensures BarcodeExact(PulledProduct(st, p))
            <==> && (p.id in st.products ==> FreeFor(st, st.products[p.id].barcode, p.id))
                 && (p.active ==> FreeFor(st, p.barcode, p.id))
  {
    var after := PulledProduct(st, p);
    if p.id in st.products { assert Listed(st, p.id); }
    if p.id in st.products && !FreeFor(st, st.products[p.id].barcode, p.id) {
      assert !Listed(after, st.barcodeIdx[st.products[p.id].barcode]);
    } else if p.active && !FreeFor(st, p.barcode, p.id) {
      assert !Listed(after, st.barcodeIdx[p.barcode]);
    } else {
      forall j | j in after.products ensures Listed(after, j) {
        if j != p.id { assert Listed(st, j); }
      }
    }
  }

  /** A local write that edits or deletes touches only a live product. */
  predicate TouchesLive(st: StoreState, op: LocalOp) {
    match op
    case UpdateProduct(id, _, _, _) => id in st.products ==> st.products[id].active
    case DeleteProduct(id, _) => id in st.products ==> st.products[id].active
    case _ => true
  }

  lemma RunKeepsExact(st: StoreState, op: LocalOp)
    requires BarcodeExact(st) && FreshIds(st, op) && TouchesLive(st, op)
    ensures BarcodeExact(Run(st, op))
  {
    match op
    case AddProduct(d, pending, id, eventId, now) =>
      if AddError(st, d).None? { AddKeepsExact(st, d, pending, id, eventId, now); }
    case UpdateProduct(id, d, eventId, now) =>
      if UpdateError(st, id, d).None? { UpdateKeepsExactIff(st, id, d, eventId, now); }
    case DeleteProduct(id, now) =>
      if id in st.products { DeleteKeepsExactIff(st, id, now); }
    case _ =>
      var after := Run(st, op);
      assert after.products == st.products && after.barcodeIdx == st.barcodeIdx;
      forall j | j in after.products ensures Listed(after, j) { assert Listed(st, j); }
  }

  ghost function RunAll(st: StoreState, ops: seq<LocalOp>): StoreState
    decreases |ops|
  {
    if ops == [] then st else RunAll(Run(st, ops[0]), ops[1..])
  }

  /** Every write of the run mints fresh ids and touches only live products. */
  ghost predicate LiveRun(st: StoreState, ops: seq<LocalOp>)
    decreases |ops|
  {
    ops == [] || (FreshIds(st, ops[0]) && TouchesLive(st, ops[0]) && LiveRun(Run(st, ops[0]), ops[1..]))
  }

  /** Over any local run that touches only live products the index stays an exact bijection. */
  lemma {:induction false} LiveRunKeepsExact(st: StoreState, ops: seq<LocalOp>)
    requires BarcodeExact(st) && LiveRun(st, ops)
    ensures BarcodeExact(RunAll(st, ops))
    decreases |ops|
  {
    if ops != [] {
      RunKeepsExact(st, ops[0]);
      LiveRunKeepsExact(Run(st, ops[0]), ops[1..]);
    }
  }

  /** In an exact index a code resolves exactly when some active product carries it, and to that product. */
  lemma ExactResolves(st: StoreState, code: Bytes, id: Id)
    requires BarcodeExact(st) && code != []
    ensures code in st.barcodeIdx && st.barcodeIdx[code] == id
            <==> id in st.products && st.products[id].active && st.products[id].barcode == code
  {
    if id in st.products { assert Listed(st, id); }
  }
}
