/** When the order of pulled rows matters: the barcode index is where it can, and here is exactly when. */
module PullOrder {
  import opened Prelude
  import opened Records
  import opened StoreModel
  import opened StoreInvariants
  import opened Barcodes
  import opened Merge

  /** The pulled row beats the stored one, if any. */
  predicate Takes(st: StoreState, p: Product) {
    p.id in st.products ==> st.products[p.id].updatedAt < p.updatedAt
  }

  /** The code a product's stored row gives up when a newer row replaces it. */
  function Freed(st: StoreState, id: Id): Bytes {
    if id in st.products then st.products[id].barcode else []
  }

  /** The code a row takes: a tombstone takes none. */
  function Claimed(p: Product): Bytes {
    if p.active then p.barcode else []
  }

  /** The index after a product gives up one code and takes another. */
  function Moved(idx: map<Bytes, Id>, freed: Bytes, claimed: Bytes, id: Id): map<Bytes, Id> {
    var left := if freed == [] then idx else idx - {freed};
    if claimed == [] then left else left[claimed := id]
  }

  lemma PulledProductMoves(st: StoreState, p: Product)
    ensures PulledProduct(st, p)
         == if !Takes(st, p) then st
            else st.(products := st.products[p.id := p], barcodeIdx := Moved(st.barcodeIdx, Freed(st, p.id), Claimed(p), p.id))
  {
  }

  // ---- Two rows ----

  /** Two products may move in either order unless one claims a code that the other claims or gives up. */
  lemma MovesCommuteIff(idx: map<Bytes, Id>, f1: Bytes, c1: Bytes, i: Id, f2: Bytes, c2: Bytes, j: Id)
    requires i != j
    ensures Moved(Moved(idx, f1, c1, i), f2, c2, j) == Moved(Moved(idx, f2, c2, j), f1, c1, i)
            <==> (c1 != [] ==> c1 != c2 && c1 != f2) && (c2 != [] ==> c2 != f1)
  {
    var a, b := Moved(Moved(idx, f1, c1, i), f2, c2, j), Moved(Moved(idx, f2, c2, j), f1, c1, i);
    if c1 != [] && c1 == c2 {
      assert a[c1] == j && b[c1] == i;
    } else if c1 != [] && c1 == f2 {
      assert c1 !in a && c1 in b;
    } else if c2 != [] && c2 == f1 {
      assert c2 in a && c2 !in b;
    } else {
      forall c ensures c in a <==> c in b {}
      forall c | c in a ensures a[c] == b[c] {}
    }
  }

  /** An intermediate version of a product leaves no trace unless its code was another's, and is given up again. */
  lemma DetourIsHarmlessIff(idx: map<Bytes, Id>, freed: Bytes, via: Product, claimed: Bytes)
    ensures Moved(Moved(idx, freed, Claimed(via), via.id), via.barcode, claimed, via.id) == Moved(idx, freed, claimed, via.id)
            <==> via.barcode in {[], claimed, freed} || via.barcode !in idx
  {
    var a := Moved(Moved(idx, freed, Claimed(via), via.id), via.barcode, claimed, via.id);
    var b := Moved(idx, freed, claimed, via.id);
    if via.barcode in {[], claimed, freed} || via.barcode !in idx {
      forall c ensures c in a <==> c in b {}
      forall c | c in a ensures a[c] == b[c] {}
    } else {
      assert via.barcode !in a && via.barcode in b;
    }
  }

  /** Two rows that both beat the stored ones do not interfere. */
  predicate Compatible(st: StoreState, p: Product, q: Product) {
    if p.id != q.id then
      && (Claimed(p) != [] ==> Claimed(p) != Claimed(q) && Claimed(p) != Freed(st, q.id))
      && (Claimed(q) != [] ==> Claimed(q) != Freed(st, p.id))
    else if p.updatedAt < q.updatedAt then PassesThrough(st, p, q)
    else if q.updatedAt < p.updatedAt then PassesThrough(st, q, p)
    else p == q
  }

  /** The earlier of two versions of a product names no code that the index gives to another. */
  predicate PassesThrough(st: StoreState, earlier: Product, later: Product) {
    earlier.barcode in {[], Claimed(later), Freed(st, later.id)} || earlier.barcode !in st.barcodeIdx
  }

  /**
   * Two rows may be pulled in either order, the whole committed state being the
   * same, exactly when one of them is old or they do not interfere: different
   * products must not contend for a code, and versions of one product must not
   * share a stamp or pass through a code the index has for another.
   */
  lemma TwoPullsCommuteIff(st: StoreState, p: Product, q: Product)
    ensures PulledProduct(PulledProduct(st, p), q) == PulledProduct(PulledProduct(st, q), p)
            <==> !Takes(st, p) || !Takes(st, q) || Compatible(st, p, q)
  {
    hide PulledProduct, Moved;
    PulledProductMoves(st, p);
    PulledProductMoves(st, q);
    PulledProductMoves(PulledProduct(st, p), q);
    PulledProductMoves(PulledProduct(st, q), p);
    if Takes(st, p) && Takes(st, q) {
      if p.id != q.id {
        assert st.products[p.id := p][q.id := q] == st.products[q.id := q][p.id := p];
        MovesCommuteIff(st.barcodeIdx, Freed(st, p.id), Claimed(p), p.id, Freed(st, q.id), Claimed(q), q.id);
      } else {
        VersionsCommuteIff(st, p, q);
      }
    }
  }

  lemma VersionsCommuteIff(st: StoreState, p: Product, q: Product)
    requires p.id == q.id && Takes(st, p) && Takes(st, q)
    ensures PulledProduct(PulledProduct(st, p), q) == PulledProduct(PulledProduct(st, q), p) <==> Compatible(st, p, q)
  {
    hide PulledProduct, Moved;
    PulledProductMoves(st, p);
    PulledProductMoves(st, q);
    PulledProductMoves(PulledProduct(st, p), q);
    PulledProductMoves(PulledProduct(st, q), p);
    var id := p.id;
    if p.updatedAt < q.updatedAt {
      assert st.products[id := p][id := q] == st.products[id := q];
      DetourIsHarmlessIff(st.barcodeIdx, Freed(st, id), p, Claimed(q));
    } else if q.updatedAt < p.updatedAt {
      assert st.products[id := q][id := p] == st.products[id := p];
      DetourIsHarmlessIff(st.barcodeIdx, Freed(st, id), q, Claimed(p));
    } else if p != q {
      assert PulledProduct(PulledProduct(st, p), q).products[id] == p;
      assert PulledProduct(PulledProduct(st, q), p).products[id] == q;
    }
  }

  /** Two live products that swap their codes: whichever row comes first, its product can no longer be scanned. */
  lemma SwapLosesACode(st: StoreState, p: Product, q: Product)
    requires BarcodeExact(st) && Takes(st, p) && Takes(st, q)
    requires p.id in st.products && q.id in st.products && p.id != q.id
    requires p.active && q.active && st.products[p.id].active && st.products[q.id].active
    requires p.barcode == Freed(st, q.id) && q.barcode == Freed(st, p.id) && p.barcode != [] && q.barcode != []
    ensures var r := PulledProduct(PulledProduct(st, p), q); p.barcode !in r.barcodeIdx && r.products[p.id] == p
    ensures var r := PulledProduct(PulledProduct(st, q), p); q.barcode !in r.barcodeIdx && r.products[q.id] == q
    ensures PulledProduct(PulledProduct(st, p), q) != PulledProduct(PulledProduct(st, q), p)
  {
    TwoPullsCommuteIff(st, p, q);
    assert Listed(st, p.id) && Listed(st, q.id);
  }

  // ---- A batch with one row a product, as a cloud replies ----

  ghost predicate OneEach(ps: seq<Product>) {
    forall i, j | 0 <= i < j < |ps| :: ps[i].id != ps[j].id
  }

  /** Whom a code belongs to after a batch: the last row that claims it, unless a later one gave it up. */
  function Holder(st: StoreState, ps: seq<Product>, code: Bytes): Option<Id> {
    if ps == [] then if code in st.barcodeIdx then Some(st.barcodeIdx[code]) else None
    else
      var p := ps[|ps| - 1];
      if !Takes(st, p) then Holder(st, ps[..|ps| - 1], code)
      else if Claimed(p) == code then Some(p.id)
      else if Freed(st, p.id) == code then None
      else Holder(st, ps[..|ps| - 1], code)
  }

  /** The products after such a batch: each row that beats its stored one, and the rest as they were. */
  lemma {:induction false} OneEachRows(st: StoreState, ps: seq<Product>, id: Id)
    requires OneEach(ps)
    ensures var r := PulledProducts(st, ps).products;
            && (forall p <- ps :: p.id == id && Takes(st, p) ==> id in r && r[id] == p)
            && ((forall p <- ps :: p.id == id ==> !Takes(st, p)) ==>
                  (id in r <==> id in st.products) && (id in r ==> r[id] == st.products[id]))
  {
    hide PulledProduct;
    if ps != [] {
      var front, p := ps[..|ps| - 1], ps[|ps| - 1];
      OneEachRows(st, front, id);
      OneEachRows(st, front, p.id);
      assert forall q <- front :: q.id != p.id;
      assert ps == front + [p];
      PulledProductMoves(PulledProducts(st, front), p);
    }
  }

  /** Those products, from the stored ones and the batch alone. */
  function Overlaid(st: StoreState, ps: seq<Product>): map<Id, Product>
    requires OneEach(ps)
  {
    st.products + map i | 0 <= i < |ps| && Takes(st, ps[i]) :: ps[i].id := ps[i]
  }

  lemma PulledAreOverlaid(st: StoreState, ps: seq<Product>)
    requires OneEach(ps)
    ensures PulledProducts(st, ps).products == Overlaid(st, ps)
  {
    hide PulledProducts, Takes;
    var r, o := PulledProducts(st, ps).products, Overlaid(st, ps);
    forall id ensures (id in r <==> id in o) && (id in r ==> r[id] == o[id]) {
      OneEachRows(st, ps, id);
      if i :| 0 <= i < |ps| && ps[i].id == id {
        assert forall p <- ps :: p.id == id ==> p == ps[i];
      } else {
        assert forall p <- ps :: p.id != id;
      }
    }
  }

  lemma {:induction false} HolderIsIndexed(st: StoreState, ps: seq<Product>, code: Bytes)
    requires OneEach(ps) && code != []
    ensures var idx := PulledProducts(st, ps).barcodeIdx;
            Holder(st, ps, code) == if code in idx then Some(idx[code]) else None
  {
    if ps != [] {
      var front, p := ps[..|ps| - 1], ps[|ps| - 1];
      HolderIsIndexed(st, front, code);
      OneEachRows(st, front, p.id);
      assert forall q <- front :: q.id != p.id;
      PulledProductMoves(PulledProducts(st, front), p);
    }
  }

  /** A live product of `rows` that carries the code. */
  predicate CarriesCode(rows: map<Id, Product>, id: Id, code: Bytes) {
    id in rows && rows[id].active && rows[id].barcode == code
  }

  /** No two live products carry one code. */
  ghost predicate CodesUnique(rows: map<Id, Product>) {
    forall i <- rows, j <- rows :: rows[i].barcode != [] && CarriesCode(rows, i, rows[i].barcode) && CarriesCode(rows, j, rows[i].barcode) ==> i == j
  }

  /** Row j gives up a code that another product ends up carrying and no later row of that product claims again. */
  ghost predicate TakesAway(st: StoreState, ps: seq<Product>, j: nat, id: Id)
    requires OneEach(ps) && j < |ps|
  {
    && Takes(st, ps[j]) && Freed(st, ps[j].id) != [] && ps[j].id != id
    && CarriesCode(Overlaid(st, ps), id, Freed(st, ps[j].id))
    && forall k | j < k < |ps| :: ps[k].id == id ==> !Takes(st, ps[k])
  }

  /** A code given up at j and not claimed since by `id` is not held by `id`. */
  lemma {:induction false} CodeStaysAway(st: StoreState, ps: seq<Product>, j: nat, id: Id, n: nat)
    requires j < n <= |ps| && Takes(st, ps[j]) && ps[j].id != id
    requires forall k | j < k < |ps| :: ps[k].id == id ==> !Takes(st, ps[k])
    ensures Holder(st, ps[..n], Freed(st, ps[j].id)) != Some(id)
    decreases n
  {
    assert ps[..n][..n - 1] == ps[..n - 1];
    if n - 1 > j { CodeStaysAway(st, ps, j, id, n - 1); }
  }

  /** A code nobody takes away from its carrier stays with it from the carrier's own row on. */
  lemma {:induction false} CarrierKeepsCode(st: StoreState, ps: seq<Product>, id: Id, code: Bytes, n: nat)
    requires BarcodeExact(st) && OneEach(ps) && n <= |ps| && code != []
    requires CodesUnique(Overlaid(st, ps)) && CarriesCode(Overlaid(st, ps), id, code)
    requires forall j | 0 <= j < |ps| :: !TakesAway(st, ps, j, id)
    requires forall k | n <= k < |ps| :: ps[k].id == id ==> !Takes(st, ps[k])
    ensures Holder(st, ps[..n], code) == Some(id)
    decreases n
  {
    hide Overlaid, PulledProducts;
    var r := Overlaid(st, ps);
    PulledAreOverlaid(st, ps);
    OneEachRows(st, ps, id);
    if n == 0 {
      assert forall p <- ps :: p.id == id ==> !Takes(st, p);
      assert Listed(st, id);
    } else {
      var p := ps[n - 1];
      assert ps[..n][..n - 1] == ps[..n - 1];
      OneEachRows(st, ps, p.id);
      assert p in ps;
      if Takes(st, p) && p.id == id {
      } else {
        if Takes(st, p) {
          assert Claimed(p) == code ==> CarriesCode(r, p.id, code);
          assert Freed(st, p.id) != code by { assert !TakesAway(st, ps, n - 1, id); }
        }
        CarrierKeepsCode(st, ps, id, code, n - 1);
      }
    }
  }

  /** Whoever holds a code after the batch carries it. */
  lemma {:induction false} HoldersCarry(st: StoreState, ps: seq<Product>, code: Bytes)
    requires BarcodeExact(st) && OneEach(ps) && code != [] && Holder(st, ps, code).Some?
    ensures CarriesCode(PulledProducts(st, ps).products, Holder(st, ps, code).value, code)
  {
    if ps != [] {
      var front, p := ps[..|ps| - 1], ps[|ps| - 1];
      var id := Holder(st, ps, code).value;
      assert forall q <- front :: q.id != p.id;
      assert p in ps;
      if !(Takes(st, p) && Claimed(p) == code) {
        HoldersCarry(st, front, code);
        KeepsCarrying(st, ps, id, code);
      } else {
        OneEachRows(st, ps, p.id);
      }
    }
  }

  /** A last row that neither claims a code nor gives it up leaves its carrier carrying it. */
  lemma KeepsCarrying(st: StoreState, ps: seq<Product>, id: Id, code: Bytes)
    requires ps != [] && OneEach(ps) && CarriesCode(PulledProducts(st, ps[..|ps| - 1]).products, id, code)
    requires var p := ps[|ps| - 1]; Takes(st, p) ==> Freed(st, p.id) != code
    ensures CarriesCode(PulledProducts(st, ps).products, id, code)
  {
    hide Moved;
    var front, p := ps[..|ps| - 1], ps[|ps| - 1];
    assert forall q <- front :: q.id != p.id;
    OneEachRows(st, front, p.id);
    PulledProductMoves(PulledProducts(st, front), p);
  }

  lemma {:induction false} NoEmptyCode(st: StoreState, ps: seq<Product>)
    requires [] !in st.barcodeIdx
    ensures [] !in PulledProducts(st, ps).barcodeIdx
  {
    if ps != [] { NoEmptyCode(st, ps[..|ps| - 1]); }
  }

  /**
   * A batch with one row a product keeps the index exact precisely when no two
   * live products end up with one code, and no row gives up a code after the
   * last row of the product that ends up carrying it. All this can be told from
   * the stored products and the batch before the pull.
   */
  lemma PullBatchKeepsExactIff(st: StoreState, ps: seq<Product>)
    requires BarcodeExact(st) && OneEach(ps)
    ensures BarcodeExact(PulledProducts(st, ps))
            <==> && CodesUnique(Overlaid(st, ps))
                 && forall j, id | 0 <= j < |ps| && id in Overlaid(st, ps) :: !TakesAway(st, ps, j, id)
  {
    hide PulledProducts, Holder, Takes, Freed, Overlaid;
    PulledAreOverlaid(st, ps);
    var r := PulledProducts(st, ps);
    assert ps[..|ps|] == ps;
    if BarcodeExact(r) {
      ExactIsUnique(r);
      forall j, id | 0 <= j < |ps| && id in r.products ensures !TakesAway(st, ps, j, id) {
        if TakesAway(st, ps, j, id) {
          assert Listed(r, id);
          HolderIsIndexed(st, ps, Freed(st, ps[j].id));
          CodeStaysAway(st, ps, j, id, |ps|);
        }
      }
    } else if CodesUnique(r.products) && forall j, id | 0 <= j < |ps| && id in r.products :: !TakesAway(st, ps, j, id) {
      forall id | id in r.products ensures Listed(r, id) {
        var code := r.products[id].barcode;
        if CarriesCode(r.products, id, code) && code != [] {
          CarrierKeepsCode(st, ps, id, code, |ps|);
          HolderIsIndexed(st, ps, code);
        }
      }
      NoEmptyCode(st, ps);
      forall code | code in r.barcodeIdx ensures CarriesCode(r.products, r.barcodeIdx[code], code) {
        HolderIsIndexed(st, ps, code);
        HoldersCarry(st, ps, code);
      }
    }
  }

  lemma ExactIsUnique(st: StoreState)
    requires BarcodeExact(st)
    ensures CodesUnique(st.products)
  {
    forall i, j | i in st.products && j in st.products && st.products[i].barcode != []
                  && CarriesCode(st.products, i, st.products[i].barcode) && CarriesCode(st.products, j, st.products[i].barcode)
      ensures i == j
    {
      assert Listed(st, i) && Listed(st, j);
    }
  }

  // ---- Any batch ----

  ghost predicate IsVersion(st: StoreState, ps: seq<Product>, v: Product) {
    v in ps || v in st.products.Values
  }

  /** No version of a pulled product, stored or pulled, shares a code with a live version of another product. */
  ghost predicate NoClash(st: StoreState, ps: seq<Product>) {
    forall p <- ps, v, w | IsVersion(st, ps, v) && IsVersion(st, ps, w) ::
      v.id == p.id && w.id != p.id && v.barcode == w.barcode && v.barcode != [] ==> !w.active
  }

  /** Every row after a pull is a version. */
  lemma {:induction false} RowsAreVersions(st: StoreState, ps: seq<Product>, n: nat)
    requires n <= |ps|
    ensures forall id <- PulledProducts(st, ps[..n]).products :: IsVersion(st, ps, PulledProducts(st, ps[..n]).products[id])
  {
    if n > 0 {
      RowsAreVersions(st, ps, n - 1);
      assert ps[..n][..n - 1] == ps[..n - 1];
    }
  }

  lemma {:induction false} PulledStaysKeyed(st: StoreState, ps: seq<Product>)
    requires KeyedProducts(st.products)
    ensures KeyedProducts(PulledProducts(st, ps).products)
  {
    if ps != [] { PulledStaysKeyed(st, ps[..|ps| - 1]); }
  }

  /** A batch whose codes clash with none keeps the index exact, in whatever order its rows come. */
  lemma {:induction false} UnclashedBatchKeepsExact(st: StoreState, ps: seq<Product>, n: nat)
    requires KeyedProducts(st.products) && BarcodeExact(st) && NoClash(st, ps) && n <= |ps|
    ensures BarcodeExact(PulledProducts(st, ps[..n]))
  {
    hide BarcodeExact, NoClash, PulledProduct;
    if n > 0 {
      var before, p := PulledProducts(st, ps[..n - 1]), ps[n - 1];
      UnclashedBatchKeepsExact(st, ps, n - 1);
      assert ps[..n][..n - 1] == ps[..n - 1];
      if Takes(before, p) {
        RowsAreVersions(st, ps, n - 1);
        PulledStaysKeyed(st, ps[..n - 1]);
        NothingContended(st, ps, before, p);
        PullKeepsExactIff(before, p);
      } else {
        PulledProductMoves(before, p);
      }
    }
  }

  lemma NothingContended(st: StoreState, ps: seq<Product>, now: StoreState, p: Product)
    requires NoClash(st, ps) && p in ps && BarcodeExact(now) && KeyedProducts(now.products)
    requires forall id <- now.products :: IsVersion(st, ps, now.products[id])
    ensures p.id in now.products ==> FreeFor(now, now.products[p.id].barcode, p.id)
    ensures p.active ==> FreeFor(now, p.barcode, p.id)
  {
    assert IsVersion(st, ps, p);
    forall v | IsVersion(st, ps, v) && v.id == p.id ensures FreeFor(now, v.barcode, p.id) {
      if v.barcode in now.barcodeIdx {
        var w := now.products[now.barcodeIdx[v.barcode]];
        assert IsVersion(st, ps, w);
      }
    }
  }

  /** In an exact index the entries are determined by the products. */
  lemma ExactIndexIsDetermined(s: StoreState, t: StoreState)
    requires BarcodeExact(s) && BarcodeExact(t) && s.products == t.products
    ensures s.barcodeIdx == t.barcodeIdx
  {
    forall code | code in s.barcodeIdx ensures code in t.barcodeIdx && t.barcodeIdx[code] == s.barcodeIdx[code] {
      assert Listed(t, s.barcodeIdx[code]);
    }
    forall code | code in t.barcodeIdx ensures code in s.barcodeIdx {
      assert Listed(s, t.barcodeIdx[code]);
    }
  }

  /** The index keys of the sales that one map has over another. */
  ghost function NewKeys(before: map<Id, Sale>, sales: map<Id, Sale>): set<Bytes> {
    set id | id in sales && id !in before && sales[id].reference != [] :: RefKey(sales[id].reference, sales[id].id)
  }

  lemma {:induction false} PulledSalesIndex(st: StoreState, sales: seq<Sale>)
    ensures var r := PulledSales(st, sales); r.refIdx == st.refIdx + NewKeys(st.sales, r.sales)
    ensures forall id <- st.sales :: id in PulledSales(st, sales).sales
  {
    if sales != [] {
      var before, sale := PulledSales(st, sales[..|sales| - 1]), sales[|sales| - 1];
      PulledSalesIndex(st, sales[..|sales| - 1]);
      if sale.id !in before.sales {
        var now := before.sales[sale.id := sale];
        assert NewKeys(st.sales, now) == NewKeys(st.sales, before.sales)
               + if sale.reference != [] then {RefKey(sale.reference, sale.id)} else {} by {
          if sale.reference != [] { assert now[sale.id] == sale; }
          forall key | key in NewKeys(st.sales, before.sales) ensures key in NewKeys(st.sales, now) {
            var id :| id in before.sales && id !in st.sales && before.sales[id].reference != []
                      && key == RefKey(before.sales[id].reference, before.sales[id].id);
            assert now[id] == before.sales[id];
          }
        }
      }
    }
  }

  /** The rows two batches describe are the same set. */
  ghost predicate SameRows(a: Batch, b: Batch) {
    && Elements(a.products) == Elements(b.products)
    && Elements(a.sales) == Elements(b.sales)
    && Elements(a.stockEvents) == Elements(b.stockEvents)
  }

  ghost predicate Consistent(st: StoreState, b: Batch) {
    && OneVersionPerInstant(st.products.Values + Elements(b.products))
    && OneRowPerId(Elements(b.sales), SaleId)
    && OneRowPerId(Elements(b.stockEvents), EventId)
  }

  lemma PulledRowsAgree(st: StoreState, a: Batch, b: Batch)
    requires Keyed(st) && Consistent(st, a) && SameRows(a, b)
    ensures var r, s := ApplyPulled(st, a), ApplyPulled(st, b);
            r.products == s.products && r.sales == s.sales && r.stockEvents == s.stockEvents
  {
    hide ApplyPulled;
    var r, s := ApplyPulled(st, a), ApplyPulled(st, b);
    ApplyPulledRows(st, a);
    ApplyPulledRows(st, b);
    NewestIsUnique(st.products, a.products, b.products, r.products, s.products);
    UnionIsUnique(st.sales, a.sales, b.sales, SaleId, r.sales, s.sales);
    UnionIsUnique(st.stockEvents, a.stockEvents, b.stockEvents, EventId, r.stockEvents, s.stockEvents);
  }

  /** What a pull leaves of each bucket that rows may touch. */
  lemma PulledIndexes(st: StoreState, b: Batch)
    ensures var r := ApplyPulled(st, b);
            && r.barcodeIdx == PulledProducts(st, b.products).barcodeIdx
            && r.products == PulledProducts(st, b.products).products
            && r.refIdx == st.refIdx + NewKeys(st.sales, r.sales)
            && r == ApplyPulled(st, b.(settings := None)).(settings := r.settings)
            && r.settings == WithSettings(st, b.settings).settings
  {
    hide PulledProducts, PulledSales, PulledStockEvents;
    var s1 := PulledProducts(st, b.products);
    var s2 := PulledSales(s1, b.sales);
    PulledProductsFrame(st, b.products);
    PulledSalesFrame(s1, b.sales);
    PulledStockEventsFrame(s2, b.stockEvents);
    PulledSalesIndex(s1, b.sales);
  }

  lemma BatchFrame(st: StoreState, b: Batch)
    ensures var r := ApplyPulled(st, b);
            r == st.(products := r.products, barcodeIdx := r.barcodeIdx, sales := r.sales, refIdx := r.refIdx,
                     stockEvents := r.stockEvents, settings := r.settings)
  {
    hide PulledProducts, PulledSales, PulledStockEvents;
    var s1 := PulledProducts(st, b.products);
    PulledProductsFrame(st, b.products);
    PulledSalesFrame(s1, b.sales);
    PulledStockEventsFrame(PulledSales(s1, b.sales), b.stockEvents);
  }

  /**
   * Order and repetition of a batch's rows do not matter to anything committed
   * but the barcode index, nor to that one when it is exact and the batch's codes
   * clash with none.
   */
  lemma PullOrderIsImmaterial(st: StoreState, a: Batch, b: Batch)
    requires Keyed(st) && Consistent(st, a) && SameRows(a, b)
    ensures var r, s := ApplyPulled(st, a), ApplyPulled(st, b);
            && r == s.(barcodeIdx := r.barcodeIdx, settings := r.settings)
            && (a.settings == b.settings ==> r.settings == s.settings)
            && (BarcodeExact(st) && NoClash(st, a.products) ==> r.barcodeIdx == s.barcodeIdx)
  {
    hide ApplyPulled, WithSettings, Consistent, BarcodeExact, NoClash;
    var r, s := ApplyPulled(st, a), ApplyPulled(st, b);
    PulledRowsAgree(st, a, b);
    PulledIndexes(st, a);
    PulledIndexes(st, b);
    BatchFrame(st, a);
    BatchFrame(st, b);
    if BarcodeExact(st) && NoClash(st, a.products) {
      SameClashes(st, a.products, b.products);
      UnclashedBatchKeepsExact(st, a.products, |a.products|);
      UnclashedBatchKeepsExact(st, b.products, |b.products|);
      assert a.products[..|a.products|] == a.products && b.products[..|b.products|] == b.products;
      ExactIndexIsDetermined(PulledProducts(st, a.products), PulledProducts(st, b.products));
    }
  }

  lemma SameClashes(st: StoreState, ps: seq<Product>, qs: seq<Product>)
    requires Elements(ps) == Elements(qs) && NoClash(st, ps)
    ensures NoClash(st, qs)
  {
    assert forall p :: p in ps <==> p in Elements(ps);
    assert forall p :: p in qs <==> p in Elements(qs);
    assert forall v :: IsVersion(st, ps, v) <==> IsVersion(st, qs, v);
  }
}
