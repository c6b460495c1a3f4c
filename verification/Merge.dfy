/** Applying pulled batches is a join: newest product wins, logs are united, outboxes are untouched. */
module Merge {
  import opened Prelude
  import opened Records
  import opened StoreModel
  import opened StoreInvariants

  /** `r` holds, for each product, the row with the greatest UpdatedAt among the local one and the batch. */
  ghost predicate IsNewest(local: map<Id, Product>, ps: seq<Product>, r: map<Id, Product>) {
    && (forall id <- r :: r[id].id == id && ((id in local && r[id] == local[id]) || r[id] in ps))
    && (forall id <- local :: id in r && local[id].updatedAt <= r[id].updatedAt)
    && (forall p <- ps :: p.id in r && p.updatedAt <= r[p.id].updatedAt)
  }

  /** No two different versions of a product share an UpdatedAt. */
  ghost predicate OneVersionPerInstant(versions: set<Product>) {
    forall p <- versions, q <- versions :: p.id == q.id && p.updatedAt == q.updatedAt ==> p == q
  }

  ghost function Elements<T>(xs: seq<T>): set<T> {
    set x | x in xs
  }

  /** Last write wins on one row; a tie keeps the row already there. */
  function Newer(rows: map<Id, Product>, p: Product): map<Id, Product> {
    if p.id in rows && p.updatedAt <= rows[p.id].updatedAt then rows else rows[p.id := p]
  }

  lemma NewestStep(local: map<Id, Product>, ps: seq<Product>, p: Product, r: map<Id, Product>)
    requires IsNewest(local, ps, r)
    ensures IsNewest(local, ps + [p], Newer(r, p))
  {
  }

  /** A local row that nothing in the batch beats stays as it is. */
  ghost predicate KeepsUnbeaten(local: map<Id, Product>, ps: seq<Product>, r: map<Id, Product>) {
    forall id <- local ::
      id in r && ((forall p <- ps :: p.id == id ==> p.updatedAt <= local[id].updatedAt) ==> r[id] == local[id])
  }

  lemma {:induction false} PulledProductsAreNewest(st: StoreState, ps: seq<Product>)
    requires Keyed(st)
    ensures IsNewest(st.products, ps, PulledProducts(st, ps).products)
    ensures KeepsUnbeaten(st.products, ps, PulledProducts(st, ps).products)
  {
    if ps != [] {
      var init, p := ps[..|ps| - 1], ps[|ps| - 1];
      PulledProductsAreNewest(st, init);
      var r := PulledProducts(st, init).products;
      NewestStep(st.products, init, p, r);
      assert ps == init + [p];
      assert PulledProducts(st, ps).products == Newer(r, p);
    }
  }

  lemma NewestBeatsAll(local: map<Id, Product>, ps: seq<Product>, r: map<Id, Product>, v: Product)
    requires IsNewest(local, ps, r)
    requires (v.id in local && local[v.id] == v) || v in ps
    ensures v.id in r && v.updatedAt <= r[v.id].updatedAt
  {
  }

  lemma NewestAgree(local: map<Id, Product>, ps: seq<Product>, qs: seq<Product>,
                    r: map<Id, Product>, s: map<Id, Product>, id: Id)
    requires OneVersionPerInstant(local.Values + Elements(ps))
    requires forall p :: p in ps <==> p in qs
    requires IsNewest(local, ps, r) && IsNewest(local, qs, s) && id in r
    ensures id in s && r[id] == s[id]
  {
    var v := r[id];
    NewestBeatsAll(local, qs, s, v);
    var w := s[id];
    NewestBeatsAll(local, ps, r, w);
    assert v in local.Values + Elements(ps) && w in local.Values + Elements(ps);
  }

  /** With one version per instant the newest row is unique, so a join depends only on the set of rows. */
  lemma NewestIsUnique(local: map<Id, Product>, ps: seq<Product>, qs: seq<Product>,
                       r: map<Id, Product>, s: map<Id, Product>)
    requires OneVersionPerInstant(local.Values + Elements(ps))
    requires Elements(ps) == Elements(qs)
    requires IsNewest(local, ps, r) && IsNewest(local, qs, s)
    ensures r == s
  {
    assert forall p :: p in ps <==> p in Elements(ps);
    assert forall q :: q in qs <==> q in Elements(qs);
    forall id | id in r ensures id in s && r[id] == s[id] {
      NewestAgree(local, ps, qs, r, s, id);
    }
    forall id | id in s ensures id in r {
      NewestAgree(local, qs, ps, s, r, id);
    }
  }

  ghost predicate IsUnion<T>(local: map<Id, T>, xs: seq<T>, idOf: T -> Id, r: map<Id, T>) {
    && (forall id <- local :: id in r && r[id] == local[id])
    && (forall id <- r :: id in local || (r[id] in xs && idOf(r[id]) == id))
    && (forall x <- xs :: idOf(x) in r)
  }

  lemma {:induction false} PulledSalesAreUnion(st: StoreState, sales: seq<Sale>)
    ensures IsUnion(st.sales, sales, SaleId, PulledSales(st, sales).sales)
  {
    if sales != [] {
      PulledSalesAreUnion(st, sales[..|sales| - 1]);
      assert sales == sales[..|sales| - 1] + [sales[|sales| - 1]];
    }
  }

  lemma {:induction false} PulledStockEventsAreUnion(st: StoreState, evs: seq<StockEvent>)
    ensures IsUnion(st.stockEvents, evs, EventId, PulledStockEvents(st, evs).stockEvents)
  {
    if evs != [] {
      PulledStockEventsAreUnion(st, evs[..|evs| - 1]);
      assert evs == evs[..|evs| - 1] + [evs[|evs| - 1]];
    }
  }

  /** Append-only rows are never reissued: one id, one row. */
  ghost predicate OneRowPerId<T(!new)>(rows: set<T>, idOf: T -> Id) {
    forall x <- rows, y <- rows :: idOf(x) == idOf(y) ==> x == y
  }

  lemma UnionIsUnique<T(!new)>(local: map<Id, T>, xs: seq<T>, ys: seq<T>, idOf: T -> Id, r: map<Id, T>, s: map<Id, T>)
    requires OneRowPerId(Elements(xs), idOf) && Elements(xs) == Elements(ys)
    requires IsUnion(local, xs, idOf, r) && IsUnion(local, ys, idOf, s)
    ensures r == s
  {
    assert forall x :: x in xs <==> x in Elements(xs);
    assert forall y :: y in ys <==> y in Elements(ys);
    forall id | id in r ensures id in s && r[id] == s[id] {
      if id !in local { assert r[id] in Elements(xs); }
    }
    forall id | id in s ensures id in r {
      if id !in local { assert s[id] in Elements(ys); }
    }
  }

  // ---- Frames: which buckets each part of a pull can touch ----

  lemma {:induction false} PulledProductsFrame(st: StoreState, ps: seq<Product>)
    ensures var r := PulledProducts(st, ps); r == st.(products := r.products, barcodeIdx := r.barcodeIdx)
  {
    if ps != [] { PulledProductsFrame(st, ps[..|ps| - 1]); }
  }

  lemma {:induction false} PulledSalesFrame(st: StoreState, sales: seq<Sale>)
    ensures var r := PulledSales(st, sales); r == st.(sales := r.sales, refIdx := r.refIdx)
  {
    if sales != [] { PulledSalesFrame(st, sales[..|sales| - 1]); }
  }

  lemma {:induction false} PulledStockEventsFrame(st: StoreState, evs: seq<StockEvent>)
    ensures var r := PulledStockEvents(st, evs); r == st.(stockEvents := r.stockEvents)
  {
    if evs != [] { PulledStockEventsFrame(st, evs[..|evs| - 1]); }
  }

  /** The rows after a pull, bucket by bucket. */
  lemma ApplyPulledRows(st: StoreState, b: Batch)
    requires Keyed(st)
    ensures var r := ApplyPulled(st, b);
            && IsNewest(st.products, b.products, r.products)
            && IsUnion(st.sales, b.sales, SaleId, r.sales)
            && IsUnion(st.stockEvents, b.stockEvents, EventId, r.stockEvents)
  {
    var s1 := PulledProducts(st, b.products);
    var s2 := PulledSales(s1, b.sales);
    PulledProductsAreNewest(st, b.products);
    PulledProductsFrame(st, b.products);
    PulledSalesAreUnion(s1, b.sales);
    PulledSalesFrame(s1, b.sales);
    PulledStockEventsAreUnion(s2, b.stockEvents);
    PulledStockEventsFrame(s2, b.stockEvents);
  }

  /** A pull never marks anything pending and never moves the cursor, so it cannot echo. */
  lemma PullNeverEchoes(st: StoreState, b: Batch)
    ensures var r := ApplyPulled(st, b);
            && r.pendingProds == st.pendingProds
            && r.pendingSales == st.pendingSales
            && r.pendingStock == st.pendingStock
            && r.settingsDue == st.settingsDue
            && r.cursor == st.cursor
            && r.link == st.link
  {
    PulledProductsFrame(st, b.products);
    PulledSalesFrame(PulledProducts(st, b.products), b.sales);
    PulledStockEventsFrame(PulledSales(PulledProducts(st, b.products), b.sales), b.stockEvents);
  }

  // ---- Splitting a batch ----

  lemma {:induction false} PulledProductsSplit(st: StoreState, a: seq<Product>, b: seq<Product>)
    ensures PulledProducts(st, a + b) == PulledProducts(PulledProducts(st, a), b)
  {
    if b == [] {
      assert a + b == a;
    } else {
      PulledProductsSplit(st, a, b[..|b| - 1]);
      assert (a + b)[..|a + b| - 1] == a + b[..|b| - 1];
    }
  }

  lemma {:induction false} PulledSalesSplit(st: StoreState, a: seq<Sale>, b: seq<Sale>)
    ensures PulledSales(st, a + b) == PulledSales(PulledSales(st, a), b)
  {
    if b == [] {
      assert a + b == a;
    } else {
      PulledSalesSplit(st, a, b[..|b| - 1]);
      assert (a + b)[..|a + b| - 1] == a + b[..|b| - 1];
    }
  }

  lemma {:induction false} PulledStockEventsSplit(st: StoreState, a: seq<StockEvent>, b: seq<StockEvent>)
    ensures PulledStockEvents(st, a + b) == PulledStockEvents(PulledStockEvents(st, a), b)
  {
    if b == [] {
      assert a + b == a;
    } else {
      PulledStockEventsSplit(st, a, b[..|b| - 1]);
      assert (a + b)[..|a + b| - 1] == a + b[..|b| - 1];
    }
  }

  lemma {:induction false} ProductsIgnoreLogs(st: StoreState, other: StoreState, ps: seq<Product>)
    requires other == st.(sales := other.sales, refIdx := other.refIdx, stockEvents := other.stockEvents)
    ensures var r := PulledProducts(st, ps);
            PulledProducts(other, ps) == r.(sales := other.sales, refIdx := other.refIdx, stockEvents := other.stockEvents)
  {
    if ps != [] { ProductsIgnoreLogs(st, other, ps[..|ps| - 1]); }
  }

  lemma {:induction false} SalesIgnoreOthers(st: StoreState, other: StoreState, sales: seq<Sale>)
    requires other == st.(products := other.products, barcodeIdx := other.barcodeIdx, stockEvents := other.stockEvents)
    ensures var r := PulledSales(st, sales);
            PulledSales(other, sales)
            == r.(products := other.products, barcodeIdx := other.barcodeIdx, stockEvents := other.stockEvents)
  {
    if sales != [] { SalesIgnoreOthers(st, other, sales[..|sales| - 1]); }
  }

  lemma {:induction false} EventsIgnoreOthers(st: StoreState, other: StoreState, evs: seq<StockEvent>)
    requires other == st.(products := other.products, barcodeIdx := other.barcodeIdx,
                          sales := other.sales, refIdx := other.refIdx)
    ensures var r := PulledStockEvents(st, evs);
            PulledStockEvents(other, evs)
            == r.(products := other.products, barcodeIdx := other.barcodeIdx,
                  sales := other.sales, refIdx := other.refIdx)
  {
    if evs != [] { EventsIgnoreOthers(st, other, evs[..|evs| - 1]); }
  }

  /**
   * What two settings changes pulled in turn amount to on a till whose marker
   * stands at `due`: each counts unless a later local change waits, the second
   * overlays the first, and the stamp is late enough to count.
   */
  function JoinSettings(due: Option<Time>, a: Option<SettingsChange>, b: Option<SettingsChange>): Option<SettingsChange> {
    if a.None? then b
    else if b.None? then a
    else if due.Some? && a.value.at < due.value then b
    else if due.Some? && b.value.at < due.value then a
    else Some(SettingsChange(a.value.values + b.value.values, if a.value.at < b.value.at then b.value.at else a.value.at))
  }

  function JoinedBatch(due: Option<Time>, a: Batch, b: Batch): Batch {
    Batch(a.products + b.products, a.sales + b.sales, a.stockEvents + b.stockEvents, JoinSettings(due, a.settings, b.settings))
  }

  /** The rows of a batch, its settings aside. */
  function PulledLogs(st: StoreState, b: Batch): StoreState {
    PulledStockEvents(PulledSales(PulledProducts(st, b.products), b.sales), b.stockEvents)
  }

  function WithSettings(st: StoreState, change: Option<SettingsChange>): StoreState {
    if change.None? then st else PulledSettings(st, change.value)
  }

  lemma SettingsJoin(st: StoreState, a: Option<SettingsChange>, b: Option<SettingsChange>)
    ensures WithSettings(WithSettings(st, a), b) == WithSettings(st, JoinSettings(st.settingsDue, a, b))
  {
    hide SYNC_SETTING_KEYS;
    if a.Some? && b.Some? {
      Overlay(st.settings, a.value.values, b.value.values);
    }
  }

  lemma Overlay(m: map<string, string>, a: map<string, string>, b: map<string, string>)
    ensures m + (map k | k in SYNC_SETTING_KEYS && k in a :: a[k]) + (map k | k in SYNC_SETTING_KEYS && k in b :: b[k])
         == m + (map k | k in SYNC_SETTING_KEYS && k in a + b :: (a + b)[k])
  {
    hide SYNC_SETTING_KEYS;
  }

  lemma {:induction false} ProductsIgnoreSettings(st: StoreState, m: map<string, string>, ps: seq<Product>)
    ensures PulledProducts(st.(settings := m), ps) == PulledProducts(st, ps).(settings := m)
  {
    if ps != [] { ProductsIgnoreSettings(st, m, ps[..|ps| - 1]); }
  }

  lemma {:induction false} SalesIgnoreSettings(st: StoreState, m: map<string, string>, sales: seq<Sale>)
    ensures PulledSales(st.(settings := m), sales) == PulledSales(st, sales).(settings := m)
  {
    if sales != [] { SalesIgnoreSettings(st, m, sales[..|sales| - 1]); }
  }

  lemma {:induction false} EventsIgnoreSettings(st: StoreState, m: map<string, string>, evs: seq<StockEvent>)
    ensures PulledStockEvents(st.(settings := m), evs) == PulledStockEvents(st, evs).(settings := m)
  {
    if evs != [] { EventsIgnoreSettings(st, m, evs[..|evs| - 1]); }
  }

  /** Rows and settings touch different buckets, so either may be pulled first. */
  lemma LogsIgnoreSettings(st: StoreState, change: Option<SettingsChange>, b: Batch)
    ensures PulledLogs(WithSettings(st, change), b) == WithSettings(PulledLogs(st, b), change)
    ensures PulledLogs(st, b).settingsDue == st.settingsDue
  {
    hide PulledProducts, PulledSales, PulledStockEvents;
    var m := WithSettings(st, change).settings;
    var s1 := PulledProducts(st, b.products);
    var s2 := PulledSales(s1, b.sales);
    PulledProductsFrame(st, b.products);
    PulledSalesFrame(s1, b.sales);
    PulledStockEventsFrame(s2, b.stockEvents);
    ProductsIgnoreSettings(st, m, b.products);
    SalesIgnoreSettings(s1, m, b.sales);
    EventsIgnoreSettings(s2, m, b.stockEvents);
  }

  lemma LogsMaySplit(st: StoreState, a: Batch, b: Batch)
    ensures PulledLogs(PulledLogs(st, a), b) == PulledLogs(st, JoinedBatch(st.settingsDue, a, b))
  {
    var s1 := PulledProducts(st, a.products);
    var s2 := PulledSales(s1, a.sales);
    var s3 := PulledStockEvents(s2, a.stockEvents);
    PulledSalesFrame(s1, a.sales);
    PulledStockEventsFrame(s2, a.stockEvents);
    // The second batch's products slide in front of the first batch's logs.
    var t1 := PulledProducts(s1, b.products);
    PulledProductsFrame(s1, b.products);
    PulledProductsSplit(st, a.products, b.products);
    ProductsIgnoreLogs(s1, s3, b.products);
    var t2 := PulledSales(t1, a.sales);
    SalesIgnoreOthers(s1, t1, a.sales);
    var u := PulledProducts(s3, b.products);
    assert u == t2.(stockEvents := s3.stockEvents);
    // Its sales slide in front of the first batch's stock events.
    SalesIgnoreOthers(t2, u, b.sales);
    PulledSalesSplit(t1, a.sales, b.sales);
    var t3 := PulledSales(t2, b.sales);
    PulledSalesFrame(t2, b.sales);
    assert PulledSales(u, b.sales) == t3.(stockEvents := s3.stockEvents);
    EventsIgnoreOthers(s2, t3, a.stockEvents);
    assert PulledStockEvents(t3, a.stockEvents) == t3.(stockEvents := s3.stockEvents);
    PulledStockEventsSplit(t3, a.stockEvents, b.stockEvents);
  }

  /** Pulling two batches one after the other commits the very state that pulling their join as one batch does. */
  lemma PullBatchesMaySplit(st: StoreState, a: Batch, b: Batch)
    ensures ApplyPulled(ApplyPulled(st, a), b) == ApplyPulled(st, JoinedBatch(st.settingsDue, a, b))
  {
    hide PulledLogs, PulledSettings, JoinSettings, PulledProducts, PulledSales, PulledStockEvents;
    LogsIgnoreSettings(PulledLogs(st, a), a.settings, b);
    LogsIgnoreSettings(st, None, a);
    LogsMaySplit(st, a, b);
    SettingsJoin(PulledLogs(PulledLogs(st, a), b), a.settings, b.settings);
    AppliedLogs(st, a);
    AppliedLogs(ApplyPulled(st, a), b);
    AppliedLogs(st, JoinedBatch(st.settingsDue, a, b));
  }

  lemma AppliedLogs(st: StoreState, b: Batch)
    ensures ApplyPulled(st, b) == WithSettings(PulledLogs(st, b), b.settings)
  {
  }

  predicate Covers(later: SettingsChange, earlier: SettingsChange) {
    earlier.at <= later.at && earlier.values.Keys * SYNC_SETTING_KEYS <= later.values.Keys
  }

  /** When the second batch's settings are as late and cover the first's, as a cloud's are, they are the join. */
  lemma LaterSettingsAreTheJoin(st: StoreState, a: Batch, b: Batch)
    requires a.settings.Some? ==> b.settings.Some? && Covers(b.settings.value, a.settings.value)
    ensures ApplyPulled(ApplyPulled(st, a), b) == ApplyPulled(st, JoinedBatch(st.settingsDue, a, b).(settings := b.settings))
  {
    hide PulledLogs, JoinSettings, PulledProducts, PulledSales, PulledStockEvents, SYNC_SETTING_KEYS;
    PullBatchesMaySplit(st, a, b);
    var whole := JoinedBatch(st.settingsDue, a, b);
    AppliedLogs(st, whole);
    AppliedLogs(st, whole.(settings := b.settings));
    assert PulledLogs(st, whole) == PulledLogs(st, whole.(settings := b.settings)) by { SameLogs(st, whole, b.settings); }
    LogsIgnoreSettings(st, None, whole);
    CoveringSettings(PulledLogs(st, whole), a.settings, b.settings);
  }

  lemma SameLogs(st: StoreState, b: Batch, change: Option<SettingsChange>)
    ensures PulledLogs(st, b) == PulledLogs(st, b.(settings := change))
  {
  }

  lemma CoveringSettings(st: StoreState, a: Option<SettingsChange>, b: Option<SettingsChange>)
    requires a.Some? ==> b.Some? && Covers(b.value, a.value)
    ensures WithSettings(st, JoinSettings(st.settingsDue, a, b)) == WithSettings(st, b)
  {
    hide SYNC_SETTING_KEYS;
    assert WithSettings(st, JoinSettings(st.settingsDue, a, b)).settings == WithSettings(st, b).settings;
  }

  // ---- Idempotence ----

  lemma {:induction false} OldProductsChangeNothing(st: StoreState, ps: seq<Product>)
    requires forall p <- ps :: p.id in st.products && p.updatedAt <= st.products[p.id].updatedAt
    ensures PulledProducts(st, ps) == st
  {
    if ps != [] { OldProductsChangeNothing(st, ps[..|ps| - 1]); }
  }

  lemma {:induction false} OldSalesChangeNothing(st: StoreState, sales: seq<Sale>)
    requires forall sale <- sales :: sale.id in st.sales
    ensures PulledSales(st, sales) == st
  {
    if sales != [] { OldSalesChangeNothing(st, sales[..|sales| - 1]); }
  }

  lemma {:induction false} OldEventsChangeNothing(st: StoreState, evs: seq<StockEvent>)
    requires forall ev <- evs :: ev.id in st.stockEvents
    ensures PulledStockEvents(st, evs) == st
  {
    if evs != [] { OldEventsChangeNothing(st, evs[..|evs| - 1]); }
  }

  /** After a batch, none of its rows is news. */
  lemma PulledRowsAreOld(st: StoreState, b: Batch)
    requires Keyed(st)
    ensures var r := ApplyPulled(st, b);
            && (forall p <- b.products :: p.id in r.products && p.updatedAt <= r.products[p.id].updatedAt)
            && (forall sale <- b.sales :: sale.id in r.sales)
            && (forall ev <- b.stockEvents :: ev.id in r.stockEvents)
  {
    hide ApplyPulled;
    var r := ApplyPulled(st, b);
    ApplyPulledRows(st, b);
    assert forall sale <- b.sales :: SaleId(sale) in r.sales;
    assert forall ev <- b.stockEvents :: EventId(ev) in r.stockEvents;
  }

  lemma PulledSettingsTwice(st: StoreState, change: SettingsChange)
    ensures PulledSettings(PulledSettings(st, change), change) == PulledSettings(st, change)
  {
    assert PulledSettings(PulledSettings(st, change), change).settings == PulledSettings(st, change).settings;
  }

  /** Re-applying a batch changes nothing at all, indexes and settings included. */
  lemma PullIsIdempotent(st: StoreState, b: Batch)
    requires Keyed(st)
    ensures ApplyPulled(ApplyPulled(st, b), b) == ApplyPulled(st, b)
  {
    var r := ApplyPulled(st, b);
    PulledRowsAreOld(st, b);
    OldProductsChangeNothing(r, b.products);
    OldSalesChangeNothing(r, b.sales);
    OldEventsChangeNothing(r, b.stockEvents);
    if b.settings.Some? {
      hide PulledSettings, PulledProducts, PulledSales, PulledStockEvents;
      PulledSettingsTwice(PulledStockEvents(PulledSales(PulledProducts(st, b.products), b.sales), b.stockEvents), b.settings.value);
    }
  }
}
