/**
 * Once writes stop, one completed sync round on every till and then one more
 * brings every till to the same sales, stock events, on-hand and products.
 */
module Convergence {
  import opened Prelude
  import opened Records
  import opened StoreModel
  import opened StoreInvariants
  import opened CloudModel
  import opened Protocol
  import opened Merge
  import opened LogSafety
  import opened Catalogue
  import opened LostEdits

  /** No local write happens from event `a` on. */
  ghost predicate QuietFrom(es: seq<Event>, a: nat) {
    forall i | a <= i < |es| :: !es[i].Local?
  }

  /** Till `d` starts and completes a sync cycle within events [a, b). */
  ghost predicate CompletesRound(es: seq<Event>, d: nat, a: nat, b: nat) {
    exists i, j | a <= i < j < b <= |es| :: es[i] == Begin(d) && es[j] == Finish(d)
  }

  ghost predicate AllComplete(s: Shop, es: seq<Event>, a: nat, b: nat) {
    forall d | 0 <= d < |s.devices| :: CompletesRound(es, d, a, b)
  }

  // ---- A quiet round drains the outbox ----

  /** The outbox is empty and no settings change waits. */
  ghost predicate Drained(st: StoreState) {
    st.pendingProds == {} && st.pendingSales == {} && st.pendingStock == {} && st.settingsDue.None?
  }

  ghost predicate CarriesMarks(st: StoreState, b: Batch, stage: nat) {
    && (stage >= 1 ==> st.pendingProds <= ProductIds(b.products))
    && (stage >= 2 ==> st.pendingSales <= SaleIds(b.sales))
    && (stage >= 3 ==> st.pendingStock <= EventIds(b.stockEvents))
    && (stage >= 4 && st.settingsDue.Some? ==> b.settings.Some? && st.settingsDue.value <= b.settings.value.at)
  }

  /** What a cycle begun after the last write still has to clear is what it carries. */
  ghost predicate Fresh(dev: Device) {
    match dev.phase
    case Idle => true
    case Reading(stage, b) => stage <= 3 && CarriesMarks(dev.store, b, stage)
    case ReadyToPush(b) => CarriesMarks(dev.store, b, 4)
    case Accepted(b) => CarriesMarks(dev.store, b, 4)
    case _ => Drained(dev.store)
  }

  lemma ListsCarry(st: StoreState, ps: seq<Product>, sales: seq<Sale>, evs: seq<StockEvent>)
    requires Inv(st)
    ensures Lists(ps, st.products, st.pendingProds) ==> st.pendingProds <= ProductIds(ps)
    ensures Lists(sales, st.sales, st.pendingSales) ==> st.pendingSales <= SaleIds(sales)
    ensures Lists(evs, st.stockEvents, st.pendingStock) ==> st.pendingStock <= EventIds(evs)
  {
    if Lists(ps, st.products, st.pendingProds) {
      forall id | id in st.pendingProds ensures id in ProductIds(ps) { assert st.products[id] in ps; }
    }
    if Lists(sales, st.sales, st.pendingSales) {
      forall id | id in st.pendingSales ensures id in SaleIds(sales) { assert st.sales[id] in sales; }
    }
    if Lists(evs, st.stockEvents, st.pendingStock) {
      forall id | id in st.pendingStock ensures id in EventIds(evs) { assert st.stockEvents[id] in evs; }
    }
  }

  lemma QuietStepKeepsFresh(dev: Device, c: Cloud, e: Event, dev': Device, c': Cloud)
    requires !e.Local? && SyncStep(dev, c, e, dev', c') && Inv(dev.store)
    requires Fresh(dev)
    ensures Fresh(dev')
  {
    if e.Apply? { PullNeverEchoes(dev.store, dev.phase.reply.batch); }
    if e.ReadProducts? { ListsCarry(dev.store, e.products, [], []); }
    if e.ReadSales? { ListsCarry(dev.store, [], e.sales, []); }
    if e.ReadStockEvents? { ListsCarry(dev.store, [], [], e.events); }
  }

  // ---- A drained till stays drained and pushes nothing ----

  ghost predicate Settled(dev: Device) {
    && Drained(dev.store)
    && match dev.phase
       case Reading(_, b) => b == NOTHING
       case ReadyToPush(b) => b == NOTHING
       case Accepted(b) => b == NOTHING
       case _ => true
  }

  lemma NothingMarkedNothingListed<T>(out: seq<T>, rows: map<Id, T>)
    requires Lists(out, rows, {})
    ensures out == []
  {
    assert rows.Keys * {} == {};
  }

  lemma QuietStepKeepsSettled(dev: Device, c: Cloud, e: Event, dev': Device, c': Cloud)
    requires !e.Local? && SyncStep(dev, c, e, dev', c') && Settled(dev)
    ensures Settled(dev') && (!e.Late? ==> c' == c)
  {
    if e.Apply? { PullNeverEchoes(dev.store, dev.phase.reply.batch); }
    if e.ReadProducts? { NothingMarkedNothingListed(e.products, dev.store.products); }
    if e.ReadSales? { NothingMarkedNothingListed(e.sales, dev.store.sales); }
    if e.ReadStockEvents? { NothingMarkedNothingListed(e.events, dev.store.stockEvents); }
  }

  // ---- A round begun when the cloud stood at n ends with the cursor at n or past it ----

  ghost predicate PullsUpTo(dev: Device, n: nat) {
    match dev.phase
    case HasReply(_, r) => n <= r.cursor
    case Merged(m) => n <= m
    case _ => true
  }

  lemma StepKeepsPullsUpTo(dev: Device, c: Cloud, e: Event, dev': Device, c': Cloud, n: nat)
    requires !e.Local? && SyncStep(dev, c, e, dev', c') && n <= c.last && PullsUpTo(dev, n)
    ensures PullsUpTo(dev', n)
    ensures e.Finish? || n <= dev.store.cursor ==> n <= dev'.store.cursor
  {
    if e.Apply? { PullNeverEchoes(dev.store, dev.phase.reply.batch); }
  }

  // ---- Along a quiet stretch of a run ----

  lemma QuietStep(ss: seq<Shop>, es: seq<Event>, a: nat, k: nat, d: nat)
    requires Trace(ss, es) && QuietFrom(es, a) && a <= k < |es| && d < |ss[k].devices|
    ensures |ss[k + 1].devices| == |ss[k].devices| && !es[k].Local?
    ensures ss[k + 1].madeSales == ss[k].madeSales && ss[k + 1].madeEvents == ss[k].madeEvents
    ensures es[k].d == d ==> SyncStep(ss[k].devices[d], ss[k].cloud, es[k], ss[k + 1].devices[d], ss[k + 1].cloud)
    ensures es[k].d != d ==> ss[k + 1].devices[d] == ss[k].devices[d]
    ensures Inv(ss[k].devices[d].store)
    ensures ss[k].cloud.last <= ss[k + 1].cloud.last
  {
    TraceIsSafe(ss, es, k);
    assert Step(ss[k], es[k], ss[k + 1]);
    SyncKeepsSafe(ss[k], es[k], ss[k + 1]);
    assert ss[k].devices[d] in ss[k].devices;
    assert DeviceOk(ss[k].devices[d], ss[k].cloud, ss[k].madeSales, ss[k].madeEvents);
  }

  lemma {:induction false} SameTills(ss: seq<Shop>, es: seq<Event>, k: nat)
    requires Trace(ss, es) && k < |ss|
    ensures |ss[k].devices| == |ss[0].devices|
  {
    if k > 0 {
      SameTills(ss, es, k - 1);
      assert Step(ss[k - 1], es[k - 1], ss[k]);
    }
  }

  lemma FreshNext(ss: seq<Shop>, es: seq<Event>, a: nat, k: nat, d: nat)
    requires Trace(ss, es) && QuietFrom(es, a) && a <= k < |es| && d < |ss[k].devices|
    requires Fresh(ss[k].devices[d]) || es[k] == Begin(d)
    ensures d < |ss[k + 1].devices| && Fresh(ss[k + 1].devices[d])
  {
    QuietStep(ss, es, a, k, d);
    if es[k].d == d && !es[k].Begin? {
      QuietStepKeepsFresh(ss[k].devices[d], ss[k].cloud, es[k], ss[k + 1].devices[d], ss[k + 1].cloud);
    }
  }

  lemma {:induction false} FreshAfterBegin(ss: seq<Shop>, es: seq<Event>, a: nat, d: nat, i: nat, k: nat)
    requires Trace(ss, es) && QuietFrom(es, a) && d < |ss[0].devices|
    requires a <= i < |es| && es[i] == Begin(d) && i < k < |ss|
    ensures d < |ss[k].devices| && Fresh(ss[k].devices[d])
  {
    SameTills(ss, es, k - 1);
    if k - 1 > i {
      FreshAfterBegin(ss, es, a, d, i, k - 1);
    }
    FreshNext(ss, es, a, k - 1, d);
  }

  lemma FinishSettles(ss: seq<Shop>, es: seq<Event>, a: nat, d: nat, i: nat, j: nat)
    requires Trace(ss, es) && QuietFrom(es, a) && d < |ss[0].devices|
    requires a <= i < j < |es| && es[i] == Begin(d) && es[j] == Finish(d)
    ensures d < |ss[j + 1].devices| && Settled(ss[j + 1].devices[d])
  {
    FreshAfterBegin(ss, es, a, d, i, j);
    QuietStep(ss, es, a, j, d);
  }

  lemma {:induction false} SettledStays(ss: seq<Shop>, es: seq<Event>, a: nat, d: nat, j: nat, k: nat)
    requires Trace(ss, es) && QuietFrom(es, a) && d < |ss[0].devices|
    requires a <= j <= k < |ss| && d < |ss[j].devices| && Settled(ss[j].devices[d])
    ensures d < |ss[k].devices| && Settled(ss[k].devices[d])
  {
    hide Step, Init, QuietFrom, Settled, SyncStep;
    if j < k {
      SettledStays(ss, es, a, d, j, k - 1);
      QuietStep(ss, es, a, k - 1, d);
      if es[k - 1].d == d {
        QuietStepKeepsSettled(ss[k - 1].devices[d], ss[k - 1].cloud, es[k - 1], ss[k].devices[d], ss[k].cloud);
      }
    }
  }

  ghost predicate AllSettled(s: Shop) {
    forall d | 0 <= d < |s.devices| :: Settled(s.devices[d])
  }

  /** After every till has completed a round, every outbox is empty and stays so. */
  lemma RoundSettlesAll(ss: seq<Shop>, es: seq<Event>, a: nat, b: nat, k: nat)
    requires Trace(ss, es) && QuietFrom(es, a) && a <= b <= k < |ss|
    requires AllComplete(ss[0], es, a, b)
    ensures AllSettled(ss[k])
  {
    SameTills(ss, es, k);
    forall d | 0 <= d < |ss[k].devices| ensures Settled(ss[k].devices[d]) {
      assert CompletesRound(es, d, a, b);
      var i, j :| a <= i < j < b <= |es| && es[i] == Begin(d) && es[j] == Finish(d);
      FinishSettles(ss, es, a, d, i, j);
      SettledStays(ss, es, a, d, j + 1, k);
    }
  }

  /** The cloud's sales and stock events stand still and its numbers only rise. */
  ghost predicate LogsStand(c: Cloud, c': Cloud) {
    c'.sales == c.sales && c'.stockEvents == c.stockEvents && c.last <= c'.last
  }

  lemma {:induction false} KnownSalesChangeNothing(c: Cloud, sales: seq<Sale>)
    requires forall sale <- sales :: sale.id in c.sales
    ensures PutSales(c, sales) == c
  {
    if sales != [] { KnownSalesChangeNothing(c, sales[..|sales| - 1]); }
  }

  lemma {:induction false} KnownEventsChangeNothing(c: Cloud, evs: seq<StockEvent>)
    requires forall ev <- evs :: ev.id in c.stockEvents
    ensures PutStockEvents(c, evs) == c
  {
    if evs != [] { KnownEventsChangeNothing(c, evs[..|evs| - 1]); }
  }

  lemma {:induction false} OldProductsChangeNothing(c: Cloud, ps: seq<Product>)
    requires forall p <- ps :: InCloud(p, c.products)
    ensures PutProducts(c, ps) == c
  {
    if ps != [] {
      assert ps[|ps| - 1] in ps;
      OldProductsChangeNothing(c, ps[..|ps| - 1]);
    }
  }

  /** A push that arrives late, from a till with nothing marked, adds nothing to the cloud's logs. */
  lemma LatePushAddsNoLogs(dev: Device, c: Cloud, sales: map<Id, Sale>, events: map<Id, StockEvent>, b: Batch)
    requires DeviceOk(dev, c, sales, events) && Drained(dev.store) && b in dev.adrift
    ensures LogsStand(c, ApplyPush(c, b))
  {
    hide Inv;
    var c1 := PutProducts(c, b.products);
    PutProductsEffect(c, b.products);
    assert forall sale <- b.sales :: SaleId(sale) in dev.store.sales;
    assert forall ev <- b.stockEvents :: EventId(ev) in dev.store.stockEvents;
    KnownSalesChangeNothing(c1, b.sales);
    KnownEventsChangeNothing(c1, b.stockEvents);
  }

  /** Nor, when its clocks moved forward, anything to the products: no row changes at all. */
  lemma LatePushAddsNoRows(dev: Device, c: Cloud, sales: map<Id, Sale>, events: map<Id, StockEvent>, b: Batch)
    requires DeviceOk(dev, c, sales, events) && CatalogueOk(dev, c) && Drained(dev.store) && b in dev.adrift
    ensures ApplyPush(c, b) == if b.settings.Some? then PutSettings(c, b.settings.value) else c
  {
    hide Inv;
    OldProductsChangeNothing(c, b.products);
    assert forall sale <- b.sales :: SaleId(sale) in dev.store.sales;
    assert forall ev <- b.stockEvents :: EventId(ev) in dev.store.stockEvents;
    KnownSalesChangeNothing(c, b.sales);
    KnownEventsChangeNothing(c, b.stockEvents);
  }

  lemma CloudFreezesNext(ss: seq<Shop>, es: seq<Event>, a: nat, k: nat)
    requires Trace(ss, es) && QuietFrom(es, a) && a <= k < |es| && AllSettled(ss[k])
    ensures LogsStand(ss[k].cloud, ss[k + 1].cloud)
    ensures !es[k].Late? ==> ss[k + 1].cloud == ss[k].cloud
    ensures ss[k + 1].madeSales == ss[k].madeSales && ss[k + 1].madeEvents == ss[k].madeEvents
  {
    assert Step(ss[k], es[k], ss[k + 1]);
    var d := es[k].d;
    assert Settled(ss[k].devices[d]);
    QuietStepKeepsSettled(ss[k].devices[d], ss[k].cloud, es[k], ss[k + 1].devices[d], ss[k + 1].cloud);
    if es[k].Late? {
      TraceIsSafe(ss, es, k);
      TillFacts(ss[k], d);
      LatePushAddsNoLogs(ss[k].devices[d], ss[k].cloud, ss[k].madeSales, ss[k].madeEvents, es[k].payload);
    }
  }

  /** From then on neither the cloud's logs nor the history changes, whatever push arrives late and whatever the clocks do. */
  lemma {:induction false} CloudFreezes(ss: seq<Shop>, es: seq<Event>, a: nat, b: nat, k: nat)
    requires Trace(ss, es) && QuietFrom(es, a) && a <= b <= k < |ss|
    requires AllComplete(ss[0], es, a, b)
    ensures LogsStand(ss[b].cloud, ss[k].cloud)
    ensures ss[k].madeSales == ss[b].madeSales && ss[k].madeEvents == ss[b].madeEvents
  {
    if b < k {
      CloudFreezes(ss, es, a, b, k - 1);
      RoundSettlesAll(ss, es, a, b, k - 1);
      CloudFreezesNext(ss, es, a, k - 1);
    }
  }

  /** Nor, when clocks move forward, do the cloud's products. */
  lemma {:induction false} ProductsFreeze(ss: seq<Shop>, es: seq<Event>, a: nat, b: nat, k: nat)
    requires DisciplinedTrace(ss, es) && QuietFrom(es, a) && a <= b <= k < |ss|
    requires AllComplete(ss[0], es, a, b)
    ensures ss[k].cloud.products == ss[b].cloud.products
  {
    hide Step, Init, Disciplined, QuietFrom, Settled;
    if b < k {
      ProductsFreeze(ss, es, a, b, k - 1);
      RoundSettlesAll(ss, es, a, b, k - 1);
      RestingStep(ss, es, a, k - 1);
    }
  }

  /** Once every till has settled, a step changes no row of the cloud, and anything at all only if it is a late push of settings. */
  lemma RestingStep(ss: seq<Shop>, es: seq<Event>, a: nat, k: nat)
    requires DisciplinedTrace(ss, es) && QuietFrom(es, a) && a <= k < |es| && AllSettled(ss[k])
    ensures ss[k + 1].cloud.products == ss[k].cloud.products && LogsStand(ss[k].cloud, ss[k + 1].cloud)
    ensures !(es[k].Late? && es[k].payload.settings.Some?) ==> ss[k + 1].cloud == ss[k].cloud
  {
    hide Disciplined, Safe, Inv;
    CloudFreezesNext(ss, es, a, k);
    if es[k].Late? {
      assert Step(ss[k], es[k], ss[k + 1]);
      TraceIsSafe(ss, es, k);
      TraceIsTidy(ss, es, k);
      var dev := ss[k].devices[es[k].d];
      TillFacts(ss[k], es[k].d);
      assert dev in ss[k].devices && CatalogueOk(dev, ss[k].cloud) && Settled(dev);
      LatePushAddsNoRows(dev, ss[k].cloud, ss[k].madeSales, ss[k].madeEvents, es[k].payload);
    }
  }

  lemma PullsNext(ss: seq<Shop>, es: seq<Event>, a: nat, k: nat, d: nat, n: nat)
    requires Trace(ss, es) && QuietFrom(es, a) && a <= k < |es| && d < |ss[k].devices|
    requires n <= ss[k].cloud.last && (PullsUpTo(ss[k].devices[d], n) || es[k] == Begin(d))
    ensures d < |ss[k + 1].devices| && PullsUpTo(ss[k + 1].devices[d], n) && n <= ss[k + 1].cloud.last
    ensures es[k] == Finish(d) || n <= ss[k].devices[d].store.cursor ==> n <= ss[k + 1].devices[d].store.cursor
  {
    QuietStep(ss, es, a, k, d);
    if es[k].d == d && !es[k].Begin? {
      StepKeepsPullsUpTo(ss[k].devices[d], ss[k].cloud, es[k], ss[k + 1].devices[d], ss[k + 1].cloud, n);
    }
  }

  lemma {:induction false} PullsAfterBegin(ss: seq<Shop>, es: seq<Event>, a: nat, d: nat, n: nat, i: nat, k: nat)
    requires Trace(ss, es) && QuietFrom(es, a) && d < |ss[0].devices|
    requires a <= i < k < |ss| && es[i] == Begin(d) && n <= ss[i].cloud.last
    ensures d < |ss[k].devices| && PullsUpTo(ss[k].devices[d], n) && n <= ss[k].cloud.last
  {
    SameTills(ss, es, k - 1);
    if k - 1 > i {
      PullsAfterBegin(ss, es, a, d, n, i, k - 1);
    }
    PullsNext(ss, es, a, k - 1, d, n);
  }

  /** After a till finishes a round begun with the cloud at n, its cursor never falls below n. */
  lemma {:induction false} CursorReaches(ss: seq<Shop>, es: seq<Event>, a: nat, d: nat, n: nat, i: nat, j: nat, k: nat)
    requires Trace(ss, es) && QuietFrom(es, a) && d < |ss[0].devices|
    requires a <= i < j < k < |ss| && es[i] == Begin(d) && es[j] == Finish(d) && n <= ss[i].cloud.last
    ensures d < |ss[k].devices| && n <= ss[k].devices[d].store.cursor
  {
    hide Step, PullsUpTo, Init, QuietFrom;
    PullsAfterBegin(ss, es, a, d, n, i, k - 1);
    if k - 1 > j {
      CursorReaches(ss, es, a, d, n, i, j, k - 1);
    }
    PullsNext(ss, es, a, k - 1, d, n);
  }

  // ---- Convergence ----

  /** Writes stopped at `a`; every till completed a round before `b`, and then `d` completed one more. */
  ghost predicate TwoRounds(ss: seq<Shop>, es: seq<Event>, a: nat, b: nat, d: nat) {
    && Trace(ss, es) && QuietFrom(es, a) && a <= b <= |es| && d < |ss[0].devices|
    && AllComplete(ss[0], es, a, b)
    && CompletesRound(es, d, b, |es|)
  }

  lemma CursorsReachFrozenCloud(ss: seq<Shop>, es: seq<Event>, a: nat, b: nat, d: nat)
    requires TwoRounds(ss, es, a, b, d)
    ensures d < |ss[|es|].devices| && ss[b].cloud.last <= ss[|es|].devices[d].store.cursor
  {
    var i, j :| b <= i < j < |es| && es[i] == Begin(d) && es[j] == Finish(d);
    CloudFreezes(ss, es, a, b, i);
    CursorReaches(ss, es, a, d, ss[b].cloud.last, i, j, |es|);
  }

  /** With every outbox empty, whatever any till ever wrote is in the cloud. */
  lemma SettledMeansUploaded(s: Shop)
    requires Safe(s) && AllSettled(s)
    ensures forall id <- s.madeSales :: id in s.cloud.sales
    ensures forall id <- s.madeEvents :: id in s.cloud.stockEvents
  {
    forall id | id in s.madeSales ensures id in s.cloud.sales {
      var d :| 0 <= d < |s.devices| && id in s.devices[d].store.sales;
      assert s.devices[d] in s.devices && DeviceOk(s.devices[d], s.cloud, s.madeSales, s.madeEvents);
      assert Settled(s.devices[d]);
    }
    forall id | id in s.madeEvents ensures id in s.cloud.stockEvents {
      var d :| 0 <= d < |s.devices| && id in s.devices[d].store.stockEvents;
      assert s.devices[d] in s.devices && DeviceOk(s.devices[d], s.cloud, s.madeSales, s.madeEvents);
      assert Settled(s.devices[d]);
    }
  }

  /** A genuine log that reflects a complete cloud is the whole history. */
  lemma CompleteLog<T>(local: map<Id, T>, made: map<Id, T>, cloud: map<Id, Row<T>>, last: nat, cursor: nat)
    requires Genuine(local, made) && Reflected(local, cloud, cursor) && CloudGenuine(cloud, made, last)
    requires last <= cursor && forall id <- made :: id in cloud
    ensures local == made
  {
  }

  /**
   * Every till ends with exactly the sales and stock events ever written anywhere,
   * and so derives the same on-hand for every product. Clocks do not matter.
   */
  lemma LogsConverge(ss: seq<Shop>, es: seq<Event>, a: nat, b: nat, d: nat)
    requires TwoRounds(ss, es, a, b, d)
    ensures var t := ss[|es|];
            && d < |t.devices|
            && t.devices[d].store.sales == t.madeSales
            && t.devices[d].store.stockEvents == t.madeEvents
  {
    var t := ss[|es|];
    CursorsReachFrozenCloud(ss, es, a, b, d);
    CloudFreezes(ss, es, a, b, |es|);
    RoundSettlesAll(ss, es, a, b, |es|);
    TraceIsSafe(ss, es, b);
    TraceIsSafe(ss, es, |es|);
    SettledMeansUploaded(t);
    var dev := t.devices[d];
    assert dev in t.devices && DeviceOk(dev, t.cloud, t.madeSales, t.madeEvents);
    CompleteLog(dev.store.sales, t.madeSales, t.cloud.sales, ss[b].cloud.last, dev.store.cursor);
    CompleteLog(dev.store.stockEvents, t.madeEvents, t.cloud.stockEvents, ss[b].cloud.last, dev.store.cursor);
  }

  lemma OnHandConverges(ss: seq<Shop>, es: seq<Event>, a: nat, b: nat, d: nat, d': nat, productId: Id)
    requires TwoRounds(ss, es, a, b, d) && TwoRounds(ss, es, a, b, d')
    ensures var t := ss[|es|];
            && d < |t.devices| && d' < |t.devices|
            && OnHand(t.devices[d].store, productId) == OnHand(t.devices[d'].store, productId)
  {
    LogsConverge(ss, es, a, b, d);
    LogsConverge(ss, es, a, b, d');
  }

  /**
   * Every till ends with the cloud's version of a cloud-held product, tombstones
   * included, exactly when its own mark was not lost: when no edit of its own,
   * since unreplaced, slipped in between an outbox read and the clear.
   */
  lemma ProductsConverge(ss: seq<Shop>, es: seq<Event>, a: nat, b: nat, d: nat, id: Id)
    requires TwoRounds(ss, es, a, b, d) && DisciplinedTrace(ss, es)
    requires id in ss[|es|].cloud.products
    ensures var t := ss[|es|];
            && d < |t.devices| && id in t.devices[d].store.products
            && (t.devices[d].store.products[id] == t.cloud.products[id].value <==> id !in t.devices[d].lost)
  {
    hide Safe, Disciplined, Unsent, Step;
    var t := ss[|es|];
    CursorsReachFrozenCloud(ss, es, a, b, d);
    ProductsFreeze(ss, es, a, b, |es|);
    RoundSettlesAll(ss, es, a, b, |es|);
    TraceIsSafe(ss, es, |es|);
    TraceIsTidy(ss, es, b);
    TraceIsTidy(ss, es, |es|);
    TillFacts(t, d);
    var dev := t.devices[d];
    assert dev in t.devices && CatalogueOk(dev, t.cloud) && KnownOn(dev, t.versions) && Settled(dev);
    assert ss[b].cloud.products[id].seqNo <= ss[b].cloud.last;
    if id in dev.lost {
      TraceKeepsPrivate(ss, es, |es|);
      LostIsPrivate(t, d, id);
    } else {
      var mine, theirs := dev.store.products[id], t.cloud.products[id].value;
      assert InCloud(mine, t.cloud.products);
      assert mine in t.versions && theirs in t.versions && mine.updatedAt == theirs.updatedAt;
    }
  }
}
