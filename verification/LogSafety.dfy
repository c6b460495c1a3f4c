/**
 * Sales and stock events over whole runs: nothing is ever lost, and no till
 * ever advances its cursor past a row it lacks. No assumption about clocks.
 */
module LogSafety {
  import opened Prelude
  import opened Records
  import opened StoreModel
  import opened StoreInvariants
  import opened CloudModel
  import opened Protocol
  import opened Merge

  /** Every cloud row numbered up to `upTo` is held locally. */
  ghost predicate Reflected<T>(local: map<Id, T>, cloud: map<Id, Row<T>>, upTo: nat) {
    forall id <- cloud :: cloud[id].seqNo <= upTo ==> id in local
  }

  /** Every local row is marked for push or already in the cloud. */
  ghost predicate Covered<T>(local: map<Id, T>, marks: set<Id>, cloud: map<Id, Row<T>>) {
    forall id <- local :: id in marks || id in cloud
  }

  /** A copy of rows that really were written. */
  ghost predicate Genuine<T>(rows: map<Id, T>, made: map<Id, T>) {
    forall id <- rows :: id in made && made[id] == rows[id]
  }

  ghost predicate CloudGenuine<T>(cloud: map<Id, Row<T>>, made: map<Id, T>, last: nat) {
    forall id <- cloud :: id in made && made[id] == cloud[id].value && cloud[id].seqNo <= last
  }

  ghost predicate LogOk<T>(made: map<Id, T>, local: map<Id, T>, marks: set<Id>, cloud: map<Id, Row<T>>, cursor: nat) {
    Genuine(local, made) && Covered(local, marks, cloud) && Reflected(local, cloud, cursor)
  }

  /** The rows of a payload are the till's own. */
  ghost predicate Carries<T>(xs: seq<T>, idOf: T -> Id, local: map<Id, T>) {
    forall x <- xs :: idOf(x) in local && local[idOf(x)] == x
  }

  ghost predicate Uploaded<T>(xs: seq<T>, idOf: T -> Id, cloud: map<Id, Row<T>>) {
    forall x <- xs :: idOf(x) in cloud
  }

  /** A reply in flight: its rows are cloud rows, and it spans everything between `since` and its cursor. */
  ghost predicate ReplyOk<T>(xs: seq<T>, idOf: T -> Id, cloud: map<Id, Row<T>>, since: nat, cursor: nat) {
    && (forall x <- xs :: idOf(x) in cloud && cloud[idOf(x)].value == x)
    && (forall id <- cloud :: since < cloud[id].seqNo <= cursor ==> cloud[id].value in xs)
  }

  ghost predicate PayloadOk(st: StoreState, b: Batch) {
    Carries(b.sales, SaleId, st.sales) && Carries(b.stockEvents, EventId, st.stockEvents)
  }

  ghost predicate UpTo(st: StoreState, c: Cloud, n: nat) {
    n <= c.last && Reflected(st.sales, c.sales, n) && Reflected(st.stockEvents, c.stockEvents, n)
  }

  ghost predicate PhaseOk(dev: Device, c: Cloud) {
    var st := dev.store;
    match dev.phase
    case Idle => true
    case Reading(_, b) => PayloadOk(st, b)
    case ReadyToPush(b) => PayloadOk(st, b)
    case Accepted(b) =>
      PayloadOk(st, b) && Uploaded(b.sales, SaleId, c.sales) && Uploaded(b.stockEvents, EventId, c.stockEvents)
    case PushDone => true
    case ReadyToPull(since) => UpTo(st, c, since)
    case HasReply(since, r) =>
      && UpTo(st, c, since)
      && since <= r.cursor <= c.last
      && ReplyOk(r.batch.sales, SaleId, c.sales, since, r.cursor)
      && ReplyOk(r.batch.stockEvents, EventId, c.stockEvents, since, r.cursor)
    case Merged(n) => UpTo(st, c, n)
  }

  ghost predicate DeviceOk(dev: Device, c: Cloud, sales: map<Id, Sale>, events: map<Id, StockEvent>) {
    && Inv(dev.store)
    && dev.store.cursor <= c.last
    && LogOk(sales, dev.store.sales, dev.store.pendingSales, c.sales, dev.store.cursor)
    && LogOk(events, dev.store.stockEvents, dev.store.pendingStock, c.stockEvents, dev.store.cursor)
    && PhaseOk(dev, c)
    && forall b <- dev.adrift :: PayloadOk(dev.store, b)
  }

  /** Every sale and stock event ever written sits on at least one till. */
  ghost predicate Held(s: Shop) {
    && (forall id <- s.madeSales :: exists d :: 0 <= d < |s.devices| && id in s.devices[d].store.sales)
    && (forall id <- s.madeEvents :: exists d :: 0 <= d < |s.devices| && id in s.devices[d].store.stockEvents)
  }

  ghost predicate HistoryOk(s: Shop) {
    && (forall id <- s.madeSales :: s.madeSales[id].id == id && NulFree(id))
    && (forall id <- s.madeEvents :: s.madeEvents[id].id == id)
    && CloudGenuine(s.cloud.sales, s.madeSales, s.cloud.last)
    && CloudGenuine(s.cloud.stockEvents, s.madeEvents, s.cloud.last)
  }

  ghost predicate Safe(s: Shop) {
    && HistoryOk(s)
    && Held(s)
    && forall dev <- s.devices :: DeviceOk(dev, s.cloud, s.madeSales, s.madeEvents)
  }

  /** What the shop invariant says of one till. */
  lemma TillFacts(s: Shop, d: nat)
    requires Safe(s) && d < |s.devices|
    ensures DeviceOk(s.devices[d], s.cloud, s.madeSales, s.madeEvents)
    ensures Inv(s.devices[d].store) && Keyed(s.devices[d].store) && MarksAreStored(s.devices[d].store)
    ensures Genuine(s.devices[d].store.sales, s.madeSales) && Genuine(s.devices[d].store.stockEvents, s.madeEvents)
    ensures HistoryOk(s) && Held(s)
  {
    assert s.devices[d] in s.devices;
  }

  // ---- Product copies ----

  ghost predicate KnownRows(ps: seq<Product>, versions: set<Product>) {
    forall p <- ps :: p in versions
  }

  /** Every product a till stores or carries was written by some till. */
  ghost predicate KnownOn(dev: Device, versions: set<Product>) {
    && dev.store.products.Values <= versions
    && (forall b <- dev.adrift :: KnownRows(b.products, versions))
    && match dev.phase
       case Reading(_, b) => KnownRows(b.products, versions)
       case ReadyToPush(b) => KnownRows(b.products, versions)
       case Accepted(b) => KnownRows(b.products, versions)
       case HasReply(_, r) => KnownRows(r.batch.products, versions)
       case _ => true
  }

  ghost predicate Known(s: Shop) {
    && (forall id <- s.cloud.products :: s.cloud.products[id].value in s.versions)
    && forall dev <- s.devices :: KnownOn(dev, s.versions)
  }

  lemma ApplyKeepsKnown(st: StoreState, b: Batch, versions: set<Product>)
    requires Keyed(st) && st.products.Values <= versions && KnownRows(b.products, versions)
    ensures ApplyPulled(st, b).products.Values <= versions
  {
    ApplyPulledRows(st, b);
    var r := ApplyPulled(st, b);
    forall v | v in r.products.Values ensures v in versions {
      var id :| id in r.products && r.products[id] == v;
      assert (id in st.products && st.products[id] == v) || v in b.products;
    }
  }

  lemma SyncKeepsKnown(dev: Device, c: Cloud, e: Event, dev': Device, c': Cloud, versions: set<Product>)
    requires !e.Local? && SyncStep(dev, c, e, dev', c') && Keyed(dev.store) && KnownOn(dev, versions)
    requires forall id <- c.products :: c.products[id].value in versions
    ensures KnownOn(dev', versions)
    ensures forall id <- c'.products :: c'.products[id].value in versions
  {
    if e.Apply? {
      ApplyKeepsKnown(dev.store, dev.phase.reply.batch, versions);
    }
    if e.Push? {
      PushKeepsCloudKnown(c, dev.phase.payload, versions);
    }
    if e.Late? {
      PushKeepsCloudKnown(c, e.payload, versions);
    }
  }

  lemma KnownGrows(dev: Device, versions: set<Product>, more: set<Product>)
    requires KnownOn(dev, versions) && versions <= more
    ensures KnownOn(dev, more)
  {
  }

  lemma StaysKnown(s: Shop, s': Shop, d: nat, dev': Device)
    requires Known(s) && d < |s.devices| && s'.devices == s.devices[d := dev']
    requires s.versions <= s'.versions && KnownOn(dev', s'.versions)
    requires forall id <- s'.cloud.products :: s'.cloud.products[id].value in s'.versions
    ensures Known(s')
  {
    forall dv | dv in s'.devices ensures KnownOn(dv, s'.versions) {
      if dv != dev' {
        assert dv in s.devices;
        KnownGrows(dv, s.versions, s'.versions);
      }
    }
  }

  lemma PushKeepsCloudKnown(c: Cloud, b: Batch, versions: set<Product>)
    requires KnownRows(b.products, versions) && forall id <- c.products :: c.products[id].value in versions
    ensures forall id <- ApplyPush(c, b).products :: ApplyPush(c, b).products[id].value in versions
  {
    ApplyPushEffect(c, b);
  }

  lemma StepKeepsKnown(s: Shop, e: Event, s': Shop)
    requires Safe(s) && Known(s) && Step(s, e, s')
    ensures Known(s')
  {
    hide SyncStep, KnownOn, Safe, Keyed, Run;
    var dev, dev' := s.devices[e.d], s'.devices[e.d];
    TillFacts(s, e.d);
    assert dev in s.devices && KnownOn(dev, s.versions);
    if e.Local? {
      LocalKeepsKnown(dev, e.op, s.versions);
    } else {
      SyncKeepsKnown(dev, s.cloud, e, dev', s'.cloud, s.versions);
    }
    StaysKnown(s, s', e.d, dev');
  }

  lemma LocalKeepsKnown(dev: Device, op: LocalOp, versions: set<Product>)
    requires KnownOn(dev, versions)
    ensures KnownOn(AfterLocal(dev, op), versions + AfterLocal(dev, op).store.products.Values)
  {
    hide Run;
  }

  lemma OnlyPushTouchesCloud(dev: Device, c: Cloud, e: Event, dev': Device, c': Cloud)
    requires !e.Local? && SyncStep(dev, c, e, dev', c')
    ensures !e.Push? && !e.Late? ==> c' == c
  {
  }

  // ---- Frames ----

  /** A till that did not move keeps its invariant while the cloud and the history grow. */
  lemma DeviceOkGrows(dev: Device, c: Cloud, sales: map<Id, Sale>, events: map<Id, StockEvent>,
                      c': Cloud, sales': map<Id, Sale>, events': map<Id, StockEvent>)
    requires DeviceOk(dev, c, sales, events) && Grows(c, c')
    requires Genuine(sales, sales') && Genuine(events, events')
    ensures DeviceOk(dev, c', sales', events')
  {
  }

  lemma StaysSafe(s: Shop, s': Shop, d: nat, dev': Device)
    requires Safe(s) && d < |s.devices|
    requires s'.devices == s.devices[d := dev']
    requires Grows(s.cloud, s'.cloud)
    requires Genuine(s.madeSales, s'.madeSales) && Genuine(s.madeEvents, s'.madeEvents)
    requires HistoryOk(s') && Held(s')
    requires DeviceOk(dev', s'.cloud, s'.madeSales, s'.madeEvents)
    ensures Safe(s')
  {
    forall dev | dev in s'.devices ensures DeviceOk(dev, s'.cloud, s'.madeSales, s'.madeEvents) {
      if dev != dev' {
        assert dev in s.devices;
        DeviceOkGrows(dev, s.cloud, s.madeSales, s.madeEvents, s'.cloud, s'.madeSales, s'.madeEvents);
      }
    }
  }

  // ---- Local writes ----

  /** A log after a local write: at most freshly named rows are added, and each is marked. */
  ghost predicate Appended<T>(local: map<Id, T>, marks: set<Id>, local': map<Id, T>, marks': set<Id>, made: map<Id, T>) {
    && (forall id <- local :: id in local' && local'[id] == local[id])
    && (forall id <- local' :: id in local || (id !in made && id in marks'))
    && marks <= marks'
  }

  lemma EventAppends(st: StoreState, ev: StockEvent, made: map<Id, StockEvent>)
    requires ev.id !in made && Genuine(st.stockEvents, made)
    ensures var r := AppendStockEvent(st, ev);
            Appended(st.stockEvents, st.pendingStock, r.stockEvents, r.pendingStock, made)
  {
  }

  ghost predicate LogsAppend(s: Shop, st: StoreState, r: StoreState) {
    && Appended(st.sales, st.pendingSales, r.sales, r.pendingSales, s.madeSales)
    && Appended(st.stockEvents, st.pendingStock, r.stockEvents, r.pendingStock, s.madeEvents)
    && r.cursor <= st.cursor
  }

  lemma AddAppends(s: Shop, st: StoreState, d: ProductDraft, pending: bool, id: Id, eventId: Id, now: Time)
    requires eventId !in s.madeEvents && Genuine(st.stockEvents, s.madeEvents)
    ensures LogsAppend(s, st, AfterAdd(st, d, pending, id, eventId, now))
  {
    EventAppends(st, StockEvent(eventId, id, d.stock, Initial, now), s.madeEvents);
  }

  lemma UpdateAppends(s: Shop, st: StoreState, id: Id, d: ProductDraft, eventId: Id, now: Time)
    requires id in st.products && eventId !in s.madeEvents && Genuine(st.stockEvents, s.madeEvents)
    ensures LogsAppend(s, st, AfterUpdate(st, id, d, eventId, now))
  {
    EventAppends(st, StockEvent(eventId, id, d.stock - OnHand(st, id), Adjustment, now), s.madeEvents);
  }

  lemma RunAppends(s: Shop, st: StoreState, op: LocalOp)
    requires FreshInShop(s, op) && Genuine(st.sales, s.madeSales) && Genuine(st.stockEvents, s.madeEvents)
    ensures LogsAppend(s, st, Run(st, op))
  {
    match op
    case CreateSale(input, saleId, now) => BuiltSaleId(st, input, saleId, now);
    case AddProduct(d, pending, id, eventId, now) => AddAppends(s, st, d, pending, id, eventId, now);
    case UpdateProduct(id, d, eventId, now) =>
      if id in st.products { UpdateAppends(s, st, id, d, eventId, now); }
    case DeleteProduct(_, _) =>
    case Restock(id, qty, eventId, now) => EventAppends(st, StockEvent(eventId, id, qty, Restocked, now), s.madeEvents);
    case SetSetting(_, _, _) =>
    case Link(_) =>
    case Unlink =>
  }

  lemma AppendKeepsLog<T>(made: map<Id, T>, local: map<Id, T>, marks: set<Id>, cloud: map<Id, Row<T>>, cursor: nat,
                          local': map<Id, T>, marks': set<Id>, cursor': nat)
    requires LogOk(made, local, marks, cloud, cursor)
    requires Appended(local, marks, local', marks', made) && cursor' <= cursor
    ensures LogOk(made + local', local', marks', cloud, cursor') && Genuine(made, made + local')
  {
  }

  lemma FreshOnDevice(s: Shop, dev: Device, op: LocalOp)
    requires FreshInShop(s, op) && KnownOn(dev, s.versions)
    requires Inv(dev.store) && Genuine(dev.store.sales, s.madeSales) && Genuine(dev.store.stockEvents, s.madeEvents)
    ensures FreshIds(dev.store, op)
  {
    assert forall id <- dev.store.products :: dev.store.products[id] in s.versions;
  }

  lemma LocalKeepsHistory(s: Shop, e: Event, s': Shop)
    requires Safe(s) && e.Local? && Step(s, e, s') && Inv(s'.devices[e.d].store)
    requires Genuine(s.madeSales, s'.madeSales) && Genuine(s.madeEvents, s'.madeEvents)
    ensures HistoryOk(s')
  {
  }

  /** Rows stay held when the moving till drops none and every new row is its own. */
  lemma StaysHeld(s: Shop, s': Shop, d: nat, dev': Device)
    requires Held(s) && d < |s.devices| && s'.devices == s.devices[d := dev']
    requires s.devices[d].store.sales.Keys <= dev'.store.sales.Keys
    requires s.devices[d].store.stockEvents.Keys <= dev'.store.stockEvents.Keys
    requires s'.madeSales.Keys <= s.madeSales.Keys + dev'.store.sales.Keys
    requires s'.madeEvents.Keys <= s.madeEvents.Keys + dev'.store.stockEvents.Keys
    ensures Held(s')
  {
    forall id | id in s'.madeSales
      ensures exists j :: 0 <= j < |s'.devices| && id in s'.devices[j].store.sales
    {
      var j :| (j == d && id in dev'.store.sales)
               || (0 <= j < |s.devices| && id in s.devices[j].store.sales);
      assert id in s'.devices[j].store.sales;
    }
    forall id | id in s'.madeEvents
      ensures exists j :: 0 <= j < |s'.devices| && id in s'.devices[j].store.stockEvents
    {
      var j :| (j == d && id in dev'.store.stockEvents)
               || (0 <= j < |s.devices| && id in s.devices[j].store.stockEvents);
      assert id in s'.devices[j].store.stockEvents;
    }
  }

  /** A local write interleaves harmlessly with whatever the sync cycle is carrying. */
  lemma LocalKeepsPhase(dev: Device, dev': Device, c: Cloud)
    requires PhaseOk(dev, c) && dev'.phase == dev.phase
    requires Genuine(dev.store.sales, dev'.store.sales) && Genuine(dev.store.stockEvents, dev'.store.stockEvents)
    ensures PhaseOk(dev', c)
  {
  }

  lemma LocalKeepsSafe(s: Shop, e: Event, s': Shop)
    requires Safe(s) && Known(s) && e.Local? && Step(s, e, s')
    ensures Safe(s')
  {
    hide Run, Inv, HistoryOk, Held, KnownOn;
    var dev, dev' := s.devices[e.d], s'.devices[e.d];
    var st, st' := dev.store, dev'.store;
    assert dev in s.devices && KnownOn(dev, s.versions) && DeviceOk(dev, s.cloud, s.madeSales, s.madeEvents);
    RunAppends(s, st, e.op);
    FreshOnDevice(s, dev, e.op);
    RunKeepsInv(st, e.op);
    AppendKeepsLog(s.madeSales, st.sales, st.pendingSales, s.cloud.sales, st.cursor, st'.sales, st'.pendingSales, st'.cursor);
    AppendKeepsLog(s.madeEvents, st.stockEvents, st.pendingStock, s.cloud.stockEvents, st.cursor,
                   st'.stockEvents, st'.pendingStock, st'.cursor);
    LocalKeepsHistory(s, e, s');
    StaysHeld(s, s', e.d, dev');
    LocalKeepsPhase(dev, dev', s.cloud);
    StaysSafe(s, s', e.d, dev');
  }

  // ---- Sync steps ----

  lemma GrowsReflexively(c: Cloud)
    ensures Grows(c, c)
  {
  }

  lemma PushKeepsHistory(s: Shop, b: Batch, s': Shop)
    requires HistoryOk(s) && PushEffect(s.cloud, b, s'.cloud)
    requires s'.madeSales == s.madeSales && s'.madeEvents == s.madeEvents
    requires forall sale <- b.sales :: sale.id in s.madeSales && s.madeSales[sale.id] == sale
    requires forall ev <- b.stockEvents :: ev.id in s.madeEvents && s.madeEvents[ev.id] == ev
    ensures HistoryOk(s')
  {
  }

  lemma PushStepFacts(dev: Device, c: Cloud, e: Event, dev': Device, c': Cloud)
    requires e.Push? && SyncStep(dev, c, e, dev', c')
    ensures dev.phase.ReadyToPush? && c' == ApplyPush(c, dev.phase.payload)
    ensures dev' == dev.(phase := if e.replied then Accepted(dev.phase.payload) else Idle)
  {
  }

  lemma PushStepSafe(s: Shop, e: Event, s': Shop)
    requires Safe(s) && e.Push? && Step(s, e, s')
    ensures Grows(s.cloud, s'.cloud) && HistoryOk(s')
    ensures DeviceOk(s'.devices[e.d], s'.cloud, s.madeSales, s.madeEvents)
  {
    hide ApplyPush, Inv, Held, Keyed, MarksAreStored, SyncStep, LogOk, CloudGenuine, PushEffect;
    var dev, dev' := s.devices[e.d], s'.devices[e.d];
    PushStepFacts(dev, s.cloud, e, dev', s'.cloud);
    var b := dev.phase.payload;
    TillFacts(s, e.d);
    ApplyPushEffect(s.cloud, b);
    PushGrows(s.cloud, b, s'.cloud);
    assert PayloadOk(dev.store, b);
    PushKeepsHistory(s, b, s');
    DeviceOkGrows(dev, s.cloud, s.madeSales, s.madeEvents, s'.cloud, s'.madeSales, s'.madeEvents);
  }

  /** A push that arrives late brings the cloud only rows the till still has. */
  lemma LateStepSafe(s: Shop, e: Event, s': Shop)
    requires Safe(s) && e.Late? && Step(s, e, s')
    ensures Grows(s.cloud, s'.cloud) && HistoryOk(s')
    ensures DeviceOk(s'.devices[e.d], s'.cloud, s.madeSales, s.madeEvents)
  {
    hide ApplyPush, Inv, Held, Keyed, MarksAreStored, LogOk, CloudGenuine, PushEffect;
    var dev := s.devices[e.d];
    TillFacts(s, e.d);
    ApplyPushEffect(s.cloud, e.payload);
    PushGrows(s.cloud, e.payload, s'.cloud);
    assert PayloadOk(dev.store, e.payload);
    PushKeepsHistory(s, e.payload, s');
    DeviceOkGrows(dev, s.cloud, s.madeSales, s.madeEvents, s'.cloud, s'.madeSales, s'.madeEvents);
  }

  lemma PushGrows(c: Cloud, b: Batch, c': Cloud)
    requires PushEffect(c, b, c')
    ensures Grows(c, c') && Uploaded(b.sales, SaleId, c'.sales) && Uploaded(b.stockEvents, EventId, c'.stockEvents)
  {
  }

  /** Clearing only removes marks of rows the cloud has. */
  lemma ClearKeepsCovered<T>(local: map<Id, T>, marks: set<Id>, cloud: map<Id, Row<T>>, cleared: set<Id>)
    requires Covered(local, marks, cloud) && forall id <- cleared :: id in cloud
    ensures Covered(local, marks - cleared, cloud)
  {
  }

  lemma ClearStepSafe(dev: Device, c: Cloud, sales: map<Id, Sale>, events: map<Id, StockEvent>, e: Event, dev': Device)
    requires DeviceOk(dev, c, sales, events) && e.Clear? && SyncStep(dev, c, e, dev', c)
    ensures DeviceOk(dev', c, sales, events)
  {
    var st, b := dev.store, dev.phase.payload;
    assert forall sale <- b.sales :: SaleId(sale) in c.sales;
    assert forall ev <- b.stockEvents :: EventId(ev) in c.stockEvents;
    ClearKeepsCovered(st.sales, st.pendingSales, c.sales, SaleIds(b.sales));
    ClearKeepsCovered(st.stockEvents, st.pendingStock, c.stockEvents, EventIds(b.stockEvents));
    ClearPushedKeepsInv(st, ProductIds(b.products), SaleIds(b.sales), EventIds(b.stockEvents), SettingsStamp(b));
  }

  /** Merging a reply keeps the log genuine and covered, and reflects everything up to the reply's cursor. */
  lemma MergeKeepsLog<T>(made: map<Id, T>, local: map<Id, T>, marks: set<Id>, cloud: map<Id, Row<T>>, last: nat,
                         cursor: nat, since: nat, upTo: nat, xs: seq<T>, idOf: T -> Id, local': map<Id, T>)
    requires LogOk(made, local, marks, cloud, cursor) && CloudGenuine(cloud, made, last)
    requires Reflected(local, cloud, since) && ReplyOk(xs, idOf, cloud, since, upTo)
    requires forall id <- cloud :: idOf(cloud[id].value) == id
    requires IsUnion(local, xs, idOf, local')
    ensures LogOk(made, local', marks, cloud, cursor) && Reflected(local', cloud, upTo)
  {
  }

  lemma ApplyStepFacts(dev: Device, c: Cloud, e: Event, dev': Device)
    requires e.Apply? && SyncStep(dev, c, e, dev', c)
    ensures dev.phase.HasReply? && dev' == AfterMerge(dev, dev.phase.reply)
  {
  }

  /** Sales that a reply brings were written by some till, under ids free of NUL. */
  lemma RepliedSalesAreGenuine(s: Shop, sales: seq<Sale>, since: nat, cursor: nat)
    requires HistoryOk(s) && ReplyOk(sales, SaleId, s.cloud.sales, since, cursor)
    ensures forall sale <- sales :: NulFree(sale.id)
    ensures forall id <- s.cloud.sales :: SaleId(s.cloud.sales[id].value) == id
    ensures forall id <- s.cloud.stockEvents :: EventId(s.cloud.stockEvents[id].value) == id
    ensures CloudGenuine(s.cloud.sales, s.madeSales, s.cloud.last) && CloudGenuine(s.cloud.stockEvents, s.madeEvents, s.cloud.last)
  {
    forall sale <- sales ensures NulFree(sale.id) {
      assert SaleId(sale) in s.madeSales;
    }
  }

  lemma ApplyStepSafe(s: Shop, dev: Device, e: Event, dev': Device)
    requires HistoryOk(s) && DeviceOk(dev, s.cloud, s.madeSales, s.madeEvents)
    requires e.Apply? && SyncStep(dev, s.cloud, e, dev', s.cloud)
    ensures DeviceOk(dev', s.cloud, s.madeSales, s.madeEvents)
  {
    hide ApplyPulled, SyncStep, HistoryOk, LogOk, ReplyOk, CloudGenuine, Reflected, IsUnion, IsNewest, MarksAreStored;
    var st, st', c := dev.store, dev'.store, s.cloud;
    ApplyStepFacts(dev, c, e, dev');
    var since, r := dev.phase.since, dev.phase.reply;
    RepliedSalesAreGenuine(s, r.batch.sales, since, r.cursor);
    ApplyPulledRows(st, r.batch);
    PullNeverEchoes(st, r.batch);
    ApplyPulledKeepsInv(st, r.batch);
    MergeKeepsLog(s.madeSales, st.sales, st.pendingSales, c.sales, c.last, st.cursor, since, r.cursor,
                  r.batch.sales, SaleId, st'.sales);
    MergeKeepsLog(s.madeEvents, st.stockEvents, st.pendingStock, c.stockEvents, c.last, st.cursor, since, r.cursor,
                  r.batch.stockEvents, EventId, st'.stockEvents);
  }

  lemma PullStepSafe(s: Shop, dev: Device, e: Event, dev': Device)
    requires HistoryOk(s) && DeviceOk(dev, s.cloud, s.madeSales, s.madeEvents)
    requires e.Pull? && SyncStep(dev, s.cloud, e, dev', s.cloud)
    ensures DeviceOk(dev', s.cloud, s.madeSales, s.madeEvents)
  {
    var c, since, r := s.cloud, dev.phase.since, e.reply;
    assert ReplyOk(r.batch.sales, SaleId, c.sales, since, r.cursor);
    assert ReplyOk(r.batch.stockEvents, EventId, c.stockEvents, since, r.cursor);
  }

  /** The steps that leave every row, mark and cloud row alone. */
  ghost predicate KeepsRows(dev: Device, c: Cloud, e: Event, dev': Device) {
    && !e.Local? && !e.Push? && !e.Late? && !e.Clear? && !e.Pull? && !e.Apply?
    && SyncStep(dev, c, e, dev', c)
  }

  /** The status fields and the cursor take no part in the store's own invariants. */
  lemma StatusIsFree(st: StoreState, cursor: nat, at: Option<Time>, message: string)
    requires Inv(st)
    ensures Inv(st.(cursor := cursor)) && Inv(st.(lastSync := at, lastError := message))
  {
  }

  lemma ListedRowsAreOwn(st: StoreState, sales: seq<Sale>, evs: seq<StockEvent>)
    requires Keyed(st)
    ensures Lists(sales, st.sales, st.pendingSales) ==> Carries(sales, SaleId, st.sales)
    ensures Lists(evs, st.stockEvents, st.pendingStock) ==> Carries(evs, EventId, st.stockEvents)
  {
  }

  lemma ReadStepSafe(dev: Device, c: Cloud, sales: map<Id, Sale>, events: map<Id, StockEvent>, e: Event, dev': Device)
    requires DeviceOk(dev, c, sales, events) && Keyed(dev.store) && KeepsRows(dev, c, e, dev')
    ensures DeviceOk(dev', c, sales, events)
  {
    hide Inv, Keyed, Lists, Genuine, Covered;
    if e.ReadSales? { ListedRowsAreOwn(dev.store, e.sales, []); }
    if e.ReadStockEvents? { ListedRowsAreOwn(dev.store, [], e.events); }
    if e.Finish? { StatusIsFree(dev.store, dev.phase.cursor, None, ""); }
    if e.Record? { StatusIsFree(dev.store, 0, Some(e.at), e.message); }
  }

  lemma SyncKeepsSafe(s: Shop, e: Event, s': Shop)
    requires Safe(s) && !e.Local? && Step(s, e, s')
    ensures Safe(s') && Grows(s.cloud, s'.cloud)
  {
    hide DeviceOk, Inv, Keyed, SyncStep, Grows, HistoryOk, Held, Genuine;
    var dev, dev' := s.devices[e.d], s'.devices[e.d];
    TillFacts(s, e.d);
    OnlyPushTouchesCloud(dev, s.cloud, e, dev', s'.cloud);
    GrowsReflexively(s.cloud);
    GenuineReflexively(s.madeSales);
    GenuineReflexively(s.madeEvents);
    if e.Push? {
      PushStepSafe(s, e, s');
    } else if e.Late? {
      LateStepSafe(s, e, s');
    } else if e.Clear? {
      ClearStepSafe(dev, s.cloud, s.madeSales, s.madeEvents, e, dev');
    } else if e.Pull? {
      PullStepSafe(s, dev, e, dev');
    } else if e.Apply? {
      ApplyStepSafe(s, dev, e, dev');
    } else {
      ReadStepSafe(dev, s.cloud, s.madeSales, s.madeEvents, e, dev');
    }
    SyncKeepsRows(dev, s.cloud, e, dev', s'.cloud);
    StaysHeld(s, s', e.d, dev');
    HistoryIgnoresTills(s, s');
    StaysSafe(s, s', e.d, dev');
  }

  lemma GenuineReflexively<T>(made: map<Id, T>)
    ensures Genuine(made, made)
  {
  }

  lemma HistoryIgnoresTills(s: Shop, s': Shop)
    requires HistoryOk(s) && s'.madeSales == s.madeSales && s'.madeEvents == s.madeEvents
    ensures s'.cloud == s.cloud ==> HistoryOk(s')
  {
  }

  lemma SyncKeepsRows(dev: Device, c: Cloud, e: Event, dev': Device, c': Cloud)
    requires !e.Local? && SyncStep(dev, c, e, dev', c') && Keyed(dev.store)
    ensures dev.store.sales.Keys <= dev'.store.sales.Keys
    ensures dev.store.stockEvents.Keys <= dev'.store.stockEvents.Keys
  {
    if e.Apply? { ApplyPulledRows(dev.store, dev.phase.reply.batch); }
  }

  lemma InitIsSafe(s: Shop)
    requires Init(s)
    ensures Safe(s) && Known(s)
  {
    EmptyIsValid();
  }

  /** Every state of every run is safe. */
  lemma {:induction false} TraceIsSafe(ss: seq<Shop>, es: seq<Event>, i: nat)
    requires Trace(ss, es) && i < |ss|
    ensures Safe(ss[i]) && Known(ss[i])
  {
    if i == 0 {
      InitIsSafe(ss[0]);
    } else {
      TraceIsSafe(ss, es, i - 1);
      var s, e, s' := ss[i - 1], es[i - 1], ss[i];
      assert Step(s, e, s');
      StepKeepsKnown(s, e, s');
      if e.Local? { LocalKeepsSafe(s, e, s'); } else { SyncKeepsSafe(s, e, s'); }
    }
  }
}
