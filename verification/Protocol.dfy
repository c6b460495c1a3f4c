/**
 * Many tills and one cloud as a state machine. Each event is one bbolt
 * transaction, one request to the cloud, or a crash, so local writes fall
 * between any two steps of a sync cycle.
 */
module Protocol {
  import opened Prelude
  import opened Records
  import opened StoreModel
  import opened StoreInvariants
  import opened CloudModel

  /** Where a till stands in its sync cycle. */
  datatype Phase =
    | Idle
    | Reading(stage: nat, payload: Batch)  // linked; `stage` of the four outbox reads done
    | ReadyToPush(payload: Batch)
    | Accepted(payload: Batch)             // the cloud replied to the push
    | PushDone
    | ReadyToPull(since: nat)
    | HasReply(since: nat, reply: Reply)
    | Merged(cursor: nat)                  // ApplyPulled committed, SetCursor not yet

  /**
   * One till: its store, its sync phase, and three history sets. `seeds` are the
   * products stored without a mark, `lost` those whose mark was cleared although
   * the stored version is not the one that was pushed, until it is written or
   * replaced again, and `adrift` the payloads of requests the till gave up on,
   * which may reach the cloud yet.
   */
  datatype Device = Device(store: StoreState, phase: Phase, seeds: set<Id>, lost: set<Id>, adrift: set<Batch>)

  /** The whole shop, with the history of every sale, stock event and product version ever written. */
  datatype Shop = Shop(
    devices: seq<Device>,
    cloud: Cloud,
    madeSales: map<Id, Sale>,
    madeEvents: map<Id, StockEvent>,
    versions: set<Product>)

  const NOTHING := Batch([], [], [], None)

  datatype Event =
    | Local(d: nat, op: LocalOp)
    | Begin(d: nat)
    | ReadProducts(d: nat, products: seq<Product>)
    | ReadSales(d: nat, sales: seq<Sale>)
    | ReadStockEvents(d: nat, events: seq<StockEvent>)
    | ReadSettings(d: nat)
    | Push(d: nat, replied: bool)
    | Clear(d: nat)
    | ReadCursor(d: nat)
    | Pull(d: nat, reply: Reply)
    | Apply(d: nat)
    | Finish(d: nat)
    | Record(d: nat, at: Time, message: string)
    | Abort(d: nat)                        // a crash, a timeout, or an error that ends the cycle
    | Late(d: nat, payload: Batch)         // the cloud applies an abandoned push after all

  ghost predicate Init(s: Shop) {
    && s.cloud == EMPTY_CLOUD
    && s.madeSales == map[] && s.madeEvents == map[] && s.versions == {}
    && forall dev <- s.devices :: dev == Device(EMPTY, Idle, {}, {}, {})
  }

  /** The ids a write mints are new to the whole shop. */
  ghost predicate FreshInShop(s: Shop, op: LocalOp) {
    match op
    case AddProduct(_, _, newId, eventId, _) =>
      (forall v <- s.versions :: v.id != newId) && eventId !in s.madeEvents
    case UpdateProduct(_, _, eventId, _) => eventId !in s.madeEvents
    case CreateSale(_, saleId, _) => saleId !in s.madeSales && NulFree(saleId)
    case Restock(_, _, eventId, _) => eventId !in s.madeEvents
    case _ => true
  }

  ghost function AfterLocal(dev: Device, op: LocalOp): Device {
    var st := Run(dev.store, op);
    var added := st.products.Keys - dev.store.products.Keys;
    dev.(store := st, seeds := dev.seeds + added - st.pendingProds, lost := dev.lost - st.pendingProds)
  }

  ghost function ProductIds(ps: seq<Product>): set<Id> {
    set p | p in ps :: p.id
  }

  ghost function SaleIds(sales: seq<Sale>): set<Id> {
    set sale | sale in sales :: sale.id
  }

  ghost function EventIds(evs: seq<StockEvent>): set<Id> {
    set ev | ev in evs :: ev.id
  }

  function SettingsStamp(b: Batch): Option<Time> {
    match b.settings
    case None => None
    case Some(change) => Some(change.at)
  }

  ghost function AfterClear(st: StoreState, b: Batch): StoreState {
    ClearPushed(st, ProductIds(b.products), SaleIds(b.sales), EventIds(b.stockEvents), SettingsStamp(b))
  }

  /** The products whose stored version is not the one in the payload. */
  ghost function EditedSince(st: StoreState, ps: seq<Product>): set<Id> {
    set p | p in ps && p.id in st.products && st.products[p.id] != p :: p.id
  }

  /** The products that a merge replaced by another version. */
  ghost function Replaced(st: StoreState, st': StoreState): set<Id> {
    set id | id in st.products && id in st'.products && st'.products[id] != st.products[id]
  }

  ghost function AfterMerge(dev: Device, reply: Reply): Device {
    var st := ApplyPulled(dev.store, reply.batch);
    dev.(store := st, phase := Merged(reply.cursor), lost := dev.lost - Replaced(dev.store, st))
  }

  /** The products a push cycle has in hand. */
  function Carried(phase: Phase): seq<Product> {
    match phase
    case Reading(_, b) => b.products
    case ReadyToPush(b) => b.products
    case Accepted(b) => b.products
    case _ => []
  }

  /** The payload of a request that may have been sent and is not answered. */
  function Requested(phase: Phase): set<Batch> {
    if phase.ReadyToPush? then {phase.payload} else {}
  }

  /** One step of a till's sync cycle: what it needs, and what it leaves. */
  ghost predicate SyncStep(dev: Device, c: Cloud, e: Event, dev': Device, c': Cloud)
    requires !e.Local?
  {
    var st, phase := dev.store, dev.phase;
    && (!e.Push? && !e.Late? ==> c' == c)
    && match e
       case Begin(_) =>
         phase == Idle && st.link.Some? && dev' == dev.(phase := Reading(0, NOTHING))
       case ReadProducts(_, ps) =>
         phase.Reading? && phase.stage == 0 && Lists(ps, st.products, st.pendingProds)
         && dev' == dev.(phase := Reading(1, phase.payload.(products := ps)))
       case ReadSales(_, sales) =>
         phase.Reading? && phase.stage == 1 && Lists(sales, st.sales, st.pendingSales)
         && dev' == dev.(phase := Reading(2, phase.payload.(sales := sales)))
       case ReadStockEvents(_, evs) =>
         phase.Reading? && phase.stage == 2 && Lists(evs, st.stockEvents, st.pendingStock)
         && dev' == dev.(phase := Reading(3, phase.payload.(stockEvents := evs)))
       case ReadSettings(_) =>
         phase.Reading? && phase.stage == 3
         && var payload := phase.payload.(settings := PendingSettings(st));
            dev' == dev.(phase := if payload == NOTHING then PushDone else ReadyToPush(payload))
       case Push(_, replied) =>
         phase.ReadyToPush? && c' == ApplyPush(c, phase.payload)
         && dev' == dev.(phase := if replied then Accepted(phase.payload) else Idle)
       case Clear(_) =>
         phase.Accepted?
         && dev' == dev.(store := AfterClear(st, phase.payload), phase := PushDone,
                         lost := dev.lost + EditedSince(st, phase.payload.products))
       case ReadCursor(_) =>
         phase == PushDone && dev' == dev.(phase := ReadyToPull(st.cursor))
       case Pull(_, reply) =>
         phase.ReadyToPull? && IsPull(c, phase.since, reply)
         && dev' == dev.(phase := HasReply(phase.since, reply))
       case Apply(_) =>
         phase.HasReply?
         && dev' == AfterMerge(dev, phase.reply)
       case Finish(_) =>
         phase.Merged? && dev' == dev.(store := st.(cursor := phase.cursor), phase := Idle)
       case Record(_, at, message) =>
         dev' == dev.(store := st.(lastSync := Some(at), lastError := message))
       case Abort(_) =>
         dev' == dev.(phase := Idle, adrift := dev.adrift + Requested(phase))
       case Late(_, payload) =>
         payload in dev.adrift && c' == ApplyPush(c, payload) && dev' == dev
  }

  ghost predicate Step(s: Shop, e: Event, s': Shop) {
    && e.d < |s.devices| == |s'.devices|
    && var dev, dev' := s.devices[e.d], s'.devices[e.d];
       if e.Local? then
         && FreshInShop(s, e.op)
         && dev' == AfterLocal(dev, e.op)
         && s' == Shop(s.devices[e.d := dev'], s.cloud, s.madeSales + dev'.store.sales,
                       s.madeEvents + dev'.store.stockEvents, s.versions + dev'.store.products.Values)
       else
         && SyncStep(dev, s.cloud, e, dev', s'.cloud)
         && s' == s.(devices := s.devices[e.d := dev'], cloud := s'.cloud)
  }

  /** Consecutive states joined by events. */
  ghost predicate Steps(ss: seq<Shop>, es: seq<Event>) {
    && |ss| == |es| + 1
    && forall i | 0 <= i < |es| :: Step(ss[i], es[i], ss[i + 1])
  }

  /** A run: the states it passes through and the events between them. */
  ghost predicate Trace(ss: seq<Shop>, es: seq<Event>) {
    Steps(ss, es) && Init(ss[0])
  }
}
