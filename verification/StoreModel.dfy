/**
 * The buckets of one till as a value, and what every store operation does to
 * them. One function application is one committed bbolt transaction.
 */
module StoreModel {
  import opened Prelude
  import opened Records
  import opened Sums
  import Tax

  datatype CloudLink = CloudLink(baseUrl: string, shopId: string, email: string, token: string)

  datatype StoreState = StoreState(
    products: map<Id, Product>,
    sales: map<Id, Sale>,
    stockEvents: map<Id, StockEvent>,
    settings: map<string, string>,
    barcodeIdx: map<Bytes, Id>,
    refIdx: set<Bytes>,
    pendingProds: set<Id>,
    pendingSales: set<Id>,
    pendingStock: set<Id>,
    settingsDue: Option<Time>,
    link: Option<CloudLink>,
    cursor: nat,
    lastSync: Option<Time>,
    lastError: string)

  const EMPTY := StoreState(map[], map[], map[], map[], map[], {}, {}, {}, {}, None, None, 0, None, "")

  const KEY_TAX_RATE_BPS := "tax_rate_bps"
  const KEY_TAX_MODE := "tax_mode"

  /** Settings that belong to the shop rather than to the device. */
  const SYNC_SETTING_KEYS: set<string> := {
    "shop_name", "paper_width", "barcode_scanner", "receipt_theme",
    "receipt_header", "receipt_footer", KEY_TAX_RATE_BPS, KEY_TAX_MODE
  }

  const DEFAULTS: map<string, string> := map[
    "shop_name" := "My Shop",
    "paper_width" := "80",
    "printer_addr" := "",
    "barcode_scanner" := "off",
    "receipt_theme" := "classic",
    "receipt_header" := "",
    "receipt_footer" := "Asante sana\nThank you",
    "has_logo" := "no",
    KEY_TAX_RATE_BPS := "0",
    KEY_TAX_MODE := "none"
  ]

  // ---- On-hand stock ----

  function QtySold(items: seq<SaleItem>, productId: Id): int {
    if items == [] then 0
    else
      var last := items[|items| - 1];
      QtySold(items[..|items| - 1], productId) + if last.productId == productId then last.qty else 0
  }

  function DeltaFor(productId: Id): StockEvent -> int {
    (ev: StockEvent) => if ev.productId == productId then ev.delta else 0
  }

  function SoldFor(productId: Id): Sale -> int {
    (sale: Sale) => QtySold(sale.items, productId)
  }

  /** The signed on-hand of a product: its stock events minus what the sales sold. */
  ghost function OnHand(st: StoreState, productId: Id): int {
    SumOver(st.stockEvents, DeltaFor(productId)) - SumOver(st.sales, SoldFor(productId))
  }

  function Max0(n: int): int {
    if n < 0 then 0 else n
  }

  // ---- Local writes ----

  /** A committed local write; ids and instants come from the environment. */
  datatype LocalOp =
    | AddProduct(draft: ProductDraft, pending: bool, newId: Id, eventId: Id, now: Time)
    | UpdateProduct(id: Id, draft: ProductDraft, eventId: Id, now: Time)
    | DeleteProduct(id: Id, now: Time)
    | CreateSale(input: SaleInput, saleId: Id, now: Time)
    | Restock(id: Id, qty: int, eventId: Id, now: Time)
    | SetSetting(key: string, value: string, now: Time)
    | Link(link: CloudLink)
    | Unlink

  function AppendStockEvent(st: StoreState, ev: StockEvent): StoreState {
    st.(stockEvents := st.stockEvents[ev.id := ev], pendingStock := st.pendingStock + {ev.id})
  }

  function NewProduct(d: ProductDraft, id: Id, now: Time): Product {
    Product(id, d.name, d.priceCents, d.barcode, d.trackStock, d.stock, d.taxable, true, now, None)
  }

  function AddError(st: StoreState, d: ProductDraft): Option<Error> {
    if d.barcode != [] && d.barcode in st.barcodeIdx then Some(BarcodeTaken) else None
  }

  function StoreAdded(st: StoreState, d: ProductDraft, id: Id, now: Time): StoreState {
    st.(
      products := st.products[id := NewProduct(d, id, now)],
      barcodeIdx := if d.barcode != [] then st.barcodeIdx[d.barcode := id] else st.barcodeIdx)
  }

  function AfterAdd(st: StoreState, d: ProductDraft, pending: bool, id: Id, eventId: Id, now: Time): StoreState {
    var stored := StoreAdded(st, d, id, now);
    if !pending then stored
    else
      var counted := if d.trackStock && d.stock != 0
                     then AppendStockEvent(stored, StockEvent(eventId, id, d.stock, Initial, now))
                     else stored;
      counted.(pendingProds := counted.pendingProds + {id})
  }

  function UpdateError(st: StoreState, id: Id, d: ProductDraft): Option<Error> {
    if id !in st.products then Some(NotFound)
    else if d.barcode != [] && d.barcode in st.barcodeIdx && st.barcodeIdx[d.barcode] != id then Some(BarcodeTaken)
    else None
  }

  function Edited(p: Product, d: ProductDraft, now: Time): Product {
    p.(name := d.name, priceCents := d.priceCents, barcode := d.barcode, trackStock := d.trackStock,
    stock := d.stock, taxable := d.taxable, updatedAt := now)
  }

  /** The barcode index after a product's code changes from `was` to `code`. */
  function Repointed(idx: map<Bytes, Id>, was: Bytes, code: Bytes, id: Id): map<Bytes, Id> {
    var freed := if was != code && was != [] then idx - {was} else idx;
    if code != [] then freed[code := id] else freed
  }

  function StoreEdited(st: StoreState, id: Id, d: ProductDraft, now: Time): StoreState
    requires id in st.products
  {
    st.(products := st.products[id := Edited(st.products[id], d, now)],
    barcodeIdx := Repointed(st.barcodeIdx, st.products[id].barcode, d.barcode, id),
    pendingProds := st.pendingProds + {id})
  }

  ghost function AfterUpdate(st: StoreState, id: Id, d: ProductDraft, eventId: Id, now: Time): StoreState
    requires id in st.products
  {
    var stored := StoreEdited(st, id, d, now);
    var delta := d.stock - OnHand(st, id);
    if d.trackStock && delta != 0
    then AppendStockEvent(stored, StockEvent(eventId, id, delta, Adjustment, now))
    else stored
  }

  function Tombstone(p: Product, now: Time): Product {
    p.(active := false, deletedAt := Some(now), updatedAt := now)
  }

  function AfterDelete(st: StoreState, id: Id, now: Time): StoreState
    requires id in st.products
  {
    var p := st.products[id];
    st.(products := st.products[id := Tombstone(p, now)],
    barcodeIdx := if p.barcode != [] then st.barcodeIdx - {p.barcode} else st.barcodeIdx,
    pendingProds := st.pendingProds + {id})
  }

  function Snapshot(p: Product, qty: int): SaleItem {
    SaleItem(p.id, p.name, p.priceCents, qty, p.taxable, 0)
  }

  /** The sale lines priced from the current products, or the first line's error. */
  function SaleItems(products: map<Id, Product>, lines: seq<SaleLine>): Result<seq<SaleItem>> {
    if lines == [] then Ok([])
    else
      var last := lines[|lines| - 1];
      match SaleItems(products, lines[..|lines| - 1])
      case Err(e) => Err(e)
      case Ok(items) =>
        if last.qty <= 0 then Err(InvalidQuantity)
        else if last.productId !in products then Err(UnknownProduct)
        else Ok(items + [Snapshot(products[last.productId], last.qty)])
  }

  predicate IsDigits(s: string) {
    s != "" && forall c <- s :: '0' <= c <= '9'
  }

  function DigitsValue(s: string): int {
    if s == "" then 0 else DigitsValue(s[..|s| - 1]) * 10 + (s[|s| - 1] as int - '0' as int)
  }

  /** Decimal parsing where a malformed number reads as zero. */
  function Atoi(s: string): int {
    if IsDigits(s) then DigitsValue(s)
    else if s != "" && (s[0] == '-' || s[0] == '+') && IsDigits(s[1..]) then
      if s[0] == '-' then -DigitsValue(s[1..]) else DigitsValue(s[1..])
    else 0
  }

  function TaxRate(settings: map<string, string>): int {
    if KEY_TAX_RATE_BPS in settings then Atoi(settings[KEY_TAX_RATE_BPS]) else 0
  }

  function TaxMode(settings: map<string, string>): string {
    if KEY_TAX_MODE in settings && settings[KEY_TAX_MODE] != "" then settings[KEY_TAX_MODE] else Tax.TAX_MODE_NONE
  }

  function BuildSale(st: StoreState, input: SaleInput, id: Id, now: Time): Result<Sale> {
    match SaleItems(st.products, input.lines)
    case Err(e) => Err(e)
    case Ok(items) =>
      if items == [] then Err(EmptySale)
      else
        var rate, mode := TaxRate(st.settings), TaxMode(st.settings);
        var taxed := Tax.TaxedLines(rate, mode, items);
        var subtotal, tax := Tax.GrossSum(items), Tax.TaxSum(taxed);
        var total := Tax.TotalOf(rate, mode, subtotal, tax);
        if input.paidCents < total then Err(Underpaid)
        else Ok(Sale(id, now, taxed, subtotal, tax, total, input.paidCents, input.paidCents - total,
                     if input.paymentMethod == "" then "cash" else input.paymentMethod,
                     input.reference, rate, mode))
  }

  /** The reference-index key "<reference>\0<sale id>". */
  function RefKey(reference: Bytes, saleId: Id): Bytes {
    reference + [0] + saleId
  }

  function StoreSale(st: StoreState, sale: Sale): StoreState {
    st.(sales := st.sales[sale.id := sale],
    refIdx := if sale.reference != [] then st.refIdx + {RefKey(sale.reference, sale.id)} else st.refIdx)
  }

  function AfterSale(st: StoreState, sale: Sale): StoreState {
    StoreSale(st, sale).(pendingSales := st.pendingSales + {sale.id})
  }

  function AfterSetting(st: StoreState, key: string, value: string, now: Time): StoreState {
    st.(settings := st.settings[key := value],
    settingsDue := if key in SYNC_SETTING_KEYS then Some(now) else st.settingsDue)
  }

  /** What one local write commits; a write that fails commits nothing. */
  ghost function Run(st: StoreState, op: LocalOp): StoreState {
    match op
    case AddProduct(d, pending, id, eventId, now) =>
      if AddError(st, d).Some? then st else AfterAdd(st, d, pending, id, eventId, now)
    case UpdateProduct(id, d, eventId, now) =>
      if UpdateError(st, id, d).Some? then st else AfterUpdate(st, id, d, eventId, now)
    case DeleteProduct(id, now) =>
      if id !in st.products then st else AfterDelete(st, id, now)
    case CreateSale(input, saleId, now) =>
      (match BuildSale(st, input, saleId, now) case Err(_) => st case Ok(sale) => AfterSale(st, sale))
    case Restock(id, qty, eventId, now) =>
      if qty == 0 || id !in st.products then st
      else AppendStockEvent(st, StockEvent(eventId, id, qty, Restocked, now))
    case SetSetting(key, value, now) => AfterSetting(st, key, value, now)
    case Link(link) => st.(link := Some(link), lastError := "")
    case Unlink => st.(link := None, cursor := 0, lastError := "")
  }

  // ---- The outbox ----

  /** `out` lists exactly the stored rows whose ids are marked, each once. */
  ghost predicate Lists<T>(out: seq<T>, rows: map<Id, T>, marks: set<Id>) {
    && |out| == |rows.Keys * marks|
    && (forall x <- out :: exists id :: id in marks && id in rows && rows[id] == x)
    && (forall id :: id in marks && id in rows ==> rows[id] in out)
  }

  /** All of a till's settings: the saved ones over the defaults. */
  function SettingsOf(st: StoreState): map<string, string> {
    DEFAULTS + st.settings
  }

  /** The shop settings a push carries: every syncing key, saved or default. */
  function SyncedSettings(st: StoreState): map<string, string> {
    map k | k in SYNC_SETTING_KEYS :: if k in st.settings then st.settings[k] else DEFAULTS[k]
  }

  function PendingSettings(st: StoreState): Option<SettingsChange> {
    match st.settingsDue
    case None => None
    case Some(at) => Some(SettingsChange(SyncedSettings(st), at))
  }

  function ClearPushed(st: StoreState, productIds: set<Id>, saleIds: set<Id>, eventIds: set<Id>, settingsAt: Option<Time>)
    : StoreState
  {
    st.(pendingProds := st.pendingProds - productIds,
    pendingSales := st.pendingSales - saleIds,
    pendingStock := st.pendingStock - eventIds,
    settingsDue := if settingsAt.Some? && st.settingsDue.Some? && st.settingsDue.value <= settingsAt.value
                   then None else st.settingsDue)
  }

  // ---- Applying pulled changes ----

  function PulledProduct(st: StoreState, p: Product): StoreState {
    var have := p.id in st.products;
    if have && p.updatedAt <= st.products[p.id].updatedAt then st
    else
      var freed := if have && st.products[p.id].barcode != []
                   then st.barcodeIdx - {st.products[p.id].barcode}
                   else st.barcodeIdx;
      st.(products := st.products[p.id := p],
      barcodeIdx := if p.active && p.barcode != [] then freed[p.barcode := p.id] else freed)
  }

  function PulledSale(st: StoreState, sale: Sale): StoreState {
    if sale.id in st.sales then st else StoreSale(st, sale)
  }

  function PulledStockEvent(st: StoreState, ev: StockEvent): StoreState {
    if ev.id in st.stockEvents then st else st.(stockEvents := st.stockEvents[ev.id := ev])
  }

  function PulledSettings(st: StoreState, change: SettingsChange): StoreState {
    if st.settingsDue.Some? && change.at < st.settingsDue.value then st
    else st.(settings := st.settings + (map k | k in SYNC_SETTING_KEYS && k in change.values :: change.values[k]))
  }

  function PulledProducts(st: StoreState, ps: seq<Product>): StoreState {
    if ps == [] then st else PulledProduct(PulledProducts(st, ps[..|ps| - 1]), ps[|ps| - 1])
  }

  function PulledSales(st: StoreState, sales: seq<Sale>): StoreState {
    if sales == [] then st else PulledSale(PulledSales(st, sales[..|sales| - 1]), sales[|sales| - 1])
  }

  function PulledStockEvents(st: StoreState, evs: seq<StockEvent>): StoreState {
    if evs == [] then st else PulledStockEvent(PulledStockEvents(st, evs[..|evs| - 1]), evs[|evs| - 1])
  }

  /** One batch of changes from the cloud. */
  datatype Batch = Batch(
    products: seq<Product>,
    sales: seq<Sale>,
    stockEvents: seq<StockEvent>,
    settings: Option<SettingsChange>)

  function ApplyPulled(st: StoreState, b: Batch): StoreState {
    var merged := PulledStockEvents(PulledSales(PulledProducts(st, b.products), b.sales), b.stockEvents);
    match b.settings
    case None => merged
    case Some(change) => PulledSettings(merged, change)
  }
}
