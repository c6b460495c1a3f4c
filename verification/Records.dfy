/** The rows the store keeps and the requests that create them. */
module Records {
  import opened Prelude

  datatype Product = Product(
    id: Id,
    name: Bytes,
    priceCents: int,
    barcode: Bytes,
    trackStock: bool,
    stock: int,
    taxable: bool,
    active: bool,
    updatedAt: Time,
    deletedAt: Option<Time>)

  datatype ProductDraft = ProductDraft(
    name: Bytes,
    priceCents: int,
    barcode: Bytes,
    trackStock: bool,
    stock: int,
    taxable: bool)

  datatype StockReason = Initial | Restocked | Adjustment

  datatype StockEvent = StockEvent(id: Id, productId: Id, delta: int, reason: StockReason, createdAt: Time)

  datatype SaleItem = SaleItem(productId: Id, name: Bytes, priceCents: int, qty: int, taxable: bool, taxCents: int)

  datatype SaleLine = SaleLine(productId: Id, qty: int)

  datatype SaleInput = SaleInput(lines: seq<SaleLine>, paidCents: int, paymentMethod: string, reference: Bytes)

  datatype Sale = Sale(
    id: Id,
    createdAt: Time,
    items: seq<SaleItem>,
    subtotalCents: int,
    taxCents: int,
    totalCents: int,
    paidCents: int,
    changeCents: int,
    paymentMethod: string,
    reference: Bytes,
    taxRateBps: int,
    taxMode: string)

  /** Shop settings together with the instant they were changed. */
  datatype SettingsChange = SettingsChange(values: map<string, string>, at: Time)

  function ProductId(p: Product): Id { p.id }

  function SaleId(sale: Sale): Id { sale.id }

  function EventId(ev: StockEvent): Id { ev.id }
}
