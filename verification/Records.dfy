/** The rows the inventory services read and write, for one tenant. */
module Records {
  datatype Option<+T> = None | Some(value: T)

  type ProductId = nat
  type LocationId = nat
  type BinId = nat

  datatype CostMethod = FIFO | AVERAGE | STANDARD

  /** The product columns that stay fixed over a run; `average_cost` lives in the inventory. */
  datatype Product = Product(costMethod: CostMethod, trackSerial: bool, standardCost: int)

  datatype Tenant = Tenant(products: map<ProductId, Product>, blockNegative: bool)

  /** Lot identity. Each part is a nullable column, and an empty string counts as absent. */
  datatype Tag = Tag(lot: Option<string>, serial: Option<string>, expiry: Option<int>)

  predicate Given(s: Option<string>) {
    s.Some? && s.value != ""
  }

  predicate IsTagged(tag: Tag) {
    Given(tag.lot) || Given(tag.serial) || tag.expiry.Some?
  }

  const Untagged := Tag(None, None, None)

  datatype Place = Place(product: ProductId, location: LocationId)
  datatype LotKey = LotKey(place: Place, tag: Tag)
  datatype SerialKey = SerialKey(place: Place, serial: Option<string>)
  datatype BinKey = BinKey(place: Place, bin: BinId)

  /** The kinds of document rows refer to: those the code tells apart by name, and any other name (empty when
      none is given). */
  datatype RefKind = AR_INVOICE | AR_INVOICE_CANCEL | COGS | COGS_CANCEL | AP_INVOICE | CREDIT_NOTE
                   | PAYMENT | PAYMENT_REVERSAL | CYCLE_COUNT | CC_REVAL | TRANSFER_RECEIPT | OTHER(name: string)

  /** The document a row was created for. */
  datatype Ref = Ref(kind: RefKind, id: string)

  datatype MovementType = Receive | Sale | TransferIn | TransferOut | Adjustment | Return | WriteOff

  /** A FIFO cost layer. */
  datatype Layer = Layer(id: nat, place: Place, tag: Tag, receivedAt: int,
                         qtyReceived: int, qtyRemaining: int, unitCost: int, ref: Ref)

  /** One entry of the issue-cost trail being built: `layer` is None for uncovered shortfall. */
  datatype Take = Take(layer: Option<nat>, qty: int, unitCost: int)

  /** A row of the movement ledger; its id is its position in the ledger. */
  datatype Movement = Movement(kind: MovementType, place: Place, bin: Option<BinId>, tag: Tag, qty: int,
                               unitCost: Option<int>, value: int, ref: Ref, at: int)

  /** A row of the issue-cost trail: the movement it belongs to, and what that movement took. */
  datatype IssueCost = IssueCost(movement: nat, tag: Tag, take: Take, totalCost: int)

  datatype ReservationStatus = Active | Released | Consumed

  datatype Reservation = Reservation(place: Place, tag: Tag, qty: int, status: ReservationStatus,
                                     ref: Ref, createdAt: int)

  datatype InvoiceStatus = Draft | Issued | Sent | Paid | Cancelled | Refunded | Void

  datatype Result<+T, +E> = Ok(value: T) | Err(error: E)
}
