/**
 * The shapes shared by the invoice pages and the save handler: a product line,
 * the invoice form, and the invoice document as the handler builds it and the
 * listing views receive it (models/Invoice.js).
 *
 * Money is an exact `int` in minor units, and instants (invoice and delivery
 * dates) are `int` timestamps: parsing and time zones are not modelled.
 */
module Records {
  import opened Wrappers

  type Instant = int

  /** A form field typed as a number: `None` is an input `Number(..)` reads as NaN. */
  type FormNumber = Option<int>

  /** JavaScript's `Number(x) || 0`: a non-numeric input counts as zero. */
  function NumberOrZero(x: FormNumber): (r: int)
    ensures x.Some? ==> r == x.value
    ensures x.None? ==> r == 0
  {
    x.GetOr(0)
  }

  /** One line of the product table. `total` is stored, not derived on read. */
  datatype Product = Product(id: int, name: string, quantity: int, price: int, total: int)

  /** The invoice form's fields. `deliveryStatus` is absent on a new invoice. */
  datatype FormData = FormData(
    invoiceNumber: string,
    invoiceDate: Instant,
    clientName: string,
    contactNumber: string,
    address: string,
    referenceNumber: string,
    serialNumber: string,
    discount: FormNumber,
    advanceAmount: FormNumber,
    paymentMode: string,
    deliveryDate: Instant,
    deliveryStatus: Option<string>)

  /** The invoice document: what the save handler builds and the views list. */
  datatype InvoiceRecord = InvoiceRecord(
    invoiceNumber: string,
    invoiceDate: Instant,
    clientName: string,
    contactNumber: string,
    address: string,
    referenceNumber: string,
    serialNumber: string,
    discount: FormNumber,
    advanceAmount: FormNumber,
    paymentMode: string,
    deliveryDate: Instant,
    deliveryStatus: string,
    products: seq<Product>,
    totalAmount: int,
    finalAmount: int,
    pendingAmount: int)

  /** A stored invoice as the listing views receive it: the record and its `_id`. */
  datatype Invoice = Invoice(id: string, record: InvoiceRecord) {
    function PendingAmount(): int { record.pendingAmount }
    function InvoiceDate(): Instant { record.invoiceDate }
    function DeliveryDate(): Instant { record.deliveryDate }
    function DeliveryStatus(): string { record.deliveryStatus }
    function ContactNumber(): string { record.contactNumber }
  }
}
