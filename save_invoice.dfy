/**
 * Saving a new invoice (pages/api/saveInvoice.js): the record the handler
 * builds from the request body and the status codes it answers with. The
 * database connection and the document save are collaborators whose success
 * or failure is a parameter.
 */
module SaveInvoice {
  import opened Wrappers
  import opened Records
  import InvoiceDraft

  /** The request body: the form, the product lines and the three amounts the
      page computed. */
  datatype SaveBody = SaveBody(
    formData: FormData,
    products: seq<Product>,
    totalAmount: int,
    finalAmount: int,
    pendingAmount: int)

  /** `formData.deliveryStatus || "Due"`: a missing or empty status becomes "Due". */
  function StatusOrDue(status: Option<string>): (r: string)
    ensures status.Some? && status.value != "" ==> r == status.value
    ensures status.None? || status.value == "" ==> r == "Due"
    ensures r != ""
  {
    if status.Some? && status.value != "" then status.value else "Due"
  }

  /** The form fields a stored record carries, with its status as the form's. */
  function RecordForm(r: InvoiceRecord): FormData {
    FormData(r.invoiceNumber, r.invoiceDate, r.clientName, r.contactNumber, r.address,
             r.referenceNumber, r.serialNumber, r.discount, r.advanceAmount, r.paymentMode,
             r.deliveryDate, Some(r.deliveryStatus))
  }

  /** `invoiceData`: the eleven form fields copied, the status defaulted, and
      the products and amounts stored exactly as sent. */
  function BuildRecord(body: SaveBody): (r: InvoiceRecord)
    ensures RecordForm(r) == body.formData.(deliveryStatus := Some(r.deliveryStatus))
    ensures r.deliveryStatus == StatusOrDue(body.formData.deliveryStatus)
    ensures r.products == body.products
    ensures r.totalAmount == body.totalAmount && r.finalAmount == body.finalAmount
            && r.pendingAmount == body.pendingAmount
  {
    var f := body.formData;
    InvoiceRecord(
      f.invoiceNumber, f.invoiceDate, f.clientName, f.contactNumber, f.address,
      f.referenceNumber, f.serialNumber, f.discount, f.advanceAmount, f.paymentMode,
      f.deliveryDate, StatusOrDue(f.deliveryStatus),
      body.products, body.totalAmount, body.finalAmount, body.pendingAmount)
  }

  /** The answer: status code, message, and the record the store now holds
      (`None` when nothing was saved). */
  datatype Response = Response(status: int, message: string, stored: Option<InvoiceRecord>)

  /** `handler`: anything but POST is refused with 405; a POST whose body has
      no form (`None`), whose connection fails or whose save fails answers
      500; otherwise the record is saved and the answer is 201. */
  function Handle(httpMethod: string, body: Option<SaveBody>, connected: bool, saved: bool): (r: Response)
    ensures httpMethod != "POST" ==> r.status == 405 && r.stored.None?
    ensures httpMethod == "POST" && connected && body.Some? && saved ==>
              r.status == 201 && r.stored == Some(BuildRecord(body.value))
    ensures httpMethod == "POST" && !(connected && body.Some? && saved) ==> r.status == 500 && r.stored.None?
  {
    if httpMethod != "POST" then Response(405, "Method Not Allowed", None)
    else if !connected || body.None? || !saved then Response(500, "Error saving invoice.", None)
    else Response(201, "Invoice saved successfully!", Some(BuildRecord(body.value)))
  }

  /** The stored amounts agree with the stored lines, discount and advance. */
  predicate AmountsConsistent(r: InvoiceRecord) {
    && r.totalAmount == InvoiceDraft.TotalAmount(r.products)
    && r.finalAmount == r.totalAmount - NumberOrZero(r.discount)
    && r.pendingAmount == r.finalAmount - NumberOrZero(r.advanceAmount)
  }

  /** A body sent from the invoice page, whose amounts were derived from its
      own lines and form, is stored with consistent amounts. */
  lemma PageBodyIsStoredConsistent(form: FormData, products: seq<Product>)
    ensures var a := InvoiceDraft.ComputeAmounts(products, form.discount, form.advanceAmount);
            var body := SaveBody(form, products, a.totalAmount, a.finalAmount, a.pendingAmount);
            AmountsConsistent(BuildRecord(body))
  {
  }

  /** The server neither recomputes nor checks the amounts: a saved body whose
      total disagrees with its lines is stored with that disagreement. */
  lemma ServerDoesNotRecompute(body: SaveBody)
    requires body.totalAmount != InvoiceDraft.TotalAmount(body.products)
    ensures var r := Handle("POST", Some(body), true, true);
            r.status == 201 && r.stored.Some? && !AmountsConsistent(r.stored.value)
  {
  }

  /** The print preview sends `address || "N/A"`: an empty address becomes "N/A". */
  function WithAddressDefault(form: FormData): (r: FormData)
    ensures r.address == if form.address == "" then "N/A" else form.address
    ensures r.(address := form.address) == form
  {
    if form.address == "" then form.(address := "N/A") else form
  }
}
