# Invoicing: a Dafny model of the invoice pages' rules

This project models the data rules of a small invoicing web application. The
application is a set of Next.js pages over a MongoDB collection of invoices.
The model covers five pieces:

- **The invoice page's draft** (`InvoiceDraft`, `invoice_draft.dfy`). Product
  lines are edited by index, appended and removed. The page derives
  `totalAmount`, `finalAmount` and `pendingAmount` from them.
- **The all-invoices view** (`AllInvoices`, `all_invoices.dfy`). It has a
  search by contact number, a Cleared/Pending filter and a row label. It
  drops a deleted invoice from the shown list. It sorts in place: invoices
  with money still owed come first, then the newest invoice date.
- **The delivery-status view** (`DeliveryStatus`, `delivery_status.dfy`). It
  sorts in place by status rank (Due, Pending, Delivered) and then by
  delivery date. It has an exact-match status filter and updates one
  invoice's status after Deliver or Edit Status. It also defines the
  date-derived label Due / Due Today / Pending.
- **The calendar page** (`Calendar`, `calendar.dfy`). It has the `YYYY-MM-DD`
  formatter, the first-match delivery-count lookup and the tile rules built
  on that count.
- **The save handler** (`SaveInvoice`, `save_invoice.dfy`). It builds the
  stored invoice record from the request body and answers 201, 405 or 500.

Shared shapes live in `Records` (`records.dfy`): the product line, the form,
the stored record and the listed invoice. `Seqs` (`seqs.dfy`) holds
`Array.prototype.filter`. `Sorting` (`sorting.dfy`) holds an in-place
insertion sort standing for `Array.prototype.sort`. It is specified for a
comparator whose `<= 0` relation is a total preorder on the elements. That
relation together with sign antisymmetry (`CompareAntisymmetric` in each view)
makes the comparator a consistent one in ECMAScript's sense.

Modelling choices:

- Money is an exact `int` in minor units.
- A form number (discount, advance) is `Option<int>`, where `None` is an
  input that `Number(..)` reads as NaN.
- Dates are `int` instants.
- `normalizeDate` and the calendar day behind `toDateString` are function
  parameters. A lemma that needs a property of them states it as a precondition.
- The database connection and the document save are boolean parameters
  saying whether they succeeded.

Facts about the code that the model keeps:

- `pendingAmount` is not clamped at zero (pages/invoice.js:230).
- Nothing checks that the discount is at most the total (pages/invoice.js:229).
- The save handler stores the amounts as sent, without recomputing or
  checking them (pages/api/saveInvoice.js:31-34).
- The payment handlers (pages/api/makePayment/[id].js,
  pages/api/makePartialPayment/[id].js, pages/api/deletePayment/[id].js)
  are not part of this model. deletePayment recomputes the pending amount
  without a clamp (pages/api/deletePayment/[id].js:31-32), which is another
  way a negative pending amount reaches the lists.

Observations the model makes explicit:

- Product ids come from the list length, so they repeat after a removal
  (`IdsCanRepeat`).
- In the all-invoices view a negative pending amount is labelled "Cleared",
  yet neither non-empty filter keeps it. The sort comparator is not an order
  once such an amount is present (`NegativePendingBreaksOrder`).
- In the delivery-status view a status outside Due/Pending/Delivered makes
  the comparator inconsistent (`UnknownStatusBreaksOrder`).
- With an empty search term or an empty filter, the list that gets sorted is
  the page's full `invoices` array itself. The handler methods state this
  aliasing: `shown == invoices`.
- The all-invoices delete removes the invoice from the shown list only
  (pages/all-invoices.js:59). The page's full list keeps it, so it shows
  again after the next search or filter.
- `calculateDeliveryStatus` is defined in pages/delivery-status.js, but the
  page never calls it. It is modelled as the function it defines.

## Model

| member | source | states |
|---|---|---|
| `InvoiceDraft.HandleProductChange` | pages/invoice.js:208-215 | the list keeps its length, every line other than `index` is unchanged, and the line at `index` is the edited line; an index outside the list changes nothing |
| `InvoiceDraft.EditLine` | pages/invoice.js:211 | one line after an edit: the id is kept; a name edit changes only the name and keeps the stored total; a quantity or price edit changes only that field and stores quantity × price of the edited line (its rule is spelled out by `EditTotalRule` and `EditLineConsistency`) |
| `InvoiceDraft.EditTotalRule` | pages/invoice.js:211 | a quantity edit stores newQuantity × existing price, a price edit stores existing quantity × newPrice, a name edit keeps the stored total, quantity and price; the id never changes |
| `InvoiceDraft.EditLineConsistency` | pages/invoice.js:211 | after a quantity or price edit the line's total is quantity × price whatever it held before; a name edit keeps the line consistent exactly when it was |
| `InvoiceDraft.EditsPreserveConsistency` | pages/invoice.js:208-226 | when every stored total is quantity × price, that stays true after an edit, an append and a removal |
| `InvoiceDraft.AddProduct` | pages/invoice.js:217-222 | exactly one line is appended, `{id: oldLength+1, name: "Fabric + Stitching", quantity 1, price 0, total 0}`, and the earlier lines are unchanged |
| `InvoiceDraft.KeepOtherPositions` | pages/invoice.js:225 | the index filter keeps every line except the one at the given position, in order; a position outside the list keeps all |
| `InvoiceDraft.RemoveProduct` | pages/invoice.js:224-226 | exactly the line at `index` is removed and the others keep their order; an index outside the list changes nothing |
| `InvoiceDraft.RemoveThroughPageKeepsALine` | pages/invoice.js:116-123 | the remove control is shown only with two or more lines, so removing through it never empties the list |
| `InvoiceDraft.IdsCanRepeat` | pages/invoice.js:220 | ids are not unique: from lines 1 and 2, removing the first and adding one gives two lines with id 2 |
| `InvoiceDraft.TotalAmount` | pages/invoice.js:228 | the `reduce` over the stored line totals: non-negative when every stored total is, 0 when every stored total is 0; its other properties are `TotalAppend`, `TotalIsLineValue` and the `TotalAfter…` lemmas |
| `InvoiceDraft.TotalAppend` | pages/invoice.js:228 | the total of two concatenated lists is the sum of their totals |
| `InvoiceDraft.TotalIsLineValue` | pages/invoice.js:228 | when every stored total is quantity × price, `totalAmount` is the sum of quantity × price over the lines |
| `InvoiceDraft.TotalAfterEdit` | pages/invoice.js:208-228 | an edit changes `totalAmount` by exactly the change in the edited line's stored total |
| `InvoiceDraft.TotalAfterAdd` | pages/invoice.js:217-228 | appending a line leaves `totalAmount` unchanged |
| `InvoiceDraft.TotalAfterRemove` | pages/invoice.js:224-228 | removing a line takes exactly its stored total off `totalAmount` |
| `Records.NumberOrZero` | pages/invoice.js:229-230 | `Number(x) \|\| 0`: a numeric value reads as itself, a non-numeric one (NaN) as 0 |
| `InvoiceDraft.ComputeAmounts` | pages/invoice.js:228-230 | `totalAmount` is the sum of the stored line totals, total − final is the discount and final − pending is the advance, each read as 0 when non-numeric |
| `InvoiceDraft.PendingNotClamped` | pages/invoice.js:229-230 | there is no clamp: an advance above the final amount gives a negative pending amount |
| `InvoiceDraft.InitialAmountsAreZero` | pages/invoice.js:150-166 | the starting draft (one zero line, discount 0, advance 0) has all three amounts 0 |
| `Sorting.InsertionSort` | pages/all-invoices.js:107-108 | given a consistent comparator, the array is reordered in place into comparator order and is a permutation of the input |
| `AllInvoices.Includes` | pages/all-invoices.js:80 | `includes` holds exactly when the term occurs in the contact number at some position |
| `AllInvoices.Search` | pages/all-invoices.js:72-86 | an empty term keeps the full list; otherwise exactly the invoices of the full list whose contact number contains the term, each as many times as in the full list |
| `AllInvoices.EmptyTermBranchAgreesWithFilter` | pages/all-invoices.js:77-81 | every contact number includes the empty term, so the empty-term branch gives what the filter would |
| `AllInvoices.StatusLabel` | pages/all-invoices.js:190-191 | the label is "Pending" iff pending > 0, otherwise "Cleared" |
| `AllInvoices.StatusFilter` | pages/all-invoices.js:89-99 | from the full list: empty keeps all, "Cleared" keeps exactly pending = 0, any other value keeps exactly pending > 0; each kept invoice as many times as in the full list |
| `AllInvoices.NegativePendingPassesNoFilter` | pages/all-invoices.js:93-99 | an invoice with negative pending is labelled "Cleared" but no non-empty filter keeps it |
| `AllInvoices.LabelFilterAgree` | pages/all-invoices.js:96-97 | with pending ≥ 0, filtering by an invoice's own label keeps it |
| `AllInvoices.RemoveDeleted` | pages/all-invoices.js:59 | after a delete the shown list holds no invoice with that id and keeps every other shown invoice |
| `AllInvoices.RemoveDeletedKeepsOthers` | pages/all-invoices.js:59 | every other invoice keeps its multiplicity, the deleted id's count drops to 0, and order is kept |
| `AllInvoices.Compare` | pages/all-invoices.js:108-121 | the comparator: pending before cleared; within a group of non-negative amounts negative exactly when `a` has the later invoice date and zero exactly on equal dates; its order properties are `CompareAntisymmetric`, `BeforeIsTotalPreorder` and `SortedIsListOrder` |
| `AllInvoices.CompareAntisymmetric` | pages/all-invoices.js:108-121 | with pending ≥ 0, compare(a, b) is negative, zero or positive exactly when compare(b, a) is positive, zero or negative |
| `AllInvoices.BeforeIsTotalPreorder` | pages/all-invoices.js:108-121 | with pending ≥ 0 the comparator's `<= 0` relation is total and transitive |
| `AllInvoices.NegativePendingBreaksOrder` | pages/all-invoices.js:110-120 | with a negative pending amount three invoices precede one another in a cycle |
| `AllInvoices.SortedIsListOrder` | pages/all-invoices.js:105-121 | with pending ≥ 0, comparator order is exactly: pending > 0 before pending = 0, and within a group the later invoice date first |
| `AllInvoices.SortInvoices` | pages/all-invoices.js:106-124 | the array is sorted in place into that order and is a permutation of its old contents |
| `AllInvoices.HandleSearch` | pages/all-invoices.js:72-86 | the shown list is the search result sorted; with an empty term it is the full array itself, sorted in place; only the matching invoices need a non-negative pending amount |
| `AllInvoices.HandleStatusFilter` | pages/all-invoices.js:89-103 | the shown list is the filter result sorted; with an empty filter it is the full array itself, sorted in place; a non-empty filter accepts any full list, negative amounts included, since it drops them |
| `DeliveryStatus.StatusRank` | pages/delivery-status.js:72 | Due has rank 1, Pending 2, Delivered 3, and no other status has one |
| `DeliveryStatus.Compare` | pages/delivery-status.js:70-102 | the comparator: a lower known rank first; at equal Due or Pending status negative exactly on the earlier delivery date, at Delivered exactly on the later one; two unranked statuses compare equal; its order properties are `CompareAntisymmetric`, `BeforeIsTotalPreorder` and `SortedIsDeliveryOrder` |
| `DeliveryStatus.CompareAntisymmetric` | pages/delivery-status.js:70-102 | on the three known statuses the comparator is antisymmetric in sign |
| `DeliveryStatus.BeforeIsTotalPreorder` | pages/delivery-status.js:70-102 | on the three known statuses the comparator's `<= 0` relation is total and transitive |
| `DeliveryStatus.UnknownStatusBreaksOrder` | pages/delivery-status.js:72-101 | with an unknown status ("Cleared") the comparator is not transitive |
| `DeliveryStatus.SortedIsDeliveryOrder` | pages/delivery-status.js:67-102 | on known statuses comparator order is exactly: Due before Pending before Delivered, ascending delivery date within Due and Pending, descending within Delivered |
| `DeliveryStatus.SortInvoices` | pages/delivery-status.js:67-105 | the array is sorted in place into that order and is a permutation of its old contents |
| `DeliveryStatus.StatusFilter` | pages/delivery-status.js:57-60 | empty keeps all; otherwise exactly the invoices whose status equals the selection, each as many times as in the full list |
| `DeliveryStatus.HandleStatusFilter` | pages/delivery-status.js:52-64 | the shown list is the filter result sorted; with an empty filter it is the full array itself, sorted in place; a ranked filter (the dropdown offers Due and Pending, lines 198-200) accepts any full list, unknown statuses included, since it drops them |
| `DeliveryStatus.SetStatus` | pages/delivery-status.js:126-130 | the invoice with the id gets the new status and nothing else of it changes; every other invoice is unchanged |
| `DeliveryStatus.SetStatusProperties` | pages/delivery-status.js:163-167 | setting a status twice equals setting it once; a known status keeps the list sortable |
| `DeliveryStatus.HandleDeliver` | pages/delivery-status.js:116-139 | an OK response marks the invoice "Delivered"; a failed one leaves the list |
| `DeliveryStatus.DeliverRemovesOffer` | pages/delivery-status.js:237 | in the updated full `invoices` list after a successful Deliver, that invoice no longer qualifies for the button and the others keep whether they do; the rendered rows come from the shown list, re-sorted from the pre-update array (see "## Left out") |
| `DeliveryStatus.HandleChangeStatus` | pages/delivery-status.js:148-177 | an empty selection is rejected with an alert and no update; a failed request alerts and changes nothing; success sets the status and closes the dialog |
| `DeliveryStatus.ChangeStatusEffect` | pages/delivery-status.js:148-177 | a change only ever alters statuses, and only to the chosen one; rejection and failure alter nothing |
| `DeliveryStatus.CalculateDeliveryStatus` | pages/delivery-status.js:38-49 | "Due" iff the delivery instant is before now; "Due Today" iff not before now and on the same day; "Pending" iff not before now and on another day |
| `DeliveryStatus.LabelMeaning` | pages/delivery-status.js:42-48 | with a monotone calendar "Pending" means a later day, "Due" a day no later than today, and an instant earlier today is "Due" |
| `Calendar.NatRoundTrip` | pages/calendar.js:55-58 | reading the decimal digits of `String(n)` gives back n |
| `Calendar.PadStart2` | pages/calendar.js:56-57 | `padStart(2, '0')` only adds zeros in front, up to length 2 |
| `Calendar.TwoDigits` | pages/calendar.js:56-57 | a month or day from 1 to 99, padded, is exactly two digits that read back as it |
| `Calendar.FormatDate` | pages/calendar.js:54-59 | `formatDate`: the text starts with `String(year)` followed by a dash and has at least five more characters; the full round trip is `FormatDateRoundTrip` |
| `Calendar.FormatDateRoundTrip` | pages/calendar.js:54-59 | for a calendar month and day the text after the year is the six characters `-MM-DD`, MM and DD being digit characters, and year, month (`getMonth()+1`) and day read back |
| `Calendar.FindFirst` | pages/calendar.js:64 | `find` yields the first entry whose normalised date matches, or none when no entry matches |
| `Calendar.GetDeliveryCount` | pages/calendar.js:62-65 | the count of the first entry on the same day (missing count read as 0), and 0 when there is none |
| `Calendar.FirstMatchWins` | pages/calendar.js:64 | a first match with no count or a zero count yields 0, whatever later entries hold |
| `Calendar.HandleDateChange` | pages/calendar.js:37-44 | the selected date is stored and the shown count equals `getDeliveryCount` for it |
| `Calendar.TileDisabled` | pages/calendar.js:107 | a day with no delivery entry is disabled; otherwise disabled exactly when the first matching entry's count is missing or 0 |
| `Calendar.TileBadge` | pages/calendar.js:101-106 | a badge only ever shows a positive count; no badge on a day without entries; the first matching entry's positive count otherwise |
| `Calendar.TileRules` | pages/calendar.js:101-107 | with no negative counts a tile is disabled exactly when it shows no badge, and a badge shows the positive count |
| `SaveInvoice.StatusOrDue` | pages/api/saveInvoice.js:30 | the stored status is the form's when non-empty, otherwise "Due" |
| `SaveInvoice.BuildRecord` | pages/api/saveInvoice.js:17-35 | the eleven form fields read back unchanged from the record, the status is defaulted, and products and amounts are stored as sent |
| `SaveInvoice.Handle` | pages/api/saveInvoice.js:4-51 | non-POST answers 405 and stores nothing; a POST whose connection, body or save fails answers 500 and stores nothing; otherwise 201 with the built record stored |
| `SaveInvoice.PageBodyIsStoredConsistent` | pages/api/saveInvoice.js:9-35 | a body whose amounts the invoice page derived is stored with amounts consistent with its lines, discount and advance |
| `SaveInvoice.ServerDoesNotRecompute` | pages/api/saveInvoice.js:31-34 | a body whose total disagrees with its lines is saved (201) with that disagreement |
| `SaveInvoice.WithAddressDefault` | pages/print-preview.js:24-30 | an empty address is sent as "N/A"; every other field is unchanged |

## Left out

- JSX rendering, class strings, layout, the side navigation bar and styling: presentation only.
- Fetching, `localStorage`, router navigation, `window.confirm`, `alert` text beyond the status dialog's, console logging: browser plumbing.
- The database: `dbConnect`, `save()`, `findByIdAndUpdate`, `findByIdAndDelete` and the aggregation in the listing endpoints. Their success is a parameter. The grouped delivery list is an input to the calendar lookup.
- Date parsing, time zones, `normalizeDate` and `toDateString`: dates are `int` instants, and the normaliser and the calendar day are parameters.
- Floating-point arithmetic, `toFixed(2)` and the string-to-number coercion of form inputs: amounts, quantities and prices are exact integers.
- React state timing: after Deliver or Edit Status the shown list is re-sorted from the pre-update `invoices` array (pages/delivery-status.js:131, 169), so the rendered rows, including the Deliver button (line 237), keep the old status until the next filter change. The same re-sort makes the shown list the whole pre-update list, so an active status filter is dropped too. The model states the update on the full list only.
- The stability of `Array.prototype.sort`: the sorts are specified as ordered and a permutation, not as stable.
- `Sorting.InsertionSort`: stands for the engine's sort algorithm, which is not part of the source; only its result is modelled.
- The calendar tile's "today" highlight (pages/calendar.js:84-92): a style class only.
- pages/index.js repeats the calendar's first-match lookup and is not part of this model.
- Payments: pages/api/makePayment/[id].js, pages/api/makePartialPayment/[id].js and pages/api/deletePayment/[id].js read and write `paymentHistory`, and pages/invoice/[id].js shows it. These are outside the five modelled pages.
- `handleFormChange` and `handleDateSelect` (pages/invoice.js:195-206): each replaces one form field with the input value.
