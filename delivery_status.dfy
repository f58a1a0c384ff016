/**
 * The delivery-status view (pages/delivery-status.js): the in-place sort by
 * status rank and delivery date, the exact-match status filter, the status
 * updates after Deliver and Edit Status, and the date-derived label.
 */
module DeliveryStatus {
  import opened Wrappers
  import opened Records
  import Seqs
  import Sorting

  // ---------------------------------------------------------------------------
  // Sort

  /** The comparator's `statusOrder` table; other statuses have no rank. */
  function StatusRank(status: string): (r: Option<int>)
    ensures r.Some? <==> status in {"Due", "Pending", "Delivered"}
    ensures r.Some? ==> 1 <= r.value <= 3
    ensures status == "Due" ==> r == Some(1)
    ensures status == "Pending" ==> r == Some(2)
    ensures status == "Delivered" ==> r == Some(3)
  {
    if status == "Due" then Some(1)
    else if status == "Pending" then Some(2)
    else if status == "Delivered" then Some(3)
    else None
  }

  /** `x < y` on two table lookups; a missing rank compares false. */
  predicate RankLess(x: Option<int>, y: Option<int>) {
    x.Some? && y.Some? && x.value < y.value
  }

  /** The sort comparator: negative means `a` goes first. Lower rank first;
      at equal rank (or a missing one) the first invoice's status picks the
      direction: Pending and Due by ascending delivery date, Delivered by
      descending date, and anything else compares equal. */
  function Compare(a: Invoice, b: Invoice): (r: int)
    ensures Rank(a) < Rank(b) && KnownStatus(a) && KnownStatus(b) ==> r < 0
    ensures Rank(a) > Rank(b) && KnownStatus(a) && KnownStatus(b) ==> r > 0
    ensures a.DeliveryStatus() == b.DeliveryStatus() && a.DeliveryStatus() in {"Due", "Pending"} ==>
              (r < 0 <==> a.DeliveryDate() < b.DeliveryDate()) && (r == 0 <==> a.DeliveryDate() == b.DeliveryDate())
    ensures a.DeliveryStatus() == b.DeliveryStatus() == "Delivered" ==>
              (r < 0 <==> a.DeliveryDate() > b.DeliveryDate()) && (r == 0 <==> a.DeliveryDate() == b.DeliveryDate())
    ensures !KnownStatus(a) && !KnownStatus(b) ==> r == 0
  {
    var ra := StatusRank(a.DeliveryStatus());
    var rb := StatusRank(b.DeliveryStatus());
    if RankLess(ra, rb) then -1
    else if RankLess(rb, ra) then 1
    else if a.DeliveryStatus() == "Pending" then a.DeliveryDate() - b.DeliveryDate()
    else if a.DeliveryStatus() == "Delivered" then b.DeliveryDate() - a.DeliveryDate()
    else if a.DeliveryStatus() == "Due" then a.DeliveryDate() - b.DeliveryDate()
    else 0
  }

  /** `a` may stay before `b`. */
  predicate Before(a: Invoice, b: Invoice) {
    Compare(a, b) <= 0
  }

  /** The invoice's rank: Due 1, Pending 2, Delivered 3 (0 for any other status). */
  function Rank(inv: Invoice): int {
    StatusRank(inv.DeliveryStatus()).GetOr(0)
  }

  /** The invoice's status is one of the three the comparator ranks. */
  predicate KnownStatus(inv: Invoice) {
    StatusRank(inv.DeliveryStatus()).Some?
  }

  /** The order the view promises: Due, then Pending, then Delivered; within
      Due and within Pending the earlier delivery date first, within
      Delivered the later delivery date first. */
  ghost predicate DeliveryOrder(s: seq<Invoice>) {
    && (forall i, j :: 0 <= i < j < |s| ==> Rank(s[i]) <= Rank(s[j]))
    && (forall i, j ::
          (0 <= i < j < |s| && s[i].DeliveryStatus() == s[j].DeliveryStatus() && s[i].DeliveryStatus() != "Delivered")
          ==> s[i].DeliveryDate() <= s[j].DeliveryDate())
    && (forall i, j ::
          (0 <= i < j < |s| && s[i].DeliveryStatus() == s[j].DeliveryStatus() && s[i].DeliveryStatus() == "Delivered")
          ==> s[i].DeliveryDate() >= s[j].DeliveryDate())
  }

  /** On the three known statuses the comparator is antisymmetric in sign. */
  lemma CompareAntisymmetric(a: Invoice, b: Invoice)
    requires KnownStatus(a) && KnownStatus(b)
    ensures Compare(a, b) < 0 <==> Compare(b, a) > 0
    ensures Compare(a, b) == 0 <==> Compare(b, a) == 0
  {
  }

  /** On the three known statuses `Before` is total and transitive. */
  lemma BeforeIsTotalPreorder()
    ensures Sorting.TotalPreorderOn(Before, KnownStatus)
  {
  }

  /** An unknown status breaks consistency: a Due invoice precedes a Pending
      one, which precedes an invoice with status "Cleared", which in turn
      precedes the Due invoice. */
  lemma UnknownStatusBreaksOrder(r: InvoiceRecord)
    ensures var a := Invoice("a", r.(deliveryStatus := "Due", deliveryDate := 5));
            var b := Invoice("b", r.(deliveryStatus := "Cleared", deliveryDate := 3));
            var c := Invoice("c", r.(deliveryStatus := "Pending", deliveryDate := 1));
            Compare(a, c) < 0 && Compare(c, b) < 0 && Compare(a, b) > 0
  {
  }

  /** On invoices with known statuses, being sorted by the comparator is
      exactly the promised delivery order. */
  lemma {:induction false} SortedIsDeliveryOrder(s: seq<Invoice>)
    requires forall k :: 0 <= k < |s| ==> KnownStatus(s[k])
    ensures Sorting.Sorted(s, Before) <==> DeliveryOrder(s)
  {
    if Sorting.Sorted(s, Before) {
      forall i, j | 0 <= i < j < |s|
        ensures Rank(s[i]) <= Rank(s[j])
        ensures s[i].DeliveryStatus() == s[j].DeliveryStatus() && s[i].DeliveryStatus() != "Delivered"
                ==> s[i].DeliveryDate() <= s[j].DeliveryDate()
        ensures s[i].DeliveryStatus() == s[j].DeliveryStatus() && s[i].DeliveryStatus() == "Delivered"
                ==> s[i].DeliveryDate() >= s[j].DeliveryDate()
      {
        assert Before(s[i], s[j]);
        assert KnownStatus(s[i]) && KnownStatus(s[j]);
      }
    }
    if DeliveryOrder(s) {
      forall i, j | 0 <= i < j < |s|
        ensures Before(s[i], s[j])
      {
        assert KnownStatus(s[i]) && KnownStatus(s[j]);
      }
    }
  }

  /** `sortInvoices`: sorts the given array in place by the comparator. */
  method SortInvoices(a: array<Invoice>)
    requires forall k :: 0 <= k < a.Length ==> KnownStatus(a[k])
    modifies a
    ensures DeliveryOrder(a[..])
    ensures multiset(a[..]) == old(multiset(a[..]))
  {
    BeforeIsTotalPreorder();
    Sorting.InsertionSort(a, Before, KnownStatus);
    SortedIsDeliveryOrder(a[..]);
  }

  // ---------------------------------------------------------------------------
  // Filter

  predicate HasStatus(status: string, inv: Invoice) {
    inv.DeliveryStatus() == status
  }

  /** `handleStatusFilter`'s selection: the empty value keeps every invoice,
      any other keeps exactly the invoices whose status equals it. */
  function StatusFilter(invoices: seq<Invoice>, status: string): (r: seq<Invoice>)
    ensures status == "" ==> r == invoices
    ensures status != "" ==> forall i :: 0 <= i < |r| ==> r[i] in invoices && r[i].DeliveryStatus() == status
    ensures status != "" ==>
              forall i :: 0 <= i < |invoices| && invoices[i].DeliveryStatus() == status ==> invoices[i] in r
    ensures status != "" ==>
              forall x :: multiset(r)[x] == if HasStatus(status, x) then multiset(invoices)[x] else 0
  {
    if status == "" then invoices
    else
      Seqs.FilterCountsAll(invoices, inv => HasStatus(status, inv));
      Seqs.Filter(invoices, inv => HasStatus(status, inv))
  }

  /** `handleStatusFilter`: the empty status sorts `invoices` itself in place,
      any other status sorts a new array of the matching invoices. The
      dropdown offers only ranked statuses, and a ranked filter drops every
      invoice with another status, so only the empty filter needs every
      status in the full list to be ranked. */
  method HandleStatusFilter(invoices: array<Invoice>, status: string) returns (shown: array<Invoice>)
    requires status == "" ==> forall k :: 0 <= k < invoices.Length ==> KnownStatus(invoices[k])
    requires status != "" ==> StatusRank(status).Some?
    modifies invoices
    ensures status == "" ==> shown == invoices
    ensures status != "" ==> fresh(shown) && invoices[..] == old(invoices[..])
    ensures multiset(shown[..]) == multiset(StatusFilter(old(invoices[..]), status))
    ensures DeliveryOrder(shown[..])
  {
    if status == "" {
      shown := invoices;
    } else {
      var matching := StatusFilter(invoices[..], status);
      shown := Seqs.ToArray(matching);
    }
    SortInvoices(shown);
  }

  // ---------------------------------------------------------------------------
  // Status updates

  /** The local update after a successful PATCH: the invoice with `id` gets
      `status`, every other invoice stays as it was. */
  function SetStatus(invoices: seq<Invoice>, id: string, status: string): (r: seq<Invoice>)
    ensures |r| == |invoices|
    ensures forall i :: 0 <= i < |r| && invoices[i].id != id ==> r[i] == invoices[i]
    ensures forall i :: 0 <= i < |r| && invoices[i].id == id ==>
              r[i].DeliveryStatus() == status && r[i].id == id
              && r[i].record == invoices[i].record.(deliveryStatus := status)
  {
    seq(|invoices|, i requires 0 <= i < |invoices| =>
      if invoices[i].id == id then Invoice(id, invoices[i].record.(deliveryStatus := status))
      else invoices[i])
  }

  /** Setting a status twice is setting it once, and setting a known status
      keeps every status known, so the list stays sortable. */
  lemma SetStatusProperties(invoices: seq<Invoice>, id: string, status: string)
    ensures SetStatus(SetStatus(invoices, id, status), id, status) == SetStatus(invoices, id, status)
    ensures status in {"Due", "Pending", "Delivered"} && (forall k :: 0 <= k < |invoices| ==> KnownStatus(invoices[k]))
            ==> forall k :: 0 <= k < |invoices| ==> KnownStatus(SetStatus(invoices, id, status)[k])
  {
  }

  /** `handleDeliver`: on an OK response the invoice becomes "Delivered";
      otherwise the list is unchanged (and the page alerts). */
  function HandleDeliver(invoices: seq<Invoice>, id: string, responseOk: bool): (r: seq<Invoice>)
    ensures responseOk ==> r == SetStatus(invoices, id, "Delivered")
    ensures !responseOk ==> r == invoices
  {
    if responseOk then SetStatus(invoices, id, "Delivered") else invoices
  }

  /** The Deliver button is offered only on invoices not yet delivered. */
  predicate DeliverOffered(inv: Invoice) {
    inv.DeliveryStatus() != "Delivered"
  }

  /** In the updated full list that a successful Deliver leaves, every
      invoice with that id is "Delivered" and so would not offer the Deliver
      button; the other invoices keep whether they offer it. The rendered
      rows come from the shown list, which the page re-sorts from the list
      as it was before the update, so this is a statement about the updated
      full list only. */
  lemma DeliverRemovesOffer(invoices: seq<Invoice>, id: string)
    ensures var r := HandleDeliver(invoices, id, true);
      forall i :: 0 <= i < |r| ==>
        (DeliverOffered(r[i]) <==> invoices[i].id != id && DeliverOffered(invoices[i]))
  {
  }

  /** What `handleChangeStatus` leaves: the list, the invoice still being
      edited (if the dialog stays open), and the alert shown (if any). */
  datatype ChangeResult = ChangeResult(invoices: seq<Invoice>, editing: Option<Invoice>, alert: Option<string>)

  /** `handleChangeStatus`: an empty selection is rejected before any request;
      a failed request alerts and leaves everything; an OK response sets the
      status of the edited invoice and closes the dialog. */
  function HandleChangeStatus(invoices: seq<Invoice>, editing: Invoice, newStatus: string, responseOk: bool)
    : (r: ChangeResult)
    ensures newStatus == "" ==> r == ChangeResult(invoices, Some(editing), Some("Please select a status"))
    ensures newStatus != "" && !responseOk ==>
              r == ChangeResult(invoices, Some(editing), Some("There was an error changing the status."))
    ensures newStatus != "" && responseOk ==>
              r == ChangeResult(SetStatus(invoices, editing.id, newStatus), None, None)
  {
    if newStatus == "" then ChangeResult(invoices, Some(editing), Some("Please select a status"))
    else if !responseOk then ChangeResult(invoices, Some(editing), Some("There was an error changing the status."))
    else ChangeResult(SetStatus(invoices, editing.id, newStatus), None, None)
  }

  /** A rejected or failed change leaves every invoice as it was; a successful
      one changes only statuses, and only to the chosen one. */
  lemma ChangeStatusEffect(invoices: seq<Invoice>, editing: Invoice, newStatus: string, responseOk: bool)
    ensures var r := HandleChangeStatus(invoices, editing, newStatus, responseOk);
      && |r.invoices| == |invoices|
      && (newStatus == "" || !responseOk ==> r.invoices == invoices)
      && (forall i :: 0 <= i < |invoices| ==>
            r.invoices[i].id == invoices[i].id
            && r.invoices[i].record.(deliveryStatus := "") == invoices[i].record.(deliveryStatus := "")
            && (r.invoices[i] != invoices[i] ==> r.invoices[i].DeliveryStatus() == newStatus))
  {
  }

  // ---------------------------------------------------------------------------
  // Date-derived label

  /** `calculateDeliveryStatus`: "Due" when the delivery instant is before now,
      otherwise "Due Today" when both fall on the same calendar day, otherwise
      "Pending". `dayOf` is the calendar day of an instant (`toDateString`). */
  function CalculateDeliveryStatus(deliveryDate: Instant, now: Instant, dayOf: Instant -> int): (r: string)
    ensures r == "Due" <==> deliveryDate < now
    ensures r == "Due Today" <==> now <= deliveryDate && dayOf(deliveryDate) == dayOf(now)
    ensures r == "Pending" <==> now <= deliveryDate && dayOf(deliveryDate) != dayOf(now)
  {
    if deliveryDate < now then "Due"
    else if dayOf(deliveryDate) == dayOf(now) then "Due Today"
    else "Pending"
  }

  /** `dayOf` never goes back in time. */
  ghost predicate Monotone(dayOf: Instant -> int) {
    forall s, t :: s <= t ==> dayOf(s) <= dayOf(t)
  }

  /** With a calendar that never goes back, "Pending" means a later day and
      "Due" a day no later than today; and an instant earlier today is "Due",
      not "Due Today", because the past check comes first. */
  lemma LabelMeaning(deliveryDate: Instant, now: Instant, dayOf: Instant -> int)
    requires Monotone(dayOf)
    ensures CalculateDeliveryStatus(deliveryDate, now, dayOf) == "Pending" ==> dayOf(deliveryDate) > dayOf(now)
    ensures CalculateDeliveryStatus(deliveryDate, now, dayOf) == "Due" ==> dayOf(deliveryDate) <= dayOf(now)
    ensures deliveryDate < now && dayOf(deliveryDate) == dayOf(now)
            ==> CalculateDeliveryStatus(deliveryDate, now, dayOf) == "Due"
  {
    assert deliveryDate <= now ==> dayOf(deliveryDate) <= dayOf(now);
    assert now <= deliveryDate ==> dayOf(now) <= dayOf(deliveryDate);
  }
}
