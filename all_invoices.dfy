/**
 * The all-invoices view (pages/all-invoices.js): search by contact number,
 * the Cleared/Pending filter, the row label, removal of a deleted invoice
 * from the shown list, and the in-place sort that puts invoices with money
 * still owed first and then the newest invoice date first.
 */
module AllInvoices {
  import opened Records
  import Seqs
  import Sorting

  // ---------------------------------------------------------------------------
  // Search

  /** `needle` occurs in `haystack` starting at position `i`. */
  predicate OccursAt(haystack: string, needle: string, i: int) {
    0 <= i <= |haystack| - |needle| && haystack[i..i + |needle|] == needle
  }

  /** `needle` occurs in `haystack` at some position. */
  ghost predicate ContainsSubstring(haystack: string, needle: string) {
    exists i :: OccursAt(haystack, needle, i)
  }

  /** An occurrence in the tail is an occurrence one position later. */
  lemma OccursInTail(haystack: string, needle: string)
    requires |haystack| >= 1
    ensures ContainsSubstring(haystack[1..], needle) ==> ContainsSubstring(haystack, needle)
  {
    if ContainsSubstring(haystack[1..], needle) {
      var i :| OccursAt(haystack[1..], needle, i);
      assert haystack[i + 1..i + 1 + |needle|] == haystack[1..][i..i + |needle|];
      assert OccursAt(haystack, needle, i + 1);
    }
  }

  /** With no occurrence at position 0, every occurrence lies in the tail. */
  lemma OccursOnlyInTail(haystack: string, needle: string)
    requires |haystack| >= 1
    requires !OccursAt(haystack, needle, 0)
    ensures ContainsSubstring(haystack, needle) ==> ContainsSubstring(haystack[1..], needle)
  {
    if ContainsSubstring(haystack, needle) {
      var i :| OccursAt(haystack, needle, i);
      assert haystack[1..][i - 1..i - 1 + |needle|] == haystack[i..i + |needle|];
      assert OccursAt(haystack[1..], needle, i - 1);
    }
  }

  /** `haystack.includes(needle)`, scanning from the left. */
  predicate Includes(haystack: string, needle: string)
    ensures Includes(haystack, needle) <==> ContainsSubstring(haystack, needle)
    decreases |haystack|
  {
    if |needle| <= |haystack| && haystack[..|needle|] == needle then
      assert OccursAt(haystack, needle, 0);
      true
    else if |haystack| <= |needle| then false
    else
      OccursInTail(haystack, needle);
      OccursOnlyInTail(haystack, needle);
      Includes(haystack[1..], needle)
  }

  predicate ContactMatches(term: string, inv: Invoice) {
    Includes(inv.ContactNumber(), term)
  }

  /** `handleSearch`: from the full list, the invoices whose contact number
      contains the term; an empty term keeps every invoice. */
  function Search(invoices: seq<Invoice>, term: string): (r: seq<Invoice>)
    ensures term == "" ==> r == invoices
    ensures forall i :: 0 <= i < |r| ==> r[i] in invoices && ContainsSubstring(r[i].ContactNumber(), term)
    ensures forall i :: 0 <= i < |invoices| && ContainsSubstring(invoices[i].ContactNumber(), term)
                        ==> invoices[i] in r
    ensures term != "" ==>
              forall x :: multiset(r)[x] == if ContactMatches(term, x) then multiset(invoices)[x] else 0
  {
    if term == "" then
      assert forall i :: 0 <= i < |invoices| ==> OccursAt(invoices[i].ContactNumber(), term, 0);
      invoices
    else
      Seqs.FilterCountsAll(invoices, inv => ContactMatches(term, inv));
      Seqs.Filter(invoices, inv => ContactMatches(term, inv))
  }

  /** Every string includes the empty string, so the explicit empty-term branch
      gives what the filter alone would give. */
  lemma EmptyTermBranchAgreesWithFilter(invoices: seq<Invoice>)
    ensures Seqs.Filter(invoices, inv => ContactMatches("", inv)) == invoices
  {
    forall i | 0 <= i < |invoices|
      ensures ContactMatches("", invoices[i])
    {
      assert invoices[i].ContactNumber()[0..0] == "";
    }
    Seqs.FilterKeepsAll(invoices, inv => ContactMatches("", inv));
  }

  // ---------------------------------------------------------------------------
  // Status filter and label

  /** The row's status label. */
  function StatusLabel(inv: Invoice): (r: string)
    ensures r == "Pending" <==> inv.PendingAmount() > 0
    ensures r == "Cleared" <==> inv.PendingAmount() <= 0
  {
    if inv.PendingAmount() > 0 then "Pending" else "Cleared"
  }

  predicate PassesStatus(status: string, inv: Invoice) {
    if status == "Cleared" then inv.PendingAmount() == 0 else inv.PendingAmount() > 0
  }

  /** `handleStatusFilter`: from the full list, "Cleared" keeps the invoices
      with nothing pending, any other non-empty value those with something
      pending, and the empty value keeps every invoice. */
  function StatusFilter(invoices: seq<Invoice>, status: string): (r: seq<Invoice>)
    ensures status == "" ==> r == invoices
    ensures status == "Cleared" ==>
              (forall i :: 0 <= i < |r| ==> r[i] in invoices && r[i].PendingAmount() == 0)
    ensures status == "Cleared" ==>
              (forall i :: 0 <= i < |invoices| && invoices[i].PendingAmount() == 0 ==> invoices[i] in r)
    ensures status != "" && status != "Cleared" ==>
              (forall i :: 0 <= i < |r| ==> r[i] in invoices && r[i].PendingAmount() > 0)
    ensures status != "" && status != "Cleared" ==>
              (forall i :: 0 <= i < |invoices| && invoices[i].PendingAmount() > 0 ==> invoices[i] in r)
    ensures status != "" ==>
              forall x :: multiset(r)[x] == if PassesStatus(status, x) then multiset(invoices)[x] else 0
  {
    if status == "" then invoices
    else
      Seqs.FilterCountsAll(invoices, inv => PassesStatus(status, inv));
      Seqs.Filter(invoices, inv => PassesStatus(status, inv))
  }

  /** An invoice with a negative pending amount is labelled "Cleared" but is
      kept by neither non-empty filter, not even "Cleared". */
  lemma NegativePendingPassesNoFilter(invoices: seq<Invoice>, status: string, k: int)
    requires 0 <= k < |invoices| && invoices[k].PendingAmount() < 0
    requires status != ""
    ensures StatusLabel(invoices[k]) == "Cleared"
    ensures invoices[k] !in StatusFilter(invoices, status)
  {
  }

  /** With nothing negative pending, filtering by an invoice's own label keeps it. */
  lemma LabelFilterAgree(invoices: seq<Invoice>, k: int)
    requires 0 <= k < |invoices| && invoices[k].PendingAmount() >= 0
    ensures invoices[k] in StatusFilter(invoices, StatusLabel(invoices[k]))
  {
  }

  // ---------------------------------------------------------------------------
  // Delete

  predicate IdDiffers(id: string, inv: Invoice) {
    inv.id != id
  }

  /** After a successful delete, the shown list drops the invoices with that id. */
  function RemoveDeleted(shown: seq<Invoice>, id: string): (r: seq<Invoice>)
    ensures forall i :: 0 <= i < |r| ==> r[i].id != id && r[i] in shown
    ensures forall i :: 0 <= i < |shown| && shown[i].id != id ==> shown[i] in r
  {
    Seqs.Filter(shown, inv => IdDiffers(id, inv))
  }

  /** Deleting keeps every other invoice as often as it was shown, and keeps the
      order: deleting from a concatenation deletes from each part. */
  lemma RemoveDeletedKeepsOthers(shown: seq<Invoice>, more: seq<Invoice>, id: string, x: Invoice)
    ensures x.id != id ==> multiset(RemoveDeleted(shown, id))[x] == multiset(shown)[x]
    ensures x.id == id ==> multiset(RemoveDeleted(shown, id))[x] == 0
    ensures RemoveDeleted(shown + more, id) == RemoveDeleted(shown, id) + RemoveDeleted(more, id)
  {
    Seqs.FilterCounts(shown, inv => IdDiffers(id, inv), x);
    Seqs.FilterAppend(shown, more, inv => IdDiffers(id, inv));
  }

  // ---------------------------------------------------------------------------
  // Sort

  /** The sort comparator: negative means `a` goes first. Pending before
      cleared, then the later invoice date first. A negative pending amount is
      neither "> 0" nor "=== 0" and falls through to the date comparison. */
  function Compare(a: Invoice, b: Invoice): (r: int)
    ensures a.PendingAmount() > 0 && b.PendingAmount() == 0 ==> r < 0
    ensures a.PendingAmount() == 0 && b.PendingAmount() > 0 ==> r > 0
    ensures NotNegative(a) && NotNegative(b) && (a.PendingAmount() > 0 <==> b.PendingAmount() > 0) ==>
              (r < 0 <==> a.InvoiceDate() > b.InvoiceDate()) && (r == 0 <==> a.InvoiceDate() == b.InvoiceDate())
  {
    if a.PendingAmount() > 0 && b.PendingAmount() == 0 then -1
    else if a.PendingAmount() == 0 && b.PendingAmount() > 0 then 1
    else b.InvoiceDate() - a.InvoiceDate()
  }

  /** `a` may stay before `b`. */
  predicate Before(a: Invoice, b: Invoice) {
    Compare(a, b) <= 0
  }

  predicate NotNegative(inv: Invoice) {
    inv.PendingAmount() >= 0
  }

  /** The order the view promises: something pending before nothing pending,
      and within each group the later invoice date first. */
  ghost predicate ListOrder(s: seq<Invoice>) {
    && (forall i, j :: 0 <= i < j < |s| && s[i].PendingAmount() == 0 ==> s[j].PendingAmount() == 0)
    && (forall i, j :: 0 <= i < j < |s| && (s[i].PendingAmount() > 0 <==> s[j].PendingAmount() > 0)
          ==> s[i].InvoiceDate() >= s[j].InvoiceDate())
  }

  /** With no negative pending amount the comparator is antisymmetric in sign. */
  lemma CompareAntisymmetric(a: Invoice, b: Invoice)
    requires NotNegative(a) && NotNegative(b)
    ensures Compare(a, b) < 0 <==> Compare(b, a) > 0
    ensures Compare(a, b) == 0 <==> Compare(b, a) == 0
  {
  }

  /** With no negative pending amount `Before` is total and transitive; with
      `CompareAntisymmetric` this makes the comparator a consistent one. */
  lemma BeforeIsTotalPreorder()
    ensures Sorting.TotalPreorderOn(Before, NotNegative)
  {
  }

  /** With a negative pending amount the comparator is not an order: these
      three invoices each strictly precede the next in a cycle. */
  lemma NegativePendingBreaksOrder(r: InvoiceRecord)
    ensures var c := Invoice("c", r.(pendingAmount := 5, invoiceDate := 1));
            var b := Invoice("b", r.(pendingAmount := 0, invoiceDate := 3));
            var a := Invoice("a", r.(pendingAmount := -1, invoiceDate := 2));
            Compare(c, b) < 0 && Compare(b, a) < 0 && Compare(a, c) < 0
  {
  }

  /** On invoices with nothing negative pending, being sorted by the comparator
      is exactly the view's promised order. */
  lemma {:induction false} SortedIsListOrder(s: seq<Invoice>)
    requires forall k :: 0 <= k < |s| ==> NotNegative(s[k])
    ensures Sorting.Sorted(s, Before) <==> ListOrder(s)
  {
    if Sorting.Sorted(s, Before) {
      forall i, j | 0 <= i < j < |s|
        ensures s[i].PendingAmount() == 0 ==> s[j].PendingAmount() == 0
        ensures (s[i].PendingAmount() > 0 <==> s[j].PendingAmount() > 0)
                ==> s[i].InvoiceDate() >= s[j].InvoiceDate()
      {
        assert Before(s[i], s[j]);
        assert NotNegative(s[i]) && NotNegative(s[j]);
      }
    }
    if ListOrder(s) {
      forall i, j | 0 <= i < j < |s|
        ensures Before(s[i], s[j])
      {
        assert NotNegative(s[i]) && NotNegative(s[j]);
      }
    }
  }

  /** `sortInvoices`: sorts the given array in place by the comparator. */
  method SortInvoices(a: array<Invoice>)
    requires forall k :: 0 <= k < a.Length ==> NotNegative(a[k])
    modifies a
    ensures ListOrder(a[..])
    ensures multiset(a[..]) == old(multiset(a[..]))
  {
    BeforeIsTotalPreorder();
    Sorting.InsertionSort(a, Before, NotNegative);
    SortedIsListOrder(a[..]);
  }

  // ---------------------------------------------------------------------------
  // Handlers: filter from the full list, then sort what is shown

  /** `handleSearch`: with an empty term the list to sort is `invoices` itself,
      so the page's full list is reordered in place; otherwise a new array
      holds the matches. Either way the result is sorted. Only the invoices
      that get sorted need a non-negative pending amount. */
  method HandleSearch(invoices: array<Invoice>, term: string) returns (shown: array<Invoice>)
    requires forall x :: x in Search(invoices[..], term) ==> NotNegative(x)
    modifies invoices
    ensures term == "" ==> shown == invoices
    ensures term != "" ==> fresh(shown) && invoices[..] == old(invoices[..])
    ensures multiset(shown[..]) == multiset(Search(old(invoices[..]), term))
    ensures ListOrder(shown[..])
  {
    if term == "" {
      shown := invoices;
    } else {
      var matches := Search(invoices[..], term);
      shown := Seqs.ToArray(matches);
    }
    SortInvoices(shown);
  }

  /** `handleStatusFilter`: the empty status sorts `invoices` itself in place,
      any other status sorts a new array of the invoices that pass. A
      non-empty filter keeps only pending amounts of 0 or more, so only the
      empty one needs the full list to be free of negative amounts. */
  method HandleStatusFilter(invoices: array<Invoice>, status: string) returns (shown: array<Invoice>)
    requires status == "" ==> forall k :: 0 <= k < invoices.Length ==> NotNegative(invoices[k])
    modifies invoices
    ensures status == "" ==> shown == invoices
    ensures status != "" ==> fresh(shown) && invoices[..] == old(invoices[..])
    ensures multiset(shown[..]) == multiset(StatusFilter(old(invoices[..]), status))
    ensures ListOrder(shown[..])
  {
    if status == "" {
      shown := invoices;
    } else {
      var passing := StatusFilter(invoices[..], status);
      shown := Seqs.ToArray(passing);
    }
    SortInvoices(shown);
  }
}
