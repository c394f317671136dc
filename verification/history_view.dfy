/** The transaction-history screen (Views/HistoryView.swift): its search and status badge colours. */
module HistoryView {

  import opened Text
  import opened History
  import Transactions
  import Search

  predicate Matches(h: TransactionHistory, searchText: string) {
    ContainsIgnoringCase(h.itemName, searchText)
  }

  /** `filteredTransactions`: everything for an empty search, otherwise entries whose item name matches. */
  function FilteredTransactions(entries: seq<TransactionHistory>, searchText: string): seq<TransactionHistory> {
    if |searchText| == 0 then entries else Search.Filter(entries, (h: TransactionHistory) => Matches(h, searchText))
  }

  /** Server order is kept, and exactly the entries whose item name matches remain. */
  lemma FilteredTransactionsCharacterised(entries: seq<TransactionHistory>, searchText: string, h: TransactionHistory)
    ensures |searchText| == 0 ==> FilteredTransactions(entries, searchText) == entries
    ensures |searchText| > 0 ==>
      var r := FilteredTransactions(entries, searchText);
      && Search.IsSubsequence(r, entries)
      && (forall i :: 0 <= i < |r| ==> Matches(r[i], searchText))
      && |r| == Search.CountKept(entries, (h: TransactionHistory) => Matches(h, searchText))
      && (h in r <==> h in entries && ContainsIgnoringCase(h.itemName, searchText))
  {
    var keep := (h: TransactionHistory) => Matches(h, searchText);
    Search.FilterIsOrderedSelection(entries, keep);
    Search.FilterMembership(entries, keep, h);
  }

  datatype Color = Green | Orange | Red | Gray

  /** `StatusBadge.backgroundColor`: chosen from the lower-cased status. */
  function BadgeColor(status: string): Color {
    var folded := Lower(status);
    if folded == "settlement" then Green
    else if folded == "pending" then Orange
    else if folded == "canceled" then Red
    else Gray
  }

  /**
   * Each colour belongs to exactly one lower-cased status, gray to every
   * other string; statuses equal up to case get the same colour.
   */
  lemma BadgeColorCharacterised(status: string, other: string)
    ensures BadgeColor(status) == Green <==> Lower(status) == "settlement"
    ensures BadgeColor(status) == Orange <==> Lower(status) == "pending"
    ensures BadgeColor(status) == Red <==> Lower(status) == "canceled"
    ensures BadgeColor(status) == Gray <==> Lower(status) !in {"settlement", "pending", "canceled"}
    ensures Lower(status) == Lower(other) ==> BadgeColor(status) == BadgeColor(other)
  {
  }

  /** Every payment status gets its own colour. */
  lemma PaymentStatusColors(p: Transactions.PaymentStatus)
    ensures BadgeColor(Transactions.RawValue(p)) != Gray
  {
    assert Lower("pending") == "pending";
    assert Lower("settlement") == "settlement";
    assert Lower("canceled") == "canceled";
  }

  /** Capitalisation does not change the colour. */
  lemma CapitalisedStatusColors()
    ensures BadgeColor("SETTLEMENT") == Green
    ensures BadgeColor("Canceled") == Red
  {
    assert Lower("SETTLEMENT") == "settlement";
    assert Lower("Canceled") == "canceled";
  }
}
