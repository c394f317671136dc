/** Payment statuses and the transaction-status reply (Models/Transaction.swift). */
module Transactions {

  import opened Wrappers

  /** Reply of `GET /rent/transaction-status/{orderId}`; `status` is any string the server sends. */
  datatype TransactionStatus = TransactionStatus(message: string, orderId: string, status: string)

  datatype PaymentStatus = Pending | Settlement | Canceled

  /** The raw value of each case. */
  function RawValue(p: PaymentStatus): string {
    match p
    case Pending => "pending"
    case Settlement => "settlement"
    case Canceled => "canceled"
  }

  /** `PaymentStatus(rawValue:)`: exact, case-sensitive match against the raw values. */
  function FromRawValue(s: string): (r: Option<PaymentStatus>)
    ensures r.Some? ==> RawValue(r.value) == s
  {
    if s == "pending" then Some(Pending)
    else if s == "settlement" then Some(Settlement)
    else if s == "canceled" then Some(Canceled)
    else None
  }

  /** Parsing succeeds exactly for the three raw values, and inverts `RawValue`. */
  lemma RawValueRoundTrip(s: string, p: PaymentStatus)
    ensures FromRawValue(s).Some? <==> s == "pending" || s == "settlement" || s == "canceled"
    ensures FromRawValue(RawValue(p)) == Some(p)
    ensures FromRawValue(s) == Some(p) <==> s == RawValue(p)
  {
  }

  /** Matching is case-sensitive and spelling-exact: neither a capital letter nor "cancelled" is accepted. */
  lemma MatchingIsExact()
    ensures FromRawValue("Settlement") == None
    ensures FromRawValue("PENDING") == None
    ensures FromRawValue("cancelled") == None
  {
  }

  /** A reply may carry any status string, including one no case matches. */
  lemma UnknownStatusReachesCallers()
    ensures exists t: TransactionStatus :: FromRawValue(t.status).None?
  {
    assert FromRawValue(TransactionStatus("", "", "expired").status).None?;
  }
}
