/**
 * A transaction-history entry and its display fields: the identifier, the
 * start and end dates with their fallback, and the price with thousands
 * grouping (Models/TransactionHistory.swift).
 */
module History {

  import opened Wrappers
  import opened Text

  datatype TransactionHistory = TransactionHistory(
    transactionId: int,
    itemId: int,
    itemName: string,
    itemPrice: string,
    rentalStatus: string,
    transactionStatus: string,
    startDate: string,
    endDate: string)

  /** Reply of `GET /rent/history`, entries in server order. */
  datatype TransactionHistoryResponse = TransactionHistoryResponse(message: string, transactionHistory: seq<TransactionHistory>)

  /** The list identity of an entry. */
  function Id(h: TransactionHistory): int {
    h.transactionId
  }

  /** Two entries share a list identity exactly when they share a transaction id. */
  lemma IdIsTransactionId(h: TransactionHistory, k: TransactionHistory)
    ensures Id(h) == h.transactionId
    ensures Id(h) == Id(k) <==> h.transactionId == k.transactionId
  {
  }

  /**
   * The start date: parsed with the entry's date format, or the current time
   * when it does not parse (never the raw string).
   */
  function FormattedStartDate(h: TransactionHistory, parse: string -> Option<int>, now: int): (r: int)
    ensures parse(h.startDate).Some? ==> r == parse(h.startDate).value
    ensures parse(h.startDate).None? ==> r == now
  {
    parse(h.startDate).GetOr(now)
  }

  /** The end date, with the same fallback to the current time. */
  function FormattedEndDate(h: TransactionHistory, parse: string -> Option<int>, now: int): (r: int)
    ensures parse(h.endDate).Some? ==> r == parse(h.endDate).value
    ensures parse(h.endDate).None? ==> r == now
  {
    parse(h.endDate).GetOr(now)
  }

  /** Groups a digit string in threes from the right, with `.` between groups. */
  function Group(s: string): string
    decreases |s|
  {
    if |s| <= 3 then s else Group(s[..|s| - 3]) + "." + s[|s| - 3..]
  }

  /** `Int.formattedWithSeparator`: the decimal form with `.` as the grouping separator. */
  function Grouped(n: int): string {
    if n < 0 then "-" + Group(Decimal(-n)) else Group(Decimal(n))
  }

  /** The string with every grouping separator deleted. */
  function RemoveSeparators(t: string): (r: string)
    ensures forall i :: 0 <= i < |r| ==> r[i] != '.'
  {
    if |t| == 0 then []
    else (if t[0] == '.' then [] else [t[0]]) + RemoveSeparators(t[1..])
  }

  lemma {:induction false} RemoveSeparatorsAppend(a: string, b: string)
    ensures RemoveSeparators(a + b) == RemoveSeparators(a) + RemoveSeparators(b)
    decreases |a|
  {
    if |a| > 0 {
      assert (a + b)[1..] == a[1..] + b;
      RemoveSeparatorsAppend(a[1..], b);
    } else {
      assert a + b == b;
    }
  }

  lemma {:induction false} RemoveSeparatorsNoDots(s: string)
    requires AllDigits(s)
    ensures RemoveSeparators(s) == s
    decreases |s|
  {
    if |s| > 0 {
      RemoveSeparatorsNoDots(s[1..]);
      assert s == [s[0]] + s[1..];
    }
  }

  /** Deleting the separators from a grouped digit string gives the digit string back. */
  lemma {:induction false} GroupRemovesToDigits(s: string)
    requires AllDigits(s)
    ensures RemoveSeparators(Group(s)) == s
    decreases |s|
  {
    if |s| <= 3 {
      RemoveSeparatorsNoDots(s);
    } else {
      var p, l := s[..|s| - 3], s[|s| - 3..];
      GroupRemovesToDigits(p);
      RemoveSeparatorsAppend(Group(p) + ".", l);
      RemoveSeparatorsAppend(Group(p), ".");
      RemoveSeparatorsNoDots(l);
      assert RemoveSeparators(".") == [];
      assert p + l == s;
    }
  }

  /**
   * The shape of a grouped number: digits and separators only, a leading
   * group of one to three digits, and every separator followed by exactly
   * three digits and then the end or another separator.
   */
  predicate WellGrouped(t: string) {
    && 0 < |t|
    && IsDigit(t[0])
    && (forall i :: 0 <= i < |t| ==> IsDigit(t[i]) || t[i] == '.')
    && (|t| > 3 ==> t[1] == '.' || t[2] == '.' || t[3] == '.')
    && (forall i :: 0 <= i < |t| && t[i] == '.' ==>
          && i + 3 < |t|
          && IsDigit(t[i + 1]) && IsDigit(t[i + 2]) && IsDigit(t[i + 3])
          && (i + 4 == |t| || t[i + 4] == '.'))
  }

  lemma {:induction false} GroupIsWellGrouped(s: string)
    requires 0 < |s| && AllDigits(s)
    ensures WellGrouped(Group(s))
    decreases |s|
  {
    if |s| > 3 {
      var p, l := s[..|s| - 3], s[|s| - 3..];
      GroupIsWellGrouped(p);
      var g := Group(p);
      var t := g + "." + l;
      assert Group(s) == t;
      assert |t| == |g| + 4;
      assert forall i :: 0 <= i < |g| ==> t[i] == g[i];
      assert t[|g|] == '.';
      assert forall i :: |g| < i < |t| ==> t[i] == l[i - |g| - 1] && IsDigit(t[i]);
      forall i | 0 <= i < |t| && t[i] == '.'
        ensures i + 3 < |t| && IsDigit(t[i + 1]) && IsDigit(t[i + 2]) && IsDigit(t[i + 3])
        ensures i + 4 == |t| || t[i + 4] == '.'
      {
        if i < |g| {
          assert g[i] == '.';
        }
      }
    }
  }

  /** Grouping a natural number: its digits survive separator deletion and the groups are well formed. */
  lemma GroupedNatural(n: nat)
    ensures RemoveSeparators(Grouped(n)) == Decimal(n)
    ensures DigitsValue(RemoveSeparators(Grouped(n))) == n
    ensures WellGrouped(Grouped(n))
    ensures Grouped(n)[0] == '0' ==> n == 0
  {
    GroupRemovesToDigits(Decimal(n));
    DecimalRoundTrip(n);
    GroupIsWellGrouped(Decimal(n));
    assert Group(Decimal(n))[0] == Decimal(n)[0] by {
      GroupFirstChar(Decimal(n));
    }
  }

  lemma {:induction false} GroupFirstChar(s: string)
    requires 0 < |s|
    ensures 0 < |Group(s)| && Group(s)[0] == s[0]
    decreases |s|
  {
    if |s| > 3 {
      GroupFirstChar(s[..|s| - 3]);
    }
  }

  /** A negative number is a minus sign followed by the grouping of its magnitude. */
  lemma GroupedNegative(n: int)
    requires n < 0
    ensures Grouped(n)[0] == '-' && Grouped(n)[1..] == Grouped(-n)
  {
  }

  const PricePrefix: string := "Rp "

  /**
   * `formattedPrice`: when the price string reads as a number (Foundation's
   * `Double(_:)` then `Int(_:)`, given here as `parsePrice`), "Rp " and the
   * grouped whole part; otherwise the price string unchanged.
   */
  function FormattedPrice(h: TransactionHistory, parsePrice: string -> Option<int>): (r: string)
    ensures parsePrice(h.itemPrice).None? ==> r == h.itemPrice
    ensures parsePrice(h.itemPrice).Some? ==>
      && |PricePrefix| < |r|
      && r[..|PricePrefix|] == PricePrefix
      && r[|PricePrefix|..] == Grouped(parsePrice(h.itemPrice).value)
  {
    match parsePrice(h.itemPrice)
    case Some(n) => PricePrefix + Grouped(n)
    case None => h.itemPrice
  }

  /** A parsed non-negative price displays as "Rp " and a well-grouped form of the same number. */
  lemma FormattedPriceReadsBack(h: TransactionHistory, parsePrice: string -> Option<int>)
    requires parsePrice(h.itemPrice).Some? && parsePrice(h.itemPrice).value >= 0
    ensures var r := FormattedPrice(h, parsePrice);
      && WellGrouped(r[|PricePrefix|..])
      && RemoveSeparators(r[|PricePrefix|..]) == Decimal(parsePrice(h.itemPrice).value)
  {
    GroupedNatural(parsePrice(h.itemPrice).value);
  }

  /** Example: fifty thousand rupiah displays as "Rp 50.000". */
  lemma FiftyThousand()
    ensures Grouped(50000) == "50.000"
    ensures Grouped(999) == "999"
  {
    assert Decimal(50000) == "50000";
    assert Decimal(999) == "999";
  }
}
