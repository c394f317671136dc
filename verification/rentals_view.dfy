/**
 * The "My Rentals" screen (Views/RentalsView.swift): its search, and how
 * each rented book becomes a catalog book and a rental row.
 */
module RentalsView {

  import opened Wrappers
  import opened Text
  import opened Books
  import Rentals
  import Users
  import Search

  /** A rented book matches when its name or category contains the search text, ignoring case. */
  predicate Matches(rb: RentedBook, searchText: string) {
    ContainsIgnoringCase(rb.name, searchText) || ContainsIgnoringCase(rb.category, searchText)
  }

  /** `filteredBooks`: everything for an empty search, otherwise the matching rented books in order. */
  function FilteredRentedBooks(rentedBooks: seq<RentedBook>, searchText: string): seq<RentedBook> {
    if |searchText| == 0 then rentedBooks else Search.Filter(rentedBooks, (rb: RentedBook) => Matches(rb, searchText))
  }

  /** An empty search shows every rented book; otherwise the result is the ordered selection of matches. */
  lemma FilteredRentedBooksCharacterised(rentedBooks: seq<RentedBook>, searchText: string)
    ensures |searchText| == 0 ==> FilteredRentedBooks(rentedBooks, searchText) == rentedBooks
    ensures |searchText| > 0 ==>
      var r := FilteredRentedBooks(rentedBooks, searchText);
      && Search.IsSubsequence(r, rentedBooks)
      && (forall i :: 0 <= i < |r| ==> Matches(r[i], searchText))
      && |r| == Search.CountKept(rentedBooks, (rb: RentedBook) => Matches(rb, searchText))
  {
    Search.FilterIsOrderedSelection(rentedBooks, (rb: RentedBook) => Matches(rb, searchText));
  }

  /** The catalog book shown for a rented book: same fields, `name` as title, marked rented. */
  function ToBook(rb: RentedBook): (b: Book)
    ensures b.id == rb.id && b.title == rb.name && b.category == rb.category
    ensures b.description == rb.description && b.price == rb.price && b.minimumRent == Some(rb.minimumRent)
    ensures b.status == rb.status && b.lenderId == rb.lenderId
    ensures b.createdAt == rb.createdAt && b.updatedAt == rb.updatedAt
    ensures b.isRented && !IsAvailable(b)
  {
    Book(rb.id, rb.name, rb.category, rb.description, rb.price, Some(rb.minimumRent),
         rb.status, rb.lenderId, rb.createdAt, rb.updatedAt, true)
  }

  const SecondsPerDay: int := 24 * 60 * 60

  /** `formattedDate`: the parsed rental moment, or the current time when `rentedAt` does not parse. */
  function RentedDate(rb: RentedBook, parse: string -> Option<int>, now: int): (d: int)
    ensures parse(rb.rentedAt).Some? ==> d == parse(rb.rentedAt).value
    ensures parse(rb.rentedAt).None? ==> d == now
  {
    parse(rb.rentedAt).GetOr(now)
  }

  /**
   * The rental row for a rented book: identified by the book's id, owned by
   * the signed-in user (0 without one), active, and expiring the minimum
   * rental period after it began.
   */
  function ToRental(rb: RentedBook, currentUser: Option<Users.User>, parse: string -> Option<int>, now: int): (r: Rentals.Rental)
    ensures r.id == rb.id && r.bookId == rb.id && r.isActive
    ensures r.userId == (if currentUser.Some? then currentUser.value.id else 0)
    ensures r.rentedDate == RentedDate(rb, parse, now)
    ensures r.expiryDate - r.rentedDate == rb.minimumRent * 86400
  {
    var start := RentedDate(rb, parse, now);
    Rentals.Rental(rb.id, rb.id, if currentUser.Some? then currentUser.value.id else 0,
                   start, start + rb.minimumRent * SecondsPerDay, true)
  }

  /** A row built from a rented book always reads as an active rental of that very book. */
  lemma RowMatchesBook(rb: RentedBook, currentUser: Option<Users.User>, parse: string -> Option<int>, now: int)
    ensures ToRental(rb, currentUser, parse, now).bookId == ToBook(rb).id
    ensures parse(rb.rentedAt).None? ==> ToRental(rb, currentUser, parse, now).expiryDate == now + rb.minimumRent * 86400
  {
  }
}
