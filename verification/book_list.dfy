/** The catalog search (Views/BookListView.swift). */
module BookList {

  import opened Text
  import opened Books
  import Search

  /** A book matches when its title, category or author contains the search text, ignoring case. */
  predicate Matches(b: Book, searchText: string) {
    ContainsIgnoringCase(b.title, searchText)
    || ContainsIgnoringCase(b.category, searchText)
    || ContainsIgnoringCase(Author(b), searchText)
  }

  /** `filteredBooks`: everything for an empty search, otherwise the matching books in catalog order. */
  function FilteredBooks(books: seq<Book>, searchText: string): seq<Book> {
    if |searchText| == 0 then books else Search.Filter(books, (b: Book) => Matches(b, searchText))
  }

  /**
   * An empty search shows the whole catalog; any other search shows an
   * order-preserving subsequence holding exactly the matching books, each as
   * often as it occurs in the catalog.
   */
  lemma FilteredBooksCharacterised(books: seq<Book>, searchText: string, b: Book)
    ensures |searchText| == 0 ==> FilteredBooks(books, searchText) == books
    ensures Search.IsSubsequence(FilteredBooks(books, searchText), books)
    ensures |searchText| > 0 ==>
      && (forall i :: 0 <= i < |FilteredBooks(books, searchText)| ==> Matches(FilteredBooks(books, searchText)[i], searchText))
      && |FilteredBooks(books, searchText)| == Search.CountKept(books, (b: Book) => Matches(b, searchText))
      && (b in FilteredBooks(books, searchText) <==> b in books && Matches(b, searchText))
  {
    var keep := (b: Book) => Matches(b, searchText);
    Search.FilterIsOrderedSelection(books, keep);
    Search.FilterMembership(books, keep, b);
    if |searchText| == 0 {
      SubsequenceOfItself(books);
    }
  }

  lemma {:induction false} SubsequenceOfItself(xs: seq<Book>)
    ensures Search.IsSubsequence(xs, xs)
    decreases |xs|
  {
    if |xs| > 0 {
      SubsequenceOfItself(xs[1..]);
    }
  }

  /** Searching the search result again with the same text changes nothing. */
  lemma FilteredBooksIdempotent(books: seq<Book>, searchText: string)
    ensures FilteredBooks(FilteredBooks(books, searchText), searchText) == FilteredBooks(books, searchText)
  {
    Search.FilterIdempotent(books, (b: Book) => Matches(b, searchText));
  }

  /** Each book matches the lower-cased search text exactly when it matches the text itself. */
  lemma MatchesIgnoresCase(books: seq<Book>, searchText: string)
    ensures Search.Filter(books, (b: Book) => Matches(b, Lower(searchText)))
         == Search.Filter(books, (b: Book) => Matches(b, searchText))
  {
    var f := (b: Book) => Matches(b, Lower(searchText));
    var g := (b: Book) => Matches(b, searchText);
    forall i | 0 <= i < |books| ensures f(books[i]) == g(books[i]) {
      IgnoringCaseFoldedNeedle(books[i].title, searchText);
      IgnoringCaseFoldedNeedle(books[i].category, searchText);
      IgnoringCaseFoldedNeedle(Author(books[i]), searchText);
    }
    Search.FilterCongruent(books, f, g);
  }

  /** Case does not matter: the lower-cased search text finds the same books, for every search text. */
  lemma SearchIgnoresCase(books: seq<Book>, searchText: string)
    ensures FilteredBooks(books, Lower(searchText)) == FilteredBooks(books, searchText)
  {
    MatchesIgnoresCase(books, searchText);
    assert |Lower(searchText)| == |searchText|;
  }
}
