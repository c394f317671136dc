/**
 * The book page (Views/BookDetailView.swift): whether the user holds the
 * book, the rent-duration stepper, what the rent button and content area
 * show, and when the payment sheet opens after a rent.
 */
module BookDetail {

  import opened Wrappers
  import opened Books
  import Rentals
  import Api
  import AppViewModel

  /** `rentals.contains { ... }`: scans for an active rental of the book. */
  function HasActiveRental(rentals: seq<Rentals.Rental>, bookId: int): bool
    decreases |rentals|
  {
    |rentals| > 0 && ((rentals[0].bookId == bookId && rentals[0].isActive) || HasActiveRental(rentals[1..], bookId))
  }

  /** `isRented`. */
  function IsRented(rentals: seq<Rentals.Rental>, b: Book): bool {
    HasActiveRental(rentals, b.id)
  }

  /** The book counts as rented exactly when some rental for it is active. */
  lemma {:induction false} IsRentedIffActiveRental(rentals: seq<Rentals.Rental>, b: Book)
    ensures IsRented(rentals, b) <==> exists i :: 0 <= i < |rentals| && rentals[i].bookId == b.id && rentals[i].isActive
    decreases |rentals|
  {
    if |rentals| > 0 {
      IsRentedIffActiveRental(rentals[1..], b);
      if IsRented(rentals[1..], b) {
        var j :| 0 <= j < |rentals[1..]| && rentals[1..][j].bookId == b.id && rentals[1..][j].isActive;
        assert rentals[j + 1] == rentals[1..][j];
      }
      if exists i :: 0 <= i < |rentals| && rentals[i].bookId == b.id && rentals[i].isActive {
        var i :| 0 <= i < |rentals| && rentals[i].bookId == b.id && rentals[i].isActive;
        if i > 0 {
          assert rentals[1..][i - 1] == rentals[i];
        }
      }
    }
  }

  /** The shortest rental the page allows: the book's minimum, or one day when it has none. */
  function MinimumDuration(b: Book): int {
    b.minimumRent.GetOr(1)
  }

  /** `onAppear`: the stepper starts at the minimum. */
  function OnAppear(b: Book): (d: int)
    ensures b.minimumRent.Some? ==> d == b.minimumRent.value
    ensures b.minimumRent.None? ==> d == 1
  {
    MinimumDuration(b)
  }

  datatype Tap = Decrement | Increment

  /** One tap on the stepper: minus only above the minimum, plus always. */
  function ApplyTap(b: Book, d: int, t: Tap): (r: int)
    ensures t == Increment ==> r == d + 1
    ensures t == Decrement && d > MinimumDuration(b) ==> r == d - 1
    ensures t == Decrement && d <= MinimumDuration(b) ==> r == d
  {
    match t
    case Decrement => if d > MinimumDuration(b) then d - 1 else d
    case Increment => d + 1
  }

  function ApplyTaps(b: Book, d: int, taps: seq<Tap>): int
    decreases |taps|
  {
    if |taps| == 0 then d else ApplyTaps(b, ApplyTap(b, d, taps[0]), taps[1..])
  }

  function CountTaps(taps: seq<Tap>, t: Tap): nat
    decreases |taps|
  {
    if |taps| == 0 then 0 else (if taps[0] == t then 1 else 0) + CountTaps(taps[1..], t)
  }

  /**
   * From any duration at or above the minimum, no sequence of taps takes it
   * below the minimum; it never exceeds the start plus the number of
   * increments and never drops by more than the number of decrements.
   */
  lemma {:induction false} StepperKeepsMinimum(b: Book, d: int, taps: seq<Tap>)
    requires d >= MinimumDuration(b)
    ensures ApplyTaps(b, d, taps) >= MinimumDuration(b)
    ensures ApplyTaps(b, d, taps) <= d + CountTaps(taps, Increment)
    ensures ApplyTaps(b, d, taps) >= d - CountTaps(taps, Decrement)
    decreases |taps|
  {
    if |taps| > 0 {
      StepperKeepsMinimum(b, ApplyTap(b, d, taps[0]), taps[1..]);
    }
  }

  /** Increments alone raise the duration by exactly their number: there is no upper bound. */
  lemma {:induction false} IncrementsUnbounded(b: Book, d: int, n: nat)
    ensures ApplyTaps(b, d, seq(n, _ => Increment)) == d + n
    decreases n
  {
    if n > 0 {
      assert seq(n, _ => Increment)[1..] == seq(n - 1, _ => Increment);
      IncrementsUnbounded(b, d + 1, n - 1);
    }
  }

  /** The stepper section is shown for available books only. */
  function StepperShown(b: Book): (r: bool)
    ensures r <==> b.status == "available" && !b.isRented
  {
    IsAvailable(b)
  }

  datatype Button = Hidden | Shown(enabled: bool)

  /** The rent button: present for an available book the user does not hold, disabled below the minimum. */
  function RentButton(rentals: seq<Rentals.Rental>, b: Book, duration: int): (r: Button)
    ensures r.Shown? <==> !IsRented(rentals, b) && IsAvailable(b)
    ensures r.Shown? ==> (r.enabled <==> duration >= MinimumDuration(b))
  {
    if !IsRented(rentals, b) && IsAvailable(b) then Shown(!(duration < MinimumDuration(b))) else Hidden
  }

  /** The rent button never appears without the duration stepper above it. */
  lemma RentButtonBelowStepper(rentals: seq<Rentals.Rental>, b: Book, duration: int)
    ensures RentButton(rentals, b, duration).Shown? ==> StepperShown(b)
    ensures !StepperShown(b) ==> RentButton(rentals, b, duration) == Hidden
  {
  }

  /** After the page appears, whatever the taps, a shown rent button is enabled. */
  lemma RentButtonEnabledAfterAppear(rentals: seq<Rentals.Rental>, b: Book, taps: seq<Tap>)
    ensures RentButton(rentals, b, ApplyTaps(b, OnAppear(b), taps)) != Shown(false)
  {
    StepperKeepsMinimum(b, OnAppear(b), taps);
  }

  datatype Content = Full(text: string) | Preview(text: string)

  /** The content area: the full text for a holder, the preview otherwise. */
  function ContentShown(rentals: seq<Rentals.Rental>, b: Book): (c: Content)
    ensures c.Full? <==> IsRented(rentals, b)
    ensures c.Full? ==> c.text == FullContent(b)
    ensures c.Preview? ==> c.text == b.description
  {
    if IsRented(rentals, b) then Full(FullContent(b)) else Preview(PreviewContent(b))
  }

  /** "Read More..." appears under a preview longer than 100 characters and works only for available books. */
  function ReadMoreButton(rentals: seq<Rentals.Rental>, b: Book): (r: Button)
    ensures r.Shown? <==> !IsRented(rentals, b) && |PreviewContent(b)| > 100
    ensures r.Shown? ==> r.enabled == IsAvailable(b)
  {
    if !IsRented(rentals, b) && |PreviewContent(b)| > 100 then Shown(IsAvailable(b)) else Hidden
  }

  /** After the rent call: the sheet opens when a payment link is held and parses as a URL. */
  function PaymentSheetOpens(s: AppViewModel.AppState, parseUrl: string -> Option<string>): (r: bool)
    ensures r <==> s.paymentUrl.Some? && parseUrl(s.paymentUrl.value).Some?
  {
    match s.paymentUrl
    case Some(link) => parseUrl(link).Some?
    case None => false
  }

  /** The order id handed to the payment page: the held one, or the empty string. */
  function SheetOrderId(s: AppViewModel.AppState): (r: string)
    ensures s.currentOrderId.Some? ==> r == s.currentOrderId.value
    ensures s.currentOrderId.None? ==> r == ""
  {
    s.currentOrderId.GetOr("")
  }

  /** Tapping "Rent": rent for the stepper's duration, then decide on the payment sheet. */
  function ConfirmRent(s: AppViewModel.AppState, b: Book, duration: int,
                       rentT: Api.Transport<Api.RentalResponse>, booksT: Api.Transport<seq<Book>>,
                       isValidUrl: string -> bool, parseUrl: string -> Option<string>): (r: (AppViewModel.AppState, bool))
    ensures !r.0.isLoading
    ensures var res := Api.Perform(s.client, Api.RentBook(b.id, duration), rentT, isValidUrl);
      && (res.Ok? ==> (r.1 <==> parseUrl(res.value.paymentUrl).Some?) && SheetOrderId(r.0) == res.value.orderId)
      && (res.Err? ==>
            && r.0.paymentUrl == s.paymentUrl && r.0.currentOrderId == s.currentOrderId
            && r.0.errorMessage == Some(res.error) && r.1 == PaymentSheetOpens(s, parseUrl))
  {
    var after := AppViewModel.RentBook(s, b.id, duration, rentT, booksT, isValidUrl);
    (after, PaymentSheetOpens(after, parseUrl))
  }

  /**
   * A rent that fails after an earlier one succeeded still opens the sheet,
   * with the earlier payment link and order: the link is never cleared.
   */
  lemma FailedRentReopensEarlierLink(s: AppViewModel.AppState, b: Book, duration: int,
                                     rentT: Api.Transport<Api.RentalResponse>, booksT: Api.Transport<seq<Book>>,
                                     isValidUrl: string -> bool, parseUrl: string -> Option<string>)
    requires s.paymentUrl.Some? && parseUrl(s.paymentUrl.value).Some?
    requires Api.Perform(s.client, Api.RentBook(b.id, duration), rentT, isValidUrl).Err?
    ensures var (after, opens) := ConfirmRent(s, b, duration, rentT, booksT, isValidUrl, parseUrl);
      opens && after.paymentUrl == s.paymentUrl && after.currentOrderId == s.currentOrderId && after.errorMessage.Some?
  {
  }

  /**
   * After a successful rent the sheet opens exactly when the new payment link
   * parses, and the payment page polls the order that rent created.
   */
  lemma SheetShowsNewOrder(s: AppViewModel.AppState, b: Book, duration: int,
                           rentT: Api.Transport<Api.RentalResponse>, booksT: Api.Transport<seq<Book>>,
                           isValidUrl: string -> bool, parseUrl: string -> Option<string>)
    requires Api.Perform(s.client, Api.RentBook(b.id, duration), rentT, isValidUrl).Ok?
    ensures var (after, opens) := ConfirmRent(s, b, duration, rentT, booksT, isValidUrl, parseUrl);
      var resp := Api.Perform(s.client, Api.RentBook(b.id, duration), rentT, isValidUrl).value;
      && (opens <==> parseUrl(resp.paymentUrl).Some?)
      && SheetOrderId(after) == resp.orderId
  {
  }

  /**
   * `rentals` starts empty and no action fills it, so on every page a fresh
   * app shows, whatever the user did, no book counts as rented.
   */
  lemma NoBookEverRented(actions: seq<AppViewModel.Action>, b: Book, isValidUrl: string -> bool)
    ensures !IsRented(AppViewModel.Run(AppViewModel.Initial, actions, isValidUrl).rentals, b)
  {
    AppViewModel.RunKeepsRentals(AppViewModel.Initial, actions, isValidUrl);
  }
}
