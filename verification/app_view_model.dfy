/**
 * The app-wide view model (ViewModels/AppViewModel.swift). Each `async`
 * action is a transition from the state before it to the state after it,
 * given what the transport answered for each call the action makes.
 */
module AppViewModel {

  import opened Wrappers
  import opened Api
  import Users
  import Books
  import Rentals

  /**
   * The published state. `errorMessage` holds the error whose
   * `localizedDescription` the source stores; the client is the shared API
   * service, whose token the login and register calls change.
   */
  datatype AppState = AppState(
    client: Client,
    currentUser: Option<Users.User>,
    books: seq<Books.Book>,
    rentals: seq<Rentals.Rental>,
    isLoading: bool,
    errorMessage: Option<CallError>,
    paymentUrl: Option<string>,
    currentOrderId: Option<string>,
    rentedBooks: seq<Books.RentedBook>)

  /** A freshly created view model. */
  const Initial: AppState := AppState(InitialClient, None, [], [], false, None, None, None, [])

  /** The state observers see while login, register or rent is waiting on the network. */
  function BeginRequest(s: AppState): (r: AppState)
    ensures r.isLoading && r.errorMessage.None?
    ensures r.(isLoading := s.isLoading, errorMessage := s.errorMessage) == s
  {
    s.(isLoading := true, errorMessage := None)
  }

  /**
   * `fetchBooks`, which throws: on success the list replaces `books` whole;
   * on failure nothing changes and the error is handed to the caller.
   */
  function FetchBooks(s: AppState, t: Transport<seq<Books.Book>>, isValidUrl: string -> bool): (r: (AppState, Option<CallError>))
    ensures r.1.None? <==> Perform(s.client, Api.FetchBooks, t, isValidUrl).Ok?
    ensures r.1.None? ==> r.0 == s.(books := t.payload.value)
    ensures r.1.Some? ==> r.0 == s && Perform(s.client, Api.FetchBooks, t, isValidUrl) == Err(r.1.value)
  {
    match Perform(s.client, Api.FetchBooks, t, isValidUrl)
    case Ok(books) => (s.(books := books), None)
    case Err(e) => (s, Some(e))
  }

  /** Ends an action: records the error if there was one. */
  function Settle(s: AppState, err: Option<CallError>): AppState {
    match err
    case Some(e) => s.(errorMessage := Some(e))
    case None => s
  }

  /** `login`: authenticate, store the user, then load the catalog. */
  function Login(s: AppState, username: string, password: string,
                 loginT: Transport<Users.LoginResponse>, booksT: Transport<seq<Books.Book>>,
                 isValidUrl: string -> bool): (r: AppState)
    ensures !r.isLoading
    ensures var auth := Perform(s.client, Api.Login(username, password), loginT, isValidUrl);
      && (auth.Ok? ==> r.currentUser == Some(auth.value.user) && r.client.authToken == Some(auth.value.token))
      && (auth.Err? ==> r.currentUser == s.currentUser && r.client == s.client && r.errorMessage == Some(auth.error))
      && (auth.Err? ==> r.books == s.books)
    ensures r.rentals == s.rentals && r.paymentUrl == s.paymentUrl
         && r.currentOrderId == s.currentOrderId && r.rentedBooks == s.rentedBooks
  {
    var s1 := BeginRequest(s);
    var (client, auth) := CallLogin(s1.client, username, password, loginT, isValidUrl);
    var s2 := s1.(client := client);
    var s3 := match auth
      case Err(e) => Settle(s2, Some(e))
      case Ok(resp) =>
        var (s4, err) := FetchBooks(s2.(currentUser := Some(resp.user)), booksT, isValidUrl);
        Settle(s4, err);
    s3.(isLoading := false)
  }

  /** A login clears any earlier error: it ends without one exactly when both calls succeeded. */
  lemma LoginErrorReset(s: AppState, username: string, password: string,
                        loginT: Transport<Users.LoginResponse>, booksT: Transport<seq<Books.Book>>,
                        isValidUrl: string -> bool)
    ensures var r := Login(s, username, password, loginT, booksT, isValidUrl);
      var auth := Perform(s.client, Api.Login(username, password), loginT, isValidUrl);
      var c := Perform(s.client, Api.FetchBooks, booksT, isValidUrl);
      && (r.errorMessage.None? <==> auth.Ok? && c.Ok?)
      && (auth.Ok? && c.Ok? ==> r.books == c.value)
      && (auth.Ok? && c.Err? ==>
            r.books == s.books && r.errorMessage == Some(c.error) && r.currentUser == Some(auth.value.user))
  {
  }

  /** `register`: authenticate and store the user; no catalog load follows. */
  function Register(s: AppState, username: string, password: string,
                    t: Transport<Users.RegisterResponse>, isValidUrl: string -> bool): (r: AppState)
    ensures !r.isLoading
    ensures var auth := Perform(s.client, Api.Register(username, password), t, isValidUrl);
      && (auth.Ok? ==>
            r.currentUser == Some(auth.value.trimmedUser) && r.errorMessage.None? && r.client.authToken == Some(auth.value.token))
      && (auth.Err? ==> r.currentUser == s.currentUser && r.client == s.client && r.errorMessage == Some(auth.error))
    ensures r.books == s.books && r.rentals == s.rentals && r.paymentUrl == s.paymentUrl
         && r.currentOrderId == s.currentOrderId && r.rentedBooks == s.rentedBooks
  {
    var s1 := BeginRequest(s);
    var (client, auth) := CallRegister(s1.client, username, password, t, isValidUrl);
    var s2 := s1.(client := client);
    var s3 := match auth
      case Err(e) => Settle(s2, Some(e))
      case Ok(resp) => s2.(currentUser := Some(resp.trimmedUser));
    s3.(isLoading := false)
  }

  /**
   * `rentBook`: request the rental, remember its payment link and order, then
   * reload the catalog. The rent request carries the length as given.
   */
  function RentBook(s: AppState, bookId: int, rentLength: int,
                    rentT: Transport<RentalResponse>, booksT: Transport<seq<Books.Book>>,
                    isValidUrl: string -> bool): (r: AppState)
    ensures !r.isLoading
    ensures var rent := Perform(s.client, Api.RentBook(bookId, rentLength), rentT, isValidUrl);
      && (rent.Ok? ==> r.paymentUrl == Some(rent.value.paymentUrl) && r.currentOrderId == Some(rent.value.orderId))
      && (rent.Err? ==>
            r.paymentUrl == s.paymentUrl && r.currentOrderId == s.currentOrderId
            && r.errorMessage == Some(rent.error) && r.books == s.books)
      && (rent.Ok? ==> var c := Perform(s.client, Api.FetchBooks, booksT, isValidUrl);
                       && (c.Ok? ==> r.books == c.value && r.errorMessage.None?)
                       && (c.Err? ==> r.books == s.books && r.errorMessage == Some(c.error)))
    ensures r.client == s.client && r.currentUser == s.currentUser && r.rentals == s.rentals
         && r.rentedBooks == s.rentedBooks
  {
    var s1 := BeginRequest(s);
    var s2 := match Perform(s1.client, Api.RentBook(bookId, rentLength), rentT, isValidUrl)
      case Err(e) => Settle(s1, Some(e))
      case Ok(resp) =>
        var (s3, err) := FetchBooks(s1.(paymentUrl := Some(resp.paymentUrl), currentOrderId := Some(resp.orderId)),
                                    booksT, isValidUrl);
        Settle(s3, err);
    s2.(isLoading := false)
  }

  /**
   * `fetchRentedBooks`: reload the user's rented books. Unlike the other
   * actions it does not clear an earlier error first.
   */
  function FetchRentedBooks(s: AppState, t: Transport<seq<Books.RentedBook>>, isValidUrl: string -> bool): (r: AppState)
    ensures !r.isLoading
    ensures var res := Perform(s.client, Api.FetchRentedBooks, t, isValidUrl);
      && (res.Ok? ==> r.rentedBooks == res.value && r.errorMessage == s.errorMessage)
      && (res.Err? ==> r.rentedBooks == s.rentedBooks && r.errorMessage == Some(res.error))
    ensures r.client == s.client && r.currentUser == s.currentUser && r.books == s.books
         && r.rentals == s.rentals && r.paymentUrl == s.paymentUrl && r.currentOrderId == s.currentOrderId
  {
    var s1 := s.(isLoading := true);
    var s2 := match Perform(s1.client, Api.FetchRentedBooks, t, isValidUrl)
      case Ok(list) => s1.(rentedBooks := list)
      case Err(e) => Settle(s1, Some(e));
    s2.(isLoading := false)
  }

  /** An earlier error survives a successful refresh of rented books. */
  lemma RentedRefreshKeepsStaleError(s: AppState, list: seq<Books.RentedBook>, isValidUrl: string -> bool)
    requires RequestFor(s.client, Api.FetchRentedBooks, isValidUrl).Some?
    requires s.errorMessage.Some?
    ensures FetchRentedBooks(s, Http(200, Some(list)), isValidUrl).errorMessage == s.errorMessage
    ensures FetchRentedBooks(s, Http(200, Some(list)), isValidUrl).rentedBooks == list
  {
  }

  /** None of the actions ever touches `rentals`: the list is never filled from the server. */
  lemma RentalsNeverChange(s: AppState, u: string, p: string, lt: Transport<Users.LoginResponse>,
                           rt: Transport<Users.RegisterResponse>, kt: Transport<RentalResponse>,
                           bt: Transport<seq<Books.Book>>, dt: Transport<seq<Books.RentedBook>>,
                           id: int, n: int, isValidUrl: string -> bool)
    ensures Login(s, u, p, lt, bt, isValidUrl).rentals == s.rentals
    ensures Register(s, u, p, rt, isValidUrl).rentals == s.rentals
    ensures RentBook(s, id, n, kt, bt, isValidUrl).rentals == s.rentals
    ensures FetchRentedBooks(s, dt, isValidUrl).rentals == s.rentals
    ensures FetchBooks(s, bt, isValidUrl).0.rentals == s.rentals
  {
  }

  /** A fresh view model is signed out, and no request it builds carries a bearer header. */
  lemma InitialSignedOut(e: Endpoint, isValidUrl: string -> bool)
    ensures Initial.currentUser.None? && !Initial.isLoading && Initial.errorMessage.None?
    ensures Initial.paymentUrl.None? && Initial.currentOrderId.None?
    ensures RequestFor(Initial.client, e, isValidUrl).Some? ==>
      Authorization !in RequestFor(Initial.client, e, isValidUrl).value.headers
  {
  }

  /** One action a view triggers, with what the transport answers to each call it makes. */
  datatype Action =
    | DoLogin(username: string, password: string, loginT: Transport<Users.LoginResponse>, booksT: Transport<seq<Books.Book>>)
    | DoRegister(username: string, password: string, registerT: Transport<Users.RegisterResponse>)
    | DoFetchBooks(fetchT: Transport<seq<Books.Book>>)
    | DoRentBook(bookId: int, rentLength: int, rentT: Transport<RentalResponse>, afterRentT: Transport<seq<Books.Book>>)
    | DoFetchRentedBooks(rentedT: Transport<seq<Books.RentedBook>>)

  /** The state after one action. */
  function Step(s: AppState, a: Action, isValidUrl: string -> bool): AppState {
    match a
    case DoLogin(u, p, lt, bt) => Login(s, u, p, lt, bt, isValidUrl)
    case DoRegister(u, p, rt) => Register(s, u, p, rt, isValidUrl)
    case DoFetchBooks(bt) => FetchBooks(s, bt, isValidUrl).0
    case DoRentBook(id, n, kt, bt) => RentBook(s, id, n, kt, bt, isValidUrl)
    case DoFetchRentedBooks(dt) => FetchRentedBooks(s, dt, isValidUrl)
  }

  /** The state after a sequence of actions, one finishing before the next starts. */
  function Run(s: AppState, actions: seq<Action>, isValidUrl: string -> bool): AppState
    decreases |actions|
  {
    if |actions| == 0 then s else Run(Step(s, actions[0], isValidUrl), actions[1..], isValidUrl)
  }

  /** No single action changes `rentals`. */
  lemma StepKeepsRentals(s: AppState, a: Action, isValidUrl: string -> bool)
    ensures Step(s, a, isValidUrl).rentals == s.rentals
  {
    match a
    case DoLogin(u, p, lt, bt) =>
      RentalsNeverChange(s, u, p, lt, Http(0, None), Http(0, None), bt, Http(0, None), 0, 0, isValidUrl);
    case DoRegister(u, p, rt) =>
      RentalsNeverChange(s, u, p, Http(0, None), rt, Http(0, None), Http(0, None), Http(0, None), 0, 0, isValidUrl);
    case DoFetchBooks(bt) =>
    case DoRentBook(id, n, kt, bt) =>
    case DoFetchRentedBooks(dt) =>
  }

  /** No sequence of actions changes `rentals`. */
  lemma {:induction false} RunKeepsRentals(s: AppState, actions: seq<Action>, isValidUrl: string -> bool)
    ensures Run(s, actions, isValidUrl).rentals == s.rentals
    decreases |actions|
  {
    if |actions| > 0 {
      StepKeepsRentals(s, actions[0], isValidUrl);
      RunKeepsRentals(Step(s, actions[0], isValidUrl), actions[1..], isValidUrl);
    }
  }
}
