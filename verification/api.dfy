/**
 * The HTTP client (Services/APIService.swift): how each request is built,
 * which status codes each call accepts, how failures become errors, and when
 * the held bearer token changes. The transport is an input: what
 * `URLSession` answered, reduced to a status code and whether the body
 * decoded into the expected shape.
 */
module Api {

  import opened Wrappers
  import opened Text
  import Users

  datatype HttpMethod = Get | Post

  /** The JSON bodies the client sends. */
  datatype Body = Credentials(username: string, password: string) | RentLength(rentLength: int)

  datatype Request = Request(url: string, httpMethod: HttpMethod, headers: map<string, string>, body: Option<Body>)

  /** The client's state: two base URLs and the bearer token it holds, if any. */
  datatype Client = Client(baseURL: string, rentBaseURL: string, authToken: Option<string>)

  const InitialClient: Client := Client("http://localhost:3010", "https://35ff-20-2-202-8.ngrok-free.app", None)

  /** Reply of `POST /rent/item/{id}`. */
  datatype RentalResponse = RentalResponse(message: string, orderId: string, snapToken: string, paymentUrl: string)

  /** Reply of `GET /items/{id}/access`; `content` should hold a URL. */
  datatype BookAccessResponse = BookAccessResponse(message: string, content: string)

  /** `setBaseURL` replaces the URL every request is built from; `baseURL` stays as it was. */
  function SetBaseURL(c: Client, url: string): (r: Client)
    ensures r.rentBaseURL == url && r.baseURL == c.baseURL && r.authToken == c.authToken
  {
    c.(rentBaseURL := url)
  }

  function SetAuthToken(c: Client, token: Option<string>): (r: Client)
    ensures r.authToken == token && r.baseURL == c.baseURL && r.rentBaseURL == c.rentBaseURL
  {
    c.(authToken := token)
  }

  const ContentType: string := "Content-Type"
  const Authorization: string := "Authorization"

  /**
   * `createRequest`: the URL is the rent base URL followed by the path, for
   * either value of `useRentURL`; `nil` when that string is not a valid URL
   * (`URL(string:)`, given as `isValidUrl`).
   */
  function CreateRequest(c: Client, path: string, httpMethod: HttpMethod, body: Option<Body>,
                         useRentURL: bool, isValidUrl: string -> bool): (r: Option<Request>)
    ensures r.Some? <==> isValidUrl(c.rentBaseURL + path)
    ensures r.Some? ==> r.value.url == c.rentBaseURL + path && r.value.httpMethod == httpMethod && r.value.body == body
    ensures r.Some? ==> r.value.headers.Keys == {ContentType} + (if c.authToken.Some? then {Authorization} else {})
    ensures r.Some? ==> r.value.headers[ContentType] == "application/json"
    ensures r.Some? && c.authToken.Some? ==> r.value.headers[Authorization] == "Bearer " + c.authToken.value
  {
    var urlString := if useRentURL then c.rentBaseURL + path else c.rentBaseURL + path;
    if !isValidUrl(urlString) then None
    else
      var plain := map[ContentType := "application/json"];
      var headers := match c.authToken
        case Some(token) => plain[Authorization := "Bearer " + token]
        case None => plain;
      Some(Request(urlString, httpMethod, headers, body))
  }

  /** The request never depends on `baseURL` or on `useRentURL`. */
  lemma BaseUrlNeverUsed(c: Client, path: string, httpMethod: HttpMethod, body: Option<Body>,
                         useRentURL: bool, other: string, isValidUrl: string -> bool)
    ensures CreateRequest(c.(baseURL := other), path, httpMethod, body, useRentURL, isValidUrl)
         == CreateRequest(c, path, httpMethod, body, !useRentURL, isValidUrl)
  {
  }

  /** The remote operations the client offers, with their arguments. */
  datatype Endpoint =
    | Login(username: string, password: string)
    | Register(username: string, password: string)
    | FetchBooks
    | RentBook(bookId: int, rentLength: int)
    | CheckTransactionStatus(orderId: string)
    | FetchRentedBooks
    | FetchTransactionHistory
    | GetBookAccess(bookId: int)

  const RentItemPrefix: string := "/rent/item/"
  const TransactionStatusPrefix: string := "/rent/transaction-status/"
  const ItemsPrefix: string := "/items/"
  const AccessSuffix: string := "/access"

  function Path(e: Endpoint): string {
    match e
    case Login(_, _) => "/auth/login"
    case Register(_, _) => "/auth/signup"
    case FetchBooks => "/items"
    case RentBook(bookId, _) => RentItemPrefix + IntText(bookId)
    case CheckTransactionStatus(orderId) => TransactionStatusPrefix + orderId
    case FetchRentedBooks => "/items/rented"
    case FetchTransactionHistory => "/rent/history"
    case GetBookAccess(bookId) => ItemsPrefix + IntText(bookId) + AccessSuffix
  }

  /** The rent path is the item prefix and the book id, which reads back from it. */
  lemma RentPathCarriesBookId(bookId: int, rentLength: int)
    ensures var p := Path(RentBook(bookId, rentLength));
      && p[..|RentItemPrefix|] == RentItemPrefix
      && ParseInt(p[|RentItemPrefix|..]) == Some(bookId)
  {
    assert Path(RentBook(bookId, rentLength))[|RentItemPrefix|..] == IntText(bookId);
    IntTextRoundTrip(bookId);
  }

  /** The status path is its prefix followed by the order id verbatim. */
  lemma StatusPathCarriesOrderId(orderId: string)
    ensures var p := Path(CheckTransactionStatus(orderId));
      && p[..|TransactionStatusPrefix|] == TransactionStatusPrefix
      && p[|TransactionStatusPrefix|..] == orderId
  {
  }

  /** The access path wraps the book id between "/items/" and "/access", and the id reads back. */
  lemma AccessPathCarriesBookId(bookId: int)
    ensures var p := Path(GetBookAccess(bookId));
      && p[..|ItemsPrefix|] == ItemsPrefix
      && p[|p| - |AccessSuffix|..] == AccessSuffix
      && ParseInt(p[|ItemsPrefix|..|p| - |AccessSuffix|]) == Some(bookId)
  {
    var p := Path(GetBookAccess(bookId));
    assert p[|ItemsPrefix|..|p| - |AccessSuffix|] == IntText(bookId);
    IntTextRoundTrip(bookId);
  }

  function MethodOf(e: Endpoint): HttpMethod {
    if e.Login? || e.Register? || e.RentBook? then Post else Get
  }

  function BodyOf(e: Endpoint): Option<Body> {
    match e
    case Login(u, p) => Some(Credentials(u, p))
    case Register(u, p) => Some(Credentials(u, p))
    case RentBook(_, n) => Some(RentLength(n))
    case _ => None
  }

  /** The `useRentURL` flag each call passes; it has no effect on the URL. */
  predicate UsesRentURL(e: Endpoint) {
    e.RentBook? || e.CheckTransactionStatus? || e.FetchTransactionHistory?
  }

  /** The request a call issues with the client's current state. */
  function RequestFor(c: Client, e: Endpoint, isValidUrl: string -> bool): Option<Request> {
    CreateRequest(c, Path(e), MethodOf(e), BodyOf(e), UsesRentURL(e), isValidUrl)
  }

  /** What `URLSession` answered: it threw, gave a non-HTTP response, or gave a status and a body that did or did not decode. */
  datatype Transport<T> = SessionError | NonHttp | Http(statusCode: int, payload: Option<T>)

  /**
   * The errors a call can throw: the three `APIError` cases it constructs, a
   * `URLSession` error passed through unwrapped, and a `DecodingError` passed
   * through unwrapped.
   */
  datatype CallError = InvalidURL | InvalidResponse | DecodingError | SessionFailure | UnwrappedDecodingError

  /** Only rent accepts 201; every call accepts 200. */
  predicate AcceptsStatus(e: Endpoint, code: int) {
    code == 200 || (e.RentBook? && code == 201)
  }

  /** The calls that wrap a body that does not decode into `APIError.decodingError`. */
  predicate WrapsDecodingErrors(e: Endpoint) {
    e.Login? || e.Register? || e.FetchBooks? || e.RentBook?
  }

  /** One call: build the request, send it, check the status, decode the body. */
  function Perform<T>(c: Client, e: Endpoint, t: Transport<T>, isValidUrl: string -> bool): (r: Result<T, CallError>)
    ensures r.Ok? <==> RequestFor(c, e, isValidUrl).Some? && t.Http? && AcceptsStatus(e, t.statusCode) && t.payload.Some?
    ensures r.Ok? ==> r.value == t.payload.value
    ensures r == Err(InvalidURL) <==> RequestFor(c, e, isValidUrl).None?
    ensures r == Err(SessionFailure) <==> RequestFor(c, e, isValidUrl).Some? && t.SessionError?
    ensures r == Err(InvalidResponse) <==>
      RequestFor(c, e, isValidUrl).Some? && (t.NonHttp? || (t.Http? && !AcceptsStatus(e, t.statusCode)))
  {
    if RequestFor(c, e, isValidUrl).None? then Err(InvalidURL)
    else match t
      case SessionError => Err(SessionFailure)
      case NonHttp => Err(InvalidResponse)
      case Http(code, payload) =>
        if e.FetchBooks? && code == 401 then Err(InvalidResponse)
        else if !AcceptsStatus(e, code) then Err(InvalidResponse)
        else match payload
          case None => Err(if WrapsDecodingErrors(e) then DecodingError else UnwrappedDecodingError)
          case Some(v) => Ok(v)
  }

  /** With a well-formed body, login and register succeed only on 200, rent on 200 or 201, the rest only on 200. */
  lemma AcceptedStatusCodes<T>(c: Client, e: Endpoint, code: int, v: T, isValidUrl: string -> bool)
    requires RequestFor(c, e, isValidUrl).Some?
    ensures Perform(c, e, Http(code, Some(v)), isValidUrl).Ok? <==> code == 200 || (e.RentBook? && code == 201)
  {
  }

  /** Listing books cannot tell an expired session (401) from any other rejected status. */
  lemma UnauthorizedIndistinguishable<T>(c: Client, code: int, p: Option<T>, q: Option<T>, isValidUrl: string -> bool)
    requires RequestFor(c, FetchBooks, isValidUrl).Some?
    requires code != 200
    ensures Perform(c, FetchBooks, Http(401, p), isValidUrl) == Perform(c, FetchBooks, Http(code, q), isValidUrl)
  {
  }

  /** A body that does not decode is wrapped by login, register, list and rent, and passed through by the others. */
  lemma DecodeFailureMapping<T>(c: Client, e: Endpoint, code: int, isValidUrl: string -> bool)
    requires RequestFor(c, e, isValidUrl).Some? && AcceptsStatus(e, code)
    ensures Perform<T>(c, e, Http(code, None), isValidUrl)
         == Err(if e.Login? || e.Register? || e.FetchBooks? || e.RentBook? then DecodingError else UnwrappedDecodingError)
  {
  }

  /** `login`: on success the client holds the returned token; on any failure its token is unchanged. */
  function CallLogin(c: Client, username: string, password: string, t: Transport<Users.LoginResponse>,
                     isValidUrl: string -> bool): (r: (Client, Result<Users.LoginResponse, CallError>))
    ensures r.1 == Perform(c, Login(username, password), t, isValidUrl)
    ensures r.1.Ok? ==> r.0 == SetAuthToken(c, Some(r.1.value.token))
    ensures r.1.Err? ==> r.0 == c
  {
    var res := Perform(c, Login(username, password), t, isValidUrl);
    (if res.Ok? then SetAuthToken(c, Some(res.value.token)) else c, res)
  }

  /** `register`: the same token rule as login, for the signup reply. */
  function CallRegister(c: Client, username: string, password: string, t: Transport<Users.RegisterResponse>,
                        isValidUrl: string -> bool): (r: (Client, Result<Users.RegisterResponse, CallError>))
    ensures r.1 == Perform(c, Register(username, password), t, isValidUrl)
    ensures r.1.Ok? ==> r.0 == SetAuthToken(c, Some(r.1.value.token))
    ensures r.1.Err? ==> r.0 == c
  {
    var res := Perform(c, Register(username, password), t, isValidUrl);
    (if res.Ok? then SetAuthToken(c, Some(res.value.token)) else c, res)
  }

  /** The token changes only through a login whose status was 200 and whose body decoded. */
  lemma TokenChangesOnlyOnSuccess(c: Client, username: string, password: string,
                                  t: Transport<Users.LoginResponse>, isValidUrl: string -> bool)
    ensures var (c', _) := CallLogin(c, username, password, t, isValidUrl);
      && (c'.authToken != c.authToken ==> t.Http? && t.statusCode == 200 && t.payload.Some?
                                          && c'.authToken == Some(t.payload.value.token))
      && c'.baseURL == c.baseURL && c'.rentBaseURL == c.rentBaseURL
  {
  }

  /** Every request carries the bearer header exactly when a token is held, and a body only for login, register and rent. */
  lemma BearerHeaderIffToken(c: Client, e: Endpoint, isValidUrl: string -> bool)
    requires RequestFor(c, e, isValidUrl).Some?
    ensures Authorization in RequestFor(c, e, isValidUrl).value.headers <==> c.authToken.Some?
    ensures RequestFor(c, e, isValidUrl).value.body.Some? <==> e.Login? || e.Register? || e.RentBook?
  {
  }
}
