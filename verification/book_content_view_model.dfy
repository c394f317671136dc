/** The reading-access view model (ViewModels/BookContentViewModel.swift). */
module BookContent {

  import opened Wrappers
  import opened Api

  /** `bookAccessUrl` is the parsed URL, kept as its string form. */
  datatype ContentState = ContentState(isLoading: bool, errorMessage: Option<CallError>, bookAccessUrl: Option<string>)

  const Initial: ContentState := ContentState(false, None, None)

  /**
   * `getBookAccess`: ask for the access link and keep it when `content`
   * parses as a URL (`URL(string:)`, given as `parseUrl`); an unparsable
   * link is reported as an invalid response.
   */
  function GetBookAccess(s: ContentState, c: Client, bookId: int, t: Transport<BookAccessResponse>,
                         isValidUrl: string -> bool, parseUrl: string -> Option<string>): (r: ContentState)
    ensures !r.isLoading
    ensures var res := Perform(c, Api.GetBookAccess(bookId), t, isValidUrl);
      && (res.Ok? && parseUrl(res.value.content).Some? ==>
            r.bookAccessUrl == parseUrl(res.value.content) && r.errorMessage.None?)
      && (res.Ok? && parseUrl(res.value.content).None? ==>
            r.bookAccessUrl == s.bookAccessUrl && r.errorMessage == Some(InvalidResponse))
      && (res.Err? ==> r.bookAccessUrl == s.bookAccessUrl && r.errorMessage == Some(res.error))
  {
    var s1 := s.(isLoading := true, errorMessage := None);
    var s2 := match Perform(c, Api.GetBookAccess(bookId), t, isValidUrl)
      case Err(e) => s1.(errorMessage := Some(e))
      case Ok(resp) =>
        match parseUrl(resp.content)
        case Some(url) => s1.(bookAccessUrl := Some(url))
        case None => s1.(errorMessage := Some(InvalidResponse));
    s2.(isLoading := false)
  }

  /** The action clears an earlier error: it ends without one exactly when a usable link arrived. */
  lemma ErrorClearedBeforeRequest(s: ContentState, c: Client, bookId: int, t: Transport<BookAccessResponse>,
                                  isValidUrl: string -> bool, parseUrl: string -> Option<string>)
    ensures var r := GetBookAccess(s, c, bookId, t, isValidUrl, parseUrl);
      var res := Perform(c, Api.GetBookAccess(bookId), t, isValidUrl);
      r.errorMessage.None? <==> res.Ok? && parseUrl(res.value.content).Some?
  {
  }

  /** A fresh reading view holds a link after its first request exactly when a usable one arrived. */
  lemma FirstRequestLink(c: Client, bookId: int, t: Transport<BookAccessResponse>,
                         isValidUrl: string -> bool, parseUrl: string -> Option<string>)
    ensures var r := GetBookAccess(Initial, c, bookId, t, isValidUrl, parseUrl);
      var res := Perform(c, Api.GetBookAccess(bookId), t, isValidUrl);
      && (r.bookAccessUrl.Some? <==> res.Ok? && parseUrl(res.value.content).Some?)
      && (r.bookAccessUrl.Some? ==> r.bookAccessUrl == parseUrl(res.value.content))
  {
  }
}
