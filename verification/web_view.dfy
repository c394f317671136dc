/**
 * The embedded browser's decisions (Views/WebView.swift): fragment removal,
 * which navigations are allowed, when a changed URL reloads the page, and
 * the loading flag.
 */
module WebView {

  import opened Wrappers

  /** `deletingFragment`: everything before the first `#`. */
  function DeletingFragment(u: string): (r: string)
    ensures '#' !in r
    ensures r <= u
    ensures '#' !in u ==> r == u
    ensures '#' in u ==> |r| < |u| && u[|r|] == '#'
    decreases |u|
  {
    if |u| == 0 then u
    else if u[0] == '#' then []
    else [u[0]] + DeletingFragment(u[1..])
  }

  /** Removing the fragment twice is removing it once. */
  lemma DeletingFragmentIdempotent(u: string)
    ensures DeletingFragment(DeletingFragment(u)) == DeletingFragment(u)
  {
  }

  /** Only the fragment goes: a URL and the same URL with any fragment strip to the same string. */
  lemma {:induction false} FragmentOnlyRemoved(base: string, fragment: string)
    requires '#' !in base
    ensures DeletingFragment(base + "#" + fragment) == base
    ensures DeletingFragment(base) == base
    decreases |base|
  {
    if |base| > 0 {
      assert (base + "#" + fragment)[1..] == base[1..] + "#" + fragment;
      FragmentOnlyRemoved(base[1..], fragment);
    } else {
      assert (base + "#" + fragment)[0] == '#';
    }
  }

  datatype Policy = Allow | Cancel

  /** The coordinator's answer, and the request it loads in place when it cancels. */
  datatype Decision = Decision(policy: Policy, loadInPlace: Option<string>)

  /**
   * `decidePolicyFor`: a navigation to the current page up to its fragment is
   * allowed; the first other navigation is allowed and marks the initial
   * load done; after that a navigation with no target frame is cancelled and
   * loaded in this view, and anything else is allowed.
   */
  function DecidePolicy(loadedInitialUrl: bool, requestUrl: Option<string>, currentUrl: Option<string>,
                        targetFrameIsNil: bool): (r: (bool, Decision))
    ensures r.1.policy == Cancel <==>
      && loadedInitialUrl && targetFrameIsNil
      && !(requestUrl.Some? && currentUrl.Some? && DeletingFragment(requestUrl.value) == DeletingFragment(currentUrl.value))
    ensures r.1.policy == Cancel ==> r.1.loadInPlace == requestUrl
    ensures r.1.policy == Allow ==> r.1.loadInPlace.None?
    ensures r.0 == (loadedInitialUrl || !(requestUrl.Some? && currentUrl.Some?
                                          && DeletingFragment(requestUrl.value) == DeletingFragment(currentUrl.value)))
  {
    if requestUrl.Some? && currentUrl.Some? && DeletingFragment(requestUrl.value) == DeletingFragment(currentUrl.value) then
      (loadedInitialUrl, Decision(Allow, None))
    else if !loadedInitialUrl then
      (true, Decision(Allow, None))
    else if targetFrameIsNil then
      (loadedInitialUrl, Decision(Cancel, requestUrl))
    else
      (loadedInitialUrl, Decision(Allow, None))
  }

  /** A jump within the current page is allowed and leaves the initial-load flag as it was. */
  lemma FragmentNavigationAllowed(loaded: bool, current: string, fragment: string, targetFrameIsNil: bool)
    requires '#' !in current
    ensures DecidePolicy(loaded, Some(current + "#" + fragment), Some(current), targetFrameIsNil) == (loaded, Decision(Allow, None))
  {
    FragmentOnlyRemoved(current, fragment);
  }

  /** Before the initial load every navigation is allowed. */
  lemma InitialNavigationAllowed(requestUrl: Option<string>, currentUrl: Option<string>, targetFrameIsNil: bool)
    ensures DecidePolicy(false, requestUrl, currentUrl, targetFrameIsNil).1 == Decision(Allow, None)
  {
  }

  /** The published state of the browser view. */
  datatype WebViewModel = WebViewModel(isLoading: bool, canGoBack: bool, shouldGoBack: bool, title: string, url: Option<string>)

  const InitialModel: WebViewModel := WebViewModel(false, false, false, "", None)

  /**
   * A fresh model holds no URL, so its first update reloads exactly when the
   * new URL names a different page from the one shown.
   */
  lemma FirstUpdateReloadsOnPageChange(current: string, url: string)
    ensures UpdateUIView(InitialModel, Some(current), url).1.Some? <==> DeletingFragment(current) != DeletingFragment(url)
    ensures !InitialModel.isLoading && !InitialModel.canGoBack && InitialModel.title == ""
  {
  }

  /**
   * `updateUIView`: load the new URL only when the view has a page, the two
   * differ beyond their fragments, and the model does not already hold it.
   */
  function UpdateUIView(m: WebViewModel, webViewUrl: Option<string>, url: string): (r: (WebViewModel, Option<string>))
    ensures r.1.Some? <==> webViewUrl.Some? && DeletingFragment(webViewUrl.value) != DeletingFragment(url) && m.url != Some(url)
    ensures r.1.Some? ==> r.1.value == url && r.0 == m.(url := Some(url))
    ensures r.1.None? ==> r.0 == m
  {
    match webViewUrl
    case None => (m, None)
    case Some(current) =>
      if DeletingFragment(current) != DeletingFragment(url) && m.url != Some(url) then (m.(url := Some(url)), Some(url))
      else (m, None)
  }

  /** A URL that differs from the shown page only in its fragment never reloads. */
  lemma FragmentChangeNeverReloads(m: WebViewModel, base: string, f: string, g: string)
    requires '#' !in base
    ensures UpdateUIView(m, Some(base + "#" + f), base + "#" + g).1.None?
    ensures UpdateUIView(m, None, base + "#" + g).1.None?
  {
    FragmentOnlyRemoved(base, f);
    FragmentOnlyRemoved(base, g);
  }

  /** `didStartProvisionalNavigation`. */
  function DidStart(m: WebViewModel): (r: WebViewModel)
    ensures r.isLoading && r.(isLoading := m.isLoading) == m
  {
    m.(isLoading := true)
  }

  /** `didFinish`: loading ends and the page's back state, title (or "") and URL are copied in. */
  function DidFinish(m: WebViewModel, canGoBack: bool, title: Option<string>, url: Option<string>): (r: WebViewModel)
    ensures !r.isLoading && r.canGoBack == canGoBack && r.url == url && r.shouldGoBack == m.shouldGoBack
    ensures r.title == (if title.Some? then title.value else "")
  {
    m.(isLoading := false, canGoBack := canGoBack, title := title.GetOr(""), url := url)
  }

  /** `didFail`: loading ends and nothing else changes. */
  function DidFail(m: WebViewModel): (r: WebViewModel)
    ensures !r.isLoading && r.(isLoading := m.isLoading) == m
  {
    m.(isLoading := false)
  }
}
