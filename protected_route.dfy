/** The guard around authenticated pages: a spinner while the session is loading,
    nothing (and a redirect to sign-in that remembers the page) when there is no
    user, the page itself otherwise. */
module ProtectedRoute {
  import opened Session

  datatype View = Spinner | Nothing | Children

  const SignInPath := "/signin"

  /** The render decision. */
  function RenderChoice(loading: bool, hasUser: bool): (v: View)
    ensures loading ==> v == Spinner
    ensures !loading && !hasUser ==> v == Nothing
    ensures !loading && hasUser ==> v == Children
  {
    if loading then Spinner else if !hasUser then Nothing else Children
  }

  /** The effect: once loading is over and there is no user, remember the current
      path under the redirect key and go to the sign-in page; otherwise touch
      nothing. */
  method RunEffect(b: Browser, loading: bool, hasUser: bool, pathname: string)
    modifies b
    ensures !loading && !hasUser ==>
      b.storage == old(b.storage)[RedirectKey := pathname] && b.history == old(b.history) + [SignInPath]
    ensures loading || hasUser ==> b.storage == old(b.storage) && b.history == old(b.history)
  {
    if !loading && !hasUser {
      b.SetItem(RedirectKey, pathname);
      b.Navigate(SignInPath);
    }
  }
}
