/**
 * The root navigator's auth guard: where a change of session, auth loading or
 * route sends the user, and when anything is rendered at all.
 */
module RootLayout {
  import opened Wrappers

  const SignInRoute: string := "/(auth)/sign-in"
  const TabsRoute: string := "/(tabs)"

  /** The route groups a signed-out user may stay in. */
  predicate InAuthGroup(firstSegment: Option<string>) {
    firstSegment == Some("(auth)") || firstSegment == Some("(onboarding)")
  }

  /**
   * The redirect effect: nothing while auth is loading; a signed-out user
   * outside the auth group goes to sign-in, a signed-in user inside it goes to
   * the tabs, and every other case stays put.
   */
  function Redirect(loading: bool, hasSession: bool, firstSegment: Option<string>): (target: Option<string>)
    ensures loading ==> target == None
    ensures !loading && !hasSession && !InAuthGroup(firstSegment) ==> target == Some(SignInRoute)
    ensures !loading && hasSession && InAuthGroup(firstSegment) ==> target == Some(TabsRoute)
    ensures target.Some? ==> !loading && (hasSession <==> InAuthGroup(firstSegment))
  {
    if loading then None
    else if !hasSession && !InAuthGroup(firstSegment) then Some(SignInRoute)
    else if hasSession && InAuthGroup(firstSegment) then Some(TabsRoute)
    else None
  }

  /** The text up to the first `/`. */
  function UpToSlash(s: string): (r: string)
    ensures |r| <= |s| && r == s[..|r|] && '/' !in r
  {
    if s == [] || s[0] == '/' then [] else [s[0]] + UpToSlash(s[1..])
  }

  /** `segments[0]` of an absolute route. */
  function FirstSegment(route: string): Option<string> {
    if |route| > 1 && route[0] == '/' then Some(UpToSlash(route[1..])) else None
  }

  /** The text up to the first `/` of `a + "/" + b` is `a` when `a` has no `/`; with no `/` at all it is the whole text. */
  lemma {:induction false} UpToSlashOfSegment(a: string, rest: string)
    requires '/' !in a
    requires rest == [] || rest[0] == '/'
    ensures UpToSlash(a + rest) == a
  {
    if a == [] {
      assert a + rest == rest;
    } else {
      assert (a + rest)[1..] == a[1..] + rest;
      UpToSlashOfSegment(a[1..], rest);
    }
  }

  /** The groups the two redirect targets lie in. */
  lemma TargetGroups()
    ensures FirstSegment(SignInRoute) == Some("(auth)")
    ensures FirstSegment(TabsRoute) == Some("(tabs)")
  {
    assert SignInRoute[1..] == "(auth)" + "/sign-in";
    UpToSlashOfSegment("(auth)", "/sign-in");
    assert TabsRoute[1..] == "(tabs)" + [];
    UpToSlashOfSegment("(tabs)", []);
  }

  /** The redirect settles: once the user is on the route it chose, the guard chooses nothing more for the same session. */
  lemma RedirectSettles(hasSession: bool, firstSegment: Option<string>)
    requires Redirect(false, hasSession, firstSegment).Some?
    ensures Redirect(false, hasSession, FirstSegment(Redirect(false, hasSession, firstSegment).value)) == None
  {
    TargetGroups();
  }

  /** A signed-out user always ends inside the auth group, and a signed-in user always outside it. */
  lemma RedirectLandsInRightGroup(hasSession: bool, firstSegment: Option<string>)
    ensures var target := Redirect(false, hasSession, firstSegment);
            var landed := if target.Some? then FirstSegment(target.value) else firstSegment;
            InAuthGroup(landed) <==> !hasSession
  {
    TargetGroups();
  }

  /** The render gate: the navigator renders only once the fonts are loaded and auth has finished loading. */
  function Renders(fontsLoaded: bool, loading: bool): (r: bool)
    ensures r <==> fontsLoaded && !loading
  {
    !(!fontsLoaded || loading)
  }

  /**
   * Whenever the navigator is rendered, auth has finished loading, so the
   * redirect effect of the same render is in force: it stays put exactly when
   * the session agrees with the route group.
   */
  lemma RenderedImpliesGuardActive(fontsLoaded: bool, loading: bool, hasSession: bool, firstSegment: Option<string>)
    requires Renders(fontsLoaded, loading)
    ensures Redirect(loading, hasSession, firstSegment).None? <==> (hasSession <==> !InAuthGroup(firstSegment))
  {
  }
}
