/** The authentication route guard of app/_layout.tsx: once the session has
    loaded, a signed-out user outside the sign-in screens is sent to
    `/login` and a signed-in user on them is sent to `/(tabs)`. Calling the
    router is left to the caller; this module only decides the target. */
module RouteGuard {
  import opened Wrappers

  /** The two routes the guard can redirect to. */
  datatype Target = Login | Tabs

  /** The path handed to `router.replace` for a target. */
  function PathOf(t: Target): string
  {
    match t
    case Login => "/login"
    case Tabs => "/(tabs)"
  }

  /** The first route segment once the router has reached the target. */
  function FirstSegmentOf(t: Target): string
  {
    match t
    case Login => "login"
    case Tabs => "(tabs)"
  }

  /** The first segment is `login` or `signup`; an empty route has no
      first segment and is outside the group. */
  predicate InAuthGroup(segments: seq<string>)
  {
    |segments| > 0 && (segments[0] == "login" || segments[0] == "signup")
  }

  /** The redirect decided by the effect for the current `loading` flag,
      whether a session exists, and the current route segments; on
      `Some(t)` the effect calls `router.replace(PathOf(t))`. */
  function Redirect(loading: bool, hasSession: bool, segments: seq<string>): (r: Option<Target>)
    ensures loading ==> r == None
    ensures r == Some(Login) <==> !loading && !hasSession && !InAuthGroup(segments)
    ensures r == Some(Tabs) <==> !loading && hasSession && InAuthGroup(segments)
    ensures r == None <==> loading || hasSession != InAuthGroup(segments)
  {
    if loading then None
    else if !hasSession && !InAuthGroup(segments) then Some(Login)
    else if hasSession && InAuthGroup(segments) then Some(Tabs)
    else None
  }

  /** The recovery screen is not in the auth group, so a signed-out user
      there is sent to `/login`. */
  lemma RecoveryRedirectsToLogin(rest: seq<string>)
    ensures Redirect(false, false, ["recovery"] + rest) == Some(Login)
  {
  }

  /** Redirecting settles at once: on any route under the one it chose
      (only the first segment is read), with the same session, the guard
      chooses nothing further. */
  lemma RedirectSettles(hasSession: bool, segments: seq<string>, next: seq<string>)
    requires |next| > 0
    ensures var r := Redirect(false, hasSession, segments);
      r.Some? && next[0] == FirstSegmentOf(r.value) ==> Redirect(false, hasSession, next) == None
  {
  }
}
