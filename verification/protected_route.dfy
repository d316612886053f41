/** The guard around the pages that need a signed-in user, and around the
    admin pages, which also need a staff role. */
module ProtectedRoute {
  import opened Common

  /** The router location the guard was reached at. */
  datatype Location = Location(pathname: string)

  /** What the guard renders. A redirect replaces the history entry and
      carries, for the sign-in page, the location to come back to. */
  datatype Outcome = Spinner | Redirect(to: string, from: Option<Location>) | RenderChildren

  /** The auth state the guard reads; `user` is the signed-in user's id. */
  datatype AuthState = AuthState(loading: bool, user: Option<string>, userRole: Option<AppRole>)

  /** `userRole === "admin"`. */
  predicate IsAdmin(auth: AuthState)
  {
    auth.userRole == Some(Admin)
  }

  /** `userRole === "manager"`. */
  predicate IsManager(auth: AuthState)
  {
    auth.userRole == Some(Manager)
  }

  /** The early returns of ProtectedRoute, in their order. */
  function Guard(auth: AuthState, requireAdmin: bool, location: Location): (r: Outcome)
    ensures r == Spinner <==> auth.loading
    ensures r == Redirect("/auth", Some(location)) <==> !auth.loading && auth.user.None?
    ensures r == Redirect("/", None) <==>
      !auth.loading && auth.user.Some? && requireAdmin && !IsAdmin(auth) && !IsManager(auth)
    // the children are shown only to a signed-in user, and on an admin page only to staff
    ensures r == RenderChildren <==>
      !auth.loading && auth.user.Some? && (requireAdmin ==> IsAdmin(auth) || IsManager(auth))
  {
    if auth.loading then Spinner
    else if auth.user.None? then Redirect("/auth", Some(location))
    else if requireAdmin && !(IsAdmin(auth) || IsManager(auth)) then Redirect("/", None)
    else RenderChildren
  }

  /** An ordinary page needs nothing but a signed-in user: the role is never read. */
  lemma RoleIrrelevantWithoutAdmin(auth: AuthState, role: Option<AppRole>, location: Location)
    ensures Guard(auth, false, location) == Guard(auth.(userRole := role), false, location)
  {
  }

  /** Requiring a staff role only ever turns rendering into the redirect home. */
  lemma AdminOnlyNarrows(auth: AuthState, location: Location)
    ensures Guard(auth, true, location) == Guard(auth, false, location)
      || (Guard(auth, false, location) == RenderChildren && Guard(auth, true, location) == Redirect("/", None))
  {
  }
}
