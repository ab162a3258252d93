/**
 * The guard in front of the dashboard routes (`ProtectedRoute` in the application
 * shell): the first matching case of an `if` cascade over the session state and the
 * guest flag kept in the browser's storage.
 */
module Routes {
  import opened Wrappers
  import opened Domain

  /** What the authentication context exposes; `error` and the guest flag are tested for truthiness. */
  datatype Session = Session(
    user: Option<string>,
    loading: bool,
    error: Option<string>,
    profile: Option<Profile>,
    establishment: Option<Establishment>)

  datatype Screen =
    | Spinner
    | RetryScreen(message: string)
    | ToLogin
    | ToRegister
    | NoBarbershop
    | Outlet

  function ProtectedRoute(s: Session, guest: Option<string>): (r: Screen)
    ensures s.loading ==> r == Spinner
    ensures !s.loading && Truthy(s.error) ==> r == RetryScreen(s.error.value)
    ensures r == ToLogin <==> !s.loading && !Truthy(s.error) && s.user.None? && !Truthy(guest)
    ensures r == ToRegister <==> !s.loading && !Truthy(s.error) && s.user.Some? && s.profile.None?
    ensures r == NoBarbershop <==>
      !s.loading && !Truthy(s.error) && s.user.Some? && s.profile.Some? && s.establishment.None? && !Truthy(guest)
    ensures r == Outlet <==>
      !s.loading && !Truthy(s.error) &&
      (s.user.None? ==> Truthy(guest)) &&
      (s.user.Some? ==> s.profile.Some? && (s.establishment.Some? || Truthy(guest)))
  {
    if s.loading then Spinner
    else if Truthy(s.error) then RetryScreen(s.error.value)
    else if s.user.None? && !Truthy(guest) then ToLogin
    else if s.user.Some? && s.profile.None? then ToRegister
    else if s.user.Some? && s.establishment.None? && !Truthy(guest) then NoBarbershop
    else Outlet
  }

  /** The guest flag never lets a signed-in user without a profile past the sign-up redirect. */
  lemma GuestDoesNotSkipRegister(s: Session, guest: Option<string>)
    requires !s.loading && !Truthy(s.error) && s.user.Some? && s.profile.None?
    ensures ProtectedRoute(s, guest) == ToRegister
    ensures ProtectedRoute(s, guest) == ProtectedRoute(s, None)
  {
  }

  /** Without a user, only the guest flag decides between the login redirect and the dashboard. */
  lemma GuestWithoutUser(s: Session, guest: Option<string>)
    requires !s.loading && !Truthy(s.error) && s.user.None?
    ensures ProtectedRoute(s, guest) == if Truthy(guest) then Outlet else ToLogin
  {
  }
}
