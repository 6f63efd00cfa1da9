/** The route guard of the Face2-bolt front-end: what a protected route
    renders for a given authentication state. */
module RouteGuard {
  import opened Base

  datatype Subscription = Subscription(status: string, plan: string)

  datatype Profile = Profile(subscription: Subscription)

  /** The auth store's signed-in user, by id. */
  datatype User = User(uid: string)

  /** The router location a redirect to the login page remembers. */
  datatype Location = Location(pathname: string, search: string)

  datatype Decision =
    | Spinner
    | Redirect(to: string, from: Option<Location>)
    | Children

  const LoginPath := "/login"
  const DashboardPath := "/dashboard"
  const FreePlan := "free"

  /** A paid subscription that is currently active. */
  predicate HasActiveSubscription(p: Profile) {
    p.subscription.status == "active" && p.subscription.plan != FreePlan
  }

  /** `ProtectedRoute` for the store state `loading`, `user`, `profile`. */
  function Guard(loading: bool, user: Option<User>, profile: Option<Profile>,
                 requiresSubscription: bool, location: Location): (d: Decision)
    ensures loading ==> d == Spinner
    ensures !loading && user.None? ==> d == Redirect(LoginPath, Some(location))
    ensures d.Redirect? && d.to == DashboardPath ==>
      requiresSubscription && profile.Some? && !HasActiveSubscription(profile.value)
    ensures d == Children <==>
      !loading && user.Some? && (!requiresSubscription || profile.None? || HasActiveSubscription(profile.value))
  {
    if loading then Spinner
    else if user.None? then Redirect(LoginPath, Some(location))
    else if requiresSubscription && profile.Some? && !HasActiveSubscription(profile.value) then
      Redirect(DashboardPath, None)
    else Children
  }

  /** A free plan is never an active subscription, whatever its status. */
  lemma FreePlanNeverActive(p: Profile)
    requires p.subscription.plan == FreePlan
    ensures !HasActiveSubscription(p)
  {
  }

  /** Requiring a subscription only ever turns children into a redirect to
      the dashboard: spinner and login redirect do not depend on it. */
  lemma SubscriptionOnlyRestricts(loading: bool, user: Option<User>, profile: Option<Profile>, location: Location)
    ensures var open := Guard(loading, user, profile, false, location);
      var closed := Guard(loading, user, profile, true, location);
      && (closed == Children ==> open == Children)
      && (closed != open ==> open == Children && closed == Redirect(DashboardPath, None))
  {
  }

  /** Without a route flag every signed-in user sees the page once loaded,
      and so does a signed-in user whose profile has not arrived. */
  lemma SignedInSeesPage(user: User, profile: Option<Profile>, requiresSubscription: bool, location: Location)
    requires !requiresSubscription || profile.None?
    ensures Guard(false, Some(user), profile, requiresSubscription, location) == Children
  {
  }
}
