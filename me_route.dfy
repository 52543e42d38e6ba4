/**
 * `GET /api/me` (app/api/me/route.ts): the JSON body the client pages read to learn whether
 * the visitor is signed in, unlocked, and has a saved profile.
 */
module MeRoute {
  import opened Wrappers
  import opened Store
  import opened Checkout
  import opened CurrentUser

  datatype MeUser = MeUser(unlocked: bool, profile: Option<ProfileRow>)

  /** `{ user: null }` or `{ user: { unlocked, profile } }`. */
  datatype MeResponse = MeResponse(user: Option<MeUser>)

  /**
   * The route as written: `unlocked` compares the entitlement status with "ACTIVE", the
   * status of the in-memory entitlement store, while checkout records "active".
   */
  function MeGetAsWritten(current: Option<CurrentUserView>): (response: MeResponse)
    ensures response.user.None? <==> current.None?
    ensures response.user.Some? ==> response.user.value.profile == current.value.profile
    ensures response.user.Some? ==>
              (response.user.value.unlocked <==>
                 current.value.entitlement.Some? && current.value.entitlement.value.status == "ACTIVE")
    ensures response.user.Some? && response.user.value.unlocked ==>
              current.value.entitlement.Some? && current.value.entitlement.value.status != "active"
  {
    match current
    case None => MeResponse(None)
    case Some(view) =>
      MeResponse(Some(MeUser(view.entitlement.Some? && view.entitlement.value.status == "ACTIVE", view.profile)))
  }

  /**
   * As written, a purchase completed through checkout is reported locked by this route
   * while `isUnlocked` reports the same user unlocked.
   */
  lemma CheckoutPurchaseReportedLocked(users: seq<User>, entitlements: map<string, Entitlement>,
                                       profiles: map<string, ProfileRow>, email: string,
                                       stripeSessionId: string, now: int)
    requires UsersWellFormed(users)
    ensures var r := Reconcile(users, entitlements, email, stripeSessionId, now);
            var current := GetCurrentUser(Some(r.userId), r.users, r.entitlements, profiles);
            IsUnlocked(current) && MeGetAsWritten(current).user == Some(MeUser(false, current.value.profile))
  {
    UnlockedAfterCheckout(users, entitlements, profiles, email, stripeSessionId, now);
  }

  /**
   * The route with the status the rest of the application writes: no user gives
   * `{ user: null }`; otherwise `unlocked` is `isUnlocked` of the same user and `profile`
   * is the stored profile or null.
   */
  function MeGet(current: Option<CurrentUserView>): (response: MeResponse)
    ensures response.user.None? <==> current.None?
    ensures response.user.Some? ==> response.user.value.profile == current.value.profile
    ensures response.user.Some? ==> (response.user.value.unlocked <==> IsUnlocked(current))
  {
    match current
    case None => MeResponse(None)
    case Some(view) =>
      MeResponse(Some(MeUser(view.entitlement.Some? && view.entitlement.value.status == "active", view.profile)))
  }

  /** The corrected route reports a user unlocked after checkout. */
  lemma CheckoutPurchaseReportedUnlocked(users: seq<User>, entitlements: map<string, Entitlement>,
                                         profiles: map<string, ProfileRow>, email: string,
                                         stripeSessionId: string, now: int)
    requires UsersWellFormed(users)
    ensures var r := Reconcile(users, entitlements, email, stripeSessionId, now);
            var current := GetCurrentUser(Some(r.userId), r.users, r.entitlements, profiles);
            MeGet(current).user == Some(MeUser(true, current.value.profile))
  {
    UnlockedAfterCheckout(users, entitlements, profiles, email, stripeSessionId, now);
  }
}
