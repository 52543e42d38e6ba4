/**
 * The signed-in user and the unlock predicate (lib/currentUser.ts). `getCurrentUser`
 * looks the session's user id up in the users table, together with the entitlement and
 * the profile keyed by that id; the id itself is what `SessionCookie.GetSessionUserId`
 * yields.
 */
module CurrentUser {
  import opened Wrappers
  import opened Text
  import opened Store
  import opened Checkout

  /** A user row with its `entitlement` and `profile` relations included. */
  datatype CurrentUserView = CurrentUserView(
    user: User,
    entitlement: Option<Entitlement>,
    profile: Option<ProfileRow>)

  /**
   * `getCurrentUser`: nothing without a truthy session user id or when no user has that
   * id; otherwise that user, with the entitlement and profile stored under its id.
   */
  function GetCurrentUser(sessionUserId: Option<string>, users: seq<User>,
                          entitlements: map<string, Entitlement>,
                          profiles: map<string, ProfileRow>): (current: Option<CurrentUserView>)
    ensures !Truthy(sessionUserId) ==> current == None
    ensures current.Some? ==> Truthy(sessionUserId) && current.value.user in users
                              && current.value.user.id == sessionUserId.value
    ensures current.Some? ==> current.value.entitlement == Lookup(entitlements, sessionUserId.value)
                              && current.value.profile == Lookup(profiles, sessionUserId.value)
    ensures current.None? && Truthy(sessionUserId) ==>
              forall i :: 0 <= i < |users| ==> users[i].id != sessionUserId.value
  {
    if !Truthy(sessionUserId) then None
    else
      match FindUserById(users, sessionUserId.value)
      case None => None
      case Some(user) =>
        Some(CurrentUserView(user, Lookup(entitlements, user.id), Lookup(profiles, user.id)))
  }

  /** `isUnlocked`: the user's entitlement status is exactly "active". */
  predicate IsUnlocked(current: Option<CurrentUserView>)
    ensures IsUnlocked(current) ==> current.Some? && current.value.entitlement.Some?
  {
    current.Some? && current.value.entitlement.Some? && current.value.entitlement.value.status == "active"
  }

  /**
   * No user, or a user without an entitlement, is locked; otherwise the status decides,
   * compared case-sensitively, so "ACTIVE" is locked.
   */
  lemma IsUnlockedCases(current: Option<CurrentUserView>)
    ensures current.None? ==> !IsUnlocked(current)
    ensures current.Some? && current.value.entitlement.None? ==> !IsUnlocked(current)
    ensures current.Some? && current.value.entitlement.Some? ==>
              (IsUnlocked(current) <==> current.value.entitlement.value.status == "active")
    ensures (current.Some? && current.value.entitlement.Some? &&
             current.value.entitlement.value.status == "ACTIVE") ==> !IsUnlocked(current)
  {
  }

  /**
   * After checkout has reconciled an e-mail, the user it reconciled, once signed in, is
   * the current user and is unlocked.
   */
  lemma UnlockedAfterCheckout(users: seq<User>, entitlements: map<string, Entitlement>,
                              profiles: map<string, ProfileRow>, email: string,
                              stripeSessionId: string, now: int)
    requires UsersWellFormed(users)
    ensures var r := Reconcile(users, entitlements, email, stripeSessionId, now);
            var current := GetCurrentUser(Some(r.userId), r.users, r.entitlements, profiles);
            current.Some? && current.value.user == User(r.userId, email) && IsUnlocked(current)
  {
    var r := Reconcile(users, entitlements, email, stripeSessionId, now);
    var k :| 0 <= k < |r.users| && r.users[k] == User(r.userId, email);
    FindByIdOfMember(r.users, k);
  }
}
