/**
 * Reconciling a completed Stripe checkout (app/checkout/success/page.tsx): the success
 * page makes sure a user exists for the customer's e-mail address and records an
 * "active" entitlement for that user. The checkout session the page retrieves from Stripe
 * is an input, `retrieve`; `now` stands for `new Date()`.
 */
module Checkout {
  import opened Wrappers
  import opened Text
  import opened Store
  import opened AuthActions

  /** The fields of a retrieved checkout session that the page reads. */
  datatype CheckoutSession = CheckoutSession(
    id: string,
    customerDetailsEmail: Option<string>,
    customerEmail: Option<string>)

  /** What the page does: redirect to /unlock, report a missing e-mail, or confirm the unlock. */
  datatype SuccessOutcome = RedirectToUnlock | MissingEmail | Unlocked(email: string)

  /** The e-mail the checkout derives, and the tables after both upserts. */
  datatype Reconciled = Reconciled(users: seq<User>, entitlements: map<string, Entitlement>, userId: string)

  /**
   * `(customer_details?.email || customer_email)?.toLowerCase()`: the customer-details
   * address when it is truthy, the session's customer e-mail otherwise, lower-cased but
   * not trimmed. The result is usable exactly when one of the two addresses is.
   */
  function CheckoutEmail(s: CheckoutSession): (email: Option<string>)
    ensures email.Some? ==> ToLower(email.value) == email.value
    ensures Truthy(email) <==> Truthy(s.customerDetailsEmail) || Truthy(s.customerEmail)
    ensures !Truthy(s.customerDetailsEmail) ==>
              email == (if s.customerEmail.Some? then Some(ToLower(s.customerEmail.value)) else None)
  {
    var chosen := if Truthy(s.customerDetailsEmail) then s.customerDetailsEmail else s.customerEmail;
    match chosen
    case None => None
    case Some(e) =>
      ToLowerIdempotent(e);
      Some(ToLower(e))
  }

  /** A truthy customer-details address is the one used, whatever the customer e-mail says. */
  lemma DetailsEmailPreferred(s: CheckoutSession)
    requires Truthy(s.customerDetailsEmail)
    ensures CheckoutEmail(s) == Some(ToLower(s.customerDetailsEmail.value))
  {
  }

  /** A truthy details address without capitals is used verbatim. */
  lemma LowercaseDetailsEmailVerbatim(address: string, id: string, other: Option<string>)
    requires address != [] && NoCapitals(address)
    ensures CheckoutEmail(CheckoutSession(id, Some(address), other)) == Some(address)
  {
    ToLowerNoCapitals(address);
    DetailsEmailPreferred(CheckoutSession(id, Some(address), other));
  }

  /**
   * Unlike the login path, checkout does not trim. An address paid for with leading
   * whitespace, as in " a@b", unlocks the user " a@b"; logging in with the same text
   * reaches the user "a@b", a different row.
   */
  lemma CheckoutEmailNotTrimmed(c: char, address: string, id: string, other: Option<string>)
    requires IsJsWhitespace(c) && IsTrimmed(address) && NoCapitals(address)
    ensures CheckoutEmail(CheckoutSession(id, Some([c] + address), other)) == Some([c] + address)
    ensures NormaliseEmail([c] + address) == address
    ensures [c] + address != address
  {
    NoCapitalsPadded(c, address);
    LowercaseDetailsEmailVerbatim([c] + address, id, other);
    TrimSkipsLeadingWhitespace(c, address);
    TrimOfTrimmed(address);
    ToLowerNoCapitals(address);
    assert |[c] + address| != |address|;
  }

  /**
   * The two upserts for e-mail `email`: the user is found or created, and that user's
   * entitlement, created or overwritten, becomes "active" with the checkout session's id.
   * Nobody else's entitlement changes.
   */
  function Reconcile(users: seq<User>, entitlements: map<string, Entitlement>, email: string,
                     stripeSessionId: string, now: int): (r: Reconciled)
    ensures users <= r.users && |r.users| <= |users| + 1
    ensures UsersWellFormed(users) ==> UsersWellFormed(r.users)
    ensures FindUserByEmail(r.users, email) == Some(User(r.userId, email))
    ensures r.entitlements.Keys == entitlements.Keys + {r.userId}
    ensures r.entitlements[r.userId] == Entitlement("active", stripeSessionId, now)
    ensures forall k :: k in entitlements && k != r.userId ==> r.entitlements[k] == entitlements[k]
  {
    var users' := UpsertUserByEmail(users, email);
    var user := FindUserByEmail(users', email).value;
    Reconciled(users', entitlements[user.id := Entitlement("active", stripeSessionId, now)], user.id)
  }

  /** A customer who already has a user keeps it: the users table is unchanged. */
  lemma ReconcileExistingUser(users: seq<User>, entitlements: map<string, Entitlement>, email: string,
                              stripeSessionId: string, now: int)
    requires FindUserByEmail(users, email).Some?
    ensures Reconcile(users, entitlements, email, stripeSessionId, now).users == users
    ensures Reconcile(users, entitlements, email, stripeSessionId, now).userId == FindUserByEmail(users, email).value.id
  {
    UpsertExistingUser(users, email);
  }

  /**
   * Reloading the success page for the same checkout changes nothing but the purchase
   * time: reconciling twice is reconciling once at the later time.
   */
  lemma ReconcileIdempotent(users: seq<User>, entitlements: map<string, Entitlement>, email: string,
                            stripeSessionId: string, first: int, second: int)
    ensures var once := Reconcile(users, entitlements, email, stripeSessionId, first);
            Reconcile(once.users, once.entitlements, email, stripeSessionId, second)
              == Reconcile(users, entitlements, email, stripeSessionId, second)
  {
    var once := Reconcile(users, entitlements, email, stripeSessionId, first);
    UpsertUserIdempotent(users, email);
    UpsertExistingUser(once.users, email);
  }

  /**
   * `SuccessPage`: without a truthy `session_id` it redirects and writes nothing; without a
   * usable e-mail on the retrieved session it reports so and writes nothing; otherwise
   * the tables become those of `Reconcile`.
   */
  method SuccessPage(db: Database, sessionId: Option<string>, retrieve: string -> CheckoutSession, now: int)
    returns (outcome: SuccessOutcome)
    requires db.Valid()
    modifies db`users, db`entitlements
    ensures db.Valid()
    ensures !Truthy(sessionId) ==>
              outcome == RedirectToUnlock && db.users == old(db.users) && db.entitlements == old(db.entitlements)
    ensures Truthy(sessionId) && !Truthy(CheckoutEmail(retrieve(sessionId.value))) ==>
              outcome == MissingEmail && db.users == old(db.users) && db.entitlements == old(db.entitlements)
    ensures Truthy(sessionId) && Truthy(CheckoutEmail(retrieve(sessionId.value))) ==>
              var session := retrieve(sessionId.value);
              var email := CheckoutEmail(session).value;
              var r := Reconcile(old(db.users), old(db.entitlements), email, session.id, now);
              outcome == Unlocked(email) && db.users == r.users && db.entitlements == r.entitlements
  {
    if !Truthy(sessionId) {
      return RedirectToUnlock;
    }
    var session := retrieve(sessionId.value);
    var email := CheckoutEmail(session);
    if !Truthy(email) {
      return MissingEmail;
    }
    db.users := UpsertUserByEmail(db.users, email.value);
    var user := FindUserByEmail(db.users, email.value).value;
    db.entitlements := db.entitlements[user.id := Entitlement("active", session.id, now)];
    return Unlocked(email.value);
  }
}
