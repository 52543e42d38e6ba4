/**
 * The application database as the server actions use it: the rows of each table and the
 * find/upsert operations the server actions perform on them. Only the queries they issue
 * are modelled: find-unique, upsert, find-latest, delete and count.
 */
module Store {
  import opened Wrappers
  import opened Text

  /** `findUnique` by primary key on a keyed table: the row, or null. */
  function Lookup<V>(m: map<string, V>, key: string): (r: Option<V>)
    ensures r.Some? <==> key in m
    ensures r.Some? ==> r.value == m[key]
  {
    if key in m then Some(m[key]) else None
  }

  datatype User = User(id: string, email: string)

  /** A one-time login code: the hash of the code, its expiry and creation times (ms). */
  datatype LoginCode = LoginCode(email: string, codeHash: string, expiresAt: int, createdAt: int)

  /** A purchase, at most one per user, keyed by the user's id. */
  datatype Entitlement = Entitlement(status: string, stripeSessionId: string, purchasedAt: int)

  /** A saved onboarding profile; each column is a nullable string. */
  datatype ProfileRow = ProfileRow(
    role: Option<string>,
    collectionMethod: Option<string>,
    incomeStructure: Option<string>,
    entityStatus: Option<string>)

  /** The `completedSteps` text column: the JSON of a list of step ids, or text that does not parse. */
  datatype StoredSteps = StepsJson(steps: seq<string>) | Unparsable

  /** A usage event; `metadata` is the serialised record when one was given, null otherwise. */
  datatype UsageEvent = UsageEvent(userId: string, event: string, slug: string, metadata: Option<map<string, string>>)

  /**
   * The id the database gives the n-th user created. The generator's own format is not
   * part of this model; what the server actions need of it is that ids are unique and contain no '.'.
   */
  function NewUserId(n: nat): (id: string)
    ensures '.' !in id && id != ""
  {
    "c" + DecimalString(n)
  }

  lemma NewUserIdInjective(m: nat, n: nat)
    requires NewUserId(m) == NewUserId(n)
    ensures m == n
  {
    assert NewUserId(m)[1..] == DecimalString(m);
    assert NewUserId(n)[1..] == DecimalString(n);
    DecimalStringInjective(m, n);
  }

  /** The unique constraints on users: ids follow creation order and no e-mail repeats. */
  ghost predicate UsersWellFormed(users: seq<User>) {
    && (forall i :: 0 <= i < |users| ==> users[i].id == NewUserId(i))
    && (forall i, j :: 0 <= i < j < |users| ==> users[i].email != users[j].email)
  }

  /** `user.findUnique({ where: { email } })`. */
  function FindUserByEmail(users: seq<User>, email: string): (r: Option<User>)
    ensures r.Some? ==> r.value in users && r.value.email == email
    ensures r.None? ==> forall i :: 0 <= i < |users| ==> users[i].email != email
  {
    if users == [] then None
    else if users[0].email == email then Some(users[0])
    else FindUserByEmail(users[1..], email)
  }

  /** `user.findUnique({ where: { id } })`. */
  function FindUserById(users: seq<User>, id: string): (r: Option<User>)
    ensures r.Some? ==> r.value in users && r.value.id == id
    ensures r.None? ==> forall i :: 0 <= i < |users| ==> users[i].id != id
  {
    if users == [] then None
    else if users[0].id == id then Some(users[0])
    else FindUserById(users[1..], id)
  }

  /** In a well-formed table, looking a user up by its id finds that very user. */
  lemma FindByIdOfMember(users: seq<User>, k: nat)
    requires UsersWellFormed(users) && k < |users|
    ensures FindUserById(users, users[k].id) == Some(users[k])
  {
    var r := FindUserById(users, users[k].id);
    var j :| 0 <= j < |users| && users[j] == r.value;
    NewUserIdInjective(j, k);
  }

  /**
   * `user.upsert({ where: { email }, update: {}, create: { email } })`: a user with that
   * e-mail exists afterwards; an existing table is kept as it was, and at most one user,
   * with a fresh id, is added.
   */
  function UpsertUserByEmail(users: seq<User>, email: string): (r: seq<User>)
    ensures |r| <= |users| + 1 && users <= r
    ensures FindUserByEmail(r, email).Some?
    ensures UsersWellFormed(users) ==> UsersWellFormed(r)
  {
    if FindUserByEmail(users, email).Some? then users
    else
      var r := users + [User(NewUserId(|users|), email)];
      assert r[|users|].email == email;
      r
  }

  /** Upserting an e-mail that already has a user changes nothing. */
  lemma UpsertExistingUser(users: seq<User>, email: string)
    requires FindUserByEmail(users, email).Some?
    ensures UpsertUserByEmail(users, email) == users
  {
  }

  /** Upserting the same e-mail twice is upserting it once. */
  lemma UpsertUserIdempotent(users: seq<User>, email: string)
    ensures UpsertUserByEmail(UpsertUserByEmail(users, email), email) == UpsertUserByEmail(users, email)
  {
  }

  /** An upsert adds no user other than the one with the given e-mail, so other lookups are unchanged. */
  lemma UpsertKeepsOtherUsers(users: seq<User>, email: string, other: string)
    requires UsersWellFormed(users) && other != email
    ensures FindUserByEmail(UpsertUserByEmail(users, email), other) == FindUserByEmail(users, other)
  {
    var r := UpsertUserByEmail(users, email);
    if r != users {
      FindUserByEmailAppend(users, User(NewUserId(|users|), email), other);
    }
  }

  lemma {:induction false} FindUserByEmailAppend(users: seq<User>, u: User, email: string)
    requires u.email != email
    ensures FindUserByEmail(users + [u], email) == FindUserByEmail(users, email)
  {
    if users == [] {
      assert (users + [u])[1..] == [];
    } else {
      assert (users + [u])[1..] == users[1..] + [u];
      FindUserByEmailAppend(users[1..], u, email);
    }
  }

  /**
   * `loginCode.findFirst({ where: { email }, orderBy: { createdAt: "desc" } })`: the code for
   * `email` with the greatest creation time. The database leaves codes with equal creation
   * times unordered; this function picks the later insertion, and no lemma relies on that
   * choice.
   */
  function LatestCode(codes: seq<LoginCode>, email: string): (r: Option<LoginCode>)
    ensures r.None? <==> forall i :: 0 <= i < |codes| ==> codes[i].email != email
    ensures r.Some? ==> r.value in codes && r.value.email == email
    ensures r.Some? ==> forall i :: 0 <= i < |codes| && codes[i].email == email ==> codes[i].createdAt <= r.value.createdAt
  {
    if codes == [] then None
    else
      var previous := LatestCode(codes[..|codes| - 1], email);
      var last := codes[|codes| - 1];
      if last.email == email && (previous.None? || previous.value.createdAt <= last.createdAt) then Some(last)
      else previous
  }

  /** A code created strictly after every other code for its e-mail becomes the latest one. */
  lemma LatestCodeAfterAppend(codes: seq<LoginCode>, c: LoginCode)
    requires forall i :: 0 <= i < |codes| && codes[i].email == c.email ==> codes[i].createdAt < c.createdAt
    ensures LatestCode(codes + [c], c.email) == Some(c)
  {
    assert (codes + [c])[..|codes|] == codes;
  }

  /** The data the server actions read and write, one field per table. */
  class Database {
    var users: seq<User>
    var loginCodes: seq<LoginCode>
    var entitlements: map<string, Entitlement>
    var profiles: map<string, ProfileRow>
    var checklistProgress: map<(string, string), StoredSteps>
    var usageEvents: seq<UsageEvent>

    ghost predicate Valid()
      reads this
    {
      UsersWellFormed(users)
    }

    constructor()
      ensures Valid()
      ensures users == [] && loginCodes == [] && entitlements == map[] && profiles == map[]
      ensures checklistProgress == map[] && usageEvents == []
    {
      users, loginCodes := [], [];
      entitlements, profiles := map[], map[];
      checklistProgress, usageEvents := map[], [];
    }
  }
}
