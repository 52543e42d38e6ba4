/**
 * The early in-memory entitlement store (lib/backupentitlementStore.ts): a module-level
 * `Map` from e-mail to entitlement record. Keys are the e-mails exactly as given; nothing
 * normalises them. `Date.now()` is the parameter `now`.
 */
module BackupEntitlementStore {
  import opened Wrappers
  import opened Text

  datatype BackupEntitlement = BackupEntitlement(email: string, status: string, purchasedAt: int)

  class EntitlementStore {
    var store: map<string, BackupEntitlement>

    /** Every record is "ACTIVE" and filed under its own e-mail. */
    ghost predicate Valid()
      reads this
    {
      forall e :: e in store ==> store[e].status == "ACTIVE" && store[e].email == e
    }

    constructor()
      ensures Valid() && store == map[]
    {
      store := map[];
    }

    /** `hasEntitlement`: false for null, undefined and ""; otherwise whether the key is present. */
    function HasEntitlement(email: Option<string>): (has: bool)
      reads this
      ensures has <==> Truthy(email) && email.value in store
    {
      if !Truthy(email) then false else email.value in store
    }

    /**
     * `grantEntitlement`: the record for `email` is replaced by a fresh "ACTIVE" one, so
     * there is one record per e-mail; no other key is touched, and a key that differs
     * only in letter case is another key.
     */
    method GrantEntitlement(email: string, now: int)
      requires Valid()
      modifies this
      ensures Valid()
      ensures store == old(store)[email := BackupEntitlement(email, "ACTIVE", now)]
      ensures email != "" ==> HasEntitlement(Some(email))
      ensures forall other :: other != email ==> HasEntitlement(Some(other)) == old(HasEntitlement(Some(other)))
    {
      store := store[email := BackupEntitlement(email, "ACTIVE", now)];
    }
  }
}
