/**
 * Saving the onboarding answers for the signed-in user (app/actions/saveProfile.ts): an
 * upsert of the user's profile row with the four answers of the preview profile.
 * An answer missing from the preview is `undefined` in the upsert's data, which the ORM
 * leaves out: a created row gets null there, an updated row keeps its stored value.
 */
module SaveProfileAction {
  import opened Wrappers
  import opened Text
  import opened Profile
  import opened Store
  import opened Auth

  /** `{ ok: true }`, or the "Not authenticated" error the action throws. */
  datatype SaveResult = Saved | NotAuthenticated

  /**
   * The row `userProfile.upsert` leaves for a preview: on create the four answers (absent
   * ones null); on update every given answer overwrites its column and the others keep
   * theirs. `updatedAt` is not a column.
   */
  function UpsertProfile(existing: Option<ProfileRow>, preview: PreviewProfile): (row: ProfileRow)
    ensures existing.None? ==>
              row == ProfileRow(preview.role, preview.collectionMethod, preview.incomeStructure, preview.entityStatus)
    ensures preview.role.Some? ==> row.role == preview.role
    ensures preview.collectionMethod.Some? ==> row.collectionMethod == preview.collectionMethod
    ensures preview.incomeStructure.Some? ==> row.incomeStructure == preview.incomeStructure
    ensures preview.entityStatus.Some? ==> row.entityStatus == preview.entityStatus
    ensures existing.Some? && preview.role.None? ==> row.role == existing.value.role
    ensures existing.Some? && preview.collectionMethod.None? ==> row.collectionMethod == existing.value.collectionMethod
    ensures existing.Some? && preview.incomeStructure.None? ==> row.incomeStructure == existing.value.incomeStructure
    ensures existing.Some? && preview.entityStatus.None? ==> row.entityStatus == existing.value.entityStatus
  {
    var stored := existing.GetOr(ProfileRow(None, None, None, None));
    ProfileRow(
      Overlay(stored.role, preview.role),
      Overlay(stored.collectionMethod, preview.collectionMethod),
      Overlay(stored.incomeStructure, preview.incomeStructure),
      Overlay(stored.entityStatus, preview.entityStatus))
  }

  /** Saving the same preview again leaves the row as the first save left it. */
  lemma UpsertProfileIdempotent(existing: Option<ProfileRow>, preview: PreviewProfile)
    ensures UpsertProfile(Some(UpsertProfile(existing, preview)), preview) == UpsertProfile(existing, preview)
  {
  }

  /** A preview that answers all four questions determines the row, whatever was stored. */
  lemma CompletePreviewOverwrites(existing: Option<ProfileRow>, preview: PreviewProfile)
    requires preview.role.Some? && preview.collectionMethod.Some?
    requires preview.incomeStructure.Some? && preview.entityStatus.Some?
    ensures UpsertProfile(existing, preview) == UpsertProfile(None, preview)
  {
  }

  /**
   * `saveProfile`: without a truthy session user id it fails and writes nothing; otherwise
   * only that user's row changes, to `UpsertProfile` of the old one.
   */
  method SaveProfile(db: Database, session: SessionCookie, preview: PreviewProfile) returns (result: SaveResult)
    modifies db`profiles
    ensures !Truthy(session.GetSessionUserId()) ==>
              result == NotAuthenticated && db.profiles == old(db.profiles)
    ensures Truthy(session.GetSessionUserId()) ==>
              var userId := session.GetSessionUserId().value;
              && result == Saved
              && db.profiles == old(db.profiles)[userId := UpsertProfile(Lookup(old(db.profiles), userId), preview)]
  {
    var userId := session.GetSessionUserId();
    if !Truthy(userId) {
      return NotAuthenticated;
    }
    var existing := Lookup(db.profiles, userId.value);
    db.profiles := db.profiles[userId.value := UpsertProfile(existing, preview)];
    return Saved;
  }
}
