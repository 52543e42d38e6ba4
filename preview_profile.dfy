/**
 * The local preview profile (lib/previewProfile.ts): the onboarding answers of a visitor
 * who has not signed in, kept as JSON in one localStorage slot. On the server there is no
 * `window`, so reads give {} and writes store nothing.
 */
module PreviewProfileStore {
  import opened Wrappers
  import opened Profile

  /**
   * The text held in the slot, as `JSON.parse` sees it: "", text that does not parse,
   * JSON that is not an object (null, a number, a string, a boolean), or a serialised
   * profile object. A JSON array, which the object guard lets through, is not represented.
   */
  datatype SlotText = EmptyText | Malformed | NonObject | ProfileObject(profile: PreviewProfile)

  /** `safeParse` of the slot (`None` when the key is missing). */
  function SafeParse(raw: Option<SlotText>): (p: PreviewProfile)
    ensures raw.Some? && raw.value.ProfileObject? ==> p == raw.value.profile
    ensures !(raw.Some? && raw.value.ProfileObject?) ==> p == EmptyPreview
  {
    match raw
    case Some(ProfileObject(profile)) => profile
    case _ => EmptyPreview
  }

  /**
   * `{ ...current, ...partial, updatedAt: Date.now() }`: every answer present in `partial`
   * wins, every other answer of `current` is kept, and the time stamp is `now`.
   */
  function Merge(current: PreviewProfile, partial: PreviewProfile, now: int): (next: PreviewProfile)
    ensures next.updatedAt == Some(now)
    ensures partial.role.Some? ==> next.role == partial.role
    ensures partial.collectionMethod.Some? ==> next.collectionMethod == partial.collectionMethod
    ensures partial.incomeStructure.Some? ==> next.incomeStructure == partial.incomeStructure
    ensures partial.entityStatus.Some? ==> next.entityStatus == partial.entityStatus
    ensures partial.role.None? ==> next.role == current.role
    ensures partial.collectionMethod.None? ==> next.collectionMethod == current.collectionMethod
    ensures partial.incomeStructure.None? ==> next.incomeStructure == current.incomeStructure
    ensures partial.entityStatus.None? ==> next.entityStatus == current.entityStatus
  {
    PreviewProfile(
      Overlay(current.role, partial.role),
      Overlay(current.collectionMethod, partial.collectionMethod),
      Overlay(current.incomeStructure, partial.incomeStructure),
      Overlay(current.entityStatus, partial.entityStatus),
      Some(now))
  }

  /**
   * Successive sets accumulate: setting `first` and then `second` is setting, once, the
   * answers of `first` overridden by those of `second`. The onboarding pages rely on this
   * when each page sets one answer.
   */
  lemma SuccessiveSetsAccumulate(current: PreviewProfile, first: PreviewProfile, second: PreviewProfile,
                                 earlier: int, later: int)
    ensures Merge(Merge(current, first, earlier), second, later) == Merge(current, Merge(first, second, later), later)
  {
  }

  /** Setting the same answers twice is setting them once, at the later time. */
  lemma MergeIdempotent(current: PreviewProfile, partial: PreviewProfile, earlier: int, later: int)
    ensures Merge(Merge(current, partial, earlier), partial, later) == Merge(current, partial, later)
  {
  }

  /** The browser's storage slot, or its absence on the server. */
  class PreviewStorage {
    const hasWindow: bool
    var slot: Option<SlotText>

    constructor(hasWindow: bool, slot: Option<SlotText>)
      ensures this.hasWindow == hasWindow && this.slot == slot
    {
      this.hasWindow := hasWindow;
      this.slot := slot;
    }

    /**
     * `getPreviewProfile`: {} on the server; otherwise the stored profile, or {} when the slot
     * is missing, empty, unparsable or not an object.
     */
    function GetPreviewProfile(): (p: PreviewProfile)
      reads this
      ensures !hasWindow ==> p == EmptyPreview
      ensures hasWindow && (slot.None? || !slot.value.ProfileObject?) ==> p == EmptyPreview
      ensures hasWindow && slot.Some? && slot.value.ProfileObject? ==> p == slot.value.profile
    {
      if !hasWindow then EmptyPreview else SafeParse(slot)
    }

    /**
     * `setPreviewProfile`: on the server it returns `partial` and stores nothing; in the
     * browser it stores and returns the merge of the current profile with `partial`,
     * which a following get reads back.
     */
    method SetPreviewProfile(partial: PreviewProfile, now: int) returns (next: PreviewProfile)
      modifies this
      ensures !hasWindow ==> next == partial && slot == old(slot)
      ensures hasWindow ==> next == Merge(old(GetPreviewProfile()), partial, now)
                            && slot == Some(ProfileObject(next))
                            && GetPreviewProfile() == next
    {
      if !hasWindow {
        return partial;
      }
      var current := GetPreviewProfile();
      next := Merge(current, partial, now);
      slot := Some(ProfileObject(next));
    }

    /** `clearPreviewProfile`: the slot is removed (nothing happens on the server); get then gives {}. */
    method ClearPreviewProfile()
      modifies this
      ensures hasWindow ==> slot == None
      ensures !hasWindow ==> slot == old(slot)
      ensures GetPreviewProfile() == EmptyPreview
    {
      if !hasWindow {
        return;
      }
      slot := None;
    }
  }
}
