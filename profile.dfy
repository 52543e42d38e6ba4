/**
 * The onboarding answers (types/profile.ts). TypeScript's string-literal unions are
 * not enforced at run time, and the income-pipeline page copies database strings into a
 * profile without checking them, so each answer is kept as the string it holds;
 * `WellTyped` says that every answer present is one of its declared literals.
 */
module Profile {
  import opened Wrappers

  predicate IsRole(s: string) {
    s == "barber" || s == "cosmetologist"
  }

  predicate IsCollectionMethod(s: string) {
    s == "SHOP" || s == "DIRECT" || s == "BOTH"
  }

  predicate IsIncomeStructure(s: string) {
    s == "A" || s == "B" || s == "HYBRID"
  }

  predicate IsEntityStatus(s: string) {
    s == "INDIVIDUAL" || s == "LLC" || s == "UNSURE"
  }

  /** `PreviewProfile`: every field optional; `updatedAt` is a millisecond timestamp. */
  datatype PreviewProfile = PreviewProfile(
    role: Option<string>,
    collectionMethod: Option<string>,
    incomeStructure: Option<string>,
    entityStatus: Option<string>,
    updatedAt: Option<int>)

  /** The empty object `{}`. */
  const EmptyPreview := PreviewProfile(None, None, None, None, None)

  /** An answer given in an update replaces the current one; an absent answer keeps it. */
  function Overlay(current: Option<string>, given: Option<string>): Option<string> {
    if given.Some? then given else current
  }

  /** Every answer that is present is one of the literals its TypeScript type allows. */
  predicate WellTyped(p: PreviewProfile) {
    && (p.role.Some? ==> IsRole(p.role.value))
    && (p.collectionMethod.Some? ==> IsCollectionMethod(p.collectionMethod.value))
    && (p.incomeStructure.Some? ==> IsIncomeStructure(p.incomeStructure.value))
    && (p.entityStatus.Some? ==> IsEntityStatus(p.entityStatus.value))
  }
}
