/** Income-structure resolution and the role label (lib/pipeline.ts). */
module Pipeline {
  import opened Wrappers
  import opened Text
  import opened Profile

  /** The `switch` on the collection method: SHOP -> A, DIRECT -> B, anything else -> HYBRID. */
  function InferFromCollectionMethod(cm: Option<string>): (structure: string)
    ensures IsIncomeStructure(structure)
    ensures structure == "A" <==> cm == Some("SHOP")
    ensures structure == "B" <==> cm == Some("DIRECT")
  {
    if cm == Some("SHOP") then "A"
    else if cm == Some("DIRECT") then "B"
    else if cm == Some("BOTH") then "HYBRID"
    else "HYBRID"
  }

  /**
   * `resolveIncomeStructure`: an explicit (truthy) income structure wins, otherwise the
   * structure is inferred from the collection method. Never "", and a valid structure
   * whenever it was not copied from the profile's own answer.
   */
  function ResolveIncomeStructure(p: PreviewProfile): (r: string)
    ensures r != ""
    ensures IsIncomeStructure(r) || p.incomeStructure == Some(r)
    ensures WellTyped(p) ==> IsIncomeStructure(r)
  {
    if Truthy(p.incomeStructure) then p.incomeStructure.value
    else InferFromCollectionMethod(p.collectionMethod)
  }

  /** An explicit structure is returned unchanged whatever the collection method is. */
  lemma ExplicitStructureWins(p: PreviewProfile, cm: Option<string>)
    requires Truthy(p.incomeStructure)
    ensures ResolveIncomeStructure(p.(collectionMethod := cm)) == p.incomeStructure.value
  {
  }

  /** Without an explicit structure: SHOP -> A, DIRECT -> B, BOTH -> HYBRID. */
  lemma InferenceTable(p: PreviewProfile)
    requires !Truthy(p.incomeStructure)
    ensures p.collectionMethod == Some("SHOP") ==> ResolveIncomeStructure(p) == "A"
    ensures p.collectionMethod == Some("DIRECT") ==> ResolveIncomeStructure(p) == "B"
    ensures p.collectionMethod == Some("BOTH") ==> ResolveIncomeStructure(p) == "HYBRID"
  {
  }

  /** With neither a structure nor a recognised collection method the answer is HYBRID. */
  lemma DefaultIsHybrid(p: PreviewProfile)
    requires !Truthy(p.incomeStructure)
    requires !(p.collectionMethod.Some? && p.collectionMethod.value in {"SHOP", "DIRECT", "BOTH"})
    ensures ResolveIncomeStructure(p) == "HYBRID"
  {
  }

  /** Role, entity status and timestamp play no part in the resolution. */
  lemma ResolveReadsOnlyStructureAndMethod(p: PreviewProfile, q: PreviewProfile)
    requires p.incomeStructure == q.incomeStructure && p.collectionMethod == q.collectionMethod
    ensures ResolveIncomeStructure(p) == ResolveIncomeStructure(q)
  {
  }

  /** Storing the resolved structure as the explicit answer does not change the resolution. */
  lemma ResolveIdempotent(p: PreviewProfile)
    ensures ResolveIncomeStructure(p.(incomeStructure := Some(ResolveIncomeStructure(p))))
         == ResolveIncomeStructure(p)
  {
  }

  /** `roleLabel`: the display name for a role, with a generic fallback. */
  function RoleLabel(role: Option<string>): (name: string)
    ensures role == Some("barber") <==> name == "Barber"
    ensures role == Some("cosmetologist") <==> name == "Cosmetologist"
    ensures !(role.Some? && IsRole(role.value)) <==> name == "Independent Professional"
  {
    if role == Some("barber") then "Barber"
    else if role == Some("cosmetologist") then "Cosmetologist"
    else "Independent Professional"
  }
}
