/**
 * The income-pipeline tool page (app/tools/income-pipeline/page.tsx): it shows the local
 * preview profile at once, replaces it with the saved profile when `/api/me` returns one,
 * resolves the income structure and draws the one pipeline diagram for it.
 */
module IncomePipeline {
  import opened Wrappers
  import opened Profile
  import opened Pipeline
  import opened Store
  import opened MeRoute
  import opened PreviewProfileStore
  import opened SaveProfileAction

  /**
   * `mapDbProfileToPreview`: {} when there is no saved profile; otherwise each column is
   * copied as it is, without checking it against the answer's literals, null becoming absent.
   */
  function MapDbProfileToPreview(row: Option<ProfileRow>): (p: PreviewProfile)
    ensures p.updatedAt == None
    ensures row.None? ==> p == EmptyPreview
    ensures row.Some? ==> p.role == row.value.role && p.collectionMethod == row.value.collectionMethod
    ensures row.Some? ==> p.incomeStructure == row.value.incomeStructure && p.entityStatus == row.value.entityStatus
  {
    match row
    case None => EmptyPreview
    case Some(r) => PreviewProfile(r.role, r.collectionMethod, r.incomeStructure, r.entityStatus, None)
  }

  /** Without a saved profile the page resolves the hybrid structure. */
  lemma NoSavedProfileIsHybrid()
    ensures ResolveIncomeStructure(MapDbProfileToPreview(None)) == "HYBRID"
  {
    DefaultIsHybrid(EmptyPreview);
  }

  /**
   * Save, then load on this page: a first save of a preview comes back as that preview
   * without its time stamp, so the page resolves the structure the preview resolved to.
   */
  lemma SavedPreviewRoundTrip(preview: PreviewProfile)
    ensures MapDbProfileToPreview(Some(UpsertProfile(None, preview))) == preview.(updatedAt := None)
    ensures ResolveIncomeStructure(MapDbProfileToPreview(Some(UpsertProfile(None, preview))))
         == ResolveIncomeStructure(preview)
  {
    ResolveReadsOnlyStructureAndMethod(preview.(updatedAt := None), preview);
  }

  /** `structureLabel`: a heading for each of the three structures, nothing for any other string. */
  function StructureLabel(structure: string): (name: Option<string>)
    ensures name.Some? <==> IsIncomeStructure(structure)
  {
    if structure == "A" then Some("Structure A — Shop collects → splits → pays you")
    else if structure == "B" then Some("Structure B — You collect → you pay shop")
    else if structure == "HYBRID" then Some("Hybrid — Both structures")
    else None
  }

  /** Distinct structures get distinct headings. */
  lemma StructureLabelInjective(s: string, t: string)
    requires IsIncomeStructure(s) && IsIncomeStructure(t)
    requires StructureLabel(s) == StructureLabel(t)
    ensures s == t
  {
  }

  datatype Diagram = PipelineA | PipelineB | PipelineHybrid

  /** The diagrams the page renders: one conditional element per structure. */
  function DiagramsShown(structure: string): (shown: set<Diagram>)
    ensures PipelineA in shown <==> structure == "A"
    ensures PipelineB in shown <==> structure == "B"
    ensures PipelineHybrid in shown <==> structure == "HYBRID"
  {
    (if structure == "A" then {PipelineA} else {}) +
    (if structure == "B" then {PipelineB} else {}) +
    (if structure == "HYBRID" then {PipelineHybrid} else {})
  }

  /** Exactly one diagram is drawn for each valid structure, and none for any other string. */
  lemma ExactlyOneDiagram(structure: string)
    ensures IsIncomeStructure(structure) ==> |DiagramsShown(structure)| == 1
    ensures !IsIncomeStructure(structure) ==> DiagramsShown(structure) == {}
  {
    if structure == "A" {
      assert DiagramsShown(structure) == {PipelineA};
    } else if structure == "B" {
      assert DiagramsShown(structure) == {PipelineB};
    } else if structure == "HYBRID" {
      assert DiagramsShown(structure) == {PipelineHybrid};
    }
  }

  /** A well-typed profile always gets exactly one diagram. */
  lemma ResolvedProfileDrawsOneDiagram(p: PreviewProfile)
    requires WellTyped(p)
    ensures |DiagramsShown(ResolveIncomeStructure(p))| == 1
  {
    ExactlyOneDiagram(ResolveIncomeStructure(p));
  }

  /** How the `/api/me` request ends: it throws, answers with an error status, or answers. */
  datatype FetchOutcome = FetchFailed | NotOk | Fetched(response: MeResponse)

  /** The page's state. */
  class IncomePipelinePage {
    var profile: PreviewProfile
    var unlocked: bool
    var loading: bool

    constructor()
      ensures profile == EmptyPreview && !unlocked && loading
    {
      profile := EmptyPreview;
      unlocked := false;
      loading := true;
    }

    /**
     * The page's effect: the preview profile is shown first; a saved profile returned by
     * `/api/me` then replaces it entirely (its null columns do not fall back to preview
     * answers); an unlocked user unlocks the page; loading always ends.
     */
    method LoadEffect(storage: PreviewStorage, fetched: FetchOutcome)
      modifies this
      ensures !loading
      ensures fetched.Fetched? && fetched.response.user.Some? && fetched.response.user.value.profile.Some? ==>
                profile == MapDbProfileToPreview(fetched.response.user.value.profile)
      ensures !(fetched.Fetched? && fetched.response.user.Some? && fetched.response.user.value.profile.Some?) ==>
                profile == storage.GetPreviewProfile()
      ensures unlocked <==> old(unlocked) || (fetched.Fetched? && fetched.response.user.Some? && fetched.response.user.value.unlocked)
    {
      profile := storage.GetPreviewProfile();
      match fetched {
        case FetchFailed =>
        case NotOk =>
        case Fetched(data) =>
          if data.user.Some? && data.user.value.unlocked {
            unlocked := true;
          }
          if data.user.Some? && data.user.value.profile.Some? {
            profile := MapDbProfileToPreview(data.user.value.profile);
          }
      }
      loading := false;
    }
  }
}
