/** What a project card derives from its project: the tag preview, the archive
    label and overlay, and the selection checkbox. */
module ProjectCard {
  import opened Maybe
  import opened ProjectModel

  const PreviewTagCount := 4

  /** `project.tags.slice(0, 4)`: the first four tags, or all of them when fewer. */
  function DisplayTags(tags: seq<string>): (r: seq<string>)
    ensures |r| == if |tags| < PreviewTagCount then |tags| else PreviewTagCount
    ensures r == tags[..|r|]
  {
    if |tags| < PreviewTagCount then tags else tags[..PreviewTagCount]
  }

  /** `project.tags.length - 4`; negative for short lists. */
  function RemainingTagsCount(tags: seq<string>): int {
    |tags| - PreviewTagCount
  }

  /** The "+N" badge is rendered when the remaining count is positive. */
  predicate ShowsRemainingBadge(tags: seq<string>) {
    RemainingTagsCount(tags) > 0
  }

  /** The tag section is rendered only when the project has tags. */
  predicate ShowsTagSection(tags: seq<string>) {
    |tags| > 0
  }

  /** The badge appears exactly for more than four tags; from four tags on, the
      preview and the badge count add up to all tags; below four the preview is
      the whole list. */
  lemma TagPreviewArithmetic(tags: seq<string>)
    ensures ShowsRemainingBadge(tags) <==> |tags| > PreviewTagCount
    ensures |tags| >= PreviewTagCount ==> |DisplayTags(tags)| + RemainingTagsCount(tags) == |tags|
    ensures |tags| < PreviewTagCount ==> DisplayTags(tags) == tags && RemainingTagsCount(tags) < 0
    ensures ShowsRemainingBadge(tags) ==> ShowsTagSection(tags)
  {
  }

  /** The menu item reads "Unarchive" for an archived project, "Archive" otherwise. */
  function ArchiveMenuLabel(p: Project): (caption: string)
    ensures caption == "Unarchive" <==> p.isArchived
    ensures caption == "Archive" <==> !p.isArchived
  {
    if p.isArchived then "Unarchive" else "Archive"
  }

  /** The "Archived" overlay covers the card exactly for an archived project. */
  predicate ShowsArchivedOverlay(p: Project) {
    p.isArchived
  }

  /** The overlay and the menu item agree: a card covered as archived offers to
      unarchive, any other card offers to archive. */
  lemma OverlayAgreesWithMenu(p: Project)
    ensures ShowsArchivedOverlay(p) <==> ArchiveMenuLabel(p) == "Unarchive"
    ensures !ShowsArchivedOverlay(p) <==> ArchiveMenuLabel(p) == "Archive"
  {
  }

  datatype SelectEvent = SelectEvent(project: Project, selected: bool)

  /** A change of the checkbox: there is no checkbox unless `showCheckbox`, and one
      reports the card's project together with the new checked state. */
  function CheckboxChange(p: Project, showCheckbox: bool, checked: bool): (r: Option<SelectEvent>)
    ensures r.Some? <==> showCheckbox
    ensures r.Some? ==> r.value.project == p && r.value.selected == checked
  {
    if showCheckbox then Some(SelectEvent(p, checked)) else None
  }
}
