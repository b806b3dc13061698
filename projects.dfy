/**
 * The projects page: the signed-in user's projects, one page at a time, under
 * the filters bar's filters, with create, duplicate, archive and delete actions,
 * a bulk-selection mode and a confirmation dialog in front of the destructive
 * ones.  The hosted table is an in-memory store `db` from id to row; each call
 * to it succeeds or fails according to a parameter.  The fetches the handlers
 * start without awaiting them are recorded as request counters
 * (`projectFetches`, `tagFetches`); the fetches themselves are the methods
 * `FetchProjects` and `FetchAvailableTags`.
 */
module Projects {
  import opened Maybe
  import opened Text
  import opened ProjectModel
  import opened FiltersBar
  import opened ProjectQuery
  import opened TagVocabulary
  import Pagination = ProjectsPagination
  import ProjectCard
  import ConfirmModal
  import CreateProjectModal

  const InitialPageSize := 12

  const InitialFilters := FilterState("", [], [], [], "created_at_desc")

  /** The page starts from the filters that "Clear all" installs. */
  lemma InitialFiltersAreCleared()
    ensures InitialFilters == ClearAllFilters()
    ensures !HasActiveFilters(InitialFilters)
  {
  }

  // ---------------------------------------------------------------------------
  // Store writes

  /** The columns an insert leaves to the store's defaults. */
  datatype ColumnDefaults = ColumnDefaults(
    status: Status, progress: int, isArchived: bool, createdAt: string, updatedAt: string)

  /** The object handed to `insert`: no status, progress or archive flag. */
  datatype InsertPayload = InsertPayload(
    title: string, summary: Option<string>, serviceType: ServiceType, tags: seq<string>, ownerId: string)

  /** The row the store keeps for an insert. */
  function StoredRow(id: string, ins: InsertPayload, d: ColumnDefaults): Project {
    Project(id, ins.title, ins.summary, ins.serviceType, d.status, d.progress, ins.tags,
      d.isArchived, d.createdAt, d.updatedAt, ins.ownerId)
  }

  /** `{ ...data, owner_id: user.id }` for the create dialog's form. */
  function CreatePayload(data: CreateProjectModal.FormData, owner: string): InsertPayload {
    InsertPayload(data.title, Some(data.summary), data.serviceType, data.tags, owner)
  }

  /** The copy inserted by "Duplicate". */
  function DuplicatePayload(p: Project, owner: string): InsertPayload {
    InsertPayload(p.title + " (Copy)", p.summary, p.serviceType, p.tags, owner)
  }

  /** A duplicate carries the original's title with " (Copy)" appended and its
      summary, service type and tags, belongs to the current user, and takes
      status, progress and archive flag from the store's defaults, whatever the
      original's were. */
  lemma DuplicateCopiesContent(p: Project, owner: string, newId: string, d: ColumnDefaults)
    ensures var r := StoredRow(newId, DuplicatePayload(p, owner), d);
      && r.id == newId && r.ownerId == owner
      && r.title[..|p.title|] == p.title && r.title[|p.title|..] == " (Copy)"
      && r.summary == p.summary && r.serviceType == p.serviceType && r.tags == p.tags
      && r.status == d.status && r.progress == d.progress && r.isArchived == d.isArchived
    ensures forall q: Project ::
      q.title == p.title && q.summary == p.summary && q.serviceType == p.serviceType && q.tags == p.tags
      ==> DuplicatePayload(q, owner) == DuplicatePayload(p, owner)
  {
  }

  /** `update({ is_archived: !project.is_archived }).eq('id', project.id)`: the flag
      written is the negation of the card's copy, not of the stored row. */
  function ToggleArchived(db: map<string, Project>, p: Project): (r: map<string, Project>)
    ensures r.Keys == db.Keys
    ensures p.id in db ==> r[p.id] == db[p.id].(isArchived := !p.isArchived)
    ensures forall id :: id in db && id != p.id ==> r[id] == db[id]
  {
    if p.id in db then db[p.id := db[p.id].(isArchived := !p.isArchived)] else db
  }

  /** `update({ is_archived: true }).in('id', ids)`. */
  function ArchiveAll(db: map<string, Project>, ids: set<string>): (r: map<string, Project>)
    ensures r.Keys == db.Keys
    ensures forall id :: id in db && id in ids ==> r[id] == db[id].(isArchived := true)
    ensures forall id :: id in db && id !in ids ==> r[id] == db[id]
  {
    map id | id in db :: if id in ids then db[id].(isArchived := true) else db[id]
  }

  /** `delete().in('id', ids)` (and `delete().eq('id', id)` for one id). */
  function DeleteAll(db: map<string, Project>, ids: set<string>): (r: map<string, Project>)
    ensures r.Keys == db.Keys - ids
    ensures forall id :: id in r ==> r[id] == db[id]
  {
    map id | id in db && id !in ids :: db[id]
  }

  /** Archiving a card that shows its stored row and then the card of the row it
      became restores the store; archiving twice from the same card writes the same
      flag twice. */
  lemma ArchiveToggleLaws(db: map<string, Project>, p: Project)
    requires p.id in db && db[p.id] == p
    ensures ToggleArchived(ToggleArchived(db, p), ToggleArchived(db, p)[p.id]) == db
    ensures ToggleArchived(ToggleArchived(db, p), p) == ToggleArchived(db, p)
  {
    var once := ToggleArchived(db, p);
    var twice := ToggleArchived(once, once[p.id]);
    assert once[p.id].id == p.id;
    assert twice == db;
  }

  /** Bulk archiving writes `true`, so doing it again changes nothing; and after it
      every selected stored row is archived. */
  lemma {:induction false} ArchiveAllIdempotent(db: map<string, Project>, ids: set<string>)
    ensures ArchiveAll(ArchiveAll(db, ids), ids) == ArchiveAll(db, ids)
    ensures forall id :: id in ids && id in db ==> ArchiveAll(db, ids)[id].isArchived
  {
    var once := ArchiveAll(db, ids);
    var twice := ArchiveAll(once, ids);
    assert forall id :: id in twice ==> twice[id] == once[id];
  }

  /** Deleting one id is bulk deletion of that id alone, and deleting twice is
      deleting once. */
  lemma DeleteLaws(db: map<string, Project>, ids: set<string>, id: string)
    ensures DeleteAll(DeleteAll(db, ids), ids) == DeleteAll(db, ids)
    ensures id in db ==> DeleteAll(db, {id}) == db - {id}
  {
    assert DeleteAll(DeleteAll(db, ids), ids).Keys == DeleteAll(db, ids).Keys;
  }

  /** `row` is the tag array of some stored project of `owner`. */
  predicate IsOwnedTagRow(db: map<string, Project>, owner: string, row: Option<seq<string>>) {
    exists id :: id in db && db[id].ownerId == owner && row == Some(db[id].tags)
  }

  /** Some row carries exactly `tags`. */
  predicate HasTagRow(rows: seq<Option<seq<string>>>, tags: seq<string>) {
    exists i :: 0 <= i < |rows| && rows[i] == Some(tags)
  }

  /** The rows the tag query `select('tags').eq('owner_id', owner)` returns: one row
      per stored project of the owner, each carrying that project's tags. */
  predicate TagRowsOf(db: map<string, Project>, owner: string, rows: seq<Option<seq<string>>>) {
    && (forall i :: 0 <= i < |rows| ==> IsOwnedTagRow(db, owner, rows[i]))
    && (forall id :: id in db && db[id].ownerId == owner ==> HasTagRow(rows, db[id].tags))
  }

  /** The vocabulary built from such rows is exactly the set of tags on the owner's
      projects. */
  lemma VocabularyIsOwnersTags(db: map<string, Project>, owner: string, rows: seq<Option<seq<string>>>, t: string)
    requires TagRowsOf(db, owner, rows)
    ensures t in TagUnion(rows) <==> exists id :: id in db && db[id].ownerId == owner && t in db[id].tags
  {
    TagUnionMembers(rows, t);
    if t in TagUnion(rows) {
      var i :| 0 <= i < |rows| && rows[i].Some? && t in rows[i].value;
      assert IsOwnedTagRow(db, owner, rows[i]);
      var id :| id in db && db[id].ownerId == owner && rows[i] == Some(db[id].tags);
      assert t in db[id].tags;
    }
    if exists id :: id in db && db[id].ownerId == owner && t in db[id].tags {
      var id :| id in db && db[id].ownerId == owner && t in db[id].tags;
      assert HasTagRow(rows, db[id].tags);
      var i :| 0 <= i < |rows| && rows[i] == Some(db[id].tags);
      assert rows[i].Some? && t in rows[i].value;
    }
  }

  // ---------------------------------------------------------------------------
  // The confirmation dialog

  datatype ConfirmKind = ArchiveOne | DeleteOne | BulkArchive | BulkDelete

  /** `confirmAction`: which action awaits confirmation, on which card's project. */
  datatype ConfirmAction = ConfirmAction(kind: ConfirmKind, project: Option<Project>, isOpen: bool)

  const InitialConfirm := ConfirmAction(ArchiveOne, None, false)

  /** `getConfirmText`. */
  function ConfirmText(a: ConfirmAction): (caption: string)
    ensures a.kind == ArchiveOne ==>
      caption == (if a.project.Some? && a.project.value.isArchived then "Unarchive" else "Archive")
    ensures a.kind == DeleteOne ==> caption == "Delete"
    ensures a.kind == BulkArchive ==> caption == "Archive All"
    ensures a.kind == BulkDelete ==> caption == "Delete All"
  {
    match a.kind
    case ArchiveOne => if a.project.Some? && a.project.value.isArchived then "Unarchive" else "Archive"
    case DeleteOne => "Delete"
    case BulkArchive => "Archive All"
    case BulkDelete => "Delete All"
  }

  /** `getConfirmTitle`; the bulk titles name the size of the selection. */
  function ConfirmTitle(a: ConfirmAction, selectedCount: nat): string {
    match a.kind
    case ArchiveOne =>
      if a.project.Some? && a.project.value.isArchived then "Unarchive project?" else "Archive project?"
    case DeleteOne => "Delete project permanently?"
    case BulkArchive => "Archive " + NatToString(selectedCount) + " projects?"
    case BulkDelete => "Delete " + NatToString(selectedCount) + " projects permanently?"
  }

  /** A single archive toggles the project back when its card shows it archived. */
  predicate RestoresProject(a: ConfirmAction) {
    a.project.Some? && a.project.value.isArchived
  }

  /** Two actions with the same dialog title are the same kind of action, on a
      project in the same archive state, or on a selection of the same size: the
      title tells the user what is about to happen. */
  lemma ConfirmTitleIdentifiesAction(a: ConfirmAction, n: nat, b: ConfirmAction, m: nat)
    requires ConfirmTitle(a, n) == ConfirmTitle(b, m)
    ensures a.kind == b.kind
    ensures a.kind == ArchiveOne ==> RestoresProject(a) == RestoresProject(b)
    ensures a.kind == BulkArchive || a.kind == BulkDelete ==> n == m
  {
    TitleMarks(a, n);
    TitleMarks(b, m);
    var dn, dm := NatToString(n), NatToString(m);
    if a.kind == BulkArchive && b.kind == BulkArchive {
      SameMiddle("Archive ", dn, dm, " projects?");
    }
    if a.kind == BulkDelete && b.kind == BulkDelete {
      SameMiddle("Delete ", dn, dm, " projects permanently?");
    }
    if dn == dm {
      NatToStringValue(n);
      NatToStringValue(m);
    }
  }

  /** The characters that tell the titles apart: the first letter, and whether a
      digit or the word "project" follows the verb. */
  lemma TitleMarks(a: ConfirmAction, n: nat)
    ensures var t := ConfirmTitle(a, n);
      && |t| > 8
      && (a.kind == ArchiveOne && RestoresProject(a) ==> t[0] == 'U')
      && (a.kind == ArchiveOne && !RestoresProject(a) ==> t[0] == 'A' && t[8] == 'p')
      && (a.kind == BulkArchive ==> t[0] == 'A' && '0' <= t[8] <= '9')
      && (a.kind == DeleteOne ==> t[0] == 'D' && t[7] == 'p')
      && (a.kind == BulkDelete ==> t[0] == 'D' && '0' <= t[7] <= '9')
  {
    var d := NatToString(n);
    match a.kind
    case ArchiveOne =>
    case DeleteOne =>
    case BulkArchive =>
      assert ConfirmTitle(a, n)[8] == d[0];
    case BulkDelete =>
      assert ConfirmTitle(a, n)[7] == d[0];
  }

  /** Equal strings with the same frame have the same middle. */
  lemma SameMiddle(pre: string, x: string, y: string, post: string)
    requires pre + x + post == pre + y + post
    ensures x == y
  {
    var s := pre + x + post;
    assert |x| == |y|;
    assert x == s[|pre|..|pre| + |x|];
    assert y == (pre + y + post)[|pre|..|pre| + |y|];
  }

  /** The opening sentence of both deletion descriptions, and the opening words of
      the other two. */
  const IrreversibleNotice := "This action cannot be undone."
  const ReversibleOpening := "This will "

  /** `getConfirmDescription`. */
  function ConfirmDescription(a: ConfirmAction): string {
    match a.kind
    case ArchiveOne =>
      if a.project.Some? && a.project.value.isArchived
      then ReversibleOpening + "restore the project to your active projects."
      else ReversibleOpening + "hide the project from your active projects. You can restore it later."
    case DeleteOne =>
      IrreversibleNotice + " All project data, notes, and activity will be permanently removed."
    case BulkArchive => ReversibleOpening + "archive all selected projects. You can restore them later."
    case BulkDelete =>
      IrreversibleNotice + " All selected projects and their data will be permanently removed."
  }

  /** The description opens with the warning that nothing can be undone exactly for
      the two deletions, and the archive descriptions promise a restore. */
  lemma DescriptionWarnsExactlyForDeletions(a: ConfirmAction)
    ensures IrreversibleNotice <= ConfirmDescription(a) <==> a.kind == DeleteOne || a.kind == BulkDelete
  {
    var d := ConfirmDescription(a);
    if a.kind == ArchiveOne || a.kind == BulkArchive {
      assert d[5] == ReversibleOpening[5] == 'w';
      assert IrreversibleNotice[5] == 'a';
    }
  }

  /** The props the page passes to the dialog; cancel text and loading flag are left
      at their defaults. */
  function DialogProps(a: ConfirmAction, selectedCount: nat): (p: ConfirmModal.Props)
    ensures p.open == a.isOpen
    ensures p.title == ConfirmTitle(a, selectedCount) && p.description == ConfirmDescription(a)
    ensures p.confirmText == ConfirmText(a)
    ensures var plain := ConfirmModal.WithDefaults(a.isOpen, p.title, p.description);
      p.cancelText == plain.cancelText && p.isLoading == plain.isLoading
    ensures p.isDestructive <==> IrreversibleNotice <= p.description
  {
    DescriptionWarnsExactlyForDeletions(a);
    ConfirmModal.Props(a.isOpen, ConfirmTitle(a, selectedCount), ConfirmDescription(a), ConfirmText(a),
      "Cancel", a.kind == DeleteOne || a.kind == BulkDelete, false)
  }

  /** The dialog warns exactly for the two deletions; its buttons are never disabled,
      so confirming always closes it; its button for a single archive reads like the
      card's menu item; and a bulk title names the selection size. */
  lemma DialogAgreesWithPage(a: ConfirmAction, selectedCount: nat)
    ensures ConfirmModal.ShowsWarningIcon(DialogProps(a, selectedCount)) <==> a.kind in {DeleteOne, BulkDelete}
    ensures !ConfirmModal.ConfirmDisabled(DialogProps(a, selectedCount))
    ensures ConfirmModal.ConfirmLabel(DialogProps(a, selectedCount)) == ConfirmText(a)
    ensures a.kind == ArchiveOne && a.project.Some? ==>
      ConfirmText(a) == ProjectCard.ArchiveMenuLabel(a.project.value)
    ensures a.kind == BulkArchive ==>
      ConfirmTitle(a, selectedCount) == "Archive " + NatToString(selectedCount) + " projects?"
  {
  }

  /** Archiving from a card flips what the card shows: the overlay and the menu
      label both change. */
  lemma ToggleFlipsOverlay(db: map<string, Project>, p: Project)
    requires p.id in db
    ensures ProjectCard.ShowsArchivedOverlay(ToggleArchived(db, p)[p.id]) <==> !ProjectCard.ShowsArchivedOverlay(p)
    ensures ProjectCard.ArchiveMenuLabel(ToggleArchived(db, p)[p.id]) != ProjectCard.ArchiveMenuLabel(p)
  {
  }

  /** The store mutations the dialog can confirm. */
  datatype Mutation = Toggle(project: Project) | Remove(project: Project) | ArchiveSelection | DeleteSelection

  /** `handleConfirmAction`'s switch: a single-project action without a project does
      nothing. */
  function Dispatch(a: ConfirmAction): (m: Option<Mutation>)
    ensures m.None? <==> (a.kind == ArchiveOne || a.kind == DeleteOne) && a.project.None?
    ensures m == Some(ArchiveSelection) <==> a.kind == BulkArchive
    ensures m == Some(DeleteSelection) <==> a.kind == BulkDelete
    ensures m.Some? && (m.value.Toggle? || m.value.Remove?) ==> a.project == Some(m.value.project)
  {
    match a.kind
    case ArchiveOne => if a.project.Some? then Some(Toggle(a.project.value)) else None
    case DeleteOne => if a.project.Some? then Some(Remove(a.project.value)) else None
    case BulkArchive => Some(ArchiveSelection)
    case BulkDelete => Some(DeleteSelection)
  }

  // ---------------------------------------------------------------------------
  // Page state

  /** Every field of the page, as one value. */
  datatype PageState = PageState(
    db: map<string, Project>,
    projects: seq<Project>,
    loading: bool,
    creating: bool,
    totalCount: nat,
    availableTags: seq<string>,
    currentPage: int,
    pageSize: int,
    filters: FilterState,
    selected: set<string>,
    bulkMode: bool,
    confirm: ConfirmAction,
    projectFetches: nat,
    tagFetches: nat)

  /** What a confirmed mutation does to the page: nothing when the store call fails;
      on success the store write, a refetch of the list, a refetch of the tag
      vocabulary after deletions only, and for the bulk actions an emptied
      selection and bulk mode switched off. */
  function AfterMutation(s: PageState, m: Mutation, ok: bool): (r: PageState)
    ensures !ok ==> r == s
    ensures ok ==> r.projectFetches == s.projectFetches + 1
    ensures r.tagFetches == s.tagFetches + (if ok && (m.Remove? || m.DeleteSelection?) then 1 else 0)
    ensures ok && (m.ArchiveSelection? || m.DeleteSelection?) ==> r.selected == {} && !r.bulkMode
    ensures !(m.ArchiveSelection? || m.DeleteSelection?) ==> r.selected == s.selected && r.bulkMode == s.bulkMode
    ensures r.db.Keys <= s.db.Keys
    ensures ok && m.Toggle? ==> r.db == ToggleArchived(s.db, m.project)
    ensures ok && m.Remove? ==> r.db == DeleteAll(s.db, {m.project.id})
    ensures ok && m.ArchiveSelection? ==> r.db == ArchiveAll(s.db, s.selected)
    ensures ok && m.DeleteSelection? ==> r.db == DeleteAll(s.db, s.selected)
    ensures r.(db := s.db, selected := s.selected, bulkMode := s.bulkMode,
               projectFetches := s.projectFetches, tagFetches := s.tagFetches) == s
  {
    if !ok then s
    else
      match m
      case Toggle(p) =>
        s.(db := ToggleArchived(s.db, p), projectFetches := s.projectFetches + 1)
      case Remove(p) =>
        s.(db := DeleteAll(s.db, {p.id}), projectFetches := s.projectFetches + 1,
           tagFetches := s.tagFetches + 1)
      case ArchiveSelection =>
        s.(db := ArchiveAll(s.db, s.selected), selected := {}, bulkMode := false,
           projectFetches := s.projectFetches + 1)
      case DeleteSelection =>
        s.(db := DeleteAll(s.db, s.selected), selected := {}, bulkMode := false,
           projectFetches := s.projectFetches + 1, tagFetches := s.tagFetches + 1)
  }

  /** A successful bulk deletion leaves no selected row in the store, and every row it
      keeps is unchanged. */
  lemma BulkDeleteRemovesSelection(s: PageState)
    ensures var r := AfterMutation(s, DeleteSelection, true);
      && (forall id :: id in s.selected ==> id !in r.db)
      && (forall id :: id in s.db && id !in s.selected ==> id in r.db && r.db[id] == s.db[id])
  {
  }

  /** The reason the empty list gives. */
  const AdjustFiltersHint := "Try adjusting your search criteria or create a new project."
  const FirstProjectHint := "Create your first AR, VR, or Gaming project to get started."

  /** The empty state suggests adjusting the filters exactly when a filter is active
      (the sort key does not count). */
  function EmptyStateHint(f: FilterState): (hint: string)
    ensures hint == AdjustFiltersHint <==> HasActiveFilters(f)
    ensures hint == FirstProjectHint <==> !HasActiveFilters(f)
  {
    if f.query != "" || |f.status| > 0 || |f.serviceType| > 0 || |f.tags| > 0
    then AdjustFiltersHint else FirstProjectHint
  }

  /** How the create dialog sees the settled `onSubmit` promise: only a store failure
      rejects it; with no user signed in the handler returns normally. */
  datatype CreateOutcome = NoUser | Created | Rethrown

  function SubmitResult(o: CreateOutcome): (r: CreateProjectModal.SubmitOutcome)
    ensures r == CreateProjectModal.Rejected <==> o == Rethrown
  {
    if o == Rethrown then CreateProjectModal.Rejected else CreateProjectModal.Resolved
  }

  /** What the list query returned: an error, or possibly-null data and count. */
  datatype FetchAnswer = FetchFailed | FetchRows(data: Option<seq<Project>>, count: Option<nat>)

  /** What the tag query returned. */
  datatype TagsAnswer = TagsFailed | TagRows(data: Option<seq<Option<seq<string>>>>)

  class ProjectsPage {
    const user: Option<string>
    var db: map<string, Project>
    var projects: seq<Project>
    var loading: bool
    var creating: bool
    var totalCount: nat
    var availableTags: seq<string>
    var currentPage: int
    var pageSize: int
    var filters: FilterState
    var selected: set<string>
    var bulkMode: bool
    var confirm: ConfirmAction
    var projectFetches: nat
    var tagFetches: nat

    function State(): PageState
      reads this
    {
      PageState(db, projects, loading, creating, totalCount, availableTags, currentPage, pageSize,
        filters, selected, bulkMode, confirm, projectFetches, tagFetches)
    }

    /** The page size is always one of the footer's choices. */
    ghost predicate Valid()
      reads this
    {
      pageSize in Pagination.PageSizeOptions
    }

    constructor (user: Option<string>, db: map<string, Project>)
      ensures this.user == user && Valid()
      ensures State() == PageState(db, [], true, false, 0, [], 1, InitialPageSize, InitialFilters,
        {}, false, InitialConfirm, 0, 0)
    {
      this.user := user;
      this.db := db;
      projects := [];
      loading := true;
      creating := false;
      totalCount := 0;
      availableTags := [];
      currentPage := 1;
      pageSize := InitialPageSize;
      filters := InitialFilters;
      selected := {};
      bulkMode := false;
      confirm := InitialConfirm;
      projectFetches := 0;
      tagFetches := 0;
    }

    /** `Math.ceil(totalCount / pageSize)`: the fewest pages that hold every
        matching project, the same number the footer computes. */
    function TotalPages(): (r: nat)
      reads this
      requires Valid()
      ensures r * pageSize >= totalCount && (r - 1) * pageSize < totalCount
      ensures r == 0 <==> totalCount == 0
    {
      Pagination.TotalPages(totalCount, pageSize)
    }

    /** The query a fetch would send now. */
    function CurrentQuery(): Option<Query>
      reads this
    {
      BuildQuery(user, filters, currentPage, pageSize)
    }

    /** The footer is rendered below a non-empty list of more than one page. */
    predicate ShowsPagination()
      reads this
      requires Valid()
    {
      |projects| > 0 && TotalPages() > 1
    }

    /** The "Select All" checkbox is ticked when every shown row is selected. */
    predicate SelectAllChecked()
      reads this
    {
      |selected| == |projects| && |projects| > 0
    }

    /** The bulk buttons appear in bulk mode with a non-empty selection. */
    predicate BulkActionsShown()
      reads this
    {
      bulkMode && |selected| > 0
    }

    /** "Select Multiple" appears outside bulk mode when there is something to select. */
    predicate SelectMultipleShown()
      reads this
    {
      !bulkMode && |projects| > 0
    }

    /** The footer is only placed when it draws something: its own guard against
        an empty total never fires on this page. */
    lemma ShownFooterRenders()
      requires Valid()
      ensures ShowsPagination() ==> Pagination.Renders(totalCount)
    {
    }

    /** After a faithful fetch (`FetchProjects`'s last clause), a page past the last
        one has no rows, so the page shows its empty state and no footer, with no
        button back to an existing page. */
    lemma PastLastPageIsEmpty(q: Query)
      requires Valid() && q.rangeFrom == (currentPage - 1) * pageSize
      requires FaithfulView(q, projects, totalCount, currentPage, pageSize)
      ensures currentPage > TotalPages() ==> projects == [] && !ShowsPagination()
    {
    }

    /** The props of the confirmation dialog. */
    function ConfirmProps(): ConfirmModal.Props
      reads this
    {
      DialogProps(confirm, |selected|)
    }

    // -------------------------------------------------------------------------
    // Fetches

    /** `fetchProjects`: without a user nothing happens; otherwise the current query
        is sent, a success installs the (null-defaulted) rows and count, a failure
        keeps the old ones, and `loading` ends false.  When the store answers the
        query faithfully, every shown row is the user's and matches the filters,
        there are at most a page of them and no more than the count, and a page past
        the last gets no rows (see `PastLastPageIsEmpty`). */
    method FetchProjects(answer: FetchAnswer) returns (sent: Option<Query>)
      modifies this
      ensures sent == old(CurrentQuery())
      ensures sent.None? <==> user.None?
      ensures user.None? ==> State() == old(State())
      ensures user.Some? && answer.FetchFailed? ==> State() == old(State()).(loading := false)
      ensures user.Some? && answer.FetchRows? ==>
        State() == old(State()).(loading := false, projects := answer.data.GetOr([]),
                                 totalCount := answer.count.GetOr(0))
      ensures user.Some? && answer.FetchRows? && answer.data.Some? && answer.count.Some?
              && StoreAnswers(db, sent.value, answer.data.value, answer.count.value) ==>
        FaithfulView(sent.value, projects, totalCount, currentPage, pageSize)
    {
      sent := BuildQuery(user, filters, currentPage, pageSize);
      if user.None? {
        return;
      }
      loading := true;
      match answer {
        case FetchFailed =>
        case FetchRows(data, count) =>
          if data.Some? && count.Some? && StoreAnswers(db, sent.value, data.value, count.value) {
            FaithfulRows(db, sent.value, data.value, count.value, currentPage, pageSize);
          }
          projects := data.GetOr([]);
          totalCount := count.GetOr(0);
      }
      loading := false;
    }

    /** `fetchAvailableTags`: without a user, or when the query fails, nothing
        changes; otherwise the vocabulary becomes the sorted, repeat-free union of the
        returned tags, which for a faithful answer is the set of tags on the user's
        stored projects. */
    method FetchAvailableTags(answer: TagsAnswer)
      modifies this
      ensures user.None? || answer.TagsFailed? ==> State() == old(State())
      ensures user.Some? && answer.TagRows? ==>
        && State() == old(State()).(availableTags := availableTags)
        && StrictlySorted(availableTags)
        && (forall t :: t in availableTags <==> t in TagUnion(answer.data.GetOr([])))
      ensures user.Some? && answer.TagRows? && answer.data.Some? && TagRowsOf(db, user.value, answer.data.value) ==>
        forall t :: t in availableTags <==>
          exists id :: id in db && db[id].ownerId == user.value && t in db[id].tags
    {
      if user.None? || answer.TagsFailed? {
        return;
      }
      var rows := answer.data.GetOr([]);
      var tags := CollectTags(rows);
      availableTags := tags;
      if answer.data.Some? && TagRowsOf(db, user.value, answer.data.value) {
        forall t ensures t in availableTags <==>
          exists id :: id in db && db[id].ownerId == user.value && t in db[id].tags
        {
          VocabularyIsOwnersTags(db, user.value, rows, t);
        }
      }
    }

    // -------------------------------------------------------------------------
    // Mutations

    /** `handleCreateProject`: without a user it returns at once; otherwise the form
        plus owner is inserted, `creating` is set for the call and cleared after it,
        and a success refetches the list and the vocabulary while a failure is
        rethrown to the dialog. */
    method CreateProject(data: CreateProjectModal.FormData, newId: string, defaults: ColumnDefaults, ok: bool)
      returns (outcome: CreateOutcome, creatingDuringCall: bool)
      requires newId !in db
      modifies this
      ensures user.None? ==> outcome == NoUser && State() == old(State())
      ensures user.Some? ==> creatingDuringCall && !creating
      ensures user.Some? && ok ==> outcome == Created
      ensures user.Some? && ok ==>
        State() == old(State()).(
          db := old(db)[newId := StoredRow(newId, CreatePayload(data, user.value), defaults)],
          creating := false, projectFetches := old(projectFetches) + 1, tagFetches := old(tagFetches) + 1)
      ensures user.Some? && !ok ==> outcome == Rethrown && State() == old(State()).(creating := false)
    {
      creatingDuringCall := false;
      if user.None? {
        outcome := NoUser;
        return;
      }
      creating := true;
      creatingDuringCall := creating;
      if ok {
        db := db[newId := StoredRow(newId, CreatePayload(data, user.value), defaults)];
        projectFetches := projectFetches + 1;
        tagFetches := tagFetches + 1;
        outcome := Created;
      } else {
        outcome := Rethrown;
      }
      creating := false;
    }

    /** `handleDuplicateProject`: inserts the copy and refetches the list; without a
        user the `user!.id` access fails inside the `try`, which counts as a failed
        call, and a failure changes nothing. */
    method DuplicateProject(p: Project, newId: string, defaults: ColumnDefaults, ok: bool)
      requires newId !in db
      modifies this
      ensures user.Some? && ok ==>
        State() == old(State()).(
          db := old(db)[newId := StoredRow(newId, DuplicatePayload(p, user.value), defaults)],
          projectFetches := old(projectFetches) + 1)
      ensures user.None? || !ok ==> State() == old(State())
    {
      if user.Some? && ok {
        db := db[newId := StoredRow(newId, DuplicatePayload(p, user.value), defaults)];
        projectFetches := projectFetches + 1;
      }
    }

    /** `handleArchiveProject`. */
    method ArchiveProject(p: Project, ok: bool)
      modifies this
      ensures State() == AfterMutation(old(State()), Toggle(p), ok)
    {
      if ok {
        db := ToggleArchived(db, p);
        projectFetches := projectFetches + 1;
      }
    }

    /** `handleDeleteProject`. */
    method DeleteProject(p: Project, ok: bool)
      modifies this
      ensures State() == AfterMutation(old(State()), Remove(p), ok)
    {
      if ok {
        db := DeleteAll(db, {p.id});
        projectFetches := projectFetches + 1;
        tagFetches := tagFetches + 1;
      }
    }

    /** `handleBulkArchive`. */
    method BulkArchive(ok: bool)
      modifies this
      ensures State() == AfterMutation(old(State()), ArchiveSelection, ok)
    {
      if ok {
        db := ArchiveAll(db, selected);
        selected := {};
        bulkMode := false;
        projectFetches := projectFetches + 1;
      }
    }

    /** `handleBulkDelete`. */
    method BulkDelete(ok: bool)
      modifies this
      ensures State() == AfterMutation(old(State()), DeleteSelection, ok)
    {
      if ok {
        db := DeleteAll(db, selected);
        selected := {};
        bulkMode := false;
        projectFetches := projectFetches + 1;
        tagFetches := tagFetches + 1;
      }
    }

    // -------------------------------------------------------------------------
    // Selection, filters and paging

    /** `handleSelectProject`: adds or removes exactly that project's id. */
    method SelectProject(p: Project, isSelected: bool)
      modifies this
      ensures State() == old(State()).(selected := if isSelected then old(selected) + {p.id} else old(selected) - {p.id})
    {
      if isSelected {
        selected := selected + {p.id};
      } else {
        selected := selected - {p.id};
      }
    }

    /** `handleSelectAll`: the ids of the shown rows, or nothing. */
    method SelectAll(isSelected: bool)
      modifies this
      ensures State() == old(State()).(selected := selected)
      ensures isSelected ==> forall id :: id in selected <==> exists i :: 0 <= i < |projects| && projects[i].id == id
      ensures !isSelected ==> selected == {}
      ensures isSelected && (forall i, j :: 0 <= i < j < |projects| ==> projects[i].id != projects[j].id) ==>
        (SelectAllChecked() <==> |projects| > 0)
      ensures !isSelected ==> !SelectAllChecked() && !BulkActionsShown()
    {
      if isSelected {
        selected := set i | 0 <= i < |projects| :: projects[i].id;
        if forall i, j :: 0 <= i < j < |projects| ==> projects[i].id != projects[j].id {
          DistinctIdsCount(projects);
        }
      } else {
        selected := {};
      }
    }

    /** "Select Multiple". */
    method EnterBulkMode()
      modifies this
      ensures State() == old(State()).(bulkMode := true)
      ensures !SelectMultipleShown() && (BulkActionsShown() <==> |selected| > 0)
    {
      bulkMode := true;
    }

    /** The bulk "Cancel" button. */
    method CancelBulk()
      modifies this
      ensures State() == old(State()).(bulkMode := false, selected := {})
      ensures !BulkActionsShown() && (SelectMultipleShown() <==> |projects| > 0)
    {
      bulkMode := false;
      selected := {};
    }

    /** `setFilters` from the filters bar, followed by the reset effect: back to page
        one with nothing selected. */
    method SetFilters(f: FilterState)
      modifies this
      ensures State() == old(State()).(filters := f, currentPage := 1, selected := {})
    {
      filters := f;
      currentPage := 1;
      selected := {};
    }

    /** `onPageChange`: the requested page is taken as it is, with no clamping, and
        the selection survives. */
    method ChangePage(page: int)
      modifies this
      ensures State() == old(State()).(currentPage := page)
    {
      currentPage := page;
    }

    /** `onPageSizeChange`: one of the footer's sizes, then back to page one. */
    method ChangePageSize(size: int)
      requires size in Pagination.PageSizeOptions
      modifies this
      ensures State() == old(State()).(pageSize := size, currentPage := 1) && Valid()
    {
      pageSize := size;
      currentPage := 1;
    }

    // -------------------------------------------------------------------------
    // The confirmation dialog

    /** A card's archive or delete item, or a bulk button, opens the dialog. */
    method OpenConfirm(kind: ConfirmKind, project: Option<Project>)
      modifies this
      ensures State() == old(State()).(confirm := ConfirmAction(kind, project, true))
    {
      confirm := ConfirmAction(kind, project, true);
    }

    /** The dialog's `onClose`: only `isOpen` changes. */
    method CloseConfirm()
      modifies this
      ensures State() == old(State()).(confirm := old(confirm).(isOpen := false))
    {
      confirm := confirm.(isOpen := false);
    }

    /** `handleConfirmAction`: runs the mutation the pending action names, or
        nothing for a single-project action without a project. */
    method HandleConfirmAction(ok: bool)
      modifies this
      ensures Dispatch(old(confirm)).None? ==> State() == old(State())
      ensures Dispatch(old(confirm)).Some? ==>
        State() == AfterMutation(old(State()), Dispatch(old(confirm)).value, ok)
    {
      match confirm.kind
      case ArchiveOne =>
        if confirm.project.Some? {
          ArchiveProject(confirm.project.value, ok);
        }
      case DeleteOne =>
        if confirm.project.Some? {
          DeleteProject(confirm.project.value, ok);
        }
      case BulkArchive =>
        BulkArchive(ok);
      case BulkDelete =>
        BulkDelete(ok);
    }

    /** The dialog's confirm button: `onConfirm`, then `onClose`, since the page never
        passes `isLoading`.  The dialog ends closed on the same action. */
    method ConfirmAndClose(ok: bool)
      modifies this
      ensures var s := old(State());
        var after := if Dispatch(s.confirm).Some? then AfterMutation(s, Dispatch(s.confirm).value, ok) else s;
        State() == after.(confirm := s.confirm.(isOpen := false))
    {
      var effects := ConfirmModal.HandleConfirm(ConfirmProps());
      HandleConfirmAction(ok);
      if ConfirmModal.OnClose in effects {
        CloseConfirm();
      }
    }
  }
}
