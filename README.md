# Projects hub of futuristic-immersify, in Dafny

This project models the client-side project-management layer of the
futuristic-immersify web app, together with its proofs. That layer is the
"Projects Hub" page, where a signed-in user lists, filters, pages, creates,
duplicates, archives and deletes their AR, VR and Gaming projects. It also
covers the small forms and gates around the page: the create dialog, the
confirmation dialog, the tag editor, the sign-in / sign-up form, the two
password-reset pages, the route guard and the error boundary.

The hosted database is an in-memory store `db: map<string, Project>`. Each
call to it succeeds or fails according to a parameter. What a fetch returns is
also a parameter, and a predicate (`StoreAnswers`, `TagRowsOf`) says when that
answer is faithful to the store.

The modules follow the source files, with two exceptions. `src/pages/Projects.tsx`
is split over three modules: the page (`Projects`), the query it builds
(`ProjectQuery`) and the tag vocabulary it collects (`TagVocabulary`). And four
shared modules stand for no single file:

| module | file | form |
|---|---|---|
| `Projects` | `projects.dfy` | `ProjectsPage` class over the store. The mutations are specified by the pure transition function `AfterMutation`, and the dialog texts are pure functions. |
| `ProjectQuery` | `query.dfy` | The query descriptor that `fetchProjects` builds, the sort-key parse, and row matching. |
| `TagVocabulary` | `tag_vocabulary.dfy` | The sorted tag union: `CollectTags` loops over the rows, then sorts. |
| `FiltersBar` | `filters_bar.dfy` | Pure functions over `FilterState`. |
| `ProjectsPagination` | `projects_pagination.dfy` | Range arithmetic, plus the page-window loop as a method. |
| `TagInput` | `tag_input.dfy` | `Editor` class; the list operations are pure functions. |
| `CreateProjectModal` | `create_project_modal.dfy` | `Modal` class. |
| `ProjectCard` | `project_card.dfy` | Pure functions. |
| `ConfirmModal` | `confirm_modal.dfy` | The effects of `handleConfirm`, plus pure label and flag functions. |
| `AuthForm` | `auth_form.dfy` | Validators, plus the `Form` class. |
| `ResetPasswordConfirm` | `reset_password_confirm.dfy` | Link check, validation, and the `Page` class. |
| `ResetPassword` | `reset_password.dfy` | `Page` class. |
| `ProtectedRoute` | `protected_route.dfy` | The render choice, plus the effect on the browser. |
| `ErrorBoundary` | `error_boundary.dfy` | `Boundary` class and the render choice. |
| `Session`, `Text`, `Maybe`, `ProjectModel` | shared | Session storage and navigation; whitespace, trim, ASCII lower-casing, split; `Option`; the `Project` row. |

Two behaviours of the code are modelled as written, and lemmas exhibit them:

- **The sort key is cut at its first underscore.** `fetchProjects` splits the
  sort key on `_`. The field is the first piece, and the order is ascending only
  when the second piece is `asc`. So `created_at_asc` ("Oldest First") sorts on
  `created` in descending order, the same as "Newest First". `updated_at_desc`
  sorts on `updated`. See `ProjectQuery.OldestFirstIsDescending` and
  `ProjectQuery.UnderscoreFieldMisparses`.
- **Nothing clamps the page number.** A filter change or a page-size change
  resets it to 1. Nothing else moves it, not even a deletion that drops the count
  below the current page. The refetch then asks for a range that starts at or past
  the count. A faithful store answers with no rows, so the page shows its empty
  state ("No projects match your filters.") and no footer, and offers no way back
  to an existing page. See `ProjectQuery.PastLastPageAnswersNothing` and
  `Projects.ProjectsPage.PastLastPageIsEmpty`. The footer's own
  arithmetic would put the first item past the last for such props
  (`ProjectsPagination.PastLastPageShowsInvertedRange`), but no faithful fetch
  renders it that way.

## Model

| member | source | states |
|---|---|---|
| ProjectQuery.BuildQuery | src/pages/Projects.tsx:55-91 | A query exists exactly when a user is signed in, and it is scoped to that user's id. The text, status, service-type and tag filters are present exactly when their filter is non-empty, and each then carries the filter's value. The order is the parsed sort key. The inclusive row range starts at `(page-1)*pageSize` and spans exactly `pageSize` rows. |
| ProjectQuery.ParseSortKey | src/pages/Projects.tsx:84-86 | The field is the part of the key before its first underscore (the whole key when there is none). The order is ascending exactly when the rest after that underscore is "asc" or starts with "asc_". |
| ProjectQuery.FirstPieceIsAsc | src/pages/Projects.tsx:84-85 | The second piece of the split is "asc" exactly when the remaining text is "asc" or starts with "asc_". |
| ProjectQuery.PrefixPieceIsAsc | src/pages/Projects.tsx:84-85 | An underscore-free prefix that ends at an underscore, or at the end of the text, is "asc" exactly when the text is "asc" or starts with "asc_". |
| ProjectQuery.PlainFieldParses | src/pages/Projects.tsx:84-86 | A key `field_direction` whose field has no underscore sorts on that field, ascending exactly for "asc". |
| ProjectQuery.UnderscoreFieldMisparses | src/pages/Projects.tsx:84-86 | For a key `a_b_direction`, the field is `a`, and the direction is read from `b`, not from `direction`. |
| ProjectQuery.OldestFirstIsDescending | src/pages/Projects.tsx:84-86 | `created_at_asc` sorts on `created`, descending. |
| ProjectQuery.AToZIsAscending | src/pages/Projects.tsx:84-86 | `title_asc` sorts on `title`, ascending. |
| ProjectQuery.RangeMatchesFooter | src/pages/Projects.tsx:89-90 | The footer's first item is `rangeFrom + 1`. Its last item is `rangeTo + 1`, cut at the total count. |
| ProjectQuery.Matches | src/pages/Projects.tsx:64-81 | A row that matches is owned by the user and meets every filter that is present: a case-insensitive substring of the title or summary, status in the list, service type in the list, and at least one shared tag. |
| ProjectQuery.InactiveFiltersKeepOwnRows | src/pages/Projects.tsx:64-81 | With no filter active, a row matches exactly when it is the user's. |
| ProjectQuery.StatusFilterNarrows | src/pages/Projects.tsx:71-73 | A non-empty status filter keeps only rows whose status is listed, and it only removes rows from what the query would return without it. |
| ProjectQuery.MatchingIds | src/pages/Projects.tsx:61-81 | The set of ids of the stored rows that the query selects. |
| ProjectQuery.AnswerWithinCount | src/pages/Projects.tsx:63-91 | In a faithful answer, there are no more rows than the exact count of matching rows. |
| ProjectQuery.FaithfulRows | src/pages/Projects.tsx:61-91 | Every row of a faithful answer is the user's and matches the query. There is at most one page of rows, no more than the count, and none for a page past the last. |
| ProjectQuery.PastLastPageAnswersNothing | src/pages/Projects.tsx:88-91 | A range for a page past the last starts at or beyond the count, so a faithful store returns no rows for it. |
| Projects.ProjectsPage.FetchProjects | src/pages/Projects.tsx:55-111 | Without a user, nothing changes. Otherwise it sends the current query. A success installs the rows and the count (empty list and 0 for null values); a failure keeps the old ones. `loading` ends false either way. For a faithful answer, every shown row is the user's and matches the filters, there are at most a page of them and no more than the count, and a page past the last gets no rows (`FaithfulView`). |
| Projects.ProjectsPage.PastLastPageIsEmpty | src/pages/Projects.tsx:535-590 | After a faithful fetch, a current page past the last means an empty list, so the page shows its empty state and no footer. |
| Projects.ProjectsPage.TotalPages | src/pages/Projects.tsx:51 | `Math.ceil(totalCount / pageSize)`: the fewest pages that hold every matching project, zero only for no projects. |
| Projects.ProjectsPage.ShowsPagination | src/pages/Projects.tsx:575 | The footer is placed below a non-empty list of more than one page. `ShownFooterRenders` and `FetchProjects` state what follows from it. |
| Projects.ProjectsPage.ShownFooterRenders | src/components/projects/ProjectsPagination.tsx:51-53 | Whenever the page places the footer, the footer's own zero-count guard lets it draw. |
| Projects.ProjectsPage.SelectAllChecked | src/pages/Projects.tsx:506 | Ticked when the selection is as large as the non-empty list. `SelectAll` ticks it on rows with distinct ids and clears it when unticked. |
| Projects.ProjectsPage.BulkActionsShown | src/pages/Projects.tsx:449 | The bulk buttons appear in bulk mode with a non-empty selection. `CancelBulk` and unticking "Select All" hide them. |
| Projects.ProjectsPage.SelectMultipleShown | src/pages/Projects.tsx:482-484 | "Select Multiple" appears outside bulk mode when there are rows. `EnterBulkMode` hides it, and `CancelBulk` brings it back when there are rows. |
| Projects.ProjectsPage.FetchAvailableTags | src/pages/Projects.tsx:114-134 | Without a user, or after a failed query, nothing changes. Otherwise the vocabulary becomes exactly the tags of the returned rows, strictly ascending. For a faithful answer, it is exactly the set of tags on the user's stored projects. |
| TagVocabulary.CollectTags | src/pages/Projects.tsx:125-130 | The result is strictly ascending (so it has no repeats), and a string is in it exactly when it is in the union of the rows' tags. |
| TagVocabulary.InsertSorted | src/pages/Projects.tsx:130 | Inserting into a strictly ascending list keeps it strictly ascending, and adds exactly the inserted tag. |
| TagVocabulary.TagUnionMembers | src/pages/Projects.tsx:125-128 | A tag is in the union exactly when some row with a tag array carries it. |
| TagVocabulary.LexLessIrreflexive | src/pages/Projects.tsx:130 | No string sorts before itself. |
| TagVocabulary.LexLessTransitive | src/pages/Projects.tsx:130 | The sort order is transitive. |
| TagVocabulary.LexLessTotal | src/pages/Projects.tsx:130 | Of two distinct strings, one sorts before the other. |
| TagVocabulary.StrictlySortedHasNoRepeats | src/pages/Projects.tsx:125-130 | A strictly ascending list has no repeated tag. |
| Projects.VocabularyIsOwnersTags | src/pages/Projects.tsx:118-128 | When the tag rows are the owner's stored projects, the union of those rows is exactly the set of tags on the owner's projects. |
| Projects.InitialFiltersAreCleared | src/pages/Projects.tsx:30-36 | The page's initial filters are those of "Clear all", and no filter of them is active. |
| Projects.ProjectsPage.constructor | src/pages/Projects.tsx:19-48 | Initial state: no rows, `loading` true, count 0, page 1, page size 12, cleared filters, empty selection, bulk mode off, the dialog closed on "archive". |
| Projects.ProjectsPage.CreateProject | src/pages/Projects.tsx:152-185 | Without a user, it returns normally and changes nothing. Otherwise it inserts the form plus the owner, with `creating` true during the call and false after it. A success refetches both the list and the vocabulary. A failure is rethrown, and only `creating` changes. |
| Projects.SubmitResult | src/pages/Projects.tsx:152-185 | The create dialog sees a rejected promise exactly when the store call failed. |
| Projects.ProjectsPage.DuplicateProject | src/pages/Projects.tsx:193-221 | A success with a user inserts the copy and refetches the list. Without a user, or on failure, nothing changes. |
| Projects.DuplicateCopiesContent | src/pages/Projects.tsx:196-203 | The copy keeps the title followed by " (Copy)", plus the summary, service type and tags, and has the current owner. Its status, progress and archive flag are the store's defaults. The payload depends on no other field of the original. |
| Projects.ToggleArchived | src/pages/Projects.tsx:225-228 | Only the card's row changes, and only its archive flag, which becomes the negation of the card's copy. |
| Projects.ArchiveToggleLaws | src/pages/Projects.tsx:223-228 | Archiving from a fresh card and then from the card of the updated row restores the store. Archiving twice from the same card writes the same value twice. |
| Projects.ArchiveAll | src/pages/Projects.tsx:277-280 | Every selected stored row gets `isArchived` set to true and is otherwise unchanged; the other rows are untouched. |
| Projects.ArchiveAllIdempotent | src/pages/Projects.tsx:277-280 | Repeating a bulk archive changes nothing, and every selected stored row ends archived. |
| Projects.DeleteAll | src/pages/Projects.tsx:304-307 | Exactly the given ids leave the store, and the remaining rows are unchanged. |
| Projects.DeleteLaws | src/pages/Projects.tsx:248-253 | Deleting twice is the same as deleting once. Single deletion is map removal of that id. |
| Projects.AfterMutation | src/pages/Projects.tsx:223-328 | A failed call changes nothing. A success writes the store and refetches the list. The vocabulary is refetched only after a deletion. The bulk actions empty the selection and turn bulk mode off. No other field changes. |
| Projects.BulkDeleteRemovesSelection | src/pages/Projects.tsx:302-319 | After a successful bulk delete, no selected id is left in the store, and every unselected row is unchanged. |
| Projects.ProjectsPage.ArchiveProject | src/pages/Projects.tsx:223-246 | The new state is `AfterMutation` of the old state, with the single-row archive toggle. |
| Projects.ProjectsPage.DeleteProject | src/pages/Projects.tsx:248-272 | The new state is `AfterMutation` of the old state, with the single-row deletion. |
| Projects.ProjectsPage.BulkArchive | src/pages/Projects.tsx:275-300 | The new state is `AfterMutation` of the old state, archiving the selection. |
| Projects.ProjectsPage.BulkDelete | src/pages/Projects.tsx:302-328 | The new state is `AfterMutation` of the old state, deleting the selection. |
| Projects.ProjectsPage.SelectProject | src/pages/Projects.tsx:331-339 | Only that project's id is added or removed. |
| Projects.ProjectsPage.SelectAll | src/pages/Projects.tsx:341-347 | The selection becomes exactly the ids of the shown rows, or empty. Nothing else changes. |
| Projects.ProjectsPage.EnterBulkMode | src/pages/Projects.tsx:488 | Turns bulk mode on and changes nothing else. |
| Projects.ProjectsPage.CancelBulk | src/pages/Projects.tsx:472-475 | Bulk mode off, empty selection, nothing else changes. |
| Projects.ProjectsPage.SetFilters | src/pages/Projects.tsx:146-149 | The new filters, page 1, an empty selection; nothing else changes. |
| Projects.ProjectsPage.ChangePage | src/pages/Projects.tsx:582 | The requested page is taken without clamping. The selection and everything else are kept. |
| Projects.ProjectsPage.ChangePageSize | src/pages/Projects.tsx:583-586 | The new size and page 1; the page size stays one of the footer's choices. |
| Projects.ProjectsPage.OpenConfirm | src/pages/Projects.tsx:565-566 | Opens the dialog on the given action and project; nothing else changes. |
| Projects.ProjectsPage.CloseConfirm | src/pages/Projects.tsx:605 | Only `isOpen` becomes false; the action and the project are kept. |
| Projects.Dispatch | src/pages/Projects.tsx:350-365 | A single-project action without a project dispatches nothing. The bulk kinds dispatch their bulk mutation. A single-project mutation acts on the dialog's project. |
| Projects.ProjectsPage.HandleConfirmAction | src/pages/Projects.tsx:350-365 | The new state is `AfterMutation` of the dispatched mutation, or the old state when nothing is dispatched. |
| Projects.ProjectsPage.ConfirmAndClose | src/components/projects/ConfirmModal.tsx:37-42 | The dispatched mutation runs, and then the dialog is closed. The page's dialog (Projects.tsx lines 603-611) never passes `isLoading`. |
| Projects.ConfirmText | src/pages/Projects.tsx:367-380 | "Unarchive" or "Archive" according to the dialog project's flag ("Archive" when there is no project), then "Delete", "Archive All", "Delete All". |
| Projects.ConfirmTitle | src/pages/Projects.tsx:382-395 | The title for each kind: single archive or unarchive by the project's flag, single delete, and bulk titles carrying the selection size in decimal. `ConfirmTitleIdentifiesAction` states what the title determines. |
| Projects.ConfirmTitleIdentifiesAction | src/pages/Projects.tsx:382-395 | Equal titles mean the same kind of action. For a single archive they also mean the same archive state, and for a bulk action the same selection size. |
| Projects.ConfirmDescription | src/pages/Projects.tsx:397-409 | The description for each kind: restore or hide for a single archive, permanent removal for deletions, restorable archiving for the bulk archive. |
| Projects.DescriptionWarnsExactlyForDeletions | src/pages/Projects.tsx:397-409 | The description opens with "This action cannot be undone." exactly for the two deletions. |
| Projects.DialogProps | src/pages/Projects.tsx:603-611 | The dialog is open exactly when the page's confirm state is. It gets the page's title, description and confirm text, and keeps the component's default cancel text and loading flag. It is destructive exactly when its description warns that nothing can be undone. |
| Projects.DialogAgreesWithPage | src/pages/Projects.tsx:603-611 | The warning icon shows exactly for the two deletions. Confirm is never disabled, and its label is the confirm text. The single-archive button reads like the card's menu item. The bulk-archive title names the selection size. |
| Projects.ToggleFlipsOverlay | src/components/projects/ProjectCard.tsx:193 | After archiving from a card, the stored row's overlay and archive menu label are the opposite of the card's. |
| Projects.EmptyStateHint | src/pages/Projects.tsx:544-547 | The empty list suggests adjusting the filters exactly when a filter is active, in the filters bar's sense. |
| FiltersBar.UpdateFilters | src/components/projects/FiltersBar.tsx:68-70 | Every key present in the update is replaced, and every other key keeps its value. |
| FiltersBar.UpdateLaws | src/components/projects/FiltersBar.tsx:68-70 | The empty update is the identity. Two updates in a row equal their merge. Applying an update twice equals applying it once. |
| FiltersBar.RemoveAll | src/components/projects/FiltersBar.tsx:87 | The value no longer occurs, every other element is kept, and the list does not grow. |
| FiltersBar.RemoveAbsent | src/components/projects/FiltersBar.tsx:87 | Removing a value that is absent leaves the list unchanged. |
| FiltersBar.RemoveAllAppend | src/components/projects/FiltersBar.tsx:87 | Removal distributes over concatenation. |
| FiltersBar.RemoveUnique | src/components/projects/FiltersBar.tsx:87 | In a duplicate-free list, removing `s[i]` leaves `s[..i] + s[i+1..]`. |
| FiltersBar.ToggleValue | src/components/projects/FiltersBar.tsx:85-88 | A present value is removed everywhere; an absent value is appended at the end. |
| FiltersBar.ToggleAbsentTwice | src/components/projects/FiltersBar.tsx:85-88 | Toggling an absent value twice restores the list exactly. |
| FiltersBar.TogglePresentTwice | src/components/projects/FiltersBar.tsx:85-88 | In a duplicate-free list, toggling a present value twice moves it to the end and keeps the same multiset. |
| FiltersBar.ToggleArrayFilter | src/components/projects/FiltersBar.tsx:81-90 | Only the chosen list is toggled. The query, the sort and the other two lists are unchanged. |
| FiltersBar.ClearAllFilters | src/components/projects/FiltersBar.tsx:92-101 | No filter is active, the badge count is 0, and the sort is `created_at_desc`. |
| FiltersBar.TotalActiveFilters | src/components/projects/FiltersBar.tsx:109-112 | The count is 0 exactly when all three lists are empty. |
| FiltersBar.ActiveFiltersAgree | src/components/projects/FiltersBar.tsx:103-112 | Some filter is active exactly when the query is non-empty or the count is positive. The sort key affects neither summary, and the query does not enter the count. |
| FiltersBar.HasActiveFilters | src/components/projects/FiltersBar.tsx:103-107 | A filter is active when the query is non-empty or some list is non-empty. The sort key never counts, as `ActiveFiltersAgree` states. |
| FiltersBar.ToggleChangesCountByOne | src/components/projects/FiltersBar.tsx:81-112 | In a duplicate-free list, a toggle moves the badge count by exactly one, down for a present value and up for an absent one. |
| ProjectsPagination.TotalPages | src/pages/Projects.tsx:51 | `ceil(totalCount / pageSize)`: the least number of pages of that size that holds every item. |
| ProjectsPagination.Renders | src/components/projects/ProjectsPagination.tsx:51-53 | The bar draws nothing for a zero total. |
| ProjectsPagination.RendersExactlyWithPages | src/components/projects/ProjectsPagination.tsx:51-53 | The bar draws exactly when there is at least one page. |
| ProjectsPagination.StartItem | src/components/projects/ProjectsPagination.tsx:28 | The number of the first item on the page, `(currentPage - 1) * pageSize + 1`. Its range is stated by `ShownRangeOnExistingPage` and `PastLastPageShowsInvertedRange`. |
| ProjectsPagination.EndItem | src/components/projects/ProjectsPagination.tsx:29 | `Math.min(currentPage * pageSize, totalCount)`: at most each of the two, and equal to one of them. |
| ProjectsPagination.ShownRangeOnExistingPage | src/components/projects/ProjectsPagination.tsx:28-29 | On an existing page: `startItem <= endItem <= totalCount`, and at most `pageSize` items are shown. |
| ProjectsPagination.PastLastPageShowsInvertedRange | src/components/projects/ProjectsPagination.tsx:28-29 | For footer props past the last page, the first item number lies beyond the total and beyond the last item number. |
| ProjectsPagination.Run | src/components/projects/ProjectsPagination.tsx:36-45 | The consecutive pages from `lo` to `hi`. |
| ProjectsPagination.WindowBounds | src/components/projects/ProjectsPagination.tsx:35-46 | The window has at most five pages, all in `[1, totalPages]`, and contains the current page when that page exists. |
| ProjectsPagination.WindowStart | src/components/projects/ProjectsPagination.tsx:41 | Page 1 when there are at most five pages, otherwise `Math.max(1, currentPage - 2)`. `WindowBounds` states the window it opens. |
| ProjectsPagination.WindowEnd | src/components/projects/ProjectsPagination.tsx:42 | The last page when there are at most five, otherwise `Math.min(totalPages, start + 4)`. `WindowBounds` states the window it closes. |
| ProjectsPagination.PreviousDisabled | src/components/projects/ProjectsPagination.tsx:86 | The previous button is disabled on page 1 or below. |
| ProjectsPagination.PreviousTarget | src/components/projects/ProjectsPagination.tsx:85 | The previous button asks for the page before, unclamped. |
| ProjectsPagination.NextDisabled | src/components/projects/ProjectsPagination.tsx:115 | The next button is disabled on the last page or past it. |
| ProjectsPagination.NextTarget | src/components/projects/ProjectsPagination.tsx:114 | The next button asks for the page after, unclamped. |
| ProjectsPagination.VisiblePages | src/components/projects/ProjectsPagination.tsx:31-49 | With at most five pages, it returns all of them. Otherwise it returns the run from `max(1, p-2)` to `min(totalPages, start+4)`. Either way, the window bounds hold. |
| ProjectsPagination.PushRun | src/components/projects/ProjectsPagination.tsx:36-45 | The push loop produces exactly the run from `lo` to `hi`. |
| ProjectsPagination.EnabledButtonsStayInRange | src/components/projects/ProjectsPagination.tsx:82-116 | On an existing page, an enabled previous or next button requests an existing page, and that page is one of the numbered buttons in the window. |
| TagInput.AddedTags | src/components/projects/TagInput.tsx:23-32 | It rejects when the normalised text is empty or longer than 50 UTF-16 code units (JavaScript's `length`), already present, or the list is full. Otherwise the list gains the normalised text at its end. |
| TagInput.AcceptedTagIsValid | src/components/projects/TagInput.tsx:24-26 | An accepted tag is normalised, non-empty and at most 50 UTF-16 code units long. |
| TagInput.ValidTag | src/components/projects/TagInput.tsx:24-26 | A tag as addTag stores it: already normalised, non-empty, at most 50 UTF-16 code units. `AcceptedTagIsValid` and `AddPreservesValid` keep it. |
| TagInput.AddPreservesValid | src/components/projects/TagInput.tsx:23-32 | An accepted add keeps the invariant (unique, valid tags, at most `maxTags`) and grows the list by one. |
| TagInput.RemovedAt | src/components/projects/TagInput.tsx:34-36 | Exactly the i-th tag goes, and the rest keep their order. An index outside the list removes nothing. |
| TagInput.RemovePreservesValid | src/components/projects/TagInput.tsx:34-36 | A removal keeps the invariant. |
| TagInput.AddThenRemoveLast | src/components/projects/TagInput.tsx:30-36 | Removing the tag just added restores the list. |
| TagInput.Editor.InputVisible | src/components/projects/TagInput.tsx:80 | The text box is shown exactly while `tags.length < maxTags`. |
| TagInput.Editor.AddTag | src/components/projects/TagInput.tsx:23-32 | An accepted tag is appended and the box is cleared. A rejected one changes nothing. The invariant is kept. |
| TagInput.Editor.RemoveTag | src/components/projects/TagInput.tsx:34-36 | The list becomes `RemovedAt`, and the invariant is kept. |
| TagInput.Editor.HandleKeyDown | src/components/projects/TagInput.tsx:38-50 | Enter adds the text. Backspace in an empty box with tags removes the last one. Comma or space adds only non-blank text. Every other case leaves the state alone. The invariant is kept. |
| TagInput.Editor.HandleInputBlur | src/components/projects/TagInput.tsx:52-56 | Blank text adds nothing; non-blank text goes through `addTag`. |
| TagInput.Editor.constructor | src/components/projects/TagInput.tsx:18-21 | Starts with the parent's tags, the given maximum and an empty box. |
| Text.Trim | src/components/projects/TagInput.tsx:24 | The result is empty exactly for all-whitespace text, and it otherwise starts and ends with a non-whitespace character. |
| Text.TrimIsInfix | src/components/projects/TagInput.tsx:24 | The input is all-whitespace text, then the trimmed text, then all-whitespace text: trimming removes exactly a blank prefix and a blank suffix. |
| Text.TrimStartIsSuffix | src/components/projects/TagInput.tsx:24 | Dropping leading white space leaves a suffix of the input, and everything it dropped is whitespace. |
| Text.TrimEndIsPrefix | src/components/projects/TagInput.tsx:24 | Dropping trailing white space leaves a prefix of the input, and everything it dropped is whitespace. |
| Text.NormalizeKeepsCore | src/components/projects/TagInput.tsx:24 | The normalised text is the lower-cased piece of the input between its blank leading and trailing runs. |
| Text.NormalizeIdempotent | src/components/projects/TagInput.tsx:24 | Trimming and lower-casing twice is the same as doing it once. |
| Text.JoinSplit | src/pages/Projects.tsx:84 | Joining the pieces of `split` gives back the original string. |
| Text.SplitAfterPiece | src/pages/Projects.tsx:84 | An underscore-free head followed by `_` is exactly the first piece. |
| Text.Split | src/pages/Projects.tsx:84 | There is at least one piece, and no piece contains the separator. There is a single piece exactly when the separator does not occur. The first piece is the prefix before the first separator, or the whole string. |
| Text.Normalize | src/components/projects/TagInput.tsx:24 | The result is no longer than the input, and it is empty exactly for all-whitespace input (which characters survive is `NormalizeKeepsCore`). |
| Text.TrimOfTrimmed | src/components/projects/TagInput.tsx:24 | Trimming a string that has no whitespace at either end leaves it unchanged. |
| Text.ToLowerIdempotent | src/components/projects/TagInput.tsx:24 | Lower-casing twice is the same as lower-casing once. |
| Text.NatToString | src/pages/Projects.tsx:389-391 | The count appears as a non-empty string of decimal digits, with no leading zero unless the count is 0. |
| Text.NatToStringValue | src/pages/Projects.tsx:389-391 | The digits read back in base 10 as the count itself. |
| Text.Utf16Length | src/components/projects/TagInput.tsx:26 | JavaScript's `length`: between one and two code units per character, and zero only for the empty string. |
| Text.BmpLength | src/components/projects/TagInput.tsx:26 | For text inside the Basic Multilingual Plane, `length` is the number of characters. |
| Text.Utf16LengthAppend | src/components/projects/TagInput.tsx:26 | `length` adds up over concatenation. |
| Session.Browser.GetItem | src/components/AuthForm.tsx:78 | A stored key gives its value, and a missing key gives nothing. |
| Session.Browser.SetItem | src/components/ProtectedRoute.tsx:17 | Only that key is written, and the history is unchanged. |
| Session.Browser.RemoveItem | src/components/AuthForm.tsx:79 | Only that key is removed, and the history is unchanged. |
| Session.Browser.Navigate | src/components/ProtectedRoute.tsx:18 | The path is appended to the history, and storage is unchanged. |
| TagInput.Editor.EditInput | src/components/projects/TagInput.tsx:83 | Only the box text changes. |
| ResetPassword.Page.EditEmail | src/pages/ResetPassword.tsx:89 | Only the email changes. |
| CreateProjectModal.Modal.constructor | src/components/projects/CreateProjectModal.tsx:43-50 | The form starts as `{title: '', summary: '', service_type: 'AR', tags: []}`, with no errors. |
| CreateProjectModal.ValidationErrors | src/components/projects/CreateProjectModal.tsx:56-60 | There is a title error exactly for a blank title, with the message 'Project title is required', and no other key. |
| CreateProjectModal.Modal.HandleSubmit | src/components/projects/CreateProjectModal.tsx:53-80 | A blank title sets the error and keeps the form, without calling `onSubmit`. Otherwise `onSubmit` gets the form once. When it resolves, the form and errors reset and `onClose` is called. When it rejects, the form and errors are kept and the dialog stays open. |
| CreateProjectModal.Modal.HandleClose | src/components/projects/CreateProjectModal.tsx:82-93 | Ignored while loading. Otherwise it resets the form and errors and calls `onClose`. |
| CreateProjectModal.Modal.EditTitle | src/components/projects/CreateProjectModal.tsx:113-116 | Sets the title. A shown title error is blanked, and no title error is shown afterwards. |
| CreateProjectModal.Modal.ShowsTitleError | src/components/projects/CreateProjectModal.tsx:121 | The title error is shown when there is a non-empty title message. `EditTitle` always hides it. |
| CreateProjectModal.Modal.EditSummary | src/components/projects/CreateProjectModal.tsx:134 | Sets the summary; nothing else changes. |
| CreateProjectModal.Modal.SelectServiceType | src/components/projects/CreateProjectModal.tsx:148 | Sets the service type; nothing else changes. |
| CreateProjectModal.Modal.ChangeTags | src/components/projects/CreateProjectModal.tsx:168 | Sets the tags; nothing else changes. |
| ProjectCard.DisplayTags | src/components/projects/ProjectCard.tsx:70 | The first `min(4, n)` tags, in order. |
| ProjectCard.TagPreviewArithmetic | src/components/projects/ProjectCard.tsx:70-179 | The "+N" badge shows exactly for more than four tags. From four tags on, preview plus remaining equals `n`. Below four, the preview is the whole list. The badge implies the tag section. |
| ProjectCard.RemainingTagsCount | src/components/projects/ProjectCard.tsx:71 | `tags.length - 4`, negative for short lists. `TagPreviewArithmetic` states how it adds up with the preview. |
| ProjectCard.ShowsRemainingBadge | src/components/projects/ProjectCard.tsx:175 | The "+N" badge shows when the remaining count is positive, which `TagPreviewArithmetic` shows is exactly for more than four tags. |
| ProjectCard.ShowsTagSection | src/components/projects/ProjectCard.tsx:158 | The tag section shows only for a project with tags. |
| ProjectCard.ArchiveMenuLabel | src/components/projects/ProjectCard.tsx:118-120 | 'Unarchive' exactly when the project is archived, otherwise 'Archive'. |
| ProjectCard.ShowsArchivedOverlay | src/components/projects/ProjectCard.tsx:193 | The "Archived" overlay covers exactly an archived project's card. |
| ProjectCard.OverlayAgreesWithMenu | src/components/projects/ProjectCard.tsx:119-193 | The overlay shows exactly when the menu offers "Unarchive", and is absent exactly when it offers "Archive". |
| ProjectCard.CheckboxChange | src/components/projects/ProjectCard.tsx:75-85 | There is a selection event exactly when the checkbox is shown, and it reports the card's project and the checked state. |
| ConfirmModal.WithDefaults | src/components/projects/ConfirmModal.tsx:32-35 | The defaults are 'Confirm', 'Cancel', not destructive and not loading. |
| ConfirmModal.HandleConfirm | src/components/projects/ConfirmModal.tsx:37-42 | `onConfirm` exactly once and first; then `onClose` exactly when not loading. |
| ConfirmModal.ConfirmLabel | src/components/projects/ConfirmModal.tsx:74 | 'Processing...' while loading, otherwise the confirm text. |
| ConfirmModal.ShowsWarningIcon | src/components/projects/ConfirmModal.tsx:49 | The warning icon shows exactly for a destructive dialog. |
| ConfirmModal.CancelDisabled | src/components/projects/ConfirmModal.tsx:60 | Cancel is disabled while loading. |
| ConfirmModal.ConfirmDisabled | src/components/projects/ConfirmModal.tsx:67 | Confirm is disabled while loading. |
| ConfirmModal.LoadingLocksDialog | src/components/projects/ConfirmModal.tsx:60-74 | The two buttons are disabled together, exactly while loading, and then the confirm button reads "Processing...". |
| ConfirmModal.DefaultsArePlain | src/components/projects/ConfirmModal.tsx:32-74 | With the defaults, the buttons are enabled, the label is 'Confirm', and there is no warning icon. |
| AuthForm.EmailErrorCases | src/components/AuthForm.tsx:30-34 | 'Email is required' exactly for blank text. 'Please enter a valid email' exactly for non-blank text without the email shape. Otherwise no error. |
| AuthForm.EmailError | src/components/AuthForm.tsx:30-34 | The email rule: "required" for blank text (after trimming), "invalid" for text without the email shape, otherwise nothing. Its cases are `EmailErrorCases`. |
| AuthForm.LooksLikeEmailIsPattern | src/components/AuthForm.tsx:32 | The direct shape check agrees, on every string, with an unanchored match of `\S+@\S+\.\S+`. |
| AuthForm.EmailRuleIsPattern | src/components/AuthForm.tsx:30-34 | A non-blank email is rejected as invalid exactly when the regular expression matches nowhere in it. |
| AuthForm.PasswordError | src/components/AuthForm.tsx:36-40 | 'Password is required' exactly for the empty password. The length error exactly for a `length` of 1 to 7 UTF-16 code units. Otherwise no error. |
| AuthForm.AstralPasswordIsLongEnough | src/components/AuthForm.tsx:38 | A password of four emoji (eight code units) passes the length rule although it has only four characters. |
| AuthForm.FormErrors | src/components/AuthForm.tsx:27-53 | Each key is present exactly when its rule fails, with that rule's message. The display-name and match rules apply only in sign-up mode. |
| AuthForm.ValidityIsConjunction | src/components/AuthForm.tsx:52 | No error key is present exactly when every rule passes. |
| AuthForm.Form.HandleSubmit | src/components/AuthForm.tsx:55-101 | The auth call is made exactly when every rule passes. An invalid form records exactly `FormErrors` of its fields and navigates nowhere. Sign-up success goes to '/signin'. Sign-in success goes to the stored redirect (or '/dashboard') and removes the key. A failure navigates nowhere. `loading` ends false past validation. |
| AuthForm.Form.Authenticate | src/components/AuthForm.tsx:60-100 | The errors are cleared, and `loading` ends false. On success it navigates as `NavigateAfterAuth` does. On failure the browser is untouched, and the fields are kept. |
| AuthForm.NavigateAfterAuth | src/components/AuthForm.tsx:72-80 | Sign-up goes to '/signin'. Sign-in goes to the stored path, or '/dashboard' when it is missing or empty, and removes the key. |
| Session.RedirectTarget | src/components/AuthForm.tsx:78 | The stored path unless it is missing or empty; then '/dashboard'. |
| AuthForm.StoredPathIsDestination | src/components/AuthForm.tsx:78 | A non-empty path stored by the guard (ProtectedRoute.tsx line 17) is where a sign-in leads. |
| AuthForm.RedirectRoundTrip | src/components/AuthForm.tsx:76-81 | The guard (ProtectedRoute.tsx lines 14-20) sends a visitor with no session to '/signin'. A successful sign-in then lands on the stored page, and the key is gone. |
| ProtectedRoute.RenderChoice | src/components/ProtectedRoute.tsx:22-37 | A spinner while loading, whatever the user; then nothing without a user, and the children with one. |
| ProtectedRoute.RunEffect | src/components/ProtectedRoute.tsx:14-20 | Once loading is over, with no user, it stores the pathname under 'redirectAfterLogin' and navigates to '/signin'. Otherwise it writes and navigates nothing. |
| ResetPasswordConfirm.ResetLinkRedirect | src/pages/ResetPasswordConfirm.tsx:20-33 | Goes to '/reset-password' exactly when either token is missing or empty. |
| ResetPasswordConfirm.CheckResetLink | src/pages/ResetPasswordConfirm.tsx:20-33 | Navigates to '/reset-password' exactly in that case, and never touches storage. |
| ResetPasswordConfirm.FormErrors | src/pages/ResetPasswordConfirm.tsx:35-50 | The password rule and, independently, the mismatch rule, so both errors can appear. No error exactly for a password of at least 8 UTF-16 code units equal to its repeat. |
| ResetPasswordConfirm.Page.HandleSubmit | src/pages/ResetPasswordConfirm.tsx:52-77 | `updatePassword` is called exactly for a valid form. An invalid one records exactly `FormErrors` of its fields and navigates nowhere. Success goes to '/dashboard'. `loading` ends false on both outcomes. |
| ResetPassword.Page.BeginSubmit | src/pages/ResetPassword.tsx:18-27 | A blank email makes no call and changes nothing. Otherwise `loading` is set and the call is made. |
| ResetPassword.Page.FinishSubmit | src/pages/ResetPassword.tsx:31-45 | Success sets `sent`; an error leaves it. `loading` ends false. |
| ResetPassword.Page.HandleSubmit | src/pages/ResetPassword.tsx:15-46 | The call is made exactly for a non-blank email, with `loading` true during it. Afterwards `loading` is false, and `sent` records a success. |
| ResetPassword.Page.SendAnother | src/pages/ResetPassword.tsx:117 | `sent` becomes false, so the form shows again. |
| ResetPassword.Page.FormShown | src/pages/ResetPassword.tsx:79 | The form is shown exactly while nothing has been sent. |
| ErrorBoundary.Boundary.constructor | src/components/ErrorBoundary.tsx:17-23 | Starts without an error and with the given id. |
| ErrorBoundary.DerivedStateFromError | src/components/ErrorBoundary.tsx:25-31 | `hasError` true, the error recorded, the new id. |
| ErrorBoundary.Boundary.CatchError | src/components/ErrorBoundary.tsx:25-31 | The state becomes the derived state, and without a fallback the panel shows that error and id. |
| ErrorBoundary.Boundary.HandleRetry | src/components/ErrorBoundary.tsx:37-39 | `hasError` false and no error, with the error id unchanged; children render again. |
| ErrorBoundary.RenderChoice | src/components/ErrorBoundary.tsx:41-86 | Children exactly when there is no error. Otherwise the fallback when one is given, else the panel. |
| ErrorBoundary.PanelMessage | src/components/ErrorBoundary.tsx:60 | The error's message, or 'An unexpected error occurred' when it is missing or empty. |

## Left out

- The hosted database: the store is a map, and every call's success is a parameter. Row order, `count: 'exact'` and the range's evaluation belong to the backend, and only their consequences are stated (`StoreAnswers`). Row-level security, column defaults and fresh ids are parameters. `ilike` is modelled as an ASCII case-insensitive substring test; its `%` and `_` wildcards inside the query text are not modelled.
- `ProjectQuery.BuildQuery`: the filter string at `src/pages/Projects.tsx:68` is built without escaping. It is modelled as "title or summary contains the query".
- React scheduling: effects run when the model's methods are called. The automatic refetches after a filter, page or size change, and the interleaving of un-awaited fetches, are not modelled. Follow-up fetches that a handler starts are recorded as the counters `projectFetches` and `tagFetches`.
- Toasts, `console` output and `window.location`: these are I/O. "Edit Project" (`handleEditProject`) only navigates the window, so it is not modelled.
- The debounced search in the filters bar, whose timer is never cancelled: it is time-based.
- `showCreateModal`, `showPassword` and the GitHub sign-in: these open a dialog, toggle visibility or call an external provider, and carry no logic here.
- `Date.now()` error ids: the id is a parameter.
- Locale date formatting on the card: this is I/O.
- The error's `stack` in the details block: only the message is modelled.
- `Text.Trim`, `Text.ToLower`: whitespace is a fixed set of spaces, tabs, line breaks and a few Unicode spaces, and lower-casing is ASCII only. JavaScript's full Unicode `trim`/`toLowerCase` is approximated.
- `TagVocabulary.CollectTags`: strings are compared by Unicode code point, which agrees with JavaScript's UTF-16 order inside the Basic Multilingual Plane only. (Lengths, in the tag and password rules, are counted in UTF-16 code units by `Text.Utf16Length`, as JavaScript counts them.)
- The `default` branches of `getConfirmText`, `getConfirmTitle` and `getConfirmDescription` are unreachable: the action's type always has one of four values. The model's four-valued kind has no such branch.
- `Projects.ProjectsPage.ChangePageSize`: its precondition is the footer's four choices, because the page is only ever given those.
- `Projects.ProjectsPage.CreateProject`, `Projects.ProjectsPage.DuplicateProject`: the id the store assigns to an insert is a fresh parameter.
