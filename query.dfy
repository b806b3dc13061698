/**
 * The query the projects page sends to the store: owner scope, the optional
 * filters, the sort order read off the sort key, and the inclusive row range of
 * the current page; and what a faithful answer from an in-memory store is.
 */
module ProjectQuery {
  import opened Maybe
  import opened Text
  import opened ProjectModel
  import opened FiltersBar
  import Pagination = ProjectsPagination

  datatype SortOrder = SortOrder(field: string, ascending: bool)

  /** Everything the query builder chains onto `from('projects')`. */
  datatype Query = Query(
    ownerId: string,
    text: Option<string>,
    statusIn: Option<seq<string>>,
    serviceTypeIn: Option<seq<string>>,
    tagsOverlap: Option<seq<string>>,
    order: SortOrder,
    rangeFrom: int,
    rangeTo: int)

  /** `const [sortField, sortDirection] = sort.split('_')`, ascending iff the second
      piece is exactly "asc": the field is everything before the first underscore,
      and the direction is read from the piece after it. */
  function ParseSortKey(key: string): (o: SortOrder)
    ensures '_' !in o.field
    ensures |o.field| <= |key| && o.field == key[..|o.field|] && (o.field == key || key[|o.field|] == '_')
    ensures o.ascending <==> |key| > |o.field| && AscPiece(key[|o.field| + 1..])
  {
    var parts := Split(key, '_');
    if |parts| >= 2 then
      var rest := key[|parts[0]| + 1..];
      assert key == parts[0] + "_" + rest;
      SplitAfterPiece(parts[0], '_', rest);
      FirstPieceIsAsc(rest);
      SortOrder(parts[0], parts[1] == "asc")
    else
      SortOrder(parts[0], false)
  }

  /** The direction piece reads "asc": the rest of the key is "asc" alone or
      "asc" followed by another underscore. */
  predicate AscPiece(s: string) {
    s == "asc" || (|s| >= 4 && s[..4] == "asc_")
  }

  /** The first underscore-separated piece of `s` is "asc" exactly when `s` is "asc"
      or starts with "asc_". */
  lemma FirstPieceIsAsc(s: string)
    ensures Split(s, '_')[0] == "asc" <==> AscPiece(s)
  {
    var parts := Split(s, '_');
    assert '_' !in parts[0];
    PrefixPieceIsAsc(s, parts[0]);
  }

  /** The same fact for any underscore-free prefix that ends at an underscore or at
      the end of `s`. */
  lemma PrefixPieceIsAsc(s: string, p: string)
    requires '_' !in p && |p| <= |s| && p == s[..|p|] && (p == s || s[|p|] == '_')
    ensures p == "asc" <==> AscPiece(s)
  {
    if p == "asc" && p != s {
      assert s[..4] == s[..3] + [s[3]];
    }
    if AscPiece(s) && s != "asc" {
      assert s[3] == '_' && s[..4][3] == '_';
      assert p != s;
      assert p == s[..3];
    }
  }

  /** A key whose field has no underscore parses the way it reads. */
  lemma PlainFieldParses(field: string, direction: string)
    requires '_' !in field && '_' !in direction
    ensures ParseSortKey(field + "_" + direction) == SortOrder(field, direction == "asc")
  {
    SplitAfterPiece(field, '_', direction);
  }

  /** A field that itself contains an underscore is cut at it, and the direction is
      then read from the field's second half: "created_at_asc" sorts on "created",
      descending, exactly like "created_at_desc". */
  lemma UnderscoreFieldMisparses(head: string, second: string, direction: string)
    requires '_' !in head && '_' !in second
    ensures ParseSortKey(head + "_" + second + "_" + direction) == SortOrder(head, second == "asc")
  {
    var tail := second + "_" + direction;
    assert head + "_" + second + "_" + direction == head + "_" + tail;
    SplitAfterPiece(head, '_', tail);
    SplitAfterPiece(second, '_', direction);
  }

  /** "Oldest First" sorts on "created", descending: the same order as
      "Newest First". */
  lemma OldestFirstIsDescending()
    ensures ParseSortKey("created_at_asc") == SortOrder("created", false)
  {
    assert "created_at_asc" == "created" + "_" + "at" + "_" + "asc";
    UnderscoreFieldMisparses("created", "at", "asc");
  }

  /** "A to Z" sorts on "title", ascending, as its label says. */
  lemma AToZIsAscending()
    ensures ParseSortKey("title_asc") == SortOrder("title", true)
  {
    assert "title_asc" == "title" + "_" + "asc";
    PlainFieldParses("title", "asc");
  }

  /** The query `fetchProjects` builds, or nothing when no user is signed in. */
  function BuildQuery(user: Option<string>, f: FilterState, page: int, pageSize: int): (q: Option<Query>)
    ensures q.None? <==> user.None?
    ensures q.Some? ==> q.value.ownerId == user.value
    ensures q.Some? ==> (q.value.text.Some? <==> f.query != "")
    ensures q.Some? && q.value.text.Some? ==> q.value.text.value == f.query
    ensures q.Some? ==> (q.value.statusIn.Some? <==> |f.status| > 0)
    ensures q.Some? && q.value.statusIn.Some? ==> q.value.statusIn.value == f.status
    ensures q.Some? ==> (q.value.serviceTypeIn.Some? <==> |f.serviceType| > 0)
    ensures q.Some? && q.value.serviceTypeIn.Some? ==> q.value.serviceTypeIn.value == f.serviceType
    ensures q.Some? ==> (q.value.tagsOverlap.Some? <==> |f.tags| > 0)
    ensures q.Some? && q.value.tagsOverlap.Some? ==> q.value.tagsOverlap.value == f.tags
    ensures q.Some? ==> q.value.order == ParseSortKey(f.sort)
    ensures q.Some? ==> q.value.rangeFrom == (page - 1) * pageSize
    ensures q.Some? ==> q.value.rangeTo - q.value.rangeFrom + 1 == pageSize
  {
    if user.None? then None
    else
      var from := (page - 1) * pageSize;
      Some(Query(
        user.value,
        if f.query != "" then Some(f.query) else None,
        if |f.status| > 0 then Some(f.status) else None,
        if |f.serviceType| > 0 then Some(f.serviceType) else None,
        if |f.tags| > 0 then Some(f.tags) else None,
        ParseSortKey(f.sort),
        from,
        from + pageSize - 1))
  }

  /** The requested rows are the ones the pagination footer numbers: its first item
      is `rangeFrom + 1` and its last is `rangeTo + 1`, cut at the total. */
  lemma RangeMatchesFooter(user: string, f: FilterState, page: int, pageSize: int, totalCount: int)
    ensures var q := BuildQuery(Some(user), f, page, pageSize).value;
      && Pagination.StartItem(page, pageSize) == q.rangeFrom + 1
      && Pagination.EndItem(page, pageSize, totalCount)
         == (if q.rangeTo + 1 < totalCount then q.rangeTo + 1 else totalCount)
  {
  }

  /** Two lists share an element (`overlaps`). */
  predicate Overlaps(a: seq<string>, b: seq<string>) {
    exists i :: 0 <= i < |a| && a[i] in b
  }

  /** A row satisfies the query's filters: it is the user's, and each present filter
      holds.  The text filter is a case-insensitive substring test on the title or
      the summary. */
  predicate Matches(q: Query, p: Project) {
    && p.ownerId == q.ownerId
    && (q.text.None? || ContainsIgnoringCase(p.title, q.text.value)
        || (p.summary.Some? && ContainsIgnoringCase(p.summary.value, q.text.value)))
    && (q.statusIn.None? || StatusName(p.status) in q.statusIn.value)
    && (q.serviceTypeIn.None? || ServiceTypeName(p.serviceType) in q.serviceTypeIn.value)
    && (q.tagsOverlap.None? || Overlaps(p.tags, q.tagsOverlap.value))
  }

  /** With no filter active a query keeps exactly the user's own rows. */
  lemma InactiveFiltersKeepOwnRows(user: string, f: FilterState, page: int, pageSize: int, p: Project)
    requires !HasActiveFilters(f)
    ensures Matches(BuildQuery(Some(user), f, page, pageSize).value, p) <==> p.ownerId == user
  {
  }

  /** Adding a filter value can only narrow a status filter that was already on,
      while turning it on from empty narrows from "any status". */
  lemma StatusFilterNarrows(user: string, f: FilterState, page: int, pageSize: int, p: Project)
    requires |f.status| > 0
    ensures Matches(BuildQuery(Some(user), f, page, pageSize).value, p)
        ==> StatusName(p.status) in f.status
    ensures Matches(BuildQuery(Some(user), f, page, pageSize).value, p)
        ==> Matches(BuildQuery(Some(user), f.(status := []), page, pageSize).value, p)
  {
  }

  /** The ids of the store's rows that the query selects. */
  function MatchingIds(db: map<string, Project>, q: Query): (ids: set<string>)
    ensures forall id :: id in ids <==> id in db && Matches(q, db[id])
  {
    set id | id in db && Matches(q, db[id])
  }

  /** A faithful answer of the store: the rows are distinct stored rows that match,
      at most one page of them, and the count is the number of all matching rows.
      The rows are the matching rows from position `rangeFrom` on, so they all lie
      below the count, and a range starting at or past the count holds none. */
  predicate StoreAnswers(db: map<string, Project>, q: Query, rows: seq<Project>, count: nat) {
    && (forall i :: 0 <= i < |rows| ==> rows[i].id in db && db[rows[i].id] == rows[i] && Matches(q, rows[i]))
    && (forall i, j :: 0 <= i < j < |rows| ==> rows[i].id != rows[j].id)
    && |rows| <= q.rangeTo - q.rangeFrom + 1
    && (rows == [] || q.rangeFrom + |rows| <= count)
    && count == |MatchingIds(db, q)|
  }

  /** Asking for a page past the last one gets no rows at all from a faithful
      store. */
  lemma PastLastPageAnswersNothing(db: map<string, Project>, q: Query, rows: seq<Project>, count: nat,
                                   page: int, pageSize: int)
    requires pageSize > 0 && q.rangeFrom == (page - 1) * pageSize
    requires page > Pagination.TotalPages(count, pageSize)
    requires StoreAnswers(db, q, rows, count)
    ensures rows == []
  {
    Pagination.PastLastPageShowsInvertedRange(page, pageSize, count);
  }

  /** A faithful answer never holds more rows than match in total. */
  lemma {:induction false} AnswerWithinCount(db: map<string, Project>, q: Query, rows: seq<Project>, count: nat)
    requires StoreAnswers(db, q, rows, count)
    ensures |rows| <= count
  {
    var ids := set i | 0 <= i < |rows| :: rows[i].id;
    assert ids <= MatchingIds(db, q);
    DistinctIdsCount(rows);
    SubsetCardinality(ids, MatchingIds(db, q));
  }

  /** What a faithful answer guarantees about the rows shown: the owner's, matching,
      at most one page of them and no more than the count, and none at all for a
      page past the last. */
  predicate FaithfulView(q: Query, rows: seq<Project>, count: nat, page: int, pageSize: int) {
    && (forall i :: 0 <= i < |rows| ==> rows[i].ownerId == q.ownerId && Matches(q, rows[i]))
    && |rows| <= q.rangeTo - q.rangeFrom + 1 && |rows| <= count
    && (pageSize > 0 && q.rangeFrom == (page - 1) * pageSize && page > Pagination.TotalPages(count, pageSize)
        ==> rows == [])
  }

  lemma FaithfulRows(db: map<string, Project>, q: Query, rows: seq<Project>, count: nat, page: int, pageSize: int)
    requires StoreAnswers(db, q, rows, count)
    ensures FaithfulView(q, rows, count, page, pageSize)
  {
    AnswerWithinCount(db, q, rows, count);
    if pageSize > 0 && q.rangeFrom == (page - 1) * pageSize && page > Pagination.TotalPages(count, pageSize) {
      PastLastPageAnswersNothing(db, q, rows, count, page, pageSize);
    }
  }

  lemma {:induction false} DistinctIdsCount(rows: seq<Project>)
    requires forall i, j :: 0 <= i < j < |rows| ==> rows[i].id != rows[j].id
    ensures |set i | 0 <= i < |rows| :: rows[i].id| == |rows|
    decreases |rows|
  {
    if |rows| > 0 {
      var init := rows[..|rows| - 1];
      DistinctIdsCount(init);
      var last := rows[|rows| - 1].id;
      var all := set i | 0 <= i < |rows| :: rows[i].id;
      var before := set i | 0 <= i < |init| :: init[i].id;
      forall i | 0 <= i < |init| ensures init[i].id != last {
        assert init[i] == rows[i];
      }
      assert last !in before;
      assert all == before + {last} by {
        forall x | x in all ensures x in before + {last} {
          var i :| 0 <= i < |rows| && rows[i].id == x;
          if i < |rows| - 1 { assert init[i].id == x; }
        }
        forall x | x in before ensures x in all {
          var i :| 0 <= i < |init| && init[i].id == x;
          assert rows[i].id == x;
        }
      }
    }
  }

  lemma {:induction false} SubsetCardinality(a: set<string>, b: set<string>)
    requires a <= b
    ensures |a| <= |b|
    decreases |b|
  {
    if a != {} {
      var x :| x in a;
      SubsetCardinality(a - {x}, b - {x});
    }
  }
}
