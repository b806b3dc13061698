/**
 * The filter state edited by the filters bar: a free-text query, three lists of
 * selected values and a sort key, with the bar's update, toggle and clear
 * operations and its two "active filter" summaries.
 */
module FiltersBar {
  import opened Maybe

  datatype FilterState = FilterState(
    query: string,
    status: seq<string>,
    serviceType: seq<string>,
    tags: seq<string>,
    sort: string)

  /** The three list-valued keys that `toggleArrayFilter` accepts. */
  datatype ListKey = StatusKey | ServiceTypeKey | TagsKey

  /** A `Partial<FilterState>`: the keys present in an update object. */
  datatype FilterUpdate = FilterUpdate(
    query: Option<string>,
    status: Option<seq<string>>,
    serviceType: Option<seq<string>>,
    tags: Option<seq<string>>,
    sort: Option<string>)

  const NoUpdate := FilterUpdate(None, None, None, None, None)

  const StatusOptions: seq<string> := ["Draft", "In Progress", "Blocked", "Review", "Completed"]

  const ServiceTypeOptions: seq<string> := ["AR", "VR", "Gaming"]

  /** The sort menu: (key, label) pairs in menu order. */
  const SortOptions: seq<(string, string)> := [
    ("created_at_desc", "Newest First"),
    ("created_at_asc", "Oldest First"),
    ("title_asc", "A to Z"),
    ("title_desc", "Z to A"),
    ("progress_desc", "Progress High to Low"),
    ("progress_asc", "Progress Low to High"),
    ("updated_at_desc", "Recently Updated")
  ]

  /** The list stored under one of the three list keys. */
  function ListOf(f: FilterState, key: ListKey): seq<string> {
    match key
    case StatusKey => f.status
    case ServiceTypeKey => f.serviceType
    case TagsKey => f.tags
  }

  /** `{ ...filters, ...updates }`: every key present in `u` is replaced, every other
      key keeps its value. */
  function UpdateFilters(f: FilterState, u: FilterUpdate): (r: FilterState)
    ensures r.query == (if u.query.Some? then u.query.value else f.query)
    ensures r.status == (if u.status.Some? then u.status.value else f.status)
    ensures r.serviceType == (if u.serviceType.Some? then u.serviceType.value else f.serviceType)
    ensures r.tags == (if u.tags.Some? then u.tags.value else f.tags)
    ensures r.sort == (if u.sort.Some? then u.sort.value else f.sort)
  {
    FilterState(
      u.query.GetOr(f.query),
      u.status.GetOr(f.status),
      u.serviceType.GetOr(f.serviceType),
      u.tags.GetOr(f.tags),
      u.sort.GetOr(f.sort))
  }

  /** The later of two updates wins key by key, as two spreads in a row do. */
  function Merge(first: FilterUpdate, second: FilterUpdate): FilterUpdate {
    FilterUpdate(
      if second.query.Some? then second.query else first.query,
      if second.status.Some? then second.status else first.status,
      if second.serviceType.Some? then second.serviceType else first.serviceType,
      if second.tags.Some? then second.tags else first.tags,
      if second.sort.Some? then second.sort else first.sort)
  }

  /** An empty update changes nothing; applying two updates is applying their merge;
      applying the same update twice is applying it once. */
  lemma UpdateLaws(f: FilterState, u: FilterUpdate, v: FilterUpdate)
    ensures UpdateFilters(f, NoUpdate) == f
    ensures UpdateFilters(UpdateFilters(f, u), v) == UpdateFilters(f, Merge(u, v))
    ensures UpdateFilters(UpdateFilters(f, u), u) == UpdateFilters(f, u)
  {
  }

  /** `list.filter(item => item !== v)`. */
  function RemoveAll(s: seq<string>, v: string): (r: seq<string>)
    ensures v !in r
    ensures forall x :: x in r <==> x in s && x != v
    ensures |r| <= |s|
    ensures v in s ==> |r| < |s|
  {
    if s == [] then []
    else if s[0] == v then RemoveAll(s[1..], v)
    else [s[0]] + RemoveAll(s[1..], v)
  }

  /** Filtering out an absent value leaves the list exactly as it was. */
  lemma {:induction false} RemoveAbsent(s: seq<string>, v: string)
    requires v !in s
    ensures RemoveAll(s, v) == s
  {
    if s != [] {
      RemoveAbsent(s[1..], v);
    }
  }

  /** Filtering distributes over concatenation. */
  lemma {:induction false} RemoveAllAppend(a: seq<string>, b: seq<string>, v: string)
    ensures RemoveAll(a + b, v) == RemoveAll(a, v) + RemoveAll(b, v)
  {
    if a == [] {
      assert a + b == b;
    } else {
      assert (a + b)[1..] == a[1..] + b;
      RemoveAllAppend(a[1..], b, v);
    }
  }

  predicate NoDuplicates(s: seq<string>) {
    forall i, j :: 0 <= i < j < |s| ==> s[i] != s[j]
  }

  /** In a duplicate-free list, filtering out a present value removes exactly the one
      position holding it; the others keep their order. */
  lemma {:induction false} RemoveUnique(s: seq<string>, i: nat)
    requires NoDuplicates(s) && i < |s|
    ensures RemoveAll(s, s[i]) == s[..i] + s[i + 1..]
    decreases i
  {
    var v := s[i];
    var t := s[1..];
    if i == 0 {
      assert v !in t by {
        forall j | 0 <= j < |t| ensures t[j] != v {
          assert t[j] == s[j + 1];
        }
      }
      RemoveAbsent(t, v);
      assert s[..0] + s[1..] == t;
    } else {
      assert NoDuplicates(t) by {
        forall a, b | 0 <= a < b < |t| ensures t[a] != t[b] {
          assert t[a] == s[a + 1] && t[b] == s[b + 1];
        }
      }
      assert t[i - 1] == v && s[0] != v;
      RemoveUnique(t, i - 1);
      assert s[..i] + s[i + 1..] == [s[0]] + (t[..i - 1] + t[i..]);
    }
  }

  /** The body of `toggleArrayFilter` on one list: a present value is removed
      everywhere, an absent one is appended. */
  function ToggleValue(s: seq<string>, v: string): (r: seq<string>)
    ensures v in s ==> v !in r && forall x :: x != v ==> (x in r <==> x in s)
    ensures v !in s ==> r == s + [v]
  {
    if v in s then RemoveAll(s, v) else s + [v]
  }

  /** Toggling an absent value twice gives back the list exactly. */
  lemma {:induction false} ToggleAbsentTwice(s: seq<string>, v: string)
    requires v !in s
    ensures ToggleValue(ToggleValue(s, v), v) == s
  {
    RemoveAllAppend(s, [v], v);
    RemoveAbsent(s, v);
    assert RemoveAll([v], v) == [];
  }

  /** Toggling a present value twice in a duplicate-free list gives back the same
      values, with that value moved from its position to the end. */
  lemma {:induction false} TogglePresentTwice(s: seq<string>, i: nat)
    requires NoDuplicates(s) && i < |s|
    ensures ToggleValue(ToggleValue(s, s[i]), s[i]) == s[..i] + s[i + 1..] + [s[i]]
    ensures multiset(ToggleValue(ToggleValue(s, s[i]), s[i])) == multiset(s)
  {
    RemoveUnique(s, i);
    assert s == s[..i] + [s[i]] + s[i + 1..];
  }

  /** `toggleArrayFilter(key, v)`: only the list under `key` changes. */
  function ToggleArrayFilter(f: FilterState, key: ListKey, v: string): (r: FilterState)
    ensures ListOf(r, key) == ToggleValue(ListOf(f, key), v)
    ensures forall k :: k != key ==> ListOf(r, k) == ListOf(f, k)
    ensures r.query == f.query && r.sort == f.sort
  {
    var updated := ToggleValue(ListOf(f, key), v);
    match key
    case StatusKey => UpdateFilters(f, NoUpdate.(status := Some(updated)))
    case ServiceTypeKey => UpdateFilters(f, NoUpdate.(serviceType := Some(updated)))
    case TagsKey => UpdateFilters(f, NoUpdate.(tags := Some(updated)))
  }

  /** The state `clearAllFilters` installs. */
  function ClearAllFilters(): (r: FilterState)
    ensures !HasActiveFilters(r) && TotalActiveFilters(r) == 0
    ensures r.sort == "created_at_desc"
  {
    FilterState("", [], [], [], "created_at_desc")
  }

  /** The query is non-empty or some list is non-empty; the sort key never counts. */
  predicate HasActiveFilters(f: FilterState) {
    f.query != "" || |f.status| > 0 || |f.serviceType| > 0 || |f.tags| > 0
  }

  /** The badge count: the three list lengths added up, the query left out. */
  function TotalActiveFilters(f: FilterState): (n: nat)
    ensures n == 0 <==> f.status == [] && f.serviceType == [] && f.tags == []
  {
    |f.status| + |f.serviceType| + |f.tags|
  }

  /** The two summaries agree except on the query, and neither reads the sort key. */
  lemma ActiveFiltersAgree(f: FilterState, newSort: string)
    ensures HasActiveFilters(f) <==> f.query != "" || TotalActiveFilters(f) > 0
    ensures HasActiveFilters(f.(sort := newSort)) == HasActiveFilters(f)
    ensures TotalActiveFilters(f.(query := "", sort := newSort)) == TotalActiveFilters(f)
  {
  }

  /** Toggling a value in a duplicate-free list moves the badge count by exactly one. */
  lemma {:induction false} ToggleChangesCountByOne(f: FilterState, key: ListKey, v: string)
    requires NoDuplicates(ListOf(f, key))
    ensures v in ListOf(f, key) ==>
      TotalActiveFilters(ToggleArrayFilter(f, key, v)) == TotalActiveFilters(f) - 1
    ensures v !in ListOf(f, key) ==>
      TotalActiveFilters(ToggleArrayFilter(f, key, v)) == TotalActiveFilters(f) + 1
  {
    var s := ListOf(f, key);
    if v in s {
      var i :| 0 <= i < |s| && s[i] == v;
      RemoveUnique(s, i);
      assert |s[..i] + s[i + 1..]| == |s| - 1;
    }
  }
}
