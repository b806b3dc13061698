/**
 * The tag vocabulary offered by the filters bar: the union of the tags of all of
 * the user's projects, without repeats, in ascending order (`Array.from(set).sort()`,
 * which compares strings character by character).
 */
module TagVocabulary {
  import opened Maybe

  /** Lexicographic order on strings; a proper prefix comes first. */
  predicate LexLess(a: string, b: string)
    decreases |a|
  {
    if |b| == 0 then false
    else if |a| == 0 then true
    else if a[0] != b[0] then a[0] < b[0]
    else LexLess(a[1..], b[1..])
  }

  lemma {:induction false} LexLessIrreflexive(a: string)
    ensures !LexLess(a, a)
    decreases |a|
  {
    if |a| > 0 {
      LexLessIrreflexive(a[1..]);
    }
  }

  lemma {:induction false} LexLessTransitive(a: string, b: string, c: string)
    requires LexLess(a, b) && LexLess(b, c)
    ensures LexLess(a, c)
    decreases |a|
  {
    if |a| > 0 && a[0] == b[0] && b[0] == c[0] {
      LexLessTransitive(a[1..], b[1..], c[1..]);
    }
  }

  lemma {:induction false} LexLessTotal(a: string, b: string)
    requires a != b
    ensures LexLess(a, b) || LexLess(b, a)
    decreases |a|
  {
    if |a| > 0 && |b| > 0 && a[0] == b[0] {
      assert a == [a[0]] + a[1..] && b == [b[0]] + b[1..];
      LexLessTotal(a[1..], b[1..]);
    }
  }

  /** Ascending without repeats. */
  predicate StrictlySorted(s: seq<string>) {
    forall i, j :: 0 <= i < j < |s| ==> LexLess(s[i], s[j])
  }

  lemma StrictlySortedHasNoRepeats(s: seq<string>, i: int, j: int)
    requires StrictlySorted(s) && 0 <= i < j < |s|
    ensures s[i] != s[j]
  {
    LexLessIrreflexive(s[i]);
  }

  /** Inserting one tag into a sorted list keeps it sorted and adds exactly that tag. */
  function InsertSorted(s: seq<string>, t: string): (r: seq<string>)
    requires StrictlySorted(s)
    ensures StrictlySorted(r)
    ensures forall x :: x in r <==> x in s || x == t
    decreases |s|
  {
    if |s| == 0 then [t]
    else if t == s[0] then s
    else if LexLess(t, s[0]) then
      assert forall j :: 0 < j < |s| ==> LexLess(t, s[j]) by {
        forall j | 0 < j < |s| ensures LexLess(t, s[j]) {
          LexLessTransitive(t, s[0], s[j]);
        }
      }
      [t] + s
    else
      LexLessTotal(t, s[0]);
      var rest := InsertSorted(s[1..], t);
      assert forall x :: x in rest ==> LexLess(s[0], x);
      [s[0]] + rest
  }

  /** The tags of one fetched row; a row without a tag array contributes none. */
  function RowTags(row: Option<seq<string>>): set<string> {
    if row.Some? then set t | t in row.value else {}
  }

  /** The union of the tags of the rows, in the order `forEach` visits them. */
  function TagUnion(rows: seq<Option<seq<string>>>): set<string>
    decreases |rows|
  {
    if |rows| == 0 then {} else TagUnion(rows[..|rows| - 1]) + RowTags(rows[|rows| - 1])
  }

  /** A tag is in the union exactly when some row carries it. */
  lemma {:induction false} TagUnionMembers(rows: seq<Option<seq<string>>>, t: string)
    ensures t in TagUnion(rows) <==>
      exists i :: 0 <= i < |rows| && rows[i].Some? && t in rows[i].value
    decreases |rows|
  {
    if |rows| > 0 {
      var init := rows[..|rows| - 1];
      TagUnionMembers(init, t);
      if t in TagUnion(init) {
        var i :| 0 <= i < |init| && init[i].Some? && t in init[i].value;
        assert rows[i] == init[i];
      }
      if exists i :: 0 <= i < |rows| && rows[i].Some? && t in rows[i].value {
        var i :| 0 <= i < |rows| && rows[i].Some? && t in rows[i].value;
        if i < |rows| - 1 {
          assert init[i] == rows[i];
        }
      }
    }
  }

  /** The body of `fetchAvailableTags` after the rows arrive: collect every tag into
      a set, then list the set in ascending order. */
  method CollectTags(rows: seq<Option<seq<string>>>) returns (sorted: seq<string>)
    ensures StrictlySorted(sorted)
    ensures forall t :: t in sorted <==> t in TagUnion(rows)
  {
    var allTags: set<string> := {};
    for i := 0 to |rows|
      invariant allTags == TagUnion(rows[..i])
    {
      assert rows[..i + 1][..i] == rows[..i];
      if rows[i].Some? {
        var tags := rows[i].value;
        for j := 0 to |tags|
          invariant allTags == TagUnion(rows[..i]) + set t | t in tags[..j]
        {
          assert tags[..j + 1] == tags[..j] + [tags[j]];
          allTags := allTags + {tags[j]};
        }
        assert tags[..|tags|] == tags;
      }
    }
    assert rows[..|rows|] == rows;
    sorted := [];
    var remaining := allTags;
    while remaining != {}
      invariant StrictlySorted(sorted)
      invariant forall t :: t in allTags <==> t in sorted || t in remaining
      decreases |remaining|
    {
      var t :| t in remaining;
      sorted := InsertSorted(sorted, t);
      remaining := remaining - {t};
    }
  }
}
