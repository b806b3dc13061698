/**
 * The tag editor: a text box that turns what is typed into tags (trimmed,
 * lower-cased, at most 50 UTF-16 code units, no repeats, at most `maxTags` of them) and
 * a row of removable tag badges.  The tag list belongs to the parent form and is
 * replaced through `onChange`; here it is a field the editor's methods reassign.
 */
module TagInput {
  import opened Maybe
  import opened Text
  import FiltersBar

  const MaxTagLength := 50

  const DefaultMaxTags := 20

  /** A tag as the editor produces it: already normalised, non-empty, and at most 50
      UTF-16 code units long (JavaScript's `length`). */
  predicate ValidTag(t: string) {
    Normalize(t) == t && t != [] && Utf16Length(t) <= MaxTagLength
  }

  /** The editor's invariant on the whole list. */
  predicate ValidTags(tags: seq<string>, maxTags: int) {
    && FiltersBar.NoDuplicates(tags)
    && (forall i :: 0 <= i < |tags| ==> ValidTag(tags[i]))
    && |tags| <= maxTags
  }

  /** The list `addTag(text)` hands to `onChange`, or `None` when it returns early:
      the normalised text is empty or longer than 50 code units, is already a tag,
      or the list is full. */
  function AddedTags(tags: seq<string>, text: string, maxTags: int): (r: Option<seq<string>>)
    ensures r.None? <==>
      Normalize(text) == [] || Utf16Length(Normalize(text)) > MaxTagLength
      || Normalize(text) in tags || |tags| >= maxTags
    ensures r.Some? ==> r.value == tags + [Normalize(text)]
  {
    var t := Normalize(text);
    if t == [] || Utf16Length(t) > MaxTagLength then None
    else if t in tags then None
    else if |tags| >= maxTags then None
    else Some(tags + [t])
  }

  /** Every accepted tag satisfies the tag invariant. */
  lemma AcceptedTagIsValid(text: string)
    requires Normalize(text) != [] && Utf16Length(Normalize(text)) <= MaxTagLength
    ensures ValidTag(Normalize(text))
  {
    NormalizeIdempotent(text);
  }

  /** Adding keeps the invariant, and the accepted list is one tag longer. */
  lemma AddPreservesValid(tags: seq<string>, text: string, maxTags: int)
    requires ValidTags(tags, maxTags)
    ensures AddedTags(tags, text, maxTags).Some? ==>
      ValidTags(AddedTags(tags, text, maxTags).value, maxTags)
      && |AddedTags(tags, text, maxTags).value| == |tags| + 1
  {
    var t := Normalize(text);
    if AddedTags(tags, text, maxTags).Some? {
      AcceptedTagIsValid(text);
      var r := tags + [t];
      forall i, j | 0 <= i < j < |r| ensures r[i] != r[j] {
        if j == |tags| {
          assert r[i] == tags[i];
        }
      }
    }
  }

  /** `tags.filter((_, index) => index !== i)`: the i-th tag goes, the rest keep their
      order; an index outside the list removes nothing. */
  function RemovedAt(tags: seq<string>, i: int): (r: seq<string>)
    ensures 0 <= i < |tags| ==>
      && |r| == |tags| - 1
      && (forall k :: 0 <= k < i ==> r[k] == tags[k])
      && (forall k :: i <= k < |r| ==> r[k] == tags[k + 1])
    ensures !(0 <= i < |tags|) ==> r == tags
  {
    if 0 <= i < |tags| then tags[..i] + tags[i + 1..] else tags
  }

  /** Removing keeps the invariant. */
  lemma RemovePreservesValid(tags: seq<string>, i: int, maxTags: int)
    requires ValidTags(tags, maxTags)
    ensures ValidTags(RemovedAt(tags, i), maxTags)
  {
    if 0 <= i < |tags| {
      var r := RemovedAt(tags, i);
      forall a, b | 0 <= a < b < |r| ensures r[a] != r[b] {
        RemovedAtIndex(tags, i, a);
        RemovedAtIndex(tags, i, b);
      }
      forall k | 0 <= k < |r| ensures ValidTag(r[k]) {
        RemovedAtIndex(tags, i, k);
      }
    }
  }

  /** Where the k-th tag after a removal came from. */
  lemma RemovedAtIndex(tags: seq<string>, i: int, k: int)
    requires 0 <= i < |tags| && 0 <= k < |tags| - 1
    ensures k < i ==> RemovedAt(tags, i)[k] == tags[k]
    ensures k >= i ==> RemovedAt(tags, i)[k] == tags[k + 1]
  {
  }

  /** Removing the tag just added gives back the list it was added to. */
  lemma AddThenRemoveLast(tags: seq<string>, text: string, maxTags: int)
    requires AddedTags(tags, text, maxTags).Some?
    ensures RemovedAt(AddedTags(tags, text, maxTags).value, |tags|) == tags
  {
    assert (tags + [Normalize(text)])[..|tags|] == tags;
  }

  class Editor {
    var tags: seq<string>
    var inputValue: string
    const maxTags: int

    ghost predicate Valid()
      reads this
    {
      ValidTags(tags, maxTags)
    }

    /** The text box is shown only while there is room for another tag. */
    function InputVisible(): (shown: bool)
      reads this
      ensures shown <==> |tags| < maxTags
    {
      |tags| < maxTags
    }

    constructor (initialTags: seq<string>, maxTags: int)
      ensures this.tags == initialTags && this.maxTags == maxTags && inputValue == ""
    {
      this.tags := initialTags;
      this.maxTags := maxTags;
      inputValue := "";
    }

    /** Typing into the box. */
    method EditInput(value: string)
      modifies this
      ensures inputValue == value && tags == old(tags)
    {
      inputValue := value;
    }

    /** `addTag`: an accepted tag is appended and the box cleared; a rejected one
        changes nothing. */
    method AddTag(text: string)
      modifies this
      ensures AddedTags(old(tags), text, maxTags).Some? ==>
        tags == old(tags) + [Normalize(text)] && inputValue == ""
      ensures AddedTags(old(tags), text, maxTags).None? ==>
        tags == old(tags) && inputValue == old(inputValue)
      ensures old(Valid()) ==> Valid()
    {
      if ValidTags(tags, maxTags) {
        AddPreservesValid(tags, text, maxTags);
      }
      var r := AddedTags(tags, text, maxTags);
      if r.Some? {
        tags := r.value;
        inputValue := "";
      }
    }

    /** `removeTag(i)`. */
    method RemoveTag(i: int)
      modifies this
      ensures tags == RemovedAt(old(tags), i) && inputValue == old(inputValue)
      ensures old(Valid()) ==> Valid()
    {
      if ValidTags(tags, maxTags) {
        RemovePreservesValid(tags, i, maxTags);
      }
      tags := RemovedAt(tags, i);
    }

    /** `handleKeyDown`: Enter adds the box's text; Backspace in an empty box removes
        the last tag; comma or space adds the text only when it has a non-blank
        character; any other key does nothing here. */
    method HandleKeyDown(key: string)
      modifies this
      ensures key == "Enter" ==> AddedTags(old(tags), old(inputValue), maxTags).Some? ==>
        tags == old(tags) + [Normalize(old(inputValue))] && inputValue == ""
      ensures key == "Backspace" && old(inputValue) == "" && |old(tags)| > 0 ==>
        tags == old(tags)[..|old(tags)| - 1] && inputValue == old(inputValue)
      ensures (key == "," || key == " ") && IsBlank(old(inputValue)) ==>
        tags == old(tags) && inputValue == old(inputValue)
      ensures ((key == "," || key == " ") && !IsBlank(old(inputValue))
               && AddedTags(old(tags), old(inputValue), maxTags).Some?) ==>
        tags == old(tags) + [Normalize(old(inputValue))] && inputValue == ""
      ensures AddedTags(old(tags), old(inputValue), maxTags).None? ==> inputValue == old(inputValue)
      ensures key != "Backspace" && AddedTags(old(tags), old(inputValue), maxTags).None? ==> tags == old(tags)
      ensures key == "Backspace" && (old(inputValue) != "" || |old(tags)| == 0) ==>
        tags == old(tags) && inputValue == old(inputValue)
      ensures key !in {"Enter", "Backspace", ",", " "} ==>
        tags == old(tags) && inputValue == old(inputValue)
      ensures old(Valid()) ==> Valid()
    {
      if key == "Enter" {
        AddTag(inputValue);
      } else if key == "Backspace" && inputValue == "" && |tags| > 0 {
        RemoveTag(|tags| - 1);
      } else if key == "," || key == " " {
        if !IsBlank(inputValue) {
          AddTag(inputValue);
        }
      }
    }

    /** `handleInputBlur`: leaving the box adds its text only when it is not blank. */
    method HandleInputBlur()
      modifies this
      ensures IsBlank(old(inputValue)) ==> tags == old(tags) && inputValue == old(inputValue)
      ensures !IsBlank(old(inputValue)) && AddedTags(old(tags), old(inputValue), maxTags).Some? ==>
        tags == old(tags) + [Normalize(old(inputValue))] && inputValue == ""
      ensures AddedTags(old(tags), old(inputValue), maxTags).None? ==>
        tags == old(tags) && inputValue == old(inputValue)
      ensures old(Valid()) ==> Valid()
    {
      if !IsBlank(inputValue) {
        AddTag(inputValue);
      }
    }
  }
}
