/**
 * The tag editor (components/TagInput/TagInput.tsx). The tag list is the
 * `value` prop; every list passed to `onChange` is written back by the
 * parent form, so the model keeps it as a field beside the input `text`.
 */
module TagInput {
  import opened Wrappers
  import opened JsString

  /** `[...value, cleaned]` when the trimmed tag is non-empty and new, otherwise `value`. */
  function AddedTags(tags: seq<string>, newTag: string): (r: seq<string>)
    ensures tags <= r && |r| <= |tags| + 1
    ensures forall x :: x in r <==> x in tags || (x == Trim(newTag) && x != "")
    ensures r != tags <==> Trim(newTag) != "" && Trim(newTag) !in tags
  {
    var cleaned := Trim(newTag);
    if cleaned != "" && cleaned !in tags then tags + [cleaned] else tags
  }

  /** `value.filter((t) => t !== tag)`. */
  function RemovedTags(tags: seq<string>, tag: string): (r: seq<string>)
    ensures |r| <= |tags|
    ensures forall x :: x in r <==> x in tags && x != tag
  {
    if tags == [] then []
    else if tags[0] == tag then RemovedTags(tags[1..], tag)
    else [tags[0]] + RemovedTags(tags[1..], tag)
  }

  /** `/[,\s]$/`: the text ends in a comma or a whitespace character. */
  predicate EndsWithSeparator(text: string) {
    text != [] && (text[|text| - 1] == ',' || IsWhitespace(text[|text| - 1]))
  }

  predicate NoDuplicates(tags: seq<string>) {
    forall i, j :: 0 <= i < j < |tags| ==> tags[i] != tags[j]
  }

  /** A tag as `addTag` stores it: non-empty and already trimmed. */
  predicate IsCleanTag(t: string) {
    t != "" && Trim(t) == t
  }

  /** Every tag is clean, and no tag occurs twice. */
  predicate WellFormed(tags: seq<string>) {
    NoDuplicates(tags) && forall i :: 0 <= i < |tags| ==> IsCleanTag(tags[i])
  }

  /** Removal keeps the relative order of the other tags: it works piecewise on a concatenation. */
  lemma {:induction false} RemoveDistributes(a: seq<string>, b: seq<string>, tag: string)
    ensures RemovedTags(a + b, tag) == RemovedTags(a, tag) + RemovedTags(b, tag)
  {
    if a == [] {
      assert a + b == b;
    } else {
      var h := if a[0] == tag then [] else [a[0]];
      assert (a + b)[0] == a[0];
      assert (a + b)[1..] == a[1..] + b;
      assert RemovedTags(a + b, tag) == h + RemovedTags(a[1..] + b, tag);
      RemoveDistributes(a[1..], b, tag);
      assert RemovedTags(a, tag) == h + RemovedTags(a[1..], tag);
      assert h + (RemovedTags(a[1..], tag) + RemovedTags(b, tag)) == (h + RemovedTags(a[1..], tag)) + RemovedTags(b, tag);
    }
  }

  lemma {:induction false} RemoveAbsent(tags: seq<string>, tag: string)
    requires tag !in tags
    ensures RemovedTags(tags, tag) == tags
  {
    if tags != [] {
      RemoveAbsent(tags[1..], tag);
    }
  }

  /** In a list without duplicates, removing the tag at index i removes exactly that position. */
  lemma RemoveAtIndex(tags: seq<string>, i: nat)
    requires NoDuplicates(tags) && i < |tags|
    ensures RemovedTags(tags, tags[i]) == tags[..i] + tags[i + 1..]
  {
    var t := tags[i];
    assert tags == tags[..i] + [t] + tags[i + 1..];
    RemoveDistributes(tags[..i] + [t], tags[i + 1..], t);
    RemoveDistributes(tags[..i], [t], t);
    assert t !in tags[..i];
    assert t !in tags[i + 1..];
    RemoveAbsent(tags[..i], t);
    RemoveAbsent(tags[i + 1..], t);
  }

  /** Backspace on a well-formed list drops the last tag and nothing else. */
  lemma BackspaceDropsLast(tags: seq<string>)
    requires NoDuplicates(tags) && tags != []
    ensures RemovedTags(tags, tags[|tags| - 1]) == tags[..|tags| - 1]
  {
    RemoveAtIndex(tags, |tags| - 1);
  }

  /** Adding keeps the list well formed. */
  lemma AddKeepsWellFormed(tags: seq<string>, newTag: string)
    requires WellFormed(tags)
    ensures WellFormed(AddedTags(tags, newTag))
  {
    var cleaned := Trim(newTag);
    if cleaned != "" && cleaned !in tags {
      TrimIdempotent(newTag);
      AppendKeepsClean(tags, cleaned);
      AppendKeepsDistinct(tags, cleaned);
    }
  }

  lemma AppendKeepsClean(tags: seq<string>, t: string)
    requires forall i :: 0 <= i < |tags| ==> IsCleanTag(tags[i])
    requires IsCleanTag(t)
    ensures forall i :: 0 <= i < |tags + [t]| ==> IsCleanTag((tags + [t])[i])
  {
    forall i | 0 <= i < |tags + [t]| ensures IsCleanTag((tags + [t])[i]) {
      if i < |tags| { assert (tags + [t])[i] == tags[i]; }
    }
  }

  lemma AppendKeepsDistinct(tags: seq<string>, t: string)
    requires NoDuplicates(tags) && t !in tags
    ensures NoDuplicates(tags + [t])
  {
    var r := tags + [t];
    forall i, j | 0 <= i < j < |r| ensures r[i] != r[j] {
      assert r[i] == tags[i];
      if j < |tags| { assert r[j] == tags[j]; }
    }
  }

  /** The list without position i, indexed. */
  lemma DropIndex(tags: seq<string>, i: nat, k: nat)
    requires i < |tags| && k < |tags| - 1
    ensures (tags[..i] + tags[i + 1..])[k] == tags[if k < i then k else k + 1]
  {
  }

  lemma DropKeepsWellFormed(tags: seq<string>, i: nat)
    requires WellFormed(tags) && i < |tags|
    ensures WellFormed(tags[..i] + tags[i + 1..])
  {
    DropKeepsClean(tags, i, tags[..i] + tags[i + 1..]);
    DropKeepsDistinct(tags, i);
  }

  lemma DropKeepsClean(tags: seq<string>, i: nat, r: seq<string>)
    requires forall k :: 0 <= k < |tags| ==> IsCleanTag(tags[k])
    requires i < |tags| && r == tags[..i] + tags[i + 1..]
    ensures forall k :: 0 <= k < |r| ==> IsCleanTag(r[k])
  {
    forall k | 0 <= k < |r| ensures IsCleanTag(r[k]) {
      DropIndex(tags, i, k);
    }
  }

  lemma DropKeepsDistinct(tags: seq<string>, i: nat)
    requires NoDuplicates(tags) && i < |tags|
    ensures NoDuplicates(tags[..i] + tags[i + 1..])
  {
    var r := tags[..i] + tags[i + 1..];
    forall k1, k2 | 0 <= k1 < k2 < |r| ensures r[k1] != r[k2] {
      DropIndex(tags, i, k1);
      DropIndex(tags, i, k2);
    }
  }

  /** Removing keeps the list well formed. */
  lemma RemoveKeepsWellFormed(tags: seq<string>, tag: string)
    requires WellFormed(tags)
    ensures WellFormed(RemovedTags(tags, tag))
  {
    if tag in tags {
      var i :| 0 <= i < |tags| && tags[i] == tag;
      RemoveAtIndex(tags, i);
      DropKeepsWellFormed(tags, i);
    } else {
      RemoveAbsent(tags, tag);
    }
  }

  class TagInputState {
    var tags: seq<string>
    var text: string

    constructor (value: seq<string>)
      ensures tags == value && text == ""
    {
      tags := value;
      text := "";
    }

    /** `addTag(newTag)`: `onChange` only when the tag is added; the text is cleared either way. */
    method AddTag(newTag: string) returns (emitted: Option<seq<string>>)
      modifies this
      ensures tags == AddedTags(old(tags), newTag)
      ensures text == ""
      ensures emitted.Some? <==> tags != old(tags)
      ensures emitted.Some? ==> emitted.value == tags
      ensures WellFormed(old(tags)) ==> WellFormed(tags)
    {
      var cleaned := Trim(newTag);
      if cleaned != "" && cleaned !in tags {
        tags := tags + [cleaned];
        emitted := Some(tags);
      } else {
        emitted := None;
      }
      text := "";
      if WellFormed(old(tags)) {
        AddKeepsWellFormed(old(tags), newTag);
      }
    }

    /** `removeTag(tag)`: always emits the filtered list, even when nothing was removed. */
    method RemoveTag(tag: string) returns (emitted: Option<seq<string>>)
      modifies this`tags
      ensures tags == RemovedTags(old(tags), tag)
      ensures emitted == Some(tags)
      ensures WellFormed(old(tags)) ==> WellFormed(tags)
    {
      tags := RemovedTags(tags, tag);
      emitted := Some(tags);
      if WellFormed(old(tags)) {
        RemoveKeepsWellFormed(old(tags), tag);
      }
    }

    /** `handleKeyPress`: Backspace in an empty input removes the last tag; any other key does nothing. */
    method KeyPress(key: string) returns (emitted: Option<seq<string>>)
      modifies this`tags
      ensures key == "Backspace" && text == "" && old(tags) != [] ==>
                tags == RemovedTags(old(tags), old(tags)[|old(tags)| - 1]) && emitted == Some(tags)
      ensures !(key == "Backspace" && text == "" && old(tags) != []) ==> tags == old(tags) && emitted.None?
      ensures WellFormed(old(tags)) && key == "Backspace" && text == "" && old(tags) != [] ==>
                tags == old(tags)[..|old(tags)| - 1]
    {
      if key == "Backspace" && text == "" && |tags| > 0 {
        if WellFormed(tags) {
          BackspaceDropsLast(tags);
        }
        emitted := RemoveTag(tags[|tags| - 1]);
      } else {
        emitted := None;
      }
    }

    /** `handleChangeText`: a trailing comma or whitespace submits the text before it. */
    method ChangeText(newText: string) returns (emitted: Option<seq<string>>)
      modifies this
      ensures EndsWithSeparator(newText) ==> tags == AddedTags(old(tags), newText[..|newText| - 1]) && text == ""
      ensures EndsWithSeparator(newText) ==> (emitted.Some? <==> tags != old(tags))
      ensures EndsWithSeparator(newText) ==> (emitted.Some? ==> emitted.value == tags)
      ensures !EndsWithSeparator(newText) ==> tags == old(tags) && text == newText && emitted.None?
      ensures WellFormed(old(tags)) ==> WellFormed(tags)
    {
      if EndsWithSeparator(newText) {
        emitted := AddTag(newText[..|newText| - 1]);
      } else {
        text := newText;
        emitted := None;
      }
    }

    /** `onSubmitEditing`: the submitted text is added as a tag. */
    method SubmitEditing(submitted: string) returns (emitted: Option<seq<string>>)
      modifies this
      ensures tags == AddedTags(old(tags), submitted) && text == ""
      ensures emitted.Some? <==> tags != old(tags)
      ensures emitted.Some? ==> emitted.value == tags
      ensures WellFormed(old(tags)) ==> WellFormed(tags)
    {
      emitted := AddTag(submitted);
    }
  }
}
