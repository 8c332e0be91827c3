/** The blog post editor's tag row: Enter in the tag box appends the typed
    text verbatim (no trimming, no duplicate check) and clears the box; the
    cross on a tag removes that position. */
module BlogEditor {
  import opened Seqs

  /** `handleTagInput`: the new tag list and the new box content. */
  function HandleTagInput(tags: seq<string>, key: string, value: string): (r: (seq<string>, string))
    ensures key == "Enter" && value != "" ==> r.0 == tags + [value] && r.1 == ""
    ensures key != "Enter" || value == "" ==> r == (tags, value)
    ensures r.0[..|tags|] == tags
  {
    if key == "Enter" && value != "" then (tags + [value], "") else (tags, value)
  }

  /** `removeTag`: exactly position `i` removed; a position outside the list
      removes nothing. */
  function RemoveTag(tags: seq<string>, i: int): (r: seq<string>)
    ensures 0 <= i < |tags| ==> |r| == |tags| - 1
    ensures 0 <= i < |tags| ==> r == tags[..i] + tags[i + 1..]
    ensures !(0 <= i < |tags|) ==> r == tags
  {
    var r := WithoutPosition(tags, i);
    assert 0 <= i < |tags| ==> r == tags[..i] + tags[i + 1..];
    r
  }

  /** Entering a tag and then removing the last position gives back the
      list. */
  lemma {:induction false} EnterThenRemoveLast(tags: seq<string>, value: string)
    requires value != ""
    ensures RemoveTag(HandleTagInput(tags, "Enter", value).0, |tags|) == tags
  {
    var added := tags + [value];
    assert added[..|tags|] == tags;
  }

  /** Nothing stops the same tag from being entered twice, or a tag from
      keeping surrounding spaces. */
  lemma NoDedupNoTrim()
    ensures HandleTagInput(["react"], "Enter", "react").0 == ["react", "react"]
    ensures HandleTagInput([], "Enter", " react ").0 == [" react "]
  {
  }
}
