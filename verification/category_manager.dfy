/** The blog's category and tag manager: two lists, each with an input box.
    Submitting adds the trimmed input unless it is blank or already listed;
    the remove button drops every occurrence of a value. Categories and
    tags follow the same rules, through the same two list operations. */
module CategoryManager {
  import opened Seqs
  import opened JsString

  datatype State = State(categories: seq<string>, tags: seq<string>, newCategory: string, newTag: string)

  /** The state the component starts in, from its initial lists. */
  function Init(initialCategories: seq<string>, initialTags: seq<string>): (st: State)
    ensures st.categories == initialCategories && st.tags == initialTags
    ensures st.newCategory == "" && st.newTag == ""
  {
    State(initialCategories, initialTags, "", "")
  }

  /** Submitting an input box against its list: the new list and the new
      box content. A blank input, or one whose trimmed form is listed, leaves
      both as they were; any other input appends its trimmed form and clears
      the box. */
  function AddEntry(list: seq<string>, input: string): (r: (seq<string>, string))
    ensures AllWhiteSpace(input) ==> r == (list, input)
    ensures Trim(input) in list ==> r == (list, input)
    ensures !AllWhiteSpace(input) && Trim(input) !in list ==>
      r.0 == list + [Trim(input)] && r.1 == ""
    ensures forall i :: |list| <= i < |r.0| ==> r.0[i] != "" && IsTrimmed(r.0[i])
    ensures NoDuplicates(list) ==> NoDuplicates(r.0)
  {
    var t := Trim(input);
    if t != "" && t !in list then (list + [t], "") else (list, input)
  }

  /** The remove button: every occurrence of `value` gone, the other entries
      kept in order. */
  function RemoveEntry(list: seq<string>, value: string): (r: seq<string>)
    ensures value !in r
    ensures forall i :: 0 <= i < |list| && list[i] != value ==> list[i] in r
    ensures forall i :: 0 <= i < |r| ==> r[i] in list
    ensures value !in list ==> r == list
    ensures NoDuplicates(list) ==> NoDuplicates(r)
  {
    var keep := (c: string) => c != value;
    if value !in list then
      FilterAcceptingAll(list, keep);
      Filter(list, keep)
    else
      if NoDuplicates(list) then
        FilterKeepsNoDuplicates(list, keep);
        Filter(list, keep)
      else Filter(list, keep)
  }

  lemma {:induction false} FilterKeepsNoDuplicates(list: seq<string>, keep: string -> bool)
    requires NoDuplicates(list)
    ensures NoDuplicates(Filter(list, keep))
  {
    if |list| > 0 {
      FilterKeepsNoDuplicates(list[1..], keep);
      assert list[0] !in list[1..];
    }
  }

  /** Survivors of a remove keep their relative order. */
  lemma RemoveKeepsOrder(front: seq<string>, back: seq<string>, value: string)
    ensures RemoveEntry(front + back, value) == RemoveEntry(front, value) + RemoveEntry(back, value)
  {
    FilterConcat(front, back, (c: string) => c != value);
  }

  /** A successful add is undone by removing the added value. */
  lemma {:induction false} AddThenRemove(list: seq<string>, input: string)
    requires !AllWhiteSpace(input) && Trim(input) !in list
    ensures RemoveEntry(AddEntry(list, input).0, Trim(input)) == list
  {
    var t := Trim(input);
    assert AddEntry(list, input).0 == list + [t];
    RemoveKeepsOrder(list, [t], t);
  }

  /** `handleAddCategory`; the tags side is untouched. */
  function HandleAddCategory(st: State): (r: State)
    ensures (r.categories, r.newCategory) == AddEntry(st.categories, st.newCategory)
    ensures r.tags == st.tags && r.newTag == st.newTag
  {
    var (categories, input) := AddEntry(st.categories, st.newCategory);
    st.(categories := categories, newCategory := input)
  }

  /** `handleAddTag`; the categories side is untouched. */
  function HandleAddTag(st: State): (r: State)
    ensures (r.tags, r.newTag) == AddEntry(st.tags, st.newTag)
    ensures r.categories == st.categories && r.newCategory == st.newCategory
  {
    var (tags, input) := AddEntry(st.tags, st.newTag);
    st.(tags := tags, newTag := input)
  }

  /** `handleRemoveCategory`; the tags side is untouched. */
  function HandleRemoveCategory(st: State, category: string): (r: State)
    ensures r.categories == RemoveEntry(st.categories, category)
    ensures r.tags == st.tags && r.newCategory == st.newCategory && r.newTag == st.newTag
  {
    st.(categories := RemoveEntry(st.categories, category))
  }

  /** `handleRemoveTag`; the categories side is untouched. */
  function HandleRemoveTag(st: State, tag: string): (r: State)
    ensures r.tags == RemoveEntry(st.tags, tag)
    ensures r.categories == st.categories && r.newCategory == st.newCategory && r.newTag == st.newTag
  {
    st.(tags := RemoveEntry(st.tags, tag))
  }

  /** Neither list holds a value twice. */
  predicate Valid(st: State) {
    NoDuplicates(st.categories) && NoDuplicates(st.tags)
  }

  /** Every handler keeps both lists free of duplicates. */
  lemma HandlersKeepValid(st: State, value: string)
    requires Valid(st)
    ensures Valid(HandleAddCategory(st)) && Valid(HandleAddTag(st))
    ensures Valid(HandleRemoveCategory(st, value)) && Valid(HandleRemoveTag(st, value))
  {
  }

  /** The input box is cleared exactly when the add succeeds. */
  lemma {:induction false} BoxClearedIffAdded(st: State)
    requires st.newCategory != ""
    ensures HandleAddCategory(st).newCategory == "" <==> |HandleAddCategory(st).categories| == |st.categories| + 1
  {
  }

  /** The scenario of the category tests: submitting a listed name changes
      nothing. */
  lemma TestScenarioDuplicate()
    ensures var st := State(["Tech", "Design"], [], "Tech", "");
      HandleAddCategory(st) == st
  {
    assert "" + "Tech" + "" == "Tech";
    assert IsTrimmed("Tech") by {
      assert !IsWhiteSpace('T') && !IsWhiteSpace('h');
    }
    TrimOfPadded("", "Tech", "");
  }
}
