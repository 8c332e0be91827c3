/** What the content blocks (hero, about, services, contact) share: the
    fields a block shows are its defaults overridden key by key by the
    section's content; an inline edit hands back the content with one key
    set to the edited text; an edit inside a list (services, features)
    hands back the content with the whole shown list, one item's field
    changed, written under the list's key. */
module BlockContent {
  import opened Options
  import opened Json
  import opened Seqs

  /** `{ ...defaultContent, ...content }`: every key of either, the
      content's value winning. */
  function Displayed(defaults: Record, content: Record): (r: Record)
    ensures r.Keys == defaults.Keys + content.Keys
    ensures forall k :: k in content ==> r[k] == content[k]
    ensures forall k :: k in defaults && k !in content ==> r[k] == defaults[k]
  {
    Spread(defaults, content)
  }

  /** `onEdit({ ...content, [key]: text })`: exactly one key set; the other
      keys of the content are kept and no default is copied in. */
  function SetText(content: Record, key: string, text: string): (r: Record)
    ensures r.Keys == content.Keys + {key}
    ensures r[key] == Str(text)
    ensures forall k :: k in content && k != key ==> r[k] == content[k]
  {
    With(content, key, Str(text))
  }

  /** After an inline edit the block shows the edited text for that key and
      the same value as before for every other key. */
  lemma SetTextShows(defaults: Record, content: Record, key: string, text: string)
    ensures Displayed(defaults, SetText(content, key, text))[key] == Str(text)
    ensures forall k :: k in Displayed(defaults, content) && k != key ==>
      Displayed(defaults, SetText(content, key, text))[k] == Displayed(defaults, content)[k]
  {
  }

  /** An inline edit of an empty content yields a content of that one key. */
  lemma SetTextFromEmpty(key: string, text: string)
    ensures SetText(map[], key, text) == map[key := Str(text)]
  {
  }

  /** A list of objects, as the blocks' item lists are. */
  predicate IsItemList(v: Value) {
    v.Arr? && forall i :: 0 <= i < |v.elems| ==> v.elems[i].Obj?
  }

  /** The two item fields the services and features lists let the user
      edit. */
  datatype ItemField = ItemTitle | ItemDescription

  function ItemKey(f: ItemField): (k: string)
    ensures k != "id"
  {
    match f
    case ItemTitle => "title"
    case ItemDescription => "description"
  }

  /** An item's `id` field; `None` stands for `undefined`. */
  function ItemId(item: Value): Option<Value>
    requires item.Obj?
  {
    Get(item.fields, "id")
  }

  /** `items.map(s => s.id === target ? { ...s, [key]: text } : s)`. */
  function EditItems(items: seq<Value>, target: Option<Value>, key: string, text: string): (r: seq<Value>)
    requires key != "id"
    requires forall i :: 0 <= i < |items| ==> items[i].Obj?
    ensures |r| == |items|
    ensures forall i :: 0 <= i < |r| ==> r[i].Obj? && ItemId(r[i]) == ItemId(items[i])
    ensures forall i :: 0 <= i < |items| && ItemId(items[i]) == target ==>
      r[i].fields.Keys == items[i].fields.Keys + {key} && r[i].fields[key] == Str(text)
      && (forall k :: k in items[i].fields && k != key ==> r[i].fields[k] == items[i].fields[k])
    ensures forall i :: 0 <= i < |items| && ItemId(items[i]) != target ==> r[i] == items[i]
  {
    MapWhere(items,
      (v: Value) => v.Obj? && Get(v.fields, "id") == target,
      (v: Value) => if v.Obj? then Obj(With(v.fields, key, Str(text))) else v)
  }

  /** Editing the same field of the same item twice keeps only the second
      text. */
  lemma {:induction false} EditItemsLastWins(items: seq<Value>, target: Option<Value>, key: string, a: string, b: string)
    requires key != "id"
    requires forall i :: 0 <= i < |items| ==> items[i].Obj?
    ensures EditItems(EditItems(items, target, key, a), target, key, b) == EditItems(items, target, key, b)
  {
    var once := EditItems(items, target, key, a);
    var twice := EditItems(once, target, key, b);
    var direct := EditItems(items, target, key, b);
    forall i | 0 <= i < |items|
      ensures twice[i] == direct[i]
    {
      if ItemId(items[i]) == target {
        assert once[i] == Obj(With(items[i].fields, key, Str(a)));
        assert twice[i] == Obj(With(once[i].fields, key, Str(b)));
        assert direct[i] == Obj(With(items[i].fields, key, Str(b)));
        SetTwice(items[i].fields, key, a, b);
      }
    }
  }

  /** Edits of two different fields, of any items, give the same list in
      either order. */
  lemma {:induction false} EditItemsCommute(items: seq<Value>, t1: Option<Value>, k1: string, a: string,
                                            t2: Option<Value>, k2: string, b: string)
    requires k1 != "id" && k2 != "id" && k1 != k2
    requires forall i :: 0 <= i < |items| ==> items[i].Obj?
    ensures EditItems(EditItems(items, t1, k1, a), t2, k2, b) == EditItems(EditItems(items, t2, k2, b), t1, k1, a)
  {
    var x := EditItems(EditItems(items, t1, k1, a), t2, k2, b);
    var y := EditItems(EditItems(items, t2, k2, b), t1, k1, a);
    forall i | 0 <= i < |items|
      ensures x[i] == y[i]
    {
      SetBothCommute(items[i].fields, k1, a, k2, b);
    }
  }

  /** Setting the same key of a record twice keeps the second value. */
  lemma SetTwice(o: Record, key: string, a: string, b: string)
    ensures With(With(o, key, Str(a)), key, Str(b)) == With(o, key, Str(b))
  {
  }

  /** Setting two different keys of a record, in either order. */
  lemma SetBothCommute(o: Record, k1: string, a: string, k2: string, b: string)
    requires k1 != k2
    ensures With(With(o, k1, Str(a)), k2, Str(b)) == With(With(o, k2, Str(b)), k1, Str(a))
  {
  }

  /** The handler of an item edit: the shown list under `listKey`, with the
      edit applied to the items whose id is `target`, written into the
      content. The shown list comes from the content, or from the defaults
      when the content has none. */
  function SetItemText(defaults: Record, content: Record, listKey: string,
                       target: Option<Value>, key: string, text: string): (r: Record)
    requires listKey in defaults && key != "id"
    requires IsItemList(Displayed(defaults, content)[listKey])
    ensures r.Keys == content.Keys + {listKey}
    ensures forall k :: k in content && k != listKey ==> r[k] == content[k]
    ensures var shown := Displayed(defaults, content)[listKey].elems;
      && r[listKey].Arr? && |r[listKey].elems| == |shown|
      && (forall i :: 0 <= i < |shown| ==>
            r[listKey].elems[i].Obj? && ItemId(r[listKey].elems[i]) == ItemId(shown[i]))
      && (forall i :: 0 <= i < |shown| && ItemId(shown[i]) != target ==> r[listKey].elems[i] == shown[i])
      && (forall i :: 0 <= i < |shown| && ItemId(shown[i]) == target ==>
            && r[listKey].elems[i].fields.Keys == shown[i].fields.Keys + {key}
            && r[listKey].elems[i].fields[key] == Str(text)
            && (forall k :: k in shown[i].fields && k != key ==> r[listKey].elems[i].fields[k] == shown[i].fields[k]))
    ensures listKey !in content ==> r[listKey] == Arr(EditItems(defaults[listKey].elems, target, key, text))
  {
    var shown := Displayed(defaults, content)[listKey].elems;
    With(content, listKey, Arr(EditItems(shown, target, key, text)))
  }
}
