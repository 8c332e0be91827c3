/** The about block: a title and a description edited in place, a list of
    features whose title and description are edited in place, and an image
    that is only shown; a feature edit writes the whole shown list back into
    the content. */
module AboutSection {
  import opened Options
  import opened Json
  import BlockContent

  function Feature(id: int, title: string, description: string, icon: string): Value {
    Obj(map["id" := Num(id), "title" := Str(title), "description" := Str(description), "icon" := Str(icon)])
  }

  const DefaultFeatures: seq<Value> := [
    Feature(1, "Notre Mission", "Fournir des solutions innovantes", "🎯"),
    Feature(2, "Notre Vision", "Devenir leader dans notre domaine", "👁️"),
    Feature(3, "Nos Valeurs", "Intégrité, Excellence, Innovation", "⭐")
  ]

  const Defaults: Record := map[
    "title" := Str("À Propos de Nous"),
    "description" := Str("Nous sommes une entreprise passionnée par l'innovation et l'excellence."),
    "features" := Arr(DefaultFeatures),
    "image" := Str("https://images.unsplash.com/photo-1522071820081-009f0129c71c")
  ]

  /** The fields edited in place beside the image. */
  datatype Field = Title | Description

  function Key(f: Field): string {
    match f
    case Title => "title"
    case Description => "description"
  }

  /** What the block shows: title, description, features and image from the
      content where it has them, otherwise the defaults. */
  function Shown(content: Record): (r: Record)
    ensures forall k :: k in Defaults ==> k in r && r[k] == (if k in content then content[k] else Defaults[k])
  {
    BlockContent.Displayed(Defaults, content)
  }

  /** Content that the block can show: its feature list, if it has one, is
      a list of objects. */
  predicate Showable(content: Record) {
    BlockContent.IsItemList(Shown(content)["features"])
  }

  /** The `onBlur` of the title or description: that one key set. */
  function HandleBlur(content: Record, f: Field, text: string): (r: Record)
    ensures r.Keys == content.Keys + {Key(f)} && r[Key(f)] == Str(text)
    ensures forall k :: k in content && k != Key(f) ==> r[k] == content[k]
  {
    BlockContent.SetText(content, Key(f), text)
  }

  /** The `onBlur` of a feature's title or description: the shown features,
      with that field of the features whose id is `target` replaced, written
      under "features"; the other content keys are kept. */
  function EditFeature(content: Record, target: Option<Value>, f: BlockContent.ItemField, text: string): (r: Record)
    requires Showable(content)
    ensures r.Keys == content.Keys + {"features"}
    ensures forall k :: k in content && k != "features" ==> r[k] == content[k]
    ensures var shown := Shown(content)["features"].elems;
      && r["features"].Arr? && |r["features"].elems| == |shown|
      && (forall i :: 0 <= i < |shown| ==>
            r["features"].elems[i].Obj? && BlockContent.ItemId(r["features"].elems[i]) == BlockContent.ItemId(shown[i]))
      && (forall i :: 0 <= i < |shown| && BlockContent.ItemId(shown[i]) != target ==> r["features"].elems[i] == shown[i])
      && (forall i :: 0 <= i < |shown| && BlockContent.ItemId(shown[i]) == target ==>
            && r["features"].elems[i].fields.Keys == shown[i].fields.Keys + {BlockContent.ItemKey(f)}
            && r["features"].elems[i].fields[BlockContent.ItemKey(f)] == Str(text)
            && (forall k :: k in shown[i].fields && k != BlockContent.ItemKey(f) ==>
                  r["features"].elems[i].fields[k] == shown[i].fields[k]))
    ensures "features" !in content ==> r["features"] == Arr(BlockContent.EditItems(DefaultFeatures, target, BlockContent.ItemKey(f), text))
    ensures Showable(r)
  {
    BlockContent.SetItemText(Defaults, content, "features", target, BlockContent.ItemKey(f), text)
  }

  /** An empty content shows the defaults, features included. */
  lemma DefaultsShown()
    ensures Shown(map[]) == Defaults
    ensures Showable(map[])
  {
    assert Shown(map[]) == Defaults;
  }

  /** The default features carry the ids 1 to 3, in order. */
  lemma DefaultFeatureIds()
    ensures forall i :: 0 <= i < 3 ==> DefaultFeatures[i].Obj? && BlockContent.ItemId(DefaultFeatures[i]) == Some(Num(i + 1))
  {
    assert BlockContent.ItemId(DefaultFeatures[0]) == Some(Num(1));
    assert BlockContent.ItemId(DefaultFeatures[1]) == Some(Num(2));
    assert BlockContent.ItemId(DefaultFeatures[2]) == Some(Num(3));
  }

  /** A feature edit on an empty content writes the three default features,
      ids 1 to 3 in order, with only the edited one changed. */
  lemma {:induction false} EditOfDefaults(f: BlockContent.ItemField, text: string)
    ensures var r := EditFeature(map[], Some(Num(1)), f, text);
      && r.Keys == {"features"} && |r["features"].elems| == 3
      && (forall i :: 0 <= i < 3 ==> BlockContent.ItemId(r["features"].elems[i]) == Some(Num(i + 1)))
      && BlockContent.ItemKey(f) in r["features"].elems[0].fields
      && r["features"].elems[0].fields[BlockContent.ItemKey(f)] == Str(text)
      && r["features"].elems[1] == DefaultFeatures[1]
      && r["features"].elems[2] == DefaultFeatures[2]
  {
    DefaultsShown();
    DefaultListEdited(f, text);
  }

  /** The list part of the edit: the default list with only item 1's field
      set, ids kept. */
  lemma DefaultListEdited(f: BlockContent.ItemField, text: string)
    ensures var e := BlockContent.EditItems(DefaultFeatures, Some(Num(1)), BlockContent.ItemKey(f), text);
      && |e| == 3
      && (forall i :: 0 <= i < 3 ==> BlockContent.ItemId(e[i]) == Some(Num(i + 1)))
      && BlockContent.ItemKey(f) in e[0].fields && e[0].fields[BlockContent.ItemKey(f)] == Str(text)
      && e[1] == DefaultFeatures[1] && e[2] == DefaultFeatures[2]
  {
    DefaultFeatureIds();
  }
}
