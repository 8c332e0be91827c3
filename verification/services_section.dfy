/** The services block: a title and a subtitle edited in place, and a grid
    of services whose title and description are edited in place; a service
    edit writes the whole shown list back into the content. */
module ServicesSection {
  import opened Options
  import opened Json
  import BlockContent

  function Service(id: int, title: string, description: string, icon: string): Value {
    Obj(map["id" := Num(id), "title" := Str(title), "description" := Str(description), "icon" := Str(icon)])
  }

  const DefaultServices: seq<Value> := [
    Service(1, "Design Web", "Création de sites web modernes et responsifs", "🎨"),
    Service(2, "Développement", "Solutions sur mesure pour votre entreprise", "💻"),
    Service(3, "Marketing Digital", "Stratégies marketing pour booster votre présence en ligne", "📈"),
    Service(4, "Support 24/7", "Assistance technique disponible en permanence", "🔧")
  ]

  const Defaults: Record := map[
    "title" := Str("Nos Services"),
    "subtitle" := Str("Découvrez notre gamme complète de services professionnels"),
    "services" := Arr(DefaultServices)
  ]

  /** The fields edited in place above the grid. */
  datatype Field = Title | Subtitle

  function Key(f: Field): string {
    match f
    case Title => "title"
    case Subtitle => "subtitle"
  }

  /** What the block shows: title, subtitle and services from the content
      where it has them, otherwise the defaults. */
  function Shown(content: Record): (r: Record)
    ensures forall k :: k in Defaults ==> k in r && r[k] == (if k in content then content[k] else Defaults[k])
  {
    BlockContent.Displayed(Defaults, content)
  }

  /** Content that the block can show: its service list, if it has one, is
      a list of objects. */
  predicate Showable(content: Record) {
    BlockContent.IsItemList(Shown(content)["services"])
  }

  /** The `onBlur` of the title or subtitle: that one key set. */
  function HandleBlur(content: Record, f: Field, text: string): (r: Record)
    ensures r.Keys == content.Keys + {Key(f)} && r[Key(f)] == Str(text)
    ensures forall k :: k in content && k != Key(f) ==> r[k] == content[k]
  {
    BlockContent.SetText(content, Key(f), text)
  }

  /** The `onBlur` of a service's title or description: the shown services,
      with that field of the services whose id is `target` replaced, written
      under "services"; the other content keys are kept. */
  function EditService(content: Record, target: Option<Value>, f: BlockContent.ItemField, text: string): (r: Record)
    requires Showable(content)
    ensures r.Keys == content.Keys + {"services"}
    ensures forall k :: k in content && k != "services" ==> r[k] == content[k]
    ensures var shown := Shown(content)["services"].elems;
      && r["services"].Arr? && |r["services"].elems| == |shown|
      && (forall i :: 0 <= i < |shown| ==>
            r["services"].elems[i].Obj? && BlockContent.ItemId(r["services"].elems[i]) == BlockContent.ItemId(shown[i]))
      && (forall i :: 0 <= i < |shown| && BlockContent.ItemId(shown[i]) != target ==> r["services"].elems[i] == shown[i])
      && (forall i :: 0 <= i < |shown| && BlockContent.ItemId(shown[i]) == target ==>
            && r["services"].elems[i].fields.Keys == shown[i].fields.Keys + {BlockContent.ItemKey(f)}
            && r["services"].elems[i].fields[BlockContent.ItemKey(f)] == Str(text)
            && (forall k :: k in shown[i].fields && k != BlockContent.ItemKey(f) ==>
                  r["services"].elems[i].fields[k] == shown[i].fields[k]))
    ensures "services" !in content ==> r["services"] == Arr(BlockContent.EditItems(DefaultServices, target, BlockContent.ItemKey(f), text))
    ensures Showable(r)
  {
    BlockContent.SetItemText(Defaults, content, "services", target, BlockContent.ItemKey(f), text)
  }

  /** An empty content shows the defaults, services included. */
  lemma DefaultsShown()
    ensures Shown(map[]) == Defaults
    ensures Showable(map[])
  {
    assert Shown(map[]) == Defaults;
  }

  /** The default services carry the ids 1 to 4, in order. */
  lemma DefaultServiceIds()
    ensures forall i :: 0 <= i < 4 ==> DefaultServices[i].Obj? && BlockContent.ItemId(DefaultServices[i]) == Some(Num(i + 1))
  {
    assert BlockContent.ItemId(DefaultServices[0]) == Some(Num(1));
    assert BlockContent.ItemId(DefaultServices[1]) == Some(Num(2));
    assert BlockContent.ItemId(DefaultServices[2]) == Some(Num(3));
    assert BlockContent.ItemId(DefaultServices[3]) == Some(Num(4));
  }

  /** A service edit on an empty content writes all four default services,
      ids 1 to 4 in order, with only the edited one changed. */
  lemma {:induction false} EditOfDefaults(f: BlockContent.ItemField, text: string)
    ensures var r := EditService(map[], Some(Num(2)), f, text);
      && r.Keys == {"services"} && |r["services"].elems| == 4
      && (forall i :: 0 <= i < 4 ==> BlockContent.ItemId(r["services"].elems[i]) == Some(Num(i + 1)))
      && BlockContent.ItemKey(f) in r["services"].elems[1].fields
      && r["services"].elems[1].fields[BlockContent.ItemKey(f)] == Str(text)
      && r["services"].elems[0] == DefaultServices[0]
      && r["services"].elems[2] == DefaultServices[2]
      && r["services"].elems[3] == DefaultServices[3]
  {
    DefaultsShown();
    DefaultListEdited(f, text);
  }

  /** The list part of the edit: the default list with only item 2's field
      set, ids kept. */
  lemma DefaultListEdited(f: BlockContent.ItemField, text: string)
    ensures var e := BlockContent.EditItems(DefaultServices, Some(Num(2)), BlockContent.ItemKey(f), text);
      && |e| == 4
      && (forall i :: 0 <= i < 4 ==> BlockContent.ItemId(e[i]) == Some(Num(i + 1)))
      && BlockContent.ItemKey(f) in e[1].fields && e[1].fields[BlockContent.ItemKey(f)] == Str(text)
      && e[0] == DefaultServices[0] && e[2] == DefaultServices[2] && e[3] == DefaultServices[3]
  {
    DefaultServiceIds();
  }
}
