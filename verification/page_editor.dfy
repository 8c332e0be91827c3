/** The page editor: a site's component list, the registry of the four
    component kinds it offers, and the side panel that edits the fields of
    the selected component. */
module PageEditor {
  import opened Options
  import opened Json
  import opened Seqs
  import Reorder

  datatype ComponentType = ComponentType(name: string, icon: string, defaultContent: Record)

  /** A placed component; its id is a millisecond timestamp. */
  datatype Component = Component(id: int, kind: string, content: Record)

  /** The editor's state: the site's components and the component last
      clicked, as it was when clicked. */
  datatype EditorState = EditorState(components: seq<Component>, selected: Option<Component>)

  function ServiceItem(n: string): Value {
    Obj(map["title" := Str("Service " + n), "description" := Str("Description du service " + n)])
  }

  /** The `componentTypes` registry. */
  const ComponentTypes: map<string, ComponentType> := map[
    "hero" := ComponentType("Section Hero", "🎯", map[
      "title" := Str("Titre principal"),
      "subtitle" := Str("Sous-titre accrocheur"),
      "buttonText" := Str("En savoir plus")
    ]),
    "about" := ComponentType("À propos", "👋", map[
      "title" := Str("À propos de nous"),
      "content" := Str("Partagez votre histoire ici")
    ]),
    "services" := ComponentType("Services", "⚡", map[
      "title" := Str("Nos Services"),
      "services" := Arr([ServiceItem("1"), ServiceItem("2"), ServiceItem("3")])
    ]),
    "contact" := ComponentType("Contact", "📧", map[
      "title" := Str("Contactez-nous"),
      "email" := Str("email@example.com"),
      "phone" := Str("+33 1 23 45 67 89")
    ])
  ]

  /** The registry offers exactly four kinds, and every default content
      has a title. */
  lemma RegistryKinds()
    ensures ComponentTypes.Keys == {"hero", "about", "services", "contact"}
    ensures forall k :: k in ComponentTypes ==> "title" in ComponentTypes[k].defaultContent
  {
  }

  /** No component has that id. */
  predicate Absent(components: seq<Component>, id: int) {
    forall i :: 0 <= i < |components| ==> components[i].id != id
  }

  /** No two components share an id. */
  predicate UniqueIds(components: seq<Component>) {
    forall i, j :: 0 <= i < j < |components| ==> components[i].id != components[j].id
  }

  /** `handleDragEnd`: a drop outside the list is ignored; otherwise the
      dragged component moves to the destination index. */
  function HandleDragEnd(components: seq<Component>, drop: Reorder.DropResult): (r: seq<Component>)
    requires drop.source < |components|
    ensures drop.destination.None? ==> r == components
    ensures |r| == |components| && multiset(r) == multiset(components)
    ensures drop.destination.Some? ==>
      r[Reorder.Landing(|components|, drop.destination.value)] == components[drop.source]
  {
    Reorder.ApplyDrop(components, drop)
  }

  /** `handleComponentEdit`: the components with the edited component's id
      get `updatedContent` as their whole content, keeping id and kind;
      every other component is untouched. */
  function HandleComponentEdit(components: seq<Component>, edited: Component, updatedContent: Record)
    : (r: seq<Component>)
    ensures |r| == |components|
    ensures forall i :: 0 <= i < |r| ==> r[i].id == components[i].id && r[i].kind == components[i].kind
    ensures forall i :: 0 <= i < |r| && components[i].id == edited.id ==> r[i].content == updatedContent
    ensures forall i :: 0 <= i < |r| && components[i].id != edited.id ==> r[i] == components[i]
  {
    MapWhere(components, (c: Component) => c.id == edited.id, (c: Component) => c.(content := updatedContent))
  }

  /** An edit keeps the ids, so it keeps them unique. */
  lemma {:induction false} ComponentEditKeepsIdsUnique(components: seq<Component>, edited: Component, updatedContent: Record)
    requires UniqueIds(components)
    ensures UniqueIds(HandleComponentEdit(components, edited, updatedContent))
  {
    var r := HandleComponentEdit(components, edited, updatedContent);
    assert forall i :: 0 <= i < |r| ==> r[i].id == components[i].id;
  }

  /** Two edits of the same component in a row: only the second content
      remains, whichever snapshot of the component each edit was given. */
  lemma {:induction false} ComponentEditLastWins(components: seq<Component>, first: Component, second: Component,
                                                  a: Record, b: Record)
    requires first.id == second.id
    ensures HandleComponentEdit(HandleComponentEdit(components, first, a), second, b)
         == HandleComponentEdit(components, second, b)
  {
    var twice := HandleComponentEdit(HandleComponentEdit(components, first, a), second, b);
    var once := HandleComponentEdit(components, second, b);
    assert forall i :: 0 <= i < |components| ==> twice[i] == once[i];
  }

  /** The sidebar click: appends a component of a registry kind, holding that
      kind's default content. */
  function AddComponent(components: seq<Component>, kind: string, freshId: int): (r: seq<Component>)
    requires kind in ComponentTypes
    requires Absent(components, freshId)
    ensures |r| == |components| + 1 && r[..|components|] == components
    ensures r[|components|].id == freshId && r[|components|].kind == kind
    ensures r[|components|].content == ComponentTypes[kind].defaultContent
  {
    components + [Component(freshId, kind, ComponentTypes[kind].defaultContent)]
  }

  /** The delete button: every component with that id is gone; the others
      keep their order. */
  function DeleteComponent(components: seq<Component>, id: int): (r: seq<Component>)
    ensures Absent(r, id)
    ensures forall i :: 0 <= i < |components| && components[i].id != id ==> components[i] in r
    ensures forall i :: 0 <= i < |r| ==> r[i] in components
    ensures Absent(components, id) ==> r == components
  {
    var keep := (c: Component) => c.id != id;
    if Absent(components, id) then
      FilterAcceptingAll(components, keep);
      Filter(components, keep)
    else Filter(components, keep)
  }

  /** Adding with a fresh id keeps ids unique. */
  lemma {:induction false} AddKeepsIdsUnique(components: seq<Component>, kind: string, freshId: int)
    requires kind in ComponentTypes
    requires UniqueIds(components) && Absent(components, freshId)
    ensures UniqueIds(AddComponent(components, kind, freshId))
  {
    var r := AddComponent(components, kind, freshId);
    assert forall i :: 0 <= i < |components| ==> r[i] == components[i];
  }

  /** Survivors of a delete keep their relative order. */
  lemma DeleteKeepsOrder(front: seq<Component>, back: seq<Component>, id: int)
    ensures DeleteComponent(front + back, id) == DeleteComponent(front, id) + DeleteComponent(back, id)
  {
    FilterConcat(front, back, (c: Component) => c.id != id);
  }

  /** Adding a component and deleting it by its new id gives back the list. */
  lemma {:induction false} AddThenDelete(components: seq<Component>, kind: string, freshId: int)
    requires kind in ComponentTypes
    requires Absent(components, freshId)
    ensures DeleteComponent(AddComponent(components, kind, freshId), freshId) == components
  {
    var keep := (c: Component) => c.id != freshId;
    var added := Component(freshId, kind, ComponentTypes[kind].defaultContent);
    FilterConcat(components, [added], keep);
    FilterAcceptingAll(components, keep);
    assert Filter([added], keep) == [];
  }

  /** The field input of the side panel, as written: the new content is the
      SELECTED snapshot's content with one key replaced, and the snapshot
      itself is not refreshed. Only keys of the snapshot have an input. */
  function FieldEdit(st: EditorState, key: string, text: string): (r: EditorState)
    requires st.selected.Some? && key in st.selected.value.content
    ensures r.selected == st.selected
    ensures |r.components| == |st.components|
    ensures forall i :: 0 <= i < |r.components| && st.components[i].id == st.selected.value.id ==>
      && r.components[i].id == st.components[i].id && r.components[i].kind == st.components[i].kind
      && r.components[i].content == With(st.selected.value.content, key, Str(text))
    ensures forall i :: 0 <= i < |r.components| && st.components[i].id != st.selected.value.id ==>
      r.components[i] == st.components[i]
  {
    var sel := st.selected.value;
    st.(components := HandleComponentEdit(st.components, sel, With(sel.content, key, Str(text))))
  }

  /** Two edits to different keys in a row: the component ends up with the
      snapshot's content and only the SECOND edit applied; the first key is
      back to its snapshot value. */
  lemma {:induction false} StaleSnapshotDropsFirstEdit(st: EditorState, k1: string, v1: string, k2: string, v2: string)
    requires st.selected.Some? && k1 in st.selected.value.content && k2 in st.selected.value.content
    requires k1 != k2
    ensures var after := FieldEdit(FieldEdit(st, k1, v1), k2, v2);
      forall i :: 0 <= i < |after.components| && st.components[i].id == st.selected.value.id ==>
        && after.components[i].content[k2] == Str(v2)
        && after.components[i].content[k1] == st.selected.value.content[k1]
  {
  }

  /** A concrete instance: a freshly added hero component, selected, whose
      title and then subtitle are typed; the title edit is lost. */
  lemma StaleSnapshotExample()
    ensures var hero := Component(1, "hero", ComponentTypes["hero"].defaultContent);
      var st := EditorState([hero], Some(hero));
      var after := FieldEdit(FieldEdit(st, "title", "Bienvenue"), "subtitle", "Bonjour");
      after.components[0].content["title"] == Str("Titre principal")
  {
    var hero := Component(1, "hero", ComponentTypes["hero"].defaultContent);
    var st := EditorState([hero], Some(hero));
    StaleSnapshotDropsFirstEdit(st, "title", "Bienvenue", "subtitle", "Bonjour");
  }

  /** The field input with the snapshot refreshed: the edit is applied to the
      selected component and the selection is replaced by the edited
      component, so the next edit starts from it. */
  function FieldEditFresh(st: EditorState, key: string, text: string): (r: EditorState)
    requires st.selected.Some? && key in st.selected.value.content
    ensures r.selected.Some? && r.selected.value.id == st.selected.value.id
    ensures r.selected.value.kind == st.selected.value.kind
    ensures r.selected.value.content == With(st.selected.value.content, key, Str(text))
    ensures |r.components| == |st.components|
    ensures forall i :: 0 <= i < |r.components| && st.components[i].id == st.selected.value.id ==>
      && r.components[i].id == st.components[i].id && r.components[i].kind == st.components[i].kind
      && r.components[i].content == r.selected.value.content
    ensures forall i :: 0 <= i < |r.components| && st.components[i].id != st.selected.value.id ==>
      r.components[i] == st.components[i]
  {
    var sel := st.selected.value;
    var updated := With(sel.content, key, Str(text));
    EditorState(HandleComponentEdit(st.components, sel, updated), Some(sel.(content := updated)))
  }

  /** With the refreshed snapshot, two edits to different keys both reach
      the component. */
  lemma {:induction false} FreshSnapshotKeepsBothEdits(st: EditorState, k1: string, v1: string, k2: string, v2: string)
    requires st.selected.Some? && k1 in st.selected.value.content && k2 in st.selected.value.content
    requires k1 != k2
    ensures var after := FieldEditFresh(FieldEditFresh(st, k1, v1), k2, v2);
      forall i :: 0 <= i < |after.components| && st.components[i].id == st.selected.value.id ==>
        && after.components[i].content[k1] == Str(v1)
        && after.components[i].content[k2] == Str(v2)
  {
  }
}
