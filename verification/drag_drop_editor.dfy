/** The stand-alone drag-and-drop editor: an initially empty component list,
    a fixed palette of four block kinds, reorder on drop and append on click. */
module DragDropEditor {
  import opened Json
  import Reorder

  datatype Block = Block(id: string, title: string, kind: string)

  /** A placed component; its id is the kind, a dash and a timestamp. */
  datatype Component = Component(id: string, kind: string, content: Record)

  /** The palette, in display order. */
  const AvailableBlocks: seq<Block> := [
    Block("hero", "Hero Section", "hero"),
    Block("about", "À Propos", "about"),
    Block("services", "Services", "services"),
    Block("contact", "Contact", "contact")
  ]

  /** The component list the editor opens with. */
  const InitialComponents: seq<Component> := []

  /** The kinds the palette offers, in order: exactly hero, about,
      services and contact. */
  lemma AddableKinds()
    ensures |AvailableBlocks| == 4
    ensures seq(|AvailableBlocks|, i requires 0 <= i < |AvailableBlocks| => AvailableBlocks[i].kind)
         == ["hero", "about", "services", "contact"]
  {
  }

  /** No two components share an id. */
  predicate UniqueIds(components: seq<Component>) {
    forall i, j :: 0 <= i < j < |components| ==> components[i].id != components[j].id
  }

  /** The palette's kinds are dash-free and pairwise different. */
  lemma PaletteKindsDistinct()
    ensures forall n :: 0 <= n < |AvailableBlocks| ==> '-' !in AvailableBlocks[n].kind
    ensures forall n, m :: 0 <= n < m < |AvailableBlocks| ==> AvailableBlocks[n].kind != AvailableBlocks[m].kind
  {
    assert AvailableBlocks[0].kind == "hero" && AvailableBlocks[1].kind == "about";
    assert AvailableBlocks[2].kind == "services" && AvailableBlocks[3].kind == "contact";
  }

  /** No component has that id. */
  predicate Absent(components: seq<Component>, id: string) {
    forall i :: 0 <= i < |components| ==> components[i].id != id
  }

  /** `handleDragEnd`: a drop outside the list is ignored; otherwise the
      dragged component moves to the destination index. */
  function HandleDragEnd(components: seq<Component>, drop: Reorder.DropResult): (r: seq<Component>)
    requires drop.source < |components|
    ensures drop.destination.None? ==> r == components
    ensures |r| == |components| && multiset(r) == multiset(components)
    ensures drop.destination.Some? ==>
      r[Reorder.Landing(|components|, drop.destination.value)] == components[drop.source]
  {
    Reorder.ApplyDrop(components, drop)
  }

  /** The id `addComponent` builds from the kind and the decimal timestamp. */
  function ComponentId(kind: string, stamp: string): (id: string)
    ensures |id| == |kind| + 1 + |stamp|
    ensures id[..|kind|] == kind && id[|kind|] == '-' && id[|kind| + 1..] == stamp
  {
    kind + "-" + stamp
  }

  /** `addComponent`: appends one component of that kind with empty content;
      the components already placed are untouched. */
  function AddComponent(components: seq<Component>, kind: string, stamp: string): (r: seq<Component>)
    requires Absent(components, ComponentId(kind, stamp))
    ensures |r| == |components| + 1 && r[..|components|] == components
    ensures r[|components|].kind == kind && r[|components|].content == map[]
    ensures r[|components|].id == ComponentId(kind, stamp)
  {
    components + [Component(ComponentId(kind, stamp), kind, map[])]
  }

  /** Two components of different kinds never get the same id, whatever
      their timestamps, as long as no kind contains a dash. */
  lemma {:induction false} IdsOfDifferentKindsDiffer(k1: string, s1: string, k2: string, s2: string)
    requires '-' !in k1 && '-' !in k2
    requires k1 != k2
    ensures ComponentId(k1, s1) != ComponentId(k2, s2)
  {
    var a := ComponentId(k1, s1);
    var b := ComponentId(k2, s2);
    if |k1| < |k2| {
      assert a[|k1|] != b[|k1|];
    } else if |k2| < |k1| {
      assert a[|k2|] != b[|k2|];
    } else {
      var i :| 0 <= i < |k1| && k1[i] != k2[i];
      assert a[i] != b[i];
    }
  }

  /** Adding under an id no component has keeps ids unique. */
  lemma {:induction false} AddKeepsIdsUnique(components: seq<Component>, kind: string, stamp: string)
    requires UniqueIds(components) && Absent(components, ComponentId(kind, stamp))
    ensures UniqueIds(AddComponent(components, kind, stamp))
  {
    var r := AddComponent(components, kind, stamp);
    assert forall i :: 0 <= i < |components| ==> r[i] == components[i];
  }

  /** From the opening empty list, two clicks on different palette kinds
      give two components with distinct ids, whatever the two timestamps,
      even the same one. */
  lemma {:induction false} TwoKindsFromStart(i: nat, j: nat, s1: string, s2: string)
    requires i < |AvailableBlocks| && j < |AvailableBlocks| && i != j
    ensures var k1 := AvailableBlocks[i].kind;
      var k2 := AvailableBlocks[j].kind;
      var once := AddComponent(InitialComponents, k1, s1);
      && Absent(once, ComponentId(k2, s2))
      && UniqueIds(AddComponent(once, k2, s2))
  {
    PaletteKindsDistinct();
    TwoKindsInARow(AvailableBlocks[i].kind, s1, AvailableBlocks[j].kind, s2);
  }

  /** Two clicks on different dash-free kinds, from the empty list. */
  lemma {:induction false} TwoKindsInARow(k1: string, s1: string, k2: string, s2: string)
    requires '-' !in k1 && '-' !in k2 && k1 != k2
    ensures var once := AddComponent(InitialComponents, k1, s1);
      && Absent(once, ComponentId(k2, s2))
      && UniqueIds(AddComponent(once, k2, s2))
  {
    IdsOfDifferentKindsDiffer(k1, s1, k2, s2);
    var once := AddComponent(InitialComponents, k1, s1);
    assert once == [Component(ComponentId(k1, s1), k1, map[])];
    AddKeepsIdsUnique(once, k2, s2);
  }
}
