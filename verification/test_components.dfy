/** The component test page: a two-section starting list, a canvas whose
    drops (already filtered for a destination) reorder it, and an add button
    that appends a text section. */
module TestComponents {
  import opened Json
  import Reorder

  datatype Section = Section(id: string, name: string, kind: string, content: Record)

  function Feature(title: string, description: string): Value {
    Obj(map["title" := Str(title), "description" := Str(description)])
  }

  /** The sections the page opens with. */
  const InitialSections: seq<Section> := [
    Section("1", "Section Hero", "hero", map[
      "title" := Str("Bienvenue sur SiteCraft"),
      "subtitle" := Str("Créez des sites web professionnels en quelques clics"),
      "cta" := Str("Commencer maintenant")
    ]),
    Section("2", "Fonctionnalités", "features", map[
      "title" := Str("Nos fonctionnalités"),
      "features" := Arr([
        Feature("Glisser-déposer", "Interface intuitive"),
        Feature("Responsive", "Parfait sur tous les écrans"),
        Feature("SEO", "Optimisé pour les moteurs de recherche")
      ])
    ])
  ]

  /** The section `handleAddSection` appends. */
  function TextSection(freshId: string): (s: Section)
    ensures s.id == freshId && s.name == "Nouvelle section" && s.kind == "text"
    ensures s.content.Keys == {"text"} && s.content["text"].Str?
  {
    Section(freshId, "Nouvelle section", "text", map["text" := Str("Contenu de la nouvelle section")])
  }

  /** `handleSectionDrop`: the section at `startIndex` moves to `endIndex`;
      the list keeps its length and its sections. */
  function HandleSectionDrop(sections: seq<Section>, startIndex: nat, endIndex: nat): (r: seq<Section>)
    requires startIndex < |sections|
    ensures |r| == |sections| && multiset(r) == multiset(sections)
    ensures r[Reorder.Landing(|sections|, endIndex)] == sections[startIndex]
    ensures startIndex == endIndex ==> r == sections
  {
    Reorder.ReorderSamePlace(sections, startIndex);
    Reorder.Reorder(sections, startIndex, endIndex)
  }

  /** `handleAddSection`: exactly one text section appended at the end. */
  function HandleAddSection(sections: seq<Section>, freshId: string): (r: seq<Section>)
    requires forall i :: 0 <= i < |sections| ==> sections[i].id != freshId
    ensures |r| == |sections| + 1 && r[..|sections|] == sections
    ensures r[|sections|] == TextSection(freshId)
  {
    sections + [TextSection(freshId)]
  }

  /** No two sections share an id. */
  predicate UniqueIds(sections: seq<Section>) {
    forall i, j :: 0 <= i < j < |sections| ==> sections[i].id != sections[j].id
  }

  /** The page opens with two sections of distinct ids, "1" and "2". */
  lemma InitialIdsUnique()
    ensures UniqueIds(InitialSections)
    ensures |InitialSections| == 2 && InitialSections[0].id == "1" && InitialSections[1].id == "2"
  {
  }

  /** Adding with a fresh id keeps ids unique. */
  lemma {:induction false} AddKeepsIdsUnique(sections: seq<Section>, freshId: string)
    requires UniqueIds(sections)
    requires forall i :: 0 <= i < |sections| ==> sections[i].id != freshId
    ensures UniqueIds(HandleAddSection(sections, freshId))
  {
    var r := HandleAddSection(sections, freshId);
    assert forall i :: 0 <= i < |sections| ==> r[i] == sections[i];
  }
}
