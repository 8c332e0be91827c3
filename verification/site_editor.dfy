/** The site editor's section list. A section is a plain object with an
    `id`, a `type` naming its template, `content` and `styles`; the section
    editors merge arbitrary top-level keys into it, so it is kept as a
    record. Every handler builds a new list from the current one. */
module SiteEditor {
  import opened Options
  import opened Json
  import opened Seqs
  import Reorder
  import SectionTemplates

  type Section = Record

  /** `section.id === id`. */
  predicate HasId(s: Section, id: Value) {
    "id" in s && s["id"] == id
  }

  /** No section carries `id`. */
  predicate Absent(sections: seq<Section>, id: Value) {
    forall i :: 0 <= i < |sections| ==> !HasId(sections[i], id)
  }

  /** No two sections share an id. */
  predicate UniqueIds(sections: seq<Section>) {
    forall i, j :: 0 <= i < j < |sections| && "id" in sections[i] ==> !HasId(sections[j], sections[i]["id"])
  }

  datatype EditError = UnknownTemplate(templateId: string)

  /** `handleDragEnd`: a drop outside the list is ignored; otherwise the
      dragged section moves to the destination index. */
  function HandleDragEnd(sections: seq<Section>, drop: Reorder.DropResult): (r: seq<Section>)
    requires drop.source < |sections|
    ensures drop.destination.None? ==> r == sections
    ensures |r| == |sections| && multiset(r) == multiset(sections)
    ensures drop.destination.Some? ==>
      r[Reorder.Landing(|sections|, drop.destination.value)] == sections[drop.source]
  {
    Reorder.ApplyDrop(sections, drop)
  }

  /** The section `handleAddSection` builds: a copy of the template's default
      content and empty styles, the registry having no default styles. A
      name inherited from `Object.prototype` finds a value without default
      content, so its section starts with empty content. */
  function NewSection(templateId: string, freshId: string): (s: Section)
    requires SectionTemplates.Found(templateId)
    ensures s.Keys == {"id", "type", "content", "styles"}
    ensures HasId(s, Str(freshId))
    ensures s["type"] == Str(templateId)
    ensures templateId in SectionTemplates.Registry ==>
      s["content"] == Obj(SectionTemplates.Registry[templateId].defaultContent)
    ensures templateId !in SectionTemplates.Registry ==> s["content"] == Obj(map[])
    ensures s["styles"] == Obj(map[])
  {
    map[
      "id" := Str(freshId),
      "type" := Str(templateId),
      "content" := Obj(SectionTemplates.DefaultContent(templateId)),
      "styles" := Obj(map[])
    ]
  }

  /** `handleAddSection`: appends one new section at the end. A name that
      `sectionTemplates[templateId]` does not find fails (the handler reads
      `defaultContent` of `undefined`). */
  function HandleAddSection(sections: seq<Section>, templateId: string, freshId: string)
    : (r: Result<seq<Section>, EditError>)
    requires Absent(sections, Str(freshId))
    ensures r.Ok? <==> SectionTemplates.Found(templateId)
    ensures !SectionTemplates.Found(templateId) <==> r == Err(UnknownTemplate(templateId))
    ensures r.Ok? ==> |r.value| == |sections| + 1 && r.value[..|sections|] == sections
    ensures r.Ok? ==> r.value[|sections|] == NewSection(templateId, freshId)
  {
    if !SectionTemplates.Found(templateId) then Err(UnknownTemplate(templateId))
    else Ok(sections + [NewSection(templateId, freshId)])
  }

  /** The key a click event becomes when it indexes an object: events
      inherit `Object.prototype.toString`. */
  const ClickEventKey := "[object Object]"

  /** The sidebar's add button as wired: `onClick={onAddSection}` hands the
      click event to `handleAddSection`, so the lookup uses the event's
      string form, finds nothing, and every click fails whatever the list. */
  function SidebarClick(sections: seq<Section>, freshId: string): (r: Result<seq<Section>, EditError>)
    requires Absent(sections, Str(freshId))
    ensures r == Err(UnknownTemplate(ClickEventKey))
  {
    SectionTemplates.RegistryKeys();
    HandleAddSection(sections, ClickEventKey, freshId)
  }

  /** The sidebar's add button handing a chosen template id on: every click
      with a registry template adds exactly that template's section. */
  function SidebarAdd(sections: seq<Section>, templateId: string, freshId: string): (r: seq<Section>)
    requires templateId in SectionTemplates.Registry
    requires Absent(sections, Str(freshId))
    ensures HandleAddSection(sections, templateId, freshId) == Ok(r)
    ensures |r| == |sections| + 1 && r[..|sections|] == sections
    ensures HasId(r[|sections|], Str(freshId)) && r[|sections|]["type"] == Str(templateId)
    ensures r[|sections|]["content"] == Obj(SectionTemplates.Registry[templateId].defaultContent)
  {
    HandleAddSection(sections, templateId, freshId).value
  }

  /** `handleUpdateSection`: `{ ...section, ...updates }` for the sections
      with that id, every other section as it was. */
  function HandleUpdateSection(sections: seq<Section>, id: Value, updates: Record): (r: seq<Section>)
    ensures |r| == |sections|
    ensures forall i :: 0 <= i < |sections| && HasId(sections[i], id) ==>
      r[i] == Spread(sections[i], updates)
    ensures forall i :: 0 <= i < |sections| && !HasId(sections[i], id) ==> r[i] == sections[i]
    ensures Absent(sections, id) ==> r == sections
  {
    MapWhere(sections, s => HasId(s, id), s => Spread(s, updates))
  }

  /** `handleDeleteSection`: every section with that id is gone; the others
      are kept, in order. */
  function HandleDeleteSection(sections: seq<Section>, id: Value): (r: seq<Section>)
    ensures Absent(r, id)
    ensures forall i :: 0 <= i < |sections| && !HasId(sections[i], id) ==> sections[i] in r
    ensures forall i :: 0 <= i < |r| ==> r[i] in sections
    ensures Absent(sections, id) ==> r == sections
  {
    var r := Filter(sections, s => !HasId(s, id));
    if Absent(sections, id) then
      FilterAcceptingAll(sections, s => !HasId(s, id));
      r
    else r
  }

  /** Deleting from a list made of two parts deletes from each part and
      keeps the parts in order: the survivors keep their relative order. */
  lemma DeleteKeepsOrder(front: seq<Section>, back: seq<Section>, id: Value)
    ensures HandleDeleteSection(front + back, id)
         == HandleDeleteSection(front, id) + HandleDeleteSection(back, id)
  {
    var keep := (s: Section) => !HasId(s, id);
    FilterConcat(front, back, keep);
    if Absent(front, id) { FilterAcceptingAll(front, keep); }
    if Absent(back, id) { FilterAcceptingAll(back, keep); }
    if Absent(front + back, id) { FilterAcceptingAll(front + back, keep); }
  }

  /** The position of the first section with that id, as `find` scans. */
  function FindFirst(sections: seq<Section>, id: Value): (r: Option<nat>)
    ensures r.None? <==> Absent(sections, id)
    ensures r.Some? ==> r.value < |sections| && HasId(sections[r.value], id)
    ensures r.Some? ==> forall i :: 0 <= i < r.value ==> !HasId(sections[i], id)
  {
    if |sections| == 0 then None
    else if HasId(sections[0], id) then Some(0)
    else
      match FindFirst(sections[1..], id)
      case None => None
      case Some(k) => Some(k + 1)
  }

  /** `handleDuplicateSection`: with no section of that id nothing happens;
      otherwise a copy of the first such section, under a fresh id, is
      appended at the END of the list (not next to the original). */
  function HandleDuplicateSection(sections: seq<Section>, id: Value, freshId: string): (r: seq<Section>)
    requires Absent(sections, Str(freshId))
    ensures Absent(sections, id) ==> r == sections
    ensures !Absent(sections, id) ==> |r| == |sections| + 1 && r[..|sections|] == sections
    ensures !Absent(sections, id) ==>
      var orig := sections[FindFirst(sections, id).value];
      var copy := r[|sections|];
      && HasId(copy, Str(freshId))
      && copy.Keys == orig.Keys + {"id"}
      && (forall k :: k in orig && k != "id" ==> copy[k] == orig[k])
  {
    match FindFirst(sections, id)
    case None => sections
    case Some(i) => sections + [With(sections[i], "id", Str(freshId))]
  }

  /** Adding a section and then deleting it by its new id gives back the
      original list. */
  lemma {:induction false} AddThenDelete(sections: seq<Section>, templateId: string, freshId: string)
    requires Absent(sections, Str(freshId))
    requires SectionTemplates.Found(templateId)
    ensures HandleDeleteSection(HandleAddSection(sections, templateId, freshId).value, Str(freshId)) == sections
  {
    var added := HandleAddSection(sections, templateId, freshId).value;
    var keep := (s: Section) => !HasId(s, Str(freshId));
    assert added == sections + [NewSection(templateId, freshId)];
    FilterConcat(sections, [NewSection(templateId, freshId)], keep);
    FilterAcceptingAll(sections, keep);
    assert Filter([NewSection(templateId, freshId)], keep) == [];
  }

  /** Appending a section under an id no section has keeps ids unique. */
  lemma {:induction false} AppendFreshKeepsIdsUnique(sections: seq<Section>, s: Section, freshId: string)
    requires UniqueIds(sections) && Absent(sections, Str(freshId)) && HasId(s, Str(freshId))
    ensures UniqueIds(sections + [s])
  {
    var r := sections + [s];
    forall i, j | 0 <= i < j < |r| && "id" in r[i]
      ensures !HasId(r[j], r[i]["id"])
    {
      if j == |sections| {
        assert !HasId(sections[i], Str(freshId));
      }
    }
  }

  /** An update that does not itself write an `id` keeps every section's
      id, so it keeps them unique. */
  lemma {:induction false} UpdateKeepsIdsUnique(sections: seq<Section>, id: Value, updates: Record)
    requires UniqueIds(sections) && "id" !in updates
    ensures UniqueIds(HandleUpdateSection(sections, id, updates))
  {
    var upd := HandleUpdateSection(sections, id, updates);
    forall i | 0 <= i < |upd|
      ensures ("id" in upd[i] <==> "id" in sections[i]) && ("id" in upd[i] ==> upd[i]["id"] == sections[i]["id"])
    {
    }
  }

  /** Adding and duplicating keep ids unique, since the new id is fresh;
      deleting keeps them unique; an update keeps them unique when it does
      not itself write an `id`. */
  lemma {:induction false} EditsKeepIdsUnique(sections: seq<Section>, id: Value, updates: Record,
                                              templateId: string, freshId: string)
    requires UniqueIds(sections)
    requires Absent(sections, Str(freshId))
    ensures SectionTemplates.Found(templateId) ==>
      UniqueIds(HandleAddSection(sections, templateId, freshId).value)
    ensures UniqueIds(HandleDuplicateSection(sections, id, freshId))
    ensures "id" !in updates ==> UniqueIds(HandleUpdateSection(sections, id, updates))
    ensures UniqueIds(HandleDeleteSection(sections, id))
  {
    if SectionTemplates.Found(templateId) {
      AppendFreshKeepsIdsUnique(sections, NewSection(templateId, freshId), freshId);
    }
    var dup := HandleDuplicateSection(sections, id, freshId);
    if !Absent(sections, id) {
      AppendFreshKeepsIdsUnique(sections, dup[|sections|], freshId);
      assert dup == sections + [dup[|sections|]];
    }
    if "id" !in updates {
      UpdateKeepsIdsUnique(sections, id, updates);
    }
    DeleteKeepsIdsUnique(sections, id);
  }

  /** Deleting keeps ids unique: the survivors are a subsequence. */
  lemma {:induction false} DeleteKeepsIdsUnique(sections: seq<Section>, id: Value)
    requires UniqueIds(sections)
    ensures UniqueIds(HandleDeleteSection(sections, id))
  {
    var ok := (a: Section, b: Section) => "id" in a ==> !HasId(b, a["id"]);
    assert Pairwise(sections, ok);
    FilterPairwise(sections, (s: Section) => !HasId(s, id), ok);
    assert Pairwise(HandleDeleteSection(sections, id), ok);
  }
}
