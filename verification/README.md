# sitecraft-web handlers in Dafny

SiteCraft is a React website builder. Its logic lives in event handlers, and
each handler builds a new list or record from the current state. This
project models those handlers as pure Dafny functions from (old state,
input) to new state, and proves what each one promises. The handlers
covered are:

- the section and component lists of the three page editors and the test
  page: drag reorder, add, merge-update, delete by id, duplicate;
- the field panel of the page editor;
- the blog's category and tag lists, the tag row of the post editor, the
  post status filter and post delete;
- the product catalogue with its variant rows;
- the theme context's state machine;
- the four content blocks: hero, about, services, contact.

JavaScript objects are `Json.Value` / `Json.Record` (a `map<string, Value>`).
Object spread `{ ...a, ...b }` is `Json.Spread`, and `{ ...o, [k]: v }` is
`Json.With`.

Every drag handler does the same `splice` pair, so reordering is written once
as `Reorder.Reorder`. An independent permutation, `Reorder.Origin`, says
which old position ends up at each new position. A destination past the end
is clamped, as `splice` does. The drag library always reports a source index
inside the list.

`Date.now()` ids are parameters. Each comes with the precondition that no
listed element already has that id.

Two behaviours of the code are easy to misread:

- duplicating a section appends the copy at the end of the list, not next
  to the original;
- updating, deleting or duplicating an id that no section has is a silent
  no-op, not an error.

Two quirks of the code are kept as written:

- the product manager's header button only shows or hides the form. After
  starting an edit, hiding the form and showing it again, a submit still
  updates the product that was being edited;
- `sectionTemplates[id]` also finds the names every object inherits from
  `Object.prototype`, such as `"constructor"`. Adding a section under one of
  them does not fail: it appends a section with empty content.

## Model

| member | source | states |
|---|---|---|
| Reorder.RemoveAt | src/components/editor/SiteEditor.js:60 | `splice(i, 1)` shortens the list by one, shifts the later elements down, and removes exactly one copy of `s[i]` from the multiset |
| Reorder.InsertAt | src/components/editor/SiteEditor.js:61 | `splice(i, 0, x)` puts `x` at the clamped position, keeps the earlier elements, shifts the later ones up, and adds one copy of `x` |
| Reorder.Reorder | src/components/editor/SiteEditor.js:59-61 | the move keeps length and multiset, and the moved element lands at the clamped destination |
| Reorder.ReorderMovesByOrigin | src/components/editor/SiteEditor.js:59-61 | the move equals the independent permutation `Origin`: position k holds the old element `Origin(src, landing, k)` |
| Reorder.ReorderSamePlace | src/components/editor/SiteEditor.js:59-61 | dropping an element where it was picked up gives back the same list |
| Reorder.ReorderUndo | src/components/editor/SiteEditor.js:59-61 | dragging the element back from its landing position to its source restores the original list |
| Reorder.ApplyDrop | src/components/editor/SiteEditor.js:56-61 | a drop with no destination changes nothing; any other drop keeps length and multiset and lands the element at the destination |
| Reorder.ThreeElementExample | src/components/editor/SiteEditor.js:59-61 | in [a, b, c], 0 to 2 gives [b, c, a] and 2 to 0 gives [c, a, b] |
| SiteEditor.HandleDragEnd | src/components/editor/SiteEditor.js:56-65 | the section list after a drop: unchanged without a destination, otherwise a length- and multiset-preserving move to the destination |
| SiteEditor.NewSection | src/components/editor/SiteEditor.js:69-75 | the new section has exactly id, type, content and styles; the type is the template id, the content is the template's default content (empty for an inherited `Object.prototype` name), and the styles are empty |
| SiteEditor.HandleAddSection | src/components/editor/SiteEditor.js:68-80 | succeeds exactly when `sectionTemplates[templateId]` finds a value, a registry key or an inherited name, and otherwise fails naming that id; on success it appends one new section at the end and leaves the earlier sections untouched |
| SiteEditor.SidebarClick | src/components/editor/EditorSidebar.js:9-10 | the add button as wired passes the click event as the template id, so every click fails whatever the list |
| SiteEditor.SidebarAdd | src/components/editor/SiteEditor.js:68-80 | an add button that passes a registry template id adds exactly one section of that template, with its default content, at the end |
| SiteEditor.HandleUpdateSection | src/components/editor/SiteEditor.js:83-89 | merges the updates over the sections with that id only; length and every other section are unchanged; an absent id changes nothing |
| SiteEditor.HandleDeleteSection | src/components/editor/SiteEditor.js:92-96 | no section with that id is left, every other section survives, nothing new appears, and an absent id changes nothing |
| SiteEditor.DeleteKeepsOrder | src/components/editor/SiteEditor.js:93 | deleting from a concatenation deletes from each part, so the survivors keep their relative order |
| SiteEditor.FindFirst | src/components/editor/SiteEditor.js:100 | `find` gives none exactly when no section has the id; otherwise the first position that has it |
| SiteEditor.HandleDuplicateSection | src/components/editor/SiteEditor.js:99-111 | an absent id is a no-op; otherwise a copy of the first matching section, with the same keys and a fresh id, is appended at the end |
| SiteEditor.AddThenDelete | src/components/editor/SiteEditor.js:68-96 | adding a section and then deleting its new id gives back the original list |
| SiteEditor.EditsKeepIdsUnique | src/components/editor/SiteEditor.js:68-111 | add, duplicate, delete, and any update that does not write an `id` all keep section ids unique |
| SiteEditor.DeleteKeepsIdsUnique | src/components/editor/SiteEditor.js:92-93 | deleting keeps section ids unique |
| SiteEditor.AppendFreshKeepsIdsUnique | src/components/editor/SiteEditor.js:68-111 | appending a section under an id no section has, as add and duplicate do, keeps ids unique |
| SiteEditor.UpdateKeepsIdsUnique | src/components/editor/SiteEditor.js:83-89 | an update that does not write an `id` keeps every section's id, so ids stay unique |
| SectionTemplates.RegistryKeys | src/components/editor/SectionTemplates.js:3-223 | the template registry has exactly the keys hero, features, testimonials, pricing and contact |
| PageEditor.RegistryKinds | src/pages/Editor.js:5-44 | the component registry offers exactly hero, about, services and contact, and every default content has a title |
| PageEditor.HandleDragEnd | src/pages/Editor.js:79-88 | the component list after a drop: unchanged without a destination, otherwise a length- and multiset-preserving move to the destination |
| PageEditor.HandleComponentEdit | src/pages/Editor.js:112-117 | the components with the edited id get the new content wholesale and keep id and kind; all others are unchanged |
| PageEditor.ComponentEditKeepsIdsUnique | src/pages/Editor.js:112-117 | an edit keeps component ids unique |
| PageEditor.ComponentEditLastWins | src/pages/Editor.js:112-117 | two edits of the same component in a row leave only the second content, whichever snapshot each edit was given |
| PageEditor.AddKeepsIdsUnique | src/pages/Editor.js:148-158 | adding with a fresh id keeps component ids unique |
| PageEditor.AddComponent | src/pages/Editor.js:148-158 | one component of a registry kind is appended, with the fresh id and that kind's default content; the earlier ones are untouched |
| PageEditor.DeleteComponent | src/pages/Editor.js:198-203 | no component with that id is left, every other survives, nothing new appears, and an absent id changes nothing |
| PageEditor.DeleteKeepsOrder | src/pages/Editor.js:200-202 | survivors of a delete keep their relative order |
| PageEditor.AddThenDelete | src/pages/Editor.js:148-203 | adding a component and deleting its id gives back the list |
| PageEditor.FieldEdit | src/pages/Editor.js:247-252 | a field edit writes the selected snapshot's content with one key replaced into the matching components, keeps their id and type, and leaves the snapshot as it was |
| PageEditor.StaleSnapshotDropsFirstEdit | src/pages/Editor.js:191-252 | after edits to two different keys, the component has the second edit and the first key's snapshot value |
| PageEditor.StaleSnapshotExample | src/pages/Editor.js:247-252 | typing a hero title and then a subtitle leaves the title at "Titre principal" |
| PageEditor.FieldEditFresh | src/pages/Editor.js:247-252 | the corrected field edit refreshes the snapshot with the edited component, so the component's content and the selection agree; id and type are kept |
| PageEditor.FreshSnapshotKeepsBothEdits | src/pages/Editor.js:247-252 | with the corrected edit, two edits to different keys both reach the component |
| DragDropEditor.AddableKinds | src/components/editor/DragDropEditor.jsx:7-12 | the palette offers exactly hero, about, services and contact, in that order |
| DragDropEditor.HandleDragEnd | src/components/editor/DragDropEditor.jsx:14-22 | unchanged without a destination, otherwise a length- and multiset-preserving move to the destination |
| DragDropEditor.ComponentId | src/components/editor/DragDropEditor.jsx:26 | the id is the kind, a dash, then the stamp |
| DragDropEditor.AddComponent | src/components/editor/DragDropEditor.jsx:24-31 | appends one component of that kind with empty content and id kind-dash-stamp; existing components are untouched |
| DragDropEditor.IdsOfDifferentKindsDiffer | src/components/editor/DragDropEditor.jsx:26 | components of different dash-free kinds never share an id, whatever the stamps |
| DragDropEditor.AddKeepsIdsUnique | src/components/editor/DragDropEditor.jsx:24-31 | adding under an id no component has keeps ids unique |
| DragDropEditor.TwoKindsFromStart | src/components/editor/DragDropEditor.jsx:6-31 | from the empty opening list, adding two different palette kinds gives two distinct ids, even with equal timestamps |
| TestComponents.TextSection | src/pages/TestComponents.js:71-76 | the added section is named "Nouvelle section", has type text, and its content is a single text key |
| TestComponents.HandleSectionDrop | src/pages/TestComponents.js:63-68 | the drop keeps length and multiset, puts the start section at the end index, and is the identity when the two indices are equal |
| TestComponents.HandleAddSection | src/pages/TestComponents.js:70-78 | exactly one text section is appended at the end |
| TestComponents.InitialIdsUnique | src/pages/TestComponents.js:11-35 | the page opens with two sections whose ids, "1" and "2", differ |
| TestComponents.AddKeepsIdsUnique | src/pages/TestComponents.js:70-78 | adding with a fresh id keeps section ids unique |
| JsString.TrimStart | src/components/blog/CategoryManager.js:23 | the result is a suffix, everything dropped is white space, and it does not start with white space |
| JsString.TrimEnd | src/components/blog/CategoryManager.js:23 | the result is a prefix, everything dropped is white space, and it does not end with white space |
| JsString.Trim | src/components/blog/CategoryManager.js:23 | `trim()` is a trimmed slice of the input with only white space around it, and is empty exactly when the input is all white space |
| JsString.TrimOfPadded | src/components/blog/CategoryManager.js:23 | trimming a trimmed core padded with white space gives the core, so `trim` is determined by its contract |
| JsString.TrimIdempotent | src/components/blog/CategoryManager.js:23 | trimming twice is trimming once |
| JsString.TrimExample | src/tests/CategoryManager.test.js:141-161 | "  New Category  " trims to "New Category" |
| CategoryManager.Init | src/components/blog/CategoryManager.js:3-7 | the lists start as given and both input boxes start empty |
| CategoryManager.AddEntry | src/components/blog/CategoryManager.js:21-35 | blank input and input whose trimmed form is listed change nothing; any other input appends its trimmed form and clears the box; the list stays duplicate-free |
| CategoryManager.RemoveEntry | src/components/blog/CategoryManager.js:37-43 | every occurrence of the value goes, every other entry stays, an absent value changes nothing, and the list stays duplicate-free |
| CategoryManager.RemoveKeepsOrder | src/components/blog/CategoryManager.js:38 | survivors of a remove keep their relative order |
| CategoryManager.AddThenRemove | src/components/blog/CategoryManager.js:23-38 | a successful add is undone by removing the trimmed value |
| CategoryManager.HandleAddCategory | src/components/blog/CategoryManager.js:21-27 | the category list and box follow the add rule; the tag side is untouched |
| CategoryManager.HandleAddTag | src/components/blog/CategoryManager.js:29-35 | tags follow the same add rule; the category side is untouched |
| CategoryManager.HandleRemoveCategory | src/components/blog/CategoryManager.js:37-39 | the category list follows the remove rule; everything else is untouched |
| CategoryManager.HandleRemoveTag | src/components/blog/CategoryManager.js:41-43 | the tag list follows the remove rule; everything else is untouched |
| CategoryManager.HandlersKeepValid | src/components/blog/CategoryManager.js:21-43 | every handler keeps both lists free of duplicates |
| CategoryManager.BoxClearedIffAdded | src/components/blog/CategoryManager.js:23-25 | a non-empty category box is cleared exactly when the add grows the list |
| CategoryManager.TestScenarioDuplicate | src/tests/CategoryManager.test.js:107-122 | submitting "Tech" when it is listed changes nothing |
| BlogEditor.HandleTagInput | src/components/blog/BlogEditor.js:49-54 | Enter with a non-empty value appends it verbatim and clears the box; anything else changes nothing |
| BlogEditor.RemoveTag | src/components/blog/BlogEditor.js:56-58 | exactly position i is removed and the rest stay in order; an out-of-range i changes nothing |
| BlogEditor.EnterThenRemoveLast | src/components/blog/BlogEditor.js:49-58 | entering a tag and removing the last position gives back the list |
| BlogEditor.NoDedupNoTrim | src/components/blog/BlogEditor.js:51 | the same tag can be entered twice, and surrounding spaces are kept |
| BlogManager.FilteredPosts | src/components/blog/BlogManager.jsx:28-31 | "all" shows every post; "published" shows exactly the published posts; any other value shows exactly the drafts; no post is shown more often than it occurs |
| BlogManager.ViewsPartition | src/components/blog/BlogManager.jsx:28-31 | the published and draft views are disjoint, their sizes sum to the total, and together they hold every post |
| BlogManager.FilterKeepsOrder | src/components/blog/BlogManager.jsx:28 | each view keeps the posts in list order |
| BlogManager.DeletePost | src/components/blog/BlogManager.jsx:38 | no post with that id is left, every other post survives, nothing new appears, and an absent id changes nothing |
| BlogManager.DeleteKeepsOrder | src/components/blog/BlogManager.jsx:38 | survivors of a delete keep their relative order |
| ProductManager.ResetForm | src/components/ecommerce/ProductManager.jsx:111-123 | the empty form with no variants, no edit target and a hidden form; the products are untouched |
| ProductManager.HandleEdit | src/components/ecommerce/ProductManager.jsx:85-89 | the product becomes the edit target and fills the form |
| ProductManager.ReplaceEdited | src/components/ecommerce/ProductManager.jsx:61-63 | the products with the edited id take the form's fields and keep their ids; length, order and all other products are unchanged |
| ProductManager.AppendNew | src/components/ecommerce/ProductManager.jsx:68-72 | one product built from the form and the fresh id is appended at the end |
| ProductManager.HandleSubmit | src/components/ecommerce/ProductManager.jsx:52-83 | with an edit target the list is the id-preserving replacement, otherwise the append; either way the form is reset |
| ProductManager.DeleteProduct | src/components/ecommerce/ProductManager.jsx:101 | no product with that id is left, every other survives, and an absent id changes nothing |
| ProductManager.DeleteKeepsOrder | src/components/ecommerce/ProductManager.jsx:101 | survivors of a delete keep their relative order |
| ProductManager.CreateThenDelete | src/components/ecommerce/ProductManager.jsx:68-101 | creating a product and deleting its id gives back the list |
| ProductManager.UnchangedEditIsIdentity | src/components/ecommerce/ProductManager.jsx:61-63 | submitting an edit whose form still holds the product's fields leaves a list with unique ids unchanged |
| ProductManager.SubmitKeepsIdsUnique | src/components/ecommerce/ProductManager.jsx:59-74 | both edit and create keep product ids unique |
| ProductManager.DeleteKeepsIdsUnique | src/components/ecommerce/ProductManager.jsx:101 | deleting keeps product ids unique |
| ProductManager.VariantAdd | src/components/ecommerce/ProductManager.jsx:125-133 | one blank variant (empty size and color, stock 0) is appended; existing variants and the rest of the form are untouched |
| ProductManager.EditVariant | src/components/ecommerce/ProductManager.jsx:137-140 | exactly the named field of the variant changes |
| ProductManager.VariantChange | src/components/ecommerce/ProductManager.jsx:135-145 | only the named field of the row at the index changes; length, other rows and the rest of the form are unchanged |
| ProductManager.VariantRemove | src/components/ecommerce/ProductManager.jsx:147-152 | the row at the index is removed and the others stay in order; an index outside the list changes nothing |
| ProductManager.AddThenRemoveVariant | src/components/ecommerce/ProductManager.jsx:125-152 | adding a variant and removing the last row gives back the form |
| ProductManager.VariantChangeUndo | src/components/ecommerce/ProductManager.jsx:135-145 | changing any field of a row to any value and then setting it back to its old value restores the form |
| ProductManager.ToggleForm | src/components/ecommerce/ProductManager.jsx:168-172 | the header button flips whether the form shows and keeps the edit target and the form fields |
| ProductManager.ToggleKeepsEditTarget | src/components/ecommerce/ProductManager.jsx:52-172 | after starting an edit, hiding and showing the form with the header button, a submit still updates the product being edited |
| ThemeContext.ThemeTable | src/contexts/ThemeContext.js:5-54 | exactly four themes (light, dark, ocean, forest), each filed under its own name with the same seven colour keys |
| ThemeContext.ToggleDarkMode | src/contexts/ThemeContext.js:84-87 | the flag flips; the theme becomes light if it was dark and dark otherwise; the result is consistent |
| ThemeContext.ChangeTheme | src/contexts/ThemeContext.js:89-95 | a known name selects that theme, dark exactly for "dark", and the result is consistent; an unknown name changes nothing |
| ThemeContext.StepsKeepConsistent | src/contexts/ThemeContext.js:84-95 | from a consistent state, both operations keep `isDark` in step with the dark theme |
| ThemeContext.TwoTogglesEndLight | src/contexts/ThemeContext.js:84-87 | two toggles from a non-dark state end on the light theme, not dark |
| ThemeContext.DefaultConsistent | src/contexts/ThemeContext.js:57-65 | the state with nothing saved (light, not dark) is consistent |
| BlockContent.Displayed | src/components/blocks/HeroSection.jsx:11 | the shown fields are the defaults overridden key by key by the content |
| BlockContent.SetText | src/components/blocks/HeroSection.jsx:24 | an inline edit sets exactly one key, keeps the others and copies no default in |
| BlockContent.SetTextShows | src/components/blocks/HeroSection.jsx:11-38 | after an inline edit the block shows the new text for that key and the old value for every other key |
| BlockContent.SetTextFromEmpty | src/components/blocks/HeroSection.jsx:24 | an edit of empty content gives a single-key content |
| BlockContent.EditItems | src/components/blocks/ServicesSection.jsx:68-70 | the list keeps its length and ids; the items with the target id get the field set; the others are unchanged |
| BlockContent.EditItemsLastWins | src/components/blocks/ServicesSection.jsx:68-70 | editing the same field of the same item twice keeps only the second text |
| BlockContent.EditItemsCommute | src/components/blocks/ServicesSection.jsx:67-83 | edits of two different fields give the same list in either order |
| BlockContent.SetItemText | src/components/blocks/ServicesSection.jsx:67-71 | the shown list, edited, is written under the list key: length, order and ids kept, the target field set, the matched items' other fields kept, the other content keys kept, and the default list used when the content has none |
| HeroSection.Shown | src/components/blocks/HeroSection.jsx:4-11 | the title, subtitle, button text and background image shown are the content's where present, otherwise the defaults |
| HeroSection.HandleBlur | src/components/blocks/HeroSection.jsx:21-41 | a title, subtitle or button-text edit sets only its own key; the background image is never written |
| HeroSection.EditShows | src/components/blocks/HeroSection.jsx:11-38 | after an edit the block shows the new text in that field and the old value in the three others |
| HeroSection.EditFromEmpty | src/components/blocks/HeroSection.jsx:21-41 | starting from empty content an edit yields a single-key content |
| ServicesSection.Shown | src/components/blocks/ServicesSection.jsx:4-35 | title, subtitle and services shown are the content's where present, otherwise the defaults |
| ServicesSection.HandleBlur | src/components/blocks/ServicesSection.jsx:41-54 | a title or subtitle edit sets exactly that key and keeps the others |
| ServicesSection.EditService | src/components/blocks/ServicesSection.jsx:67-83 | a service edit changes only that field of the matching-id service and keeps its other fields; the written list keeps length, order and ids |
| ServicesSection.DefaultsShown | src/components/blocks/ServicesSection.jsx:4-35 | empty content shows exactly the defaults |
| ServicesSection.DefaultServiceIds | src/components/blocks/ServicesSection.jsx:7-32 | the default services have ids 1 to 4 in order |
| ServicesSection.EditOfDefaults | src/components/blocks/ServicesSection.jsx:35-71 | with no services in content, an edit writes the four default services with only the edited one changed |
| AboutSection.Shown | src/components/blocks/AboutSection.jsx:4-30 | title, description, features and image shown are the content's where present, otherwise the defaults |
| AboutSection.HandleBlur | src/components/blocks/AboutSection.jsx:37-50 | a title or description edit sets exactly one key and keeps the others |
| AboutSection.EditFeature | src/components/blocks/AboutSection.jsx:59-75 | a feature edit changes only that field of the matching-id feature and keeps its other fields; the written list keeps length, order and ids |
| AboutSection.DefaultsShown | src/components/blocks/AboutSection.jsx:4-30 | empty content shows exactly the defaults |
| AboutSection.DefaultFeatureIds | src/components/blocks/AboutSection.jsx:7-26 | the default features have ids 1 to 3 in order |
| AboutSection.EditOfDefaults | src/components/blocks/AboutSection.jsx:30-63 | with no features in content, an edit writes the three default features with only the edited one changed |
| ContactSection.KeysDistinct | src/components/blocks/ContactSection.jsx:4-11 | the six editable texts have distinct keys, each with a default |
| ContactSection.Shown | src/components/blocks/ContactSection.jsx:4-13 | the six texts shown are the content's where present, otherwise the defaults |
| ContactSection.HandleBlur | src/components/blocks/ContactSection.jsx:33-82 | each of the six inline edits sets exactly its own key and keeps the others |
| ContactSection.EditShows | src/components/blocks/ContactSection.jsx:13-82 | after an edit the block shows the new text for that field and the old value for the five others |
| ContactSection.HandleChange | src/components/blocks/ContactSection.jsx:89-118 | each form input updates only its own field of the form state |
| ContactSection.ChangesCommute | src/components/blocks/ContactSection.jsx:94-116 | typing into two different inputs gives the same form in either order |
| ContactSection.FillFromEmpty | src/components/blocks/ContactSection.jsx:14-116 | filling the three inputs of the opening empty form, top to bottom or bottom to top, gives the form holding exactly the typed values |

## Left out

- Autosave, debouncing and every network call are not modelled: saves, fetches, `axios`, toasts, `window.confirm` and loading flags. Only the list update that follows a call is modelled.
- Rendering is not modelled. Only the values a block destructures for display are.
- `Date.now()` is not modelled. Ids are parameters that no listed element already has; real timestamps need not be unique.
- `e.target.textContent` is not modelled. Edited text is an opaque string, although ContactSection's address, email and phone paragraphs also contain an icon.
- ProductManager's `parseInt` is not modelled. The variant stock is an integer and `NaN` is not represented.
- ProductManager's numeric form fields are not modelled. Price and stock are the strings the inputs hold, and the mock product's decimal price is not loaded.
- Numbers are integers. Floating point values do not occur in the handlers' logic.
- JavaScript object key order is not modelled. Records are maps.
- Strict equality `===` on object- or array-valued ids is not modelled. JavaScript compares references there, the model compares structurally, and `NaN` is not represented. All ids in the code are strings or numbers.
- PageEditor and ProductManager ids are modelled as `int`. The ids created there are `Date.now()` numbers, and ProductManager's sample product has id 1. Components loaded by `loadPage` may carry string ids from the stored page, and a string id never equals a number id under `===`. The model does not represent that mixed case.
- ThemeContext localStorage, the DOM class and the CSS variables are not modelled. The initial state is the no-saved-preference default.
- ThemeContext's `themes[name]` also finds inherited `Object.prototype` keys such as `"constructor"`. The model only knows the four own keys.
- BlogManager, at BlogManager.jsx:69, 73, 79, 83, 89, 93, 133, 137, 145 and 151, writes `` \` `` and `` \${ `` directly inside JSX expression containers rather than inside a template literal. Outside a string a backslash may only start a `\uXXXX` escape, so the file does not parse as written and `filteredPosts` and `deletePost` never run. The model follows the evident intent of lines 28-43: a three-way status filter and a delete by id.
- AboutSection's default description, at AboutSection.jsx:6, puts ASCII apostrophes inside a single-quoted literal, so the file does not parse as written. The model uses the evidently intended text, "Nous sommes une entreprise passionnée par l'innovation et l'excellence.".
- SiteEditor's rendering is not modelled. The registry's templates have no `render` or `editor` function, so `renderSection` and `SectionEditor` (SiteEditor.js:224-238) throw as soon as the list holds a section whose type the registry finds. The handlers are modelled on their own, as if those functions existed.
- CategoryManager's `useEffect` callbacks, `onCategoryChange` and `onTagChange` (CategoryManager.js:9-19), are not modelled. They hand the current lists to the parent after each change, so the parent sees exactly the lists the model computes.
- `useThemeTransition` is not modelled.
- A drop whose source index is outside the list is not modelled. The drag library only reports positions it rendered.
- SiteEditor sections without an `id` key are treated as never matching an id. The model assumes every stored section has an id. The callers pass `section.id` (SiteEditor.js:164, 178 and 214), which would be `undefined` for a section without one, and `undefined === undefined` would then match every such section.
- BlockContent.SetItemText: assumes the stored item list is a list of objects. A list holding a string, number or boolean renders and can be edited: `undefined === undefined` matches every such item, and `{ ...'x', title }` becomes `{ 0: 'x', title }`. The model does not cover that case. Only a non-array list, or a `null` or `undefined` item, makes the block throw.
- ContactSection's `handleSubmit` is not modelled. It only logs the form and changes no state, so the form state after a submit is the one before it.
- TestComponents' posts list and blog panels are not modelled. Neither is the `onSectionDrop` delegation in the canvas.

## Findings

| source | as written | input that shows it | evidently intended | confidence | as-written member | corrected member |
|---|---|---|---|---|---|---|
| src/components/editor/EditorSidebar.js:9-10 | `onClick={onAddSection}` hands the click event to `handleAddSection`, which looks up `sectionTemplates["[object Object]"]`, finds nothing and throws on reading `defaultContent` | click the sidebar's add button with any section list: no section is added | the button passes the id of a chosen template, and the section of that template is appended | not executed | SiteEditor.SidebarClick | SiteEditor.SidebarAdd |
| src/pages/Editor.js:247-252 | each field input builds the new content from `selectedComponent.content`, a snapshot taken when the component was clicked and never refreshed | select a fresh hero component, type "Bienvenue" into title, then "Bonjour" into subtitle: the component's title is back to "Titre principal" | each edit builds on the component's current content, so both edits remain | not executed | PageEditor.FieldEdit, PageEditor.StaleSnapshotDropsFirstEdit, PageEditor.StaleSnapshotExample | PageEditor.FieldEditFresh, PageEditor.FreshSnapshotKeepsBothEdits |
