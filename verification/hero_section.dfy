/** The hero block: a title, a subtitle and a button label the user edits
    in place, over a background image that is only shown. */
module HeroSection {
  import opened Json
  import BlockContent

  const Defaults: Record := map[
    "title" := Str("Titre Principal"),
    "subtitle" := Str("Sous-titre accrocheur"),
    "buttonText" := Str("En savoir plus"),
    "backgroundImage" := Str("https://images.unsplash.com/photo-1499951360447-b19be8fe80f5")
  ]

  /** The fields that can be edited in place. */
  datatype Field = Title | Subtitle | ButtonText

  function Key(f: Field): string {
    match f
    case Title => "title"
    case Subtitle => "subtitle"
    case ButtonText => "buttonText"
  }

  /** What the block shows: for each of its four fields, the content's
      value if it has one, otherwise the default. */
  function Shown(content: Record): (r: Record)
    ensures forall k :: k in Defaults ==> k in r && r[k] == (if k in content then content[k] else Defaults[k])
  {
    BlockContent.Displayed(Defaults, content)
  }

  /** The `onBlur` of an editable field: the content with that one key set
      to the edited text. The background image is never written. */
  function HandleBlur(content: Record, f: Field, text: string): (r: Record)
    ensures r.Keys == content.Keys + {Key(f)} && r[Key(f)] == Str(text)
    ensures forall k :: k in content && k != Key(f) ==> r[k] == content[k]
    ensures "backgroundImage" in r <==> "backgroundImage" in content
  {
    BlockContent.SetText(content, Key(f), text)
  }

  /** After an edit the block shows the edited text in that field and the
      same as before in the three others. */
  lemma EditShows(content: Record, f: Field, text: string)
    ensures Shown(HandleBlur(content, f, text))[Key(f)] == Str(text)
    ensures forall g: Field :: g != f ==> Shown(HandleBlur(content, f, text))[Key(g)] == Shown(content)[Key(g)]
    ensures Shown(HandleBlur(content, f, text))["backgroundImage"] == Shown(content)["backgroundImage"]
  {
  }

  /** No default is copied into the content: an edit of an empty content
      gives a content of one key. */
  lemma EditFromEmpty(f: Field, text: string)
    ensures HandleBlur(map[], f, text) == map[Key(f) := Str(text)]
  {
  }
}
