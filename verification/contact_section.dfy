/** The contact block: six texts edited in place (title, subtitle, address,
    email, phone and the form's title) and a message form whose state lives
    in the block. */
module ContactSection {
  import opened Json
  import BlockContent

  const Defaults: Record := map[
    "title" := Str("Contactez-Nous"),
    "subtitle" := Str("Nous sommes là pour vous aider"),
    "address" := Str("123 Rue Example, 75000 Paris"),
    "email" := Str("contact@example.com"),
    "phone" := Str("+33 1 23 45 67 89"),
    "formTitle" := Str("Envoyez-nous un message")
  ]

  /** The texts edited in place. */
  datatype Field = Title | Subtitle | Address | Email | Phone | FormTitle

  function Key(f: Field): string {
    match f
    case Title => "title"
    case Subtitle => "subtitle"
    case Address => "address"
    case Email => "email"
    case Phone => "phone"
    case FormTitle => "formTitle"
  }

  /** Each editable text has its own key, and every key has a default. */
  lemma KeysDistinct(f: Field, g: Field)
    ensures Key(f) == Key(g) <==> f == g
    ensures Key(f) in Defaults
  {
  }

  /** What the block shows: each of the six texts from the content if it has
      it, otherwise the default. */
  function Shown(content: Record): (r: Record)
    ensures forall k :: k in Defaults ==> k in r && r[k] == (if k in content then content[k] else Defaults[k])
  {
    BlockContent.Displayed(Defaults, content)
  }

  /** The `onBlur` of an editable text: that one key set. */
  function HandleBlur(content: Record, f: Field, text: string): (r: Record)
    ensures r.Keys == content.Keys + {Key(f)} && r[Key(f)] == Str(text)
    ensures forall k :: k in content && k != Key(f) ==> r[k] == content[k]
  {
    BlockContent.SetText(content, Key(f), text)
  }

  /** After an edit the block shows the edited text for that field and the
      same as before for the five others. */
  lemma EditShows(content: Record, f: Field, text: string)
    ensures Shown(HandleBlur(content, f, text))[Key(f)] == Str(text)
    ensures forall g: Field :: g != f ==> Shown(HandleBlur(content, f, text))[Key(g)] == Shown(content)[Key(g)]
  {
  }

  /** The message form's state. */
  datatype FormData = FormData(name: string, email: string, message: string)

  /** The form the block opens with. */
  const EmptyForm := FormData("", "", "")

  /** The three form inputs. */
  datatype Input = NameInput | EmailInput | MessageInput

  /** The `onChange` of a form input: only that input's field changes. */
  function HandleChange(form: FormData, input: Input, value: string): (r: FormData)
    ensures input.NameInput? ==> r.name == value && r.email == form.email && r.message == form.message
    ensures input.EmailInput? ==> r.email == value && r.name == form.name && r.message == form.message
    ensures input.MessageInput? ==> r.message == value && r.name == form.name && r.email == form.email
  {
    match input
    case NameInput => form.(name := value)
    case EmailInput => form.(email := value)
    case MessageInput => form.(message := value)
  }

  /** Typing into two different inputs gives the same form in either
      order. */
  lemma ChangesCommute(form: FormData, i1: Input, v1: string, i2: Input, v2: string)
    requires i1 != i2
    ensures HandleChange(HandleChange(form, i1, v1), i2, v2) == HandleChange(HandleChange(form, i2, v2), i1, v1)
  {
  }

  /** Filling the three inputs of the opening form top to bottom, or bottom
      to top, gives the form holding exactly the three typed values; the
      other orders follow from `ChangesCommute`. */
  lemma FillFromEmpty(name: string, email: string, message: string)
    ensures HandleChange(HandleChange(HandleChange(EmptyForm, NameInput, name), EmailInput, email), MessageInput, message)
         == FormData(name, email, message)
    ensures HandleChange(HandleChange(HandleChange(EmptyForm, MessageInput, message), EmailInput, email), NameInput, name)
         == FormData(name, email, message)
  {
  }
}
