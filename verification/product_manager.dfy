/** The product catalogue manager: a product list, the form the user fills
    in, the product being edited (if any), and the variant rows of the form.
    Submitting either replaces the edited product, keeping its id, or
    appends a new product with a fresh id; then the form is reset. */
module ProductManager {
  import opened Options
  import opened Seqs

  /** One variant row of the form. */
  datatype Variant = Variant(size: string, color: string, stock: int)

  /** The form fields. The text fields hold what the inputs show. */
  datatype Form = Form(
    name: string, description: string, price: string, stock: string,
    category: string, images: seq<string>, variants: seq<Variant>)

  /** A listed product: the form fields it was saved from and its id. */
  datatype Product = Product(id: int, fields: Form)

  datatype Manager = Manager(products: seq<Product>, editing: Option<Product>, form: Form, showForm: bool)

  /** The blank form `resetForm` and the initial state use. */
  const EmptyForm := Form("", "", "", "", "", [], [])

  /** The row `handleVariantAdd` appends. */
  const BlankVariant := Variant("", "", 0)

  /** Which variant field an input edits, with its new value. */
  datatype VariantEdit = SetSize(size: string) | SetColor(color: string) | SetStock(stock: int)

  /** No two products share an id. */
  predicate UniqueIds(products: seq<Product>) {
    forall i, j :: 0 <= i < j < |products| ==> products[i].id != products[j].id
  }

  predicate Absent(products: seq<Product>, id: int) {
    forall i :: 0 <= i < |products| ==> products[i].id != id
  }

  /** `resetForm`: the empty form, no product being edited, form hidden; the
      list is untouched. */
  function ResetForm(m: Manager): (r: Manager)
    ensures r.products == m.products
    ensures r.form.variants == [] && r.form.images == [] && r.form.name == ""
    ensures r.form == EmptyForm && r.editing.None? && !r.showForm
  {
    Manager(m.products, None, EmptyForm, false)
  }

  /** `handleEdit`: the product becomes the edit target and fills the form. */
  function HandleEdit(m: Manager, p: Product): (r: Manager)
    ensures r.products == m.products
    ensures r.editing == Some(p) && r.form == p.fields && r.showForm
  {
    m.(editing := Some(p), form := p.fields, showForm := true)
  }

  /** The list update of an edit: every product with the edited id takes
      the form's fields and keeps its own id. */
  function ReplaceEdited(products: seq<Product>, id: int, form: Form): (r: seq<Product>)
    ensures |r| == |products|
    ensures forall i :: 0 <= i < |products| ==> r[i].id == products[i].id
    ensures forall i :: 0 <= i < |products| && products[i].id == id ==> r[i].fields == form
    ensures forall i :: 0 <= i < |products| && products[i].id != id ==> r[i] == products[i]
  {
    MapWhere(products, (p: Product) => p.id == id, (p: Product) => Product(p.id, form))
  }

  /** The list update of a create: one new product at the end. */
  function AppendNew(products: seq<Product>, form: Form, freshId: int): (r: seq<Product>)
    requires Absent(products, freshId)
    ensures |r| == |products| + 1 && r[..|products|] == products
    ensures r[|products|] == Product(freshId, form)
  {
    products + [Product(freshId, form)]
  }

  /** `handleSubmit`: edit or create, then `resetForm`. The id of a new
      product is a parameter that no listed product has. */
  function HandleSubmit(m: Manager, freshId: int): (r: Manager)
    requires m.editing.None? ==> Absent(m.products, freshId)
    ensures m.editing.Some? ==> r.products == ReplaceEdited(m.products, m.editing.value.id, m.form)
    ensures m.editing.None? ==> r.products == m.products + [Product(freshId, m.form)]
    ensures r.form == EmptyForm && r.editing.None? && !r.showForm
  {
    var products :=
      if m.editing.Some? then ReplaceEdited(m.products, m.editing.value.id, m.form)
      else AppendNew(m.products, m.form, freshId);
    ResetForm(m.(products := products))
  }

  /** The list update in `handleDelete`. */
  function DeleteProduct(products: seq<Product>, id: int): (r: seq<Product>)
    ensures Absent(r, id)
    ensures forall i :: 0 <= i < |r| ==> r[i] in products
    ensures forall i :: 0 <= i < |products| && products[i].id != id ==> products[i] in r
    ensures Absent(products, id) ==> r == products
  {
    var keep := (p: Product) => p.id != id;
    if Absent(products, id) then
      FilterAcceptingAll(products, keep);
      Filter(products, keep)
    else Filter(products, keep)
  }

  /** Survivors of a delete keep their relative order. */
  lemma DeleteKeepsOrder(front: seq<Product>, back: seq<Product>, id: int)
    ensures DeleteProduct(front + back, id) == DeleteProduct(front, id) + DeleteProduct(back, id)
  {
    FilterConcat(front, back, (p: Product) => p.id != id);
  }

  /** Creating a product and deleting it again gives back the list. */
  lemma {:induction false} CreateThenDelete(products: seq<Product>, form: Form, freshId: int)
    requires Absent(products, freshId)
    ensures DeleteProduct(AppendNew(products, form, freshId), freshId) == products
  {
    DeleteKeepsOrder(products, [Product(freshId, form)], freshId);
  }

  /** Submitting an edit whose form still holds the edited product's fields
      leaves the list as it was, when ids are unique. */
  lemma {:induction false} UnchangedEditIsIdentity(products: seq<Product>, k: nat)
    requires k < |products| && UniqueIds(products)
    ensures ReplaceEdited(products, products[k].id, products[k].fields) == products
  {
    var r := ReplaceEdited(products, products[k].id, products[k].fields);
    forall i | 0 <= i < |products|
      ensures r[i] == products[i]
    {
      if products[i].id == products[k].id {
        assert i == k;
      }
    }
  }

  /** Submitting, as an edit or as a create, keeps product ids unique. */
  lemma {:induction false} SubmitKeepsIdsUnique(m: Manager, freshId: int)
    requires UniqueIds(m.products)
    requires m.editing.None? ==> Absent(m.products, freshId)
    ensures UniqueIds(HandleSubmit(m, freshId).products)
  {
    var r := HandleSubmit(m, freshId).products;
    if m.editing.Some? {
      assert forall i :: 0 <= i < |r| ==> r[i].id == m.products[i].id;
    } else {
      assert forall i :: 0 <= i < |m.products| ==> r[i] == m.products[i];
    }
  }

  /** Deleting keeps product ids unique. */
  lemma {:induction false} DeleteKeepsIdsUnique(products: seq<Product>, id: int)
    requires UniqueIds(products)
    ensures UniqueIds(DeleteProduct(products, id))
  {
    var ok := (p: Product, q: Product) => p.id != q.id;
    assert Pairwise(products, ok);
    FilterPairwise(products, (p: Product) => p.id != id, ok);
    assert Pairwise(DeleteProduct(products, id), ok);
  }

  /** `handleVariantAdd`: one blank row at the end of the form's variants;
      the rest of the form is untouched. */
  function VariantAdd(f: Form): (r: Form)
    ensures |r.variants| == |f.variants| + 1
    ensures r.variants[..|f.variants|] == f.variants && r.variants[|f.variants|] == BlankVariant
    ensures r.(variants := f.variants) == f
  {
    f.(variants := f.variants + [BlankVariant])
  }

  /** One field of one variant replaced. */
  function EditVariant(v: Variant, e: VariantEdit): (r: Variant)
    ensures e.SetSize? ==> r == v.(size := e.size)
    ensures e.SetColor? ==> r == v.(color := e.color)
    ensures e.SetStock? ==> r == v.(stock := e.stock)
  {
    match e
    case SetSize(size) => v.(size := size)
    case SetColor(color) => v.(color := color)
    case SetStock(stock) => v.(stock := stock)
  }

  /** `handleVariantChange`: only the named field of the row at `index`
      changes; the other rows and the rest of the form are untouched. */
  function VariantChange(f: Form, index: nat, e: VariantEdit): (r: Form)
    requires index < |f.variants|
    ensures |r.variants| == |f.variants|
    ensures r.variants[index] == EditVariant(f.variants[index], e)
    ensures forall i :: 0 <= i < |f.variants| && i != index ==> r.variants[i] == f.variants[i]
    ensures r.(variants := f.variants) == f
  {
    f.(variants := f.variants[index := EditVariant(f.variants[index], e)])
  }

  /** `handleVariantRemove`: the row at `index` removed, the others kept in
      order; an index naming no row removes nothing. */
  function VariantRemove(f: Form, index: int): (r: Form)
    ensures 0 <= index < |f.variants| ==> r.variants == f.variants[..index] + f.variants[index + 1..]
    ensures !(0 <= index < |f.variants|) ==> r == f
    ensures r.(variants := f.variants) == f
  {
    var vs := WithoutPosition(f.variants, index);
    assert 0 <= index < |f.variants| ==> vs == f.variants[..index] + f.variants[index + 1..];
    f.(variants := vs)
  }

  /** Adding a variant row and removing the last row gives back the form. */
  lemma {:induction false} AddThenRemoveVariant(f: Form)
    ensures VariantRemove(VariantAdd(f), |f.variants|) == f
  {
    var added := VariantAdd(f).variants;
    assert added[..|f.variants|] == f.variants;
  }

  /** The edit that sets the field `e` edits back to its value in `v`. */
  function Undo(v: Variant, e: VariantEdit): (u: VariantEdit)
    ensures u.SetSize? == e.SetSize? && u.SetColor? == e.SetColor? && u.SetStock? == e.SetStock?
  {
    match e
    case SetSize(_) => SetSize(v.size)
    case SetColor(_) => SetColor(v.color)
    case SetStock(_) => SetStock(v.stock)
  }

  /** Changing any field of a row to any value and then setting it back to
      the value it had restores the form. */
  lemma {:induction false} VariantChangeUndo(f: Form, index: nat, e: VariantEdit)
    requires index < |f.variants|
    ensures VariantChange(VariantChange(f, index, e), index, Undo(f.variants[index], e)) == f
  {
    var once := VariantChange(f, index, e);
    var back := VariantChange(once, index, Undo(f.variants[index], e));
    assert back.variants[index] == f.variants[index];
    assert back.variants == f.variants;
  }

  /** The header button: it only shows or hides the form; the edit target
      and the form's fields are kept. */
  function ToggleForm(m: Manager): (r: Manager)
    ensures r.showForm == !m.showForm
    ensures r.products == m.products && r.editing == m.editing && r.form == m.form
  {
    m.(showForm := !m.showForm)
  }

  /** Hiding the form with the header button after starting an edit, showing
      it again and submitting still updates the product that was being
      edited: the header button does not reset the edit. */
  lemma {:induction false} ToggleKeepsEditTarget(m: Manager, p: Product, freshId: int)
    ensures var reopened := ToggleForm(ToggleForm(HandleEdit(m, p)));
      && reopened.showForm && reopened.editing == Some(p)
      && HandleSubmit(reopened, freshId).products == ReplaceEdited(m.products, p.id, p.fields)
  {
    var reopened := ToggleForm(ToggleForm(HandleEdit(m, p)));
    assert reopened.editing == Some(p) && reopened.form == p.fields;
  }
}
