/** The inventory screen: the product table with its low-stock badge, and the
    add/edit form whose state decides whether a submit inserts or updates. */
module Inventory {
  import opened Wrappers
  import Numerals
  import StockLevel

  /** A product row; the price is in cents and the image URL may be null. */
  datatype Product = Product(
    id: string, name: string, category: string, price: int, stock: int, imageUrl: Option<string>)

  /** The five form inputs, as the text they hold. */
  datatype FormData = FormData(name: string, category: string, price: string, stock: string, imageUrl: string)

  const EmptyForm: FormData := FormData("", "", "", "", "")

  /** Whether the form is open, which product it edits (if any), and its inputs. */
  datatype FormState = FormState(isAdding: bool, editingId: Option<string>, form: FormData)

  const Initial: FormState := FormState(false, None, EmptyForm)

  /** `editingId` is truthy: set, and not the empty string. */
  predicate Editing(s: FormState) {
    s.editingId.Some? && s.editingId.value != ""
  }

  /** The badge class and the warning icon both appear exactly for low stock. */
  predicate ShowsLowStockBadge(p: Product) {
    StockLevel.IsLowStock(p.stock)
  }

  lemma LowStockBadgeBelowFive(p: Product)
    ensures ShowsLowStockBadge(p) <==> p.stock < 5
  {
  }

  /** `handleEdit`: the form opens on the product, with price and stock written
      as text and a null image URL as the empty string. */
  function HandleEdit(p: Product): (r: FormState)
    ensures r.isAdding && r.editingId == Some(p.id)
    ensures r.form.name == p.name && r.form.category == p.category
    ensures Numerals.ParseInt(r.form.stock) == Some(p.stock)
    ensures Numerals.ParsePriceCents(r.form.price) == Some(p.price)
    ensures r.form.imageUrl == p.imageUrl.GetOr("")
  {
    Numerals.ParseIntOfIntToString(p.stock);
    Numerals.ParsePriceOfCentsToString(p.price);
    FormState(true, Some(p.id),
      FormData(p.name, p.category, Numerals.CentsToString(p.price), Numerals.IntToString(p.stock),
               p.imageUrl.GetOr("")))
  }

  /** `resetForm`: closed, editing nothing, all five inputs empty, whatever came before. */
  function ResetForm(): (r: FormState)
    ensures !r.isAdding && r.editingId.None?
    ensures r.form.name == "" && r.form.category == "" && r.form.price == ""
    ensures r.form.stock == "" && r.form.imageUrl == ""
  {
    FormState(false, None, EmptyForm)
  }

  datatype Field = NameField | CategoryField | PriceField | StockField | ImageField

  /** Typing into one input changes that input only. */
  function SetField(f: FormData, field: Field, value: string): FormData {
    match field
    case NameField => f.(name := value)
    case CategoryField => f.(category := value)
    case PriceField => f.(price := value)
    case StockField => f.(stock := value)
    case ImageField => f.(imageUrl := value)
  }

  /** The row a submit sends: text fields as typed, the price through
      `parseFloat` and the stock through `parseInt` (`None` for NaN). */
  datatype ProductData = ProductData(
    name: string, category: string, price: Option<int>, stock: Option<int>, imageUrl: string)

  datatype Write = Update(id: string, data: ProductData) | Insert(data: ProductData)

  function ToProductData(f: FormData): ProductData {
    ProductData(f.name, f.category, Numerals.ParsePriceCents(f.price), Numerals.ParseInt(f.stock), f.imageUrl)
  }

  /** The write `handleSubmit` issues: an update of the edited row when
      `editingId` is truthy, an insert otherwise. */
  function SubmitWrite(s: FormState): (w: Write)
    ensures w.Update? <==> Editing(s)
    ensures w.Update? ==> Some(w.id) == s.editingId
    ensures w.data.name == s.form.name && w.data.category == s.form.category
    ensures w.data.imageUrl == s.form.imageUrl
    ensures w.data.price == Numerals.ParsePriceCents(s.form.price)
    ensures w.data.stock == Numerals.ParseInt(s.form.stock)
  {
    var data := ToProductData(s.form);
    if Editing(s) then Update(s.editingId.value, data) else Insert(data)
  }

  /** After the write: the form is reset only when no error came back. */
  function AfterSubmit(s: FormState, failed: bool): (r: FormState)
    ensures failed ==> r == s
    ensures !failed ==> r == Initial
  {
    if failed then s else ResetForm()
  }

  /** Editing a product and submitting unchanged sends that product back as an
      update of its own row: integer stock and whole-cent price survive their
      trip through text. */
  lemma EditThenSubmitRoundTrip(p: Product)
    requires p.id != ""
    ensures SubmitWrite(HandleEdit(p))
      == Update(p.id, ProductData(p.name, p.category, Some(p.price), Some(p.stock), p.imageUrl.GetOr("")))
  {
  }

  /** The add button shows only while the form is closed. */
  predicate ShowsAddButton(s: FormState) {
    !s.isAdding
  }

  /** The form heading depends on `editingId` alone. */
  function FormTitle(s: FormState): (t: string)
    ensures t == "Editar Producto" <==> Editing(s)
    ensures t == "Nuevo Producto" <==> !Editing(s)
  {
    if Editing(s) then "Editar Producto" else "Nuevo Producto"
  }

  function SubmitLabel(s: FormState): (t: string)
    ensures t == "Actualizar Producto" <==> Editing(s)
    ensures t == "Guardar Producto" <==> !Editing(s)
  {
    if Editing(s) then "Actualizar Producto" else "Guardar Producto"
  }

  /** The browser runs the submit handler only when every `required` input
      holds text: the name, the price and the stock. */
  predicate RequiredFilled(f: FormData) {
    f.name != "" && f.price != "" && f.stock != ""
  }

  /** What the user can do on this screen. `Add` is the button over the table;
      `Type` and `Cancel` need the form on screen; `Submitted` is a press of
      the submit button whose write, if the browser lets it through, came back
      with or without an error. */
  datatype Event =
    | Add
    | Edit(p: Product)
    | Type(field: Field, value: string)
    | Cancel
    | Submitted(failed: bool)

  /** One event. A closed form ignores everything but the add button and the
      edit buttons in the table; only an edit or the end of the form changes
      which row a submit targets. */
  function Step(s: FormState, e: Event): (r: FormState)
    ensures !s.isAdding && !e.Add? && !e.Edit? ==> r == s
    ensures e.Edit? ==> r.isAdding && r.editingId == Some(e.p.id)
    ensures e.Type? ==> r.isAdding == s.isAdding && r.editingId == s.editingId
    ensures r.editingId != s.editingId ==> e.Edit? || (s.isAdding && (e.Cancel? || (e.Submitted? && !e.failed)))
    ensures e.Submitted? && !RequiredFilled(s.form) ==> r == s
  {
    match e
    case Add => if ShowsAddButton(s) then s.(isAdding := true) else s
    case Edit(p) => HandleEdit(p)
    case Type(field, value) => if s.isAdding then s.(form := SetField(s.form, field, value)) else s
    case Cancel => if s.isAdding then ResetForm() else s
    case Submitted(failed) => if s.isAdding && RequiredFilled(s.form) then AfterSubmit(s, failed) else s
  }

  function Run(s: FormState, events: seq<Event>): FormState
    decreases |events|
  {
    if |events| == 0 then s else Run(Step(s, events[0]), events[1..])
  }

  /** A closed form edits nothing and holds no text. */
  predicate ClosedIsBlank(s: FormState) {
    !s.isAdding ==> s.editingId.None? && s.form == EmptyForm
  }

  lemma {:induction false} RunKeepsClosedBlank(s: FormState, events: seq<Event>)
    requires ClosedIsBlank(s)
    ensures ClosedIsBlank(Run(s, events))
    decreases |events|
  {
    if |events| > 0 {
      RunKeepsClosedBlank(Step(s, events[0]), events[1..]);
    }
  }

  /** So the add button always opens an empty "Nuevo Producto" form that will insert. */
  lemma AddOpensBlankNewForm(s: FormState)
    requires ClosedIsBlank(s) && ShowsAddButton(s)
    ensures Step(s, Add).form == EmptyForm
    ensures FormTitle(Step(s, Add)) == "Nuevo Producto"
    ensures SubmitWrite(Step(s, Add)).Insert?
  {
  }

  /** A new form submitted before the required fields are filled stays open
      and keeps inserting. */
  lemma BlankSubmitKeepsFormOpen(s: FormState, failed: bool)
    requires ClosedIsBlank(s) && ShowsAddButton(s)
    ensures Run(s, [Add, Submitted(failed)]).isAdding
    ensures Run(s, [Add, Submitted(failed)]).form == EmptyForm
    ensures SubmitWrite(Run(s, [Add, Submitted(failed)])).Insert?
  {
    var shown := Step(s, Add);
    assert [Add, Submitted(failed)][1..] == [Submitted(failed)];
    assert Run(s, [Add, Submitted(failed)]) == Run(shown, [Submitted(failed)]);
    assert [Submitted(failed)][1..] == [];
    assert shown.isAdding && shown.form == EmptyForm && !RequiredFilled(shown.form);
    assert Run(shown, [Submitted(failed)]) == Step(shown, Submitted(failed)) == shown;
  }
}
