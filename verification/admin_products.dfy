/** The admin product manager: the product dialog's form, the image guard,
    the discount inputs, saving, and the name search. */
module AdminProducts {
  import opened Wrappers
  import opened Text
  import opened Seqs
  import opened Types
  import opened Rows
  import opened Uploads
  import opened Render

  /** The dialog's form: a product row without its id. `originalPrice` holds
      what `Number` made of the input, so it can be `NaN`. */
  datatype ProductForm = ProductForm(
    name: string,
    description: string,
    price: int,
    imageUrl: string,
    category: string,
    stock: int,
    featured: bool,
    rating: real,
    discountPercentage: int,
    originalPrice: Option<JsNumber>)

  /** `emptyProduct`. */
  const EmptyProductForm := ProductForm("", "", 0, "", "All", 0, false, 0.0, 0, None)

  datatype Dialog = Dialog(editing: Option<Product>, form: ProductForm, preview: Option<string>, open: bool)

  /** The edit form for an existing product: a missing description or image
      becomes empty, a missing or zero rating or discount becomes 0, and a
      missing or zero original price becomes null. */
  function FormOf(p: Product): (f: ProductForm)
    ensures f.name == p.name && f.price == p.price && f.category == p.category
    ensures f.stock == p.stock && f.featured == p.featured
    ensures f.description == p.description.GetOr("") && f.imageUrl == p.imageUrl.GetOr("")
    ensures f.rating == p.rating.GetOr(0.0) && f.discountPercentage == p.discountPercentage.GetOr(0)
    ensures f.originalPrice.None? <==> p.originalPrice.None? || p.originalPrice.value == 0
    ensures f.originalPrice.Some? ==> f.originalPrice.value == Num(p.originalPrice.value)
  {
    ProductForm(
      name := p.name,
      description := OptOrElse(p.description, ""),
      price := p.price,
      imageUrl := OptOrElse(p.imageUrl, ""),
      category := p.category,
      stock := p.stock,
      featured := p.featured,
      rating := if p.rating.Some? then p.rating.value else 0.0,
      discountPercentage := if p.discountPercentage.Some? then p.discountPercentage.value else 0,
      originalPrice := if p.originalPrice.Some? && p.originalPrice.value != 0 then Some(Num(p.originalPrice.value)) else None)
  }

  /** `handleOpenDialog`: an existing product is loaded into the form; without
      one the form starts from `emptyProduct`. */
  function OpenDialog(product: Option<Product>): (d: Dialog)
    ensures d.open && d.editing == product
    ensures product.None? ==> d.form == EmptyProductForm && d.preview.None?
    ensures product.Some? ==> d.form == FormOf(product.value)
    ensures product.Some? ==> (d.preview.None? <==> product.value.imageUrl.GetOr("") == "")
  {
    match product
    case None => Dialog(None, EmptyProductForm, None, true)
    case Some(p) =>
      Dialog(product, FormOf(p), if p.imageUrl.GetOr("") == "" then None else p.imageUrl, true)
  }

  /** `handleImageUpload` with the product limit, when the storage service
      answers: `d` is the dialog at that moment, `captured` the form as it was
      when the file was chosen (the handler's closure), and `stored` the
      service's answer. Nothing changes unless the file passed the checks and
      was stored; then the captured form, with the new URL, replaces the form. */
  function UploadImage(d: Dialog, captured: ProductForm, file: FileInfo, stored: Result<string, string>): (r: Dialog)
    ensures CheckImage(file, ProductImageLimit).Err? || stored.Err? ==> r == d
    ensures CheckImage(file, ProductImageLimit).Ok? && stored.Ok? ==>
      r == d.(form := captured.(imageUrl := stored.value), preview := Some(stored.value))
  {
    if CheckImage(file, ProductImageLimit).Err? then d
    else match stored
      case Ok(url) => d.(form := captured.(imageUrl := url), preview := Some(url))
      case Err(_) => d
  }

  /** Without edits during the upload only the image changes; a price typed
      while the upload was in flight is replaced by the one from before. */
  lemma UploadKeepsOnlyCapturedEdits(d: Dialog, captured: ProductForm, file: FileInfo, url: string)
    requires CheckImage(file, ProductImageLimit).Ok?
    ensures d.form == captured ==> UploadImage(d, captured, file, Ok(url)).form == d.form.(imageUrl := url)
    ensures d.form.price != captured.price ==> UploadImage(d, captured, file, Ok(url)).form.price != d.form.price
  {
  }

  /** The remove button on the preview clears the image and the preview; the
      other fields of the form stay as typed. */
  function RemoveImage(d: Dialog): (r: Dialog)
    ensures r.form.imageUrl == "" && r.preview.None?
    ensures r.form == d.form.(imageUrl := "")
    ensures r.editing == d.editing && r.open == d.open
  {
    d.(form := d.form.(imageUrl := ""), preview := None)
  }

  /** The discount input: `Number(value) || 0`. */
  function DiscountInput(text: string): (d: int)
    ensures ParseNumber(text).NaN? ==> d == 0
    ensures ParseNumber(text).Num? ==> d == ParseNumber(text).v
    ensures Blank(text) ==> d == 0
  {
    ParseNumber(text).OrZero()
  }

  /** The original-price input: `value ? Number(value) : null`. */
  function OriginalPriceInput(text: string): (r: Option<JsNumber>)
    ensures r.None? <==> text == ""
    ensures r.Some? ==> r.value == ParseNumber(text)
  {
    if text == "" then None else Some(ParseNumber(text))
  }

  /** What is typed into the two inputs reads back as typed. */
  lemma DiscountInputsRoundTrip(n: nat)
    ensures DiscountInput(ShowNat(n)) == n
    ensures OriginalPriceInput(ShowNat(n)) == Some(Num(n))
  {
    ParseShowNat(n);
  }

  /** `Math.round(original * (1 - discount / 100))`, computed exactly:
      half-way cases round up. */
  function DiscountedPrice(original: int, discount: int): (p: int)
    ensures 0 <= discount <= 100 && original >= 0 ==> 0 <= p <= original
    ensures discount == 0 ==> p == original
  {
    (2 * original * (100 - discount) + 100) / 200
  }

  /** The "Discounted:" hint as the form writes it:
      `form.original_price && form.discount_percentage > 0 && (...)`. An
      original price of 0 is the value of the expression, and React prints it. */
  function DiscountHintAsWritten(f: ProductForm): (s: Slot<int>)
    ensures s.Stray? <==> f.originalPrice == Some(Num(0))
    ensures s.Stray? ==> s.text == "0"
    ensures s.Element? <==>
      (f.originalPrice.Some? && f.originalPrice.value.Num? && f.originalPrice.value.v != 0 && f.discountPercentage > 0)
  {
    match f.originalPrice
    case None => Nothing
    // The input has `type="number"`, so the browser hands over only text that
    // parses; `NaN` stands for the decimal and exponent input the model does
    // not read, and is left without a hint.
    case Some(NaN) => Nothing
    case Some(Num(o)) =>
      if o == 0 then Stray("0")
      else if f.discountPercentage > 0 then Element(DiscountedPrice(o, f.discountPercentage))
      else Nothing
  }

  /** Typing "0" as the original price puts a stray "0" under the discount field. */
  lemma ZeroOriginalPriceShowsStrayZero(f: ProductForm)
    requires f.originalPrice == OriginalPriceInput("0")
    ensures DiscountHintAsWritten(f) == Stray("0")
  {
    ParseShowNat(0);
    assert ShowNat(0) == "0";
  }

  /** The hint as intended: the discounted price when an original price is set
      (a zero price counting as unset) and the discount is positive. */
  function DiscountHint(f: ProductForm): (s: Slot<int>)
    ensures Clean(s)
    ensures s.Element? <==>
      (f.originalPrice.Some? && f.originalPrice.value.Num? && f.originalPrice.value.v != 0 && f.discountPercentage > 0)
    ensures !DiscountHintAsWritten(f).Stray? ==> s == DiscountHintAsWritten(f)
  {
    match f.originalPrice
    case Some(Num(o)) =>
      if o != 0 && f.discountPercentage > 0 then Element(DiscountedPrice(o, f.discountPercentage)) else Nothing
    case _ => Nothing
  }

  /** What `handleSave` asks of the backend. */
  datatype SaveRequest = UpdateRow(id: string, form: ProductForm) | InsertRow(form: ProductForm)

  /** An update when the edited product has an id, an insert otherwise. There
      is no guard: an empty form is sent as it is. */
  function SaveRequestOf(d: Dialog): (q: SaveRequest)
    ensures q.UpdateRow? <==> d.editing.Some? && d.editing.value.id != ""
    ensures q.UpdateRow? ==> q.id == d.editing.value.id
    ensures q.form == d.form
  {
    if d.editing.Some? && d.editing.value.id != "" then UpdateRow(d.editing.value.id, d.form)
    else InsertRow(d.form)
  }

  /** `handleSave`: the dialog closes only when the backend accepts the request. */
  function Save(d: Dialog, backendOk: bool): (r: Dialog)
    ensures r.open <==> d.open && !backendOk
    ensures r.form == d.form && r.editing == d.editing
  {
    if backendOk then d.(open := false) else d
  }

  /** Opening a new product and saving it inserts the defaults; reopening an
      existing product and saving it updates that product's row. */
  lemma SaveTargetsDialog(p: Product)
    ensures SaveRequestOf(OpenDialog(None)) == InsertRow(EmptyProductForm)
    ensures p.id != "" ==> SaveRequestOf(OpenDialog(Some(p))) == UpdateRow(p.id, FormOf(p))
  {
  }

  /** The product save has no image guard: after a removal the save still goes
      through, and the row it writes has an empty image, so the card falls
      back to its placeholder. */
  lemma RemovedImageIsSaved(d: Dialog, backendOk: bool)
    ensures SaveRequestOf(RemoveImage(d)).form == d.form.(imageUrl := "")
    ensures Save(RemoveImage(d), backendOk).open <==> d.open && !backendOk
  {
  }

  /** `handleDelete(id)`, on the list the page shows after its refetch. */
  function DeleteProduct(products: seq<Product>, id: string, confirmed: bool, backendOk: bool): seq<Product> {
    DeleteById(products, (p: Product) => p.id, id, confirmed, backendOk)
  }

  /** The search: the lower-cased query in the lower-cased name. */
  predicate NameMatches(p: Product, query: string) {
    Contains(Lower(p.name), Lower(query))
  }

  /** `filteredProducts`: the matching products, in list order. */
  function FilterProducts(products: seq<Product>, query: string): (r: seq<Product>)
    ensures IsSubsequence(r, products)
    ensures forall i :: 0 <= i < |r| ==> r[i] in products && NameMatches(r[i], query)
    ensures forall i :: 0 <= i < |products| && NameMatches(products[i], query) ==> products[i] in r
  {
    var keep := (p: Product) => NameMatches(p, query);
    FilterIsSubsequence(products, keep);
    Filter(products, keep)
  }

  /** An empty search keeps every product, in order. */
  lemma {:induction false} EmptySearchKeepsAll(products: seq<Product>)
    ensures FilterProducts(products, "") == products
  {
    var keep := (p: Product) => NameMatches(p, "");
    forall i | 0 <= i < |products|
      ensures keep(products[i])
    {
      assert Lower("") == [];
      ContainsEmpty(Lower(products[i].name));
    }
    FilterKeepsAll(products, keep);
  }
}
