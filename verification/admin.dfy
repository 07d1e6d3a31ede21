/**
  The administrative product routes behind the multipart form: every form
  field arrives as text, so price and stock go through `Number(...)`. The
  image is set only from an uploaded file (its URL is given as `upload`).
 */
module AdminRoutes {
  import opened Wrappers
  import opened Schema
  import opened JsText

  type Catalog = map<Id, Product>

  /** The text fields of the product form; `None` for a field not sent. */
  datatype ProductForm = ProductForm(
    name: Option<string>, price: Option<string>, category: Option<string>,
    description: Option<string>, stock: Option<string>)

  datatype AdminError =
    | FieldsRequired
    | NegativePrice
    | NegativeStock
      /** A price or stock text that the store cannot cast to a number. */
    | InvalidNumber
      /** The update failed the schema's `required` check. */
    | ValidationFailed
    | ProductNotFound

  /** JavaScript truthiness of an optional text: absent and `""` are falsy. */
  predicate Truthy(t: Option<string>) {
    t.Some? && t.value != ""
  }

  /** `field < 0` for a text field: the text is converted with `Number`, and
      an absent field or NaN compares false. */
  predicate BelowZero(t: Option<string>) {
    t.Some? && ToNumber(t.value).Num? && ToNumber(t.value).n < 0
  }

  /** `Number(stock) || 0`: absent, non-numeric or zero stock is 0. */
  function StockOrZero(t: Option<string>): (n: int)
    ensures t.None? || ToNumber(t.value).NaN? ==> n == 0
    ensures t.Some? && ToNumber(t.value).Num? ==> n == ToNumber(t.value).n
  {
    if t.Some? && ToNumber(t.value).Truthy() then ToNumber(t.value).n else 0
  }

  /** The price and stock texts of an update survive the cast: a sent,
      non-empty price is numeric, and so is a sent stock. An empty price is
      not converted; it is cast to null and left to `KeepsRequired`. */
  predicate NumbersReadable(form: ProductForm) {
    && (form.price.Some? && form.price.value != "" ==> ToNumber(form.price.value).Num?)
    && (form.stock.Some? ==> ToNumber(form.stock.value).Num?)
  }

  /** An update does not blank a required field: an empty name or category,
      or an empty price text, which the store casts to null. */
  predicate KeepsRequired(form: ProductForm) {
    form.name != Some("") && form.category != Some("") && form.price != Some("")
  }

  /** `POST /admin/products`. */
  function AdminCreate(catalog: Catalog, id: Id, form: ProductForm, upload: Option<string>, now: Millis)
    : (r: Result<Catalog, AdminError>)
    requires id !in catalog
    ensures !Truthy(form.name) || !Truthy(form.price) || !Truthy(form.category) ==> r == Err(FieldsRequired)
    ensures Truthy(form.name) && Truthy(form.price) && Truthy(form.category) ==>
      && (BelowZero(form.price) ==> r == Err(NegativePrice))
      && (!BelowZero(form.price) && BelowZero(form.stock) ==> r == Err(NegativeStock))
      && (!BelowZero(form.price) && !BelowZero(form.stock) ==>
            && (ToNumber(form.price.value).NaN? ==> r == Err(InvalidNumber))
            && (ToNumber(form.price.value).Num? ==> r.Ok?))
    ensures r.Ok? ==>
      && id in r.value && r.value == catalog[id := r.value[id]]
      && var p := r.value[id];
      && ProductValid(p) && AvailabilityMatchesStock(p)
      && Some(p.name) == form.name && Some(p.category) == form.category
      && ToNumber(form.price.value) == Num(p.price)
      && p.stock == StockOrZero(form.stock)
      && p.image == upload && p.description == form.description && p.createdAt == now
  {
    if !Truthy(form.name) || !Truthy(form.price) || !Truthy(form.category) then Err(FieldsRequired)
    else if BelowZero(form.price) then Err(NegativePrice)
    else if BelowZero(form.stock) then Err(NegativeStock)
    else if ToNumber(form.price.value).NaN? then Err(InvalidNumber)
    else
      var stock := StockOrZero(form.stock);
      Ok(catalog[id := NewProduct(form.name.value, ToNumber(form.price.value).n, form.category.value,
                                  upload, form.description, Some(stock), Some(stock > 0), now)])
  }

  /** A non-empty price text that reads as zero is truthy, so it passes the
      required-field check; a stock text that is not a number is stored as 0. */
  lemma AdminCreateZeroPrice(name: string, price: string, category: string, stock: string)
    requires name != "" && price != "" && category != ""
    requires ToNumber(price) == Num(0) && ToNumber(stock).NaN?
    ensures var form := ProductForm(Some(name), Some(price), Some(category), None, Some(stock));
      var r := AdminCreate(map[], "w", form, None, 0);
      r.Ok? && r.value["w"].price == 0 && r.value["w"].stock == 0 && !r.value["w"].isAvailable
  {
  }

  /** The text `"0"` reads as zero, so it meets `AdminCreateZeroPrice`. */
  lemma ZeroText()
    ensures ToNumber("0") == Num(0)
  {
    TrimOfTrimmed("0");
    assert IsDigits("0") && DigitsValue("0") == 0;
  }

  /** The product after a form patch: price and stock converted, availability
      recomputed from a supplied stock, image replaced only by an upload. */
  function ApplyForm(p: Product, form: ProductForm, upload: Option<string>): (q: Product)
    requires form.price.Some? ==> ToNumber(form.price.value).Num?
    requires form.stock.Some? ==> ToNumber(form.stock.value).Num?
    ensures form.stock.Some? ==> q.stock == ToNumber(form.stock.value).n && q.isAvailable == (q.stock > 0)
    ensures form.stock.None? ==> q.stock == p.stock && q.isAvailable == p.isAvailable
    ensures form.price.Some? ==> q.price == ToNumber(form.price.value).n
    ensures form.price.None? ==> q.price == p.price
    ensures upload.None? ==> q.image == p.image
    ensures upload.Some? ==> q.image == upload
    ensures q.name == form.name.GetOr(p.name) && q.category == form.category.GetOr(p.category)
    ensures form.description.Some? ==> q.description == form.description
    ensures form.description.None? ==> q.description == p.description
    ensures q.createdAt == p.createdAt
  {
    var stock := if form.stock.Some? then ToNumber(form.stock.value).n else p.stock;
    Product(
      form.name.GetOr(p.name),
      if form.price.Some? then ToNumber(form.price.value).n else p.price,
      form.category.GetOr(p.category),
      if upload.Some? then upload else p.image,
      if form.description.Some? then form.description else p.description,
      stock,
      if form.stock.Some? then stock > 0 else p.isAvailable,
      p.createdAt)
  }

  /** `PATCH /admin/products/:id`. A price is converted only when truthy; an
      empty price text is cast to null and then refused as missing, a price
      or stock that is not a number is refused by the cast. */
  function AdminPatch(catalog: Catalog, id: Id, form: ProductForm, upload: Option<string>)
    : (r: Result<Catalog, AdminError>)
    ensures BelowZero(form.price) ==> r == Err(NegativePrice)
    ensures !BelowZero(form.price) && BelowZero(form.stock) ==> r == Err(NegativeStock)
    ensures r.Ok? ==>
      && id in catalog
      && (form.price.Some? ==> ToNumber(form.price.value).Num? && form.price.value != "")
      && (form.stock.Some? ==> ToNumber(form.stock.value).Num?)
      && r.value == catalog[id := ApplyForm(catalog[id], form, upload)]
    ensures r.Err? && r.error == ProductNotFound ==> id !in catalog
    ensures r == Err(InvalidNumber) <==>
      !BelowZero(form.price) && !BelowZero(form.stock) && !NumbersReadable(form)
    ensures r == Err(ValidationFailed) <==>
      !BelowZero(form.price) && !BelowZero(form.stock) && NumbersReadable(form) && !KeepsRequired(form)
    ensures !BelowZero(form.price) && !BelowZero(form.stock) && NumbersReadable(form) && KeepsRequired(form) ==>
      && (id in catalog ==> r.Ok?)
      && (id !in catalog ==> r == Err(ProductNotFound))
  {
    if BelowZero(form.price) then Err(NegativePrice)
    else if BelowZero(form.stock) then Err(NegativeStock)
    else if form.price.Some? && form.price.value != "" && ToNumber(form.price.value).NaN? then Err(InvalidNumber)
    else if form.stock.Some? && ToNumber(form.stock.value).NaN? then Err(InvalidNumber)
    else if form.name == Some("") || form.category == Some("") || form.price == Some("") then Err(ValidationFailed)
    else if id !in catalog then Err(ProductNotFound)
    else Ok(catalog[id := ApplyForm(catalog[id], form, upload)])
  }

  /** An accepted form patch keeps the product within its schema, and keeps
      availability in step with stock when it was before or when the patch
      supplied stock. */
  lemma AdminPatchKeepsInvariants(catalog: Catalog, id: Id, form: ProductForm, upload: Option<string>)
    requires AdminPatch(catalog, id, form, upload).Ok?
    requires ProductValid(catalog[id])
    ensures var p := AdminPatch(catalog, id, form, upload).value[id];
      && ProductValid(p)
      && (form.stock.Some? ==> AvailabilityMatchesStock(p))
      && (AvailabilityMatchesStock(catalog[id]) ==> AvailabilityMatchesStock(p))
  {
  }

  /** An emptied price is refused by the schema's `required` check, like an
      emptied name, unless a stock text fails its cast first. */
  lemma EmptyPriceIsRequiredFailure(catalog: Catalog, id: Id, form: ProductForm, upload: Option<string>)
    requires form.price == Some("")
    ensures !BelowZero(form.stock) && (form.stock.Some? ==> ToNumber(form.stock.value).Num?) ==>
      AdminPatch(catalog, id, form, upload) == Err(ValidationFailed)
    ensures form.stock.Some? && ToNumber(form.stock.value).NaN? ==>
      AdminPatch(catalog, id, form, upload) == Err(InvalidNumber)
  {
    assert !BelowZero(form.price) by { TrimOfTrimmed(""); }
  }
}
