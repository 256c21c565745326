/** The product dialog: the form's starting values (blank, or taken from the
    product being edited), its validation rules, and the record that a
    submit adds to or merges into the "products" collection. */
module ProductDialog {
  import opened Seqs
  import opened Records

  /** The status preselected for a new product ("new"). */
  const DefaultStatus: string := "Mới"

  /** The form's values. A number field is `None` while it holds the empty
      string; `imageFile` is the chosen file, if any. */
  datatype ProductForm = ProductForm(
    brand: string,
    categoryId: string,
    color: string,
    storage: string,
    battery: Option<int>,
    buyingPrice: Option<int>,
    sellingPrice: Option<int>,
    imageFile: Option<string>,
    status: string,
    note: string,
    isSelling: bool,
    createdAt: Timestamp)

  /** The fields the schema checks. */
  datatype Field = Brand | CategoryId | Color | Storage | Battery | BuyingPrice | SellingPrice

  // ---------------------------------------------------------------------
  // Starting values.
  // ---------------------------------------------------------------------

  /** `x || ""` on a stored number: a missing value and 0 both read as the
      empty field. */
  function NumberField(x: Option<int>): (r: Option<int>)
    ensures r.Some? <==> x.Some? && x.value != 0
    ensures r.Some? ==> r == x
  {
    match x
    case Some(n) => if n != 0 then x else None
    case None => None
  }

  /** `initialValues`: the edited product's fields, with the empty string for
      a missing or falsy one, status "Mới" by default, no image, not sold,
      and the product's creation time or else now. */
  function InitialValues(editing: Option<Product>, now: Timestamp): (v: ProductForm)
    ensures editing.None? ==> v == ProductForm("", "", "", "", None, None, None, None, DefaultStatus, "", false, now)
    ensures editing.Some? ==>
      var p := editing.value;
      && v.brand == p.brand.GetOr("") && v.categoryId == p.categoryId.GetOr("")
      && v.color == p.color.GetOr("") && v.storage == p.storage.GetOr("")
      && v.note == p.note.GetOr("")
      && v.battery == NumberField(p.battery)
      && v.buyingPrice == NumberField(p.buyingPrice) && v.sellingPrice == NumberField(p.sellingPrice)
      && v.status == Or(p.status, DefaultStatus)
      && (v.status == DefaultStatus <==> p.status == None || p.status == Some("") || p.status == Some(DefaultStatus))
      && v.createdAt == p.createdAt.GetOr(now)
    ensures v.imageFile == None && !v.isSelling
  {
    match editing
    case None => ProductForm("", "", "", "", None, None, None, None, DefaultStatus, "", false, now)
    case Some(p) =>
      ProductForm(Or(p.brand, ""), Or(p.categoryId, ""), Or(p.color, ""), Or(p.storage, ""),
                  NumberField(p.battery), NumberField(p.buyingPrice), NumberField(p.sellingPrice),
                  None, Or(p.status, DefaultStatus), Or(p.note, ""), false, p.createdAt.GetOr(now))
  }

  // ---------------------------------------------------------------------
  // Validation.
  // ---------------------------------------------------------------------

  /** `validationSchema`: the four text fields are required and non-empty,
      the three numbers are required, and the battery lies in 0..100. */
  function Errors(v: ProductForm): (e: set<Field>)
    ensures Brand in e <==> v.brand == ""
    ensures CategoryId in e <==> v.categoryId == ""
    ensures Color in e <==> v.color == ""
    ensures Storage in e <==> v.storage == ""
    ensures Battery in e <==> v.battery.None? || v.battery.value < 0 || v.battery.value > 100
    ensures BuyingPrice in e <==> v.buyingPrice.None?
    ensures SellingPrice in e <==> v.sellingPrice.None?
  {
    (if v.brand == "" then {Brand} else {})
    + (if v.categoryId == "" then {CategoryId} else {})
    + (if v.color == "" then {Color} else {})
    + (if v.storage == "" then {Storage} else {})
    + (match v.battery
       case Some(b) => if 0 <= b <= 100 then {} else {Battery}
       case None => {Battery})
    + (if v.buyingPrice.None? then {BuyingPrice} else {})
    + (if v.sellingPrice.None? then {SellingPrice} else {})
  }

  predicate Valid(v: ProductForm)
  {
    Errors(v) == {}
  }

  /** A form passes exactly when every required field is filled in and the
      battery is a percentage. */
  lemma ValidIff(v: ProductForm)
    ensures Valid(v) <==>
      && v.brand != "" && v.categoryId != "" && v.color != "" && v.storage != ""
      && v.battery.Some? && 0 <= v.battery.value <= 100
      && v.buyingPrice.Some? && v.sellingPrice.Some?
  {
    if !Valid(v) {
      var f :| f in Errors(v);
    }
  }

  /** A blank form for a new product does not pass. */
  lemma BlankFormInvalid(now: Timestamp)
    ensures Errors(InitialValues(None, now)) == {Brand, CategoryId, Color, Storage, Battery, BuyingPrice, SellingPrice}
  {
    var e := Errors(InitialValues(None, now));
    forall f ensures f in e {
      match f
      case Brand =>
      case CategoryId =>
      case Color =>
      case Storage =>
      case Battery =>
      case BuyingPrice =>
      case SellingPrice =>
    }
  }

  /** Editing a product stored with battery 0, which the schema accepts,
      opens a form that the schema rejects: `|| ""` turns the 0 into an
      empty field. The same holds for a price of 0. */
  lemma ZeroReopensInvalid(p: Product, now: Timestamp)
    requires p.battery == Some(0) || p.buyingPrice == Some(0) || p.sellingPrice == Some(0)
    ensures !Valid(InitialValues(Some(p), now))
  {
    var v := InitialValues(Some(p), now);
    if p.battery == Some(0) {
      assert Battery in Errors(v);
    } else if p.buyingPrice == Some(0) {
      assert BuyingPrice in Errors(v);
    } else {
      assert SellingPrice in Errors(v);
    }
  }

  // ---------------------------------------------------------------------
  // Submitting.
  // ---------------------------------------------------------------------

  /** What a submit writes: the form without `imageFile`, with `imagePath`. */
  datatype ProductData = ProductData(
    brand: string,
    categoryId: string,
    color: string,
    storage: string,
    battery: int,
    buyingPrice: int,
    sellingPrice: int,
    status: string,
    note: string,
    isSelling: bool,
    createdAt: Timestamp,
    imagePath: string)

  datatype SubmitOutcome =
    | Rejected(errors: set<Field>)      // validation failed: onSubmit does not run
    | Failed                            // the upload or the write threw: an alert, nothing written
    | Added(data: ProductData)          // addDoc of a new product
    | Updated(id: string, data: ProductData)  // updateDoc of the edited product

  /** `{ ...productData, imagePath }` for a form that passed validation. */
  function Payload(v: ProductForm, imagePath: string): (d: ProductData)
    requires Valid(v)
    ensures d.brand == v.brand && d.categoryId == v.categoryId && d.color == v.color && d.storage == v.storage
    ensures Some(d.battery) == v.battery && Some(d.buyingPrice) == v.buyingPrice && Some(d.sellingPrice) == v.sellingPrice
    ensures d.status == v.status && d.note == v.note && d.isSelling == v.isSelling && d.createdAt == v.createdAt
    ensures d.imagePath == imagePath
  {
    ValidIff(v);
    ProductData(v.brand, v.categoryId, v.color, v.storage, v.battery.value, v.buyingPrice.value,
                v.sellingPrice.value, v.status, v.note, v.isSelling, v.createdAt, imagePath)
  }

  /** Validation, then `onSubmit`. `uploaded` is what `handleUploadImage`
      gives for the chosen file (`None` if it throws); `writeSucceeds` says
      whether the store accepts the write. */
  function Submit(v: ProductForm, editing: Option<Product>, uploaded: Option<string>, writeSucceeds: bool): (r: SubmitOutcome)
    ensures r.Rejected? <==> !Valid(v)
    ensures r.Rejected? ==> r.errors == Errors(v)
    ensures r.Failed? <==> Valid(v) && ((v.imageFile.Some? && uploaded.None?) || !writeSucceeds)
    ensures r.Added? ==> editing.None?
    ensures r.Updated? ==> editing.Some? && r.id == editing.value.id
    ensures (r.Added? || r.Updated?) ==>
      && Valid(v)
      && r.data == Payload(v, if v.imageFile.Some? then uploaded.value
                              else if editing.Some? then Or(editing.value.imagePath, "") else "")
  {
    if !Valid(v) then Rejected(Errors(v))
    else
      var kept := if editing.Some? then Or(editing.value.imagePath, "") else "";
      if v.imageFile.Some? && uploaded.None? then Failed
      else
        var imagePath := if v.imageFile.Some? then uploaded.value else kept;
        if !writeSucceeds then Failed
        else if editing.Some? then Updated(editing.value.id, Payload(v, imagePath))
        else Added(Payload(v, imagePath))
  }

  /** The document as stored: a new one under `id`, or the edited one with
      every written field replaced (`updateDoc` merges, and the payload
      writes every field). */
  function Stored(id: string, d: ProductData): (p: Product)
    ensures p.id == id && p.isSelling == d.isSelling && p.createdAt == Some(d.createdAt)
  {
    Product(id, Some(d.brand), Some(d.categoryId), Some(d.color), Some(d.storage), Some(d.battery),
            Some(d.buyingPrice), Some(d.sellingPrice), Some(d.status), Some(d.note), d.isSelling,
            Some(d.createdAt), Some(d.imagePath))
  }

  /** Reopening a saved product shows the form that was saved, without its
      file, provided no number was 0 and the status was not emptied. */
  lemma {:induction false} ReopenShowsSaved(v: ProductForm, editing: Option<Product>, uploaded: Option<string>,
                                            id: string, now: Timestamp)
    requires Valid(v) && !v.isSelling
    requires v.battery != Some(0) && v.buyingPrice != Some(0) && v.sellingPrice != Some(0)
    requires v.status != ""
    requires Submit(v, editing, uploaded, true).Added? || Submit(v, editing, uploaded, true).Updated?
    ensures InitialValues(Some(Stored(id, Submit(v, editing, uploaded, true).data)), now) == v.(imageFile := None)
  {
    ValidIff(v);
    var d := Submit(v, editing, uploaded, true).data;
    var p := Stored(id, d);
    var w := InitialValues(Some(p), now);
    assert NumberField(p.battery) == v.battery;
    assert NumberField(p.buyingPrice) == v.buyingPrice;
    assert NumberField(p.sellingPrice) == v.sellingPrice;
    assert w.status == v.status;
  }

  /** Saving the edit form of a sold product stores it as unsold: the form
      always starts with `isSelling` false and has no field for it. */
  lemma SaveUnmarksSold(p: Product, now: Timestamp, uploaded: Option<string>)
    requires p.isSelling
    requires Submit(InitialValues(Some(p), now), Some(p), uploaded, true).Updated?
    ensures !Stored(p.id, Submit(InitialValues(Some(p), now), Some(p), uploaded, true).data).isSelling
  {
  }

  /** A product saved without choosing a file keeps its image; a new product
      without a file gets the empty path. */
  lemma NoFileKeepsImage(v: ProductForm, editing: Option<Product>, uploaded: Option<string>)
    requires v.imageFile.None?
    requires Submit(v, editing, uploaded, true).Added? || Submit(v, editing, uploaded, true).Updated?
    ensures Submit(v, editing, uploaded, true).data.imagePath ==
      if editing.Some? then editing.value.imagePath.GetOr("") else ""
  {
  }

  /** A new product is created now, so it counts among this month's
      products once the month has begun. */
  lemma NewProductInMonth(v: ProductForm, uploaded: Option<string>, id: string, products: seq<Product>,
                          now: Timestamp, startOfMonth: Timestamp)
    requires v.createdAt == InitialValues(None, now).createdAt
    requires startOfMonth <= now
    requires Submit(v, None, uploaded, true).Added?
    ensures Stored(id, Submit(v, None, uploaded, true).data) in
      ProductsSince(products + [Stored(id, Submit(v, None, uploaded, true).data)], startOfMonth)
  {
  }
}
