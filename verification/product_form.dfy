/** The admin product form: its initial values, per-field edits with error
    clearing, validation, the numeric inputs, and what a submission sends. */
module ProductForm {
  import opened Wrappers
  import opened Text
  import opened Products

  datatype FormData = FormData(
    title: string,
    author: string,
    description: string,
    price: int,
    category: Category,
    stock: int,
    isActive: bool)

  /** The form's initial values: the product's, with absent text as the
      empty string, and `isActive` defaulting to true only when there is no
      product (an inactive product stays inactive). */
  function InitialForm(product: Option<Product>): (f: FormData)
    ensures product.None? ==> f == FormData("", "", "", 0, Books, 0, true)
    ensures product.Some? ==> f.isActive == product.value.isActive
  {
    match product
    case None => FormData("", "", "", 0, Books, 0, true)
    case Some(p) => FormData(p.title, p.author.GetOr(""), p.description.GetOr(""),
                             p.price, p.category, p.stock, p.isActive)
  }

  // ----------------------------------------------------------------- fields

  datatype Field = Title | Author | Description | Price | Category | Stock | IsActive

  datatype FieldValue =
    | TextValue(text: string)
    | NumberValue(number: int)
    | CategoryValue(category: Category)
    | FlagValue(flag: bool)

  /** The value the form holds for a field. */
  function Get(f: FormData, field: Field): FieldValue {
    match field
    case Title => TextValue(f.title)
    case Author => TextValue(f.author)
    case Description => TextValue(f.description)
    case Price => NumberValue(f.price)
    case Category => CategoryValue(f.category)
    case Stock => NumberValue(f.stock)
    case IsActive => FlagValue(f.isActive)
  }

  /** One input event: a field and a value of that field's kind. */
  datatype Edit =
    | EditTitle(text: string)
    | EditAuthor(text: string)
    | EditDescription(text: string)
    | EditPrice(number: int)
    | EditCategory(category: Category)
    | EditStock(number: int)
    | EditActive(flag: bool)
  {
    function Field(): Field {
      match this
      case EditTitle(_) => Title
      case EditAuthor(_) => Author
      case EditDescription(_) => Description
      case EditPrice(_) => Price
      case EditCategory(_) => Category
      case EditStock(_) => Stock
      case EditActive(_) => IsActive
    }

    function Value(): FieldValue {
      match this
      case EditTitle(s) => TextValue(s)
      case EditAuthor(s) => TextValue(s)
      case EditDescription(s) => TextValue(s)
      case EditPrice(n) => NumberValue(n)
      case EditCategory(c) => CategoryValue(c)
      case EditStock(n) => NumberValue(n)
      case EditActive(b) => FlagValue(b)
    }
  }

  /** Error messages by field; an empty message counts as no error. */
  type Errors = map<Field, string>

  /** `errors[field]` is truthy. */
  predicate HasError(errors: Errors, field: Field) {
    field in errors && errors[field] != ""
  }

  function SetField(f: FormData, e: Edit): FormData {
    match e
    case EditTitle(s) => f.(title := s)
    case EditAuthor(s) => f.(author := s)
    case EditDescription(s) => f.(description := s)
    case EditPrice(n) => f.(price := n)
    case EditCategory(c) => f.(category := c)
    case EditStock(n) => f.(stock := n)
    case EditActive(b) => f.(isActive := b)
  }

  /** `handleInputChange`: the edited field takes the new value and its
      error, if one is showing, is blanked; every other field and error is
      left as it was. */
  function HandleInputChange(f: FormData, errors: Errors, e: Edit): (r: (FormData, Errors))
    ensures Get(r.0, e.Field()) == e.Value()
    ensures forall field :: field != e.Field() ==> Get(r.0, field) == Get(f, field)
    ensures !HasError(r.1, e.Field())
    ensures r.1.Keys == errors.Keys
    ensures forall field :: field in errors && field != e.Field() ==> r.1[field] == errors[field]
  {
    var errors' := if HasError(errors, e.Field()) then errors[e.Field() := ""] else errors;
    (SetField(f, e), errors')
  }

  // ------------------------------------------------------------- validation

  const TitleRequired := "Title is required"
  const PriceNegative := "Price must be a positive number"
  const StockNegative := "Stock must be a positive number"

  /** The errors `validateForm` records. */
  function Validate(f: FormData): (errors: Errors)
    ensures Title in errors <==> Trim(f.title) == ""
    ensures Price in errors <==> f.price < 0
    ensures Stock in errors <==> f.stock < 0
    ensures errors.Keys <= {Title, Price, Stock}
    ensures Title in errors ==> errors[Title] == TitleRequired
    ensures Price in errors ==> errors[Price] == PriceNegative
    ensures Stock in errors ==> errors[Stock] == StockNegative
  {
    var e0: Errors := map[];
    var e1 := if Trim(f.title) == "" then e0[Title := TitleRequired] else e0;
    var e2 := if f.price < 0 then e1[Price := PriceNegative] else e1;
    if f.stock < 0 then e2[Stock := StockNegative] else e2
  }

  /** No error is recorded iff the trimmed title is non-empty and neither
      price nor stock is negative; a price of zero is accepted. */
  lemma ValidIff(f: FormData)
    ensures |Validate(f)| == 0 <==> Trim(f.title) != "" && f.price >= 0 && f.stock >= 0
  {
    if Trim(f.title) == "" {
      assert Title in Validate(f);
    }
    if f.price < 0 {
      assert Price in Validate(f);
    }
    if f.stock < 0 {
      assert Stock in Validate(f);
    }
  }

  /** `validateForm()`: true iff no error was recorded, that is iff the
      title is not blank and neither price nor stock is negative. */
  function ValidateForm(f: FormData): (ok: bool)
    ensures ok <==> Trim(f.title) != "" && f.price >= 0 && f.stock >= 0
  {
    ValidIff(f);
    |Validate(f)| == 0
  }

  /** Correcting a field after a failed validation hides exactly that
      field's message. */
  lemma EditClearsOnlyItsError(f: FormData, e: Edit)
    ensures var r := HandleInputChange(f, Validate(f), e);
      !HasError(r.1, e.Field()) &&
      forall field :: field != e.Field() ==> (HasError(r.1, field) <==> HasError(Validate(f), field))
  {
  }

  // ---------------------------------------------------------- number inputs

  /** `parseInt(text) || 0`: the leading whole number, or zero when the
      text does not start with one. The price box uses `parseFloat`, whose
      fraction and exponent are not modelled. */
  function NumberInput(text: string): int {
    match ParseInt(text)
    case Some(n) => n
    case None => 0
  }

  /** A typed number reads back as itself. */
  lemma NumberInputRoundTrip(n: int)
    ensures NumberInput(IntToString(n)) == n
  {
    ParseIntRoundTrip(n);
  }

  /** An empty box, or text that starts with something other than a blank,
      a sign or a digit, reads as zero. */
  lemma NumberInputFallback(text: string)
    requires text == [] || (!IsSpace(text[0]) && !IsDigit(text[0]) && text[0] != '-' && text[0] != '+')
    ensures NumberInput(text) == 0
  {
    assert TrimStart(text) == text;
  }

  // ------------------------------------------------------------- submission

  /** A request the form makes through the products hook. */
  datatype SaveRequest =
    | UploadRequest(fileName: string, productId: Option<string>)
    | UpdateRequest(id: string, patch: ProductPatch)
    | CreateRequest(data: NewProduct)

  /** What a submission did: the errors shown, the requests made in order,
      and whether `onSuccess` was called. */
  datatype SubmitOutcome = SubmitOutcome(errors: Errors, requests: seq<SaveRequest>, succeeded: bool)

  /** The form's values plus the image as an update: every form field is
      written, the image only when there is one. */
  function FormPatch(f: FormData, imageUrl: Option<string>): ProductPatch {
    ProductPatch(Some(f.title), Some(f.author), Some(f.description), Some(f.price),
                 Some(f.category), Some(f.stock), imageUrl, Some(f.isActive))
  }

  function FormNewProduct(f: FormData, imageUrl: Option<string>): NewProduct {
    NewProduct(f.title, f.author, f.description, f.price, f.category, f.stock, imageUrl, f.isActive)
  }

  /** The image URL a save request writes; an upload writes none. */
  function SavedImage(req: SaveRequest): Option<string> {
    match req
    case UploadRequest(_, _) => None
    case UpdateRequest(_, patch) => patch.imageUrl
    case CreateRequest(data) => data.imageUrl
  }

  /** `handleSubmit`. The hook's answers are inputs: `uploaded` is the result
      of uploading `imageFile` (consulted only when a file was chosen) and
      `saveOk` whether the create or update came back without an error. */
  function Submit(product: Option<Product>, f: FormData, imageFile: Option<string>,
                  uploaded: Result<string, string>, saveOk: bool): (r: SubmitOutcome)
    ensures r.errors == Validate(f)
    ensures !ValidateForm(f) ==> r.requests == [] && !r.succeeded
    ensures ValidateForm(f) && imageFile.Some? ==>
      |r.requests| >= 1 && r.requests[0] == UploadRequest(imageFile.value, if product.Some? then Some(product.value.id) else None)
    ensures ValidateForm(f) && imageFile.Some? && uploaded.Failure? ==> |r.requests| == 1 && !r.succeeded
    ensures ValidateForm(f) && (imageFile.None? || uploaded.Success?) ==>
      |r.requests| == (if imageFile.Some? then 2 else 1) && (r.succeeded <==> saveOk) &&
      (product.Some? ==> r.requests[|r.requests| - 1].UpdateRequest? && r.requests[|r.requests| - 1].id == product.value.id) &&
      (product.None? ==> r.requests[|r.requests| - 1].CreateRequest?)
  {
    if !ValidateForm(f) then SubmitOutcome(Validate(f), [], false)
    else
      var upload := UploadRequest(imageFile.GetOr(""), if product.Some? then Some(product.value.id) else None);
      if imageFile.Some? && uploaded.Failure? then SubmitOutcome(Validate(f), [upload], false)
      else
        var save := SaveFor(product, f, ImageFor(product, imageFile, uploaded));
        SubmitOutcome(Validate(f), if imageFile.Some? then [upload, save] else [save], saveOk)
  }

  /** The image URL a save writes: the uploaded one when a file was chosen,
      else the product's current one. */
  function ImageFor(product: Option<Product>, imageFile: Option<string>,
                    uploaded: Result<string, string>): Option<string>
    requires imageFile.None? || uploaded.Success?
  {
    if imageFile.Some? then Some(uploaded.value)
    else if product.Some? then product.value.imageUrl
    else None
  }

  /** The update of the product being edited, or the create of a new one. */
  function SaveFor(product: Option<Product>, f: FormData, imageUrl: Option<string>): SaveRequest {
    if product.Some? then UpdateRequest(product.value.id, FormPatch(f, imageUrl))
    else CreateRequest(FormNewProduct(f, imageUrl))
  }

  /** The save request of a valid submission writes every form field, and
      as image the freshly uploaded URL, else the product's current image,
      else none. */
  lemma SubmitSavesFormAndImage(product: Option<Product>, f: FormData, imageFile: Option<string>,
                                uploaded: Result<string, string>, saveOk: bool)
    requires ValidateForm(f) && (imageFile.None? || uploaded.Success?)
    ensures var r := Submit(product, f, imageFile, uploaded, saveOk);
      var save := r.requests[|r.requests| - 1];
      (product.Some? ==> save.UpdateRequest? && save == UpdateRequest(product.value.id, FormPatch(f, save.patch.imageUrl))) &&
      (product.None? ==> save.CreateRequest? && save == CreateRequest(FormNewProduct(f, save.data.imageUrl))) &&
      (imageFile.Some? ==> SavedImage(save) == Some(uploaded.value)) &&
      (imageFile.None? && product.Some? ==> SavedImage(save) == product.value.imageUrl) &&
      (imageFile.None? && product.None? ==> SavedImage(save) == None)
  {
    var save := SaveFor(product, f, ImageFor(product, imageFile, uploaded));
    var r := Submit(product, f, imageFile, uploaded, saveOk);
    assert r.requests[|r.requests| - 1] == save;
  }

  /** Opening a product with an author and a description and saving it
      unchanged, without a new image, writes back exactly what was there. */
  lemma UnchangedSaveIsIdentity(p: Product)
    requires p.author.Some? && p.description.Some?
    ensures ApplyPatch(p, FormPatch(InitialForm(Some(p)), p.imageUrl)) == p
  {
  }

  /** An absent author is written back as the empty string. */
  lemma UnchangedSaveFillsAuthor(p: Product)
    requires p.author.None?
    ensures ApplyPatch(p, FormPatch(InitialForm(Some(p)), p.imageUrl)).author == Some("")
  {
  }
}
