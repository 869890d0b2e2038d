/** The checkout page: the customer form, when it may continue to payment,
    and the order summary built from the cart's lines. */
module Checkout {
  import opened Text
  import opened Cart

  datatype CheckoutForm = CheckoutForm(
    fullName: string,
    email: string,
    phone: string,
    address: string,
    pincode: string)

  const EmptyCheckoutForm := CheckoutForm("", "", "", "", "")

  /** The input names of the form. */
  datatype CheckoutField = FullName | Email | Phone | Address | Pincode

  function Get(f: CheckoutForm, field: CheckoutField): string {
    match field
    case FullName => f.fullName
    case Email => f.email
    case Phone => f.phone
    case Address => f.address
    case Pincode => f.pincode
  }

  /** `handleInputChange`: the input's value replaces the field it names. */
  function HandleInputChange(f: CheckoutForm, field: CheckoutField, value: string): (r: CheckoutForm)
    ensures Get(r, field) == value
    ensures forall other :: other != field ==> Get(r, other) == Get(f, other)
  {
    match field
    case FullName => f.(fullName := value)
    case Email => f.(email := value)
    case Phone => f.(phone := value)
    case Address => f.(address := value)
    case Pincode => f.(pincode := value)
  }

  /** `isFormValid`: every one of the five values is non-blank once trimmed. */
  predicate IsFormValid(f: CheckoutForm) {
    Trim(f.fullName) != "" && Trim(f.email) != "" && Trim(f.phone) != "" &&
    Trim(f.address) != "" && Trim(f.pincode) != ""
  }

  /** The form is valid exactly when no field holds only whitespace. */
  lemma ValidIffNoBlankField(f: CheckoutForm)
    ensures IsFormValid(f) <==> forall field :: !AllSpace(Get(f, field))
  {
    ValidHasNoBlank(f);
    NoBlankIsValid(f);
  }

  lemma ValidHasNoBlank(f: CheckoutForm)
    ensures IsFormValid(f) ==> forall field :: !AllSpace(Get(f, field))
  {
    forall field | IsFormValid(f)
      ensures !AllSpace(Get(f, field))
    {
      FieldNotBlank(f, field);
    }
  }

  lemma FieldNotBlank(f: CheckoutForm, field: CheckoutField)
    requires IsFormValid(f)
    ensures !AllSpace(Get(f, field))
  {
    TrimEmptyIff(Get(f, field));
  }

  lemma NoBlankIsValid(f: CheckoutForm)
    ensures (forall field :: !AllSpace(Get(f, field))) ==> IsFormValid(f)
  {
    TrimEmptyIff(Get(f, FullName));
    TrimEmptyIff(Get(f, Email));
    TrimEmptyIff(Get(f, Phone));
    TrimEmptyIff(Get(f, Address));
    TrimEmptyIff(Get(f, Pincode));
  }

  /** Typing into one field never changes whether another field is blank,
      so a valid form stays valid under any non-blank edit. */
  lemma NonBlankEditKeepsValid(f: CheckoutForm, field: CheckoutField, value: string)
    requires IsFormValid(f) && !AllSpace(value)
    ensures IsFormValid(HandleInputChange(f, field, value))
  {
    var g := HandleInputChange(f, field, value);
    forall other
      ensures !AllSpace(Get(g, other))
    {
      if other != field {
        FieldNotBlank(f, other);
      }
    }
    NoBlankIsValid(g);
  }

  /** A blank value in any field makes the form invalid. */
  lemma BlankEditInvalidates(f: CheckoutForm, field: CheckoutField, value: string)
    requires AllSpace(value)
    ensures !IsFormValid(HandleInputChange(f, field, value))
  {
    ValidIffNoBlankField(HandleInputChange(f, field, value));
  }

  /** One line of the order summary. */
  datatype SummaryLine = SummaryLine(title: string, price: int, quantity: int, lineTotal: int)

  function SummaryLines(items: seq<CartItem>): (r: seq<SummaryLine>)
    ensures |r| == |items|
    ensures forall i :: 0 <= i < |items| ==>
      r[i].title == items[i].line.title && r[i].price == items[i].line.price &&
      r[i].quantity == items[i].quantity && r[i].lineTotal == items[i].line.price * items[i].quantity
  {
    if items == [] then []
    else [SummaryLine(items[0].line.title, items[0].line.price, items[0].quantity,
                      items[0].line.price * items[0].quantity)] + SummaryLines(items[1..])
  }

  /** What the page shows: the empty-cart message, or the summary next to
      the form with its continue button enabled or not. */
  datatype CheckoutView =
    | EmptyCartView
    | FormView(lines: seq<SummaryLine>, continueDisabled: bool)

  function View(items: seq<CartItem>, f: CheckoutForm): (v: CheckoutView)
    ensures v.EmptyCartView? <==> |items| == 0
    ensures v.FormView? ==> (v.continueDisabled <==> !IsFormValid(f))
    ensures v.FormView? ==> v.lines == SummaryLines(items)
  {
    if |items| == 0 then EmptyCartView
    else FormView(SummaryLines(items), !IsFormValid(f))
  }

  /** The fresh form, before anything is typed, cannot continue. */
  lemma FreshFormDisabled(items: seq<CartItem>)
    requires |items| > 0
    ensures View(items, EmptyCheckoutForm).continueDisabled
  {
  }
}
