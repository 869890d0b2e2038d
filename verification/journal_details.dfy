/** The journal detail page: the four-entry catalogue looked up by the
    route's id, the quantity selector, and adding the chosen quantity to the
    cart one unit at a time. */
module JournalDetails {
  import opened Wrappers
  import opened Text
  import opened Cart

  datatype JournalEntry = JournalEntry(
    id: string,
    title: string,
    image: string,
    description: string,
    year: string,
    price: int,
    category: string)

  /** The catalogue, keyed by the strings "1" to "4" (the credits and story
      texts are presentation only and are not kept). */
  const Catalogue: map<string, JournalEntry> := map[
    "1" := JournalEntry("1", "Orissa High Court Digest",
      "/lovable-uploads/bd9562f0-5286-4441-82a0-f16eac646a5f.png",
      "Comprehensive digest of Orissa High Court judgments", "2024", 1299, "Legal Digest"),
    "2" := JournalEntry("2", "Criminal Major Acts",
      "/lovable-uploads/bd9562f0-5286-4441-82a0-f16eac646a5f.png",
      "Complete compilation of criminal law statutes", "2024", 899, "Criminal Law"),
    "3" := JournalEntry("3", "Civil Procedure Code Commentary",
      "/lovable-uploads/20716325-0e93-4a46-bfec-60bd22b17411.png",
      "In-depth analysis of Civil Procedure Code", "2023", 1599, "Civil Law"),
    "4" := JournalEntry("4", "Bare Acts Collection",
      "/lovable-uploads/cef2bd9f-6509-4ace-be37-df626c82073e.png",
      "Essential legal acts and amendments", "2024", 799, "Legal Reference")
  ]

  /** The lookup of the route's id: an entry exactly for the four keys, and
      each entry carries its own key as its id. */
  function Lookup(id: string): (r: Option<JournalEntry>)
    ensures r.Some? <==> id in {"1", "2", "3", "4"}
    ensures r.Some? ==> r.value.id == id && r.value.price > 0
  {
    if id in Catalogue then Some(Catalogue[id]) else None
  }

  /** Ids are matched as text: a number written differently finds nothing. */
  lemma PaddedIdNotFound()
    ensures Lookup("01").None? && Lookup(" 1").None? && Lookup("1").Some?
  {
  }

  // -------------------------------------------------------------- quantity

  /** The minus button: one less, but never below one. */
  function Decrement(q: int): (r: int)
    ensures r >= 1
    ensures q > 1 ==> r == q - 1
    ensures q <= 1 ==> r == 1
  {
    if q - 1 > 1 then q - 1 else 1
  }

  /** The plus button: exactly one more. */
  function Increment(q: int): (r: int)
    ensures r == q + 1
  {
    q + 1
  }

  datatype Press = Minus | Plus

  /** The quantity after a series of button presses. */
  function AfterPresses(q: int, presses: seq<Press>): int
    decreases |presses|
  {
    if presses == [] then q
    else AfterPresses(if presses[0] == Minus then Decrement(q) else Increment(q), presses[1..])
  }

  /** Starting from one, no series of presses brings the quantity below one,
      and it never exceeds one plus the number of presses. */
  lemma {:induction false} QuantityStaysPositive(q: int, presses: seq<Press>)
    requires q >= 1
    ensures 1 <= AfterPresses(q, presses) <= q + |presses|
    decreases |presses|
  {
    if presses != [] {
      QuantityStaysPositive(if presses[0] == Minus then Decrement(q) else Increment(q), presses[1..]);
    }
  }

  /** Minus undoes plus. */
  lemma MinusUndoesPlus(q: int)
    requires q >= 1
    ensures Decrement(Increment(q)) == q
  {
  }

  // ----------------------------------------------------------- add to cart

  function LineOf(j: JournalEntry): CartLine {
    CartLine(j.id, j.title, j.price, j.image, j.category)
  }

  /** The toast shown after adding. */
  function AddedMessage(quantity: int, j: JournalEntry): string {
    IntToString(quantity) + " x " + j.title + " added to your cart."
  }

  /** `handleAddToCart`: `addToCart` called once per unit, each time with
      the same line (no call at all for a quantity below one). */
  method HandleAddToCart(j: JournalEntry, quantity: int) returns (log: seq<CartCall>, toast: string)
    ensures |log| == if quantity > 0 then quantity else 0
    ensures forall i :: 0 <= i < |log| ==> log[i] == AddToCart(LineOf(j))
    ensures quantity >= 0 ==> log == Repeat(LineOf(j), quantity)
    ensures toast == AddedMessage(quantity, j)
  {
    log := [];
    var i := 0;
    while i < quantity
      invariant 0 <= i <= if quantity > 0 then quantity else 0
      invariant log == Repeat(LineOf(j), i)
    {
      log := log + [AddToCart(LineOf(j))];
      i := i + 1;
    }
    toast := AddedMessage(quantity, j);
  }

  /** The amount on the add button. */
  function ButtonTotal(j: JournalEntry, quantity: int): int {
    j.price * quantity
  }

  /** Adding the shown quantity puts calls whose prices sum to the amount on
      the button. */
  lemma {:induction false} CallsSumToButtonTotal(j: JournalEntry, quantity: nat)
    ensures SumPrices(Repeat(LineOf(j), quantity)) == ButtonTotal(j, quantity)
    decreases quantity
  {
    if quantity > 0 {
      CallsSumToButtonTotal(j, quantity - 1);
      SumPricesSnoc(Repeat(LineOf(j), quantity - 1), AddToCart(LineOf(j)));
    }
  }
}
