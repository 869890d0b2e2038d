/** The Orissa Criminal Reports subscription page: a yearly subscription or
    a single part, each with its own quantity counter, and adding the chosen
    quantity to the cart as separately identified units. The clock
    (`Date.now()`, read once per unit) is a parameter. */
module Orissa {
  import opened Text
  import opened Cart

  datatype SubscriptionOption = Yearly | Part {
    function Name(): string {
      match this
      case Yearly => "yearly"
      case Part => "part"
    }
  }

  const JournalTitle := "Orissa Criminal Reports"
  const JournalImage := "/lovable-uploads/441f5d29-2c1e-4b01-8bf0-1ec3f24cc58d.png"
  const YearlyPrice := 3200
  const PartPrice := 450
  const SubscriptionCategory := "Journal Subscription"

  /** The page's state; it starts on the yearly option with both counters at one. */
  datatype PageState = PageState(yearlyQuantity: int, partQuantity: int, selected: SubscriptionOption)

  const InitialState := PageState(1, 1, Yearly)

  function UnitPrice(o: SubscriptionOption): int {
    if o == Yearly then YearlyPrice else PartPrice
  }

  function ItemTitle(o: SubscriptionOption): string {
    if o == Yearly then JournalTitle + " - Yearly Subscription" else JournalTitle + " - Single Part"
  }

  /** The counter of the selected option. */
  function SelectedQuantity(st: PageState): int {
    if st.selected == Yearly then st.yearlyQuantity else st.partQuantity
  }

  /** The displayed total: the selected option's price times its counter. */
  function Total(st: PageState): (r: int)
    ensures st.selected == Yearly ==> r == 3200 * st.yearlyQuantity
    ensures st.selected == Part ==> r == 450 * st.partQuantity
  {
    UnitPrice(st.selected) * SelectedQuantity(st)
  }

  /** Choosing an option keeps both counters. */
  function Select(st: PageState, o: SubscriptionOption): (r: PageState)
    ensures r.selected == o && r.yearlyQuantity == st.yearlyQuantity && r.partQuantity == st.partQuantity
  {
    st.(selected := o)
  }

  /** The minus button: lowers the selected counter, never below one, and
      leaves the other counter alone. */
  function Decrement(st: PageState): (r: PageState)
    ensures r.selected == st.selected
    ensures SelectedQuantity(r) == if SelectedQuantity(st) - 1 > 1 then SelectedQuantity(st) - 1 else 1
    ensures st.selected == Yearly ==> r.partQuantity == st.partQuantity
    ensures st.selected == Part ==> r.yearlyQuantity == st.yearlyQuantity
  {
    if st.selected == Yearly then st.(yearlyQuantity := Max1(st.yearlyQuantity - 1))
    else st.(partQuantity := Max1(st.partQuantity - 1))
  }

  /** `Math.max(1, q)` */
  function Max1(q: int): int {
    if q > 1 then q else 1
  }

  /** The plus button: raises the selected counter by one and leaves the
      other counter alone. */
  function Increment(st: PageState): (r: PageState)
    ensures r.selected == st.selected
    ensures SelectedQuantity(r) == SelectedQuantity(st) + 1
    ensures st.selected == Yearly ==> r.partQuantity == st.partQuantity
    ensures st.selected == Part ==> r.yearlyQuantity == st.yearlyQuantity
  {
    if st.selected == Yearly then st.(yearlyQuantity := st.yearlyQuantity + 1)
    else st.(partQuantity := st.partQuantity + 1)
  }

  /** Both counters are at least one in every state the buttons can reach
      from the initial one. */
  predicate CountersPositive(st: PageState) {
    st.yearlyQuantity >= 1 && st.partQuantity >= 1
  }

  lemma ButtonsKeepCountersPositive(st: PageState, o: SubscriptionOption)
    requires CountersPositive(st)
    ensures CountersPositive(Decrement(st)) && CountersPositive(Increment(st))
    ensures CountersPositive(Select(st, o))
    ensures Total(st) >= UnitPrice(st.selected)
  {
  }

  // ----------------------------------------------------------- add to cart

  /** The id of the unit added at loop index `i`, read at clock time `now`. */
  function UnitId(o: SubscriptionOption, now: int, i: int): string {
    "ocr-" + o.Name() + "-" + IntToString(now) + "-" + IntToString(i)
  }

  function UnitLine(o: SubscriptionOption, now: int, i: int): CartLine {
    CartLine(UnitId(o, now, i), ItemTitle(o), UnitPrice(o), JournalImage, SubscriptionCategory)
  }

  /** The id ends with the loop index: what follows its last `-` is the
      index, whatever the clock read. */
  lemma UnitIdEndsWithIndex(o: SubscriptionOption, now: int, i: nat)
    ensures LastPiece(UnitId(o, now, i), '-') == IntToString(i)
  {
    assert IntToString(i) == NatToString(i);
    var t := NatToString(i);
    assert forall k :: 0 <= k < |t| ==> t[k] != '-';
    LastPieceAfterSeparator("ocr-" + o.Name() + "-" + IntToString(now), IntToString(i), '-');
  }

  /** Units added at different loop indices get different ids, even when
      the clock reads the same for both or goes backwards. */
  lemma UnitIdsDistinct(o: SubscriptionOption, now1: int, now2: int, i: nat, j: nat)
    requires i != j
    ensures UnitId(o, now1, i) != UnitId(o, now2, j)
  {
    UnitIdEndsWithIndex(o, now1, i);
    UnitIdEndsWithIndex(o, now2, j);
    if IntToString(i) == IntToString(j) {
      IntToStringInjective(i, j);
    }
  }

  /** `handleAddToCart`: one `addToCart` per unit of the selected counter,
      each with the option's title and price and an id built from the clock
      reading and the index; then both counters go back to one. */
  method HandleAddToCart(st: PageState, clock: nat -> int) returns (log: seq<CartCall>, next: PageState)
    ensures |log| == if SelectedQuantity(st) > 0 then SelectedQuantity(st) else 0
    ensures forall i :: 0 <= i < |log| ==> log[i] == AddToCart(UnitLine(st.selected, clock(i), i))
    ensures forall i, j :: 0 <= i < j < |log| ==> log[i].line.id != log[j].line.id
    ensures next == st.(yearlyQuantity := 1, partQuantity := 1)
  {
    var o := st.selected;
    var quantity := SelectedQuantity(st);
    log := [];
    var i := 0;
    while i < quantity
      invariant 0 <= i <= if quantity > 0 then quantity else 0
      invariant |log| == i
      invariant forall k :: 0 <= k < i ==> log[k] == AddToCart(UnitLine(o, clock(k), k))
    {
      log := log + [AddToCart(UnitLine(o, clock(i), i))];
      i := i + 1;
    }
    forall a, b | 0 <= a < b < |log|
      ensures log[a].line.id != log[b].line.id
    {
      UnitIdsDistinct(o, clock(a), clock(b), a, b);
    }
    next := st.(yearlyQuantity := 1, partQuantity := 1);
  }

  /** Every unit added carries the option's price, so the calls' prices sum
      to the total shown before the click. */
  lemma {:induction false} AddedPricesMatchTotal(log: seq<CartCall>, st: PageState, n: nat)
    requires n <= |log|
    requires forall i :: 0 <= i < |log| ==> log[i].line.price == UnitPrice(st.selected)
    ensures SumPrices(log[..n]) == UnitPrice(st.selected) * n
    decreases n
  {
    if n > 0 {
      AddedPricesMatchTotal(log, st, n - 1);
      assert log[..n] == log[..n - 1] + [log[n - 1]];
      SumPricesSnoc(log[..n - 1], log[n - 1]);
    }
  }

  /** `handleProceedToCheckout`: the same calls and reset as the add button,
      then the checkout page. */
  method ProceedToCheckout(st: PageState, clock: nat -> int) returns (log: seq<CartCall>, next: PageState, route: string)
    ensures |log| == if SelectedQuantity(st) > 0 then SelectedQuantity(st) else 0
    ensures forall i :: 0 <= i < |log| ==> log[i] == AddToCart(UnitLine(st.selected, clock(i), i))
    ensures next == st.(yearlyQuantity := 1, partQuantity := 1)
    ensures route == "/checkout"
  {
    log, next := HandleAddToCart(st, clock);
    route := "/checkout";
  }
}
