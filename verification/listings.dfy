/** The catalogue pages' shared listing logic: the product card record, the
    search and category tests, the sort comparators of the Shop and Books
    pages, and the add-to-cart button. */
module Listings {
  import opened Text
  import opened Seqs
  import opened Sorting
  import opened Cart

  /** A catalogue card. Prices are whole rupees and ratings are in tenths of
      a star (4.9 is 49). The Books page has no promotion flags: they are
      false there. */
  datatype Listing = Listing(
    id: string,
    title: string,
    category: string,
    price: int,
    originalPrice: int,
    image: string,
    description: string,
    rating: int,
    inStock: bool,
    featured: bool,
    bestseller: bool,
    newArrival: bool)

  /** Which page's comparator is in use: only the Shop page knows `featured`. */
  datatype Page = ShopPage | BooksPage

  // ------------------------------------------------------------- filtering

  /** The search box: a case-insensitive substring of the title or the
      description. */
  predicate MatchesSearch(l: Listing, term: string) {
    MatchesTerm(l.title, term) || MatchesTerm(l.description, term)
  }

  /** The category selector: `All`, or exactly the listing's category. */
  predicate InCategory(l: Listing, category: string) {
    category == "All" || l.category == category
  }

  // --------------------------------------------------------------- sorting

  /** `a.localeCompare(b)`, approximated by the order of character codes. */
  function LexCompare(a: string, b: string): (r: int)
    ensures -1 <= r <= 1
    ensures r == 0 <==> a == b
  {
    if a == [] && b == [] then 0
    else if a == [] then -1
    else if b == [] then 1
    else if a[0] < b[0] then -1
    else if a[0] > b[0] then 1
    else
      var r := LexCompare(a[1..], b[1..]);
      assert a == b <==> a[1..] == b[1..] by {
        assert a == [a[0]] + a[1..] && b == [b[0]] + b[1..];
      }
      r
  }

  /** Swapping the arguments flips the sign. */
  lemma {:induction false} LexAntisymmetric(a: string, b: string)
    ensures LexCompare(a, b) == -LexCompare(b, a)
    decreases |a|
  {
    if a != [] && b != [] && a[0] == b[0] {
      LexAntisymmetric(a[1..], b[1..]);
    }
  }

  /** "Not after" in character-code order is transitive. */
  lemma {:induction false} LexTransitive(a: string, b: string, c: string)
    requires LexCompare(a, b) <= 0 && LexCompare(b, c) <= 0
    ensures LexCompare(a, c) <= 0
    decreases |a|
  {
    if a != [] && b != [] && c != [] && a[0] == b[0] == c[0] {
      LexTransitive(a[1..], b[1..], c[1..]);
    }
  }

  /** The Shop page's `featured` comparator: featured first, then
      bestsellers, then new arrivals. */
  function FeaturedCompare(a: Listing, b: Listing): int {
    if a.featured && !b.featured then -1
    else if !a.featured && b.featured then 1
    else if a.bestseller && !b.bestseller then -1
    else if !a.bestseller && b.bestseller then 1
    else if a.newArrival && !b.newArrival then -1
    else if !a.newArrival && b.newArrival then 1
    else 0
  }

  /** A listing's promotion rank: lower ranks are shown first. */
  function FeaturedRank(l: Listing): (r: int)
    ensures 0 <= r < 8
  {
    (if l.featured then 0 else 4) + (if l.bestseller then 0 else 2) + (if l.newArrival then 0 else 1)
  }

  /** The featured comparator orders listings exactly by promotion rank. */
  lemma FeaturedCompareByRank(a: Listing, b: Listing)
    ensures FeaturedCompare(a, b) < 0 <==> FeaturedRank(a) < FeaturedRank(b)
    ensures FeaturedCompare(a, b) == 0 <==> FeaturedRank(a) == FeaturedRank(b)
    ensures FeaturedCompare(a, b) > 0 <==> FeaturedRank(a) > FeaturedRank(b)
  {
  }

  /** The comparator the two pages pass to `sort`, selected by the sort key. */
  function Compare(page: Page, sortBy: string, a: Listing, b: Listing): int {
    if sortBy == "featured" && page == ShopPage then FeaturedCompare(a, b)
    else if sortBy == "name" then LexCompare(a.title, b.title)
    else if sortBy == "price-low" then a.price - b.price
    else if sortBy == "price-high" then b.price - a.price
    else if sortBy == "rating" then b.rating - a.rating
    else 0
  }

  function Comparator(page: Page, sortBy: string): (Listing, Listing) -> int {
    (a: Listing, b: Listing) => Compare(page, sortBy, a, b)
  }

  /** The sort keys the page's comparator knows; any other key compares
      everything equal. */
  predicate KnownSortKey(page: Page, sortBy: string) {
    (sortBy == "featured" && page == ShopPage) ||
    sortBy == "name" || sortBy == "price-low" || sortBy == "price-high" || sortBy == "rating"
  }

  /** Every comparator of the two pages is a consistent ordering. */
  lemma ComparatorPreorder(page: Page, sortBy: string)
    ensures TotalPreorder(Comparator(page, sortBy))
  {
    var cmp := Comparator(page, sortBy);
    forall a: Listing, b: Listing
      ensures cmp(a, b) > 0 <==> cmp(b, a) < 0
    {
      FeaturedCompareByRank(a, b);
      FeaturedCompareByRank(b, a);
      LexAntisymmetric(a.title, b.title);
    }
    forall a: Listing, b: Listing, c: Listing | cmp(a, b) <= 0 && cmp(b, c) <= 0
      ensures cmp(a, c) <= 0
    {
      if sortBy == "featured" && page == ShopPage {
        FeaturedCompareByRank(a, b);
        FeaturedCompareByRank(b, c);
        FeaturedCompareByRank(a, c);
      } else if sortBy == "name" {
        LexTransitive(a.title, b.title, c.title);
      }
    }
  }

  /** `price-low` lists cheaper items first. */
  lemma PriceLowOrder(page: Page, s: seq<Listing>)
    ensures var r := Sort(s, Comparator(page, "price-low"));
      forall i, j :: 0 <= i < j < |r| ==> r[i].price <= r[j].price
  {
    ComparatorPreorder(page, "price-low");
    SortSorted(s, Comparator(page, "price-low"));
  }

  /** `price-high` lists dearer items first. */
  lemma PriceHighOrder(page: Page, s: seq<Listing>)
    ensures var r := Sort(s, Comparator(page, "price-high"));
      forall i, j :: 0 <= i < j < |r| ==> r[i].price >= r[j].price
  {
    ComparatorPreorder(page, "price-high");
    SortSorted(s, Comparator(page, "price-high"));
  }

  /** `rating` lists the best-rated items first. */
  lemma RatingOrder(page: Page, s: seq<Listing>)
    ensures var r := Sort(s, Comparator(page, "rating"));
      forall i, j :: 0 <= i < j < |r| ==> r[i].rating >= r[j].rating
  {
    ComparatorPreorder(page, "rating");
    SortSorted(s, Comparator(page, "rating"));
  }

  /** `name` lists titles in character-code order. */
  lemma NameOrder(page: Page, s: seq<Listing>)
    ensures var r := Sort(s, Comparator(page, "name"));
      forall i, j :: 0 <= i < j < |r| ==> LexCompare(r[i].title, r[j].title) <= 0
  {
    ComparatorPreorder(page, "name");
    SortSorted(s, Comparator(page, "name"));
  }

  /** A sort key the page does not know (on the Books page this includes
      `featured`) keeps the filtered order. */
  lemma UnknownKeyKeepsOrder(page: Page, sortBy: string, s: seq<Listing>)
    requires !KnownSortKey(page, sortBy)
    ensures Sort(s, Comparator(page, sortBy)) == s
  {
    SortAllTied(s, Comparator(page, sortBy));
  }

  /** Under the Shop page's `featured` key every featured listing precedes
      every non-featured one, and promotion ranks never decrease. */
  lemma FeaturedFirst(s: seq<Listing>)
    ensures var r := Sort(s, Comparator(ShopPage, "featured"));
      forall i, j :: 0 <= i < j < |r| ==>
        FeaturedRank(r[i]) <= FeaturedRank(r[j]) && (r[j].featured ==> r[i].featured)
  {
    ComparatorPreorder(ShopPage, "featured");
    SortSorted(s, Comparator(ShopPage, "featured"));
    var r := Sort(s, Comparator(ShopPage, "featured"));
    forall i, j | 0 <= i < j < |r|
      ensures FeaturedRank(r[i]) <= FeaturedRank(r[j])
    {
      FeaturedCompareByRank(r[i], r[j]);
    }
  }

  /** Listings the comparator ties (for `featured`: equal flags) keep
      catalogue order. */
  lemma TiesKeepOrder(page: Page, sortBy: string, s: seq<Listing>, z: Listing)
    ensures Filter(Sort(s, Comparator(page, sortBy)), TiesWith(Comparator(page, sortBy), z))
         == Filter(s, TiesWith(Comparator(page, sortBy), z))
  {
    ComparatorPreorder(page, sortBy);
    SortStable(s, Comparator(page, sortBy), z);
  }

  // ------------------------------------------------------------ the view

  /** The list a catalogue page renders: the passing listings, sorted. */
  function View(catalogue: seq<Listing>, keep: Listing -> bool, page: Page, sortBy: string): (r: seq<Listing>)
    ensures |r| <= |catalogue|
  {
    Sort(Filter(catalogue, keep), Comparator(page, sortBy))
  }

  /** The view shows exactly the passing catalogue listings, each as often as
      the filter keeps it: a permutation of an order-preserving selection. */
  lemma ViewContents(catalogue: seq<Listing>, keep: Listing -> bool, page: Page, sortBy: string)
    ensures multiset(View(catalogue, keep, page, sortBy)) == multiset(Filter(catalogue, keep))
    ensures IsSubseq(Filter(catalogue, keep), catalogue)
    ensures forall l :: l in View(catalogue, keep, page, sortBy) <==> l in catalogue && keep(l)
  {
    FilterIsSubseq(catalogue, keep);
    var f := Filter(catalogue, keep);
    var r := View(catalogue, keep, page, sortBy);
    forall l
      ensures l in r <==> l in catalogue && keep(l)
    {
      calc {
        l in r;
        l in multiset(r);
        l in multiset(f);
        l in f;
      }
    }
  }

  // ------------------------------------------------------------- the card

  /** The struck-through price and "% OFF" badge appear only for a real
      discount. */
  predicate ShowsDiscount(l: Listing) {
    l.originalPrice > l.price
  }

  /** The card's add-to-cart button. */
  datatype AddButton = AddButton(disabled: bool, caption: string, onClick: CartCall)

  /** The button for a listing: disabled and relabelled when out of stock;
      clicking passes exactly the listing's id, title, price, image and
      category. */
  function CardButton(l: Listing): (b: AddButton)
    ensures b.disabled <==> !l.inStock
    ensures b.onClick.line.id == l.id && b.onClick.line.title == l.title
    ensures b.onClick.line.price == l.price && b.onClick.line.image == l.image
    ensures b.onClick.line.category == l.category
  {
    AddButton(
      !l.inStock,
      if l.inStock then "🛒 Add to Cart" else "Out of Stock",
      AddToCart(CartLine(l.id, l.title, l.price, l.image, l.category)))
  }
}
