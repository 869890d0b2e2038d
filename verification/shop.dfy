/** The Shop page: eight fixed bundles and guides, a search box, a category
    selector, an in-stock toggle and five sort keys. */
module Shop {
  import opened Text
  import opened Seqs
  import opened Listings

  const ShopData: seq<Listing> := [
    Listing("shop-1", "Complete Criminal Law Set", "Bundle", 2999, 4500,
      "https://images.unsplash.com/photo-1507003211169-0a1dd7228f2d?w=400&h=500&fit=crop",
      "Comprehensive set including IPC, CrPC, and Evidence Act with commentaries",
      49, true, false, true, false),
    Listing("shop-2", "Civil Law Master Collection", "Bundle", 3499, 5200,
      "https://images.unsplash.com/photo-1481627834876-b7833e8f5570?w=400&h=500&fit=crop",
      "Complete civil law collection with CPC, Contract Act, and Property Laws",
      48, true, true, false, false),
    Listing("shop-3", "Odisha Legal Practice Guide", "Specialty", 1299, 1699,
      "https://images.unsplash.com/photo-1524995997946-a1c2e315a42f?w=400&h=500&fit=crop",
      "Essential guide for practicing law in Odisha courts",
      47, true, false, false, true),
    Listing("shop-4", "Constitutional Law Essentials", "Core", 899, 1199,
      "https://images.unsplash.com/photo-1589829545856-d10d85525114?w=400&h=500&fit=crop",
      "Must-have constitutional law reference for students and practitioners",
      46, true, false, false, false),
    Listing("shop-5", "Family & Personal Laws", "Specialty", 699, 899,
      "https://images.unsplash.com/photo-1553729459-efe14ef6055d?w=400&h=500&fit=crop",
      "Comprehensive coverage of all personal laws in India",
      45, true, false, false, false),
    Listing("shop-6", "Tax Law Complete Guide", "Specialty", 1099, 1399,
      "https://images.unsplash.com/photo-1554224155-8d04cb21cd6c?w=400&h=500&fit=crop",
      "Updated tax laws with GST and Income Tax provisions",
      44, false, false, false, false),
    Listing("shop-7", "Beginner's Law Study Kit", "Starter", 1899, 2800,
      "https://images.unsplash.com/photo-1562654501-a0ccc0fc3fb1?w=400&h=500&fit=crop",
      "Perfect starter kit for new law students",
      48, true, false, false, true),
    Listing("shop-8", "Professional Practice Manual", "Professional", 1599, 2100,
      "https://images.unsplash.com/photo-1521587760476-6c12a4b040da?w=400&h=500&fit=crop",
      "Complete guide for professional legal practice",
      47, true, true, false, false)
  ]

  /** The page's initial sort key. */
  const DefaultSort := "featured"

  /** Search, category and the in-stock toggle, all three required. */
  predicate ShopMatches(l: Listing, term: string, category: string, onlyInStock: bool) {
    MatchesSearch(l, term) && InCategory(l, category) && (!onlyInStock || l.inStock)
  }

  function ShopFilter(term: string, category: string, onlyInStock: bool): Listing -> bool {
    (l: Listing) => ShopMatches(l, term, category, onlyInStock)
  }

  /** The rendered product list for the page's state. */
  function ShopView(term: string, category: string, sortBy: string, onlyInStock: bool): (r: seq<Listing>)
    ensures |r| <= |ShopData|
  {
    View(ShopData, ShopFilter(term, category, onlyInStock), ShopPage, sortBy)
  }

  /** A product is listed iff it is in the catalogue and passes all three
      tests; the list is a reordering of the catalogue's passing products. */
  lemma ShopViewContents(term: string, category: string, sortBy: string, onlyInStock: bool)
    ensures forall l :: l in ShopView(term, category, sortBy, onlyInStock) <==>
      l in ShopData && ShopMatches(l, term, category, onlyInStock)
    ensures multiset(ShopView(term, category, sortBy, onlyInStock))
         == multiset(Filter(ShopData, ShopFilter(term, category, onlyInStock)))
    ensures IsSubseq(Filter(ShopData, ShopFilter(term, category, onlyInStock)), ShopData)
  {
    ViewContents(ShopData, ShopFilter(term, category, onlyInStock), ShopPage, sortBy);
  }

  /** On first load (empty search, `All`, toggle off) every product is shown. */
  lemma InitialViewShowsAll(sortBy: string)
    ensures multiset(ShopView("", "All", sortBy, false)) == multiset(ShopData)
  {
    var data := ShopData;
    forall i | 0 <= i < |data|
      ensures ShopFilter("", "All", false)(data[i])
    {
      InitialFilterPasses(data[i]);
    }
    FilterAll(data, ShopFilter("", "All", false));
    ViewContents(data, ShopFilter("", "All", false), ShopPage, sortBy);
  }

  lemma InitialFilterPasses(l: Listing)
    ensures ShopMatches(l, "", "All", false)
  {
    EmptyTermMatches(l.title);
  }

  /** With the in-stock toggle on, the out-of-stock tax guide disappears. */
  lemma InStockToggleHidesSoldOut(term: string, category: string, sortBy: string)
    ensures ShopData[5] !in ShopView(term, category, sortBy, true)
    ensures forall l :: l in ShopView(term, category, sortBy, true) ==> l.inStock
  {
    ShopViewContents(term, category, sortBy, true);
  }

  /** Every product of the catalogue carries a discount badge. */
  lemma EveryProductDiscounted()
    ensures forall i :: 0 <= i < |ShopData| ==> ShowsDiscount(ShopData[i])
  {
  }
}
