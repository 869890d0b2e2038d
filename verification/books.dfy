/** The Books page: six fixed titles, a search box, a category selector and
    four sort keys. Unlike the Shop page there is no stock filter. */
module Books {
  import opened Text
  import opened Seqs
  import opened Sorting
  import opened Listings

  const BookData: seq<Listing> := [
    Listing("book-1", "Indian Penal Code - Complete Commentary", "Criminal Law", 899, 1200,
      "https://images.unsplash.com/photo-1507003211169-0a1dd7228f2d?w=400&h=500&fit=crop",
      "Comprehensive commentary on IPC with latest amendments",
      48, true, false, false, false),
    Listing("book-2", "Civil Procedure Code Handbook", "Civil Law", 750, 950,
      "https://images.unsplash.com/photo-1481627834876-b7833e8f5570?w=400&h=500&fit=crop",
      "Essential guide to civil procedure with case studies",
      46, true, false, false, false),
    Listing("book-3", "Constitutional Law of India", "Constitutional Law", 1299, 1599,
      "https://images.unsplash.com/photo-1524995997946-a1c2e315a42f?w=400&h=500&fit=crop",
      "Authoritative text on Indian constitutional law",
      49, true, false, false, false),
    Listing("book-4", "Odisha Land Laws Manual", "Odisha Law", 650, 800,
      "https://images.unsplash.com/photo-1589829545856-d10d85525114?w=400&h=500&fit=crop",
      "Complete guide to Odisha land revenue laws",
      45, true, false, false, false),
    Listing("book-5", "Family Law & Personal Laws", "Family Law", 540, 720,
      "https://images.unsplash.com/photo-1553729459-efe14ef6055d?w=400&h=500&fit=crop",
      "Comprehensive coverage of family and personal laws",
      44, false, false, false, false),
    Listing("book-6", "Tax Laws with Case Studies", "Tax Law", 980, 1200,
      "https://images.unsplash.com/photo-1554224155-8d04cb21cd6c?w=400&h=500&fit=crop",
      "Updated tax laws with practical case studies",
      47, true, false, false, false)
  ]

  /** The page's initial sort key. */
  const DefaultSort := "name"

  /** Search and category; stock plays no part. */
  predicate BookMatches(l: Listing, term: string, category: string) {
    MatchesSearch(l, term) && InCategory(l, category)
  }

  function BookFilter(term: string, category: string): Listing -> bool {
    (l: Listing) => BookMatches(l, term, category)
  }

  /** The rendered book list for the page's state. */
  function BooksView(term: string, category: string, sortBy: string): (r: seq<Listing>)
    ensures |r| <= |BookData|
  {
    View(BookData, BookFilter(term, category), BooksPage, sortBy)
  }

  /** A book is listed iff it is in the catalogue and passes search and
      category; the list is a reordering of the catalogue's passing books. */
  lemma BooksViewContents(term: string, category: string, sortBy: string)
    ensures forall l :: l in BooksView(term, category, sortBy) <==>
      l in BookData && BookMatches(l, term, category)
    ensures multiset(BooksView(term, category, sortBy))
         == multiset(Filter(BookData, BookFilter(term, category)))
    ensures IsSubseq(Filter(BookData, BookFilter(term, category)), BookData)
  {
    ViewContents(BookData, BookFilter(term, category), BooksPage, sortBy);
  }

  /** The out-of-stock family-law title is still listed: whether a book is
      shown never depends on stock. */
  lemma OutOfStockStillListed(sortBy: string)
    ensures !BookData[4].inStock
    ensures BookData[4] in BooksView("", "All", sortBy)
  {
    EmptyTermMatches(BookData[4].title);
    BooksViewContents("", "All", sortBy);
  }

  /** The default `name` key lists titles in character-code order. */
  lemma DefaultSortByTitle(term: string, category: string)
    ensures var r := BooksView(term, category, DefaultSort);
      forall i, j :: 0 <= i < j < |r| ==> LexCompare(r[i].title, r[j].title) <= 0
  {
    var f := Filter(BookData, BookFilter(term, category));
    assert BooksView(term, category, DefaultSort) == Sort(f, Comparator(BooksPage, "name"));
    NameOrder(BooksPage, f);
  }

  /** The Books page has no `featured` comparator: that key keeps the
      filtered catalogue order. */
  lemma FeaturedKeyKeepsOrder(term: string, category: string)
    ensures BooksView(term, category, "featured") == Filter(BookData, BookFilter(term, category))
  {
    UnknownKeyKeepsOrder(BooksPage, "featured", Filter(BookData, BookFilter(term, category)));
  }
}
