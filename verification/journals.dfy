/** The Journals page: six fixed journals filtered by a title search, a type
    and a year. The list is never sorted. */
module Journals {
  import opened Text
  import opened Seqs

  datatype Journal = Journal(
    id: int,
    title: string,
    year: string,
    kind: string,
    image: string,
    description: string)

  const JournalData: seq<Journal> := [
    Journal(1, "Odisha Law Journal", "2024", "Digest",
      "https://images.unsplash.com/photo-1507003211169-0a1dd7228f2d?w=400&h=500&fit=crop",
      "Comprehensive legal digest covering Odisha state laws"),
    Journal(2, "Criminal Law Review", "2024", "Handbook",
      "https://images.unsplash.com/photo-1481627834876-b7833e8f5570?w=400&h=500&fit=crop",
      "Latest updates in criminal law procedures"),
    Journal(3, "Civil Procedure Code", "2023", "Bare Act",
      "https://images.unsplash.com/photo-1524995997946-a1c2e315a42f?w=400&h=500&fit=crop",
      "Complete civil procedure code with amendments"),
    Journal(4, "Constitutional Law Digest", "2024", "Digest",
      "https://images.unsplash.com/photo-1589829545856-d10d85525114?w=400&h=500&fit=crop",
      "Constitutional law principles and landmark cases"),
    Journal(5, "Family Law Handbook", "2023", "Handbook",
      "https://images.unsplash.com/photo-1553729459-efe14ef6055d?w=400&h=500&fit=crop",
      "Comprehensive guide to family law matters"),
    Journal(6, "Tax Laws Manual", "2024", "Manual",
      "https://images.unsplash.com/photo-1554224155-8d04cb21cd6c?w=400&h=500&fit=crop",
      "Updated tax laws and regulations")
  ]

  /** The options of the two selectors. */
  const Types: seq<string> := ["All", "Digest", "Handbook", "Bare Act", "Manual"]
  const Years: seq<string> := ["All", "2024", "2023", "2022"]

  /** The page's filter state. */
  datatype Filters = Filters(term: string, kind: string, year: string)

  /** Clear Filters: empty search, every type, every year. */
  function ClearFilters(f: Filters): (r: Filters)
    ensures r.term == [] && r.kind == Types[0] && r.year == Years[0]
  {
    Filters("", "All", "All")
  }

  /** The search looks at the title only; the description is not searched. */
  predicate JournalMatches(j: Journal, f: Filters) {
    MatchesTerm(j.title, f.term) &&
    (f.kind == "All" || j.kind == f.kind) &&
    (f.year == "All" || j.year == f.year)
  }

  function JournalFilter(f: Filters): Journal -> bool {
    (j: Journal) => JournalMatches(j, f)
  }

  /** The rendered journal list: the catalogue entries that pass, in
      catalogue order. */
  function JournalsView(f: Filters): (r: seq<Journal>)
    ensures |r| <= |JournalData|
  {
    Filter(JournalData, JournalFilter(f))
  }

  /** A journal is listed iff it passes all three tests, and the list keeps
      catalogue order. */
  lemma JournalsViewContents(f: Filters)
    ensures forall j :: j in JournalsView(f) <==> j in JournalData && JournalMatches(j, f)
    ensures IsSubseq(JournalsView(f), JournalData)
  {
    FilterIsSubseq(JournalData, JournalFilter(f));
  }

  /** After Clear Filters all six journals are listed, in catalogue order. */
  lemma ClearedShowsAll(f: Filters)
    ensures JournalsView(ClearFilters(f)) == JournalData
  {
    forall i | 0 <= i < |JournalData|
      ensures JournalFilter(ClearFilters(f))(JournalData[i])
    {
      EmptyTermMatches(JournalData[i].title);
    }
    FilterAll(JournalData, JournalFilter(ClearFilters(f)));
  }

  /** The year selector offers 2022, but no journal is from 2022. */
  lemma Year2022IsEmpty(term: string, kind: string)
    ensures "2022" in Years
    ensures JournalsView(Filters(term, kind, "2022")) == []
  {
    FilterNone(JournalData, JournalFilter(Filters(term, kind, "2022")));
  }
}
