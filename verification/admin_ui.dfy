/** Presentation choices the admin screens share: badge variants and the
    empty-list hint. */
module AdminUi {

  /** The badge component's variants. */
  datatype BadgeVariant = Default | Secondary | Destructive

  const FilterHint := "Try adjusting your filters"

  /** The line under "No … found": a hint to relax the filters when a search
      term or a filter other than `all` is in force, else the screen's own
      idle message. */
  function EmptyStateText(term: string, filter: string, idle: string): (r: string)
    requires idle != FilterHint
    ensures r == FilterHint <==> term != "" || filter != "all"
    ensures r != FilterHint ==> r == idle
  {
    if term != "" || filter != "all" then FilterHint else idle
  }
}
