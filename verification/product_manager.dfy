/** The admin product list: search and category filter, the show/hide
    toggle, the low-stock flag, and the form dialog's open/close state. */
module ProductManager {
  import opened Wrappers
  import opened Text
  import opened Seqs
  import opened Auth
  import opened Products
  import opened AdminUi

  /** The search matches the title or, when there is one, the author; the
      category filter is `all` or a category's stored name. */
  predicate ProductMatches(p: Product, term: string, categoryFilter: string) {
    (MatchesTerm(p.title, term) || (p.author.Some? && MatchesTerm(p.author.value, term))) &&
    (categoryFilter == "all" || p.category.Name() == categoryFilter)
  }

  function ProductFilter(term: string, categoryFilter: string): Product -> bool {
    (p: Product) => ProductMatches(p, term, categoryFilter)
  }

  /** The listed products, in the order the hook delivered them. */
  function FilteredProducts(products: seq<Product>, term: string, categoryFilter: string): (r: seq<Product>)
    ensures |r| <= |products|
  {
    Filter(products, ProductFilter(term, categoryFilter))
  }

  /** A product is listed iff it matches, and the list keeps the input order. */
  lemma FilteredProductsContents(products: seq<Product>, term: string, categoryFilter: string)
    ensures forall p :: p in FilteredProducts(products, term, categoryFilter) <==>
      p in products && ProductMatches(p, term, categoryFilter)
    ensures IsSubseq(FilteredProducts(products, term, categoryFilter), products)
  {
    FilterIsSubseq(products, ProductFilter(term, categoryFilter));
  }

  /** With an empty search and `all`, every product is listed. */
  lemma UnfilteredListsAll(products: seq<Product>)
    ensures FilteredProducts(products, "", "all") == products
  {
    forall i | 0 <= i < |products|
      ensures ProductFilter("", "all")(products[i])
    {
      EmptyTermMatches(products[i].title);
    }
    FilterAll(products, ProductFilter("", "all"));
  }

  /** `toggleProductStatus`: an update that writes only `isActive`, negated. */
  function TogglePatch(p: Product): (patch: ProductPatch)
    ensures patch.isActive == Some(!p.isActive)
    ensures patch.(isActive := None) == EmptyPatch
  {
    EmptyPatch.(isActive := Some(!p.isActive))
  }

  function ToggleProductStatus(s: Session, p: Product): Result<StoreRequest, string> {
    UpdateProductRequest(s, p.id, TogglePatch(p))
  }

  /** Toggling flips visibility and changes nothing else; toggling twice
      restores the product. */
  lemma ToggleInvolution(s: Session, p: Product)
    ensures ToggleProductStatus(s, p).Success? <==> CanManage(s)
    ensures ApplyPatch(p, TogglePatch(p)) == p.(isActive := !p.isActive)
    ensures var q := ApplyPatch(p, TogglePatch(p)); ApplyPatch(q, TogglePatch(q)) == p
  {
  }

  /** The stock cell: the count, with " (Low)" below ten units. */
  function StockText(p: Product): (r: string)
    ensures IntToString(p.stock) + " units" <= r
  {
    IntToString(p.stock) + " units" + (if IsLowStock(p) then " (Low)" else "")
  }

  /** The " (Low)" suffix appears iff the stock is below ten. */
  lemma StockTextFlagsLow(p: Product)
    ensures |StockText(p)| == |IntToString(p.stock) + " units"| + (if p.stock < 10 then 6 else 0)
    ensures p.stock < 10 <==> StockText(p) == IntToString(p.stock) + " units (Low)"
  {
  }

  const NoProductsIdle := "Get started by adding your first product"

  /** The line under "No products found". */
  function EmptyProductsText(term: string, categoryFilter: string): (r: string)
    ensures r == FilterHint <==> term != "" || categoryFilter != "all"
    ensures r != FilterHint ==> r == NoProductsIdle
  {
    EmptyStateText(term, categoryFilter, NoProductsIdle)
  }

  // ------------------------------------------------------------ form dialog

  /** The product being edited (none when creating) and whether the form
      dialog is open. */
  datatype DialogState = DialogState(selected: Option<Product>, showForm: bool)

  const Closed := DialogState(None, false)

  function HandleEdit(st: DialogState, p: Product): (r: DialogState)
    ensures r.selected == Some(p) && r.showForm
  {
    DialogState(Some(p), true)
  }

  /** The "Add Product" button: no product selected, dialog opened. */
  function AddProduct(st: DialogState): (r: DialogState)
    ensures r.selected.None? && r.showForm
  {
    DialogState(None, true)
  }

  /** `handleFormSuccess` */
  function FormSuccess(st: DialogState): (r: DialogState)
    ensures !r.showForm && r.selected.None?
  {
    DialogState(None, false)
  }

  /** `handleFormCancel` */
  function FormCancel(st: DialogState): (r: DialogState)
    ensures !r.showForm && r.selected.None?
  {
    DialogState(None, false)
  }

  /** Saving and cancelling leave the dialog in the same closed state, from
      any state, so editing never leaks into a later "Add Product". */
  lemma SuccessAndCancelAgree(st: DialogState, p: Product)
    ensures FormSuccess(st) == FormCancel(st) == Closed
    ensures FormCancel(HandleEdit(st, p)) == FormCancel(AddProduct(st))
  {
  }
}
