/** The products hook: the product record, which products a visitor sees,
    the admin-only guards in front of every write, and where an uploaded
    product image is stored. The remote store is not modelled: a guarded
    operation either refuses or yields the one request it would send. */
module Products {
  import opened Wrappers
  import opened Text
  import opened Seqs
  import opened Auth

  datatype Category = Books | Journals | Catalogs {
    function Name(): string {
      match this
      case Books => "books"
      case Journals => "journals"
      case Catalogs => "catalogs"
    }
  }

  const CategoryNames: seq<string> := ["books", "journals", "catalogs"]

  function ParseCategory(s: string): (r: Option<Category>)
    ensures r.Some? <==> s in CategoryNames
    ensures r.Some? ==> r.value.Name() == s
  {
    if s == "books" then Some(Books)
    else if s == "journals" then Some(Journals)
    else if s == "catalogs" then Some(Catalogs)
    else None
  }

  lemma CategoryRoundTrip(c: Category)
    ensures ParseCategory(c.Name()) == Some(c)
  {
  }

  datatype Product = Product(
    id: string,
    title: string,
    author: Option<string>,
    description: Option<string>,
    price: int,
    category: Category,
    stock: int,
    imageUrl: Option<string>,
    isActive: bool,
    createdAt: int,
    updatedAt: int)

  /** Fewer than ten units: stock 10 is not low. */
  predicate IsLowStock(p: Product) {
    p.stock < 10
  }

  /** The fields a new product is created with (the store assigns the id
      and the timestamps). */
  datatype NewProduct = NewProduct(
    title: string,
    author: string,
    description: string,
    price: int,
    category: Category,
    stock: int,
    imageUrl: Option<string>,
    isActive: bool)

  /** A partial update: only the present fields are written. */
  datatype ProductPatch = ProductPatch(
    title: Option<string>,
    author: Option<string>,
    description: Option<string>,
    price: Option<int>,
    category: Option<Category>,
    stock: Option<int>,
    imageUrl: Option<string>,
    isActive: Option<bool>)

  const EmptyPatch := ProductPatch(None, None, None, None, None, None, None, None)

  /** What the store holds after applying a patch. */
  function ApplyPatch(p: Product, patch: ProductPatch): (r: Product)
    ensures r.id == p.id && r.createdAt == p.createdAt && r.updatedAt == p.updatedAt
    ensures patch.title.Some? ==> r.title == patch.title.value
    ensures patch.title.None? ==> r.title == p.title
    ensures patch.author.Some? ==> r.author == patch.author
    ensures patch.author.None? ==> r.author == p.author
    ensures patch.description.Some? ==> r.description == patch.description
    ensures patch.description.None? ==> r.description == p.description
    ensures patch.price.Some? ==> r.price == patch.price.value
    ensures patch.price.None? ==> r.price == p.price
    ensures patch.category.Some? ==> r.category == patch.category.value
    ensures patch.category.None? ==> r.category == p.category
    ensures patch.stock.Some? ==> r.stock == patch.stock.value
    ensures patch.stock.None? ==> r.stock == p.stock
    ensures patch.imageUrl.Some? ==> r.imageUrl == patch.imageUrl
    ensures patch.imageUrl.None? ==> r.imageUrl == p.imageUrl
    ensures patch.isActive.None? ==> r.isActive == p.isActive
    ensures patch.isActive.Some? ==> r.isActive == patch.isActive.value
  {
    Product(
      p.id,
      patch.title.GetOr(p.title),
      if patch.author.Some? then patch.author else p.author,
      if patch.description.Some? then patch.description else p.description,
      patch.price.GetOr(p.price),
      patch.category.GetOr(p.category),
      patch.stock.GetOr(p.stock),
      if patch.imageUrl.Some? then patch.imageUrl else p.imageUrl,
      patch.isActive.GetOr(p.isActive),
      p.createdAt,
      p.updatedAt)
  }

  /** A patch with no fields changes nothing. */
  lemma EmptyPatchIsIdentity(p: Product)
    ensures ApplyPatch(p, EmptyPatch) == p
  {
  }

  // --------------------------------------------------------------- visibility

  /** The product list a session receives: everything for an admin, only the
      active products for anyone else. */
  function VisibleProducts(all: seq<Product>, isAdmin: bool): (r: seq<Product>)
    ensures isAdmin ==> r == all
    ensures !isAdmin ==> forall i :: 0 <= i < |r| ==> r[i].isActive && r[i] in all
    ensures !isAdmin ==> forall i :: 0 <= i < |all| && all[i].isActive ==> all[i] in r
    ensures !isAdmin ==> IsSubseq(r, all)
  {
    if isAdmin then all
    else
      FilterIsSubseq(all, IsActive);
      Filter(all, IsActive)
  }

  predicate IsActive(p: Product) {
    p.isActive
  }

  // ------------------------------------------------------------------ guards

  const AccessDenied := "Access denied"

  /** A request the hook would send to the store. */
  datatype StoreRequest =
    | InsertProduct(data: NewProduct)
    | UpdateProduct(id: string, patch: ProductPatch)
    | DeleteProduct(id: string)
    | UploadImage(path: string)

  /** `createProduct`: refused without a signed-in admin, otherwise one insert. */
  function CreateProduct(s: Session, data: NewProduct): (r: Result<StoreRequest, string>)
    ensures r.Success? <==> CanManage(s)
    ensures r.Success? ==> r.value == InsertProduct(data)
    ensures r.Failure? ==> r.error == AccessDenied
  {
    if !CanManage(s) then Failure(AccessDenied) else Success(InsertProduct(data))
  }

  /** `updateProduct`: refused without a signed-in admin, otherwise one update. */
  function UpdateProductRequest(s: Session, id: string, patch: ProductPatch): (r: Result<StoreRequest, string>)
    ensures r.Success? <==> CanManage(s)
    ensures r.Success? ==> r.value == UpdateProduct(id, patch)
    ensures r.Failure? ==> r.error == AccessDenied
  {
    if !CanManage(s) then Failure(AccessDenied) else Success(UpdateProduct(id, patch))
  }

  /** `deleteProduct`: refused without a signed-in admin, otherwise one delete. */
  function DeleteProductRequest(s: Session, id: string): (r: Result<StoreRequest, string>)
    ensures r.Success? <==> CanManage(s)
    ensures r.Success? ==> r.value == DeleteProduct(id)
    ensures r.Failure? ==> r.error == AccessDenied
  {
    if !CanManage(s) then Failure(AccessDenied) else Success(DeleteProduct(id))
  }

  // ------------------------------------------------------------------- images

  /** `name.split('.').pop()`: the text after the last dot, or the whole name
      when it has no dot. */
  function FileExtension(fileName: string): (r: string)
    ensures '.' !in r
    ensures '.' !in fileName ==> r == fileName
    ensures '.' in fileName ==> exists k :: 0 <= k < |fileName| && fileName[k] == '.' && r == fileName[k + 1..]
  {
    LastPiece(fileName, '.')
  }

  /** The file stem: the product id when one is given and non-empty (an
      empty id is falsy), otherwise the upload instant in milliseconds. */
  function ImageStem(productId: Option<string>, now: int): string {
    if productId.Some? && productId.value != "" then productId.value else IntToString(now)
  }

  /** `products/<stem>.<extension>` */
  function ImagePath(fileName: string, productId: Option<string>, now: int): string {
    "products/" + ImageStem(productId, now) + "." + FileExtension(fileName)
  }

  /** The stored file keeps the uploaded file's extension, sits in the
      `products/` folder, and is named after the product when there is one. */
  lemma ImagePathShape(fileName: string, productId: Option<string>, now: int)
    ensures "products/" <= ImagePath(fileName, productId, now)
    ensures FileExtension(ImagePath(fileName, productId, now)) == FileExtension(fileName)
    ensures productId.Some? && productId.value != "" ==>
      ImagePath(fileName, productId, now) == "products/" + productId.value + "." + FileExtension(fileName)
    ensures !(productId.Some? && productId.value != "") ==>
      ImagePath(fileName, productId, now) == "products/" + IntToString(now) + "." + FileExtension(fileName)
  {
    LastPieceAfterSeparator("products/" + ImageStem(productId, now), FileExtension(fileName), '.');
    assert ImagePath(fileName, productId, now)
        == ("products/" + ImageStem(productId, now)) + ['.'] + FileExtension(fileName);
  }

  /** `uploadProductImage`: refused without a signed-in admin, otherwise one
      upload to the path above. */
  function UploadProductImage(s: Session, fileName: string, productId: Option<string>, now: int)
    : (r: Result<StoreRequest, string>)
    ensures r.Success? <==> CanManage(s)
    ensures r.Success? ==> r.value == UploadImage(ImagePath(fileName, productId, now))
    ensures r.Failure? ==> r.error == AccessDenied
  {
    if !CanManage(s) then Failure(AccessDenied)
    else Success(UploadImage(ImagePath(fileName, productId, now)))
  }
}
