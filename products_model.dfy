/** The values the product service (internal/core/service/products/products.go)
    reads, builds and writes, its collaborators, and the specification of what
    each of its operations computes. */
module ProductsModel {
  import opened Common
  import opened Strconv
  import opened Strings
  import opened Traverse
  import Backend

  /** `decimal.Decimal`: a coefficient and a power of ten. */
  datatype Decimal = Decimal(coefficient: int, exponent: int)

  /** A `time.Time`, in nanoseconds since the epoch. */
  datatype Time = Time(unixNano: int)

  /** `dtos.ProductSpecs`, what a product's `specs` column holds as JSON. */
  datatype ProductSpecs = ProductSpecs(screen: string, display: string, ssd: seq<int>, ram: seq<int>)

  /** The zero value `dtos.ProductSpecs{}`. */
  const NoSpecs := ProductSpecs("", "", [], [])

  /** `dtos.InventorySpecification`, what a `specifications` row holds as JSON. */
  datatype InventorySpec = InventorySpec(ram: int, ssd: int)

  /** A `products` row (`entity.Products`). */
  datatype Product = Product(id: int, name: string, price: Decimal, description: string, supplierID: string,
                             categoryID: string, status: string, specs: string, image: string, created: Time)

  /** An `inventories` row (`entity.Inventories`); its id is a decimal string. */
  datatype Inventory = Inventory(id: string, productID: int, price: Decimal, available: int, currencyCode: string,
                                 status: string, color: string, colorImg: string, image: string)

  /** A `specifications` row. */
  datatype Specification = Specification(inventoryID: int, content: string)

  /** A `categories` row. */
  datatype CategoryRow = CategoryRow(id: int, name: string)

  /** `dtos.ProductView`. */
  datatype ProductView = ProductView(id: int, price: Decimal, desc: string, name: string, image: string, specs: ProductSpecs)

  /** `dtos.ProductResponse`. */
  datatype ProductResponse = ProductResponse(id: int, price: Decimal, description: string, name: string,
                                             status: string, image: seq<string>, created: Time)

  /** `dtos.Inventory`, both as read and as submitted to `InsertIntoInventory`. */
  datatype InventoryDto = InventoryDto(id: string, productName: string, productID: string, price: string,
                                       available: int, currencyCode: string, status: string, color: string,
                                       colorImg: string, image: seq<string>, specs: seq<InventorySpec>)

  /** `dtos.StockInInventory` and its header. */
  datatype Header = Header(active: int, draft: int, all: int)
  datatype StockInInventory = StockInInventory(page: int, limit: int, header: Header, stock: seq<InventoryDto>)

  /** The dynamic value in `dtos.Product.Specs` (an `any`). */
  datatype AnySpecs = NilSpecs | SpecsOf(specs: ProductSpecs) | OtherValue

  /** `dtos.Product`, the body of `CreateProduct`. */
  datatype NewProduct = NewProduct(price: Decimal, description: string, name: string, supplierID: string,
                                   categoryID: string, status: string, specs: AnySpecs)

  /** `dtos.UpdateInventory`. */
  datatype InventoryUpdate = InventoryUpdate(id: string, productID: string, price: string, available: int,
                                             currencyCode: string, status: string)

  /** `dtos.UpdateProductInfo`. */
  datatype ProductUpdate = ProductUpdate(id: int, name: string, price: Decimal, description: string,
                                         supplierID: string, categoryID: string, status: string)

  /** A multipart file header, and the file it opens. */
  datatype FileHeader = FileHeader(filename: string, size: int)
  datatype File = File(name: string)

  /** The writes the service issues through its repositories. */
  datatype Write =
    | InsertProduct(product: Product)
    | UpdateProduct(product: Product)
    | DeleteProduct(productID: int)
    | ProductImage(url: string, productID: int)
    | InsertInventory(inventory: Inventory)
    | UpdateInventory(inventory: Inventory)
    | DeleteInventory(inventoryID: int)
    | StockImage(inventoryID: int, url: string)
    | InsertSpec(spec: Specification)

  /** The read side of the product, inventory, specification and category
      repositories: what each lookup answers.  The answers stand for the database
      and do not follow the service's own writes. */
  datatype Catalog = Catalog(
    productsByCategory: (bv64, int) -> Result<seq<Product>>,
    productByID: int -> Result<Product>,
    productsLimit: int -> Result<seq<Product>>,
    searchProducts: string -> Result<seq<Product>>,
    inventoryByID: int -> Result<Inventory>,
    inventoriesByProductID: int -> Result<seq<Inventory>>,
    inventoriesLimit: (int, int) -> Result<seq<Inventory>>,
    specsByInventoryID: int -> Result<seq<Specification>>,
    categoryByID: int -> Result<CategoryRow>)

  /** Library code the service calls: JSON, the category enum, decimals and the
      time zone conversion. */
  datatype Codecs = Codecs(
    decodeProductSpecs: string -> Result<ProductSpecs>,
    decodeInventorySpec: string -> Result<InventorySpec>,
    encodeProductSpecs: ProductSpecs -> string,
    encodeInventorySpec: InventorySpec -> string,
    loadCategory: string -> Result<bv64>,
    electronicDevice: bv64,
    parseDecimal: string -> Decimal,
    formatDecimal: Decimal -> string,
    hanoiTimezone: Time -> Time)

  /** The blob storage and the multipart files: opening, uploading (answering the
      secure URL) and closing. */
  datatype Blob = Blob(open: FileHeader -> Result<File>, upload: File -> Result<string>, close: File -> Option<Error>)

  /** `types & enum.ElectronicDevice != 0`. */
  predicate Electronic(codecs: Codecs, types: bv64)
  {
    types & codecs.electronicDevice != 0
  }

  // ---------------------------------------------------------------- ViewDataOf

  /** The view of one product: its fields copied, and its specs decoded when it
      has some and the category is electronic. */
  function ViewOf(codecs: Codecs, types: bv64, p: Product): Result<ProductView>
  {
    var view := ProductView(p.id, p.price, p.description, p.name, p.image, NoSpecs);
    if p.specs != "" && Electronic(codecs, types) then
      match codecs.decodeProductSpecs(p.specs)
      case Err(e) => Err(e)
      case Ok(specs) => Ok(view.(specs := specs))
    else Ok(view)
  }

  /** What `ViewDataOf(types, offset)` answers. */
  function ViewData(catalog: Catalog, codecs: Codecs, types: bv64, offset: int): Result<seq<ProductView>>
  {
    match catalog.productsByCategory(types, offset)
    case Err(e) => Err(e)
    case Ok(products) => MapUntilErr(products, (p: Product) => ViewOf(codecs, types, p))
  }

  /** `ViewDataOf` fails with the repository's error, or with the error of the
      first product whose specs do not decode; otherwise it holds one view per
      product, in order, with the product's fields and, exactly for electronic
      categories and products with specs, the decoded specs. */
  lemma ViewDataMeaning(catalog: Catalog, codecs: Codecs, types: bv64, offset: int)
    ensures catalog.productsByCategory(types, offset).Err? ==>
      ViewData(catalog, codecs, types, offset) == Err(catalog.productsByCategory(types, offset).error)
    ensures catalog.productsByCategory(types, offset).Ok? ==>
      var ps := catalog.productsByCategory(types, offset).value;
      var r := ViewData(catalog, codecs, types, offset);
      && (r.Ok? <==> forall i :: 0 <= i < |ps| ==>
            !(ps[i].specs != "" && Electronic(codecs, types)) || codecs.decodeProductSpecs(ps[i].specs).Ok?)
      && (r.Ok? ==> |r.value| == |ps| && forall i :: 0 <= i < |ps| ==>
            && r.value[i].id == ps[i].id && r.value[i].price == ps[i].price && r.value[i].desc == ps[i].description
            && r.value[i].name == ps[i].name && r.value[i].image == ps[i].image
            && r.value[i].specs == (if ps[i].specs != "" && Electronic(codecs, types)
                                    then codecs.decodeProductSpecs(ps[i].specs).value else NoSpecs))
      && (r.Err? ==> exists k :: 0 <= k < |ps| && ps[k].specs != "" && Electronic(codecs, types)
                                 && codecs.decodeProductSpecs(ps[k].specs) == Err(r.error)
                                 && forall j :: 0 <= j < k ==>
                                      !(ps[j].specs != "" && Electronic(codecs, types)) || codecs.decodeProductSpecs(ps[j].specs).Ok?)
  {
    if catalog.productsByCategory(types, offset).Ok? {
      var ps := catalog.productsByCategory(types, offset).value;
      var f := (p: Product) => ViewOf(codecs, types, p);
      MapUntilErrOk(ps, f);
      if MapUntilErr(ps, f).Err? {
        MapUntilErrFirstError(ps, f);
        var k :| 0 <= k < |ps| && f(ps[k]) == Err(MapUntilErr(ps, f).error) && forall j :: 0 <= j < k ==> f(ps[j]).Ok?;
        assert ps[k].specs != "" && Electronic(codecs, types) && codecs.decodeProductSpecs(ps[k].specs) == Err(MapUntilErr(ps, f).error);
      }
    }
  }

  // --------------------------------------------------------------- GetAllStock

  predicate CountsActive(inv: Inventory) { inv.status == "active" || inv.status == "archived" }
  predicate CountsDraft(inv: Inventory) { inv.status == "draft" }

  /** The specifications of an inventory, decoded in order, or the first error. */
  function DecodeSpecs(codecs: Codecs, rows: seq<Specification>): Result<seq<InventorySpec>>
  {
    MapUntilErr(rows, (r: Specification) => codecs.decodeInventorySpec(r.content))
  }

  /** The stock entry of one inventory: its specifications (looked up by the
      inventory's own id), its product's name, and its fields. */
  function StockEntry(catalog: Catalog, codecs: Codecs, inv: Inventory): Result<InventoryDto>
  {
    match catalog.specsByInventoryID(ParseInt(inv.id).0)
    case Err(e) => Err(e)
    case Ok(rows) =>
      match DecodeSpecs(codecs, rows)
      case Err(e) => Err(e)
      case Ok(specs) =>
        match catalog.productByID(inv.productID)
        case Err(e) => Err(e)
        case Ok(product) =>
          Ok(InventoryDto(inv.id, product.name, FormatInt(inv.productID), codecs.formatDecimal(inv.price),
                          inv.available, inv.currencyCode, inv.status, inv.color, inv.colorImg,
                          Split(inv.image, ','), specs))
  }

  /** The header `GetAllStock` computes over a page of inventories. */
  function StockHeader(invs: seq<Inventory>): Header
  {
    Header(CountWhere(invs, CountsActive), CountWhere(invs, CountsDraft), |invs|)
  }

  /** What `GetAllStock(page, limit)` answers. */
  function AllStock(catalog: Catalog, codecs: Codecs, page: int, limit: int): Result<StockInInventory>
  {
    match catalog.inventoriesLimit(limit, page)
    case Err(e) => Err(Service("get stock", e))
    case Ok(invs) =>
      match MapUntilErr(invs, (inv: Inventory) => StockEntry(catalog, codecs, inv))
      case Err(e) => Err(e)
      case Ok(stock) => Ok(StockInInventory(page, limit, StockHeader(invs), stock))
  }

  /** `GetAllStock` wraps a failed page read as a "get stock" service error; on
      success it echoes page and limit, counts every inventory in `all`, active and
      archived ones in `active` and drafts in `draft` (so active + draft <= all,
      with equality exactly when no other status occurs), and lists one entry per
      inventory, in order, with the inventory's id, status and split images. */
  lemma AllStockMeaning(catalog: Catalog, codecs: Codecs, page: int, limit: int)
    ensures catalog.inventoriesLimit(limit, page).Err? ==>
      AllStock(catalog, codecs, page, limit) == Err(Service("get stock", catalog.inventoriesLimit(limit, page).error))
    ensures catalog.inventoriesLimit(limit, page).Ok? && AllStock(catalog, codecs, page, limit).Ok? ==>
      var invs := catalog.inventoriesLimit(limit, page).value;
      var s := AllStock(catalog, codecs, page, limit).value;
      && s.page == page && s.limit == limit && s.header.all == |invs|
      && s.header.active + s.header.draft <= s.header.all
      && (s.header.active + s.header.draft == s.header.all <==>
            forall i :: 0 <= i < |invs| ==> invs[i].status in {"active", "archived", "draft"})
      && |s.stock| == |invs|
      && forall i :: 0 <= i < |invs| ==>
           s.stock[i].id == invs[i].id && s.stock[i].status == invs[i].status
           && s.stock[i].image == Split(invs[i].image, ',') && s.stock[i].productID == FormatInt(invs[i].productID)
  {
    if catalog.inventoriesLimit(limit, page).Ok? && AllStock(catalog, codecs, page, limit).Ok? {
      var invs := catalog.inventoriesLimit(limit, page).value;
      var f := (inv: Inventory) => StockEntry(catalog, codecs, inv);
      var s := AllStock(catalog, codecs, page, limit).value;
      assert MapUntilErr(invs, f).Ok? && s == StockInInventory(page, limit, StockHeader(invs), MapUntilErr(invs, f).value);
      assert s.header.active + s.header.draft <= s.header.all
        && (s.header.active + s.header.draft == s.header.all <==>
              forall i :: 0 <= i < |invs| ==> invs[i].status in {"active", "archived", "draft"}) by {
        CountDisjoint(invs, CountsActive, CountsDraft);
      }
      MapUntilErrOk(invs, f);
      forall i | 0 <= i < |invs|
        ensures s.stock[i].id == invs[i].id && s.stock[i].status == invs[i].status
                && s.stock[i].image == Split(invs[i].image, ',') && s.stock[i].productID == FormatInt(invs[i].productID)
      {
        StockEntryFields(catalog, codecs, invs[i]);
      }
    }
  }

  /** What a stock entry needs to load: the specification rows stored under the
      inventory's own id, each of them decodable, and the inventory's product. */
  predicate EntryLoads(catalog: Catalog, codecs: Codecs, inv: Inventory)
  {
    var rows := catalog.specsByInventoryID(ParseInt(inv.id).0);
    && rows.Ok?
    && (forall j :: 0 <= j < |rows.value| ==> codecs.decodeInventorySpec(rows.value[j].content).Ok?)
    && catalog.productByID(inv.productID).Ok?
  }

  /** A stock entry is built exactly when everything it needs loads. */
  lemma StockEntryLoads(catalog: Catalog, codecs: Codecs, inv: Inventory)
    ensures StockEntry(catalog, codecs, inv).Ok? <==> EntryLoads(catalog, codecs, inv)
  {
    var rows := catalog.specsByInventoryID(ParseInt(inv.id).0);
    if rows.Ok? {
      MapUntilErrOk(rows.value, (r: Specification) => codecs.decodeInventorySpec(r.content));
    }
  }

  /** Once the page is read, `GetAllStock` succeeds exactly when every entry on it
      loads; otherwise it returns the error of the first entry that does not. */
  lemma AllStockSucceeds(catalog: Catalog, codecs: Codecs, page: int, limit: int)
    ensures catalog.inventoriesLimit(limit, page).Ok? ==>
      var invs := catalog.inventoriesLimit(limit, page).value;
      var r := AllStock(catalog, codecs, page, limit);
      && (r.Ok? <==> forall i :: 0 <= i < |invs| ==> EntryLoads(catalog, codecs, invs[i]))
      && (r.Err? ==> exists k :: 0 <= k < |invs| && StockEntry(catalog, codecs, invs[k]) == Err(r.error)
                                 && forall j :: 0 <= j < k ==> EntryLoads(catalog, codecs, invs[j]))
  {
    if catalog.inventoriesLimit(limit, page).Ok? {
      var invs := catalog.inventoriesLimit(limit, page).value;
      var f := (inv: Inventory) => StockEntry(catalog, codecs, inv);
      forall inv | inv in invs
        ensures f(inv).Ok? <==> EntryLoads(catalog, codecs, inv)
      {
        StockEntryLoads(catalog, codecs, inv);
      }
      MapUntilErrOk(invs, f);
      if MapUntilErr(invs, f).Err? {
        MapUntilErrFirstError(invs, f);
      }
    }
  }

  /** A stock entry carries the inventory's own id, status, images and product id. */
  lemma StockEntryFields(catalog: Catalog, codecs: Codecs, inv: Inventory)
    ensures StockEntry(catalog, codecs, inv).Ok? ==>
      var e := StockEntry(catalog, codecs, inv).value;
      e.id == inv.id && e.status == inv.status && e.image == Split(inv.image, ',') && e.productID == FormatInt(inv.productID)
  {
  }

  /** A draft only ever counts as a draft, and active and archived stock only as
      active: the two counters of a page of one status. */
  lemma StockHeaderOfUniformPage(invs: seq<Inventory>, status: string)
    requires forall i :: 0 <= i < |invs| ==> invs[i].status == status
    ensures status == "draft" ==> StockHeader(invs) == Header(0, |invs|, |invs|)
    ensures (status == "active" || status == "archived") ==> StockHeader(invs) == Header(|invs|, 0, |invs|)
    ensures status !in {"active", "archived", "draft"} ==> StockHeader(invs) == Header(0, 0, |invs|)
  {
    CountDisjoint(invs, CountsActive, CountsDraft);
    if status == "draft" {
      CountNone(invs, CountsActive);
    } else if status == "active" || status == "archived" {
      CountNone(invs, CountsDraft);
    } else {
      CountNone(invs, CountsActive);
      CountNone(invs, CountsDraft);
    }
  }

  /** A counter whose condition holds nowhere stays at zero. */
  lemma {:induction false} CountNone<A>(xs: seq<A>, p: A -> bool)
    requires forall i :: 0 <= i < |xs| ==> !p(xs[i])
    ensures CountWhere(xs, p) == 0
  {
    if xs != [] {
      var init := xs[..|xs| - 1];
      assert forall i :: 0 <= i < |init| ==> init[i] == xs[i];
      CountNone(init, p);
    }
  }

  // ------------------------------------------------- GetProductsLimit and Search

  /** The response fields of one product. */
  function ResponseOf(codecs: Codecs, p: Product): ProductResponse
  {
    ProductResponse(p.id, p.price, p.description, p.name, p.status, Split(p.image, ','), codecs.hanoiTimezone(p.created))
  }

  /** One product of `GetProductsLimit`: its category must exist and load. */
  function CheckedResponse(catalog: Catalog, codecs: Codecs, p: Product): Result<ProductResponse>
  {
    match catalog.categoryByID(ParseInt(p.categoryID).0)
    case Err(e) => Err(e)
    case Ok(category) =>
      match codecs.loadCategory(category.name)
      case Err(e) => Err(e)
      case Ok(_) => Ok(ResponseOf(codecs, p))
  }

  /** What `GetProductsLimit(limit)` answers. */
  function ProductsLimit(catalog: Catalog, codecs: Codecs, limit: int): Result<seq<ProductResponse>>
  {
    match catalog.productsLimit(limit)
    case Err(e) => Err(e)
    case Ok(products) => MapUntilErr(products, (p: Product) => CheckedResponse(catalog, codecs, p))
  }

  /** `GetProductsLimit` succeeds exactly when the page is read and every product's
      category exists and loads, and then answers one response per product, in
      order. */
  lemma ProductsLimitMeaning(catalog: Catalog, codecs: Codecs, limit: int)
    ensures catalog.productsLimit(limit).Err? ==> ProductsLimit(catalog, codecs, limit) == Err(catalog.productsLimit(limit).error)
    ensures catalog.productsLimit(limit).Ok? ==>
      var ps := catalog.productsLimit(limit).value;
      var r := ProductsLimit(catalog, codecs, limit);
      && (r.Ok? <==> forall i :: 0 <= i < |ps| ==>
            catalog.categoryByID(ParseInt(ps[i].categoryID).0).Ok?
            && codecs.loadCategory(catalog.categoryByID(ParseInt(ps[i].categoryID).0).value.name).Ok?)
      && (r.Ok? ==> |r.value| == |ps| && forall i :: 0 <= i < |ps| ==> r.value[i] == ResponseOf(codecs, ps[i]))
  {
    if catalog.productsLimit(limit).Ok? {
      MapUntilErrOk(catalog.productsLimit(limit).value, (p: Product) => CheckedResponse(catalog, codecs, p));
    }
  }

  /** What `Search(keyword)` answers. */
  function SearchResult(catalog: Catalog, codecs: Codecs, keyword: string): Result<seq<ProductResponse>>
  {
    match catalog.searchProducts(keyword)
    case Err(e) => Err(Service("keyword error", e))
    case Ok(ps) => Ok(seq(|ps|, i requires 0 <= i < |ps| => ResponseOf(codecs, ps[i])))
  }

  // -------------------------------------------------------------- CreateProduct

  /** The row `CreateProduct` inserts for a category of kind `types`, or the error
      for specs of the wrong dynamic type. */
  function ProductRecord(codecs: Codecs, dto: NewProduct, types: bv64): Result<Product>
  {
    var prd := Product(0, dto.name, dto.price, dto.description, dto.supplierID, dto.categoryID, dto.status, "{}", "", Time(0));
    if dto.specs != NilSpecs && Electronic(codecs, types) then
      if dto.specs.SpecsOf? then Ok(prd.(specs := codecs.encodeProductSpecs(dto.specs.specs)))
      else Err(Message("invalid specifications"))
    else Ok(prd)
  }

  /** Everything `CreateProduct` decides before its one write: the category lookup
      (by `Atoi(categoryID)`), the category load, and the row. */
  function CreatePlan(catalog: Catalog, codecs: Codecs, dto: NewProduct): Result<Product>
  {
    match catalog.categoryByID(ParseInt(dto.categoryID).0)
    case Err(e) => Err(Wrapped("category not found", e))
    case Ok(category) =>
      match codecs.loadCategory(category.name)
      case Err(e) => Err(Wrapped("category invalid", e))
      case Ok(types) => ProductRecord(codecs, dto, types)
  }

  /** `CreateProduct` fails before writing exactly when the category is missing,
      does not load, or the specs of an electronic product are not
      `dtos.ProductSpecs`; the inserted row copies the request and its specs are
      "{}" unless the category is electronic and specs were given, in which case
      they are the JSON of those specs. */
  lemma CreatePlanMeaning(catalog: Catalog, codecs: Codecs, dto: NewProduct)
    ensures var c := catalog.categoryByID(ParseInt(dto.categoryID).0);
      && (c.Err? ==> CreatePlan(catalog, codecs, dto) == Err(Wrapped("category not found", c.error)))
      && (c.Ok? && codecs.loadCategory(c.value.name).Err? ==>
            CreatePlan(catalog, codecs, dto) == Err(Wrapped("category invalid", codecs.loadCategory(c.value.name).error)))
      && (c.Ok? && codecs.loadCategory(c.value.name).Ok? ==>
            var types := codecs.loadCategory(c.value.name).value;
            var r := CreatePlan(catalog, codecs, dto);
            && (r.Err? <==> dto.specs == OtherValue && Electronic(codecs, types))
            && (r.Err? ==> r.error == Message("invalid specifications"))
            && (r.Ok? ==>
                  && r.value.name == dto.name && r.value.price == dto.price && r.value.description == dto.description
                  && r.value.supplierID == dto.supplierID && r.value.categoryID == dto.categoryID
                  && r.value.status == dto.status
                  && r.value.specs == (if dto.specs.SpecsOf? && Electronic(codecs, types)
                                       then codecs.encodeProductSpecs(dto.specs.specs) else "{}")))
  {
  }

  // -------------------------------------------------------- InsertIntoInventory

  /** The inventory row `InsertIntoInventory` inserts: always "active", images
      joined with ','. */
  function InventoryRecord(codecs: Codecs, dto: InventoryDto): Inventory
  {
    Inventory("", ParseInt(dto.productID).0, codecs.parseDecimal(dto.price), dto.available, dto.currencyCode,
              "active", dto.color, dto.colorImg, Join(dto.image, ','))
  }

  /** The category kind of the product an inventory belongs to, or the error of the
      product lookup, the category lookup or the category load. */
  function InventoryCategory(catalog: Catalog, codecs: Codecs, dto: InventoryDto): Result<bv64>
  {
    match catalog.productByID(ParseInt(dto.productID).0)
    case Err(e) => Err(e)
    case Ok(p) =>
      match catalog.categoryByID(ParseInt(p.categoryID).0)
      case Err(e) => Err(e)
      case Ok(category) => codecs.loadCategory(category.name)
  }

  /** The plan `InsertIntoInventory` attempts for an electronic category: one
      specification row per submitted spec, in order, under the new inventory's id.
      What a log that attempted it shows is `Backend.AttemptedMeaning` and
      `Backend.AttemptedOutcome`. */
  function SpecWrites(codecs: Codecs, invID: int, specs: seq<InventorySpec>): seq<Write>
  {
    seq(|specs|, i requires 0 <= i < |specs| => InsertSpec(Specification(invID, codecs.encodeInventorySpec(specs[i]))))
  }

  /** The images of an inventory survive being stored joined with ',' and read back
      split at ',' (as every read of the service does), as long as there is at
      least one and none contains ','. */
  lemma StoredImagesRoundTrip(codecs: Codecs, dto: InventoryDto)
    requires |dto.image| >= 1
    requires forall i :: 0 <= i < |dto.image| ==> ',' !in dto.image[i]
    ensures Split(InventoryRecord(codecs, dto).image, ',') == dto.image
    ensures InventoryRecord(codecs, dto).status == "active"
  {
    SplitJoin(dto.image, ',');
  }

  // ------------------------------------------------------------------- uploads

  /** Uploading one file and recording its URL with `record`, the write at log
      position `pos`: the writes issued and the error (open, upload, record or
      close, in that order). */
  function UploadOne(blob: Blob, f: FileHeader, record: string -> Write, reply: (nat, Write) -> Reply, pos: nat)
    : (res: (seq<Write>, Option<Error>))
    ensures |res.0| <= 1
  {
    match blob.open(f)
    case Err(e) => ([], Some(e))
    case Ok(file) =>
      match blob.upload(file)
      case Err(e) => ([], Some(e))
      case Ok(url) =>
        var w := record(url);
        if reply(pos, w).err.Some? then ([w], reply(pos, w).err) else ([w], blob.close(file))
  }

  /** Uploading `files` in order from log position `start`, stopping at the first
      error: the writes issued and the error. */
  function UploadAll(blob: Blob, files: seq<FileHeader>, record: string -> Write, reply: (nat, Write) -> Reply, start: nat)
    : (res: (seq<Write>, Option<Error>))
    ensures |res.0| <= |files|
  {
    if files == [] then ([], None)
    else
      var prev := UploadAll(blob, files[..|files| - 1], record, reply, start);
      if prev.1.Some? then prev
      else
        var one := UploadOne(blob, files[|files| - 1], record, reply, start + |prev.0|);
        (prev.0 + one.0, one.1)
  }

  /** One more file: extending the uploaded prefix by the next file. */
  lemma UploadAllStep(blob: Blob, files: seq<FileHeader>, i: nat, record: string -> Write, reply: (nat, Write) -> Reply, start: nat)
    requires i < |files|
    ensures var prev := UploadAll(blob, files[..i], record, reply, start);
      UploadAll(blob, files[..i + 1], record, reply, start) ==
        if prev.1.Some? then prev
        else
          var one := UploadOne(blob, files[i], record, reply, start + |prev.0|);
          (prev.0 + one.0, one.1)
  {
    assert files[..i + 1][..i] == files[..i];
  }

  /** Once a file fails, the later files are not touched. */
  lemma {:induction false} UploadAllStops(blob: Blob, files: seq<FileHeader>, k: nat, record: string -> Write, reply: (nat, Write) -> Reply, start: nat)
    requires k <= |files| && UploadAll(blob, files[..k], record, reply, start).1.Some?
    ensures UploadAll(blob, files, record, reply, start) == UploadAll(blob, files[..k], record, reply, start)
    decreases |files| - k
  {
    if k < |files| {
      UploadAllStep(blob, files, k, record, reply, start);
      UploadAllStops(blob, files, k + 1, record, reply, start);
    } else {
      assert files[..k] == files;
    }
  }

  /** What an upload of `files` answers: "missing image file" with no write for a
      nil list, the outcome of `UploadAll` otherwise. */
  function Upload(blob: Blob, files: Option<seq<FileHeader>>, record: string -> Write, reply: (nat, Write) -> Reply, start: nat)
    : (res: (seq<Write>, Option<Error>))
  {
    match files
    case None => ([], Some(Message("missing image file")))
    case Some(fs) => UploadAll(blob, fs, record, reply, start)
  }

  /** The URL a file is uploaded to, when it opens and uploads. */
  ghost predicate Uploads(blob: Blob, f: FileHeader)
  {
    blob.open(f).Ok? && blob.upload(blob.open(f).value).Ok?
  }

  /** A nil file list is refused without any write; an upload that returns nil
      opened, uploaded and recorded every file, in order, one write each. */
  lemma {:induction false} UploadMeaning(blob: Blob, files: seq<FileHeader>, record: string -> Write, reply: (nat, Write) -> Reply, start: nat)
    ensures Upload(blob, None, record, reply, start) == ([], Some(Message("missing image file")))
    ensures UploadAll(blob, files, record, reply, start).1.None? ==>
      var ws := UploadAll(blob, files, record, reply, start).0;
      && |ws| == |files|
      && forall i :: 0 <= i < |files| ==>
           Uploads(blob, files[i]) && ws[i] == record(blob.upload(blob.open(files[i]).value).value)
  {
    if files != [] {
      var init := files[..|files| - 1];
      var prev := UploadAll(blob, init, record, reply, start);
      UploadMeaning(blob, init, record, reply, start);
      assert forall i :: 0 <= i < |init| ==> init[i] == files[i];
    }
  }

  // ------------------------------------------------------------ GetInventoryByID

  /** The inventory detail of `GetInventoryByID`, with its specifications looked up
      under `specsKey`. */
  function InventoryDetail(catalog: Catalog, codecs: Codecs, inventoryID: int, specsKey: Inventory -> int): Result<InventoryDto>
  {
    match catalog.inventoryByID(inventoryID)
    case Err(e) => Err(e)
    case Ok(stock) =>
      match catalog.productByID(stock.productID)
      case Err(e) => Err(e)
      case Ok(product) =>
        match catalog.specsByInventoryID(specsKey(stock))
        case Err(e) => Err(e)
        case Ok(rows) =>
          match DecodeSpecs(codecs, rows)
          case Err(e) => Err(e)
          case Ok(specs) =>
            Ok(InventoryDto(stock.id, product.name, FormatInt(stock.productID), codecs.formatDecimal(stock.price),
                            stock.available, stock.currencyCode, stock.status, stock.color, stock.colorImg,
                            Split(stock.image, ','), specs))
  }

  /** As written: the specifications are looked up under the parsed `ProductID`
      field of the result, that is under the product's id. */
  function InventoryByIDAsWritten(catalog: Catalog, codecs: Codecs, inventoryID: int): Result<InventoryDto>
  {
    InventoryDetail(catalog, codecs, inventoryID, (stock: Inventory) => ParseInt(FormatInt(stock.productID)).0)
  }

  /** Corrected: the specifications are looked up under the inventory's own id, as
      `GetAllStock` and `ProductDetailOf` do. */
  function InventoryByID(catalog: Catalog, codecs: Codecs, inventoryID: int): Result<InventoryDto>
  {
    InventoryDetail(catalog, codecs, inventoryID, (stock: Inventory) => ParseInt(stock.id).0)
  }

  /** As written, the specs shown for a 64-bit product id are those stored under
      the product's id, whatever the inventory's own id is. */
  lemma AsWrittenUsesProductID(catalog: Catalog, codecs: Codecs, inventoryID: int)
    requires catalog.inventoryByID(inventoryID).Ok? && IsInt64(catalog.inventoryByID(inventoryID).value.productID)
    ensures InventoryByIDAsWritten(catalog, codecs, inventoryID) ==
      InventoryDetail(catalog, codecs, inventoryID, (stock: Inventory) => stock.productID)
  {
    ParseFormat(catalog.inventoryByID(inventoryID).value.productID);
  }

  /** Inventory "7" of product 3, with one specification stored under 7 and none
      under 3. */
  function SampleCatalog(): Catalog
  {
    var stock := Inventory("7", 3, Decimal(0, 0), 1, "VND", "active", "", "", "");
    Catalog(
      (types: bv64, offset: int) => Err(Message("unused")),
      (id: int) => Ok(Product(3, "phone", Decimal(0, 0), "", "", "1", "active", "{}", "", Time(0))),
      (limit: int) => Err(Message("unused")),
      (keyword: string) => Err(Message("unused")),
      (id: int) => Ok(stock),
      (id: int) => Err(Message("unused")),
      (limit: int, page: int) => Err(Message("unused")),
      (id: int) => if id == 7 then Ok([Specification(7, "{\"ram\":8}")]) else Ok([]),
      (id: int) => Err(Message("unused")))
  }

  /** On that catalog the code as written shows no specifications for inventory 7,
      while the corrected lookup shows its one specification. */
  lemma AsWrittenMissesSpecs(codecs: Codecs)
    requires codecs.decodeInventorySpec("{\"ram\":8}") == Ok(InventorySpec(8, 0))
    ensures InventoryByIDAsWritten(SampleCatalog(), codecs, 7).Ok?
    ensures InventoryByIDAsWritten(SampleCatalog(), codecs, 7).value.specs == []
    ensures InventoryByID(SampleCatalog(), codecs, 7).Ok?
    ensures InventoryByID(SampleCatalog(), codecs, 7).value.specs == [InventorySpec(8, 0)]
  {
    ParseFormat(3);
    assert ParseInt("7").0 == 7 by {
      ParseFormat(7);
    }
    var rows := [Specification(7, "{\"ram\":8}")];
    MapUntilErrOk(rows, (r: Specification) => codecs.decodeInventorySpec(r.content));
    assert DecodeSpecs(codecs, rows).value == [InventorySpec(8, 0)];
  }

  /** The corrected lookup shows exactly the decoded specifications stored under
      the inventory's own id. */
  lemma InventoryByIDMeaning(catalog: Catalog, codecs: Codecs, inventoryID: int)
    ensures catalog.inventoryByID(inventoryID).Err? ==>
      InventoryByID(catalog, codecs, inventoryID) == Err(catalog.inventoryByID(inventoryID).error)
    ensures catalog.inventoryByID(inventoryID).Ok? ==>
      var stock := catalog.inventoryByID(inventoryID).value;
      catalog.productByID(stock.productID).Err? ==>
        InventoryByID(catalog, codecs, inventoryID) == Err(catalog.productByID(stock.productID).error)
    ensures catalog.inventoryByID(inventoryID).Ok? ==>
      var stock := catalog.inventoryByID(inventoryID).value;
      var rows := catalog.specsByInventoryID(ParseInt(stock.id).0);
      var r := InventoryByID(catalog, codecs, inventoryID);
      catalog.productByID(stock.productID).Ok? ==>
      && (rows.Err? ==> r == Err(rows.error))
      && (r.Ok? <==> rows.Ok? && forall i :: 0 <= i < |rows.value| ==> codecs.decodeInventorySpec(rows.value[i].content).Ok?)
      && (rows.Ok? && r.Err? ==> exists k :: 0 <= k < |rows.value| && codecs.decodeInventorySpec(rows.value[k].content) == Err(r.error)
                                   && forall j :: 0 <= j < k ==> codecs.decodeInventorySpec(rows.value[j].content).Ok?)
    ensures catalog.inventoryByID(inventoryID).Ok? ==>
      var stock := catalog.inventoryByID(inventoryID).value;
      var rows := catalog.specsByInventoryID(ParseInt(stock.id).0);
      var r := InventoryByID(catalog, codecs, inventoryID);
      r.Ok? ==>
      && catalog.productByID(stock.productID).Ok? && rows.Ok?
      && r.value.id == stock.id && r.value.productName == catalog.productByID(stock.productID).value.name
      && r.value.productID == FormatInt(stock.productID) && r.value.price == codecs.formatDecimal(stock.price)
      && r.value.available == stock.available && r.value.currencyCode == stock.currencyCode
      && r.value.status == stock.status && r.value.color == stock.color && r.value.colorImg == stock.colorImg
      && r.value.image == Split(stock.image, ',')
      && |r.value.specs| == |rows.value|
      && forall i :: 0 <= i < |rows.value| ==> r.value.specs[i] == codecs.decodeInventorySpec(rows.value[i].content).value
  {
    if catalog.inventoryByID(inventoryID).Ok? {
      var stock := catalog.inventoryByID(inventoryID).value;
      var rows := catalog.specsByInventoryID(ParseInt(stock.id).0);
      var f := (r: Specification) => codecs.decodeInventorySpec(r.content);
      if catalog.productByID(stock.productID).Ok? && rows.Ok? {
        MapUntilErrOk(rows.value, f);
        if MapUntilErr(rows.value, f).Err? {
          MapUntilErrFirstError(rows.value, f);
        }
      }
    }
  }
}
