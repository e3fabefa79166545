/** `ProductService` (internal/core/service/products/products.go): each operation
    is proved to compute what the functions of `ProductsModel` specify. */
module ProductsService {
  import opened Common
  import opened Strconv
  import opened Strings
  import opened Traverse
  import opened ProductsModel
  import Backend

  class ProductService {
    const catalog: Catalog
    const codecs: Codecs
    const blob: Blob
    /** The writes issued through the product, inventory and specification
        repositories, in order. */
    const writes: Backend.WriteLog<Write>

    /** `New(blob, products, inventory, category, specs)`. */
    constructor New(blob: Blob, catalog: Catalog, codecs: Codecs, writes: Backend.WriteLog<Write>)
      ensures this.blob == blob && this.catalog == catalog && this.codecs == codecs && this.writes == writes
    {
      this.blob := blob;
      this.catalog := catalog;
      this.codecs := codecs;
      this.writes := writes;
    }

    /** The view of one product inside `ViewDataOf`'s loop. */
    method ViewOne(types: bv64, p: Product) returns (r: Result<ProductView>)
      ensures r == ViewOf(codecs, types, p)
    {
      var view := ProductView(p.id, p.price, p.description, p.name, p.image, NoSpecs);
      if p.specs != "" && Electronic(codecs, types) {
        match codecs.decodeProductSpecs(p.specs)
        case Err(e) =>
          return Err(e);
        case Ok(specs) =>
          view := view.(specs := specs);
      }
      return Ok(view);
    }

    /** `ViewDataOf`. */
    method ViewDataOf(types: bv64, offset: int) returns (r: Result<seq<ProductView>>)
      ensures r == ViewData(catalog, codecs, types, offset)
    {
      var page := catalog.productsByCategory(types, offset);
      if page.Err? {
        return Err(page.error);
      }
      var products := page.value;
      ghost var f := (p: Product) => ViewOf(codecs, types, p);
      var views: seq<ProductView> := [];
      for i := 0 to |products|
        invariant MapUntilErr(products[..i], f) == Ok(views)
      {
        var view := ViewOne(types, products[i]);
        MapUntilErrStep(products, i, f);
        assert f(products[i]) == view;
        if view.Err? {
          MapUntilErrStops(products, i + 1, f);
          return Err(view.error);
        }
        views := views + [view.value];
      }
      assert products[..|products|] == products;
      return Ok(views);
    }

    /** The inner loop that decodes the specification rows of one inventory. */
    method DecodeSpecRows(rows: seq<Specification>) returns (r: Result<seq<InventorySpec>>)
      ensures r == DecodeSpecs(codecs, rows)
    {
      ghost var f := (row: Specification) => codecs.decodeInventorySpec(row.content);
      var specs: seq<InventorySpec> := [];
      for i := 0 to |rows|
        invariant MapUntilErr(rows[..i], f) == Ok(specs)
      {
        MapUntilErrStep(rows, i, f);
        match codecs.decodeInventorySpec(rows[i].content)
        case Err(e) =>
          MapUntilErrStops(rows, i + 1, f);
          return Err(e);
        case Ok(spec) =>
          specs := specs + [spec];
      }
      assert rows[..|rows|] == rows;
      return Ok(specs);
    }

    /** The body of `GetAllStock`'s loop for one inventory, after the counters. */
    method StockEntryOf(inv: Inventory) returns (r: Result<InventoryDto>)
      ensures r == StockEntry(catalog, codecs, inv)
    {
      var invID := ParseInt(inv.id).0;
      var rows;
      match catalog.specsByInventoryID(invID)
      case Err(e) =>
        return Err(e);
      case Ok(rs) =>
        rows := rs;
      var specs := DecodeSpecRows(rows);
      if specs.Err? {
        return Err(specs.error);
      }
      match catalog.productByID(inv.productID)
      case Err(e) =>
        return Err(e);
      case Ok(product) =>
        return Ok(InventoryDto(inv.id, product.name, FormatInt(inv.productID), codecs.formatDecimal(inv.price),
                               inv.available, inv.currencyCode, inv.status, inv.color, inv.colorImg,
                               Split(inv.image, ','), specs.value));
    }

    /** `GetAllStock`. */
    method GetAllStock(page: int, limit: int) returns (r: Result<StockInInventory>)
      ensures r == AllStock(catalog, codecs, page, limit)
    {
      var invs;
      match catalog.inventoriesLimit(limit, page)
      case Err(e) =>
        return Err(Service("get stock", e));
      case Ok(rows) =>
        invs := rows;
      ghost var f := (inv: Inventory) => StockEntry(catalog, codecs, inv);
      var active, draft := 0, 0;
      var stock: seq<InventoryDto> := [];
      for i := 0 to |invs|
        invariant active == CountWhere(invs[..i], CountsActive)
        invariant draft == CountWhere(invs[..i], CountsDraft)
        invariant MapUntilErr(invs[..i], f) == Ok(stock)
      {
        CountWhereStep(invs, i, CountsActive);
        CountWhereStep(invs, i, CountsDraft);
        MapUntilErrStep(invs, i, f);
        var inv := invs[i];
        if inv.status == "active" {
          active := active + 1;
        } else if inv.status == "draft" {
          draft := draft + 1;
        } else if inv.status == "archived" {
          active := active + 1;
        }
        var entry := StockEntryOf(inv);
        if entry.Err? {
          MapUntilErrStops(invs, i + 1, f);
          return Err(entry.error);
        }
        stock := stock + [entry.value];
      }
      assert invs[..|invs|] == invs;
      return Ok(StockInInventory(page, limit, Header(active, draft, |invs|), stock));
    }

    /** `GetInventory`: the repository's answer. */
    method GetInventory(productID: int) returns (r: Result<seq<Inventory>>)
      ensures r == catalog.inventoriesByProductID(productID)
    {
      r := catalog.inventoriesByProductID(productID);
    }

    /** `GetInventoryByID`, with its specifications looked up under the inventory's
        own id. */
    method GetInventoryByID(inventoryID: int) returns (r: Result<InventoryDto>)
      ensures r == InventoryByID(catalog, codecs, inventoryID)
    {
      var stock, product, rows;
      match catalog.inventoryByID(inventoryID)
      case Err(e) =>
        return Err(e);
      case Ok(s) =>
        stock := s;
      match catalog.productByID(stock.productID)
      case Err(e) =>
        return Err(e);
      case Ok(p) =>
        product := p;
      match catalog.specsByInventoryID(ParseInt(stock.id).0)
      case Err(e) =>
        return Err(e);
      case Ok(rs) =>
        rows := rs;
      var specs := DecodeSpecRows(rows);
      if specs.Err? {
        return Err(specs.error);
      }
      return Ok(InventoryDto(stock.id, product.name, FormatInt(stock.productID), codecs.formatDecimal(stock.price),
                             stock.available, stock.currencyCode, stock.status, stock.color, stock.colorImg,
                             Split(stock.image, ','), specs.value));
    }

    /** `GetProductsLimit`. */
    method GetProductsLimit(limit: int) returns (r: Result<seq<ProductResponse>>)
      ensures r == ProductsLimit(catalog, codecs, limit)
    {
      var products;
      match catalog.productsLimit(limit)
      case Err(e) =>
        return Err(e);
      case Ok(ps) =>
        products := ps;
      ghost var f := (p: Product) => CheckedResponse(catalog, codecs, p);
      var responses: seq<ProductResponse> := [];
      for i := 0 to |products|
        invariant MapUntilErr(products[..i], f) == Ok(responses)
      {
        MapUntilErrStep(products, i, f);
        var p := products[i];
        var response := ProductResponse(p.id, p.price, p.description, p.name, p.status, Split(p.image, ','),
                                         codecs.hanoiTimezone(p.created));
        var categoryID := ParseInt(p.categoryID).0;
        match catalog.categoryByID(categoryID)
        case Err(e) =>
          MapUntilErrStops(products, i + 1, f);
          return Err(e);
        case Ok(category) =>
          if codecs.loadCategory(category.name).Err? {
            MapUntilErrStops(products, i + 1, f);
            return Err(codecs.loadCategory(category.name).error);
          }
        responses := responses + [response];
      }
      assert products[..|products|] == products;
      return Ok(responses);
    }

    /** `Search`. */
    method Search(keyword: string) returns (r: Result<seq<ProductResponse>>)
      ensures r == SearchResult(catalog, codecs, keyword)
      ensures r.Ok? ==> |r.value| == |catalog.searchProducts(keyword).value|
    {
      var products;
      match catalog.searchProducts(keyword)
      case Err(e) =>
        return Err(Service("keyword error", e));
      case Ok(ps) =>
        products := ps;
      var responses: seq<ProductResponse> := [];
      for i := 0 to |products|
        invariant |responses| == i
        invariant forall j :: 0 <= j < i ==> responses[j] == ResponseOf(codecs, products[j])
      {
        var p := products[i];
        responses := responses + [ProductResponse(p.id, p.price, p.description, p.name, p.status,
                                                  Split(p.image, ','), codecs.hanoiTimezone(p.created))];
      }
      assert responses == SearchResult(catalog, codecs, keyword).value;
      return Ok(responses);
    }

    /** `UpdateInventory`: one update of the row built from the request; the
        product id and the price are parsed with their errors ignored. */
    method UpdateInventory(dto: InventoryUpdate) returns (err: Option<Error>)
      modifies writes
      ensures var w := Write.UpdateInventory(Inventory(dto.id, ParseInt(dto.productID).0, codecs.parseDecimal(dto.price),
                                                       dto.available, dto.currencyCode, dto.status, "", "", ""));
        writes.entries == old(writes.entries) + [w] && err == writes.reply(old(|writes.entries|), w).err
    {
      var pid := ParseInt(dto.productID).0;
      var price := codecs.parseDecimal(dto.price);
      var r := writes.Exec(Write.UpdateInventory(Inventory(dto.id, pid, price, dto.available, dto.currencyCode,
                                                           dto.status, "", "", "")));
      err := r.err;
    }

    /** `DeleteInventoryByID`: one delete. */
    method DeleteInventoryByID(inventoryID: int) returns (err: Option<Error>)
      modifies writes
      ensures writes.entries == old(writes.entries) + [DeleteInventory(inventoryID)]
      ensures err == writes.reply(old(|writes.entries|), DeleteInventory(inventoryID)).err
    {
      var r := writes.Exec(DeleteInventory(inventoryID));
      err := r.err;
    }

    /** `DeleteProductByID`: one delete. */
    method DeleteProductByID(productID: int) returns (err: Option<Error>)
      modifies writes
      ensures writes.entries == old(writes.entries) + [DeleteProduct(productID)]
      ensures err == writes.reply(old(|writes.entries|), DeleteProduct(productID)).err
    {
      var r := writes.Exec(DeleteProduct(productID));
      err := r.err;
    }

    /** `UpdateProductInfo`: the category must exist and load, then one update. */
    method UpdateProductInfo(dto: ProductUpdate) returns (err: Option<Error>)
      modifies writes
      ensures var c := catalog.categoryByID(ParseInt(dto.categoryID).0);
        var w := UpdateProduct(Product(dto.id, dto.name, dto.price, dto.description, dto.supplierID,
                                       dto.categoryID, dto.status, "", "", Time(0)));
        && (c.Err? ==> err == Some(Wrapped("category not found", c.error)) && writes.entries == old(writes.entries))
        && (c.Ok? && codecs.loadCategory(c.value.name).Err? ==>
              err == Some(Wrapped("category invalid", codecs.loadCategory(c.value.name).error))
              && writes.entries == old(writes.entries))
        && (c.Ok? && codecs.loadCategory(c.value.name).Ok? ==>
              writes.entries == old(writes.entries) + [w] && err == writes.reply(old(|writes.entries|), w).err)
    {
      var category;
      match catalog.categoryByID(ParseInt(dto.categoryID).0)
      case Err(e) =>
        return Some(Wrapped("category not found", e));
      case Ok(c) =>
        category := c;
      if codecs.loadCategory(category.name).Err? {
        return Some(Wrapped("category invalid", codecs.loadCategory(category.name).error));
      }
      var r := writes.Exec(UpdateProduct(Product(dto.id, dto.name, dto.price, dto.description, dto.supplierID,
                                                 dto.categoryID, dto.status, "", "", Time(0))));
      err := r.err;
    }

    /** `CreateProduct`: -1 and the error when the category lookup, the category
        load or the specs' type fails, with nothing written; otherwise one insert,
        whose id and error are returned. */
    method CreateProduct(dto: NewProduct) returns (id: int, err: Option<Error>)
      modifies writes
      ensures CreatePlan(catalog, codecs, dto).Err? ==>
        id == -1 && err == Some(CreatePlan(catalog, codecs, dto).error) && writes.entries == old(writes.entries)
      ensures CreatePlan(catalog, codecs, dto).Ok? ==>
        var w := InsertProduct(CreatePlan(catalog, codecs, dto).value);
        writes.entries == old(writes.entries) + [w]
        && id == writes.reply(old(|writes.entries|), w).id && err == writes.reply(old(|writes.entries|), w).err
    {
      var category := catalog.categoryByID(ParseInt(dto.categoryID).0);
      if category.Err? {
        return -1, Some(Wrapped("category not found", category.error));
      }
      var types := codecs.loadCategory(category.value.name);
      if types.Err? {
        return -1, Some(Wrapped("category invalid", types.error));
      }
      var row := ProductRecord(codecs, dto, types.value);
      if row.Err? {
        return -1, Some(row.error);
      }
      var r := writes.Exec(InsertProduct(row.value));
      id, err := r.id, r.err;
    }

    /** The loop of `InsertIntoInventory` over the submitted specs: one insert per
        spec under `invID`, stopping at the first that fails. */
    method InsertSpecs(invID: int, specs: seq<InventorySpec>) returns (err: Option<Error>)
      modifies writes
      ensures Backend.Attempted(SpecWrites(codecs, invID, specs), writes.reply, old(writes.entries), writes.entries, err)
    {
      ghost var plan := SpecWrites(codecs, invID, specs);
      ghost var before := writes.entries;
      Backend.PendingStart(plan, writes.reply, |before|);
      for i := 0 to |specs|
        invariant writes.entries == before + plan[..i]
        invariant Backend.Pending(plan, writes.reply, |before|, plan[..i], plan[i..])
      {
        var w := InsertSpec(Specification(invID, codecs.encodeInventorySpec(specs[i])));
        assert w == plan[i];
        var e := Backend.IssueNext(writes, w, plan, before, plan[..i], plan[i..]);
        if e.Some? {
          return e;
        }
        assert plan[..i] + [w] == plan[..i + 1] && plan[i..][1..] == plan[i + 1..];
      }
      assert Backend.Attempted(plan, writes.reply, before, writes.entries, None) by {
        assert plan[..|specs|] == plan && plan[|specs|..] == [];
        Backend.PendingDone(plan, writes.reply, |before|, plan);
      }
      return None;
    }

    /** `InsertIntoInventory`: the product, its category and the category kind are
        looked up first; then one "active" inventory row, and for electronic
        categories one specification row per spec under the new row's id. */
    method InsertIntoInventory(dto: InventoryDto) returns (err: Option<Error>)
      modifies writes
      ensures InventoryCategory(catalog, codecs, dto).Err? ==>
        err == Some(InventoryCategory(catalog, codecs, dto).error) && writes.entries == old(writes.entries)
      ensures InventoryCategory(catalog, codecs, dto).Ok? ==>
        var ins := InsertInventory(InventoryRecord(codecs, dto));
        var rep := writes.reply(old(|writes.entries|), ins);
        && (rep.err.Some? ==> err == rep.err && writes.entries == old(writes.entries) + [ins])
        && (rep.err.None? && !Electronic(codecs, InventoryCategory(catalog, codecs, dto).value) ==>
              err == None && writes.entries == old(writes.entries) + [ins])
        && (rep.err.None? && Electronic(codecs, InventoryCategory(catalog, codecs, dto).value) ==>
              Backend.Attempted(SpecWrites(codecs, rep.id, dto.specs), writes.reply,
                                old(writes.entries) + [ins], writes.entries, err))
    {
      var product := catalog.productByID(ParseInt(dto.productID).0);
      if product.Err? {
        return Some(product.error);
      }
      var category := catalog.categoryByID(ParseInt(product.value.categoryID).0);
      if category.Err? {
        return Some(category.error);
      }
      var types := codecs.loadCategory(category.value.name);
      if types.Err? {
        return Some(types.error);
      }
      var r := writes.Exec(InsertInventory(InventoryRecord(codecs, dto)));
      if r.err.Some? {
        return r.err;
      }
      if Electronic(codecs, types.value) {
        err := InsertSpecs(r.id, dto.specs);
      } else {
        err := None;
      }
    }

    /** One file of an upload: open it, upload it, record its URL, close it. */
    method UploadFile(f: FileHeader, record: string -> Write) returns (err: Option<Error>)
      modifies writes
      ensures var one := UploadOne(blob, f, record, writes.reply, old(|writes.entries|));
        writes.entries == old(writes.entries) + one.0 && err == one.1
    {
      var file := blob.open(f);
      if file.Err? {
        assert writes.entries + [] == writes.entries;
        return Some(file.error);
      }
      var url := blob.upload(file.value);
      if url.Err? {
        assert writes.entries + [] == writes.entries;
        return Some(url.error);
      }
      var r := writes.Exec(record(url.value));
      if r.err.Some? {
        return r.err;
      }
      err := blob.close(file.value);
    }

    /** The next file of an upload whose first `i` files went through. */
    method UploadStep(files: seq<FileHeader>, i: nat, record: string -> Write, ghost before: seq<Write>)
      returns (err: Option<Error>)
      requires i < |files|
      requires writes.entries == before + UploadAll(blob, files[..i], record, writes.reply, |before|).0
      requires UploadAll(blob, files[..i], record, writes.reply, |before|).1 == None
      modifies writes
      ensures var res := UploadAll(blob, files[..i + 1], record, writes.reply, |before|);
        writes.entries == before + res.0 && err == res.1
    {
      ghost var prev := UploadAll(blob, files[..i], record, writes.reply, |before|).0;
      ghost var mid := writes.entries;
      err := UploadFile(files[i], record);
      ghost var one := UploadOne(blob, files[i], record, writes.reply, |mid|);
      assert writes.entries == mid + one.0 && err == one.1;
      assert UploadAll(blob, files[..i + 1], record, writes.reply, |before|) == (prev + one.0, one.1) by {
        UploadAllStep(blob, files, i, record, writes.reply, |before|);
        assert |mid| == |before| + |prev|;
      }
      assert mid + one.0 == before + (prev + one.0);
    }

    /** The loop shared by the two image uploads: each file in turn, stopping at
        the first error. */
    method UploadFiles(files: seq<FileHeader>, record: string -> Write) returns (err: Option<Error>)
      modifies writes
      ensures var res := UploadAll(blob, files, record, writes.reply, old(|writes.entries|));
        writes.entries == old(writes.entries) + res.0 && err == res.1
    {
      ghost var before := writes.entries;
      assert before + [] == before;
      for i := 0 to |files|
        invariant writes.entries == before + UploadAll(blob, files[..i], record, writes.reply, |before|).0
        invariant UploadAll(blob, files[..i], record, writes.reply, |before|).1 == None
      {
        err := UploadStep(files, i, record, before);
        if err.Some? {
          UploadAllStops(blob, files, i + 1, record, writes.reply, |before|);
          return;
        }
      }
      assert files[..|files|] == files;
      return None;
    }

    /** `UploadStockImage`: "missing image file" for a nil list, otherwise every
        file's URL recorded on the inventory `id`. */
    method UploadStockImage(id: int, files: Option<seq<FileHeader>>) returns (err: Option<Error>)
      modifies writes
      ensures var res := Upload(blob, files, (url: string) => StockImage(id, url), writes.reply, old(|writes.entries|));
        writes.entries == old(writes.entries) + res.0 && err == res.1
    {
      if files.None? {
        assert old(writes.entries) + [] == writes.entries;
        return Some(Message("missing image file"));
      }
      err := UploadFiles(files.value, (url: string) => StockImage(id, url));
    }

    /** `UploadProductImage`: "missing image file" for a nil list, otherwise every
        file's URL recorded on the product `id`. */
    method UploadProductImage(id: int, files: Option<seq<FileHeader>>) returns (err: Option<Error>)
      modifies writes
      ensures var res := Upload(blob, files, (url: string) => ProductImage(url, id), writes.reply, old(|writes.entries|));
        writes.entries == old(writes.entries) + res.0 && err == res.1
    {
      if files.None? {
        assert old(writes.entries) + [] == writes.entries;
        return Some(Message("missing image file"));
      }
      err := UploadFiles(files.value, (url: string) => ProductImage(url, id));
    }
  }
}
