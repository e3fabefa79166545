/** The cache-aside decorator around the orders repository
    (internal/core/repos/orders/orders.cache.go): `Get` and `GetProductByOrderID`
    answer from the cache when they can and fill it from the repository when they
    cannot; every other operation goes straight to the repository. */
module OrdersCache {
  import opened Common
  import opened Strconv

  /** An `orders` row (the fields the decorator never looks at are left out). */
  datatype Order = Order(id: int, uuid: string, userID: int, status: string)

  /** A product line of an order. */
  datatype ProductInOrder = ProductInOrder(id: int, orderID: int, inventoryID: int, quantity: int)

  /** One row of `GetItemByCode`'s joined view (`model.Order`). */
  datatype OrderItem = OrderItem(uuid: string, userID: int, products: seq<ProductInOrder>)

  /** What a cache entry holds: the slice one of the two cached reads stored. */
  datatype Cached = OrderRows(orders: seq<Order>) | ProductRows(products: seq<ProductInOrder>)

  /** The wrapped repository (`IOrders`): what each operation answers.  Its answers
      depend on the database, which is not part of this model. */
  datatype OrdersRepo = OrdersRepo(
    create: Order -> Result<int>,
    get: (int, int) -> Result<seq<Order>>,
    getByUUID: string -> Result<Order>,
    getItemByCode: string -> Result<seq<OrderItem>>,
    insertProduct: ProductInOrder -> Option<Error>,
    getProductByOrderID: int -> Result<seq<ProductInOrder>>)

  /** A call that reached the wrapped repository. */
  datatype RepoCall =
    | CreateCall(order: Order)
    | GetCall(userID: int, limit: int)
    | GetByUUIDCall(uuid: string)
    | GetItemByCodeCall(code: string)
    | InsertProductCall(product: ProductInOrder)
    | GetProductByOrderIDCall(orderID: int)

  /** The part both key prefixes share. */
  const MethodBase := "IOrdersRepository.Get"
  const GetPrefix := MethodBase + ":"
  const ProductsPrefix := MethodBase + "ProductByOrderID:"

  /** `fmt.Sprintf("IOrdersRepository.Get:%d:%d", userID, limit)`, the text `Get` hashes. */
  function GetKeyText(userID: int, limit: int): string
  {
    GetPrefix + FormatInt(userID) + ":" + FormatInt(limit)
  }

  /** `fmt.Sprintf("IOrdersRepository.GetProductByOrderID:%d", orderID)`. */
  function ProductsKeyText(orderID: int): string
  {
    ProductsPrefix + FormatInt(orderID)
  }

  /** Two strings without `sep` that are glued with `sep` split back at it. */
  lemma SplitAtSeparator(a: string, b: string, c: string, d: string, sep: char)
    requires sep !in a && sep !in c
    requires a + [sep] + b == c + [sep] + d
    ensures a == c && b == d
  {
    var s := a + [sep] + b;
    assert s[|a|] == sep && (c + [sep] + d)[|c|] == sep;
    assert a == s[..|a|] && c == (c + [sep] + d)[..|c|];
    assert b == s[|a| + 1..] && d == (c + [sep] + d)[|c| + 1..];
  }

  /** The ':' separator makes `Get`'s key text determine both arguments. */
  lemma GetKeyTextInjective(u1: int, l1: int, u2: int, l2: int)
    requires GetKeyText(u1, l1) == GetKeyText(u2, l2)
    ensures u1 == u2 && l1 == l2
  {
    var t1, t2 := GetKeyText(u1, l1), GetKeyText(u2, l2);
    assert t1[|GetPrefix|..] == FormatInt(u1) + [':'] + FormatInt(l1);
    assert t2[|GetPrefix|..] == FormatInt(u2) + [':'] + FormatInt(l2);
    SplitAtSeparator(FormatInt(u1), FormatInt(l1), FormatInt(u2), FormatInt(l2), ':');
    FormatIntInjective(u1, u2);
    FormatIntInjective(l1, l2);
  }

  /** Distinct order ids give distinct `GetProductByOrderID` key texts. */
  lemma ProductsKeyTextInjective(o1: int, o2: int)
    requires ProductsKeyText(o1) == ProductsKeyText(o2)
    ensures o1 == o2
  {
    assert ProductsKeyText(o1)[|ProductsPrefix|..] == FormatInt(o1);
    assert ProductsKeyText(o2)[|ProductsPrefix|..] == FormatInt(o2);
    FormatIntInjective(o1, o2);
  }

  /** No `Get` key text is a `GetProductByOrderID` key text: they differ right
      after the common "IOrdersRepository.Get". */
  lemma KeyTextsDisjoint(userID: int, limit: int, orderID: int)
    ensures GetKeyText(userID, limit) != ProductsKeyText(orderID)
  {
    var n := |MethodBase|;
    assert GetPrefix[n] == ':' && ProductsPrefix[n] == 'P';
    assert GetKeyText(userID, limit)[n] == GetPrefix[n];
    assert ProductsKeyText(orderID)[n] == ProductsPrefix[n];
  }

  /** `crypto.HashOf` without collisions. */
  ghost predicate Injective(hashOf: string -> string)
  {
    forall a, b :: hashOf(a) == hashOf(b) ==> a == b
  }

  /** Under a collision-free hash, the cache keys of distinct reads are distinct. */
  lemma DistinctKeys(hashOf: string -> string, u1: int, l1: int, u2: int, l2: int, o1: int, o2: int)
    requires Injective(hashOf)
    ensures (u1, l1) != (u2, l2) ==> hashOf(GetKeyText(u1, l1)) != hashOf(GetKeyText(u2, l2))
    ensures o1 != o2 ==> hashOf(ProductsKeyText(o1)) != hashOf(ProductsKeyText(o2))
    ensures hashOf(GetKeyText(u1, l1)) != hashOf(ProductsKeyText(o1))
  {
    if hashOf(GetKeyText(u1, l1)) == hashOf(GetKeyText(u2, l2)) {
      GetKeyTextInjective(u1, l1, u2, l2);
    }
    if hashOf(ProductsKeyText(o1)) == hashOf(ProductsKeyText(o2)) {
      ProductsKeyTextInjective(o1, o2);
    }
    KeyTextsDisjoint(u1, l1, o1);
  }

  /** The decorator `_Cache`: `entries` is the content of the cache it was given,
      `calls` records what reached the wrapped repository. */
  class Cache {
    var entries: map<string, Cached>
    ghost var calls: seq<RepoCall>
    /** `crypto.HashOf`. */
    const hashOf: string -> string

    /** `useCache(cache, orders)`, over a cache holding `entries`. */
    constructor (entries: map<string, Cached>, hashOf: string -> string)
      ensures this.entries == entries && this.hashOf == hashOf && calls == []
    {
      this.entries := entries;
      this.hashOf := hashOf;
      calls := [];
    }

    /** `Get`.  `readFails` says the cache read failed for a reason other than a
        missing entry; `setErr` is what storing the loaded rows answers. */
    method Get(orders: OrdersRepo, userID: int, limit: int, readFails: bool, setErr: Option<Error>)
      returns (result: seq<Order>, err: Option<Error>)
      modifies this
      ensures var key := hashOf(GetKeyText(userID, limit));
        var hit := !readFails && key in old(entries) && old(entries)[key].OrderRows?;
        && (hit ==> result == old(entries)[key].orders && err == None && entries == old(entries) && calls == old(calls))
        && (!hit ==> calls == old(calls) + [GetCall(userID, limit)])
        && (!hit && orders.get(userID, limit).Err? ==>
              result == [] && err == Some(orders.get(userID, limit).error) && entries == old(entries))
        && (!hit && orders.get(userID, limit).Ok? && setErr.None? ==>
              result == orders.get(userID, limit).value && err == None
              && entries == old(entries)[key := OrderRows(result)])
        && (!hit && orders.get(userID, limit).Ok? && setErr.Some? ==>
              result == orders.get(userID, limit).value && err == setErr && entries == old(entries))
    {
      var key := hashOf(GetKeyText(userID, limit));
      if !readFails && key in entries && entries[key].OrderRows? {
        return entries[key].orders, None;
      }
      calls := calls + [GetCall(userID, limit)];
      match orders.get(userID, limit)
      case Err(e) =>
        return [], Some(e);
      case Ok(rows) =>
        if setErr.Some? {
          return rows, setErr;
        }
        entries := entries[key := OrderRows(rows)];
        return rows, None;
    }

    /** `GetProductByOrderID`: the same cache-aside read under its own key. */
    method GetProductByOrderID(orders: OrdersRepo, orderID: int, readFails: bool, setErr: Option<Error>)
      returns (result: seq<ProductInOrder>, err: Option<Error>)
      modifies this
      ensures var key := hashOf(ProductsKeyText(orderID));
        var hit := !readFails && key in old(entries) && old(entries)[key].ProductRows?;
        && (hit ==> result == old(entries)[key].products && err == None && entries == old(entries) && calls == old(calls))
        && (!hit ==> calls == old(calls) + [GetProductByOrderIDCall(orderID)])
        && (!hit && orders.getProductByOrderID(orderID).Err? ==>
              result == [] && err == Some(orders.getProductByOrderID(orderID).error) && entries == old(entries))
        && (!hit && orders.getProductByOrderID(orderID).Ok? && setErr.None? ==>
              result == orders.getProductByOrderID(orderID).value && err == None
              && entries == old(entries)[key := ProductRows(result)])
        && (!hit && orders.getProductByOrderID(orderID).Ok? && setErr.Some? ==>
              result == orders.getProductByOrderID(orderID).value && err == setErr && entries == old(entries))
    {
      var key := hashOf(ProductsKeyText(orderID));
      if !readFails && key in entries && entries[key].ProductRows? {
        return entries[key].products, None;
      }
      calls := calls + [GetProductByOrderIDCall(orderID)];
      match orders.getProductByOrderID(orderID)
      case Err(e) =>
        return [], Some(e);
      case Ok(rows) =>
        if setErr.Some? {
          return rows, setErr;
        }
        entries := entries[key := ProductRows(rows)];
        return rows, None;
    }

    /** `Create`: forwarded; the cache is neither read nor invalidated. */
    method Create(orders: OrdersRepo, order: Order) returns (r: Result<int>)
      modifies this
      ensures r == orders.create(order)
      ensures entries == old(entries) && calls == old(calls) + [CreateCall(order)]
    {
      calls := calls + [CreateCall(order)];
      r := orders.create(order);
    }

    /** `GetByUUID`: forwarded. */
    method GetByUUID(orders: OrdersRepo, uuid: string) returns (r: Result<Order>)
      modifies this
      ensures r == orders.getByUUID(uuid)
      ensures entries == old(entries) && calls == old(calls) + [GetByUUIDCall(uuid)]
    {
      calls := calls + [GetByUUIDCall(uuid)];
      r := orders.getByUUID(uuid);
    }

    /** `GetItemByCode`: forwarded. */
    method GetItemByCode(orders: OrdersRepo, code: string) returns (r: Result<seq<OrderItem>>)
      modifies this
      ensures r == orders.getItemByCode(code)
      ensures entries == old(entries) && calls == old(calls) + [GetItemByCodeCall(code)]
    {
      calls := calls + [GetItemByCodeCall(code)];
      r := orders.getItemByCode(code);
    }

    /** `InsertProduct`: forwarded; no cached product list is invalidated. */
    method InsertProduct(orders: OrdersRepo, product: ProductInOrder) returns (err: Option<Error>)
      modifies this
      ensures err == orders.insertProduct(product)
      ensures entries == old(entries) && calls == old(calls) + [InsertProductCall(product)]
    {
      calls := calls + [InsertProductCall(product)];
      err := orders.insertProduct(product);
    }

    /** Two `Get(userID, limit)` calls in a row, starting from a cache without that
        entry: the repository is reached once, and the second call is answered from
        the cache even when the repository would now answer differently. */
    method GetTwice(first: OrdersRepo, second: OrdersRepo, userID: int, limit: int)
      returns (r1: seq<Order>, r2: seq<Order>)
      requires hashOf(GetKeyText(userID, limit)) !in entries
      requires first.get(userID, limit).Ok?
      modifies this
      ensures r1 == r2 == first.get(userID, limit).value
      ensures calls == old(calls) + [GetCall(userID, limit)]
    {
      var e;
      r1, e := Get(first, userID, limit, false, None);
      r2, e := Get(second, userID, limit, false, None);
    }

    /** A `Get` entry stays after a `Create` for the same user: the next `Get`
        returns the rows loaded before the order was created. */
    method StaleAfterCreate(before: OrdersRepo, after: OrdersRepo, order: Order, limit: int)
      returns (r1: seq<Order>, r2: seq<Order>)
      requires hashOf(GetKeyText(order.userID, limit)) !in entries
      requires before.get(order.userID, limit).Ok?
      modifies this
      ensures r1 == r2 == before.get(order.userID, limit).value
      ensures calls == old(calls) + [GetCall(order.userID, limit), CreateCall(order)]
    {
      var e, id;
      r1, e := Get(before, order.userID, limit, false, None);
      id := Create(before, order);
      r2, e := Get(after, order.userID, limit, false, None);
    }
  }
}
