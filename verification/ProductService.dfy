/**
 ProductService on one database, one operation at a time: the caches must then be
 invisible, but for what createOrder changes behind them.
 */
module ProductService {
  import opened Results
  import opened Clock
  import opened Redis
  import opened Catalog
  import opened ProductTable
  import opened ProductQuery

  datatype CacheKey = ProductKey(id: Id) | ProductsKey(key: ListKey)

  datatype Cached = Detail(dto: ProductDto) | Page(listing: Listing)

  datatype ServiceError = NotFound | Forbidden

  type Outcome = Result<ProductDto, ServiceError>

  datatype Shop = Shop(cache: Keyspace<CacheKey, Cached>, table: Table)

  const EmptyShop := Shop(Keyspace(0, map[]), [])

  /** The lookup without a cache. */
  function Uncached(t: Table, id: Id): Outcome {
    var found := FindActive(t, id);
    if found.Some? then Ok(ToDto(found.value)) else Err(NotFound)
  }

  function GetByIdResult(s: Shop, id: Id): Outcome {
    var cached := s.cache.Lookup(ProductKey(id));
    if cached.Some? && cached.value.Detail? then Ok(cached.value.dto) else Uncached(s.table, id)
  }

  function AfterGetById(s: Shop, id: Id): Shop {
    var cached := s.cache.Lookup(ProductKey(id));
    if cached.Some? && cached.value.Detail? then s else
    match Uncached(s.table, id)
    case Ok(dto) => s.(cache := s.cache.SetEx(ProductKey(id), DETAIL_TTL, Detail(dto)))
    case Err(_) => s
  }

  function GetListResult(s: Shop, q: Query): Listing
    requires PageInRange(q)
  {
    var cached := s.cache.Lookup(ProductsKey(KeyOf(q)));
    if cached.Some? && cached.value.Page? then cached.value.listing else ListingOf(s.table, s.table, q)
  }

  function AfterGetList(s: Shop, q: Query): Shop
    requires PageInRange(q)
  {
    var cached := s.cache.Lookup(ProductsKey(KeyOf(q)));
    if cached.Some? && cached.value.Page? then s
    else s.(cache := s.cache.SetEx(ProductsKey(KeyOf(q)), LIST_TTL, Page(ListingOf(s.table, s.table, q))))
  }

  /** Who may write: the row's seller, deleted rows included. */
  function Owned(t: Table, id: Id, sellerId: Id): (row: Result<Product, ServiceError>)
    ensures row == Err(NotFound) <==> Find(t, id) == None
    ensures row == Err(Forbidden) <==> Find(t, id).Some? && Find(t, id).value.sellerId != sellerId
    ensures row.Ok? ==> Find(t, id) == Some(row.value) && row.value.sellerId == sellerId
  {
    var found := Find(t, id);
    if found.None? then Err(NotFound)
    else if found.value.sellerId != sellerId then Err(Forbidden)
    else Ok(found.value)
  }

  function AfterWrite(s: Shop, id: Id, sellerId: Id, change: Change): Shop {
    match Owned(s.table, id, sellerId)
    case Err(_) => s
    case Ok(p) =>
      Shop(s.cache.Del(ProductKey(id)), Rewrite(s.table, Changed(p, change, s.cache.now)))
  }

  /** The PRODUCT_CREATED payload. */
  datatype ProductCreated = ProductCreated(productId: Id, sellerId: Id)

  class ProductService {
    const redis: Server<CacheKey, Cached>
    var table: Table
    var emitted: seq<ProductCreated>

    constructor (redis: Server<CacheKey, Cached>)
      ensures this.redis == redis && table == [] && emitted == []
    {
      this.redis := redis;
      table, emitted := [], [];
    }

    function View(): Shop
      reads this, redis
    {
      Shop(redis.View(), table)
    }

    method GetProductById(id: Id) returns (outcome: Outcome)
      modifies redis
      ensures outcome == GetByIdResult(old(View()), id)
      ensures View() == AfterGetById(old(View()), id)
    {
      var cached := redis.Get(ProductKey(id));
      if cached.Some? && cached.value.Detail? {
        return Ok(cached.value.dto);
      }
      var product := FindActive(table, id);
      if product.None? {
        return Err(NotFound);
      }
      var mapped := ToDto(product.value);
      redis.SetEx(ProductKey(id), DETAIL_TTL, Detail(mapped));
      outcome := Ok(mapped);
    }

    method GetProducts(q: Query) returns (listing: Listing)
      requires PageInRange(q)
      modifies redis
      ensures listing == GetListResult(old(View()), q)
      ensures View() == AfterGetList(old(View()), q)
    {
      var filter := BuildWhere(q);
      var key := ProductsKey(ListKey(filter, OrderOf(q), q.limit, (q.page - 1) * q.limit));
      var cached := redis.Get(key);
      if cached.Some? && cached.value.Page? {
        return cached.value.listing;
      }
      listing := ListingOf(table, table, q);
      redis.SetEx(key, LIST_TTL, Page(listing));
    }

    /** `id` is the row's fresh uuid. */
    method CreateProduct(id: Id, sellerId: Id, data: CreateData) returns (dto: ProductDto)
      modifies this
      ensures View() == old(View()).(table := old(table) + [Created(id, sellerId, data, redis.now)])
      ensures dto == ToDto(Created(id, sellerId, data, redis.now))
      ensures var p := table[|table| - 1];
              Holds(p, data) && p.id == id && p.sellerId == sellerId && p.isActive && Describes(dto, p)
      ensures emitted == old(emitted) + [ProductCreated(id, sellerId)]
    {
      var product := Created(id, sellerId, data, redis.now);
      table := table + [product];
      dto := ToDto(product);
      emitted := emitted + [ProductCreated(dto.id, sellerId)];
    }

    method UpdateProduct(id: Id, sellerId: Id, data: UpdateData) returns (outcome: Outcome)
      modifies this`table, redis
      ensures View() == AfterWrite(old(View()), id, sellerId, Edit(data))
      ensures outcome == Err(NotFound) <==> Find(old(table), id) == None
      ensures outcome == Err(Forbidden) <==> Find(old(table), id).Some? && Find(old(table), id).value.sellerId != sellerId
      ensures outcome.Ok? ==>
                && Find(old(table), id).Some? && Find(table, id).Some?
                && Edited(Find(old(table), id).value, Find(table, id).value, data)
                && Find(table, id).value.updatedAt == redis.now
                && Describes(outcome.value, Find(table, id).value)
    {
      var product := Find(table, id);
      if product.None? {
        return Err(NotFound);
      }
      if product.value.sellerId != sellerId {
        return Err(Forbidden);
      }
      var updated := Updated(product.value, data, redis.now);
      FindHasId(table, id);
      FindRewritten(table, updated, id);
      table := Rewrite(table, updated);
      redis.Del(ProductKey(id));
      outcome := Ok(ToDto(updated));
    }

    method DeleteProduct(id: Id, sellerId: Id) returns (outcome: Result<(), ServiceError>)
      modifies this`table, redis
      ensures View() == AfterWrite(old(View()), id, sellerId, SoftDelete)
      ensures outcome == Err(NotFound) <==> Find(old(table), id) == None
      ensures outcome == Err(Forbidden) <==> Find(old(table), id).Some? && Find(old(table), id).value.sellerId != sellerId
      ensures outcome.Ok? ==>
                && Find(old(table), id).Some?
                && Find(table, id) == Some(Find(old(table), id).value.(isActive := false, updatedAt := redis.now))
                && FindActive(table, id).None?
    {
      var product := Find(table, id);
      if product.None? {
        return Err(NotFound);
      }
      if product.value.sellerId != sellerId {
        return Err(Forbidden);
      }
      FindHasId(table, id);
      FindRewritten(table, Deactivated(product.value, redis.now), id);
      table := Rewrite(table, Deactivated(product.value, redis.now));
      redis.Del(ProductKey(id));
      outcome := Ok(());
    }
  }

  /* ---- Cache transparency ---- */

  datatype Op =
    | GetById(id: Id)
    | GetList(query: Query)
    | Create(id: Id, sellerId: Id, data: CreateData)
    | Change(id: Id, sellerId: Id, change: Change)
    | Order(items: seq<Item>)
    | Wait(elapsed: Time)

  function Step(s: Shop, op: Op): Shop {
    match op
    case GetById(id) => AfterGetById(s, id)
    case GetList(q) => if PageInRange(q) then AfterGetList(s, q) else s
    case Create(id, sellerId, data) =>
      if Find(s.table, id).Some? then s
      else s.(table := s.table + [Created(id, sellerId, data, s.cache.now)])
    case Change(id, sellerId, change) => AfterWrite(s, id, sellerId, change)
    case Order(items) => if AllExist(s.table, items) then s.(table := Decrement(s.table, items, s.cache.now)) else s
    case Wait(elapsed) => s.(cache := s.cache.Advance(elapsed))
  }

  function Steps(s: Shop, ops: seq<Op>): Shop
    decreases |ops|
  {
    if ops == [] then s else Steps(Step(s, ops[0]), ops[1..])
  }

  /** Equal, or equal but for the two columns an order changes. */
  predicate Agrees(exact: bool, a: ProductDto, b: ProductDto) {
    if exact then a == b else a.(stock := b.stock, updatedAt := b.updatedAt) == b
  }

  predicate SameOutcome(exact: bool, a: Outcome, b: Outcome) {
    match (a, b)
    case (Ok(x), Ok(y)) => Agrees(exact, x, y)
    case (Err(x), Err(y)) => x == y
    case _ => false
  }

  /** A cached product agrees with the table. */
  predicate EntryCoherent(s: Shop, exact: bool, id: Id) {
    var cached := s.cache.Lookup(ProductKey(id));
    cached.Some? ==> cached.value.Detail? && SameOutcome(exact, Ok(cached.value.dto), Uncached(s.table, id))
  }

  /** An order leaves every column but stock and updatedAt of every product alone. */
  lemma {:induction false} OrderSparesTheRest(t: Table, items: seq<Item>, now: Time, id: Id)
    ensures SameOutcome(false, Uncached(t, id), Uncached(Decrement(t, items, now), id))
    decreases |items|
  {
    if items != [] {
      var found := Find(t, items[0].productId);
      if found.Some? {
        var p := Decremented(found.value, items[0].quantity, now);
        FindHasId(t, items[0].productId);
        FindRewritten(t, p, id);
        OrderSparesTheRest(Rewrite(t, p), items[1..], now, id);
      } else {
        OrderSparesTheRest(t, items[1..], now, id);
      }
    }
  }

  lemma StepCoherent(s: Shop, op: Op, exact: bool, id: Id)
    requires EntryCoherent(s, exact, id)
    requires exact ==> !op.Order?
    ensures EntryCoherent(Step(s, op), exact, id)
  {
    match op
    case Create(other, sellerId, data) =>
      FindAppended(s.table, Created(other, sellerId, data, s.cache.now), id);
    case Change(other, sellerId, change) =>
      var owned := Owned(s.table, other, sellerId);
      if owned.Ok? {
        FindHasId(s.table, other);
        FindRewritten(s.table, Changed(owned.value, change, s.cache.now), id);
      }
    case Order(items) => OrderSparesTheRest(s.table, items, s.cache.now, id);
    case _ =>
  }

  lemma {:induction false} StepsCoherent(s: Shop, ops: seq<Op>, exact: bool, id: Id)
    requires EntryCoherent(s, exact, id)
    requires exact ==> forall op | op in ops :: !op.Order?
    ensures EntryCoherent(Steps(s, ops), exact, id)
    decreases |ops|
  {
    if ops != [] {
      StepCoherent(s, ops[0], exact, id);
      StepsCoherent(Step(s, ops[0]), ops[1..], exact, id);
    }
  }

  /**
   Cache transparency: after any sequence of operations getProductById gives the outcome of
   the uncached lookup, NotFound included, on every column but stock and updatedAt; and on
   every column when no order is among the operations.
   */
  lemma CacheTransparent(ops: seq<Op>, id: Id)
    ensures var s := Steps(EmptyShop, ops);
            && SameOutcome(false, GetByIdResult(s, id), Uncached(s.table, id))
            && ((forall op | op in ops :: !op.Order?) ==> GetByIdResult(s, id) == Uncached(s.table, id))
  {
    StepsCoherent(EmptyShop, ops, false, id);
    if forall op | op in ops :: !op.Order? {
      StepsCoherent(EmptyShop, ops, true, id);
    }
  }

  /* ---- What orders hide ---- */

  /** How much orders have taken of a product since its cache entry was written, after one more operation. */
  function Taken(s: Shop, op: Op, id: Id, taken: nat): nat {
    match op
    case GetById(other) =>
      if other == id && s.cache.Lookup(ProductKey(id)).None? && Uncached(s.table, id).Ok? then 0 else taken
    case Order(items) =>
      DecrementSparesOthers(s.table, items, s.cache.now, id);
      if AllExist(s.table, items) then taken + QuantityOf(items, id) else taken
    case _ => taken
  }

  function TakenSince(s: Shop, ops: seq<Op>, id: Id, taken: nat): nat
    decreases |ops|
  {
    if ops == [] then taken else TakenSince(Step(s, ops[0]), ops[1..], id, Taken(s, ops[0], id, taken))
  }

  predicate Drifted(s: Shop, id: Id, taken: nat) {
    var cached := s.cache.Lookup(ProductKey(id));
    cached.Some? ==>
      && cached.value.Detail?
      && Uncached(s.table, id).Ok?
      && var current := Uncached(s.table, id).value;
      && cached.value.dto.(updatedAt := current.updatedAt) == current.(stock := current.stock + taken)
      && (taken == 0 ==> cached.value.dto == current)
  }

  lemma StepDrifts(s: Shop, op: Op, id: Id, taken: nat)
    requires Drifted(s, id, taken)
    ensures Drifted(Step(s, op), id, Taken(s, op, id, taken))
  {
    match op
    case Create(other, sellerId, data) =>
      FindAppended(s.table, Created(other, sellerId, data, s.cache.now), id);
    case Change(other, sellerId, change) =>
      var owned := Owned(s.table, other, sellerId);
      if owned.Ok? {
        FindHasId(s.table, other);
        FindRewritten(s.table, Changed(owned.value, change, s.cache.now), id);
      }
    case Order(items) =>
      DecrementTakesQuantity(s.table, items, s.cache.now, id);
      DecrementSparesOthers(s.table, items, s.cache.now, id);
    case _ =>
  }

  lemma {:induction false} StepsDrift(s: Shop, ops: seq<Op>, id: Id, taken: nat)
    requires Drifted(s, id, taken)
    ensures Drifted(Steps(s, ops), id, TakenSince(s, ops, id, taken))
    decreases |ops|
  {
    if ops != [] {
      StepDrifts(s, ops[0], id, taken);
      StepsDrift(Step(s, ops[0]), ops[1..], id, Taken(s, ops[0], id, taken));
    }
  }

  /**
   Cache transparency, exactly: after any sequence of operations getProductById gives the
   uncached outcome on all columns if and only if the product's entry is not live or no order
   took any of the product since the entry was written. When it is live, the stock it serves
   is too high by exactly what those orders took.
   */
  lemma CachedStockIff(ops: seq<Op>, id: Id)
    ensures var s, taken := Steps(EmptyShop, ops), TakenSince(EmptyShop, ops, id, 0);
            && (GetByIdResult(s, id) == Uncached(s.table, id) <==> s.cache.Lookup(ProductKey(id)).None? || taken == 0)
            && (s.cache.Lookup(ProductKey(id)).Some? ==>
                  && GetByIdResult(s, id).Ok? && Uncached(s.table, id).Ok?
                  && GetByIdResult(s, id).value.stock == Uncached(s.table, id).value.stock + taken)
  {
    StepsDrift(EmptyShop, ops, id, 0);
  }

  /** The exception is real: after a read and an order, the served stock is the one from before the order. */
  lemma OrderLeavesCachedStock(s: Shop, id: Id, quantity: Quantity)
    requires EntryCoherent(s, true, id) && FindActive(s.table, id).Some?
    ensures var s' := Step(Step(s, GetById(id)), Order([Item(id, quantity)]));
            && GetByIdResult(s', id) == Uncached(s.table, id)
            && Uncached(s'.table, id).Ok?
            && GetByIdResult(s', id).value.stock == Uncached(s'.table, id).value.stock + quantity
  {
    var read := Step(s, GetById(id));
    var p := Find(s.table, id).value;
    FindHasId(s.table, id);
    FindRewritten(s.table, Decremented(p, quantity, s.cache.now), id);
    assert Decrement(read.table, [Item(id, quantity)], s.cache.now)
        == Decrement(Rewrite(s.table, Decremented(p, quantity, s.cache.now)), [], s.cache.now);
  }

  lemma StepSound(s: Shop, op: Op)
    requires Sound(s.table)
    ensures Sound(Step(s, op).table) && Evolves(s.table, Step(s, op).table)
  {
    EvolvesReflexive(s.table);
    match op
    case Create(id, sellerId, data) =>
      if Find(s.table, id).None? {
        AppendIsSound(s.table, Created(id, sellerId, data, s.cache.now));
      }
    case Change(id, sellerId, change) =>
      var owned := Owned(s.table, id, sellerId);
      if owned.Ok? {
        FindIsRow(s.table, id);
        RewriteIsSound(s.table, id, Changed(owned.value, change, s.cache.now));
      }
    case Order(items) => DecrementIsSound(s.table, items, s.cache.now);
    case _ =>
  }

  lemma {:induction false} StepsSound(s: Shop, ops: seq<Op>)
    requires Sound(s.table)
    ensures Sound(Steps(s, ops).table) && Evolves(s.table, Steps(s, ops).table)
    decreases |ops|
  {
    if ops == [] {
      EvolvesReflexive(s.table);
    } else {
      StepSound(s, ops[0]);
      StepsSound(Step(s, ops[0]), ops[1..]);
      EvolvesTransitive(s.table, Step(s, ops[0]).table, Steps(s, ops).table);
    }
  }

  /** Once its owner has deleted a product, getProductById answers NotFound after every later sequence of operations. */
  lemma DeletedStaysNotFound(before: seq<Op>, after: seq<Op>, id: Id, sellerId: Id)
    requires Owned(Steps(EmptyShop, before).table, id, sellerId).Ok?
    ensures var deleted := Step(Steps(EmptyShop, before), Change(id, sellerId, SoftDelete));
            GetByIdResult(Steps(deleted, after), id) == Err(NotFound)
  {
    var s := Steps(EmptyShop, before);
    var deleted := Step(s, Change(id, sellerId, SoftDelete));
    var p := Owned(s.table, id, sellerId).value;
    StepsCoherent(EmptyShop, before, false, id);
    StepCoherent(s, Change(id, sellerId, SoftDelete), false, id);
    StepsCoherent(deleted, after, false, id);
    FindHasId(s.table, id);
    FindRewritten(s.table, Deactivated(p, s.cache.now), id);
    StepsSound(EmptyShop, before);
    StepSound(s, Change(id, sellerId, SoftDelete));
    StepsSound(deleted, after);
    assert RowEvolves(deleted.table, Steps(deleted, after).table, id);
  }

  /* ---- Lists ---- */

  /** After any sequence of operations, a list that is not cached is the page the query asks for. */
  lemma FreshListIsAsked(ops: seq<Op>, q: Query)
    requires FromSchema(q) && PageInRange(q) && q.maxPrice != Some(0.0)
    ensures var s := Steps(EmptyShop, ops);
            s.cache.Lookup(ProductsKey(KeyOf(q))).None? ==> GetListResult(s, q) == AskedListing(s.table, s.table, q)
  {
    StepsSound(EmptyShop, ops);
    ListingIsAsked(Steps(EmptyShop, ops).table, Steps(EmptyShop, ops).table, q);
  }

  /* ---- Deleted products in lists ---- */

  /** The product's rows are all deleted; there is at least one, so its id is never given out again. */
  ghost predicate Gone(t: Table, id: Id) {
    Find(t, id).Some? && forall p | p in t && p.id == id :: !p.isActive
  }

  lemma RewriteKeepsGone(t: Table, p: Product, id: Id)
    requires Gone(t, id) && (p.id == id ==> !p.isActive)
    ensures Gone(Rewrite(t, p), id)
  {
    RewriteAt(t, p);
    FindRewritten(t, p, id);
    forall row | row in Rewrite(t, p) && row.id == id ensures !row.isActive {
      var i :| 0 <= i < |t| && Rewrite(t, p)[i] == row;
      assert t[i] in t;
    }
  }

  lemma {:induction false} DecrementKeepsGone(t: Table, items: seq<Item>, now: Time, id: Id)
    requires Gone(t, id)
    ensures Gone(Decrement(t, items, now), id)
    decreases |items|
  {
    if items != [] {
      var found := Find(t, items[0].productId);
      if found.Some? {
        FindIsRow(t, items[0].productId);
        RewriteKeepsGone(t, Decremented(found.value, items[0].quantity, now), id);
        DecrementKeepsGone(Rewrite(t, Decremented(found.value, items[0].quantity, now)), items[1..], now, id);
      } else {
        DecrementKeepsGone(t, items[1..], now, id);
      }
    }
  }

  lemma StepKeepsGone(s: Shop, op: Op, id: Id)
    requires Gone(s.table, id)
    ensures Gone(Step(s, op).table, id)
  {
    match op
    case Create(other, sellerId, data) =>
      FindAppended(s.table, Created(other, sellerId, data, s.cache.now), id);
    case Change(other, sellerId, change) =>
      var owned := Owned(s.table, other, sellerId);
      if owned.Ok? {
        FindIsRow(s.table, other);
        RewriteKeepsGone(s.table, Changed(owned.value, change, s.cache.now), id);
      }
    case Order(items) => DecrementKeepsGone(s.table, items, s.cache.now, id);
    case _ =>
  }

  lemma DeletedIsGone(s: Shop, id: Id, sellerId: Id)
    requires Owned(s.table, id, sellerId).Ok?
    ensures Gone(Step(s, Change(id, sellerId, SoftDelete)).table, id)
  {
    var p := Deactivated(Find(s.table, id).value, s.cache.now);
    FindHasId(s.table, id);
    RewriteAt(s.table, p);
    FindRewritten(s.table, p, id);
    forall row | row in Rewrite(s.table, p) && row.id == id ensures !row.isActive {
      var i :| 0 <= i < |s.table| && Rewrite(s.table, p)[i] == row;
    }
  }

  /** The cache holds a list under the key that shows the product; `now` is before its expiry. */
  predicate ShowsUntil(cache: Keyspace<CacheKey, Cached>, key: ListKey, id: Id, now: Time) {
    && ProductsKey(key) in cache.entries
    && now < cache.entries[ProductsKey(key)].expiresAt
    && cache.entries[ProductsKey(key)].value.Page?
    && Shows(cache.entries[ProductsKey(key)].value.listing, id)
  }

  /** Since `past`, the list's entry is still the same, or was replaced by one without the product. */
  ghost predicate OldOrClean(past: Keyspace<CacheKey, Cached>, s: Shop, key: ListKey, id: Id) {
    var k := ProductsKey(key);
    || (k !in past.entries && k !in s.cache.entries)
    || (k in past.entries && k in s.cache.entries && s.cache.entries[k] == past.entries[k])
    || (&& !ShowsUntil(past, key, id, s.cache.now)
        && k in s.cache.entries && s.cache.entries[k].value.Page? && !Shows(s.cache.entries[k].value.listing, id))
  }

  lemma StepOldOrClean(past: Keyspace<CacheKey, Cached>, s: Shop, op: Op, key: ListKey, id: Id)
    requires Gone(s.table, id) && OldOrClean(past, s, key, id)
    ensures OldOrClean(past, Step(s, op), key, id)
  {
    if op.GetList? && PageInRange(op.query) && KeyOf(op.query) == key {
      if Shows(ListingOf(s.table, s.table, op.query), id) {
        ListedIsActive(s.table, s.table, op.query, id);
      }
    }
  }

  lemma {:induction false} StepsOldOrClean(past: Keyspace<CacheKey, Cached>, s: Shop, ops: seq<Op>, key: ListKey, id: Id)
    requires Gone(s.table, id) && OldOrClean(past, s, key, id)
    ensures Gone(Steps(s, ops).table, id) && OldOrClean(past, Steps(s, ops), key, id)
    decreases |ops|
  {
    if ops != [] {
      StepKeepsGone(s, ops[0], id);
      StepOldOrClean(past, s, ops[0], key, id);
      StepsOldOrClean(past, Step(s, ops[0]), ops[1..], key, id);
    }
  }

  /**
   Lists are not invalidated. After an owner's deletion and any later operations, getProducts
   shows the product if and only if, at the deletion, the cache held a list under the query's key
   that shows it, and that entry has not expired yet.
   */
  lemma DeletedStillListedIff(before: seq<Op>, after: seq<Op>, id: Id, sellerId: Id, q: Query)
    requires PageInRange(q)
    requires Owned(Steps(EmptyShop, before).table, id, sellerId).Ok?
    ensures var deleted := Step(Steps(EmptyShop, before), Change(id, sellerId, SoftDelete));
            var end := Steps(deleted, after);
            Shows(GetListResult(end, q), id) <==> ShowsUntil(deleted.cache, KeyOf(q), id, end.cache.now)
  {
    var s := Steps(EmptyShop, before);
    var deleted := Step(s, Change(id, sellerId, SoftDelete));
    var end := Steps(deleted, after);
    DeletedIsGone(s, id, sellerId);
    StepsOldOrClean(deleted.cache, deleted, after, KeyOf(q), id);
    if Shows(ListingOf(end.table, end.table, q), id) {
      ListedIsActive(end.table, end.table, q, id);
    }
  }

  lemma ListedShop(id: Id, sellerId: Id, data: CreateData, q: Query)
    requires PageInRange(q)
    ensures var p := Created(id, sellerId, data, 0);
            Step(Step(EmptyShop, Create(id, sellerId, data)), GetList(q))
              == Shop(Keyspace(0, map[ProductsKey(KeyOf(q)) := Entry(Page(ListingOf([p], [p], q)), LIST_TTL)]), [p])
  {
    assert Step(EmptyShop, Create(id, sellerId, data)) == Shop(Keyspace(0, map[]), [Created(id, sellerId, data, 0)]);
  }

  /** And it does happen: a product that was listed just before its deletion stays on the list. */
  lemma DeletedStaysListed(id: Id, sellerId: Id, data: CreateData, q: Query)
    requires PageInRange(q) && q.page == 1 && Meets(WhereOf(q), Created(id, sellerId, data, 0))
    ensures var s := Step(Step(Step(EmptyShop, Create(id, sellerId, data)), GetList(q)),
                          Change(id, sellerId, SoftDelete));
            && GetByIdResult(s, id) == Err(NotFound)
            && GetListResult(s, q).products == [ToDto(Created(id, sellerId, data, 0))]
  {
    var p := Created(id, sellerId, data, 0);
    OnlyRowListed(p, q);
    ListedShop(id, sellerId, data, q);
    assert Rewrite([p], Deactivated(p, 0)) == [Deactivated(p, 0)];
  }
}
