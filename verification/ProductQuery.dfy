/** getProducts: the filter it builds, the key it caches under, and the page it returns. */
module ProductQuery {
  import opened Results
  import opened Catalog
  import opened ProductTable
  import opened Texts
  import opened Pagination

  datatype SortBy = PriceAsc | PriceDesc | Newest | Oldest

  datatype Query = Query(
    page: int,
    limit: int,
    search: Option<string>,
    categoryId: Option<Id>,
    sellerId: Option<Id>,
    minPrice: Option<real>,
    maxPrice: Option<real>,
    sortBy: Option<SortBy>,
    tags: Option<seq<string>>)

  /** What the query schema guarantees: ids are uuids, a tag list comes from splitting a non-empty text. */
  predicate FromSchema(q: Query) {
    q.categoryId != Some("") && q.sellerId != Some("") && q.tags != Some([])
  }

  /* ---- The filter ---- */

  datatype TextCondition =
    | TitleContains(text: string)
    | DescriptionContains(text: string)
    | TagsHas(text: string)

  datatype FloatFilter = FloatFilter(gte: Option<real>, lte: Option<real>)

  datatype Where = Where(
    isActive: bool,
    anyOf: Option<seq<TextCondition>>,
    categoryId: Option<Id>,
    sellerId: Option<Id>,
    price: Option<FloatFilter>,
    hasSomeTag: Option<seq<string>>)

  predicate TruthyText(o: Option<string>) {
    o.Some? && o.value != ""
  }

  predicate TruthyNumber(o: Option<real>) {
    o.Some? && o.value != 0.0
  }

  function WhereOf(q: Query): Where {
    Where(
      true,
      if TruthyText(q.search)
        then Some([TitleContains(q.search.value), DescriptionContains(q.search.value), TagsHas(q.search.value)])
        else None,
      if TruthyText(q.categoryId) then q.categoryId else None,
      if TruthyText(q.sellerId) then q.sellerId else None,
      if TruthyNumber(q.minPrice) || TruthyNumber(q.maxPrice)
        then Some(FloatFilter(if TruthyNumber(q.minPrice) then q.minPrice else None,
                              if TruthyNumber(q.maxPrice) then q.maxPrice else None))
        else None,
      q.tags)
  }

  /** The filter, filled in field by field. */
  method BuildWhere(q: Query) returns (filter: Where)
    ensures filter == WhereOf(q)
  {
    filter := Where(true, None, None, None, None, None);
    if q.search.Some? && q.search.value != "" {
      var search := q.search.value;
      filter := filter.(anyOf := Some([TitleContains(search), DescriptionContains(search), TagsHas(search)]));
    }
    if TruthyText(q.categoryId) {
      filter := filter.(categoryId := q.categoryId);
    }
    if TruthyText(q.sellerId) {
      filter := filter.(sellerId := q.sellerId);
    }
    if TruthyNumber(q.minPrice) || TruthyNumber(q.maxPrice) {
      filter := filter.(price := Some(FloatFilter(None, None)));
      if TruthyNumber(q.minPrice) {
        filter := filter.(price := Some(filter.price.value.(gte := q.minPrice)));
      }
      if TruthyNumber(q.maxPrice) {
        filter := filter.(price := Some(filter.price.value.(lte := q.maxPrice)));
      }
    }
    if q.tags.Some? {
      filter := filter.(hasSomeTag := q.tags);
    }
  }

  predicate OccursAt(text: string, part: string, i: int) {
    0 <= i <= |text| - |part| && LowerCase(text[i..i + |part|]) == LowerCase(part)
  }

  /** `contains` in insensitive mode. */
  predicate ContainsFold(text: string, part: string) {
    exists i | 0 <= i <= |text| :: OccursAt(text, part, i)
  }

  predicate MeetsText(c: TextCondition, p: Product) {
    match c
    case TitleContains(text) => ContainsFold(p.title, text)
    case DescriptionContains(text) => ContainsFold(p.description, text)
    case TagsHas(text) => text in p.tags
  }

  /** How the database reads a filter. */
  predicate Meets(w: Where, p: Product) {
    && p.isActive == w.isActive
    && (w.anyOf.Some? ==> exists c | c in w.anyOf.value :: MeetsText(c, p))
    && (w.categoryId.Some? ==> p.categoryId == w.categoryId.value)
    && (w.sellerId.Some? ==> p.sellerId == w.sellerId.value)
    && (w.price.Some? ==>
          && (w.price.value.gte.Some? ==> w.price.value.gte.value <= p.price)
          && (w.price.value.lte.Some? ==> p.price <= w.price.value.lte.value))
    && (w.hasSomeTag.Some? ==> exists tag | tag in w.hasSomeTag.value :: tag in p.tags)
  }

  predicate MentionedAt(text: string, part: string, i: int) {
    0 <= i <= |text| - |part| && SameLetters(text[i..i + |part|], part)
  }

  /** Somewhere in the text stands the part, in any case of letters. */
  predicate Mentions(text: string, part: string) {
    exists i | 0 <= i <= |text| :: MentionedAt(text, part, i)
  }

  lemma ContainsIff(text: string, part: string)
    ensures ContainsFold(text, part) <==> Mentions(text, part)
  {
    forall i | 0 <= i <= |text| ensures OccursAt(text, part, i) <==> MentionedAt(text, part, i) {
      if i <= |text| - |part| {
        FoldedAlikeIff(text[i..i + |part|], part);
      }
    }
  }

  /** What a query asks for: every parameter that is present constrains the product. */
  predicate Satisfies(q: Query, p: Product) {
    && p.isActive
    && (q.search.Some? ==>
          Mentions(p.title, q.search.value) || Mentions(p.description, q.search.value) || q.search.value in p.tags)
    && (q.categoryId.Some? ==> p.categoryId == q.categoryId.value)
    && (q.sellerId.Some? ==> p.sellerId == q.sellerId.value)
    && (q.minPrice.Some? ==> q.minPrice.value <= p.price)
    && (q.maxPrice.Some? ==> p.price <= q.maxPrice.value)
    && (q.tags.Some? ==> exists tag | tag in q.tags.value :: tag in p.tags)
  }

  lemma ContainsItself(text: string, part: string)
    requires part == "" || part == text
    ensures ContainsFold(text, part)
  {
    assert text[0..0 + |part|] == part;
    assert OccursAt(text, part, 0);
  }

  lemma SearchCompiled(q: Query, p: Product)
    ensures (WhereOf(q).anyOf.Some? ==> exists c | c in WhereOf(q).anyOf.value :: MeetsText(c, p))
       <==> (q.search.Some? ==>
               || Mentions(p.title, q.search.value)
               || Mentions(p.description, q.search.value)
               || q.search.value in p.tags)
  {
    if TruthyText(q.search) {
      var text := q.search.value;
      var conditions := WhereOf(q).anyOf.value;
      assert conditions[0] == TitleContains(text);
      assert conditions[1] == DescriptionContains(text);
      assert conditions[2] == TagsHas(text);
      ContainsIff(p.title, text);
      ContainsIff(p.description, text);
      assert MeetsText(conditions[0], p) <==> ContainsFold(p.title, text);
      assert MeetsText(conditions[1], p) <==> ContainsFold(p.description, text);
      assert MeetsText(conditions[2], p) <==> text in p.tags;
    } else {
      ContainsItself(p.title, "");
      ContainsIff(p.title, "");
    }
  }

  /** For one product: dropping a zero `minPrice` is harmless, dropping a zero `maxPrice` is not. */
  lemma FilterMeaning(q: Query, p: Product)
    requires FromSchema(q) && p.price > 0.0
    ensures q.maxPrice != Some(0.0) ==> (Meets(WhereOf(q), p) <==> Satisfies(q, p))
    ensures q.maxPrice == Some(0.0) ==> !Satisfies(q, p)
    ensures q.maxPrice == Some(0.0) ==> (Meets(WhereOf(q), p) <==> Satisfies(q.(maxPrice := None), p))
  {
    SearchCompiled(q, p);
  }

  /** A product that meets every constraint of a query but its upper price bound. */
  function Wanted(q: Query): Product {
    Product("", Or(q.search, ""), "", if TruthyNumber(q.minPrice) && q.minPrice.value > 0.0 then q.minPrice.value else 1.0,
            0, [], Or(q.tags, []), true, Or(q.sellerId, ""), Or(q.categoryId, ""), 0, 0)
  }

  /**
   The built filter selects exactly the products a query asks for, among rows with the
   positive prices the schemas let in, if and only if the query's maxPrice is not zero.
   */
  lemma FilterFaithfulIff(q: Query)
    requires FromSchema(q)
    ensures (forall p: Product | p.price > 0.0 :: Meets(WhereOf(q), p) <==> Satisfies(q, p))
       <==> q.maxPrice != Some(0.0)
  {
    if q.maxPrice == Some(0.0) {
      var p := Wanted(q);
      FilterMeaning(q, p);
      ContainsItself(p.title, p.title);
      ContainsIff(p.title, p.title);
      if q.tags.Some? {
        assert q.tags.value[0] in p.tags;
      }
      assert Satisfies(q.(maxPrice := None), p);
      assert p.price > 0.0 && Meets(WhereOf(q), p) && !Satisfies(q, p);
    } else {
      forall p: Product | p.price > 0.0 ensures Meets(WhereOf(q), p) <==> Satisfies(q, p) {
        FilterMeaning(q, p);
      }
    }
  }

  /* ---- The result ---- */

  predicate Less(order: SortBy, a: Product, b: Product) {
    match order
    case PriceAsc => a.price < b.price
    case PriceDesc => a.price > b.price
    case Newest => a.createdAt > b.createdAt
    case Oldest => a.createdAt < b.createdAt
  }

  function Insert(order: SortBy, p: Product, rows: seq<Product>): seq<Product> {
    if rows != [] && Less(order, rows[0], p) then [rows[0]] + Insert(order, p, rows[1..]) else [p] + rows
  }

  /** The rows in the requested order; rows that compare equal keep the table's order. */
  function Sorted(order: SortBy, rows: seq<Product>): seq<Product> {
    if rows == [] then [] else Insert(order, rows[0], Sorted(order, rows[1..]))
  }

  function Filter(w: Where, rows: seq<Product>): seq<Product> {
    if rows == [] then []
    else (if Meets(w, rows[0]) then [rows[0]] else []) + Filter(w, rows[1..])
  }

  ghost predicate InOrder(order: SortBy, rows: seq<Product>) {
    forall i, j | 0 <= i < j < |rows| :: !Less(order, rows[j], rows[i])
  }

  lemma {:induction false} InsertKeeps(order: SortBy, p: Product, rows: seq<Product>)
    ensures multiset(Insert(order, p, rows)) == multiset([p]) + multiset(rows)
  {
    if rows != [] && Less(order, rows[0], p) {
      InsertKeeps(order, p, rows[1..]);
      assert rows == [rows[0]] + rows[1..];
    }
  }

  lemma {:induction false} InsertInOrder(order: SortBy, p: Product, rows: seq<Product>)
    requires InOrder(order, rows)
    ensures InOrder(order, Insert(order, p, rows))
  {
    if rows != [] && Less(order, rows[0], p) {
      InsertInOrder(order, p, rows[1..]);
      InsertKeeps(order, p, rows[1..]);
      var rest := Insert(order, p, rows[1..]);
      forall j | 0 <= j < |rest| ensures !Less(order, rest[j], rows[0]) {
        assert rest[j] in multiset([p]) + multiset(rows[1..]);
        assert rest[j] == p || rest[j] in rows[1..];
      }
    }
  }

  /** What each value of sortBy means; without one, the newest come first. */
  ghost predicate ShownInOrder(sortBy: Option<SortBy>, rows: seq<Product>) {
    forall i, j | 0 <= i < j < |rows| ::
      match sortBy
      case Some(PriceAsc) => rows[i].price <= rows[j].price
      case Some(PriceDesc) => rows[i].price >= rows[j].price
      case Some(Oldest) => rows[i].createdAt <= rows[j].createdAt
      case _ => rows[i].createdAt >= rows[j].createdAt
  }

  lemma InOrderShown(q: Query, rows: seq<Product>)
    requires InOrder(OrderOf(q), rows)
    ensures ShownInOrder(q.sortBy, rows)
  {
  }

  lemma {:induction false} SortedInOrder(order: SortBy, rows: seq<Product>)
    ensures InOrder(order, Sorted(order, rows))
    ensures ShownInOrder(Some(order), Sorted(order, rows))
    ensures multiset(Sorted(order, rows)) == multiset(rows)
  {
    if rows != [] {
      SortedInOrder(order, rows[1..]);
      InsertInOrder(order, rows[0], Sorted(order, rows[1..]));
      InsertKeeps(order, rows[0], Sorted(order, rows[1..]));
      assert rows == [rows[0]] + rows[1..];
    }
  }

  lemma {:induction false} FilterCounts(w: Where, rows: seq<Product>, p: Product)
    ensures multiset(Filter(w, rows))[p] == if Meets(w, p) then multiset(rows)[p] else 0
  {
    if rows != [] {
      FilterCounts(w, rows[1..], p);
      assert rows == [rows[0]] + rows[1..];
    }
  }

  datatype Meta = Meta(page: int, limit: int, total: nat, totalPages: nat)

  datatype Listing = Listing(products: seq<ProductDto>, meta: Meta)

  /** Every row a query's filter lets through, in the query's order. */
  function Matching(rows: seq<Product>, q: Query): seq<Product> {
    Sorted(OrderOf(q), Filter(WhereOf(q), rows))
  }

  function OrderOf(q: Query): SortBy {
    if q.sortBy.Some? then q.sortBy.value else Newest
  }

  predicate PageInRange(q: Query) {
    q.page >= 1 && q.limit >= 1
  }

  /** A query with a page and a limit the pages are defined for. */
  type PageQuery = q: Query | PageInRange(q) witness Query(1, 1, None, None, None, None, None, None, None)

  /** What getProducts computes when its rows and its total come from two snapshots. */
  function ListingOf(rows: seq<Product>, counted: seq<Product>, q: Query): Listing
    requires PageInRange(q)
  {
    var total := |Filter(WhereOf(q), counted)|;
    Listing(ToCollectionDto(PageOf(Matching(rows, q), q.page, q.limit)),
            Meta(q.page, q.limit, total, TotalPages(total, q.limit)))
  }

  /**
   Over a fixed table, the pages 1 to meta.totalPages of a query show, in its order, every
   row that satisfies it exactly as often as the table holds it, and nothing else.
   */
  lemma ListingShowsExactlyTheMatches(rows: seq<Product>, q: Query)
    requires FromSchema(q) && PageInRange(q) && q.maxPrice != Some(0.0)
    requires Priced(rows)
    ensures var shown := PagesUpTo(Matching(rows, q), ListingOf(rows, rows, q).meta.totalPages, q.limit);
            && ShownInOrder(q.sortBy, shown)
            && |shown| == ListingOf(rows, rows, q).meta.total
            && forall p :: multiset(shown)[p] == if Satisfies(q, p) then multiset(rows)[p] else 0
    ensures forall page: nat | page >= 1 ::
              var listing := ListingOf(rows, rows, q.(page := page));
              var window := PageOf(Matching(rows, q), page, q.limit);
              && listing.meta.page == page && listing.meta.limit == q.limit
              && |listing.products| == |window|
              && forall i | 0 <= i < |window| :: Describes(listing.products[i], window[i])
  {
    var kept := Filter(WhereOf(q), rows);
    SortedInOrder(OrderOf(q), kept);
    assert |multiset(Matching(rows, q))| == |multiset(kept)|;
    PagesPartition(Matching(rows, q), q.limit);
    InOrderShown(q, Matching(rows, q));
    forall p ensures multiset(kept)[p] == if Satisfies(q, p) then multiset(rows)[p] else 0 {
      FilterCounts(WhereOf(q), rows, p);
      if p in rows {
        FilterMeaning(q, p);
      } else {
        assert multiset(rows)[p] == 0;
      }
    }
  }

  /** The rows a query asks for, in the table's order. */
  function Selected(q: Query, rows: seq<Product>): seq<Product> {
    if rows == [] then []
    else (if Satisfies(q, rows[0]) then [rows[0]] else []) + Selected(q, rows[1..])
  }

  /** The listing said without a filter: a page of what is asked for, and its total. */
  function AskedListing(rows: seq<Product>, counted: seq<Product>, q: Query): Listing
    requires PageInRange(q)
  {
    var total := |Selected(q, counted)|;
    Listing(ToCollectionDto(PageOf(Sorted(OrderOf(q), Selected(q, rows)), q.page, q.limit)),
            Meta(q.page, q.limit, total, TotalPages(total, q.limit)))
  }

  lemma {:induction false} FilterIsSelected(q: Query, rows: seq<Product>)
    requires FromSchema(q) && q.maxPrice != Some(0.0) && Priced(rows)
    ensures Filter(WhereOf(q), rows) == Selected(q, rows)
  {
    if rows != [] {
      assert rows[0].price > 0.0;
      FilterMeaning(q, rows[0]);
      FilterIsSelected(q, rows[1..]);
    }
  }

  lemma ListingIsAsked(rows: seq<Product>, counted: seq<Product>, q: Query)
    requires FromSchema(q) && PageInRange(q) && q.maxPrice != Some(0.0)
    requires Priced(rows) && Priced(counted)
    ensures ListingOf(rows, counted, q) == AskedListing(rows, counted, q)
  {
    FilterIsSelected(q, rows);
    FilterIsSelected(q, counted);
  }

  /** A listing has an entry for the product. */
  predicate Shows(listing: Listing, id: Id) {
    exists i | 0 <= i < |listing.products| :: listing.products[i].id == id
  }

  /** Whatever is listed is an active row of the table that was read. */
  lemma ListedIsActive(rows: seq<Product>, counted: seq<Product>, q: Query, id: Id)
    requires PageInRange(q) && Shows(ListingOf(rows, counted, q), id)
    ensures exists p :: p in rows && p.id == id && p.isActive
  {
    var shown := PageOf(Matching(rows, q), q.page, q.limit);
    var i :| 0 <= i < |shown| && ToCollectionDto(shown)[i].id == id;
    var p := shown[i];
    SortedInOrder(OrderOf(q), Filter(WhereOf(q), rows));
    assert p in Matching(rows, q) && p in multiset(Matching(rows, q));
    FilterCounts(WhereOf(q), rows, p);
    assert p in multiset(rows);
  }

  /** A table whose one row matches is listed on page 1. */
  lemma OnlyRowListed(p: Product, q: Query)
    requires PageInRange(q) && q.page == 1 && Meets(WhereOf(q), p)
    ensures ListingOf([p], [p], q).products == [ToDto(p)]
  {
    assert [p][1..] == [];
    assert Filter(WhereOf(q), [p]) == [p];
    assert Sorted(OrderOf(q), [p]) == [p];
    assert PageOf([p], 1, q.limit) == [p];
  }

  /* ---- The cache key ---- */

  /** JSON.stringify of where, orderBy, limit and skip: the page itself is not in it. */
  datatype ListKey = ListKey(filter: Where, orderBy: SortBy, limit: int, skip: int)

  function KeyOf(q: Query): ListKey {
    ListKey(WhereOf(q), OrderOf(q), q.limit, SkipOf(q.page, q.limit))
  }

  /**
   The list key is sound and complete: for limits of at least 1, two queries share a key if
   and only if they have the same filter, order, limit and page.
   */
  lemma KeyDeterminesQuery(q: Query, other: Query)
    requires q.limit >= 1
    ensures KeyOf(q) == KeyOf(other)
       <==> (&& WhereOf(q) == WhereOf(other)
             && OrderOf(q) == OrderOf(other)
             && q.limit == other.limit
             && q.page == other.page)
  {
    if KeyOf(q) == KeyOf(other) {
      SkipDeterminesPage(q.page, other.page, q.limit);
    }
  }

  /** So a cached list answers every query with its key, page number and totals included. */
  lemma SameKeySameListing(q: Query, other: Query, rows: seq<Product>, counted: seq<Product>)
    requires PageInRange(q) && PageInRange(other) && KeyOf(q) == KeyOf(other)
    ensures ListingOf(rows, counted, q) == ListingOf(rows, counted, other)
  {
    KeyDeterminesQuery(q, other);
  }

  /** Dropping the page from the key is safe exactly because the limit is not zero. */
  lemma KeyTellsPageIff(q: Query)
    ensures (forall page :: KeyOf(q.(page := page)) == KeyOf(q) ==> page == q.page) <==> q.limit != 0
  {
    if q.limit == 0 {
      assert KeyOf(q.(page := q.page + 1)) == KeyOf(q);
    } else {
      forall page | KeyOf(q.(page := page)) == KeyOf(q) ensures page == q.page {
        assert SkipOf(page, q.limit) == SkipOf(q.page, q.limit);
        if q.limit >= 1 {
          SkipDeterminesPage(page, q.page, q.limit);
        } else {
          assert SkipOf(page, -q.limit) == -SkipOf(page, q.limit);
          assert SkipOf(q.page, -q.limit) == -SkipOf(q.page, q.limit);
          SkipDeterminesPage(page, q.page, -q.limit);
        }
      }
    }
  }
}
