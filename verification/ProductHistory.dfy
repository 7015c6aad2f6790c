/**
 Where a cached answer of ProductService comes from, over every sequence of operations: which
 earlier state of the table it shows, how old it is, and when there is one.
 */
module ProductHistory {
  import opened Results
  import opened Clock
  import opened Redis
  import opened Catalog
  import opened ProductTable
  import opened ProductQuery
  import opened ProductService

  /** The shop after the first `k` operations. */
  function After(ops: seq<Op>, k: nat): Shop
    requires k <= |ops|
  {
    Steps(EmptyShop, ops[..k])
  }

  lemma {:induction false} StepsAppend(s: Shop, ops: seq<Op>, op: Op)
    ensures Steps(s, ops + [op]) == Step(Steps(s, ops), op)
    decreases |ops|
  {
    if ops == [] {
      assert ([] + [op])[1..] == [];
    } else {
      StepsAppend(Step(s, ops[0]), ops[1..], op);
      assert (ops + [op])[1..] == ops[1..] + [op];
    }
  }

  lemma OneMore(ops: seq<Op>, k: nat)
    requires k < |ops|
    ensures After(ops, k + 1) == Step(After(ops, k), ops[k])
  {
    assert ops[..k + 1] == ops[..k] + [ops[k]];
    StepsAppend(EmptyShop, ops[..k], ops[k]);
  }

  lemma StepForward(s: Shop, op: Op)
    ensures s.cache.now <= Step(s, op).cache.now
  {
  }

  /* ---- Products ---- */

  /** Operation `j` asks for the product, misses the cache and finds the product. */
  predicate Fills(ops: seq<Op>, j: nat, id: Id)
    requires j < |ops|
  {
    && ops[j] == GetById(id)
    && After(ops, j).cache.Lookup(ProductKey(id)) == None
    && FindActive(After(ops, j).table, id).Some?
  }

  /** Operation `i` is an update or a deletion of the product that its seller asked for. */
  predicate Writes(ops: seq<Op>, i: nat, id: Id)
    requires i < |ops|
  {
    && ops[i].Change? && ops[i].id == id
    && Find(After(ops, i).table, id).Some? && Find(After(ops, i).table, id).value.sellerId == ops[i].sellerId
  }

  /** The entry operation `j` wrote is still there after `n` operations, live or not. */
  predicate FilledBy(ops: seq<Op>, n: nat, id: Id, j: nat)
    requires n <= |ops|
  {
    && j < n && Fills(ops, j, id)
    && forall i | j < i < n :: !Writes(ops, i, id)
  }

  predicate EntryFrom(ops: seq<Op>, n: nat, id: Id, j: nat)
    requires n <= |ops| && j < |ops|
  {
    var entries := After(ops, n).cache.entries;
    && ProductKey(id) in entries
    && FindActive(After(ops, j).table, id).Some?
    && entries[ProductKey(id)]
         == Entry(Detail(ToDto(FindActive(After(ops, j).table, id).value)), After(ops, j).cache.now + 120_000)
  }

  /** An entry was written by some operation and not deleted since; what is written and lives is there. */
  ghost predicate EntryTold(ops: seq<Op>, n: nat, id: Id)
    requires n <= |ops|
  {
    && (ProductKey(id) in After(ops, n).cache.entries ==> exists j :: FilledBy(ops, n, id, j) && EntryFrom(ops, n, id, j))
    && (forall j | FilledBy(ops, n, id, j) && After(ops, n).cache.now < After(ops, j).cache.now + 120_000 ::
          EntryFrom(ops, n, id, j))
  }

  /** What one operation does to a product's entry. */
  lemma EntryMoves(s: Shop, op: Op, id: Id)
    requires ProductKey(id) in s.cache.entries ==> s.cache.entries[ProductKey(id)].value.Detail?
    ensures var key, e, e' := ProductKey(id), s.cache.entries, Step(s, op).cache.entries;
            if op == GetById(id) && s.cache.Lookup(key) == None && FindActive(s.table, id).Some? then
              key in e' && e'[key] == Entry(Detail(ToDto(FindActive(s.table, id).value)), s.cache.now + 120_000)
            else if op.Change? && op.id == id && Find(s.table, id).Some? && Find(s.table, id).value.sellerId == op.sellerId then
              key !in e'
            else
              (key in e' <==> key in e) && (key in e ==> e'[key] == e[key])
  {
  }

  lemma {:induction false} EntryAlwaysTold(ops: seq<Op>, n: nat, id: Id)
    requires n <= |ops|
    ensures EntryTold(ops, n, id)
  {
    if n > 0 {
      EntryAlwaysTold(ops, n - 1, id);
      EntryToldOnce(ops, n - 1, id);
    }
  }

  lemma EntryToldOnce(ops: seq<Op>, n: nat, id: Id)
    requires n < |ops| && EntryTold(ops, n, id)
    ensures EntryTold(ops, n + 1, id)
  {
    var s, op := After(ops, n), ops[n];
    OneMore(ops, n);
    EntryMoves(s, op, id);
    StepForward(s, op);
    if Fills(ops, n, id) {
      assert FilledBy(ops, n + 1, id, n) && EntryFrom(ops, n + 1, id, n);
    } else if !Writes(ops, n, id) && ProductKey(id) in s.cache.entries {
      var j :| FilledBy(ops, n, id, j) && EntryFrom(ops, n, id, j);
      assert FilledBy(ops, n + 1, id, j) && EntryFrom(ops, n + 1, id, j);
    }
    forall j: nat | FilledBy(ops, n + 1, id, j) && After(ops, n + 1).cache.now < After(ops, j).cache.now + 120_000
      ensures EntryFrom(ops, n + 1, id, j)
    {
      if j < n {
        assert FilledBy(ops, n, id, j) && EntryFrom(ops, n, id, j);
      }
    }
  }

  /**
   An entry is live if and only if less than 120000 ms ago somebody asked for the product, missed
   and found it, and no update or deletion of the product has been accepted since.
   */
  lemma LiveIff(ops: seq<Op>, id: Id)
    ensures After(ops, |ops|).cache.Lookup(ProductKey(id)).Some?
       <==> exists j :: && FilledBy(ops, |ops|, id, j)
                        && After(ops, |ops|).cache.now < After(ops, j).cache.now + 120_000
  {
    EntryAlwaysTold(ops, |ops|, id);
    if j :| FilledBy(ops, |ops|, id, j) && After(ops, |ops|).cache.now < After(ops, j).cache.now + 120_000 {
      assert EntryFrom(ops, |ops|, id, j);
    }
  }

  /** What an uncached lookup of the product answers on a table, column by column. */
  predicate Answers(outcome: Outcome, t: Table, id: Id) {
    match outcome
    case Ok(dto) => Find(t, id).Some? && Find(t, id).value.isActive && Describes(dto, Find(t, id).value)
    case Err(e) => e == NotFound && (Find(t, id).None? || !Find(t, id).value.isActive)
  }

  /**
   Bounded staleness without overlap: after every sequence of operations getProductById answers
   what the table held after some prefix of them, less than 120000 ms ago.
   */
  lemma DetailIsRecent(ops: seq<Op>, id: Id) returns (k: nat)
    ensures k <= |ops|
    ensures After(ops, |ops|).cache.now - After(ops, k).cache.now < 120_000
    ensures Answers(GetByIdResult(After(ops, |ops|), id), After(ops, k).table, id)
  {
    k := |ops|;
    EntryAlwaysTold(ops, |ops|, id);
    if After(ops, |ops|).cache.Lookup(ProductKey(id)).Some? {
      k :| FilledBy(ops, |ops|, id, k) && EntryFrom(ops, |ops|, id, k);
    }
  }

  /* ---- Lists ---- */

  /** Operation `j` asks for a list under the key and misses the cache. */
  predicate FillsList(ops: seq<Op>, j: nat, key: ListKey)
    requires j < |ops|
  {
    && ops[j].GetList? && PageInRange(ops[j].query) && KeyOf(ops[j].query) == key
    && After(ops, j).cache.Lookup(ProductsKey(key)) == None
  }

  predicate FilledListBy(ops: seq<Op>, n: nat, key: ListKey, j: nat)
    requires n <= |ops|
  {
    j < n && FillsList(ops, j, key)
  }

  predicate ListFrom(ops: seq<Op>, n: nat, key: ListKey, j: nat)
    requires n <= |ops| && j < |ops|
  {
    var entries, shop := After(ops, n).cache.entries, After(ops, j);
    && ProductsKey(key) in entries
    && ops[j].GetList? && PageInRange(ops[j].query) && KeyOf(ops[j].query) == key
    && entries[ProductsKey(key)]
         == Entry(Page(ListingOf(shop.table, shop.table, ops[j].query)), shop.cache.now + 60_000)
  }

  ghost predicate ListTold(ops: seq<Op>, n: nat, key: ListKey)
    requires n <= |ops|
  {
    && (ProductsKey(key) in After(ops, n).cache.entries ==>
          exists j :: FilledListBy(ops, n, key, j) && ListFrom(ops, n, key, j))
    && (forall j | FilledListBy(ops, n, key, j) && After(ops, n).cache.now < After(ops, j).cache.now + 60_000 ::
          ListFrom(ops, n, key, j))
  }

  lemma ListMoves(s: Shop, op: Op, key: ListKey)
    requires ProductsKey(key) in s.cache.entries ==> s.cache.entries[ProductsKey(key)].value.Page?
    ensures var k, e, e' := ProductsKey(key), s.cache.entries, Step(s, op).cache.entries;
            if op.GetList? && PageInRange(op.query) && KeyOf(op.query) == key && s.cache.Lookup(k) == None then
              k in e' && e'[k] == Entry(Page(ListingOf(s.table, s.table, op.query)), s.cache.now + 60_000)
            else
              (k in e' <==> k in e) && (k in e ==> e'[k] == e[k])
  {
  }

  lemma ListToldOnce(ops: seq<Op>, n: nat, key: ListKey)
    requires n < |ops| && ListTold(ops, n, key)
    ensures ListTold(ops, n + 1, key)
  {
    var s, op := After(ops, n), ops[n];
    OneMore(ops, n);
    ListMoves(s, op, key);
    StepForward(s, op);
    if FillsList(ops, n, key) {
      assert FilledListBy(ops, n + 1, key, n) && ListFrom(ops, n + 1, key, n);
    } else if ProductsKey(key) in s.cache.entries {
      var j: nat :| FilledListBy(ops, n, key, j) && ListFrom(ops, n, key, j);
      assert FilledListBy(ops, n + 1, key, j) && ListFrom(ops, n + 1, key, j);
    }
    forall j: nat | FilledListBy(ops, n + 1, key, j) && After(ops, n + 1).cache.now < After(ops, j).cache.now + 60_000
      ensures ListFrom(ops, n + 1, key, j)
    {
      if j < n {
        assert FilledListBy(ops, n, key, j) && ListFrom(ops, n, key, j);
      }
    }
  }

  lemma {:induction false} ListAlwaysTold(ops: seq<Op>, n: nat, key: ListKey)
    requires n <= |ops|
    ensures ListTold(ops, n, key)
  {
    if n > 0 {
      ListAlwaysTold(ops, n - 1, key);
      ListToldOnce(ops, n - 1, key);
    }
  }

  /** A list is live if and only if less than 60000 ms ago a query with its key missed; nothing removes it before. */
  lemma ListLiveIff(ops: seq<Op>, key: ListKey)
    ensures After(ops, |ops|).cache.Lookup(ProductsKey(key)).Some?
       <==> exists j :: && FilledListBy(ops, |ops|, key, j)
                        && After(ops, |ops|).cache.now < After(ops, j).cache.now + 60_000
  {
    ListAlwaysTold(ops, |ops|, key);
    if j: nat :| FilledListBy(ops, |ops|, key, j) && After(ops, |ops|).cache.now < After(ops, j).cache.now + 60_000 {
      assert ListFrom(ops, |ops|, key, j);
    }
  }

  /**
   The same for lists: getProducts answers the page the query asks for, of the table as it was
   after some prefix of the operations, less than 60000 ms ago.
   */
  lemma ListIsRecent(ops: seq<Op>, q: Query) returns (k: nat)
    requires FromSchema(q) && PageInRange(q) && q.maxPrice != Some(0.0)
    ensures k <= |ops|
    ensures After(ops, |ops|).cache.now - After(ops, k).cache.now < 60_000
    ensures GetListResult(After(ops, |ops|), q) == AskedListing(After(ops, k).table, After(ops, k).table, q)
  {
    k := |ops|;
    ListAlwaysTold(ops, |ops|, KeyOf(q));
    if After(ops, |ops|).cache.Lookup(ProductsKey(KeyOf(q))).Some? {
      k :| FilledListBy(ops, |ops|, KeyOf(q), k) && ListFrom(ops, |ops|, KeyOf(q), k);
      SameKeySameListing(ops[k].query, q, After(ops, k).table, After(ops, k).table);
    }
    StepsSound(EmptyShop, ops[..k]);
    ListingIsAsked(After(ops, k).table, After(ops, k).table, q);
  }
}
