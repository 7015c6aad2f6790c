/** The product table as a sequence of rows, and what its rows can become. */
module ProductTable {
  import opened Results
  import opened Clock
  import opened Catalog

  type Table = seq<Product>

  /** What the order schema lets through as a quantity. */
  type Quantity = amount: int | amount > 0 witness 1

  datatype Item = Item(productId: Id, quantity: Quantity)

  function Find(t: Table, id: Id): Option<Product> {
    if t == [] then None else if t[0].id == id then Some(t[0]) else Find(t[1..], id)
  }

  /** findFirst with `isActive: true`. */
  function FindActive(t: Table, id: Id): Option<Product> {
    var found := Find(t, id);
    if found.Some? && found.value.isActive then found else None
  }

  /** The table with every row of `p`'s id replaced by `p`. */
  function Rewrite(t: Table, p: Product): Table {
    if t == [] then [] else [if t[0].id == p.id then p else t[0]] + Rewrite(t[1..], p)
  }

  function Decrement(t: Table, items: seq<Item>, now: Time): Table
    decreases |items|
  {
    if items == [] then t else
    var found := Find(t, items[0].productId);
    var t' := if found.Some? then Rewrite(t, Decremented(found.value, items[0].quantity, now)) else t;
    Decrement(t', items[1..], now)
  }

  predicate AllExist(t: Table, items: seq<Item>) {
    forall i | 0 <= i < |items| :: Find(t, items[i].productId).Some?
  }

  function QuantityOf(items: seq<Item>, id: Id): int {
    if items == [] then 0 else (if items[0].productId == id then items[0].quantity else 0) + QuantityOf(items[1..], id)
  }

  lemma {:induction false} FindHasId(t: Table, id: Id)
    requires Find(t, id).Some?
    ensures Find(t, id).value.id == id
  {
    if t[0].id != id {
      FindHasId(t[1..], id);
    }
  }

  lemma {:induction false} FindRewritten(t: Table, p: Product, id: Id)
    ensures Find(Rewrite(t, p), id) == if id == p.id && Find(t, id).Some? then Some(p) else Find(t, id)
  {
    if t != [] {
      FindRewritten(t[1..], p, id);
      assert Rewrite(t, p)[1..] == Rewrite(t[1..], p);
    }
  }

  lemma {:induction false} FindAppended(t: Table, p: Product, id: Id)
    ensures Find(t + [p], id) == if Find(t, id).Some? then Find(t, id) else if p.id == id then Some(p) else None
  {
    if t != [] {
      FindAppended(t[1..], p, id);
      assert (t + [p])[1..] == t[1..] + [p];
    } else {
      assert t + [p] == [p];
    }
  }

  /** No write moves a product to another seller, or brings a deleted one back. */
  predicate MayBecome(p: Product, p': Product) {
    p'.id == p.id && p'.sellerId == p.sellerId && p'.createdAt == p.createdAt && (p'.isActive ==> p.isActive)
  }

  predicate RowEvolves(t: Table, t': Table, id: Id) {
    Find(t, id).Some? ==> Find(t', id).Some? && MayBecome(Find(t, id).value, Find(t', id).value)
  }

  ghost predicate Evolves(t: Table, t': Table) {
    forall id :: RowEvolves(t, t', id)
  }

  lemma EvolvesReflexive(t: Table)
    ensures Evolves(t, t)
  {
    forall id ensures RowEvolves(t, t, id) {
    }
  }

  lemma EvolvesTransitive(a: Table, b: Table, c: Table)
    requires Evolves(a, b) && Evolves(b, c)
    ensures Evolves(a, c)
  {
    forall id ensures RowEvolves(a, c, id) {
      assert RowEvolves(a, b, id) && RowEvolves(b, c, id);
    }
  }

  lemma RewriteEvolves(t: Table, id: Id, p: Product)
    requires Find(t, id).Some? && MayBecome(Find(t, id).value, p)
    ensures Evolves(t, Rewrite(t, p))
  {
    FindHasId(t, id);
    forall other ensures RowEvolves(t, Rewrite(t, p), other) {
      FindRewritten(t, p, other);
    }
  }

  lemma AppendEvolves(t: Table, p: Product)
    ensures Evolves(t, t + [p])
  {
    forall id ensures RowEvolves(t, t + [p], id) {
      FindAppended(t, p, id);
    }
  }

  lemma {:induction false} DecrementEvolves(t: Table, items: seq<Item>, now: Time)
    ensures Evolves(t, Decrement(t, items, now))
    decreases |items|
  {
    if items != [] {
      var found := Find(t, items[0].productId);
      var t' := if found.Some? then Rewrite(t, Decremented(found.value, items[0].quantity, now)) else t;
      if found.Some? {
        RewriteEvolves(t, items[0].productId, Decremented(found.value, items[0].quantity, now));
      }
      assert Evolves(t, t');
      DecrementEvolves(t', items[1..], now);
      EvolvesTransitive(t, t', Decrement(t, items, now));
    }
  }

  /** The loop takes from each product's stock what the order asks of it, and changes no other column but updatedAt. */
  lemma {:induction false} DecrementTakesQuantity(t: Table, items: seq<Item>, now: Time, id: Id)
    ensures Find(Decrement(t, items, now), id).Some? <==> Find(t, id).Some?
    ensures Find(t, id).Some? ==>
              var p, p' := Find(t, id).value, Find(Decrement(t, items, now), id).value;
              p'.stock == p.stock - QuantityOf(items, id) && p' == p.(stock := p'.stock, updatedAt := p'.updatedAt)
    decreases |items|
  {
    if items != [] {
      var found := Find(t, items[0].productId);
      if found.Some? {
        FindHasId(t, items[0].productId);
        FindRewritten(t, Decremented(found.value, items[0].quantity, now), id);
        DecrementTakesQuantity(Rewrite(t, Decremented(found.value, items[0].quantity, now)), items[1..], now, id);
      } else {
        DecrementTakesQuantity(t, items[1..], now, id);
      }
    }
  }

  /** A product that is not asked for keeps all its columns, updatedAt included. */
  lemma {:induction false} DecrementSparesOthers(t: Table, items: seq<Item>, now: Time, id: Id)
    ensures QuantityOf(items, id) >= 0
    ensures QuantityOf(items, id) == 0 ==> Find(Decrement(t, items, now), id) == Find(t, id)
    decreases |items|
  {
    if items != [] {
      var found := Find(t, items[0].productId);
      if found.Some? {
        FindHasId(t, items[0].productId);
        FindRewritten(t, Decremented(found.value, items[0].quantity, now), id);
        DecrementSparesOthers(Rewrite(t, Decremented(found.value, items[0].quantity, now)), items[1..], now, id);
      } else {
        DecrementSparesOthers(t, items[1..], now, id);
      }
    }
  }

  /* ---- Prices ---- */

  /** Every row has a positive price. */
  ghost predicate Priced(t: Table) {
    forall p | p in t :: p.price > 0.0
  }

  lemma {:induction false} FindIsRow(t: Table, id: Id)
    ensures Find(t, id).Some? ==> Find(t, id).value in t
  {
    if t != [] && t[0].id != id {
      FindIsRow(t[1..], id);
    }
  }

  lemma {:induction false} RewriteKeepsPrices(t: Table, p: Product)
    requires Priced(t) && p.price > 0.0
    ensures Priced(Rewrite(t, p))
  {
    if t != [] {
      RewriteKeepsPrices(t[1..], p);
    }
  }

  lemma {:induction false} DecrementKeepsPrices(t: Table, items: seq<Item>, now: Time)
    requires Priced(t)
    ensures Priced(Decrement(t, items, now))
    decreases |items|
  {
    if items != [] {
      var found := Find(t, items[0].productId);
      if found.Some? {
        FindIsRow(t, items[0].productId);
        RewriteKeepsPrices(t, Decremented(found.value, items[0].quantity, now));
        DecrementKeepsPrices(Rewrite(t, Decremented(found.value, items[0].quantity, now)), items[1..], now);
      } else {
        DecrementKeepsPrices(t, items[1..], now);
      }
    }
  }

  /* ---- Ids ---- */

  ghost predicate DistinctRows(rows: seq<Product>) {
    forall i, j | 0 <= i < j < |rows| :: rows[i].id != rows[j].id
  }

  lemma {:induction false} FindFinds(t: Table, p: Product)
    requires DistinctRows(t) && p in t
    ensures Find(t, p.id) == Some(p)
  {
    var i :| 0 <= i < |t| && t[i] == p;
    if i > 0 {
      assert t[1..][i - 1] == p;
      FindFinds(t[1..], p);
    }
  }

  lemma {:induction false} FindMisses(t: Table, id: Id)
    requires Find(t, id).None?
    ensures forall i | 0 <= i < |t| :: t[i].id != id
  {
    if t != [] {
      FindMisses(t[1..], id);
      forall i | 0 <= i < |t| ensures t[i].id != id {
        assert i > 0 ==> t[1..][i - 1] == t[i];
      }
    }
  }

  /** A rewrite touches the rows of one id only, and no row changes its id. */
  lemma {:induction false} RewriteAt(t: Table, p: Product)
    ensures |Rewrite(t, p)| == |t|
    ensures forall i | 0 <= i < |t| :: Rewrite(t, p)[i] == if t[i].id == p.id then p else t[i]
  {
    if t != [] {
      RewriteAt(t[1..], p);
      forall i | 0 <= i < |t| ensures Rewrite(t, p)[i] == if t[i].id == p.id then p else t[i] {
        assert i > 0 ==> t[1..][i - 1] == t[i] && Rewrite(t, p)[i] == Rewrite(t[1..], p)[i - 1];
      }
    }
  }

  lemma RewriteKeepsIds(t: Table, p: Product)
    requires DistinctRows(t)
    ensures DistinctRows(Rewrite(t, p))
  {
    RewriteAt(t, p);
  }

  lemma AppendKeepsIds(t: Table, p: Product)
    requires DistinctRows(t) && Find(t, p.id).None?
    ensures DistinctRows(t + [p])
  {
    FindMisses(t, p.id);
  }

  lemma {:induction false} DecrementKeepsIds(t: Table, items: seq<Item>, now: Time)
    requires DistinctRows(t)
    ensures DistinctRows(Decrement(t, items, now))
    decreases |items|
  {
    if items != [] {
      var found := Find(t, items[0].productId);
      if found.Some? {
        RewriteKeepsIds(t, Decremented(found.value, items[0].quantity, now));
        DecrementKeepsIds(Rewrite(t, Decremented(found.value, items[0].quantity, now)), items[1..], now);
      } else {
        DecrementKeepsIds(t, items[1..], now);
      }
    }
  }

  /* ---- Versions of the table ---- */

  /** What every version of the table is: prices are positive, ids are distinct. */
  ghost predicate Sound(t: Table) {
    Priced(t) && DistinctRows(t)
  }

  lemma AppendIsSound(t: Table, p: Product)
    requires Sound(t) && Find(t, p.id).None? && p.price > 0.0
    ensures Sound(t + [p]) && Evolves(t, t + [p])
  {
    AppendKeepsIds(t, p);
    AppendEvolves(t, p);
  }

  lemma RewriteIsSound(t: Table, id: Id, p: Product)
    requires Sound(t) && Find(t, id).Some? && MayBecome(Find(t, id).value, p) && p.price > 0.0
    ensures Sound(Rewrite(t, p)) && Evolves(t, Rewrite(t, p))
  {
    RewriteKeepsPrices(t, p);
    RewriteKeepsIds(t, p);
    RewriteEvolves(t, id, p);
  }

  lemma DecrementIsSound(t: Table, items: seq<Item>, now: Time)
    requires Sound(t)
    ensures Sound(Decrement(t, items, now)) && Evolves(t, Decrement(t, items, now))
  {
    DecrementKeepsPrices(t, items, now);
    DecrementKeepsIds(t, items, now);
    DecrementEvolves(t, items, now);
  }

  /** Every version is sound, and what one has become of another is allowed. */
  ghost predicate LogOk(log: seq<Table>) {
    && log != []
    && (forall i | 0 <= i < |log| :: Sound(log[i]))
    && (forall i, j | 0 <= i <= j < |log| :: Evolves(log[i], log[j]))
  }

  lemma LogOkAppend(log: seq<Table>, t: Table)
    requires LogOk(log) && Sound(t) && Evolves(log[|log| - 1], t)
    ensures LogOk(log + [t])
  {
    var longer := log + [t];
    forall i, j | 0 <= i <= j < |longer| ensures Evolves(longer[i], longer[j]) {
      if i < j == |log| {
        EvolvesTransitive(log[i], log[|log| - 1], t);
      } else if j == |log| {
        EvolvesReflexive(t);
      }
    }
  }

  lemma FirstLogOk()
    ensures LogOk([[]])
  {
    EvolvesReflexive([]);
  }
}
