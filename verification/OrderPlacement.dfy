/** The values createOrder computes from the rows it read, before and inside its transaction. */
module OrderPlacement {
  import opened Results
  import opened Clock
  import opened Catalog
  import opened ProductTable

  /* ---- findMany and the length check ---- */

  predicate Asks(items: seq<Item>, id: Id) {
    exists i | 0 <= i < |items| :: items[i].productId == id
  }

  /** findMany with `id in`: every row asked for, once, in any order, and nothing else. */
  ghost predicate FoundBy(t: Table, items: seq<Item>, rows: seq<Product>) {
    && DistinctRows(rows)
    && (forall i | 0 <= i < |rows| :: Asks(items, rows[i].id) && Find(t, rows[i].id) == Some(rows[i]))
    && (forall id | Asks(items, id) && Find(t, id).Some? :: Find(rows, id).Some?)
  }

  ghost predicate DistinctItems(items: seq<Item>) {
    forall i, j | 0 <= i < j < |items| :: items[i].productId != items[j].productId
  }

  function ItemIds(items: seq<Item>): set<Id> {
    set i | 0 <= i < |items| :: items[i].productId
  }

  function RowIds(rows: seq<Product>): set<Id> {
    set i | 0 <= i < |rows| :: rows[i].id
  }

  lemma {:induction false} FindInRows(rows: seq<Product>, id: Id)
    ensures Find(rows, id).Some? <==> id in RowIds(rows)
    ensures Find(rows, id).Some? ==> Find(rows, id).value in rows && Find(rows, id).value.id == id
  {
    if rows != [] {
      FindInRows(rows[1..], id);
      assert forall x | x in RowIds(rows[1..]) :: x in RowIds(rows) by {
        forall x | x in RowIds(rows[1..]) ensures x in RowIds(rows) {
          var i :| 0 <= i < |rows[1..]| && rows[1..][i].id == x;
          assert rows[i + 1].id == x;
        }
      }
      if id in RowIds(rows) && rows[0].id != id {
        var i :| 0 <= i < |rows| && rows[i].id == id;
        assert rows[1..][i - 1].id == id;
      }
    }
  }

  /** A list of ids is at least as long as its set, and as long only without repeats. */
  lemma {:induction false} IdsCount(items: seq<Item>)
    ensures |ItemIds(items)| <= |items|
    ensures |ItemIds(items)| == |items| <==> DistinctItems(items)
  {
    if items != [] {
      var last := |items| - 1;
      var front := items[..last];
      IdsCount(front);
      var id := items[last].productId;
      assert ItemIds(items) == ItemIds(front) + {id};
      assert DistinctItems(items) <==> DistinctItems(front) && id !in ItemIds(front) by {
        LastIsNew(items);
      }
    }
  }

  lemma LastIsNew(items: seq<Item>)
    requires items != []
    ensures var front, id := items[..|items| - 1], items[|items| - 1].productId;
            DistinctItems(items) <==> DistinctItems(front) && id !in ItemIds(front)
  {
    var front, id := items[..|items| - 1], items[|items| - 1].productId;
    if DistinctItems(front) && id !in ItemIds(front) {
      forall i, j | 0 <= i < j < |items| ensures items[i].productId != items[j].productId {
        assert front[i].productId in ItemIds(front);
      }
    }
    if id in ItemIds(front) {
      var i :| 0 <= i < |front| && front[i].productId == id;
      assert items[i].productId == items[|items| - 1].productId;
    }
  }

  lemma {:induction false} RowsCount(rows: seq<Product>)
    requires DistinctRows(rows)
    ensures |RowIds(rows)| == |rows|
  {
    if rows != [] {
      var last := |rows| - 1;
      RowsCount(rows[..last]);
      assert RowIds(rows) == RowIds(rows[..last]) + {rows[last].id};
    }
  }

  lemma SubsetCount(a: set<Id>, b: set<Id>)
    requires a <= b
    ensures |a| <= |b|
    ensures |a| == |b| ==> a == b
  {
    assert |b - a| == |b| - |a|;
  }

  /**
   The length check is exact, by pigeonhole: as many rows as items come back if and only if
   the items name pairwise distinct products that all exist.
   */
  lemma LengthCheckIff(t: Table, items: seq<Item>, rows: seq<Product>)
    requires FoundBy(t, items, rows)
    ensures |rows| == |items| <==> DistinctItems(items) && AllExist(t, items)
  {
    RowsCount(rows);
    IdsCount(items);
    forall id | id in RowIds(rows) ensures id in ItemIds(items) {
      var i :| 0 <= i < |rows| && rows[i].id == id;
      assert Asks(items, rows[i].id);
    }
    SubsetCount(RowIds(rows), ItemIds(items));
    forall i | 0 <= i < |items|
      ensures items[i].productId in RowIds(rows) <==> Find(t, items[i].productId).Some?
    {
      var id := items[i].productId;
      assert Asks(items, id);
      FindInRows(rows, id);
      if id in RowIds(rows) {
        var k :| 0 <= k < |rows| && rows[k].id == id;
        assert Find(t, rows[k].id) == Some(rows[k]);
      }
    }
    if AllExist(t, items) {
      assert RowIds(rows) == ItemIds(items);
    }
    if RowIds(rows) == ItemIds(items) {
      assert forall i | 0 <= i < |items| :: items[i].productId in ItemIds(items);
    }
  }

  /** After the check no `find` misses, and each finds the row of the snapshot. */
  lemma CheckedItemsAreFound(t: Table, items: seq<Item>, rows: seq<Product>, i: nat)
    requires FoundBy(t, items, rows) && |rows| == |items| && i < |items|
    ensures Find(rows, items[i].productId).Some?
    ensures Find(rows, items[i].productId) == Find(t, items[i].productId)
  {
    LengthCheckIff(t, items, rows);
    var id := items[i].productId;
    assert Asks(items, id);
    FindInRows(rows, id);
    var k :| 0 <= k < |rows| && rows[k] == Find(rows, id).value;
    assert Find(t, rows[k].id) == Some(rows[k]);
  }

  /* ---- The order's items and total ---- */

  datatype OrderItem = OrderItem(productId: Id, quantity: Quantity, price: real)

  datatype OrderStatus = Pending | Paid | Shipped | Delivered | Cancelled | Refunded

  datatype Order = Order(
    id: Id,
    buyerId: Id,
    sellerId: Id,
    totalAmount: real,
    status: OrderStatus,
    items: seq<OrderItem>)

  datatype Intent = Intent(orderId: Id, amount: int)

  /** `product?.price || 0` */
  function PriceIn(rows: seq<Product>, id: Id): real {
    var found := Find(rows, id);
    if found.Some? then found.value.price else 0.0
  }

  /** The reduce over the items, from a running sum. */
  function Reduce(rows: seq<Product>, items: seq<Item>, sum: real): real
    decreases |items|
  {
    if items == [] then sum
    else Reduce(rows, items[1..], sum + PriceIn(rows, items[0].productId) * items[0].quantity as real)
  }

  function TotalOf(rows: seq<Product>, items: seq<Item>): real {
    Reduce(rows, items, 0.0)
  }

  function ItemsOf(rows: seq<Product>, items: seq<Item>): seq<OrderItem> {
    seq(|items|, i requires 0 <= i < |items| =>
      OrderItem(items[i].productId, items[i].quantity, PriceIn(rows, items[i].productId)))
  }

  function LineOf(item: OrderItem): real {
    item.price * item.quantity as real
  }

  /** Price times quantity, summed over the items an order stores. */
  function SumOf(items: seq<OrderItem>): real {
    if items == [] then 0.0 else LineOf(items[0]) + SumOf(items[1..])
  }

  function RequestedOf(items: seq<OrderItem>): seq<Item> {
    seq(|items|, i requires 0 <= i < |items| => Item(items[i].productId, items[i].quantity))
  }

  /** The row the transaction inserts. */
  function OrderOf(id: Id, buyerId: Id, rows: seq<Product>, items: seq<Item>): Order
    requires rows != []
  {
    Order(id, buyerId, rows[0].sellerId, TotalOf(rows, items), Pending, ItemsOf(rows, items))
  }

  lemma {:induction false} ReduceIsSum(rows: seq<Product>, items: seq<Item>, sum: real)
    ensures Reduce(rows, items, sum) == sum + SumOf(ItemsOf(rows, items))
    decreases |items|
  {
    if items != [] {
      ReduceIsSum(rows, items[1..], sum + PriceIn(rows, items[0].productId) * items[0].quantity as real);
      assert ItemsOf(rows, items)[1..] == ItemsOf(rows, items[1..]);
    }
  }

  /**
   Conservation: a checked order's total is the sum of price times quantity over the items it
   stores; those repeat the request, and every price is that of the one snapshot that was read.
   */
  lemma TotalIsSumOfItems(t: Table, items: seq<Item>, rows: seq<Product>)
    requires FoundBy(t, items, rows) && |rows| == |items|
    ensures TotalOf(rows, items) == SumOf(ItemsOf(rows, items))
    ensures RequestedOf(ItemsOf(rows, items)) == items
    ensures forall i | 0 <= i < |items| ::
              && Find(t, items[i].productId).Some?
              && ItemsOf(rows, items)[i].price == Find(t, items[i].productId).value.price
  {
    ReduceIsSum(rows, items, 0.0);
    forall i | 0 <= i < |items|
      ensures Find(t, items[i].productId).Some?
      ensures ItemsOf(rows, items)[i].price == Find(t, items[i].productId).value.price
    {
      CheckedItemsAreFound(t, items, rows, i);
    }
  }

  /** The order field by field: whose it is, and what was asked for at the prices read. */
  predicate SpelledOut(order: Order, t: Table, items: seq<Item>, first: Product, id: Id, buyerId: Id) {
    && order.id == id && order.buyerId == buyerId && order.sellerId == first.sellerId && order.status == Pending
    && order.totalAmount == SumOf(order.items)
    && |order.items| == |items|
    && forall i | 0 <= i < |items| ::
         && order.items[i].productId == items[i].productId && order.items[i].quantity == items[i].quantity
         && Find(t, items[i].productId).Some?
         && order.items[i].price == Find(t, items[i].productId).value.price
  }

  lemma OrderSpelledOut(t: Table, items: seq<Item>, rows: seq<Product>, id: Id, buyerId: Id)
    requires FoundBy(t, items, rows) && |rows| == |items| && rows != []
    ensures SpelledOut(OrderOf(id, buyerId, rows, items), t, items, rows[0], id, buyerId)
  {
    TotalIsSumOfItems(t, items, rows);
  }

  /** The order in which findMany returns the rows does not matter. */
  lemma RowOrderIrrelevant(t: Table, items: seq<Item>, rows: seq<Product>, other: seq<Product>)
    requires FoundBy(t, items, rows) && FoundBy(t, items, other) && |rows| == |items|
    ensures |other| == |items|
    ensures ItemsOf(rows, items) == ItemsOf(other, items)
    ensures TotalOf(rows, items) == TotalOf(other, items)
  {
    LengthCheckIff(t, items, rows);
    LengthCheckIff(t, items, other);
    forall i | 0 <= i < |items| ensures ItemsOf(rows, items)[i] == ItemsOf(other, items)[i] {
      CheckedItemsAreFound(t, items, rows, i);
      CheckedItemsAreFound(t, items, other, i);
    }
    TotalIsSumOfItems(t, items, rows);
    TotalIsSumOfItems(t, items, other);
  }

  /** A sum over the items of any amount per item. */
  function SumBy(items: seq<Item>, amount: Item -> real): real {
    if items == [] then 0.0 else amount(items[0]) + SumBy(items[1..], amount)
  }

  lemma {:induction false} SumWithout(items: seq<Item>, amount: Item -> real, i: nat)
    requires i < |items|
    ensures SumBy(items, amount) == amount(items[i]) + SumBy(items[..i] + items[i + 1..], amount)
  {
    var less := items[..i] + items[i + 1..];
    if i == 0 {
      assert less == items[1..];
    } else {
      SumWithout(items[1..], amount, i - 1);
      assert less[1..] == items[1..][..i - 1] + items[1..][i..];
    }
  }

  lemma TakenOut(items: seq<Item>, i: nat)
    requires i < |items|
    ensures multiset(items[..i] + items[i + 1..]) == multiset(items) - multiset{items[i]}
  {
    assert items == items[..i] + [items[i]] + items[i + 1..];
  }

  lemma HeadOut(items: seq<Item>)
    requires items != []
    ensures multiset(items[1..]) == multiset(items) - multiset{items[0]}
  {
    assert items == [items[0]] + items[1..];
  }

  lemma Whereabouts(items: seq<Item>, item: Item) returns (i: nat)
    requires item in multiset(items)
    ensures i < |items| && items[i] == item
  {
    i :| 0 <= i < |items| && items[i] == item;
  }

  lemma PermutedTail(items: seq<Item>, other: seq<Item>) returns (i: nat)
    requires items != [] && multiset(items) == multiset(other)
    ensures i < |other| && other[i] == items[0]
    ensures multiset(items[1..]) == multiset(other[..i] + other[i + 1..])
  {
    i := Whereabouts(other, items[0]);
    HeadOut(items);
    TakenOut(other, i);
  }

  lemma {:induction false} SumPermuted(items: seq<Item>, other: seq<Item>, amount: Item -> real)
    requires multiset(items) == multiset(other)
    ensures SumBy(items, amount) == SumBy(other, amount)
    decreases |items|
  {
    if items == [] {
      assert |multiset(other)| == 0;
    } else {
      var i := PermutedTail(items, other);
      SumPermuted(items[1..], other[..i] + other[i + 1..], amount);
      SumWithout(other, amount, i);
    }
  }

  /** What one requested item adds to the total. */
  function AmountIn(rows: seq<Product>): Item -> real {
    (item: Item) => PriceIn(rows, item.productId) * item.quantity as real
  }

  lemma {:induction false} SumOfIsSumBy(rows: seq<Product>, items: seq<Item>)
    ensures SumOf(ItemsOf(rows, items)) == SumBy(items, AmountIn(rows))
    decreases |items|
  {
    if items != [] {
      SumOfIsSumBy(rows, items[1..]);
      assert ItemsOf(rows, items)[1..] == ItemsOf(rows, items[1..]);
    }
  }

  /** Nor does the order in which the client lists the items. */
  lemma ItemOrderIrrelevant(rows: seq<Product>, items: seq<Item>, other: seq<Item>)
    requires multiset(items) == multiset(other)
    ensures TotalOf(rows, items) == TotalOf(rows, other)
  {
    ReduceIsSum(rows, items, 0.0);
    ReduceIsSum(rows, other, 0.0);
    SumOfIsSumBy(rows, items);
    SumOfIsSumBy(rows, other);
    SumPermuted(items, other, AmountIn(rows));
  }

  /* ---- The charged amount ---- */

  /** Math.round(totalAmount * 100): half-way cases go up. */
  function Charged(total: real): int {
    (total * 100.0 + 0.5).Floor
  }

  predicate WholeCents(amount: real) {
    (amount * 100.0).Floor as real == amount * 100.0
  }

  lemma FloorBounds(x: real)
    ensures x.Floor as real <= x < x.Floor as real + 1.0
  {
  }

  lemma IntBetween(m: int, n: int)
    requires -1.0 < m as real - n as real < 1.0
    ensures m == n
  {
    assert (m - n) as real == m as real - n as real;
  }

  lemma RoundIsClose(x: real)
    ensures -0.5 <= (x + 0.5).Floor as real - x <= 0.5
    ensures (x + 0.5).Floor as real == x <==> x.Floor as real == x
  {
    FloorBounds(x + 0.5);
    FloorBounds(x);
    if (x + 0.5).Floor as real == x || x.Floor as real == x {
      IntBetween(x.Floor, (x + 0.5).Floor);
    }
  }

  /** The charge is within half a cent of the total, and exact exactly for whole cents. */
  lemma ChargeIsClose(total: real)
    ensures -0.5 <= Charged(total) as real - total * 100.0 <= 0.5
    ensures Charged(total) as real == total * 100.0 <==> WholeCents(total)
  {
    RoundIsClose(total * 100.0);
  }

  lemma {:induction false} CentsTimes(cents: int, quantity: nat)
    ensures (cents * quantity) as real == cents as real * quantity as real
  {
    if quantity > 0 {
      CentsTimes(cents, quantity - 1);
    }
  }

  lemma MoveFactor(price: real, factor: real, cents: real)
    requires price * 100.0 == cents
    ensures price * factor * 100.0 == cents * factor
  {
    assert cents * factor == (price * 100.0) * factor;
  }

  /** One line of an order in whole cents. */
  lemma LineInCents(item: OrderItem)
    requires WholeCents(item.price)
    ensures WholeCents(LineOf(item))
  {
    var cents := (item.price * 100.0).Floor;
    CentsTimes(cents, item.quantity);
    MoveFactor(item.price, item.quantity as real, cents as real);
    assert LineOf(item) * 100.0 == (cents * item.quantity) as real;
  }

  lemma WholeCentsAdd(a: real, b: real)
    requires WholeCents(a) && WholeCents(b)
    ensures WholeCents(a + b)
  {
    var x, y := (a * 100.0).Floor, (b * 100.0).Floor;
    assert (a + b) * 100.0 == (x + y) as real;
  }

  lemma {:induction false} WholeCentsSum(items: seq<OrderItem>)
    requires forall i | 0 <= i < |items| :: WholeCents(items[i].price)
    ensures WholeCents(SumOf(items))
  {
    if items != [] {
      WholeCentsSum(items[1..]);
      LineInCents(items[0]);
      WholeCentsAdd(LineOf(items[0]), SumOf(items[1..]));
    }
  }

  /** With prices in whole cents an order is charged exactly 100 times its total. */
  lemma ExactChargeForCents(t: Table, items: seq<Item>, rows: seq<Product>)
    requires FoundBy(t, items, rows) && |rows| == |items|
    requires forall p | p in rows :: WholeCents(p.price)
    ensures Charged(TotalOf(rows, items)) as real == TotalOf(rows, items) * 100.0
  {
    TotalIsSumOfItems(t, items, rows);
    forall i | 0 <= i < |items|
      ensures WholeCents(ItemsOf(rows, items)[i].price)
    {
      CheckedItemsAreFound(t, items, rows, i);
      FindInRows(rows, items[i].productId);
    }
    WholeCentsSum(ItemsOf(rows, items));
    ChargeIsClose(TotalOf(rows, items));
  }

  /* ---- The order's seller ---- */

  ghost predicate OneSeller(rows: seq<Product>) {
    forall i, j | 0 <= i < |rows| && 0 <= j < |rows| :: rows[i].sellerId == rows[j].sellerId
  }

  /**
   The order's seller is the same whatever order the rows come in if and only if all products
   of the order share a seller; in any case it is the seller of one of them.
   */
  lemma SellerStableIff(t: Table, items: seq<Item>, rows: seq<Product>, id: Id, buyerId: Id)
    requires FoundBy(t, items, rows) && rows != []
    ensures (forall other: seq<Product> | FoundBy(t, items, other) && other != [] ::
               OrderOf(id, buyerId, other, items).sellerId == OrderOf(id, buyerId, rows, items).sellerId)
       <==> OneSeller(rows)
    ensures exists i | 0 <= i < |items| ::
              && Find(t, items[i].productId).Some?
              && Find(t, items[i].productId).value.sellerId == OrderOf(id, buyerId, rows, items).sellerId
  {
    if OneSeller(rows) {
      forall other: seq<Product> | FoundBy(t, items, other) && other != [] ensures other[0].sellerId == rows[0].sellerId {
        assert Asks(items, other[0].id) && Find(t, other[0].id) == Some(other[0]);
        FindInRows(rows, other[0].id);
        var i :| 0 <= i < |rows| && rows[i].id == other[0].id;
        assert Find(t, rows[i].id) == Some(rows[i]);
      }
    } else {
      var k := DifferentSeller(rows);
      var other := rows[0 := rows[k]][k := rows[0]];
      SwappedIsFound(t, items, rows, k);
      assert OrderOf(id, buyerId, other, items).sellerId != OrderOf(id, buyerId, rows, items).sellerId;
    }
    assert Asks(items, rows[0].id) && Find(t, rows[0].id) == Some(rows[0]);
    var i :| 0 <= i < |items| && items[i].productId == rows[0].id;
  }

  lemma DifferentSeller(rows: seq<Product>) returns (k: nat)
    requires rows != [] && !OneSeller(rows)
    ensures 0 < k < |rows| && rows[k].sellerId != rows[0].sellerId
  {
    var i, j :| 0 <= i < |rows| && 0 <= j < |rows| && rows[i].sellerId != rows[j].sellerId;
    k := if rows[i].sellerId != rows[0].sellerId then i else j;
  }

  lemma SwappedIsFound(t: Table, items: seq<Item>, rows: seq<Product>, k: nat)
    requires FoundBy(t, items, rows) && 0 < k < |rows|
    ensures FoundBy(t, items, rows[0 := rows[k]][k := rows[0]])
  {
    var other := rows[0 := rows[k]][k := rows[0]];
    forall id | Asks(items, id) && Find(t, id).Some? ensures Find(other, id).Some? {
      FindInRows(rows, id);
      FindInRows(other, id);
      var i :| 0 <= i < |rows| && rows[i].id == id;
      assert other[if i == 0 then k else if i == k then 0 else i].id == id;
    }
  }

  /* ---- The stock decrements ---- */

  lemma {:induction false} DecrementAppend(t: Table, items: seq<Item>, item: Item, now: Time)
    ensures Decrement(t, items + [item], now)
         == var t' := Decrement(t, items, now);
            var found := Find(t', item.productId);
            if found.Some? then Rewrite(t', Decremented(found.value, item.quantity, now)) else t'
    decreases |items|
  {
    if items == [] {
      assert items + [item] == [item];
      assert [item][1..] == [];
    } else {
      var found := Find(t, items[0].productId);
      var t' := if found.Some? then Rewrite(t, Decremented(found.value, items[0].quantity, now)) else t;
      DecrementAppend(t', items[1..], item, now);
      assert (items + [item])[1..] == items[1..] + [item];
    }
  }
}
