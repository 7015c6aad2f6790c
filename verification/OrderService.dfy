/** OrderService as an object: createOrder with its transaction, and getMyOrders. */
module OrderService {
  import opened Results
  import opened Clock
  import opened Catalog
  import opened ProductTable
  import opened OrderPlacement
  import opened Pagination

  datatype OrderError = SomeProductsNotFound | TransactionFailed

  /** How far the transaction's awaits get. */
  datatype Fate =
    | Succeeds
    | FailsAtInsert
    | FailsAtDecrement(index: nat)
    | FailsAtPayment(charged: bool)     // the intent may exist although the call failed
    | FailsAtCommit

  predicate Completes(fate: Fate, items: seq<Item>) {
    fate.Succeeds? || (fate.FailsAtDecrement? && fate.index >= |items|)
  }

  /** The payment call reaches Stripe, if every decrement finds its row on the primary. */
  predicate Charges(fate: Fate, primary: Table, items: seq<Item>) {
    AllExist(primary, items) && (Completes(fate, items) || fate == FailsAtPayment(true) || fate.FailsAtCommit?)
  }

  predicate Announces(fate: Fate, primary: Table, items: seq<Item>) {
    AllExist(primary, items) && (Completes(fate, items) || fate.FailsAtCommit?)
  }

  /** Newest first, the orders a user bought or sold, of one status if one is asked for. */
  function MyOrders(orders: seq<Order>, userId: Id, status: Option<OrderStatus>): seq<Order> {
    if orders == [] then [] else
    var last := orders[|orders| - 1];
    (if Concerns(last, userId, status) then [last] else []) + MyOrders(orders[..|orders| - 1], userId, status)
  }

  predicate Concerns(o: Order, userId: Id, status: Option<OrderStatus>) {
    (o.buyerId == userId || o.sellerId == userId) && (status.Some? ==> o.status == status.value)
  }

  lemma {:induction false} MyOrdersCount(orders: seq<Order>, userId: Id, status: Option<OrderStatus>, o: Order)
    ensures multiset(MyOrders(orders, userId, status))[o]
         == if Concerns(o, userId, status) then multiset(orders)[o] else 0
  {
    if orders != [] {
      var front := orders[..|orders| - 1];
      MyOrdersCount(front, userId, status, o);
      assert orders == front + [orders[|orders| - 1]];
    }
  }

  lemma NewestFirst(orders: seq<Order>, o: Order, userId: Id, status: Option<OrderStatus>)
    ensures MyOrders(orders + [o], userId, status)
         == (if Concerns(o, userId, status) then [o] else []) + MyOrders(orders, userId, status)
  {
    assert (orders + [o])[..|orders + [o]| - 1] == orders;
  }

  lemma JoinAssociates<T>(a: seq<T>, b: seq<T>, c: seq<T>)
    ensures a + (b + c) == (a + b) + c
  {
  }

  lemma OneNewer(earlier: seq<Order>, later: seq<Order>, o: Order, userId: Id, status: Option<OrderStatus>)
    requires MyOrders(earlier + later, userId, status)
          == MyOrders(later, userId, status) + MyOrders(earlier, userId, status)
    ensures MyOrders(earlier + (later + [o]), userId, status)
         == MyOrders(later + [o], userId, status) + MyOrders(earlier, userId, status)
  {
    JoinAssociates(earlier, later, [o]);
    NewestFirst(earlier + later, o, userId, status);
    NewestFirst(later, o, userId, status);
    JoinAssociates(if Concerns(o, userId, status) then [o] else [],
                   MyOrders(later, userId, status), MyOrders(earlier, userId, status));
  }

  /** Newest first: what later orders contribute comes before what earlier ones do. */
  lemma {:induction false} NewerOrdersFirst(earlier: seq<Order>, later: seq<Order>, userId: Id, status: Option<OrderStatus>)
    ensures MyOrders(earlier + later, userId, status)
         == MyOrders(later, userId, status) + MyOrders(earlier, userId, status)
    decreases |later|
  {
    if later == [] {
      assert earlier + later == earlier;
    } else {
      var front, last := later[..|later| - 1], later[|later| - 1];
      NewerOrdersFirst(earlier, front, userId, status);
      OneNewer(earlier, front, last, userId, status);
      assert front + [last] == later;
    }
  }

  class OrderService {
    var products: Table
    var orders: seq<Order>
    var intents: seq<Intent>       // at Stripe
    var announced: seq<Id>         // ORDER_CREATED emissions

    constructor (products: Table)
      ensures this.products == products && orders == [] && intents == [] && announced == []
    {
      this.products := products;
      orders, intents, announced := [], [], [];
    }

    /**
     `rows` is what findMany returned, in its order, from the snapshot `read`; `orderId` is
     the new row's uuid. Order and stock appear together or not at all; the payment intent
     and the event are outside the transaction and stay when it fails after them.
     */
    method CreateOrder(buyerId: Id, items: seq<Item>, ghost read: Table, rows: seq<Product>, orderId: Id, now: Time, fate: Fate)
      returns (outcome: Result<Order, OrderError>)
      requires FoundBy(read, items, rows)
      modifies this
      ensures outcome == Err(SomeProductsNotFound) <==> !(DistinctItems(items) && AllExist(read, items))
      ensures outcome.Ok? <==>
                && DistinctItems(items) && AllExist(read, items) && items != []
                && AllExist(old(products), items) && Completes(fate, items)
      ensures outcome.Ok? ==>
                && rows != []
                && SpelledOut(outcome.value, read, items, rows[0], orderId, buyerId)
                && outcome.value == OrderOf(orderId, buyerId, rows, items)
                && orders == old(orders) + [outcome.value]
                && products == Decrement(old(products), items, now)
      ensures outcome.Err? ==> orders == old(orders) && products == old(products)
      ensures intents ==
              if outcome != Err(SomeProductsNotFound) && items != [] && Charges(fate, old(products), items)
              then old(intents) + [Intent(orderId, Charged(TotalOf(rows, items)))]
              else old(intents)
      ensures announced ==
              if outcome != Err(SomeProductsNotFound) && items != [] && Announces(fate, old(products), items)
              then old(announced) + [orderId]
              else old(announced)
    {
      LengthCheckIff(read, items, rows);
      if |rows| != |items| {
        return Err(SomeProductsNotFound);
      }
      var totalAmount := Reduce(rows, items, 0.0);
      if rows == [] {
        return Err(TransactionFailed);       // products[0] is undefined
      }
      var order := Order(orderId, buyerId, rows[0].sellerId, totalAmount, Pending, ItemsOf(rows, items));
      if fate.FailsAtInsert? {
        return Err(TransactionFailed);
      }
      var table := TakeStock(items, now, fate);
      if table.None? {
        return Err(TransactionFailed);
      }
      OrderSpelledOut(read, items, rows, orderId, buyerId);
      if fate.FailsAtPayment? {
        if fate.charged {
          intents := intents + [Intent(orderId, Charged(totalAmount))];
        }
        return Err(TransactionFailed);
      }
      intents := intents + [Intent(orderId, Charged(totalAmount))];
      announced := announced + [orderId];
      if fate.FailsAtCommit? {
        return Err(TransactionFailed);
      }
      orders := orders + [order];
      products := table.value;
      outcome := Ok(order);
    }

    /** The updates of the transaction, on its own view of the table; None when one of them fails. */
    method TakeStock(items: seq<Item>, now: Time, fate: Fate) returns (table: Option<Table>)
      ensures table.Some? <==> AllExist(products, items) && !(fate.FailsAtDecrement? && fate.index < |items|)
      ensures table.Some? ==> table.value == Decrement(products, items, now)
    {
      var view := products;
      for i := 0 to |items|
        invariant view == Decrement(products, items[..i], now)
        invariant AllExist(products, items[..i])
        invariant fate.FailsAtDecrement? ==> i <= fate.index
      {
        if fate == FailsAtDecrement(i) {
          return None;
        }
        DecrementTakesQuantity(products, items[..i], now, items[i].productId);
        var found := Find(view, items[i].productId);
        if found.None? {
          return None;                         // update of a row that is not there
        }
        DecrementAppend(products, items[..i], items[i], now);
        assert items[..i] + [items[i]] == items[..i + 1];
        view := Rewrite(view, Decremented(found.value, items[i].quantity, now));
      }
      assert items[..|items|] == items;
      table := Some(view);
    }

    method GetMyOrders(userId: Id, status: Option<OrderStatus>, page: nat, limit: nat)
      returns (shown: seq<Order>, total: nat, totalPages: nat)
      requires page >= 1 && limit >= 1
      ensures shown == PageOf(MyOrders(orders, userId, status), page, limit)
      ensures total == |MyOrders(orders, userId, status)| && totalPages == TotalPages(total, limit)
    {
      var matching := MyOrders(orders, userId, status);
      var skip := (page - 1) * limit;
      SkipNonNegative(page, limit);
      shown := Window(matching, skip, limit);
      total := |matching|;
      totalPages := TotalPages(total, limit);
    }
  }

  /**
   Over a fixed table, a user's pages 1 to totalPages show every order the user bought or
   sold exactly once per row, also when buyer and seller are the same user, and no other.
   */
  lemma MyPagesShowEachOrderOnce(orders: seq<Order>, userId: Id, status: Option<OrderStatus>, limit: nat, o: Order)
    requires limit >= 1
    ensures var mine := MyOrders(orders, userId, status);
            multiset(PagesUpTo(mine, TotalPages(|mine|, limit), limit))[o]
              == if (o.buyerId == userId || o.sellerId == userId) && (status == None || status == Some(o.status))
                 then multiset(orders)[o]
                 else 0
  {
    PagesPartition(MyOrders(orders, userId, status), limit);
    MyOrdersCount(orders, userId, status, o);
  }
}
