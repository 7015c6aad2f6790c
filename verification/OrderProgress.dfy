/** What a createOrder call comes to when nothing fails, whatever other calls are under way. */
module OrderProgress {
  import opened Results
  import opened Catalog
  import opened ProductTable
  import opened OrderPlacement
  import opened OrderRuns

  /** The check lets a call through exactly if its items are distinct and exist in the version it read. */
  lemma CheckDecides(s: State, r: RunId, version: nat, rows: seq<Product>)
    requires s.log != [] && Enabled(s, ReadRows(r, version, rows))
    ensures r in Next(s, ReadRows(r, version, rows)).runs
    ensures Next(s, ReadRows(r, version, rows)).runs[r].phase
         == if DistinctItems(s.runs[r].items) && AllExist(s.log[version], s.runs[r].items) then Validated else Rejected
  {
    LengthCheckIff(s.log[version], s.runs[r].items, rows);
  }

  ghost predicate Leads(from: State, es: seq<Event>, s: State) {
    from.log != [] && CanRun(from, es) && Run(from, es) == s && s.log != []
  }

  lemma {:induction false} RunAppend(s: State, es: seq<Event>, e: Event)
    requires s.log != [] && CanRun(s, es) && Run(s, es).log != [] && Enabled(Run(s, es), e)
    ensures CanRun(s, es + [e]) && Run(s, es + [e]) == Next(Run(s, es), e)
    decreases |es|
  {
    if es == [] {
      assert CanRun(Next(s, e), (es + [e])[1..]);
      assert Run(Next(s, e), (es + [e])[1..]) == Next(s, e);
    } else {
      RunAppend(Next(s, es[0]), es[1..], e);
      assert (es + [e])[1..] == es[1..] + [e];
    }
  }

  lemma Extend(from: State, es: seq<Event>, s: State, e: Event) returns (es': seq<Event>, s': State)
    requires Leads(from, es, s) && Enabled(s, e)
    ensures es' == es + [e] && s' == Next(s, e) && Leads(from, es', s')
  {
    es', s' := es + [e], Next(s, e);
    RunAppend(from, es, e);
  }

  /** The insert and all decrements, buffered: nothing but the call's own phase moves. */
  lemma {:induction false} Buffered(from: State, r: RunId, orderId: Id, done: nat) returns (es: seq<Event>, s: State)
    requires from.log != [] && r in from.runs && from.runs[r].phase == Validated && from.runs[r].rows != []
    requires forall other :: !HasOrder(from, other, orderId)
    requires done <= |from.runs[r].items|
    ensures Leads(from, es, s)
    ensures s == from.(runs := from.runs[r :=
                   from.runs[r].(phase := Inserted(OrderOf(orderId, from.runs[r].buyerId, from.runs[r].rows, from.runs[r].items), done))])
  {
    if done == 0 {
      es, s := Extend(from, [], from, Insert(r, orderId));
    } else {
      es, s := Buffered(from, r, orderId, done - 1);
      es, s := Extend(from, es, s, DecrementOne(r));
    }
  }

  /** The payment and the event, before the commit. */
  lemma ToldOutside(from: State, r: RunId, orderId: Id) returns (es: seq<Event>, s: State)
    requires from.log != [] && r in from.runs && from.runs[r].phase == Validated && from.runs[r].rows != []
    requires forall other :: !HasOrder(from, other, orderId)
    ensures Leads(from, es, s)
    ensures var order := OrderOf(orderId, from.runs[r].buyerId, from.runs[r].rows, from.runs[r].items);
            s == from.(intents := from.intents + [Intent(orderId, Charged(order.totalAmount))],
                       announced := from.announced + [orderId],
                       runs := from.runs[r := from.runs[r].(phase := Announced(order), job := JobPending)])
  {
    es, s := Buffered(from, r, orderId, |from.runs[r].items|);
    es, s := Extend(from, es, s, Pay(r));
    es, s := Extend(from, es, s, Announce(r));
  }

  /**
   A call that has passed the check can be completed from any state: the order, its decrements,
   its payment intent, its event and its job then all are there, once, and nothing else is.
   */
  lemma CheckedCallCompletes(from: State, r: RunId, orderId: Id) returns (es: seq<Event>, s: State)
    requires from.log != [] && r in from.runs && from.runs[r].phase == Validated && from.runs[r].rows != []
    requires forall other :: !HasOrder(from, other, orderId)
    ensures Leads(from, es, s)
    ensures var run := from.runs[r];
            var order := OrderOf(orderId, run.buyerId, run.rows, run.items);
            && s.orders == from.orders + [order]
            && s.log == from.log + [Decrement(from.log[|from.log| - 1], run.items, from.now)]
            && s.intents == from.intents + [Intent(orderId, Charged(order.totalAmount))]
            && s.announced == from.announced + [orderId]
            && s.jobs == from.jobs + [orderId]
            && s.now == from.now
  {
    es, s := ToldOutside(from, r, orderId);
    es, s := Extend(from, es, s, Commit(r));
    es, s := Extend(from, es, s, Enqueue(r));
  }
}
