/**
 Any number of createOrder calls, interleaved with product writes, each failing wherever it
 may. Postgres commits a call's order and decrements in one step; Stripe and the event bus
 see theirs before. `log` holds the product table's committed versions; `findMany` may read
 any of them, so a lagging replica is covered.

 `authors`, a run's `rows` and `version`, and `marks` are history.
 */
module OrderRuns {
  import opened Results
  import opened Clock
  import opened Catalog
  import opened ProductTable
  import opened OrderPlacement

  type RunId = nat

  datatype Phase =
    | Placed
    | Rejected                                                   // NotFound
    | Validated
    | Inserted(order: Order, decremented: nat)                   // buffered in the transaction
    | PaymentMade(order: Order)
    | Announced(order: Order)
    | Committed(order: Order)
    | Aborted(order: Order, charged: bool, announced: bool)
    | Crashed                                                    // products[0] of an empty list

  datatype JobState = NoJob | JobPending | JobQueued | JobLost

  datatype OrderRun = OrderRun(
    buyerId: Id,
    items: seq<Item>,
    phase: Phase,
    job: JobState,
    version: nat,
    rows: seq<Product>)

  /** The stock last set explicitly, and how many orders had been committed by then. */
  datatype Mark = Mark(stock: int, orders: nat)

  datatype State = State(
    now: Time,
    log: seq<Table>,
    orders: seq<Order>,
    authors: seq<RunId>,
    intents: seq<Intent>,
    announced: seq<Id>,
    jobs: seq<Id>,
    runs: map<RunId, OrderRun>,
    marks: map<Id, Mark>)

  const Start := State(0, [[]], [], [], [], [], [], map[], map[])

  datatype Event =
    | Tick(elapsed: Time)
    | CreateProduct(id: Id, sellerId: Id, data: CreateData)
    | EditProduct(id: Id, edit: UpdateData)
    | DeleteProduct(id: Id)
    | Place(r: RunId, buyerId: Id, items: seq<Item>)
    | ReadRows(r: RunId, version: nat, rows: seq<Product>)
    | Insert(r: RunId, orderId: Id)
    | DecrementOne(r: RunId)
    | Pay(r: RunId)
    | PayFails(r: RunId, charged: bool)
    | Announce(r: RunId)
    | Commit(r: RunId)
    | Abort(r: RunId)
    | Enqueue(r: RunId)
    | LoseJob(r: RunId)

  function OrderIn(phase: Phase): Option<Order> {
    match phase
    case Inserted(order, _) => Some(order)
    case PaymentMade(order) => Some(order)
    case Announced(order) => Some(order)
    case Committed(order) => Some(order)
    case Aborted(order, _, _) => Some(order)
    case _ => None
  }

  predicate HasOrder(s: State, r: RunId, id: Id) {
    r in s.runs && OrderIn(s.runs[r].phase).Some? && OrderIn(s.runs[r].phase).value.id == id
  }

  predicate IsCharged(phase: Phase) {
    phase.PaymentMade? || phase.Announced? || phase.Committed? || (phase.Aborted? && phase.charged)
  }

  predicate IsAnnounced(phase: Phase) {
    phase.Announced? || phase.Committed? || (phase.Aborted? && phase.announced)
  }

  predicate InTransaction(phase: Phase) {
    phase.Inserted? || phase.PaymentMade? || phase.Announced?
  }

  function Primary(s: State): Table
    requires s.log != []
  {
    s.log[|s.log| - 1]
  }

  ghost predicate Enabled(s: State, e: Event)
    requires s.log != []
  {
    match e
    case Tick(_) => true
    case CreateProduct(id, _, _) => Find(Primary(s), id).None?
    case EditProduct(id, _) => Find(Primary(s), id).Some?
    case DeleteProduct(id) => Find(Primary(s), id).Some?
    case Place(r, _, _) => r !in s.runs
    case ReadRows(r, version, rows) =>
      r in s.runs && s.runs[r].phase.Placed? && version < |s.log| && FoundBy(s.log[version], s.runs[r].items, rows)
    case Insert(r, orderId) => r in s.runs && s.runs[r].phase.Validated? && forall other :: !HasOrder(s, other, orderId)
    case DecrementOne(r) =>
      r in s.runs && s.runs[r].phase.Inserted? && s.runs[r].phase.decremented < |s.runs[r].items|
    case Pay(r) => r in s.runs && s.runs[r].phase.Inserted? && s.runs[r].phase.decremented == |s.runs[r].items|
    case PayFails(r, _) => r in s.runs && s.runs[r].phase.Inserted? && s.runs[r].phase.decremented == |s.runs[r].items|
    case Announce(r) => r in s.runs && s.runs[r].phase.PaymentMade?
    case Commit(r) => r in s.runs && s.runs[r].phase.Announced?
    case Abort(r) => r in s.runs && InTransaction(s.runs[r].phase)
    case Enqueue(r) => r in s.runs && s.runs[r].job.JobPending? && OrderIn(s.runs[r].phase).Some?
    case LoseJob(r) => r in s.runs && s.runs[r].job.JobPending?
  }

  predicate OfRun(e: Event) {
    !e.Tick? && !e.CreateProduct? && !e.EditProduct? && !e.DeleteProduct?
  }

  ghost function NextRun(s: State, e: Event): OrderRun
    requires s.log != [] && Enabled(s, e) && OfRun(e)
  {
    if e.Place? then OrderRun(e.buyerId, e.items, Placed, NoJob, 0, []) else
    var run := s.runs[e.r];
    match e
    case ReadRows(_, version, rows) =>
      if |rows| != |run.items| then run.(phase := Rejected)
      else run.(phase := Validated, version := version, rows := rows)
    case Insert(_, orderId) =>
      if run.rows == [] then run.(phase := Crashed)
      else run.(phase := Inserted(OrderOf(orderId, run.buyerId, run.rows, run.items), 0))
    case DecrementOne(_) => run.(phase := run.phase.(decremented := run.phase.decremented + 1))
    case Pay(_) => run.(phase := PaymentMade(run.phase.order))
    case PayFails(_, charged) => run.(phase := Aborted(run.phase.order, charged, false))
    case Announce(_) => run.(phase := Announced(run.phase.order), job := JobPending)
    case Commit(_) => run.(phase := Committed(run.phase.order))
    case Abort(_) => run.(phase := Aborted(run.phase.order, IsCharged(run.phase), IsAnnounced(run.phase)))
    case Enqueue(_) => run.(job := JobQueued)
    case LoseJob(_) => run.(job := JobLost)
  }

  ghost function NextLog(s: State, e: Event): seq<Table>
    requires s.log != [] && Enabled(s, e)
  {
    match e
    case CreateProduct(id, sellerId, data) => s.log + [Primary(s) + [Created(id, sellerId, data, s.now)]]
    case EditProduct(id, data) => s.log + [Rewrite(Primary(s), Updated(Find(Primary(s), id).value, data, s.now))]
    case DeleteProduct(id) => s.log + [Rewrite(Primary(s), Deactivated(Find(Primary(s), id).value, s.now))]
    case Commit(r) => s.log + [Decrement(Primary(s), s.runs[r].items, s.now)]
    case _ => s.log
  }

  ghost function NextMarks(s: State, e: Event): map<Id, Mark>
    requires s.log != [] && Enabled(s, e)
  {
    match e
    case CreateProduct(id, _, data) => s.marks[id := Mark(data.stock, |s.orders|)]
    case EditProduct(id, data) => if data.stock.Some? then s.marks[id := Mark(data.stock.value, |s.orders|)] else s.marks
    case _ => s.marks
  }

  ghost function Next(s: State, e: Event): State
    requires s.log != [] && Enabled(s, e)
  {
    State(
      if e.Tick? then s.now + e.elapsed else s.now,
      NextLog(s, e),
      if e.Commit? then s.orders + [s.runs[e.r].phase.order] else s.orders,
      if e.Commit? then s.authors + [e.r] else s.authors,
      if e.Pay? || (e.PayFails? && e.charged)
        then s.intents + [Intent(s.runs[e.r].phase.order.id, Charged(s.runs[e.r].phase.order.totalAmount))]
        else s.intents,
      if e.Announce? then s.announced + [s.runs[e.r].phase.order.id] else s.announced,
      if e.Enqueue? then s.jobs + [OrderIn(s.runs[e.r].phase).value.id] else s.jobs,
      if OfRun(e) then s.runs[e.r := NextRun(s, e)] else s.runs,
      NextMarks(s, e))
  }

  /* ---- Each run's order is the one its snapshot and items call for ---- */

  ghost predicate RunOk(s: State, run: OrderRun) {
    && (run.phase.Validated? || OrderIn(run.phase).Some? ==>
          && run.version < |s.log|
          && FoundBy(s.log[run.version], run.items, run.rows)
          && |run.rows| == |run.items|)
    && (OrderIn(run.phase).Some? ==>
          && run.rows != []
          && OrderIn(run.phase).value == OrderOf(OrderIn(run.phase).value.id, run.buyerId, run.rows, run.items))
    && (run.phase.Inserted? ==> run.phase.decremented <= |run.items|)
    && (!run.job.NoJob? <==> IsAnnounced(run.phase))
    && (run.phase.Aborted? && run.phase.announced ==> run.phase.charged)
  }

  ghost predicate RunsInv(s: State) {
    s.log != [] && forall r | r in s.runs :: RunOk(s, s.runs[r])
  }

  lemma LogGrows(s: State, e: Event)
    requires s.log != [] && Enabled(s, e)
    ensures s.log <= Next(s, e).log
  {
  }

  lemma RunStays(s: State, e: Event, run: OrderRun)
    requires s.log != [] && Enabled(s, e) && RunOk(s, run)
    ensures RunOk(Next(s, e), run)
  {
    LogGrows(s, e);
  }

  /** Up to the insert: the checked rows make the order. */
  lemma RunStarts(s: State, e: Event)
    requires s.log != [] && Enabled(s, e) && (e.ReadRows? || e.Insert?) && RunOk(s, s.runs[e.r])
    ensures RunOk(s, NextRun(s, e))
  {
  }

  /** From the insert on: the order stays what it is. */
  lemma RunGoesOn(s: State, e: Event)
    requires s.log != [] && Enabled(s, e) && OfRun(e) && !e.Place? && !e.ReadRows? && !e.Insert?
    requires RunOk(s, s.runs[e.r])
    ensures RunOk(s, NextRun(s, e))
  {
  }

  lemma RunMoves(s: State, e: Event)
    requires RunsInv(s) && Enabled(s, e) && OfRun(e)
    ensures RunOk(s, NextRun(s, e))
  {
    if !e.Place? {
      assert RunOk(s, s.runs[e.r]);
      if e.ReadRows? || e.Insert? {
        RunStarts(s, e);
      } else {
        RunGoesOn(s, e);
      }
    }
  }

  lemma RunsKept(s: State, e: Event)
    requires RunsInv(s) && Enabled(s, e)
    ensures RunsInv(Next(s, e))
  {
    LogGrows(s, e);
    var s' := Next(s, e);
    forall r | r in s'.runs ensures RunOk(s', s'.runs[r]) {
      if OfRun(e) && r == e.r {
        RunMoves(s, e);
      } else {
        assert RunOk(s, s.runs[r]);
      }
      RunStays(s, e, s'.runs[r]);
    }
  }

  /* ---- No row ever goes ---- */

  lemma LogKept(s: State, e: Event)
    requires LogOk(s.log) && Enabled(s, e)
    ensures LogOk(Next(s, e).log)
  {
    var t := Primary(s);
    match e
    case CreateProduct(id, sellerId, data) =>
      AppendIsSound(t, Created(id, sellerId, data, s.now));
      LogOkAppend(s.log, t + [Created(id, sellerId, data, s.now)]);
    case EditProduct(id, data) => RowWritten(s.log, id, Updated(Find(t, id).value, data, s.now));
    case DeleteProduct(id) => RowWritten(s.log, id, Deactivated(Find(t, id).value, s.now));
    case Commit(r) =>
      DecrementIsSound(t, s.runs[r].items, s.now);
      LogOkAppend(s.log, Decrement(t, s.runs[r].items, s.now));
    case _ =>
  }

  lemma RowWritten(log: seq<Table>, id: Id, p: Product)
    requires LogOk(log) && Find(log[|log| - 1], id).Some? && MayBecome(Find(log[|log| - 1], id).value, p)
    requires p.price > 0.0 || p.price == Find(log[|log| - 1], id).value.price
    ensures LogOk(log + [Rewrite(log[|log| - 1], p)])
  {
    FindIsRow(log[|log| - 1], id);
    RewriteIsSound(log[|log| - 1], id, p);
    LogOkAppend(log, Rewrite(log[|log| - 1], p));
  }

  /* ---- Orders, intents, events and jobs match ---- */

  function IntentIds(intents: seq<Intent>): seq<Id> {
    seq(|intents|, i requires 0 <= i < |intents| => intents[i].orderId)
  }

  function OrderIds(orders: seq<Order>): seq<Id> {
    seq(|orders|, i requires 0 <= i < |orders| => orders[i].id)
  }

  function One(b: bool): nat {
    if b then 1 else 0
  }

  function Times(ids: seq<Id>, id: Id): nat {
    multiset(ids)[id]
  }

  /** How often an order id shows up anywhere is told by the phase of the run that has it. */
  predicate Matched(s: State, r: RunId)
    requires r in s.runs && OrderIn(s.runs[r].phase).Some?
  {
    var phase, job := s.runs[r].phase, s.runs[r].job;
    var id := OrderIn(phase).value.id;
    && Times(IntentIds(s.intents), id) == One(IsCharged(phase))
    && Times(s.announced, id) == One(IsAnnounced(phase))
    && Times(OrderIds(s.orders), id) == One(phase.Committed?)
    && Times(s.jobs, id) == One(job.JobQueued?)
    && (IsCharged(phase) ==> Intent(id, Charged(OrderIn(phase).value.totalAmount)) in s.intents)
  }

  predicate Unseen(s: State, id: Id) {
    && Times(IntentIds(s.intents), id) == 0
    && Times(s.announced, id) == 0
    && Times(OrderIds(s.orders), id) == 0
    && Times(s.jobs, id) == 0
  }

  ghost predicate MatchInv(s: State) {
    && (forall r | r in s.runs && OrderIn(s.runs[r].phase).Some? :: Matched(s, r))
    && (forall p, q, id | HasOrder(s, p, id) && HasOrder(s, q, id) :: p == q)
    && (forall id | (forall r :: !HasOrder(s, r, id)) :: Unseen(s, id))
  }

  ghost predicate AuthorsInv(s: State) {
    && |s.authors| == |s.orders|
    && (forall k | 0 <= k < |s.orders| ::
          s.authors[k] in s.runs && s.runs[s.authors[k]].phase == Committed(s.orders[k]))
  }

  lemma IntentIdsAppend(intents: seq<Intent>, i: Intent)
    ensures IntentIds(intents + [i]) == IntentIds(intents) + [i.orderId]
  {
  }

  lemma OrderIdsAppend(orders: seq<Order>, o: Order)
    ensures OrderIds(orders + [o]) == OrderIds(orders) + [o.id]
  {
  }

  lemma TimesAppend(ids: seq<Id>, x: Id, id: Id)
    ensures Times(ids + [x], id) == Times(ids, id) + One(x == id)
  {
  }

  predicate MakesIntent(e: Event) {
    e.Pay? || (e.PayFails? && e.charged)
  }

  /** The id of the order an event's run already has. */
  predicate Own(s: State, e: Event, id: Id) {
    OfRun(e) && HasOrder(s, e.r, id)
  }

  lemma IntentsMove(s: State, e: Event, id: Id)
    requires s.log != [] && Enabled(s, e)
    ensures Times(IntentIds(Next(s, e).intents), id)
         == Times(IntentIds(s.intents), id) + One(Own(s, e, id) && MakesIntent(e))
  {
    if MakesIntent(e) {
      var order := s.runs[e.r].phase.order;
      IntentIdsAppend(s.intents, Intent(order.id, Charged(order.totalAmount)));
      TimesAppend(IntentIds(s.intents), order.id, id);
    }
  }

  lemma AnnouncementsMove(s: State, e: Event, id: Id)
    requires s.log != [] && Enabled(s, e)
    ensures Times(Next(s, e).announced, id) == Times(s.announced, id) + One(Own(s, e, id) && e.Announce?)
  {
    if e.Announce? {
      TimesAppend(s.announced, s.runs[e.r].phase.order.id, id);
    }
  }

  lemma OrdersMove(s: State, e: Event, id: Id)
    requires s.log != [] && Enabled(s, e)
    ensures Times(OrderIds(Next(s, e).orders), id) == Times(OrderIds(s.orders), id) + One(Own(s, e, id) && e.Commit?)
  {
    if e.Commit? {
      var order := s.runs[e.r].phase.order;
      OrderIdsAppend(s.orders, order);
      TimesAppend(OrderIds(s.orders), order.id, id);
    }
  }

  lemma JobsMove(s: State, e: Event, id: Id)
    requires s.log != [] && Enabled(s, e)
    ensures Times(Next(s, e).jobs, id) == Times(s.jobs, id) + One(Own(s, e, id) && e.Enqueue?)
  {
    if e.Enqueue? {
      TimesAppend(s.jobs, OrderIn(s.runs[e.r].phase).value.id, id);
    }
  }

  /** An event changes the counts of its own run's order id only. */
  lemma CountsMove(s: State, e: Event, id: Id)
    requires s.log != [] && Enabled(s, e)
    ensures Times(IntentIds(Next(s, e).intents), id)
         == Times(IntentIds(s.intents), id) + One(Own(s, e, id) && MakesIntent(e))
    ensures Times(Next(s, e).announced, id) == Times(s.announced, id) + One(Own(s, e, id) && e.Announce?)
    ensures Times(OrderIds(Next(s, e).orders), id) == Times(OrderIds(s.orders), id) + One(Own(s, e, id) && e.Commit?)
    ensures Times(Next(s, e).jobs, id) == Times(s.jobs, id) + One(Own(s, e, id) && e.Enqueue?)
  {
    IntentsMove(s, e, id);
    AnnouncementsMove(s, e, id);
    OrdersMove(s, e, id);
    JobsMove(s, e, id);
  }

  /** The phase of a run with an order moves in step with the counts. */
  lemma PhaseMoves(s: State, e: Event)
    requires RunsInv(s) && Enabled(s, e) && OfRun(e) && !e.Place?
    requires OrderIn(s.runs[e.r].phase).Some?
    ensures var run, run' := s.runs[e.r], NextRun(s, e);
            && OrderIn(run'.phase) == OrderIn(run.phase)
            && One(IsCharged(run'.phase)) == One(IsCharged(run.phase)) + One(MakesIntent(e))
            && One(IsAnnounced(run'.phase)) == One(IsAnnounced(run.phase)) + One(e.Announce?)
            && One(run'.phase.Committed?) == One(run.phase.Committed?) + One(e.Commit?)
            && One(run'.job.JobQueued?) == One(run.job.JobQueued?) + One(e.Enqueue?)
  {
    assert RunOk(s, s.runs[e.r]);
  }

  lemma OwnersMove(s: State, e: Event, r: RunId, id: Id)
    requires s.log != [] && Enabled(s, e) && HasOrder(Next(s, e), r, id)
    ensures HasOrder(s, r, id) || (e == Insert(r, id) && forall other :: !HasOrder(s, other, id))
  {
  }

  lemma OwnersStay(s: State, e: Event, r: RunId, id: Id)
    requires s.log != [] && Enabled(s, e) && HasOrder(s, r, id)
    ensures HasOrder(Next(s, e), r, id)
    ensures OrderIn(Next(s, e).runs[r].phase) == OrderIn(s.runs[r].phase)
  {
  }

  /** Other runs' events leave the counts of a run's order id alone. */
  lemma OtherMatched(s: State, e: Event, r: RunId)
    requires RunsInv(s) && MatchInv(s) && Enabled(s, e)
    requires r in s.runs && OrderIn(s.runs[r].phase).Some?
    requires !(OfRun(e) && e.r == r)
    ensures r in Next(s, e).runs && Next(s, e).runs[r] == s.runs[r]
    ensures Matched(Next(s, e), r)
  {
    var id := OrderIn(s.runs[r].phase).value.id;
    assert HasOrder(s, r, id) && Matched(s, r);
    assert !Own(s, e, id);
    CountsMove(s, e, id);
  }

  lemma MatchedMoves(s: State, e: Event, r: RunId)
    requires RunsInv(s) && MatchInv(s) && Enabled(s, e)
    requires r in s.runs && OrderIn(s.runs[r].phase).Some?
    ensures r in Next(s, e).runs && OrderIn(Next(s, e).runs[r].phase) == OrderIn(s.runs[r].phase)
    ensures Matched(Next(s, e), r)
  {
    if OfRun(e) && e.r == r {
      assert Matched(s, r);
      OwnMatched(s, e);
    } else {
      OtherMatched(s, e, r);
    }
  }

  lemma OwnMatched(s: State, e: Event)
    requires RunsInv(s) && Enabled(s, e) && OfRun(e) && !e.Place?
    requires OrderIn(s.runs[e.r].phase).Some? && Matched(s, e.r)
    ensures OrderIn(NextRun(s, e).phase) == OrderIn(s.runs[e.r].phase)
    ensures Matched(Next(s, e), e.r)
  {
    CountsMove(s, e, OrderIn(s.runs[e.r].phase).value.id);
    PhaseMoves(s, e);
  }

  lemma MatchedStarts(s: State, e: Event, r: RunId)
    requires RunsInv(s) && MatchInv(s) && Enabled(s, e)
    requires r in Next(s, e).runs && OrderIn(Next(s, e).runs[r].phase).Some?
    requires !(r in s.runs && OrderIn(s.runs[r].phase).Some?)
    ensures Matched(Next(s, e), r)
  {
    assert e.Insert? && e.r == r && RunOk(s, s.runs[r]);
    CountsMove(s, e, e.orderId);
    assert Unseen(s, e.orderId);
  }

  lemma MatchKept(s: State, e: Event)
    requires RunsInv(s) && MatchInv(s) && Enabled(s, e)
    ensures MatchInv(Next(s, e))
  {
    var s' := Next(s, e);
    forall r | r in s'.runs && OrderIn(s'.runs[r].phase).Some? ensures Matched(s', r) {
      if r in s.runs && OrderIn(s.runs[r].phase).Some? {
        MatchedMoves(s, e, r);
      } else {
        MatchedStarts(s, e, r);
      }
    }
    forall p, q, id | HasOrder(s', p, id) && HasOrder(s', q, id) ensures p == q {
      OwnersMove(s, e, p, id);
      OwnersMove(s, e, q, id);
    }
    forall id | (forall r :: !HasOrder(s', r, id)) ensures Unseen(s', id) {
      forall r ensures !HasOrder(s, r, id) {
        if HasOrder(s, r, id) {
          OwnersStay(s, e, r, id);
        }
      }
      CountsMove(s, e, id);
      assert Unseen(s, id);
    }
  }

  lemma AuthorsKept(s: State, e: Event)
    requires s.log != [] && AuthorsInv(s) && Enabled(s, e)
    ensures AuthorsInv(Next(s, e))
  {
    var s' := Next(s, e);
    forall k | 0 <= k < |s'.orders|
      ensures s'.authors[k] in s'.runs && s'.runs[s'.authors[k]].phase == Committed(s'.orders[k])
    {
      if k < |s.orders| {
        assert s.runs[s.authors[k]].phase == Committed(s.orders[k]);
      }
    }
  }

  /* ---- The stock ledger ---- */

  /** What a list of orders takes from a product. */
  function OrderedOf(orders: seq<Order>, id: Id): int {
    if orders == [] then 0
    else OrderedOf(orders[..|orders| - 1], id) + QuantityOf(RequestedOf(orders[|orders| - 1].items), id)
  }

  predicate LedgerOk(s: State, id: Id)
    requires s.log != []
  {
    Find(Primary(s), id).Some? ==>
      && id in s.marks && s.marks[id].orders <= |s.orders|
      && Find(Primary(s), id).value.stock == s.marks[id].stock - OrderedOf(s.orders[s.marks[id].orders..], id)
  }

  ghost predicate LedgerInv(s: State)
    requires s.log != []
  {
    forall id :: LedgerOk(s, id)
  }

  lemma CommitLedger(s: State, r: RunId, id: Id)
    requires RunsInv(s) && LedgerOk(s, id) && Enabled(s, Commit(r))
    ensures LedgerOk(Next(s, Commit(r)), id)
  {
    var run := s.runs[r];
    assert RunOk(s, run);
    TotalIsSumOfItems(s.log[run.version], run.items, run.rows);
    DecrementTakesQuantity(Primary(s), run.items, s.now, id);
    if id in s.marks && s.marks[id].orders <= |s.orders| {
      var since := s.orders[s.marks[id].orders..];
      var since' := (s.orders + [run.phase.order])[s.marks[id].orders..];
      assert since' == since + [run.phase.order];
      assert since'[..|since'| - 1] == since;
    }
  }

  lemma LedgerKept(s: State, e: Event, id: Id)
    requires RunsInv(s) && LedgerOk(s, id) && Enabled(s, e)
    ensures Next(s, e).log != [] && LedgerOk(Next(s, e), id)
  {
    match e
    case CreateProduct(other, sellerId, data) =>
      FindAppended(Primary(s), Created(other, sellerId, data, s.now), id);
      assert s.orders[|s.orders|..] == [];
    case EditProduct(other, data) =>
      FindHasId(Primary(s), other);
      FindRewritten(Primary(s), Updated(Find(Primary(s), other).value, data, s.now), id);
      assert s.orders[|s.orders|..] == [];
    case DeleteProduct(other) =>
      FindHasId(Primary(s), other);
      FindRewritten(Primary(s), Deactivated(Find(Primary(s), other).value, s.now), id);
    case Commit(r) => CommitLedger(s, r, id);
    case _ =>
  }

  /* ---- Runs ---- */

  ghost predicate Inv(s: State) {
    RunsInv(s) && LogOk(s.log) && MatchInv(s) && AuthorsInv(s) && LedgerInv(s)
  }

  ghost predicate CanRun(s: State, es: seq<Event>)
    requires s.log != []
    decreases |es|
  {
    es == [] || (Enabled(s, es[0]) && CanRun(Next(s, es[0]), es[1..]))
  }

  ghost function Run(s: State, es: seq<Event>): State
    requires s.log != [] && CanRun(s, es)
    decreases |es|
  {
    if es == [] then s else Run(Next(s, es[0]), es[1..])
  }

  lemma {:induction false} RunKeepsInv(s: State, es: seq<Event>)
    requires Inv(s) && CanRun(s, es)
    ensures Inv(Run(s, es))
    decreases |es|
  {
    if es != [] {
      var s' := Next(s, es[0]);
      RunsKept(s, es[0]);
      LogKept(s, es[0]);
      MatchKept(s, es[0]);
      AuthorsKept(s, es[0]);
      forall id ensures LedgerOk(s', id) {
        LedgerKept(s, es[0], id);
      }
      RunKeepsInv(s', es[1..]);
    }
  }

  ghost predicate Reachable(s: State) {
    exists es :: CanRun(Start, es) && Run(Start, es) == s
  }

  lemma ReachableInv(s: State)
    requires Reachable(s)
    ensures Inv(s)
  {
    var es :| CanRun(Start, es) && Run(Start, es) == s;
    forall id ensures Unseen(Start, id) && LedgerOk(Start, id) {
    }
    FirstLogOk();
    RunKeepsInv(Start, es);
  }
}
