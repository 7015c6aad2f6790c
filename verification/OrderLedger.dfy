/** What holds of orders, payments, events, jobs and stock in every reachable state of the order runs. */
module OrderLedger {
  import opened Results
  import opened Clock
  import opened Catalog
  import opened ProductTable
  import opened OrderPlacement
  import opened OrderRuns

  /**
   Every committed order, in every interleaving with failures anywhere, has exactly one
   payment intent, for its own amount, exactly one ORDER_CREATED emission, and at most one job.
   */
  lemma CommittedOrdersMatch(s: State, k: nat)
    requires Reachable(s) && k < |s.orders|
    ensures var o := s.orders[k];
            && Times(OrderIds(s.orders), o.id) == 1
            && Times(IntentIds(s.intents), o.id) == 1
            && Intent(o.id, Charged(o.totalAmount)) in s.intents
            && Times(s.announced, o.id) == 1
            && Times(s.jobs, o.id) <= 1
            && k < |s.authors| && s.authors[k] in s.runs
            && (Times(s.jobs, o.id) == 1 <==> s.runs[s.authors[k]].job.JobQueued?)
  {
    ReachableInv(s);
    assert Matched(s, s.authors[k]);
  }

  /**
   Payment intents without a committed order are exactly those of runs past the payment call
   that are still in their transaction or have aborted; no intent belongs to no run.
   */
  lemma OrphanIntents(s: State, id: Id)
    requires Reachable(s)
    ensures (id in IntentIds(s.intents) && id !in OrderIds(s.orders))
       <==> exists r :: HasOrder(s, r, id) && IsCharged(s.runs[r].phase) && !s.runs[r].phase.Committed?
    ensures Times(IntentIds(s.intents), id) <= 1
  {
    ReachableInv(s);
    assert id in IntentIds(s.intents) <==> Times(IntentIds(s.intents), id) > 0;
    assert id in OrderIds(s.orders) <==> Times(OrderIds(s.orders), id) > 0;
    if r :| HasOrder(s, r, id) {
      assert Matched(s, r);
      forall other | HasOrder(s, other, id) ensures other == r {
      }
    } else {
      assert Unseen(s, id);
    }
  }

  /** How often an id was announced, and how often it was enqueued, is told by the run that has it. */
  lemma CountsTellPhase(s: State, id: Id)
    requires Reachable(s)
    ensures id in s.announced <==> exists r :: HasOrder(s, r, id) && IsAnnounced(s.runs[r].phase)
    ensures id in s.jobs <==> exists r :: HasOrder(s, r, id) && s.runs[r].job.JobQueued?
    ensures id in OrderIds(s.orders) <==> exists r :: HasOrder(s, r, id) && s.runs[r].phase.Committed?
    ensures Times(s.announced, id) <= 1 && Times(s.jobs, id) <= 1
  {
    ReachableInv(s);
    assert id in s.announced <==> Times(s.announced, id) > 0;
    assert id in s.jobs <==> Times(s.jobs, id) > 0;
    assert id in OrderIds(s.orders) <==> Times(OrderIds(s.orders), id) > 0;
    if r :| HasOrder(s, r, id) {
      assert Matched(s, r);
      forall other | HasOrder(s, other, id) ensures other == r {
      }
    } else {
      assert Unseen(s, id);
    }
  }

  /**
   ORDER_CREATED emissions without a committed order are exactly those of runs past the emission
   that are still in their transaction or have aborted, and so are the jobs without an order;
   every job follows an emission, and no id is emitted or enqueued twice.
   */
  lemma OrphanAnnouncements(s: State, id: Id)
    requires Reachable(s)
    ensures (id in s.announced && id !in OrderIds(s.orders))
       <==> exists r :: HasOrder(s, r, id) && IsAnnounced(s.runs[r].phase) && !s.runs[r].phase.Committed?
    ensures (id in s.jobs && id !in OrderIds(s.orders))
       <==> exists r :: HasOrder(s, r, id) && s.runs[r].job.JobQueued? && !s.runs[r].phase.Committed?
    ensures id in s.jobs ==> id in s.announced
    ensures Times(s.announced, id) <= 1 && Times(s.jobs, id) <= 1
  {
    CountsTellPhase(s, id);
    if r :| HasOrder(s, r, id) {
      ReachableInv(s);
      assert RunOk(s, s.runs[r]);
      forall other | HasOrder(s, other, id) ensures other == r {
      }
    }
  }

  /** An aborted run has no order row; its order appears in no ledger. */
  lemma AbortedLeavesNoOrder(s: State, r: RunId)
    requires Reachable(s) && r in s.runs && s.runs[r].phase.Aborted?
    ensures s.runs[r].phase.order.id !in OrderIds(s.orders)
    ensures s.runs[r].phase.order !in s.orders
    ensures s.runs[r].phase.announced ==> s.runs[r].phase.charged
  {
    ReachableInv(s);
    assert Matched(s, r) && RunOk(s, s.runs[r]);
    var o := s.runs[r].phase.order;
    assert o.id in OrderIds(s.orders) <==> Times(OrderIds(s.orders), o.id) > 0;
    forall k | 0 <= k < |s.orders| ensures s.orders[k] != o {
      assert OrderIds(s.orders)[k] in OrderIds(s.orders);
    }
  }

  /**
   The stock ledger: at any moment a product's stock is the last value set by create or
   update, less what the orders committed since then asked for, however the calls interleave.
   */
  lemma StockLedger(s: State, id: Id)
    requires Reachable(s)
    ensures s.log != []
    ensures Find(Primary(s), id).Some? ==>
              && id in s.marks && s.marks[id].orders <= |s.orders|
              && Find(Primary(s), id).value.stock == s.marks[id].stock - OrderedOf(s.orders[s.marks[id].orders..], id)
  {
    ReachableInv(s);
    assert LedgerOk(s, id);
  }

  /** A committed order's total is the sum of its own lines, all priced by one version of the table. */
  lemma CommittedTotals(s: State, k: nat) returns (version: nat)
    requires Reachable(s) && k < |s.orders|
    ensures version < |s.log|
    ensures s.orders[k].totalAmount == SumOf(s.orders[k].items)
    ensures DistinctItems(RequestedOf(s.orders[k].items))
    ensures forall i | 0 <= i < |s.orders[k].items| ::
              && Find(s.log[version], s.orders[k].items[i].productId).Some?
              && s.orders[k].items[i].price == Find(s.log[version], s.orders[k].items[i].productId).value.price
  {
    ReachableInv(s);
    var run := s.runs[s.authors[k]];
    assert RunOk(s, run);
    version := run.version;
    TotalIsSumOfItems(s.log[version], run.items, run.rows);
    LengthCheckIff(s.log[version], run.items, run.rows);
  }

  /**
   A transaction's updates always find their rows on the primary, whatever version its check
   read and whatever writes came since; so none of them is why a transaction fails.
   */
  lemma DecrementsFindTheirRows(s: State, r: RunId)
    requires Reachable(s) && r in s.runs && OrderIn(s.runs[r].phase).Some?
    ensures s.log != [] && AllExist(Primary(s), s.runs[r].items)
  {
    ReachableInv(s);
    var run := s.runs[r];
    assert RunOk(s, run);
    LengthCheckIff(s.log[run.version], run.items, run.rows);
    assert Evolves(s.log[run.version], s.log[|s.log| - 1]);
    forall i | 0 <= i < |run.items| ensures Find(Primary(s), run.items[i].productId).Some? {
      assert RowEvolves(s.log[run.version], Primary(s), run.items[i].productId);
    }
  }

  /**
   Who buys and who sells: a committed order belongs to the buyer whose call it was, is PENDING,
   and its seller sells, in the version that was read, one of the products on its own lines.
   */
  lemma CommittedParties(s: State, k: nat) returns (version: nat, line: nat)
    requires Reachable(s) && k < |s.orders|
    ensures k < |s.authors| && s.authors[k] in s.runs
    ensures s.orders[k].buyerId == s.runs[s.authors[k]].buyerId
    ensures s.orders[k].status == Pending
    ensures version < |s.log| && line < |s.orders[k].items|
    ensures Find(s.log[version], s.orders[k].items[line].productId).Some?
    ensures Find(s.log[version], s.orders[k].items[line].productId).value.sellerId == s.orders[k].sellerId
  {
    ReachableInv(s);
    var run := s.runs[s.authors[k]];
    assert RunOk(s, run);
    version := run.version;
    SellerStableIff(s.log[version], run.items, run.rows, s.orders[k].id, run.buyerId);
    line :| 0 <= line < |run.items|
            && Find(s.log[version], run.items[line].productId).Some?
            && Find(s.log[version], run.items[line].productId).value.sellerId == s.orders[k].sellerId;
  }
}
