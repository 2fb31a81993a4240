/** Price-time priority over whole runs: at one price, orders stand in the
    order in which they were submitted. */
module TimePriority {
  import opened Wrappers
  import opened RmeTypes
  import opened PriorityList
  import opened ReferenceEngine
  import opened Execution
  import opened Safety
  import opened IndexAgreement

  // Position in the input of the limit order with this id.
  function Arrival(events: seq<OrderEvent>, id: OrderId): nat {
    if events == [] || (events[0].LimitOrder? && events[0].id == id) then 0 else 1 + Arrival(events[1..], id)
  }

  lemma {:induction false} ArrivalOf(events: seq<OrderEvent>, k: nat)
    requires UniqueIds(events) && k < |events| && events[k].LimitOrder?
    ensures Arrival(events, events[k].id) == k
  {
    if k > 0 {
      ArrivalOf(events[1..], k - 1);
    }
  }

  ghost predicate InArrivalOrder(events: seq<OrderEvent>, n: nat, queue: seq<Order>) {
    && (forall i :: 0 <= i < |queue| ==> Arrival(events, queue[i].id) < n)
    && (forall i, j :: 0 <= i < j < |queue| && queue[i].price == queue[j].price ==>
          Arrival(events, queue[i].id) < Arrival(events, queue[j].id))
  }

  lemma TailInArrivalOrder(events: seq<OrderEvent>, n: nat, queue: seq<Order>, k: nat, tail: seq<Order>)
    requires InArrivalOrder(events, n, queue) && k + |tail| == |queue|
    requires forall i :: 0 <= i < |tail| ==> tail[i].id == queue[k + i].id && tail[i].price == queue[k + i].price
    ensures InArrivalOrder(events, n, tail)
  {
    forall i, j | 0 <= i < j < |tail| && tail[i].price == tail[j].price
      ensures Arrival(events, tail[i].id) < Arrival(events, tail[j].id)
    {
      assert queue[k + i].price == queue[k + j].price;
    }
  }

  lemma SweepKeepsArrival(events: seq<OrderEvent>, n: nat, id: OrderId, side: Side, limit: Option<Price>,
                          qty: U64, queue: seq<Order>)
    requires InArrivalOrder(events, n, queue)
    ensures InArrivalOrder(events, n, Sweep(id, side, limit, qty, queue).rest)
  {
    var w := Sweep(id, side, limit, qty, queue);
    SweepLeavesTail(id, side, limit, qty, queue);
    TailInArrivalOrder(events, n, queue, Used(w, queue), w.rest);
  }

  lemma RestKeepsArrival(events: seq<OrderEvent>, n: nat, queue: seq<Order>, o: Order)
    requires Sorted(o.side, queue) && InArrivalOrder(events, n, queue) && Arrival(events, o.id) == n
    ensures InArrivalOrder(events, n + 1, Rest(queue, o))
  {
    RestSplits(queue, o);
    var k := RestAt(queue, o);
    var queue' := Rest(queue, o);
    forall j | k < j < |queue'| ensures queue'[j].price != o.price {
      assert Better(o.side, o.price, queue[j - 1].price);
    }
    forall i, j | 0 <= i < j < |queue'| && queue'[i].price == queue'[j].price
      ensures Arrival(events, queue'[i].id) < Arrival(events, queue'[j].id)
    {
      if i != k && j != k {
        assert queue'[i] == queue[if i < k then i else i - 1];
        assert queue'[j] == queue[if j < k then j else j - 1];
      }
    }
  }

  lemma RemoveKeepsArrival(events: seq<OrderEvent>, n: nat, queue: seq<Order>, id: OrderId, price: Price)
    requires InArrivalOrder(events, n, queue)
    ensures InArrivalOrder(events, n, Remove(queue, id, price))
  {
    var k := RemoveSplits(queue, id, price);
    var rest := Remove(queue, id, price);
    forall i | 0 <= i < |rest| ensures rest[i] == queue[if i < k then i else i + 1] {
    }
  }

  lemma LimitKeepsArrival(events: seq<OrderEvent>, n: nat, s: State, side: Side)
    requires UniqueIds(events) && n < |events| && Safe(s) && events[n].LimitOrder?
    requires InArrivalOrder(events, n, s.Queue(side))
    ensures InArrivalOrder(events, n + 1, Step(s, events[n]).state.Queue(side))
  {
    var LimitOrder(id, eside, price, qty, seqNum) := events[n];
    ArrivalOf(events, n);
    if eside == side {
      var w := Swept(s, id, side, Some(price), qty);
      if w.remaining > 0 {
        RestKeepsArrival(events, n, s.Queue(side), Order(id, side, price, w.remaining, seqNum));
      }
    } else {
      SweepKeepsArrival(events, n, id, eside, Some(price), qty, s.Queue(side));
    }
  }

  lemma CancelKeepsArrival(events: seq<OrderEvent>, n: nat, s: State, side: Side, id: OrderId)
    requires InArrivalOrder(events, n, s.Queue(side))
    ensures InArrivalOrder(events, n, Cancel(s, id).Queue(side))
  {
    if id in s.index && s.index[id].0 == side {
      RemoveKeepsArrival(events, n, s.Queue(side), id, s.index[id].1);
    }
  }

  lemma StepKeepsArrival(events: seq<OrderEvent>, n: nat, s: State, side: Side)
    requires UniqueIds(events) && n < |events| && Safe(s)
    requires InArrivalOrder(events, n, s.Queue(side))
    ensures InArrivalOrder(events, n + 1, Step(s, events[n]).state.Queue(side))
  {
    match events[n]
    case LimitOrder(_, _, _, _, _) =>
      LimitKeepsArrival(events, n, s, side);
    case MarketOrder(id, eside, qty, _) =>
      if eside != side {
        SweepKeepsArrival(events, n, id, eside, None, qty, s.Queue(side));
      }
    case CancelOrder(id) =>
      CancelKeepsArrival(events, n, s, side, id);
  }

  lemma {:induction false} RunKeepsArrival(events: seq<OrderEvent>, n: nat, side: Side)
    requires UniqueIds(events) && n <= |events|
    ensures InArrivalOrder(events, n, After(events, n).Queue(side))
  {
    if n == 0 {
      assert After(events, 0) == EMPTY;
    } else {
      RunKeepsArrival(events, n - 1, side);
      RunIsSafe(EMPTY, events[..n - 1]);
      AfterNext(events, n - 1);
      StepKeepsArrival(events, n - 1, After(events, n - 1), side);
    }
  }

  // Of two orders on one side, the one ahead has the better price, or the same
  // price and an earlier place in the input.
  lemma PriceThenTime(events: seq<OrderEvent>, n: nat, side: Side, i: nat, j: nat)
    requires UniqueIds(events) && n <= |events|
    requires i < j < |After(events, n).Queue(side)|
    ensures var queue := After(events, n).Queue(side);
            || Better(side, queue[i].price, queue[j].price)
            || (queue[i].price == queue[j].price && Arrival(events, queue[i].id) < Arrival(events, queue[j].id))
  {
    RunKeepsArrival(events, n, side);
    RunIsSafe(EMPTY, events[..n]);
    var queue := After(events, n).Queue(side);
    assert !Better(side, queue[j].price, queue[i].price);
  }
}
