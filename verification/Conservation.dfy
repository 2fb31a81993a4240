/** Where every submitted unit of quantity ends up, over whole runs. */
module Conservation {
  import opened Wrappers
  import opened RmeTypes
  import opened PriorityList
  import opened ReferenceEngine
  import opened Execution
  import opened Safety

  function Submitted(events: seq<OrderEvent>): nat {
    if events == [] then 0
    else (match events[0]
          case LimitOrder(_, _, _, qty, _) => qty
          case MarketOrder(_, _, qty, _) => qty
          case CancelOrder(_) => 0) + Submitted(events[1..])
  }

  // Quantity of the order that a cancel for (id, price) would take out.
  function QtyOf(queue: seq<Order>, id: OrderId, price: Price): nat {
    if queue == [] then 0
    else if Matches(queue[0], id, price) then queue[0].qty
    else QtyOf(queue[1..], id, price)
  }

  function CancelledBy(s: State, e: OrderEvent): nat {
    if e.CancelOrder? && e.id in s.index then QtyOf(s.Queue(s.index[e.id].0), e.id, s.index[e.id].1) else 0
  }

  // The part of a market order beyond everything that rests on the other side.
  function UnfilledBy(s: State, e: OrderEvent): nat {
    if e.MarketOrder? && e.qty > TotalQty(s.Queue(e.side.Flip())) then e.qty - TotalQty(s.Queue(e.side.Flip())) else 0
  }

  function Cancelled(s: State, events: seq<OrderEvent>): nat
    decreases |events|
  {
    if events == [] then 0 else CancelledBy(s, events[0]) + Cancelled(Step(s, events[0]).state, events[1..])
  }

  function Unfilled(s: State, events: seq<OrderEvent>): nat
    decreases |events|
  {
    if events == [] then 0 else UnfilledBy(s, events[0]) + Unfilled(Step(s, events[0]).state, events[1..])
  }

  lemma {:induction false} RemoveTakesQty(queue: seq<Order>, id: OrderId, price: Price)
    ensures TotalQty(queue) == TotalQty(Remove(queue, id, price)) + QtyOf(queue, id, price)
  {
    if queue != [] && !Matches(queue[0], id, price) {
      RemoveTakesQty(queue[1..], id, price);
      assert Remove(queue, id, price)[1..] == Remove(queue[1..], id, price);
    }
  }

  lemma {:induction false} FilledAppends(a: seq<FillEvent>, b: seq<FillEvent>)
    ensures Filled(a + b) == Filled(a) + Filled(b)
  {
    if a == [] {
      assert a + b == b;
    } else {
      assert (a + b)[1..] == a[1..] + b;
      FilledAppends(a[1..], b);
    }
  }

  lemma LimitConserves(s: State, id: OrderId, side: Side, price: Price, qty: U64, seqNum: U64)
    requires Safe(s)
    ensures var r := Step(s, LimitOrder(id, side, price, qty, seqNum));
            Resting(s) + qty == Resting(r.state) + 2 * Filled(r.fills)
  {
    var w := Swept(s, id, side, Some(price), qty);
    SweepConserves(id, side, Some(price), qty, s.Queue(side.Flip()));
    LimitStep(s, id, side, price, qty, seqNum, w);
    if w.remaining > 0 {
      RestAddsQty(s.Queue(side), Order(id, side, price, w.remaining, seqNum));
    }
  }

  lemma MarketConserves(s: State, id: OrderId, side: Side, qty: U64, seqNum: U64)
    requires Safe(s)
    ensures var e := MarketOrder(id, side, qty, seqNum); var r := Step(s, e);
            Resting(s) + qty == Resting(r.state) + 2 * Filled(r.fills) + UnfilledBy(s, e)
  {
    MarketOrderExecution(s, id, side, qty, seqNum);
    SweepConserves(id, side, None, qty, s.Queue(side.Flip()));
  }

  // A fill removes its quantity twice: from the incoming and from the resting order.
  lemma StepConserves(s: State, e: OrderEvent)
    requires Safe(s)
    ensures var r := Step(s, e);
            Resting(s) + Submitted([e])
            == Resting(r.state) + 2 * Filled(r.fills) + CancelledBy(s, e) + UnfilledBy(s, e)
  {
    assert Submitted([e][1..]) == 0;
    match e
    case LimitOrder(id, side, price, qty, seqNum) =>
      LimitConserves(s, id, side, price, qty, seqNum);
    case MarketOrder(id, side, qty, seqNum) =>
      MarketConserves(s, id, side, qty, seqNum);
    case CancelOrder(id) =>
      if id in s.index {
        RemoveTakesQty(s.Queue(s.index[id].0), id, s.index[id].1);
      }
  }

  lemma {:induction false} RunConserves(s: State, events: seq<OrderEvent>)
    requires Safe(s)
    ensures var r := Run(s, events);
            Resting(s) + Submitted(events)
            == Resting(r.state) + 2 * Filled(r.fills) + Cancelled(s, events) + Unfilled(s, events)
    decreases |events|
  {
    if events != [] {
      var a := Step(s, events[0]);
      StepIsSafe(s, events[0]);
      StepConserves(s, events[0]);
      RunConserves(a.state, events[1..]);
      FilledAppends(a.fills, Run(a.state, events[1..]).fills);
      assert Submitted([events[0]][1..]) == 0;
    }
  }

  // From the empty book: all submitted quantity is filled, resting, cancelled or turned away.
  lemma WholeRunConserves(events: seq<OrderEvent>)
    ensures var r := Run(EMPTY, events);
            Submitted(events)
            == 2 * Filled(r.fills) + Resting(r.state) + Cancelled(EMPTY, events) + Unfilled(EMPTY, events)
  {
    RunConserves(EMPTY, events);
  }
}
