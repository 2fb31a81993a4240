/** What the matching engine should do, on two priority lists and an id index.
    The mutable engine is proved to compute exactly these functions. */
module ReferenceEngine {
  import opened Wrappers
  import opened RmeTypes
  import opened PriorityList

  datatype State = State(bids: seq<Order>, asks: seq<Order>, index: map<OrderId, (Side, Price)>) {
    function Queue(side: Side): seq<Order> {
      if side.Buy? then bids else asks
    }

    function With(side: Side, queue: seq<Order>): State {
      if side.Buy? then this.(bids := queue) else this.(asks := queue)
    }
  }

  const EMPTY := State([], [], map[])

  datatype Outcome = Outcome(state: State, fills: seq<FillEvent>, rejections: seq<RejectEvent>)

  function AddLimit(s: State, o: Order): State {
    s.With(o.side, Rest(s.Queue(o.side), o)).(index := s.index[o.id := (o.side, o.price)])
  }

  // Drops the index entry, and the order it points at.
  function Cancel(s: State, id: OrderId): State {
    if id !in s.index then s
    else
      var (side, price) := s.index[id];
      s.With(side, Remove(s.Queue(side), id, price)).(index := s.index - {id})
  }

  predicate Cancels(s: State, id: OrderId) {
    id in s.index && Present(s.Queue(s.index[id].0), id, s.index[id].1)
  }

  // The incoming order's passage through the opposite side.
  function Swept(s: State, id: OrderId, side: Side, limit: Option<Price>, qty: U64): SweepResult {
    Sweep(id, side, limit, qty, s.Queue(side.Flip()))
  }

  function Take(s: State, side: Side, w: SweepResult): State {
    s.With(side.Flip(), w.rest).(index := s.index - w.gone)
  }

  function Step(s: State, e: OrderEvent): Outcome {
    match e
    case LimitOrder(id, side, price, qty, seqNum) =>
      var w := Swept(s, id, side, Some(price), qty);
      var s1 := Take(s, side, w);
      var s2 := if w.remaining > 0 then AddLimit(s1, Order(id, side, price, w.remaining, seqNum)) else s1;
      Outcome(s2, w.fills, [])
    case MarketOrder(id, side, qty, _) =>
      var w := Swept(s, id, side, None, qty);
      Outcome(Take(s, side, w), w.fills, if w.remaining > 0 then [RejectEvent(id, NoLiquidity)] else [])
    case CancelOrder(id) =>
      Outcome(Cancel(s, id), [], if Cancels(s, id) then [] else [RejectEvent(id, UnknownOrderId)])
  }

  function Run(s: State, events: seq<OrderEvent>): Outcome
    decreases |events|
  {
    if events == [] then Outcome(s, [], [])
    else Then(Step(s, events[0]), Run(Step(s, events[0]).state, events[1..]))
  }

  function Then(a: Outcome, b: Outcome): Outcome {
    Outcome(b.state, a.fills + b.fills, a.rejections + b.rejections)
  }

  // Total quantity standing on both sides.
  function Resting(s: State): nat {
    TotalQty(s.bids) + TotalQty(s.asks)
  }

  lemma ThenAssoc(a: Outcome, b: Outcome, c: Outcome)
    ensures Then(Then(a, b), c) == Then(a, Then(b, c))
  {
    assert (a.fills + b.fills) + c.fills == a.fills + (b.fills + c.fills);
    assert (a.rejections + b.rejections) + c.rejections == a.rejections + (b.rejections + c.rejections);
  }

  lemma {:induction false} RunAppends(s: State, first: seq<OrderEvent>, more: seq<OrderEvent>)
    ensures Run(s, first + more) == Then(Run(s, first), Run(Run(s, first).state, more))
    decreases |first|
  {
    if first == [] {
      assert first + more == more;
      var r := Run(s, more);
      assert [] + r.fills == r.fills && [] + r.rejections == r.rejections;
    } else {
      assert (first + more)[1..] == first[1..] + more;
      var a := Step(s, first[0]);
      RunAppends(a.state, first[1..], more);
      var b := Run(a.state, first[1..]);
      ThenAssoc(a, b, Run(b.state, more));
    }
  }

  lemma RunOne(s: State, e: OrderEvent)
    ensures Run(s, [e]) == Step(s, e)
  {
    var a := Step(s, e);
    assert Run(a.state, [e][1..]) == Outcome(a.state, [], []);
    assert a.fills + [] == a.fills && a.rejections + [] == a.rejections;
  }

  // The state after the first n events.
  function After(events: seq<OrderEvent>, n: nat): State
    requires n <= |events|
  {
    Run(EMPTY, events[..n]).state
  }

  lemma AfterNext(events: seq<OrderEvent>, n: nat)
    requires n < |events|
    ensures After(events, n + 1) == Step(After(events, n), events[n]).state
  {
    assert events[..n + 1] == events[..n] + [events[n]];
    RunAppends(EMPTY, events[..n], [events[n]]);
    RunOne(After(events, n), events[n]);
  }
}
