/** Bids and asks are one algorithm: mirroring every price and side of a run
    mirrors its result. Sequence numbers may be changed at the same time. */
module Duality {
  import opened Wrappers
  import opened RmeTypes
  import opened PriorityList
  import opened ReferenceEngine

  type Renumbering = U64 -> U64

  function MirrorOrder(o: Order, f: Renumbering): Order {
    Order(o.id, o.side.Flip(), U64_MAX - o.price, o.qty, f(o.seqNum))
  }

  function MirrorQueue(queue: seq<Order>, f: Renumbering): seq<Order> {
    if queue == [] then [] else [MirrorOrder(queue[0], f)] + MirrorQueue(queue[1..], f)
  }

  function MirrorLimit(limit: Option<Price>): Option<Price> {
    match limit
    case None => None
    case Some(p) => Some(U64_MAX - p)
  }

  function MirrorFill(fill: FillEvent): FillEvent {
    fill.(price := U64_MAX - fill.price, aggressorSide := fill.aggressorSide.Flip())
  }

  function MirrorFills(fills: seq<FillEvent>): seq<FillEvent> {
    if fills == [] then [] else [MirrorFill(fills[0])] + MirrorFills(fills[1..])
  }

  function MirrorEvent(e: OrderEvent, f: Renumbering): OrderEvent {
    match e
    case LimitOrder(id, side, price, qty, seqNum) => LimitOrder(id, side.Flip(), U64_MAX - price, qty, f(seqNum))
    case MarketOrder(id, side, qty, seqNum) => MarketOrder(id, side.Flip(), qty, f(seqNum))
    case CancelOrder(id) => CancelOrder(id)
  }

  function MirrorEvents(events: seq<OrderEvent>, f: Renumbering): seq<OrderEvent> {
    if events == [] then [] else [MirrorEvent(events[0], f)] + MirrorEvents(events[1..], f)
  }

  function MirrorIndex(index: map<OrderId, (Side, Price)>): map<OrderId, (Side, Price)> {
    map id | id in index :: (index[id].0.Flip(), U64_MAX - index[id].1)
  }

  function Mirror(s: State, f: Renumbering): State {
    State(MirrorQueue(s.asks, f), MirrorQueue(s.bids, f), MirrorIndex(s.index))
  }

  function MirrorOutcome(r: Outcome, f: Renumbering): Outcome {
    Outcome(Mirror(r.state, f), MirrorFills(r.fills), r.rejections)
  }

  function MirrorSweep(w: SweepResult, f: Renumbering): SweepResult {
    w.(fills := MirrorFills(w.fills), rest := MirrorQueue(w.rest, f))
  }

  lemma AcceptsMirrors(side: Side, limit: Option<Price>, price: Price)
    ensures Accepts(side.Flip(), MirrorLimit(limit), U64_MAX - price) == Accepts(side, limit, price)
  {
  }

  // A sweep of a list with a given first order.
  lemma SweepCons(id: OrderId, side: Side, limit: Option<Price>, qty: U64, o: Order, tail: seq<Order>)
    ensures Sweep(id, side, limit, qty, [o] + tail)
         == if qty == 0 || !Accepts(side, limit, o.price) then SweepResult([], [o] + tail, qty, {})
            else if o.qty <= qty then
              Resume([FillOf(id, side, o, o.qty)], {o.id}, Sweep(id, side, limit, qty - o.qty, tail))
            else SweepResult([FillOf(id, side, o, qty)], [o.(qty := o.qty - qty)] + tail, 0, {})
  {
    assert ([o] + tail)[1..] == tail;
  }

  lemma {:induction false} SweepMirrors(id: OrderId, side: Side, limit: Option<Price>, qty: U64, queue: seq<Order>,
                                        f: Renumbering)
    ensures Sweep(id, side.Flip(), MirrorLimit(limit), qty, MirrorQueue(queue, f))
         == MirrorSweep(Sweep(id, side, limit, qty, queue), f)
    decreases |queue|
  {
    if queue != [] {
      var o, tail := queue[0], queue[1..];
      assert queue == [o] + tail;
      if o.qty <= qty { SweepMirrors(id, side, limit, qty - o.qty, tail, f); }
      ConsMirrors(id, side, limit, qty, o, tail, f);
    }
  }

  lemma ConsMirrors(id: OrderId, side: Side, limit: Option<Price>, qty: U64, o: Order, tail: seq<Order>, f: Renumbering)
    requires o.qty <= qty ==>
               Sweep(id, side.Flip(), MirrorLimit(limit), qty - o.qty, MirrorQueue(tail, f))
               == MirrorSweep(Sweep(id, side, limit, qty - o.qty, tail), f)
    ensures Sweep(id, side.Flip(), MirrorLimit(limit), qty, MirrorQueue([o] + tail, f))
         == MirrorSweep(Sweep(id, side, limit, qty, [o] + tail), f)
  {
    SweepCons(id, side, limit, qty, o, tail);
    SweepCons(id, side.Flip(), MirrorLimit(limit), qty, MirrorOrder(o, f), MirrorQueue(tail, f));
    FirstOrderMirrors(o, tail, f);
    AcceptsMirrors(side, limit, o.price);
    if qty != 0 && Accepts(side, limit, o.price) {
      if o.qty <= qty {
        FirstFillMirrors(FillOf(id, side, o, o.qty), Sweep(id, side, limit, qty - o.qty, tail).fills);
      } else {
        FirstFillMirrors(FillOf(id, side, o, qty), []);
        FirstOrderMirrors(o.(qty := o.qty - qty), tail, f);
      }
    }
  }

  lemma FirstFillMirrors(fill: FillEvent, fills: seq<FillEvent>)
    ensures MirrorFills([fill] + fills) == [MirrorFill(fill)] + MirrorFills(fills)
    ensures MirrorFills([fill]) == [MirrorFill(fill)]
  {
    assert ([fill] + fills)[1..] == fills;
    assert [fill][1..] == [];
  }

  lemma FirstOrderMirrors(o: Order, queue: seq<Order>, f: Renumbering)
    ensures MirrorQueue([o] + queue, f) == [MirrorOrder(o, f)] + MirrorQueue(queue, f)
  {
    assert ([o] + queue)[1..] == queue;
  }

  lemma {:induction false} RestMirrors(queue: seq<Order>, o: Order, f: Renumbering)
    ensures Rest(MirrorQueue(queue, f), MirrorOrder(o, f)) == MirrorQueue(Rest(queue, o), f)
  {
    var queue' := MirrorQueue(queue, f);
    if queue == [] || Better(o.side, o.price, queue[0].price) {
      assert Rest(queue, o)[1..] == queue;
    } else {
      RestMirrors(queue[1..], o, f);
      assert queue'[1..] == MirrorQueue(queue[1..], f);
      assert Rest(queue, o)[1..] == Rest(queue[1..], o);
    }
  }

  lemma {:induction false} RemoveMirrors(queue: seq<Order>, id: OrderId, price: Price, f: Renumbering)
    ensures Remove(MirrorQueue(queue, f), id, U64_MAX - price) == MirrorQueue(Remove(queue, id, price), f)
    ensures Present(MirrorQueue(queue, f), id, U64_MAX - price) == Present(queue, id, price)
  {
    var queue' := MirrorQueue(queue, f);
    if queue != [] {
      RemoveMirrors(queue[1..], id, price, f);
      assert queue'[1..] == MirrorQueue(queue[1..], f);
      PresentFirst(queue, id, price);
      PresentFirst(queue', id, U64_MAX - price);
      if !Matches(queue[0], id, price) {
        assert Remove(queue, id, price)[1..] == Remove(queue[1..], id, price);
      }
    }
  }

  lemma PresentFirst(queue: seq<Order>, id: OrderId, price: Price)
    requires queue != []
    ensures Present(queue, id, price) <==> Matches(queue[0], id, price) || Present(queue[1..], id, price)
  {
    if i :| 0 <= i < |queue| && Matches(queue[i], id, price) {
      assert i > 0 ==> Matches(queue[1..][i - 1], id, price);
    }
    if i :| 0 <= i < |queue[1..]| && Matches(queue[1..][i], id, price) {
      assert Matches(queue[i + 1], id, price);
    }
  }

  lemma TakeMirrors(s: State, id: OrderId, side: Side, limit: Option<Price>, qty: U64, f: Renumbering)
    ensures var w := Swept(s, id, side, limit, qty);
            var w' := Swept(Mirror(s, f), id, side.Flip(), MirrorLimit(limit), qty);
            w' == MirrorSweep(w, f) && Take(Mirror(s, f), side.Flip(), w') == Mirror(Take(s, side, w), f)
  {
    SweepMirrors(id, side, limit, qty, s.Queue(side.Flip()), f);
    var w := Swept(s, id, side, limit, qty);
    assert MirrorIndex(s.index) - w.gone == MirrorIndex(s.index - w.gone);
  }

  lemma AddLimitMirrors(s: State, o: Order, f: Renumbering)
    ensures AddLimit(Mirror(s, f), MirrorOrder(o, f)) == Mirror(AddLimit(s, o), f)
  {
    RestMirrors(s.Queue(o.side), o, f);
    assert MirrorIndex(s.index)[o.id := (o.side.Flip(), U64_MAX - o.price)]
        == MirrorIndex(s.index[o.id := (o.side, o.price)]);
  }

  lemma CancelMirrors(s: State, id: OrderId, f: Renumbering)
    ensures Cancel(Mirror(s, f), id) == Mirror(Cancel(s, id), f)
    ensures Cancels(Mirror(s, f), id) == Cancels(s, id)
  {
    if id in s.index {
      var (side, price) := s.index[id];
      RemoveMirrors(s.Queue(side), id, price, f);
      assert MirrorIndex(s.index) - {id} == MirrorIndex(s.index - {id});
    }
  }

  lemma LimitMirrors(s: State, id: OrderId, side: Side, price: Price, qty: U64, seqNum: U64, f: Renumbering)
    ensures Step(Mirror(s, f), LimitOrder(id, side.Flip(), U64_MAX - price, qty, f(seqNum)))
         == MirrorOutcome(Step(s, LimitOrder(id, side, price, qty, seqNum)), f)
  {
    var w := Swept(s, id, side, Some(price), qty);
    TakeMirrors(s, id, side, Some(price), qty, f);
    if w.remaining > 0 {
      var o := Order(id, side, price, w.remaining, seqNum);
      assert MirrorOrder(o, f) == Order(id, side.Flip(), U64_MAX - price, w.remaining, f(seqNum));
      AddLimitMirrors(Take(s, side, w), o, f);
    }
  }

  lemma StepMirrors(s: State, e: OrderEvent, f: Renumbering)
    ensures Step(Mirror(s, f), MirrorEvent(e, f)) == MirrorOutcome(Step(s, e), f)
  {
    match e
    case LimitOrder(id, side, price, qty, seqNum) =>
      LimitMirrors(s, id, side, price, qty, seqNum, f);
    case MarketOrder(id, side, qty, _) =>
      TakeMirrors(s, id, side, None, qty, f);
    case CancelOrder(id) =>
      CancelMirrors(s, id, f);
  }

  lemma {:induction false} MirrorFillsAppends(a: seq<FillEvent>, b: seq<FillEvent>)
    ensures MirrorFills(a + b) == MirrorFills(a) + MirrorFills(b)
  {
    if a == [] {
      assert a + b == b;
    } else {
      assert (a + b)[1..] == a[1..] + b;
      MirrorFillsAppends(a[1..], b);
    }
  }

  lemma {:induction false} RunMirrors(s: State, events: seq<OrderEvent>, f: Renumbering)
    ensures Run(Mirror(s, f), MirrorEvents(events, f)) == MirrorOutcome(Run(s, events), f)
    decreases |events|
  {
    if events != [] {
      var a := Step(s, events[0]);
      StepMirrors(s, events[0], f);
      RunMirrors(a.state, events[1..], f);
      MirrorFillsAppends(a.fills, Run(a.state, events[1..]).fills);
      assert MirrorEvents(events, f)[1..] == MirrorEvents(events[1..], f);
    }
  }

  // The mirrored run of a whole input: same ids and quantities, mirrored
  // prices, flipped sides, identical rejections, swapped book.
  lemma MirroredRun(events: seq<OrderEvent>, f: Renumbering)
    ensures Run(EMPTY, MirrorEvents(events, f)) == MirrorOutcome(Run(EMPTY, events), f)
  {
    RunMirrors(EMPTY, events, f);
    assert Mirror(EMPTY, f) == EMPTY;
  }

  // ---- sequence numbers play no part in matching

  ghost predicate SameButNumbered(a: seq<OrderEvent>, b: seq<OrderEvent>) {
    && |a| == |b|
    && forall i :: 0 <= i < |a| ==> MirrorEvent(a[i], _ => 0) == MirrorEvent(b[i], _ => 0)
  }

  lemma {:induction false} SameMirror(a: seq<OrderEvent>, b: seq<OrderEvent>, f: Renumbering)
    requires |a| == |b| && forall i :: 0 <= i < |a| ==> MirrorEvent(a[i], f) == MirrorEvent(b[i], f)
    ensures MirrorEvents(a, f) == MirrorEvents(b, f)
  {
    if a != [] {
      forall i | 0 <= i < |a[1..]| ensures MirrorEvent(a[1..][i], f) == MirrorEvent(b[1..][i], f) {
        assert a[1..][i] == a[i + 1] && b[1..][i] == b[i + 1];
      }
      SameMirror(a[1..], b[1..], f);
    }
  }

  lemma {:induction false} MirrorFillsInjective(a: seq<FillEvent>, b: seq<FillEvent>)
    requires MirrorFills(a) == MirrorFills(b)
    ensures a == b
  {
    if a != [] && b != [] {
      assert MirrorFills(a)[1..] == MirrorFills(a[1..]);
      assert MirrorFills(b)[1..] == MirrorFills(b[1..]);
      assert MirrorFills(a)[0] == MirrorFills(b)[0];
      MirrorFillsInjective(a[1..], b[1..]);
    }
  }

  // The same orders in the same places, whatever their sequence numbers.
  ghost predicate SameOrders(a: seq<Order>, b: seq<Order>) {
    && |a| == |b|
    && forall i :: 0 <= i < |a| ==> b[i] == a[i].(seqNum := b[i].seqNum)
  }

  lemma {:induction false} MirrorQueueInjective(a: seq<Order>, b: seq<Order>, f: Renumbering)
    requires MirrorQueue(a, f) == MirrorQueue(b, f)
    ensures SameOrders(a, b)
  {
    if a != [] && b != [] {
      assert MirrorQueue(a, f)[1..] == MirrorQueue(a[1..], f);
      assert MirrorQueue(b, f)[1..] == MirrorQueue(b[1..], f);
      assert MirrorQueue(a, f)[0] == MirrorQueue(b, f)[0];
      MirrorQueueInjective(a[1..], b[1..], f);
      forall i | 0 < i < |a| ensures b[i] == a[i].(seqNum := b[i].seqNum) {
        assert b[1..][i - 1] == a[1..][i - 1].(seqNum := b[1..][i - 1].seqNum);
      }
    }
  }

  lemma MirrorIndexInjective(a: map<OrderId, (Side, Price)>, b: map<OrderId, (Side, Price)>)
    requires MirrorIndex(a) == MirrorIndex(b)
    ensures a == b
  {
    assert a.Keys == MirrorIndex(a).Keys && b.Keys == MirrorIndex(b).Keys;
    forall id | id in a ensures a[id] == b[id] {
      assert MirrorIndex(a)[id] == MirrorIndex(b)[id];
    }
  }

  // Two inputs that differ only in sequence numbers trade and reject alike and
  // leave the same book: priority within a price is arrival order.
  lemma SequenceNumbersAreIgnored(a: seq<OrderEvent>, b: seq<OrderEvent>)
    requires SameButNumbered(a, b)
    ensures Run(EMPTY, a).fills == Run(EMPTY, b).fills
    ensures Run(EMPTY, a).rejections == Run(EMPTY, b).rejections
    ensures SameOrders(Run(EMPTY, a).state.bids, Run(EMPTY, b).state.bids)
    ensures SameOrders(Run(EMPTY, a).state.asks, Run(EMPTY, b).state.asks)
    ensures Run(EMPTY, a).state.index == Run(EMPTY, b).state.index
  {
    var f: Renumbering := _ => 0;
    forall i | 0 <= i < |a| ensures MirrorEvent(a[i], f) == MirrorEvent(b[i], f) {
      assert MirrorEvent(a[i], _ => 0) == MirrorEvent(b[i], _ => 0);
    }
    SameMirror(a, b, f);
    MirroredRun(a, f);
    MirroredRun(b, f);
    SameOutcome(Run(EMPTY, a), Run(EMPTY, b), f);
  }

  lemma SameOutcome(a: Outcome, b: Outcome, f: Renumbering)
    requires MirrorOutcome(a, f) == MirrorOutcome(b, f)
    ensures a.fills == b.fills && a.rejections == b.rejections && a.state.index == b.state.index
    ensures SameOrders(a.state.bids, b.state.bids) && SameOrders(a.state.asks, b.state.asks)
  {
    MirrorFillsInjective(a.fills, b.fills);
    MirrorQueueInjective(a.state.bids, b.state.bids, f);
    MirrorQueueInjective(a.state.asks, b.state.asks, f);
    MirrorIndexInjective(a.state.index, b.state.index);
  }
}
