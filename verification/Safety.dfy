/** What holds of the book after every event of every run: priority order,
    positive quantities, no crossed prices, and an index that does not lie. */
module Safety {
  import opened Wrappers
  import opened RmeTypes
  import opened PriorityList
  import opened ReferenceEngine
  import opened Execution

  ghost predicate Uncrossed(s: State) {
    s.bids != [] && s.asks != [] ==> s.bids[0].price < s.asks[0].price
  }

  // An index entry always leads to an order.
  ghost predicate IndexSound(s: State) {
    forall id :: id in s.index ==> Present(s.Queue(s.index[id].0), id, s.index[id].1)
  }

  ghost predicate Safe(s: State) {
    && Sorted(Buy, s.bids) && Sorted(Sell, s.asks)
    && Positive(s.bids) && Positive(s.asks)
    && Uncrossed(s)
    && IndexSound(s)
  }

  // ---- one sweep

  lemma SweepKeepsOrder(id: OrderId, side: Side, limit: Option<Price>, qty: U64, queue: seq<Order>)
    requires Sorted(side.Flip(), queue) && Positive(queue)
    ensures var w := Sweep(id, side, limit, qty, queue);
            && Sorted(side.Flip(), w.rest) && Positive(w.rest)
            && (w.rest != [] ==> queue != [] && !Better(side.Flip(), w.rest[0].price, queue[0].price))
  {
    SweepLeavesTail(id, side, limit, qty, queue);
    var w := Sweep(id, side, limit, qty, queue);
    var n := Used(w, queue);
    forall i | 0 <= i < |w.rest|
      ensures w.rest[i].price == queue[n + i].price && w.rest[i].side == side.Flip() && w.rest[i].qty > 0
    {
      assert queue[n + i].qty > 0 && queue[n + i].side == side.Flip();
    }
    forall i, j | 0 <= i < j < |w.rest| ensures !Better(side.Flip(), w.rest[j].price, w.rest[i].price) {
      assert !Better(side.Flip(), queue[n + j].price, queue[n + i].price);
    }
    assert n > 0 && w.rest != [] ==> !Better(side.Flip(), queue[n].price, queue[0].price);
  }

  lemma SweepKeepsPresent(id: OrderId, side: Side, limit: Option<Price>, qty: U64, queue: seq<Order>,
                          other: OrderId, price: Price)
    requires Present(queue, other, price)
    ensures var w := Sweep(id, side, limit, qty, queue);
            other !in w.gone ==> Present(w.rest, other, price)
  {
    SweepTakesPrefix(id, side, limit, qty, queue);
    PrefixKeepsPresent(id, side, queue, Sweep(id, side, limit, qty, queue), other, price);
  }

  lemma PrefixKeepsPresent(id: OrderId, side: Side, queue: seq<Order>, w: SweepResult, other: OrderId, price: Price)
    requires TakesPrefix(id, side, queue, w) && Present(queue, other, price)
    ensures other !in w.gone ==> Present(w.rest, other, price)
  {
    PrefixLeavesTail(id, side, queue, w);
    var n := Used(w, queue);
    var i :| 0 <= i < |queue| && Matches(queue[i], other, price);
    if i < n {
      assert queue[..n][i] == queue[i];
      assert queue[i].id in IdsOf(queue[..n]);
    } else {
      assert w.rest[i - n] == queue[n + (i - n)].(qty := w.rest[i - n].qty);
      assert Matches(w.rest[i - n], other, price);
    }
  }

  lemma TakeIsSafe(s: State, id: OrderId, side: Side, limit: Option<Price>, qty: U64)
    requires Safe(s)
    ensures Safe(Take(s, side, Swept(s, id, side, limit, qty)))
  {
    var w := Swept(s, id, side, limit, qty);
    var s' := Take(s, side, w);
    SweepKeepsOrder(id, side, limit, qty, s.Queue(side.Flip()));
    forall other | other in s'.index
      ensures Present(s'.Queue(s'.index[other].0), other, s'.index[other].1)
    {
      assert Present(s.Queue(s.index[other].0), other, s.index[other].1);
      if s.index[other].0 == side.Flip() {
        SweepKeepsPresent(id, side, limit, qty, s.Queue(side.Flip()), other, s.index[other].1);
      }
    }
  }

  // ---- one insertion

  lemma RestKeepsPresent(queue: seq<Order>, o: Order, id: OrderId, price: Price)
    requires Sorted(o.side, queue)
    ensures Present(queue, id, price) ==> Present(Rest(queue, o), id, price)
    ensures Present(Rest(queue, o), o.id, o.price)
  {
    RestSplits(queue, o);
    var n := Ahead(queue, o);
    assert Matches(Rest(queue, o)[n], o.id, o.price);
    if i :| 0 <= i < |queue| && Matches(queue[i], id, price) {
      assert Matches(Rest(queue, o)[if i < n then i else i + 1], id, price);
    }
  }

  lemma RestKeepsPositive(queue: seq<Order>, o: Order)
    requires Sorted(o.side, queue) && Positive(queue) && o.qty > 0
    ensures Positive(Rest(queue, o))
    ensures Rest(queue, o)[0] == o || (queue != [] && Rest(queue, o)[0] == queue[0])
  {
    RestSplits(queue, o);
    var n := Ahead(queue, o);
    forall i | 0 <= i < |Rest(queue, o)| ensures Rest(queue, o)[i].qty > 0 {
      assert Rest(queue, o)[i] == if i < n then queue[i] else if i == n then o else queue[i - 1];
    }
  }

  lemma AddLimitIsSafe(s: State, o: Order)
    requires Safe(s) && o.qty > 0
    requires var opp := s.Queue(o.side.Flip());
             opp == [] || !Accepts(o.side, Some(o.price), opp[0].price)
    ensures Safe(AddLimit(s, o))
  {
    var queue := s.Queue(o.side);
    var s' := AddLimit(s, o);
    RestSplits(queue, o);
    RestKeepsPositive(queue, o);
    AddLimitKeepsIndex(s, o);
  }

  lemma AddLimitKeepsIndex(s: State, o: Order)
    requires IndexSound(s) && Sorted(o.side, s.Queue(o.side))
    ensures IndexSound(AddLimit(s, o))
  {
    var s' := AddLimit(s, o);
    forall id | id in s'.index
      ensures Present(s'.Queue(s'.index[id].0), id, s'.index[id].1)
    {
      RestKeepsPresent(s.Queue(o.side), o, id, s'.index[id].1);
    }
  }

  // ---- one cancellation

  lemma RemoveKeepsOrder(side: Side, queue: seq<Order>, id: OrderId, price: Price)
    requires Sorted(side, queue) && Positive(queue)
    ensures var rest := Remove(queue, id, price);
            && Sorted(side, rest) && Positive(rest)
            && (rest != [] ==> queue != [] && !Better(side, rest[0].price, queue[0].price))
  {
    var n := RemoveSplits(queue, id, price);
    if n < |queue| { DropKeepsOrder(side, queue, n); }
  }

  lemma DropKeepsOrder(side: Side, queue: seq<Order>, n: nat)
    requires Sorted(side, queue) && Positive(queue) && n < |queue|
    ensures var rest := queue[..n] + queue[n + 1..];
            && Sorted(side, rest) && Positive(rest)
            && (rest != [] ==> !Better(side, rest[0].price, queue[0].price))
  {
    var rest := queue[..n] + queue[n + 1..];
    forall i | 0 <= i < |rest| ensures rest[i] == queue[if i < n then i else i + 1] {
    }
  }

  lemma RemoveKeepsPresent(queue: seq<Order>, id: OrderId, price: Price, other: OrderId, price': Price)
    requires Present(queue, other, price') && other != id
    ensures Present(Remove(queue, id, price), other, price')
  {
    var n := RemoveSplits(queue, id, price);
    var i :| 0 <= i < |queue| && Matches(queue[i], other, price');
    assert Matches(Remove(queue, id, price)[if i < n then i else i - 1], other, price');
  }

  lemma CancelIsSafe(s: State, id: OrderId)
    requires Safe(s)
    ensures Safe(Cancel(s, id))
  {
    if id in s.index {
      var (side, price) := s.index[id];
      var s' := Cancel(s, id);
      RemoveKeepsOrder(side, s.Queue(side), id, price);
      forall other | other in s'.index
        ensures Present(s'.Queue(s'.index[other].0), other, s'.index[other].1)
      {
        if s.index[other].0 == side {
          RemoveKeepsPresent(s.Queue(side), id, price, other, s.index[other].1);
        }
      }
    }
  }

  // ---- every step and every run

  lemma StepIsSafe(s: State, e: OrderEvent)
    requires Safe(s)
    ensures Safe(Step(s, e).state)
  {
    match e
    case LimitOrder(id, side, price, qty, seqNum) =>
      TakeIsSafe(s, id, side, Some(price), qty);
      SweepStopsRight(id, side, Some(price), qty, s.Queue(side.Flip()));
      var w := Swept(s, id, side, Some(price), qty);
      if w.remaining > 0 {
        AddLimitIsSafe(Take(s, side, w), Order(id, side, price, w.remaining, seqNum));
      }
    case MarketOrder(id, side, qty, _) =>
      TakeIsSafe(s, id, side, None, qty);
    case CancelOrder(id) =>
      CancelIsSafe(s, id);
  }

  lemma {:induction false} RunIsSafe(s: State, events: seq<OrderEvent>)
    requires Safe(s)
    ensures Safe(Run(s, events).state)
    decreases |events|
  {
    if events != [] {
      StepIsSafe(s, events[0]);
      RunIsSafe(Step(s, events[0]).state, events[1..]);
    }
  }

  // Every bid is below every ask, after any number of events.
  lemma NeverCrossed(events: seq<OrderEvent>, n: nat, bid: Order, ask: Order)
    requires n <= |events|
    requires bid in After(events, n).bids && ask in After(events, n).asks
    ensures bid.price < ask.price
  {
    RunIsSafe(EMPTY, events[..n]);
    var s := After(events, n);
    var i :| 0 <= i < |s.bids| && s.bids[i] == bid;
    var j :| 0 <= j < |s.asks| && s.asks[j] == ask;
    assert i > 0 ==> !Better(Buy, s.bids[i].price, s.bids[0].price);
    assert j > 0 ==> !Better(Sell, s.asks[j].price, s.asks[0].price);
  }

  // ---- maximal execution, event by event

  // An order has been put behind everything at least as good and ahead of
  // everything worse.
  ghost predicate RestsInto(queue: seq<Order>, o: Order, queue': seq<Order>) {
    exists n :: 0 <= n <= |queue| && RestsAt(queue, n, o, queue')
  }

  ghost predicate RestsAt(queue: seq<Order>, n: nat, o: Order, queue': seq<Order>)
    requires n <= |queue|
  {
    && queue' == queue[..n] + [o] + queue[n..]
    && (forall i :: 0 <= i < n ==> if o.side.Buy? then queue[i].price >= o.price else queue[i].price <= o.price)
    && (forall i :: n <= i < |queue| ==> if o.side.Buy? then queue[i].price < o.price else queue[i].price > o.price)
  }

  lemma LimitStep(s: State, id: OrderId, side: Side, price: Price, qty: U64, seqNum: U64, w: SweepResult)
    requires w == Swept(s, id, side, Some(price), qty)
    ensures var r := Step(s, LimitOrder(id, side, price, qty, seqNum));
            && r.rejections == [] && r.fills == w.fills && r.state.Queue(side.Flip()) == w.rest
            && if w.remaining == 0 then r.state.Queue(side) == s.Queue(side) && r.state.index == s.index - w.gone
               else
                 && r.state.Queue(side) == Rest(s.Queue(side), Order(id, side, price, w.remaining, seqNum))
                 && r.state.index == (s.index - w.gone)[id := (side, price)]
  {
  }

  // Everything a limit order does. It trades min(quantity, quantity at
  // acceptable prices), only within its limit, from best price to worst, and
  // rests what is left at its own price; nothing else in the book changes.
  lemma LimitOrderExecution(s: State, id: OrderId, side: Side, price: Price, qty: U64, seqNum: U64)
    requires Safe(s)
    ensures var r := Step(s, LimitOrder(id, side, price, qty, seqNum));
            var queue, own := s.Queue(side.Flip()), s.Queue(side);
            var queue', own' := r.state.Queue(side.Flip()), r.state.Queue(side);
            && r.rejections == []
            && Passes(id, side, Some(price), qty, queue, r.fills, queue')
            && if Filled(r.fills) == qty then own' == own && r.state.index == s.index - UsedUp(queue, queue')
               else
                 && RestsInto(own, Order(id, side, price, qty - Filled(r.fills), seqNum), own')
                 && r.state.index == (s.index - UsedUp(queue, queue'))[id := (side, price)]
  {
    var w := Swept(s, id, side, Some(price), qty);
    LimitStep(s, id, side, price, qty, seqNum, w);
    SweepPasses(id, side, Some(price), qty, s.Queue(side.Flip()), w);
    if w.remaining > 0 {
      RestGoesIn(s.Queue(side), Order(id, side, price, w.remaining, seqNum));
    }
  }

  lemma RestGoesIn(queue: seq<Order>, o: Order)
    requires Sorted(o.side, queue)
    ensures RestsInto(queue, o, Rest(queue, o))
  {
    RestSplits(queue, o);
    assert RestsAt(queue, Ahead(queue, o), o, Rest(queue, o));
  }

  lemma MarketStep(s: State, id: OrderId, side: Side, qty: U64, seqNum: U64, w: SweepResult)
    requires w == Swept(s, id, side, None, qty)
    ensures var r := Step(s, MarketOrder(id, side, qty, seqNum));
            && r.rejections == (if w.remaining > 0 then [RejectEvent(id, NoLiquidity)] else [])
            && r.fills == w.fills && r.state.Queue(side.Flip()) == w.rest && r.state.Queue(side) == s.Queue(side)
            && r.state.index == s.index - w.gone
  {
  }

  // Everything a market order does. It is rejected exactly when it exceeds the
  // whole opposite side, and then leaves that side empty.
  lemma MarketOrderExecution(s: State, id: OrderId, side: Side, qty: U64, seqNum: U64)
    requires Safe(s)
    ensures var r := Step(s, MarketOrder(id, side, qty, seqNum));
            var queue, queue' := s.Queue(side.Flip()), r.state.Queue(side.Flip());
            && Available(side, None, queue) == TotalQty(queue)
            && Passes(id, side, None, qty, queue, r.fills, queue')
            && r.rejections == (if qty > TotalQty(queue) then [RejectEvent(id, NoLiquidity)] else [])
            && (qty > TotalQty(queue) ==> queue' == [])
            && r.state.Queue(side) == s.Queue(side)
            && r.state.index == s.index - UsedUp(queue, queue')
  {
    var w := Swept(s, id, side, None, qty);
    MarketStep(s, id, side, qty, seqNum, w);
    MarketTakesAll(side, s.Queue(side.Flip()));
    SweepPasses(id, side, None, qty, s.Queue(side.Flip()), w);
    SweepStopsRight(id, side, None, qty, s.Queue(side.Flip()));
  }

  // The order at position n, the first with its id at its price, has been taken out.
  ghost predicate DropsAt(queue: seq<Order>, n: nat, id: OrderId, price: Price, queue': seq<Order>)
    requires n < |queue|
  {
    && queue[n].id == id && queue[n].price == price
    && (forall i :: 0 <= i < n ==> queue[i].id != id || queue[i].price != price)
    && queue' == queue[..n] + queue[n + 1..]
  }

  ghost predicate Drops(queue: seq<Order>, id: OrderId, price: Price, queue': seq<Order>) {
    exists n :: 0 <= n < |queue| && DropsAt(queue, n, id, price, queue')
  }

  lemma RemoveDrops(queue: seq<Order>, id: OrderId, price: Price)
    requires Present(queue, id, price)
    ensures Drops(queue, id, price, Remove(queue, id, price))
  {
    var n := RemoveSplits(queue, id, price);
    forall i | 0 <= i < n ensures queue[i].id != id || queue[i].price != price {
      assert !Matches(queue[i], id, price);
    }
    assert DropsAt(queue, n, id, price, Remove(queue, id, price));
  }

  // Everything a cancel does: it is rejected exactly when the id is not
  // indexed, and otherwise takes out the indexed order and nothing else.
  lemma CancelOrderExecution(s: State, id: OrderId)
    requires Safe(s)
    ensures var r := Step(s, CancelOrder(id));
            && r.fills == []
            && if id !in s.index then r.state == s && r.rejections == [RejectEvent(id, UnknownOrderId)]
               else
                 var (side, price) := s.index[id];
                 && r.rejections == []
                 && Drops(s.Queue(side), id, price, r.state.Queue(side))
                 && r.state.Queue(side.Flip()) == s.Queue(side.Flip())
                 && r.state.index == s.index - {id}
  {
    if id in s.index {
      RemoveDrops(s.Queue(s.index[id].0), id, s.index[id].1);
    }
  }

  lemma {:induction false} RestAddsQty(queue: seq<Order>, o: Order)
    ensures TotalQty(Rest(queue, o)) == TotalQty(queue) + o.qty
  {
    if queue == [] || Better(o.side, o.price, queue[0].price) {
      assert ([o] + queue)[1..] == queue;
    } else {
      RestAddsQty(queue[1..], o);
      assert Rest(queue, o)[1..] == Rest(queue[1..], o);
    }
  }
}
