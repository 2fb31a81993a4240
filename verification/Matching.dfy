/** Matching one event against the mutable book, with separate code for the two sides. */
module Matching {
  import opened Wrappers
  import opened RmeTypes
  import opened PriorityList
  import opened PriceLevels
  import opened OrderBooks
  import R = ReferenceEngine

  method MatchOrder(book: OrderBook, event: OrderEvent)
    returns (fills: seq<FillEvent>, rejections: seq<RejectEvent>)
    requires book.Valid()
    modifies book, book.bids, book.asks
    ensures book.Valid()
    ensures R.Step(old(book.Contents()), event) == R.Outcome(book.Contents(), fills, rejections)
  {
    match event {
      case LimitOrder(id, side, price, qty, seqNum) =>
        fills, rejections := ProcessLimit(book, id, side, price, qty, seqNum);
      case MarketOrder(id, side, qty, seqNum) =>
        fills, rejections := ProcessMarket(book, id, side, qty, seqNum);
      case CancelOrder(id) =>
        fills, rejections := ProcessCancel(book, id);
    }
  }

  method ProcessLimit(book: OrderBook, id: OrderId, side: Side, price: Price, qty: U64, seqNum: U64)
    returns (fills: seq<FillEvent>, rejections: seq<RejectEvent>)
    requires book.Valid()
    modifies book, book.bids, book.asks
    ensures book.Valid()
    ensures R.Step(old(book.Contents()), LimitOrder(id, side, price, qty, seqNum))
         == R.Outcome(book.Contents(), fills, rejections)
  {
    var remaining := qty;
    fills := [];
    match side {
      case Buy => fills, remaining := CrossAsks(book, id, Some(price), qty);
      case Sell => fills, remaining := CrossBids(book, id, Some(price), qty);
    }
    if remaining > 0 {
      book.AddLimit(Order(id, side, price, remaining, seqNum));
    }
    rejections := [];
  }

  method ProcessMarket(book: OrderBook, id: OrderId, side: Side, qty: U64, seqNum: U64)
    returns (fills: seq<FillEvent>, rejections: seq<RejectEvent>)
    requires book.Valid()
    modifies book, book.bids, book.asks
    ensures book.Valid()
    ensures R.Step(old(book.Contents()), MarketOrder(id, side, qty, seqNum))
         == R.Outcome(book.Contents(), fills, rejections)
  {
    var remaining := qty;
    fills := [];
    match side {
      case Buy => fills, remaining := CrossAsks(book, id, None, qty);
      case Sell => fills, remaining := CrossBids(book, id, None, qty);
    }
    rejections := [];
    if remaining > 0 {
      rejections := [RejectEvent(id, NoLiquidity)];
    }
  }

  method ProcessCancel(book: OrderBook, id: OrderId)
    returns (fills: seq<FillEvent>, rejections: seq<RejectEvent>)
    requires book.Valid()
    modifies book, book.bids, book.asks
    ensures book.Valid()
    ensures R.Step(old(book.Contents()), CancelOrder(id)) == R.Outcome(book.Contents(), fills, rejections)
  {
    var found := book.Cancel(id);
    fills := [];
    rejections := if found then [] else [RejectEvent(id, UnknownOrderId)];
  }

  // ---- level after level

  // What is done, then the sweep of what is left, is the whole sweep.
  ghost predicate ToDo(whole: SweepResult, made: seq<FillEvent>, gone: set<OrderId>,
                       id: OrderId, side: Side, limit: Option<Price>, remaining: U64, queue: seq<Order>)
  {
    whole == Resume(made, gone, Sweep(id, side, limit, remaining, queue))
  }

  lemma NextStage(whole: SweepResult, made: seq<FillEvent>, gone: set<OrderId>,
                  id: OrderId, side: Side, best: Price, limit: Option<Price>, remaining: U64, queue: seq<Order>)
    requires ToDo(whole, made, gone, id, side, limit, remaining, queue) && Accepts(side, limit, best)
    ensures var w := Sweep(id, side, Some(best), remaining, queue);
            ToDo(whole, made + w.fills, gone + w.gone, id, side, limit, w.remaining, w.rest)
  {
    var w := Sweep(id, side, Some(best), remaining, queue);
    SweepInStages(id, side, Some(best), limit, remaining, queue);
    ResumeAssoc(made, gone, w.fills, w.gone, Sweep(id, side, limit, w.remaining, w.rest));
  }

  lemma LastStage(whole: SweepResult, made: seq<FillEvent>, gone: set<OrderId>,
                  id: OrderId, side: Side, limit: Option<Price>, remaining: U64, queue: seq<Order>)
    requires ToDo(whole, made, gone, id, side, limit, remaining, queue)
    requires remaining == 0 || queue == [] || !Accepts(side, limit, queue[0].price)
    ensures whole == SweepResult(made, queue, remaining, gone)
  {
    assert Sweep(id, side, limit, remaining, queue) == SweepResult([], queue, remaining, {});
    assert made + [] == made;
    assert gone + {} == gone;
  }

  lemma RemoveTwice(index: map<OrderId, (Side, Price)>, gone: set<OrderId>, more: set<OrderId>)
    ensures index - gone - more == index - (gone + more)
  {
  }

  lemma HeadIsLeast(side: Side, levels: Levels)
    requires Filed(side, levels)
    ensures Flatten(levels) != [] ==> levels.Keys != {} && LeastKey(levels) == Key(side, Flatten(levels)[0].price)
  {
    FlattenOrdered(side, levels);
  }

  // The outer loop of a buy order: level after level while the best ask is
  // acceptable. A market order has no limit and accepts every price.
  method CrossAsks(book: OrderBook, id: OrderId, limit: Option<Price>, qty: U64)
    returns (fills: seq<FillEvent>, remaining: U64)
    requires book.Valid()
    modifies book, book.asks
    ensures book.Valid()
    ensures var w := R.Swept(old(book.Contents()), id, Buy, limit, qty);
            && fills == w.fills && remaining == w.remaining
            && book.Contents() == R.Take(old(book.Contents()), Buy, w)
  {
    ghost var before := book.Contents();
    ghost var whole := Sweep(id, Buy, limit, qty, before.asks);
    ghost var gone := {};
    fills, remaining := [], qty;
    ResumeAssoc([], {}, [], {}, whole);
    assert before.index - {} == before.index;
    while remaining != 0
      invariant book.Valid()
      invariant ToDo(whole, fills, gone, id, Buy, limit, remaining, book.asks.Flat())
      invariant book.bids.Flat() == before.bids && book.cancelIndex == before.index - gone
      decreases |book.asks.Flat()|, remaining
    {
      var best := book.BestAsk();
      if best.None? || !Accepts(Buy, limit, best.value) {
        break;
      }
      ghost var queue := book.asks.Flat();
      ghost var w := Sweep(id, Buy, best, remaining, queue);
      NextStage(whole, fills, gone, id, Buy, best.value, limit, remaining, queue);
      HeadIsLeast(Sell, book.asks.levels);
      fills, remaining := FillAgainstAsk(book, id, Buy, best.value, remaining, fills);
      assert book.asks.Flat() == w.rest;
      RemoveTwice(before.index, gone, w.gone);
      gone := gone + w.gone;
    }
    LastStage(whole, fills, gone, id, Buy, limit, remaining, book.asks.Flat());
  }

  // The outer loop of a sell order: level after level while the best bid is
  // acceptable. A market order has no limit and accepts every price.
  method CrossBids(book: OrderBook, id: OrderId, limit: Option<Price>, qty: U64)
    returns (fills: seq<FillEvent>, remaining: U64)
    requires book.Valid()
    modifies book, book.bids
    ensures book.Valid()
    ensures var w := R.Swept(old(book.Contents()), id, Sell, limit, qty);
            && fills == w.fills && remaining == w.remaining
            && book.Contents() == R.Take(old(book.Contents()), Sell, w)
  {
    ghost var before := book.Contents();
    ghost var whole := Sweep(id, Sell, limit, qty, before.bids);
    ghost var gone := {};
    fills, remaining := [], qty;
    ResumeAssoc([], {}, [], {}, whole);
    assert before.index - {} == before.index;
    while remaining != 0
      invariant book.Valid()
      invariant ToDo(whole, fills, gone, id, Sell, limit, remaining, book.bids.Flat())
      invariant book.asks.Flat() == before.asks && book.cancelIndex == before.index - gone
      decreases |book.bids.Flat()|, remaining
    {
      var best := book.BestBid();
      if best.None? || !Accepts(Sell, limit, best.value) {
        break;
      }
      ghost var queue := book.bids.Flat();
      ghost var w := Sweep(id, Sell, best, remaining, queue);
      NextStage(whole, fills, gone, id, Sell, best.value, limit, remaining, queue);
      HeadIsLeast(Buy, book.bids.levels);
      fills, remaining := FillAgainstBid(book, id, Sell, best.value, remaining, fills);
      assert book.bids.Flat() == w.rest;
      RemoveTwice(before.index, gone, w.gone);
      gone := gone + w.gone;
    }
    LastStage(whole, fills, gone, id, Sell, limit, remaining, book.bids.Flat());
  }

  // ---- one level

  // A level's queue being worked through: what is done, then the sweep of what is left.
  ghost predicate Underway(whole: SweepResult, made: seq<FillEvent>, gone: set<OrderId>,
                           id: OrderId, side: Side, price: Price, remaining: U64, levels: Levels)
  {
    && Filed(side.Flip(), levels)
    && ToDo(whole, made, gone, id, side, Some(price), remaining, Flatten(levels))
  }

  lemma Start(id: OrderId, side: Side, price: Price, want: U64, levels: Levels)
    requires Filed(side.Flip(), levels)
    ensures Underway(Sweep(id, side, Some(price), want, Flatten(levels)), [], {}, id, side, price, want, levels)
  {
    ResumeAssoc([], {}, [], {}, Sweep(id, side, Some(price), want, Flatten(levels)));
  }

  // A sweep never lengthens the list, and shortens it unless it ends with nothing left to fill.
  lemma {:induction false} SweepShortens(id: OrderId, side: Side, limit: Option<Price>, qty: U64, queue: seq<Order>)
    ensures var w := Sweep(id, side, limit, qty, queue);
            && |w.rest| <= |queue|
            && (queue != [] && Accepts(side, limit, queue[0].price) && w.remaining != 0 ==> |w.rest| < |queue|)
    decreases |queue|
  {
    if qty != 0 && queue != [] && Accepts(side, limit, queue[0].price) && queue[0].qty <= qty {
      SweepShortens(id, side, limit, qty - queue[0].qty, queue[1..]);
    }
  }

  // The front order is used up.
  lemma TakeWhole(whole: SweepResult, made: seq<FillEvent>, gone: set<OrderId>,
                  id: OrderId, side: Side, price: Price, remaining: U64, levels: Levels)
    requires Underway(whole, made, gone, id, side, price, remaining, levels)
    requires remaining > 0 && levels.Keys != {} && LeastKey(levels) == Key(side.Flip(), price)
    requires FiledAt(side.Flip(), LeastKey(levels), levels[LeastKey(levels)])
    requires levels[LeastKey(levels)][0].qty <= remaining
    ensures var k := LeastKey(levels); var o := levels[k][0];
            && Underway(whole, made + [FillOf(id, side, o, o.qty)], gone + {o.id},
                        id, side, price, remaining - o.qty, PopFront(levels, k))
  {
    var k := LeastKey(levels);
    var o := levels[k][0];
    FlattenOrdered(side.Flip(), levels);
    FlattenPopFront(side.Flip(), levels);
    PopFrontFiled(side.Flip(), levels, k);
    ResumeAssoc(made, gone, [FillOf(id, side, o, o.qty)], {o.id},
                Sweep(id, side, Some(price), remaining - o.qty, Flatten(levels)[1..]));
  }

  // The front order is larger than what is left to fill.
  lemma TakePart(whole: SweepResult, made: seq<FillEvent>, gone: set<OrderId>,
                 id: OrderId, side: Side, price: Price, remaining: U64, levels: Levels)
    requires Underway(whole, made, gone, id, side, price, remaining, levels)
    requires remaining > 0 && levels.Keys != {} && LeastKey(levels) == Key(side.Flip(), price)
    requires FiledAt(side.Flip(), LeastKey(levels), levels[LeastKey(levels)])
    requires levels[LeastKey(levels)][0].qty > remaining
    ensures var k := LeastKey(levels); var o := levels[k][0];
            var levels' := levels[k := levels[k][0 := o.(qty := o.qty - remaining)]];
            && Underway(whole, made + [FillOf(id, side, o, remaining)], gone, id, side, price, 0, levels')
  {
    var k := LeastKey(levels);
    var o := levels[k][0];
    var o' := o.(qty := o.qty - remaining);
    FlattenOrdered(side.Flip(), levels);
    FlattenUpdateFront(side.Flip(), levels, o');
    ResumeAssoc(made, gone, [FillOf(id, side, o, remaining)], {},
                Sweep(id, side, Some(price), 0, [o'] + Flatten(levels)[1..]));
    assert gone + {} == gone;
    assert [FillOf(id, side, o, remaining)] + [] == [FillOf(id, side, o, remaining)];
  }

  // Nothing left to fill, or the level is gone: the sweep to this price is over.
  lemma Finish(whole: SweepResult, made: seq<FillEvent>, gone: set<OrderId>,
               id: OrderId, side: Side, price: Price, remaining: U64, levels: Levels)
    requires Underway(whole, made, gone, id, side, price, remaining, levels)
    requires remaining == 0 || forall k :: k in levels ==> Key(side.Flip(), price) < k
    ensures whole == SweepResult(made, Flatten(levels), remaining, gone)
  {
    FlattenOrdered(side.Flip(), levels);
    LastStage(whole, made, gone, id, side, Some(price), remaining, Flatten(levels));
  }

  lemma ShorterAfter(s: R.State, id: OrderId, side: Side, price: Price, want: U64, levels: Levels)
    requires Filed(side.Flip(), levels) && s.Queue(side.Flip()) == Flatten(levels)
    requires levels.Keys != {} && LeastKey(levels) == Key(side.Flip(), price)
    ensures var w := R.Swept(s, id, side, Some(price), want);
            |w.rest| <= |Flatten(levels)| && (w.remaining != 0 ==> |w.rest| < |Flatten(levels)|)
  {
    FlattenOrdered(side.Flip(), levels);
    SweepShortens(id, side, Some(price), want, Flatten(levels));
  }

  // Works through the FIFO queue at the best ask price. Ends with nothing left to
  // fill or with the level deleted, so the outer loop makes progress. The price is
  // the one the outer loop has just read off the book.
  method FillAgainstAsk(book: OrderBook, id: OrderId, side: Side, askPrice: Price, want: U64, done: seq<FillEvent>)
    returns (fills: seq<FillEvent>, remaining: U64)
    requires book.Valid() && side == Buy
    requires book.asks.levels.Keys != {} && LeastKey(book.asks.levels) == askPrice
    modifies book`cancelIndex, book.asks
    ensures book.Valid()
    ensures var w := R.Swept(old(book.Contents()), id, side, Some(askPrice), want);
            && fills == done + w.fills && remaining == w.remaining
            && book.Contents() == R.Take(old(book.Contents()), side, w)
    ensures remaining == 0 || askPrice !in book.asks.levels
    ensures |book.asks.Flat()| <= old(|book.asks.Flat()|)
    ensures remaining != 0 ==> |book.asks.Flat()| < old(|book.asks.Flat()|)
  {
    var key := askPrice;
    ghost var before := book.Contents();
    ghost var whole := R.Swept(before, id, side, Some(askPrice), want);
    ghost var made, gone := [], {};
    fills, remaining := done, want;
    Start(id, side, askPrice, want, book.asks.levels);
    assert before.index - {} == before.index;
    while remaining != 0
      invariant fills == done + made && book.cancelIndex == before.index - gone
      invariant Underway(whole, made, gone, id, side, askPrice, remaining, book.asks.levels)
      invariant forall k :: k in book.asks.levels ==> key <= k
      decreases |QueueAt(book.asks.levels, key)|, remaining
    {
      if key !in book.asks.levels {
        break;
      }
      var fill;
      fill, gone := TakeFrontAsk(book, id, side, askPrice, remaining, before.index, whole, made, gone);
      fills := fills + [fill];
      made := made + [fill];
      remaining := remaining - fill.qty;
    }
    Finish(whole, made, gone, id, side, askPrice, remaining, book.asks.levels);
    ShorterAfter(before, id, side, askPrice, want, old(book.asks.levels));
  }

  // One round of the loop above: trade with the front order, and take it out
  // of queue and index when it is used up.
  method TakeFrontAsk(book: OrderBook, id: OrderId, side: Side, askPrice: Price, remaining: U64,
                      ghost index: map<OrderId, (Side, Price)>,
                      ghost whole: SweepResult, ghost made: seq<FillEvent>, ghost gone: set<OrderId>)
    returns (fill: FillEvent, ghost gone': set<OrderId>)
    requires book.bids != book.asks && side == Buy && remaining != 0
    requires Underway(whole, made, gone, id, side, askPrice, remaining, book.asks.levels)
    requires book.cancelIndex == index - gone
    requires askPrice in book.asks.levels
    requires forall k :: k in book.asks.levels ==> askPrice <= k
    modifies book`cancelIndex, book.asks
    ensures fill.qty <= remaining
    ensures Underway(whole, made + [fill], gone', id, side, askPrice, remaining - fill.qty, book.asks.levels)
    ensures book.cancelIndex == index - gone'
    ensures forall k :: k in book.asks.levels ==> askPrice <= k
    ensures var queue, queue' := old(QueueAt(book.asks.levels, askPrice)), QueueAt(book.asks.levels, askPrice);
            |queue'| < |queue| || (|queue'| == |queue| && fill.qty == remaining)
  {
    var key := askPrice;
    ghost var levels := book.asks.levels;
    LeastIs(levels, key);
    var queue := book.asks.levels[key];
    assert FiledAt(Sell, key, queue);
    var frontQty := queue[0].qty;
    var fillQty := if remaining <= frontQty then remaining else frontQty;
    var restingId := queue[0].id;
    fill := FillEvent(id, restingId, askPrice, fillQty, side);
    if fillQty == frontQty {
      gone' := gone + {restingId};
      assert index - gone - {restingId} == index - gone';
      book.cancelIndex := book.cancelIndex - {restingId};
      queue := queue[1..];
      book.asks.levels := if queue == [] then book.asks.levels - {key} else book.asks.levels[key := queue];
      assert book.asks.levels == PopFront(levels, key);
      TakeWhole(whole, made, gone, id, side, askPrice, remaining, levels);
    } else {
      gone' := gone;
      book.asks.levels := book.asks.levels[key := queue[0 := queue[0].(qty := frontQty - fillQty)]];
      TakePart(whole, made, gone, id, side, askPrice, remaining, levels);
    }
  }

  // Works through the FIFO queue at the best bid price. Ends with nothing left to
  // fill or with the level deleted, so the outer loop makes progress.
  method FillAgainstBid(book: OrderBook, id: OrderId, side: Side, bidPrice: Price, want: U64, done: seq<FillEvent>)
    returns (fills: seq<FillEvent>, remaining: U64)
    requires book.Valid() && side == Sell
    requires book.bids.levels.Keys != {} && LeastKey(book.bids.levels) == U64_MAX - bidPrice
    modifies book`cancelIndex, book.bids
    ensures book.Valid()
    ensures var w := R.Swept(old(book.Contents()), id, side, Some(bidPrice), want);
            && fills == done + w.fills && remaining == w.remaining
            && book.Contents() == R.Take(old(book.Contents()), side, w)
    ensures remaining == 0 || U64_MAX - bidPrice !in book.bids.levels
    ensures |book.bids.Flat()| <= old(|book.bids.Flat()|)
    ensures remaining != 0 ==> |book.bids.Flat()| < old(|book.bids.Flat()|)
  {
    var key := U64_MAX - bidPrice;
    ghost var before := book.Contents();
    ghost var whole := R.Swept(before, id, side, Some(bidPrice), want);
    ghost var made, gone := [], {};
    fills, remaining := done, want;
    Start(id, side, bidPrice, want, book.bids.levels);
    assert before.index - {} == before.index;
    while remaining != 0
      invariant fills == done + made && book.cancelIndex == before.index - gone
      invariant Underway(whole, made, gone, id, side, bidPrice, remaining, book.bids.levels)
      invariant forall k :: k in book.bids.levels ==> key <= k
      decreases |QueueAt(book.bids.levels, key)|, remaining
    {
      if key !in book.bids.levels {
        break;
      }
      var fill;
      fill, gone := TakeFrontBid(book, id, side, bidPrice, remaining, before.index, whole, made, gone);
      fills := fills + [fill];
      made := made + [fill];
      remaining := remaining - fill.qty;
    }
    Finish(whole, made, gone, id, side, bidPrice, remaining, book.bids.levels);
    ShorterAfter(before, id, side, bidPrice, want, old(book.bids.levels));
  }

  // One round of the loop above: trade with the front order, and take it out
  // of queue and index when it is used up.
  method TakeFrontBid(book: OrderBook, id: OrderId, side: Side, bidPrice: Price, remaining: U64,
                      ghost index: map<OrderId, (Side, Price)>,
                      ghost whole: SweepResult, ghost made: seq<FillEvent>, ghost gone: set<OrderId>)
    returns (fill: FillEvent, ghost gone': set<OrderId>)
    requires book.bids != book.asks && side == Sell && remaining != 0
    requires Underway(whole, made, gone, id, side, bidPrice, remaining, book.bids.levels)
    requires book.cancelIndex == index - gone
    requires U64_MAX - bidPrice in book.bids.levels
    requires forall k :: k in book.bids.levels ==> U64_MAX - bidPrice <= k
    modifies book`cancelIndex, book.bids
    ensures fill.qty <= remaining
    ensures Underway(whole, made + [fill], gone', id, side, bidPrice, remaining - fill.qty, book.bids.levels)
    ensures book.cancelIndex == index - gone'
    ensures forall k :: k in book.bids.levels ==> U64_MAX - bidPrice <= k
    ensures var queue, queue' := old(QueueAt(book.bids.levels, U64_MAX - bidPrice)), QueueAt(book.bids.levels, U64_MAX - bidPrice);
            |queue'| < |queue| || (|queue'| == |queue| && fill.qty == remaining)
  {
    var key := U64_MAX - bidPrice;
    ghost var levels := book.bids.levels;
    LeastIs(levels, key);
    var queue := book.bids.levels[key];
    assert FiledAt(Buy, key, queue);
    var frontQty := queue[0].qty;
    var fillQty := if remaining <= frontQty then remaining else frontQty;
    var restingId := queue[0].id;
    fill := FillEvent(id, restingId, bidPrice, fillQty, side);
    if fillQty == frontQty {
      gone' := gone + {restingId};
      assert index - gone - {restingId} == index - gone';
      book.cancelIndex := book.cancelIndex - {restingId};
      queue := queue[1..];
      book.bids.levels := if queue == [] then book.bids.levels - {key} else book.bids.levels[key := queue];
      assert book.bids.levels == PopFront(levels, key);
      TakeWhole(whole, made, gone, id, side, bidPrice, remaining, levels);
    } else {
      gone' := gone;
      book.bids.levels := book.bids.levels[key := queue[0 := queue[0].(qty := frontQty - fillQty)]];
      TakePart(whole, made, gone, id, side, bidPrice, remaining, levels);
    }
  }
}
