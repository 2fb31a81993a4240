/** The entry point of the reference matching engine and its book snapshot. */
module Engine {
  import opened RmeTypes
  import opened PriorityList
  import opened PriceLevels
  import opened OrderBooks
  import Matching
  import R = ReferenceEngine
  import Safety
  import RunLaws

  ghost predicate Occupied(queue: seq<Order>, price: Price) {
    exists i :: 0 <= i < |queue| && queue[i].price == price
  }

  // The map has exactly the occupied prices, each with the quantity resting there.
  ghost predicate Depicts(depth: map<Price, nat>, queue: seq<Order>) {
    && (forall p :: p in depth <==> Occupied(queue, p))
    && (forall p :: p in depth ==> depth[p] == DepthAt(queue, p))
  }

  lemma {:induction false} OccupiedLevel(side: Side, levels: Levels, price: Price)
    requires Filed(side, levels)
    ensures Occupied(Flatten(levels), price) <==> Key(side, price) in levels
    decreases |levels.Keys|
  {
    FlattenOrdered(side, levels);
    if levels.Keys != {} {
      var m := LeastKey(levels);
      var others := levels - {m};
      assert others.Keys == levels.Keys - {m};
      assert FiledAt(side, m, levels[m]);
      OccupiedLevel(side, others, price);
      var flat := Flatten(levels);
      if Key(side, price) == m {
        assert flat[0].price == price;
      } else if i :| 0 <= i < |Flatten(others)| && Flatten(others)[i].price == price {
        assert flat[|levels[m]| + i].price == price;
      }
    }
  }

  method SideSnapshot(side: Side, levels: Levels) returns (depth: map<Price, nat>)
    requires Filed(side, levels)
    ensures Depicts(depth, Flatten(levels))
  {
    depth := map[];
    var keys := levels.Keys;
    while keys != {}
      invariant keys <= levels.Keys
      invariant forall p: Price :: p in depth <==> Key(side, p) in levels.Keys - keys
      invariant forall p: Price :: p in depth ==> depth[p] == TotalQty(levels[Key(side, p)])
      decreases |keys|
    {
      var key :| key in keys;
      var price := if side.Buy? then U64_MAX - key else key;
      depth := depth[price := TotalQty(levels[key])];
      keys := keys - {key};
    }
    forall p: Price
      ensures p in depth <==> Occupied(Flatten(levels), p)
      ensures p in depth ==> depth[p] == DepthAt(Flatten(levels), p)
    {
      OccupiedLevel(side, levels, p);
      DepthOfLevel(side, levels, p);
    }
  }

  method BuildSnapshot(book: OrderBook) returns (snapshot: FinalBookSnapshot)
    requires book.Valid()
    ensures Depicts(snapshot.bids, book.Contents().bids)
    ensures Depicts(snapshot.asks, book.Contents().asks)
  {
    var bids := SideSnapshot(Buy, book.bids.levels);
    var asks := SideSnapshot(Sell, book.asks.levels);
    snapshot := FinalBookSnapshot(bids, asks);
  }

  lemma {:induction false} DepthPositive(queue: seq<Order>, price: Price)
    requires Positive(queue) && Occupied(queue, price)
    ensures DepthAt(queue, price) > 0
  {
    if queue[0].price != price {
      var i :| 0 <= i < |queue| && queue[i].price == price;
      assert queue[1..][i - 1].price == price;
      DepthPositive(queue[1..], price);
    }
  }

  // The result the specification gives for these events.
  ghost predicate IsResult(orders: seq<OrderEvent>, r: MatchResult) {
    var o := R.Run(R.EMPTY, orders);
    && r.fills == o.fills
    && r.rejections == o.rejections
    && Depicts(r.finalBook.bids, o.state.bids)
    && Depicts(r.finalBook.asks, o.state.asks)
  }

  // There is only one: equal inputs give identical results, snapshot included.
  lemma ResultIsDetermined(orders: seq<OrderEvent>, a: MatchResult, b: MatchResult)
    requires IsResult(orders, a) && IsResult(orders, b)
    ensures a == b
  {
    var s := R.Run(R.EMPTY, orders).state;
    SameDepth(a.finalBook.bids, b.finalBook.bids, s.bids);
    SameDepth(a.finalBook.asks, b.finalBook.asks, s.asks);
  }

  lemma SameDepth(a: map<Price, nat>, b: map<Price, nat>, queue: seq<Order>)
    requires Depicts(a, queue) && Depicts(b, queue)
    ensures a == b
  {
    assert a.Keys == b.Keys;
  }

  // Fill k was reported by an event whose order is its aggressor; the fills of
  // that event stand behind all fills of earlier events.
  ghost predicate Traced(orders: seq<OrderEvent>, k: nat, fill: FillEvent) {
    exists n :: 0 <= n < |orders| && RunLaws.FilledAt(orders, n, k, fill)
  }

  lemma ResultIsTraced(orders: seq<OrderEvent>, r: MatchResult)
    requires IsResult(orders, r)
    ensures forall n :: 0 <= n <= |orders| ==>
              RunLaws.Report(orders, n).fills <= r.fills && RunLaws.Report(orders, n).rejections <= r.rejections
    ensures forall k :: 0 <= k < |r.fills| ==> Traced(orders, k, r.fills[k])
  {
    assert orders[..|orders|] == orders;
    forall n | 0 <= n <= |orders|
      ensures RunLaws.Report(orders, n).fills <= r.fills && RunLaws.Report(orders, n).rejections <= r.rejections
    {
      RunLaws.ReportsGrow(orders, n, |orders|);
    }
    forall k | 0 <= k < |r.fills| ensures Traced(orders, k, r.fills[k]) {
      var n := RunLaws.EveryFillHasItsEvent(orders, |orders|, k);
    }
  }

  // Runs the events in order from an empty book, and reports fills and
  // rejections in that order. The final book is not crossed and has no empty level.
  method RunMatchingEngine(orders: seq<OrderEvent>) returns (r: MatchResult)
    ensures IsResult(orders, r)
    ensures forall p, q :: p in r.finalBook.bids && q in r.finalBook.asks ==> p < q
    ensures forall p :: p in r.finalBook.bids ==> r.finalBook.bids[p] > 0
    ensures forall p :: p in r.finalBook.asks ==> r.finalBook.asks[p] > 0
    ensures forall n :: 0 <= n <= |orders| ==>
              RunLaws.Report(orders, n).fills <= r.fills && RunLaws.Report(orders, n).rejections <= r.rejections
    ensures forall k :: 0 <= k < |r.fills| ==> Traced(orders, k, r.fills[k])
  {
    var book := new OrderBook();
    var fills, rejections := [], [];
    var i := 0;
    ghost var all := R.Run(R.EMPTY, orders);
    assert orders[0..] == orders;
    assert [] + all.fills == all.fills && [] + all.rejections == all.rejections;
    while i < |orders|
      invariant i <= |orders|
      invariant book.Valid() && fresh(book) && fresh(book.bids) && fresh(book.asks)
      invariant all == R.Then(R.Outcome(book.Contents(), fills, rejections), R.Run(book.Contents(), orders[i..]))
    {
      ghost var before, rest := R.Outcome(book.Contents(), fills, rejections), orders[i + 1..];
      var newFills, newRejects := Matching.MatchOrder(book, orders[i]);
      R.ThenAssoc(before, R.Outcome(book.Contents(), newFills, newRejects), R.Run(book.Contents(), rest));
      assert orders[i..][1..] == rest;
      fills := fills + newFills;
      rejections := rejections + newRejects;
      i := i + 1;
    }
    assert orders[i..] == [];
    assert fills + [] == fills && rejections + [] == rejections;
    var finalBook := BuildSnapshot(book);
    r := MatchResult(fills, rejections, finalBook);
    FinalBookIsSafe(orders, finalBook);
    ResultIsTraced(orders, r);
  }

  lemma FinalBookIsSafe(orders: seq<OrderEvent>, snapshot: FinalBookSnapshot)
    requires var s := R.Run(R.EMPTY, orders).state;
             Depicts(snapshot.bids, s.bids) && Depicts(snapshot.asks, s.asks)
    ensures forall p, q :: p in snapshot.bids && q in snapshot.asks ==> p < q
    ensures forall p :: p in snapshot.bids ==> snapshot.bids[p] > 0
    ensures forall p :: p in snapshot.asks ==> snapshot.asks[p] > 0
  {
    var s := R.Run(R.EMPTY, orders).state;
    Safety.RunIsSafe(R.EMPTY, orders);
    forall p, q | p in snapshot.bids && q in snapshot.asks ensures p < q {
      BestBelow(orders, s, p, q);
    }
    forall p | p in snapshot.bids ensures snapshot.bids[p] > 0 { DepthPositive(s.bids, p); }
    forall p | p in snapshot.asks ensures snapshot.asks[p] > 0 { DepthPositive(s.asks, p); }
  }

  lemma BestBelow(orders: seq<OrderEvent>, s: R.State, p: Price, q: Price)
    requires s == R.Run(R.EMPTY, orders).state
    requires exists i :: 0 <= i < |s.bids| && s.bids[i].price == p
    requires exists j :: 0 <= j < |s.asks| && s.asks[j].price == q
    ensures p < q
  {
    assert orders[..|orders|] == orders;
    var i :| 0 <= i < |s.bids| && s.bids[i].price == p;
    var j :| 0 <= j < |s.asks| && s.asks[j].price == q;
    Safety.NeverCrossed(orders, |orders|, s.bids[i], s.asks[j]);
  }
}
