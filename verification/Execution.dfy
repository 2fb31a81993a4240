/** What one incoming order does to the opposite side: which orders it takes,
    how much of each, at what prices, and that it could not take more. */
module Execution {
  import opened Wrappers
  import opened RmeTypes
  import opened PriorityList

  // Number of orders a sweep uses up.
  function Used(w: SweepResult, queue: seq<Order>): int {
    |queue| - |w.rest|
  }

  // A sweep takes a prefix of the list whole, in order, and possibly a part of
  // the next order; the rest of the list is untouched.
  ghost predicate TakesPrefix(id: OrderId, side: Side, queue: seq<Order>, w: SweepResult) {
    var n := Used(w, queue);
    && 0 <= n
    && w.gone == IdsOf(queue[..n])
    && n <= |w.fills| <= n + 1
    && (forall i :: 0 <= i < n ==> w.fills[i] == FillOf(id, side, queue[i], queue[i].qty))
    && if |w.fills| == n then w.rest == queue[n..] else TakesPart(id, side, queue[n..], w, w.fills[n])
  }

  ghost predicate TakesPart(id: OrderId, side: Side, queue: seq<Order>, w: SweepResult, last: FillEvent) {
    && queue != []
    && 0 < last.qty < queue[0].qty
    && last == FillOf(id, side, queue[0], last.qty)
    && w.rest == [queue[0].(qty := queue[0].qty - last.qty)] + queue[1..]
    && w.remaining == 0
  }

  lemma {:induction false} SweepTakesPrefix(id: OrderId, side: Side, limit: Option<Price>, qty: U64, queue: seq<Order>)
    ensures TakesPrefix(id, side, queue, Sweep(id, side, limit, qty, queue))
    decreases |queue|
  {
    if qty == 0 || queue == [] || !Accepts(side, limit, queue[0].price) {
      TakesNothing(id, side, queue, qty);
    } else if queue[0].qty <= qty {
      SweepTakesPrefix(id, side, limit, qty - queue[0].qty, queue[1..]);
      TakesOneMore(id, side, queue, Sweep(id, side, limit, qty - queue[0].qty, queue[1..]));
    } else {
      assert queue[0..] == queue;
      assert IdsOf(queue[..0]) == {};
    }
  }

  lemma TakesNothing(id: OrderId, side: Side, queue: seq<Order>, qty: U64)
    ensures TakesPrefix(id, side, queue, SweepResult([], queue, qty, {}))
  {
    assert queue[0..] == queue;
    assert IdsOf(queue[..0]) == {};
  }

  lemma IdsOfCons(o: Order, queue: seq<Order>)
    ensures IdsOf([o] + queue) == {o.id} + IdsOf(queue)
  {
    assert forall x :: x in [o] + queue <==> x == o || x in queue;
  }

  lemma TakesOneMore(id: OrderId, side: Side, queue: seq<Order>, v: SweepResult)
    requires queue != [] && TakesPrefix(id, side, queue[1..], v)
    ensures TakesPrefix(id, side, queue, Resume([FillOf(id, side, queue[0], queue[0].qty)], {queue[0].id}, v))
  {
    var n := Used(v, queue[1..]);
    var w := Resume([FillOf(id, side, queue[0], queue[0].qty)], {queue[0].id}, v);
    assert queue[1..][n..] == queue[n + 1..];
    assert w.gone == IdsOf(queue[..n + 1]) by {
      assert queue[..n + 1] == [queue[0]] + queue[1..][..n];
      IdsOfCons(queue[0], queue[1..][..n]);
    }
    forall i | 0 <= i < n + 1 ensures w.fills[i] == FillOf(id, side, queue[i], queue[i].qty) {
      if i > 0 { assert w.fills[i] == v.fills[i - 1]; }
    }
    if |v.fills| == n + 1 {
      assert w.fills[n + 1] == v.fills[n];
    }
  }

  // Every fill is at an acceptable price, and an order that is not filled has
  // met an empty list or an unacceptable price.
  lemma {:induction false} SweepStopsRight(id: OrderId, side: Side, limit: Option<Price>, qty: U64, queue: seq<Order>)
    ensures var w := Sweep(id, side, limit, qty, queue);
            && (forall i :: 0 <= i < |w.fills| ==> Accepts(side, limit, w.fills[i].price))
            && (w.remaining > 0 ==> w.rest == [] || !Accepts(side, limit, w.rest[0].price))
    decreases |queue|
  {
    if qty == 0 || queue == [] || !Accepts(side, limit, queue[0].price) {
    } else if queue[0].qty <= qty {
      SweepStopsRight(id, side, limit, qty - queue[0].qty, queue[1..]);
    } else {
    }
  }

  lemma {:induction false} SweepConserves(id: OrderId, side: Side, limit: Option<Price>, qty: U64, queue: seq<Order>)
    ensures var w := Sweep(id, side, limit, qty, queue);
            && Filled(w.fills) + w.remaining == qty
            && TotalQty(w.rest) + Filled(w.fills) == TotalQty(queue)
    decreases |queue|
  {
    var w := Sweep(id, side, limit, qty, queue);
    if qty == 0 || queue == [] || !Accepts(side, limit, queue[0].price) {
    } else if queue[0].qty <= qty {
      SweepConserves(id, side, limit, qty - queue[0].qty, queue[1..]);
      var v := Sweep(id, side, limit, qty - queue[0].qty, queue[1..]);
      assert w.fills[1..] == v.fills;
    } else {
      assert w.fills[1..] == [];
      assert w.rest[1..] == queue[1..];
    }
  }

  lemma {:induction false} NothingAvailable(side: Side, limit: Option<Price>, queue: seq<Order>)
    requires Sorted(side.Flip(), queue)
    requires queue == [] || !Accepts(side, limit, queue[0].price)
    ensures Available(side, limit, queue) == 0
    ensures forall i :: 0 <= i < |queue| ==> !Accepts(side, limit, queue[i].price)
  {
    if queue != [] {
      if |queue| > 1 { assert !Better(side.Flip(), queue[1].price, queue[0].price); }
      NothingAvailable(side, limit, queue[1..]);
      forall i | 0 <= i < |queue| ensures !Accepts(side, limit, queue[i].price) {
        if i > 0 { assert !Accepts(side, limit, queue[1..][i - 1].price); }
      }
    }
  }

  // The order trades as much as the acceptable part of the whole side allows.
  lemma {:induction false} SweepIsMaximal(id: OrderId, side: Side, limit: Option<Price>, qty: U64, queue: seq<Order>)
    requires Sorted(side.Flip(), queue)
    ensures var w := Sweep(id, side, limit, qty, queue);
            var there := Available(side, limit, queue);
            && Filled(w.fills) == (if qty <= there then qty else there)
            && w.remaining == (if qty <= there then 0 else qty - there)
    decreases |queue|
  {
    var w := Sweep(id, side, limit, qty, queue);
    if qty == 0 {
    } else if queue == [] || !Accepts(side, limit, queue[0].price) {
      NothingAvailable(side, limit, queue);
    } else if queue[0].qty <= qty {
      SweepIsMaximal(id, side, limit, qty - queue[0].qty, queue[1..]);
      var v := Sweep(id, side, limit, qty - queue[0].qty, queue[1..]);
      assert w.fills[1..] == v.fills;
    } else {
      assert w.fills[1..] == [];
    }
  }

  lemma {:induction false} MarketTakesAll(side: Side, queue: seq<Order>)
    ensures Available(side, None, queue) == TotalQty(queue)
  {
    if queue != [] { MarketTakesAll(side, queue[1..]); }
  }

  // What stays in the list is its tail, unchanged but for the first quantity.
  ghost predicate LeavesTail(queue: seq<Order>, w: SweepResult) {
    var n := Used(w, queue);
    && 0 <= n
    && (forall i :: 0 <= i < |w.rest| ==> w.rest[i] == queue[n + i].(qty := w.rest[i].qty))
    && (forall i :: 0 < i < |w.rest| ==> w.rest[i] == queue[n + i])
    && (w.rest != [] && queue[n].qty > 0 ==> w.rest[0].qty > 0)
    && (w.remaining > 0 ==> w.rest == queue[n..])
  }

  lemma SweepLeavesTail(id: OrderId, side: Side, limit: Option<Price>, qty: U64, queue: seq<Order>)
    ensures LeavesTail(queue, Sweep(id, side, limit, qty, queue))
  {
    SweepTakesPrefix(id, side, limit, qty, queue);
    PrefixLeavesTail(id, side, queue, Sweep(id, side, limit, qty, queue));
  }

  lemma PrefixLeavesTail(id: OrderId, side: Side, queue: seq<Order>, w: SweepResult)
    requires TakesPrefix(id, side, queue, w)
    ensures LeavesTail(queue, w)
  {
    var n := Used(w, queue);
    SameButFirst(id, side, queue[n..], w, n);
    forall i | 0 <= i < |w.rest|
      ensures w.rest[i] == queue[n + i].(qty := w.rest[i].qty) && (i > 0 ==> w.rest[i] == queue[n + i])
    {
      assert queue[n..][i] == queue[n + i];
    }
  }

  lemma SameButFirst(id: OrderId, side: Side, tail: seq<Order>, w: SweepResult, n: nat)
    requires n <= |w.fills| <= n + 1
    requires if |w.fills| == n then w.rest == tail else TakesPart(id, side, tail, w, w.fills[n])
    ensures |w.rest| == |tail|
    ensures forall i :: 0 < i < |tail| ==> w.rest[i] == tail[i]
    ensures tail != [] ==> w.rest[0] == tail[0].(qty := w.rest[0].qty)
    ensures tail != [] && tail[0].qty > 0 ==> w.rest[0].qty > 0
    ensures w.remaining > 0 ==> w.rest == tail
  {
  }

  // What a fill of an order reports, field by field.
  ghost predicate Reports(fill: FillEvent, id: OrderId, side: Side, resting: Order) {
    && fill.aggressorId == id && fill.aggressorSide == side
    && fill.restingId == resting.id && fill.price == resting.price
    && 0 < fill.qty <= resting.qty
  }

  predicate WithinLimit(side: Side, limit: Option<Price>, price: Price) {
    limit.Some? ==> if side.Buy? then price <= limit.value else price >= limit.value
  }

  lemma AcceptsIs(side: Side, limit: Option<Price>, price: Price)
    ensures Accepts(side, limit, price) <==> WithinLimit(side, limit, price)
  {
  }

  // Fills hit the list from its head, one order each, at the resting price and
  // within the limit, and use up every order but the last. Prices never improve.
  ghost predicate FillsFollow(id: OrderId, side: Side, limit: Option<Price>, queue: seq<Order>, fills: seq<FillEvent>) {
    && |fills| <= |queue|
    && (forall i :: 0 <= i < |fills| ==>
          && Reports(fills[i], id, side, queue[i])
          && WithinLimit(side, limit, fills[i].price)
          && (i + 1 < |fills| ==> fills[i].qty == queue[i].qty))
    && (forall i, j :: 0 <= i < j < |fills| ==>
          if side.Buy? then fills[i].price <= fills[j].price else fills[i].price >= fills[j].price)
  }

  // The list afterwards: orders filled in full are gone, the one filled in part
  // has that much less, and all others are as they were.
  ghost predicate Leaves(queue: seq<Order>, fills: seq<FillEvent>, rest: seq<Order>) {
    var n := |queue| - |rest|;
    && 0 <= n <= |fills| <= n + 1
    && (forall i :: 0 <= i < n ==> fills[i].qty == queue[i].qty)
    && if |fills| == n then rest == queue[n..]
       else n < |queue| && fills[n].qty < queue[n].qty
            && rest == [queue[n].(qty := queue[n].qty - fills[n].qty)] + queue[n + 1..]
  }

  lemma SweepFillsFollow(id: OrderId, side: Side, limit: Option<Price>, qty: U64, queue: seq<Order>)
    requires Sorted(side.Flip(), queue) && Positive(queue)
    ensures FillsFollow(id, side, limit, queue, Sweep(id, side, limit, qty, queue).fills)
  {
    SweepTakesPrefix(id, side, limit, qty, queue);
    SweepStopsRight(id, side, limit, qty, queue);
    PrefixReports(id, side, queue, Sweep(id, side, limit, qty, queue));
  }

  lemma PrefixReports(id: OrderId, side: Side, queue: seq<Order>, w: SweepResult)
    requires TakesPrefix(id, side, queue, w) && Positive(queue)
    ensures |w.fills| <= |queue|
    ensures forall i :: 0 <= i < |w.fills| ==>
              Reports(w.fills[i], id, side, queue[i]) && (i + 1 < |w.fills| ==> w.fills[i].qty == queue[i].qty)
  {
    var n := Used(w, queue);
    forall i | 0 <= i < |w.fills|
      ensures Reports(w.fills[i], id, side, queue[i]) && (i + 1 < |w.fills| ==> w.fills[i].qty == queue[i].qty)
    {
      if i == n { assert queue[n..][0] == queue[n]; }
    }
  }

  lemma SweepLeaves(id: OrderId, side: Side, limit: Option<Price>, qty: U64, queue: seq<Order>)
    ensures var w := Sweep(id, side, limit, qty, queue);
            Leaves(queue, w.fills, w.rest) && w.gone == IdsOf(queue[..|queue| - |w.rest|])
  {
    SweepTakesPrefix(id, side, limit, qty, queue);
    PrefixLeaves(id, side, queue, Sweep(id, side, limit, qty, queue));
  }

  lemma PrefixLeaves(id: OrderId, side: Side, queue: seq<Order>, w: SweepResult)
    requires TakesPrefix(id, side, queue, w)
    ensures Leaves(queue, w.fills, w.rest)
  {
    var n := Used(w, queue);
    if |w.fills| > n {
      assert queue[n..][0] == queue[n] && queue[n..][1..] == queue[n + 1..];
    }
  }

  // The passage of an order through the opposite side, in all its parts.
  ghost predicate Passes(id: OrderId, side: Side, limit: Option<Price>, qty: U64, queue: seq<Order>,
                         fills: seq<FillEvent>, rest: seq<Order>)
  {
    && Filled(fills) == (if qty <= Available(side, limit, queue) then qty else Available(side, limit, queue))
    && FillsFollow(id, side, limit, queue, fills)
    && Leaves(queue, fills, rest)
  }

  // The ids of the orders used up.
  function UsedUp(queue: seq<Order>, rest: seq<Order>): set<OrderId> {
    if |rest| <= |queue| then IdsOf(queue[..|queue| - |rest|]) else {}
  }

  lemma SweepPasses(id: OrderId, side: Side, limit: Option<Price>, qty: U64, queue: seq<Order>, w: SweepResult)
    requires Sorted(side.Flip(), queue) && Positive(queue) && w == Sweep(id, side, limit, qty, queue)
    ensures Passes(id, side, limit, qty, queue, w.fills, w.rest)
    ensures w.remaining == qty - Filled(w.fills) && w.gone == UsedUp(queue, w.rest)
  {
    SweepIsMaximal(id, side, limit, qty, queue);
    SweepFillsFollow(id, side, limit, qty, queue);
    SweepLeaves(id, side, limit, qty, queue);
  }
}
