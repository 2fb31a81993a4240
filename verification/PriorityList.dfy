/** One side of the book as a single list, best order first. This is the
    specification the two-level book is proved against. */
module PriorityList {
  import opened Wrappers
  import opened RmeTypes

  // A resting order at price p is strictly preferred to one at price q.
  predicate Better(side: Side, p: Price, q: Price) {
    if side.Buy? then p > q else p < q
  }

  // An incoming order on `side` may trade at `price`; a market order has no limit.
  predicate Accepts(side: Side, limit: Option<Price>, price: Price) {
    match limit
    case None => true
    case Some(l) => if side.Buy? then price <= l else price >= l
  }

  // Best price first. Orders at one price stand in arrival order.
  ghost predicate Sorted(side: Side, queue: seq<Order>) {
    && (forall i :: 0 <= i < |queue| ==> queue[i].side == side)
    && (forall i, j :: 0 <= i < j < |queue| ==> !Better(side, queue[j].price, queue[i].price))
  }

  ghost predicate Positive(queue: seq<Order>) {
    forall i :: 0 <= i < |queue| ==> queue[i].qty > 0
  }

  function TotalQty(queue: seq<Order>): nat {
    if queue == [] then 0 else queue[0].qty + TotalQty(queue[1..])
  }

  // Quantity resting at exactly one price.
  function DepthAt(queue: seq<Order>, price: Price): nat {
    if queue == [] then 0
    else (if queue[0].price == price then queue[0].qty else 0) + DepthAt(queue[1..], price)
  }

  // Quantity that an incoming order on `side` may take, wherever it stands in the list.
  function Available(side: Side, limit: Option<Price>, queue: seq<Order>): nat {
    if queue == [] then 0
    else (if Accepts(side, limit, queue[0].price) then queue[0].qty else 0) + Available(side, limit, queue[1..])
  }

  function Filled(fills: seq<FillEvent>): nat {
    if fills == [] then 0 else fills[0].qty + Filled(fills[1..])
  }

  function IdsOf(queue: seq<Order>): set<OrderId> {
    set o | o in queue :: o.id
  }

  // ---------------------------------------------------------------- insertion

  // The order is placed in front of the first order it beats.
  function Rest(queue: seq<Order>, o: Order): seq<Order> {
    if queue == [] || Better(o.side, o.price, queue[0].price) then [o] + queue
    else [queue[0]] + Rest(queue[1..], o)
  }

  // Position of the new order: behind everything at least as good, ahead of everything worse.
  function Ahead(queue: seq<Order>, o: Order): (n: nat)
    ensures n <= |queue|
  {
    if queue == [] || Better(o.side, o.price, queue[0].price) then 0 else 1 + Ahead(queue[1..], o)
  }

  lemma RestSplits(queue: seq<Order>, o: Order)
    requires Sorted(o.side, queue)
    ensures var n := Ahead(queue, o);
            && Rest(queue, o) == queue[..n] + [o] + queue[n..]
            && (forall i :: 0 <= i < n ==> !Better(o.side, o.price, queue[i].price))
            && (forall i :: n <= i < |queue| ==> Better(o.side, o.price, queue[i].price))
    ensures Sorted(o.side, Rest(queue, o))
  {
    AheadSplits(queue, o);
    AheadIsBetter(queue, o);
    InsertKeepsOrder(queue, Ahead(queue, o), o);
  }

  lemma {:induction false} AheadSplits(queue: seq<Order>, o: Order)
    ensures var n := Ahead(queue, o); Rest(queue, o) == queue[..n] + [o] + queue[n..]
  {
    if queue != [] && !Better(o.side, o.price, queue[0].price) {
      var tail, n := queue[1..], Ahead(queue, o);
      AheadSplits(tail, o);
      assert [queue[0]] + (tail[..n - 1] + [o] + tail[n - 1..]) == queue[..n] + [o] + queue[n..];
    }
  }

  lemma {:induction false} AheadIsBetter(queue: seq<Order>, o: Order)
    requires Sorted(o.side, queue)
    ensures forall i :: 0 <= i < |queue| ==> (Better(o.side, o.price, queue[i].price) <==> Ahead(queue, o) <= i)
  {
    if queue != [] {
      AheadIsBetter(queue[1..], o);
      forall i | 0 <= i < |queue| ensures Better(o.side, o.price, queue[i].price) <==> Ahead(queue, o) <= i {
        if i > 0 {
          assert queue[i] == queue[1..][i - 1] && !Better(o.side, queue[i].price, queue[0].price);
        }
      }
    }
  }

  lemma InsertKeepsOrder(queue: seq<Order>, n: nat, o: Order)
    requires n <= |queue| && Sorted(o.side, queue)
    requires forall i :: 0 <= i < n ==> !Better(o.side, o.price, queue[i].price)
    requires forall i :: n <= i < |queue| ==> Better(o.side, o.price, queue[i].price)
    ensures Sorted(o.side, queue[..n] + [o] + queue[n..])
  {
  }

  lemma {:induction false} RestSkips(front: seq<Order>, back: seq<Order>, o: Order)
    requires forall i :: 0 <= i < |front| ==> !Better(o.side, o.price, front[i].price)
    ensures Rest(front + back, o) == front + Rest(back, o)
  {
    if front == [] {
      assert front + back == back;
    } else {
      RestSkips(front[1..], back, o);
      assert (front + back)[1..] == front[1..] + back;
    }
  }

  // ------------------------------------------------------------------ removal

  predicate Matches(o: Order, id: OrderId, price: Price) {
    o.id == id && o.price == price
  }

  // Drops the first order with this id at this price, if there is one.
  function Remove(queue: seq<Order>, id: OrderId, price: Price): seq<Order> {
    if queue == [] then []
    else if Matches(queue[0], id, price) then queue[1..]
    else [queue[0]] + Remove(queue[1..], id, price)
  }

  predicate Present(queue: seq<Order>, id: OrderId, price: Price) {
    exists i :: 0 <= i < |queue| && Matches(queue[i], id, price)
  }

  lemma {:induction false} RemoveSkips(front: seq<Order>, back: seq<Order>, id: OrderId, price: Price)
    requires !Present(front, id, price)
    ensures Remove(front + back, id, price) == front + Remove(back, id, price)
  {
    if front == [] {
      assert front + back == back;
    } else {
      var tail := front[1..];
      forall i | 0 <= i < |tail| ensures !Matches(tail[i], id, price) {
        assert !Matches(front[i + 1], id, price);
      }
      RemoveSkips(tail, back, id, price);
      assert (front + back)[1..] == tail + back;
      assert [front[0]] + (tail + Remove(back, id, price)) == front + Remove(back, id, price);
    }
  }

  // Removal takes out one position and nothing else.
  lemma {:induction false} RemoveSplits(queue: seq<Order>, id: OrderId, price: Price) returns (n: nat)
    ensures n <= |queue|
    ensures n == |queue| <==> !Present(queue, id, price)
    ensures n == |queue| ==> Remove(queue, id, price) == queue
    ensures n < |queue| ==> Matches(queue[n], id, price) && Remove(queue, id, price) == queue[..n] + queue[n + 1..]
    ensures forall i :: 0 <= i < n ==> !Matches(queue[i], id, price)
  {
    if queue == [] {
      n := 0;
    } else if Matches(queue[0], id, price) {
      n := 0;
    } else {
      var k := RemoveSplits(queue[1..], id, price);
      n := k + 1;
      forall i | 0 <= i < n ensures !Matches(queue[i], id, price) {
        if i > 0 { assert !Matches(queue[1..][i - 1], id, price); }
      }
      if n < |queue| {
        assert Matches(queue[n], id, price);
        DropBehindHead(queue, n);
      }
    }
  }

  lemma DropBehindHead(queue: seq<Order>, n: nat)
    requires 0 < n < |queue|
    ensures var tail := queue[1..];
            [queue[0]] + (tail[..n - 1] + tail[n..]) == queue[..n] + queue[n + 1..]
  {
  }

  // -------------------------------------------------------------- consumption

  datatype SweepResult =
    SweepResult(fills: seq<FillEvent>, rest: seq<Order>, remaining: U64, gone: set<OrderId>)

  // Takes orders from the head of the list while the incoming order wants
  // more and accepts the price. `gone` are the ids of orders used up.
  function Sweep(id: OrderId, side: Side, limit: Option<Price>, qty: U64, queue: seq<Order>): SweepResult
    decreases |queue|
  {
    if qty == 0 || queue == [] || !Accepts(side, limit, queue[0].price) then
      SweepResult([], queue, qty, {})
    else if queue[0].qty <= qty then
      Resume([FillOf(id, side, queue[0], queue[0].qty)], {queue[0].id},
             Sweep(id, side, limit, qty - queue[0].qty, queue[1..]))
    else
      SweepResult([FillOf(id, side, queue[0], qty)], [queue[0].(qty := queue[0].qty - qty)] + queue[1..], 0, {})
  }

  function FillOf(id: OrderId, side: Side, resting: Order, qty: U64): FillEvent {
    FillEvent(id, resting.id, resting.price, qty, side)
  }

  // What was done before, followed by the rest of the work.
  function Resume(fills: seq<FillEvent>, gone: set<OrderId>, w: SweepResult): SweepResult {
    w.(fills := fills + w.fills, gone := gone + w.gone)
  }

  lemma ResumeAssoc(f: seq<FillEvent>, g: set<OrderId>, f': seq<FillEvent>, g': set<OrderId>, w: SweepResult)
    ensures Resume(f, g, Resume(f', g', w)) == Resume(f + f', g + g', w)
    ensures Resume([], {}, w) == w
  {
    assert f + (f' + w.fills) == (f + f') + w.fills;
    assert g + (g' + w.gone) == (g + g') + w.gone;
    assert [] + w.fills == w.fills;
    assert {} + w.gone == w.gone;
  }

  ghost predicate Tighter(side: Side, inner: Option<Price>, outer: Option<Price>) {
    forall p: Price :: Accepts(side, inner, p) ==> Accepts(side, outer, p)
  }

  // Sweeping to a tighter limit first and then on to the wider one is one sweep.
  lemma {:induction false} SweepInStages(id: OrderId, side: Side, inner: Option<Price>, outer: Option<Price>,
                                         qty: U64, queue: seq<Order>)
    requires Tighter(side, inner, outer)
    ensures var w := Sweep(id, side, inner, qty, queue);
            Sweep(id, side, outer, qty, queue)
            == Resume(w.fills, w.gone, Sweep(id, side, outer, w.remaining, w.rest))
    decreases |queue|
  {
    var w := Sweep(id, side, inner, qty, queue);
    if qty == 0 || queue == [] || !Accepts(side, inner, queue[0].price) {
      ResumeAssoc([], {}, [], {}, Sweep(id, side, outer, qty, queue));
    } else if queue[0].qty <= qty {
      assert Accepts(side, outer, queue[0].price);
      var left := qty - queue[0].qty;
      SweepInStages(id, side, inner, outer, left, queue[1..]);
      var w1 := Sweep(id, side, inner, left, queue[1..]);
      ResumeAssoc([FillOf(id, side, queue[0], queue[0].qty)], {queue[0].id},
                  w1.fills, w1.gone, Sweep(id, side, outer, w1.remaining, w1.rest));
    } else {
      assert Accepts(side, outer, queue[0].price);
      var v := Sweep(id, side, outer, 0, w.rest);
      assert v == SweepResult([], w.rest, 0, {});
      assert w.fills + v.fills == w.fills;
      assert w.gone + v.gone == w.gone;
    }
  }
}
