/** The mutable two-sided book: sorted price levels of FIFO queues and a cancel index. */
module OrderBooks {
  import opened Wrappers
  import opened RmeTypes
  import opened PriorityList
  import opened PriceLevels
  import R = ReferenceEngine

  class BookSide {
    ghost const side: Side
    var levels: Levels

    ghost predicate Valid()
      reads this
    {
      Filed(side, levels)
    }

    ghost function Flat(): seq<Order>
      reads this
    {
      Flatten(levels)
    }

    constructor (ghost side: Side)
      ensures Valid() && Flat() == [] && this.side == side
    {
      this.side := side;
      levels := map[];
    }

    // Appends the order to the queue at `key`.
    method Insert(key: U64, order: Order)
      requires Valid() && order.side == side && key == Key(side, order.price)
      modifies this
      ensures Valid() && Flat() == Rest(old(Flat()), order)
    {
      FlattenEnqueue(side, levels, order);
      EnqueueFiled(side, levels, order);
      levels := levels[key := QueueAt(levels, key) + [order]];
    }

    // Takes the first order with this id out of the queue at `key`.
    method Remove(key: U64, id: OrderId, ghost price: Price) returns (found: bool)
      requires Valid() && key == Key(side, price)
      modifies this
      ensures Valid() && Flat() == PriorityList.Remove(old(Flat()), id, price)
      ensures found == Present(old(Flat()), id, price)
    {
      FlattenWithout(side, levels, id, price);
      if key !in levels {
        return false;
      }
      var queue := levels[key];
      assert FiledAt(side, key, queue);
      var pos := 0;
      while pos < |queue| && queue[pos].id != id
        invariant pos <= |queue|
        invariant forall i :: 0 <= i < pos ==> queue[i].id != id
      {
        pos := pos + 1;
      }
      ghost var n := RemoveSplits(queue, id, price);
      if pos == |queue| {
        assert !Present(queue, id, price);
        WithoutNothing(levels, key, id, price);
        return false;
      }
      assert Matches(queue[pos], id, price) && n == pos;
      WithoutFiled(side, levels, key, id, price);
      queue := queue[..pos] + queue[pos + 1..];
      levels := if queue == [] then levels - {key} else levels[key := queue];
      return true;
    }

    // Front order of the best level, with its key.
    method Best() returns (r: Option<(U64, Order)>)
      requires Valid()
      ensures r.None? <==> Flat() == []
      ensures r.Some? ==> r.value.1 == Flat()[0] && r.value.0 == Key(side, Flat()[0].price)
    {
      FlattenOrdered(side, levels);
      if levels.Keys == {} {
        return None;
      }
      var key := LeastKey(levels);
      assert FiledAt(side, key, levels[key]);
      return Some((key, levels[key][0]));
    }

    method PopBest() returns (r: Option<Order>)
      requires Valid()
      modifies this
      ensures Valid()
      ensures old(Flat()) == [] ==> r.None? && Flat() == []
      ensures old(Flat()) != [] ==> r == Some(old(Flat())[0]) && Flat() == old(Flat())[1..]
    {
      FlattenOrdered(side, levels);
      if levels.Keys == {} {
        return None;
      }
      var key := LeastKey(levels);
      FlattenPopFront(side, levels);
      PopFrontFiled(side, levels, key);
      r := Some(levels[key][0]);
      var queue := levels[key][1..];
      levels := if queue == [] then levels - {key} else levels[key := queue];
    }
  }

  class OrderBook {
    const bids: BookSide
    const asks: BookSide
    var cancelIndex: map<OrderId, (Side, Price)>

    ghost predicate Valid()
      reads this, bids, asks
    {
      && bids != asks
      && bids.side == Buy && bids.Valid()
      && asks.side == Sell && asks.Valid()
    }

    // The book as two priority lists.
    ghost function Contents(): R.State
      reads this, bids, asks
    {
      R.State(bids.Flat(), asks.Flat(), cancelIndex)
    }

    constructor ()
      ensures Valid() && fresh(bids) && fresh(asks) && Contents() == R.EMPTY
    {
      bids := new BookSide(Buy);
      asks := new BookSide(Sell);
      cancelIndex := map[];
    }

    // Rests an order without matching it.
    method AddLimit(order: Order)
      requires Valid()
      modifies this, bids, asks
      ensures Valid() && Contents() == R.AddLimit(old(Contents()), order)
    {
      match order.side {
        case Buy =>
          var inv := U64_MAX - order.price;
          FlattenEnqueue(Buy, bids.levels, order);
          EnqueueFiled(Buy, bids.levels, order);
          bids.levels := bids.levels[inv := QueueAt(bids.levels, inv) + [order]];
          cancelIndex := cancelIndex[order.id := (Buy, order.price)];
        case Sell =>
          asks.Insert(order.price, order);
          cancelIndex := cancelIndex[order.id := (Sell, order.price)];
      }
    }

    method Cancel(id: OrderId) returns (found: bool)
      requires Valid()
      modifies this, bids, asks
      ensures Valid() && Contents() == R.Cancel(old(Contents()), id)
      ensures found == R.Cancels(old(Contents()), id)
    {
      if id !in cancelIndex {
        return false;
      }
      var (side, price) := cancelIndex[id];
      cancelIndex := cancelIndex - {id};
      match side {
        case Buy =>
          found := bids.Remove(U64_MAX - price, id, price);
        case Sell =>
          found := asks.Remove(price, id, price);
      }
    }

    method BestBid() returns (r: Option<Price>)
      requires Valid()
      ensures r == if Contents().bids == [] then None else Some(Contents().bids[0].price)
    {
      FlattenOrdered(Buy, bids.levels);
      if bids.levels.Keys == {} {
        return None;
      }
      return Some(U64_MAX - LeastKey(bids.levels));
    }

    method BestAsk() returns (r: Option<Price>)
      requires Valid()
      ensures r == if Contents().asks == [] then None else Some(Contents().asks[0].price)
    {
      FlattenOrdered(Sell, asks.levels);
      if asks.levels.Keys == {} {
        return None;
      }
      return Some(LeastKey(asks.levels));
    }

    method BidQtyAt(price: Price) returns (total: nat)
      requires Valid()
      ensures total == DepthAt(Contents().bids, price)
    {
      DepthOfLevel(Buy, bids.levels, price);
      total := TotalQty(QueueAt(bids.levels, U64_MAX - price));
    }

    method AskQtyAt(price: Price) returns (total: nat)
      requires Valid()
      ensures total == DepthAt(Contents().asks, price)
    {
      DepthOfLevel(Sell, asks.levels, price);
      total := TotalQty(QueueAt(asks.levels, price));
    }

    method IsEmpty() returns (empty: bool)
      requires Valid()
      ensures empty <==> Contents().bids == [] && Contents().asks == []
    {
      FlattenOrdered(Buy, bids.levels);
      FlattenOrdered(Sell, asks.levels);
      empty := bids.levels.Keys == {} && asks.levels.Keys == {};
    }
  }
}
