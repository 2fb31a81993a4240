/** A sorted map from price key to FIFO queue, read as one priority list.
    Bids are keyed by U64_MAX - price, so the least key is the best price on both sides. */
module PriceLevels {
  import opened RmeTypes
  import opened PriorityList

  type Levels = map<U64, seq<Order>>

  function Key(side: Side, price: Price): U64 {
    if side.Buy? then U64_MAX - price else price
  }

  // A queue that may stand at key k: non-empty, and of this side and this price only.
  ghost predicate FiledAt(side: Side, k: U64, queue: seq<Order>) {
    && queue != []
    && forall i :: 0 <= i < |queue| ==> queue[i].side == side && Key(side, queue[i].price) == k
  }

  ghost predicate Filed(side: Side, levels: Levels) {
    forall k :: k in levels ==> FiledAt(side, k, levels[k])
  }

  ghost predicate IsLeast(k: U64, keys: set<U64>) {
    k in keys && forall k' :: k' in keys ==> k <= k'
  }

  lemma {:induction false} LeastExists(keys: set<U64>) returns (least: U64)
    requires keys != {}
    ensures IsLeast(least, keys)
    decreases |keys|
  {
    least :| least in keys;
    if keys == {least} {
      forall k | k in keys ensures least <= k { assert k == least; }
    } else {
      var k := least;
      var m := LeastExists(keys - {k});
      least := if m < k then m else k;
      forall k' | k' in keys ensures least <= k' { assert k' == k || k' in keys - {k}; }
    }
  }

  // The first key in the map's iteration order.
  function LeastKey(levels: Levels): (k: U64)
    requires levels.Keys != {}
    ensures k in levels
    ensures forall k' :: k' in levels ==> k <= k'
  {
    assert exists k :: IsLeast(k, levels.Keys) by {
      var _ := LeastExists(levels.Keys);
    }
    var k :| k in levels.Keys && forall k' :: k' in levels.Keys ==> k <= k';
    k
  }

  ghost function Flatten(levels: Levels): seq<Order>
    decreases |levels.Keys|
  {
    if levels.Keys == {} then []
    else
      var k := LeastKey(levels);
      assert (levels - {k}).Keys == levels.Keys - {k};
      levels[k] + Flatten(levels - {k})
  }

  // The queue at a key, empty when the level does not exist.
  function QueueAt(levels: Levels, k: U64): seq<Order> {
    if k in levels then levels[k] else []
  }

  // Everything in the list comes from the level of its key, and the list is in priority order.
  lemma {:induction false} FlattenOrdered(side: Side, levels: Levels)
    requires Filed(side, levels)
    ensures Sorted(side, Flatten(levels))
    ensures forall i :: 0 <= i < |Flatten(levels)| ==> Key(side, Flatten(levels)[i].price) in levels
    ensures Flatten(levels) == [] <==> levels.Keys == {}
    ensures levels.Keys != {} ==>
              Flatten(levels)[0] == levels[LeastKey(levels)][0] && Key(side, Flatten(levels)[0].price) == LeastKey(levels)
    decreases |levels.Keys|
  {
    if levels.Keys != {} {
      var k := LeastKey(levels);
      var others := levels - {k};
      assert others.Keys == levels.Keys - {k};
      FlattenOrdered(side, others);
      var flat := Flatten(levels);
      var n := |levels[k]|;
      assert flat[0] == levels[k][0];
      assert FiledAt(side, k, levels[k]);
      assert flat == levels[k] + Flatten(others);
      BestThenOthers(side, k, levels[k], Flatten(others));
      forall i | 0 <= i < |flat| ensures Key(side, flat[i].price) in levels {
        if i >= n { assert flat[i] == Flatten(others)[i - n]; }
      }
    }
  }

  lemma BestThenOthers(side: Side, k: U64, queue: seq<Order>, others: seq<Order>)
    requires FiledAt(side, k, queue) && Sorted(side, others)
    requires forall i :: 0 <= i < |others| ==> Key(side, others[i].price) > k
    ensures var flat := queue + others;
            && Sorted(side, flat)
            && forall i :: 0 <= i < |queue| ==> Key(side, flat[i].price) == k
  {
    var flat, n := queue + others, |queue|;
    forall i, j | 0 <= i < j < |flat| ensures !Better(side, flat[j].price, flat[i].price) {
      if i >= n {
        assert flat[i] == others[i - n] && flat[j] == others[j - n];
      }
    }
  }

  // ---- the four updates of a level, seen on the list

  lemma LeastIs(levels: Levels, k: U64)
    requires k in levels && forall k' :: k' in levels ==> k <= k'
    ensures levels.Keys != {} && LeastKey(levels) == k
  {
    assert k in levels.Keys;
  }

  lemma FlattenReplacesLeast(levels: Levels, k: U64, queue: seq<Order>)
    requires forall k' :: k' in levels ==> k <= k'
    ensures Flatten(levels[k := queue]) == queue + Flatten(levels - {k})
  {
    var levels' := levels[k := queue];
    LeastIs(levels', k);
    assert levels' - {k} == levels - {k};
    assert levels'[k] == queue;
  }

  lemma {:induction false} FlattenEnqueue(side: Side, levels: Levels, o: Order)
    requires Filed(side, levels) && o.side == side
    ensures var k := Key(side, o.price);
            Flatten(levels[k := QueueAt(levels, k) + [o]]) == Rest(Flatten(levels), o)
    decreases |levels.Keys|
  {
    var k := Key(side, o.price);
    if levels.Keys != {} && LeastKey(levels) < k {
      var m := LeastKey(levels);
      var others := levels - {m};
      assert others.Keys == levels.Keys - {m};
      LaterLevelChanged(levels, m, k, QueueAt(levels, k) + [o]);
      FlattenEnqueue(side, others, o);
      assert FiledAt(side, m, levels[m]);
      RestSkips(levels[m], Flatten(others), o);
    } else {
      EnqueueAtBest(side, levels, o);
    }
  }

  lemma EnqueueAtBest(side: Side, levels: Levels, o: Order)
    requires Filed(side, levels) && o.side == side
    requires forall k :: k in levels ==> Key(side, o.price) <= k
    ensures var k := Key(side, o.price);
            Flatten(levels[k := QueueAt(levels, k) + [o]]) == Rest(Flatten(levels), o)
  {
    var k := Key(side, o.price);
    var queue, others := QueueAt(levels, k), levels - {k};
    FlattenReplacesLeast(levels, k, queue + [o]);
    FlattenOrdered(side, others);
    assert Rest(Flatten(others), o) == [o] + Flatten(others);
    assert queue + [o] + Flatten(others) == queue + ([o] + Flatten(others));
    if k in levels {
      LeastIs(levels, k);
      assert FiledAt(side, k, queue);
      RestSkips(queue, Flatten(others), o);
    } else {
      assert levels - {k} == levels;
    }
  }

  lemma LaterLevelChanged(levels: Levels, m: U64, k: U64, queue: seq<Order>)
    requires m in levels && (forall k' :: k' in levels ==> m <= k') && m < k
    ensures Flatten(levels[k := queue]) == levels[m] + Flatten((levels - {m})[k := queue])
    ensures Flatten(levels - {k}) == levels[m] + Flatten(levels - {m} - {k})
  {
    LeastIs(levels[k := queue], m);
    assert levels[k := queue] - {m} == (levels - {m})[k := queue];
    LeastIs(levels - {k}, m);
    assert levels - {k} - {m} == levels - {m} - {k};
  }

  lemma EnqueueFiled(side: Side, levels: Levels, o: Order)
    requires Filed(side, levels) && o.side == side
    ensures var k := Key(side, o.price); Filed(side, levels[k := QueueAt(levels, k) + [o]])
  {
    var k := Key(side, o.price);
    var levels' := levels[k := QueueAt(levels, k) + [o]];
    forall k' | k' in levels' ensures FiledAt(side, k', levels'[k']) {
      assert k' in levels ==> FiledAt(side, k', levels[k']);
    }
  }

  // A queue with its front taken off; an emptied level disappears.
  function PopFront(levels: Levels, k: U64): Levels
    requires k in levels
  {
    if |levels[k]| <= 1 then levels - {k} else levels[k := levels[k][1..]]
  }

  lemma FlattenPopFront(side: Side, levels: Levels)
    requires Filed(side, levels) && levels.Keys != {}
    ensures Flatten(PopFront(levels, LeastKey(levels))) == Flatten(levels)[1..]
  {
    var k := LeastKey(levels);
    var queue, others := levels[k], Flatten(levels - {k});
    assert FiledAt(side, k, queue);
    assert Flatten(levels) == queue + others;
    assert (queue + others)[1..] == queue[1..] + others;
    if |queue| == 1 {
      assert queue[1..] + others == others;
    } else {
      FlattenReplacesLeast(levels, k, queue[1..]);
    }
  }

  lemma PopFrontFiled(side: Side, levels: Levels, k: U64)
    requires Filed(side, levels) && k in levels
    ensures FiledAt(side, k, levels[k]) && Filed(side, PopFront(levels, k))
  {
    assert FiledAt(side, k, levels[k]);
    var levels' := PopFront(levels, k);
    forall k' | k' in levels' ensures FiledAt(side, k', levels'[k']) {
      assert FiledAt(side, k', levels[k']);
    }
  }

  lemma FlattenUpdateFront(side: Side, levels: Levels, o: Order)
    requires Filed(side, levels) && levels.Keys != {}
    requires o.side == side && Key(side, o.price) == LeastKey(levels)
    ensures var k := LeastKey(levels);
            && Flatten(levels[k := levels[k][0 := o]]) == [o] + Flatten(levels)[1..]
            && Filed(side, levels[k := levels[k][0 := o]])
  {
    var k := LeastKey(levels);
    UpdateFrontFiled(side, levels, k, o);
    var queue, others := levels[k], Flatten(levels - {k});
    FlattenReplacesLeast(levels, k, queue[0 := o]);
    assert Flatten(levels) == queue + others;
    assert queue[0 := o] + others == [o] + (queue + others)[1..];
  }

  lemma UpdateFrontFiled(side: Side, levels: Levels, k: U64, o: Order)
    requires Filed(side, levels) && k in levels && o.side == side && Key(side, o.price) == k
    ensures FiledAt(side, k, levels[k]) && Filed(side, levels[k := levels[k][0 := o]])
  {
    assert FiledAt(side, k, levels[k]);
    var levels' := levels[k := levels[k][0 := o]];
    forall k' | k' in levels' ensures FiledAt(side, k', levels'[k']) {
      assert k' != k ==> FiledAt(side, k', levels[k']);
    }
  }

  // A queue without its first order of the given id; an emptied level disappears.
  function Without(levels: Levels, k: U64, id: OrderId, price: Price): Levels
    requires k in levels
  {
    var queue := Remove(levels[k], id, price);
    if queue == [] then levels - {k} else levels[k := queue]
  }

  lemma {:induction false} FlattenWithout(side: Side, levels: Levels, id: OrderId, price: Price)
    requires Filed(side, levels)
    ensures var k := Key(side, price);
            && (k in levels ==> Flatten(Without(levels, k, id, price)) == Remove(Flatten(levels), id, price))
            && (k !in levels ==> Flatten(levels) == Remove(Flatten(levels), id, price))
    ensures Present(QueueAt(levels, Key(side, price)), id, price) == Present(Flatten(levels), id, price)
    decreases |levels.Keys|
  {
    var k := Key(side, price);
    if levels.Keys != {} {
      var m := LeastKey(levels);
      var others := levels - {m};
      assert others.Keys == levels.Keys - {m};
      PresentInEither(levels[m], Flatten(others), id, price);
      if k == m {
        WithoutBest(side, levels, id, price);
      } else {
        FlattenWithout(side, others, id, price);
        NotAtOtherLevel(side, m, levels[m], id, price);
        RemoveSkips(levels[m], Flatten(others), id, price);
        if k in levels {
          LaterLevelChanged(levels, m, k, Remove(levels[k], id, price));
        }
      }
    }
  }

  lemma WithoutFiled(side: Side, levels: Levels, k: U64, id: OrderId, price: Price)
    requires Filed(side, levels) && k in levels
    ensures Filed(side, Without(levels, k, id, price))
  {
    var levels' := Without(levels, k, id, price);
    assert FiledAt(side, k, levels[k]);
    var n := RemoveSplits(levels[k], id, price);
    forall k' | k' in levels' ensures FiledAt(side, k', levels'[k']) {
      assert FiledAt(side, k', levels[k']);
    }
  }

  lemma WithoutNothing(levels: Levels, k: U64, id: OrderId, price: Price)
    requires k in levels && levels[k] != [] && !Present(levels[k], id, price)
    ensures Without(levels, k, id, price) == levels
  {
    var n := RemoveSplits(levels[k], id, price);
    assert levels[k := levels[k]] == levels;
  }

  lemma NotAtOtherLevel(side: Side, k: U64, queue: seq<Order>, id: OrderId, price: Price)
    requires FiledAt(side, k, queue) && k != Key(side, price)
    ensures !Present(queue, id, price)
  {
  }

  lemma WithoutBest(side: Side, levels: Levels, id: OrderId, price: Price)
    requires Filed(side, levels) && levels.Keys != {} && Key(side, price) == LeastKey(levels)
    ensures var k := Key(side, price);
            && Flatten(Without(levels, k, id, price)) == Remove(Flatten(levels), id, price)
            && !Present(Flatten(levels - {k}), id, price)
  {
    var k := Key(side, price);
    var others := levels - {k};
    FlattenOrdered(side, others);
    forall i | 0 <= i < |Flatten(others)| ensures !Matches(Flatten(others)[i], id, price) {
      assert Key(side, Flatten(others)[i].price) in others;
    }
    RemoveFromFront(levels[k], Flatten(others), id, price);
    FlattenReplacesLeast(levels, k, Remove(levels[k], id, price));
  }

  lemma PresentInEither(front: seq<Order>, back: seq<Order>, id: OrderId, price: Price)
    ensures Present(front + back, id, price) == (Present(front, id, price) || Present(back, id, price))
  {
    if i :| 0 <= i < |front| && Matches(front[i], id, price) {
      assert Matches((front + back)[i], id, price);
    }
    if i :| 0 <= i < |back| && Matches(back[i], id, price) {
      assert Matches((front + back)[|front| + i], id, price);
    }
  }

  lemma {:induction false} RemoveFromFront(front: seq<Order>, back: seq<Order>, id: OrderId, price: Price)
    requires !Present(back, id, price)
    ensures Remove(front + back, id, price) == Remove(front, id, price) + back
  {
    if front == [] {
      assert front + back == back;
      var _ := RemoveSplits(back, id, price);
      assert Remove(front, id, price) + back == back;
    } else {
      assert (front + back)[1..] == front[1..] + back;
      RemoveFromFront(front[1..], back, id, price);
    }
  }

  // ---- level totals, seen on the list

  lemma {:induction false} DepthOfLevel(side: Side, levels: Levels, price: Price)
    requires Filed(side, levels)
    ensures DepthAt(Flatten(levels), price) == TotalQty(QueueAt(levels, Key(side, price)))
    decreases |levels.Keys|
  {
    if levels.Keys != {} {
      var m := LeastKey(levels);
      var others := levels - {m};
      assert others.Keys == levels.Keys - {m};
      DepthOfLevel(side, others, price);
      DepthSplits(levels[m], Flatten(others), price);
      assert FiledAt(side, m, levels[m]);
      UniformDepth(levels[m], price);
    }
  }

  lemma {:induction false} DepthSplits(front: seq<Order>, back: seq<Order>, price: Price)
    ensures DepthAt(front + back, price) == DepthAt(front, price) + DepthAt(back, price)
  {
    if front == [] {
      assert front + back == back;
    } else {
      assert (front + back)[1..] == front[1..] + back;
      DepthSplits(front[1..], back, price);
    }
  }

  lemma {:induction false} UniformDepth(queue: seq<Order>, price: Price)
    ensures (forall i :: 0 <= i < |queue| ==> queue[i].price == price) ==> DepthAt(queue, price) == TotalQty(queue)
    ensures (forall i :: 0 <= i < |queue| ==> queue[i].price != price) ==> DepthAt(queue, price) == 0
  {
    if queue != [] { UniformDepth(queue[1..], price); }
  }
}
