/** When the cancel index and the queues say the same, and what a cancel then does. */
module IndexAgreement {
  import opened Wrappers
  import opened RmeTypes
  import opened PriorityList
  import opened ReferenceEngine
  import opened Execution
  import opened Safety

  ghost predicate DistinctIds(queue: seq<Order>) {
    forall i, j :: 0 <= i < j < |queue| ==> queue[i].id != queue[j].id
  }

  // Each order of the queue is the one its id is indexed under.
  ghost predicate Indexed(index: map<OrderId, (Side, Price)>, side: Side, queue: seq<Order>) {
    forall i :: 0 <= i < |queue| ==> queue[i].id in index && index[queue[i].id] == (side, queue[i].price)
  }

  // The index maps id to (side, price) iff exactly one order with that id
  // rests, and it rests there.
  ghost predicate Agrees(s: State) {
    && IndexSound(s)
    && Indexed(s.index, Buy, s.bids) && Indexed(s.index, Sell, s.asks)
    && DistinctIds(s.bids) && DistinctIds(s.asks)
  }

  predicate RestsIn(queue: seq<Order>, id: OrderId) {
    exists i :: 0 <= i < |queue| && queue[i].id == id
  }

  predicate Rests(s: State, id: OrderId) {
    RestsIn(s.bids, id) || RestsIn(s.asks, id)
  }

  // A new limit order will come to rest under an id that is still resting:
  // it exceeds what it can trade with, and an order with its id stands where
  // it cannot be traded away.
  predicate Clash(s: State, e: OrderEvent) {
    && e.LimitOrder?
    && e.qty > Available(e.side, Some(e.price), s.Queue(e.side.Flip()))
    && (RestsIn(s.Queue(e.side), e.id)
        || exists i :: 0 <= i < |s.Queue(e.side.Flip())|
                       && s.Queue(e.side.Flip())[i].id == e.id
                       && !Accepts(e.side, Some(e.price), s.Queue(e.side.Flip())[i].price))
  }

  lemma TailIndexed(id: OrderId, side: Side, limit: Option<Price>, qty: U64, queue: seq<Order>,
                    index: map<OrderId, (Side, Price)>)
    requires Indexed(index, side.Flip(), queue) && DistinctIds(queue)
    ensures var w := Sweep(id, side, limit, qty, queue);
            Indexed(index - w.gone, side.Flip(), w.rest) && DistinctIds(w.rest)
  {
    var w := Sweep(id, side, limit, qty, queue);
    var n := Used(w, queue);
    SweepTakesPrefix(id, side, limit, qty, queue);
    SweepLeavesTail(id, side, limit, qty, queue);
    forall i | 0 <= i < |w.rest| ensures w.rest[i].id !in w.gone {
      assert w.rest[i].id == queue[n + i].id;
    }
    forall i, j | 0 <= i < j < |w.rest| ensures w.rest[i].id != w.rest[j].id {
      assert queue[n + i].id != queue[n + j].id;
    }
  }

  lemma GoneFromOpposite(id: OrderId, side: Side, queue: seq<Order>, w: SweepResult, index: map<OrderId, (Side, Price)>)
    requires TakesPrefix(id, side, queue, w) && Indexed(index, side.Flip(), queue)
    ensures forall g :: g in w.gone ==> g in index && index[g].0 == side.Flip()
  {
    forall g | g in w.gone ensures g in index && index[g].0 == side.Flip() {
      var o :| o in queue[..Used(w, queue)] && o.id == g;
      var i :| 0 <= i < |queue| && queue[i] == o;
      assert queue[i].id in index;
    }
  }

  lemma OwnIndexed(index: map<OrderId, (Side, Price)>, side: Side, own: seq<Order>, gone: set<OrderId>)
    requires Indexed(index, side, own)
    requires forall g :: g in gone ==> g in index && index[g].0 == side.Flip()
    ensures Indexed(index - gone, side, own)
  {
    forall i | 0 <= i < |own| ensures own[i].id !in gone {
      assert index[own[i].id].0 == side;
    }
  }

  lemma TakeAgrees(s: State, id: OrderId, side: Side, limit: Option<Price>, qty: U64)
    requires Safe(s) && Agrees(s)
    ensures Agrees(Take(s, side, Swept(s, id, side, limit, qty)))
  {
    var queue, own := s.Queue(side.Flip()), s.Queue(side);
    var w := Swept(s, id, side, limit, qty);
    TakeIsSafe(s, id, side, limit, qty);
    TailIndexed(id, side, limit, qty, queue, s.index);
    SweepTakesPrefix(id, side, limit, qty, queue);
    GoneFromOpposite(id, side, queue, w, s.index);
    OwnIndexed(s.index, side, own, w.gone);
  }

  // The queue after an insertion, position by position.
  lemma RestAt(queue: seq<Order>, o: Order) returns (n: nat)
    requires Sorted(o.side, queue)
    ensures n == Ahead(queue, o) && |Rest(queue, o)| == |queue| + 1 && Rest(queue, o)[n] == o
    ensures forall i :: 0 <= i < n ==> Rest(queue, o)[i] == queue[i]
    ensures forall i :: n <= i < |queue| ==> Rest(queue, o)[i + 1] == queue[i]
    ensures forall i :: n < i < |Rest(queue, o)| ==> Rest(queue, o)[i] == queue[i - 1]
  {
    RestSplits(queue, o);
    n := Ahead(queue, o);
  }

  lemma RestDistinct(queue: seq<Order>, o: Order)
    requires Sorted(o.side, queue) && DistinctIds(queue)
    ensures DistinctIds(Rest(queue, o)) <==> !RestsIn(queue, o.id)
  {
    var n := RestAt(queue, o);
    var queue' := Rest(queue, o);
    if i :| 0 <= i < |queue| && queue[i].id == o.id {
      if i < n { assert queue'[i].id == queue'[n].id; }
      else { assert queue'[n].id == queue'[i + 1].id; }
    } else {
      forall i, j | 0 <= i < j < |queue'| ensures queue'[i].id != queue'[j].id {
        if i == n {
        } else if j == n {
        } else {
          assert queue[if i < n then i else i - 1].id != queue[if j < n then j else j - 1].id;
        }
      }
    }
  }

  lemma RestIndexed(index: map<OrderId, (Side, Price)>, queue: seq<Order>, o: Order)
    requires Sorted(o.side, queue) && Indexed(index, o.side, queue) && !RestsIn(queue, o.id)
    ensures Indexed(index[o.id := (o.side, o.price)], o.side, Rest(queue, o))
  {
    var n := RestAt(queue, o);
    var queue' := Rest(queue, o);
    var index' := index[o.id := (o.side, o.price)];
    forall i | 0 <= i < |queue'|
      ensures queue'[i].id in index' && index'[queue'[i].id] == (o.side, queue'[i].price)
    {
      if i != n {
        var k := if i < n then i else i - 1;
        assert queue'[i] == queue[k] && queue[k].id != o.id;
      }
    }
  }

  // Resting one more order keeps the agreement exactly when its id is new.
  lemma AddLimitAgrees(s: State, o: Order)
    requires Safe(s) && Agrees(s)
    ensures Agrees(AddLimit(s, o)) <==> !Rests(s, o.id)
  {
    var queue, other := s.Queue(o.side), s.Queue(o.side.Flip());
    var s' := AddLimit(s, o);
    AddLimitKeepsIndex(s, o);
    RestDistinct(queue, o);
    OtherSideKeeps(s.index, o, other);
    if !RestsIn(queue, o.id) {
      RestIndexed(s.index, queue, o);
    }
  }

  lemma OtherSideKeeps(index: map<OrderId, (Side, Price)>, o: Order, other: seq<Order>)
    requires Indexed(index, o.side.Flip(), other)
    ensures Indexed(index[o.id := (o.side, o.price)], o.side.Flip(), other) <==> !RestsIn(other, o.id)
  {
    var index' := index[o.id := (o.side, o.price)];
    if i :| 0 <= i < |other| && other[i].id == o.id {
      assert index'[other[i].id].0 != o.side.Flip();
    }
  }

  // After a sweep that leaves something unfilled, the ids still in the list are
  // those at prices the order does not accept.
  lemma LeftBehind(id: OrderId, side: Side, limit: Option<Price>, qty: U64, queue: seq<Order>, other: OrderId)
    requires Sorted(side.Flip(), queue) && Positive(queue)
    requires Sweep(id, side, limit, qty, queue).remaining > 0
    ensures RestsIn(Sweep(id, side, limit, qty, queue).rest, other)
            <==> exists i :: 0 <= i < |queue| && queue[i].id == other && !Accepts(side, limit, queue[i].price)
  {
    var w := Sweep(id, side, limit, qty, queue);
    var n := Used(w, queue);
    SweepFillsFollow(id, side, limit, qty, queue);
    SweepTakesPrefix(id, side, limit, qty, queue);
    SweepStopsRight(id, side, limit, qty, queue);
    SweepKeepsOrder(id, side, limit, qty, queue);
    NothingAvailable(side, limit, w.rest);
    assert w.rest == queue[n..] by { SweepLeavesTail(id, side, limit, qty, queue); }
    assert forall i :: 0 <= i < n ==> w.fills[i].price == queue[i].price && Accepts(side, limit, queue[i].price);
    OnlyBeyondLimit(side, limit, queue, n, other);
  }

  lemma OnlyBeyondLimit(side: Side, limit: Option<Price>, queue: seq<Order>, n: nat, other: OrderId)
    requires n <= |queue|
    requires forall i :: 0 <= i < n ==> Accepts(side, limit, queue[i].price)
    requires forall i :: 0 <= i < |queue[n..]| ==> !Accepts(side, limit, queue[n..][i].price)
    ensures RestsIn(queue[n..], other)
            <==> exists i :: 0 <= i < |queue| && queue[i].id == other && !Accepts(side, limit, queue[i].price)
  {
    if i :| 0 <= i < |queue| && queue[i].id == other && !Accepts(side, limit, queue[i].price) {
      assert n <= i;
      assert queue[n..][i - n].id == other;
    }
    if i :| 0 <= i < |queue[n..]| && queue[n..][i].id == other {
      assert queue[n + i].id == other && !Accepts(side, limit, queue[n..][i].price);
    }
  }

  lemma RemoveIndexed(index: map<OrderId, (Side, Price)>, side: Side, queue: seq<Order>, id: OrderId)
    requires id in index && index[id].0 == side && Indexed(index, side, queue) && DistinctIds(queue)
    requires Present(queue, id, index[id].1)
    ensures var rest := Remove(queue, id, index[id].1);
            DistinctIds(rest) && Indexed(index - {id}, side, rest)
  {
    var n := RemoveSplits(queue, id, index[id].1);
    var rest := Remove(queue, id, index[id].1);
    forall i | 0 <= i < |rest| ensures rest[i] == queue[if i < n then i else i + 1] && rest[i].id != id {
    }
    forall i, j | 0 <= i < j < |rest| ensures rest[i].id != rest[j].id {
      assert queue[if i < n then i else i + 1].id != queue[if j < n then j else j + 1].id;
    }
  }

  lemma OtherSideIndexed(index: map<OrderId, (Side, Price)>, side: Side, queue: seq<Order>, id: OrderId)
    requires Indexed(index, side, queue) && id in index && index[id].0 != side
    ensures Indexed(index - {id}, side, queue)
  {
    forall i | 0 <= i < |queue| ensures queue[i].id != id {
      assert index[queue[i].id].0 == side;
    }
  }

  lemma CancelAgrees(s: State, id: OrderId)
    requires Safe(s) && Agrees(s)
    ensures Agrees(Cancel(s, id))
  {
    CancelIsSafe(s, id);
    if id in s.index {
      var side := s.index[id].0;
      RemoveIndexed(s.index, side, s.Queue(side), id);
      OtherSideIndexed(s.index, side.Flip(), s.Queue(side.Flip()), id);
    }
  }

  lemma LimitAgrees(s: State, id: OrderId, side: Side, price: Price, qty: U64, seqNum: U64)
    requires Safe(s) && Agrees(s)
    ensures var e := LimitOrder(id, side, price, qty, seqNum); Agrees(Step(s, e).state) <==> !Clash(s, e)
  {
    TakeAgrees(s, id, side, Some(price), qty);
    TakeIsSafe(s, id, side, Some(price), qty);
    SweepIsMaximal(id, side, Some(price), qty, s.Queue(side.Flip()));
    var w := Swept(s, id, side, Some(price), qty);
    if w.remaining > 0 {
      LeftBehind(id, side, Some(price), qty, s.Queue(side.Flip()), id);
      AddLimitAgrees(Take(s, side, w), Order(id, side, price, w.remaining, seqNum));
    }
  }

  // One event keeps the agreement exactly when it does not clash.
  lemma StepAgrees(s: State, e: OrderEvent)
    requires Safe(s) && Agrees(s)
    ensures Agrees(Step(s, e).state) <==> !Clash(s, e)
  {
    match e
    case LimitOrder(id, side, price, qty, seqNum) =>
      LimitAgrees(s, id, side, price, qty, seqNum);
    case MarketOrder(id, side, qty, _) =>
      TakeAgrees(s, id, side, None, qty);
    case CancelOrder(id) =>
      CancelAgrees(s, id);
  }

  ghost predicate AgreesAfter(events: seq<OrderEvent>, n: nat)
    requires n <= |events|
  {
    Agrees(After(events, n))
  }

  ghost predicate ClashesAt(events: seq<OrderEvent>, n: nat)
    requires n < |events|
  {
    Clash(After(events, n), events[n])
  }

  lemma NextAgrees(events: seq<OrderEvent>, n: nat)
    requires n < |events| && AgreesAfter(events, n)
    ensures AgreesAfter(events, n + 1) <==> !ClashesAt(events, n)
  {
    AfterNext(events, n);
    RunIsSafe(EMPTY, events[..n]);
    StepAgrees(After(events, n), events[n]);
  }

  // Agreement throughout a run, exactly when no event of the run clashes.
  lemma {:induction false} RunAgrees(events: seq<OrderEvent>, n: nat)
    requires n <= |events|
    ensures (forall k :: 0 <= k <= n ==> AgreesAfter(events, k)) <==> (forall k :: 0 <= k < n ==> !ClashesAt(events, k))
  {
    if n == 0 {
      assert After(events, 0) == EMPTY;
      assert AgreesAfter(events, 0);
    } else {
      RunAgrees(events, n - 1);
      if forall k :: 0 <= k <= n - 1 ==> AgreesAfter(events, k) {
        NextAgrees(events, n - 1);
      }
    }
  }

  // ---- globally unique ids never clash

  ghost predicate UniqueIds(events: seq<OrderEvent>) {
    forall i, j :: 0 <= i < j < |events| && events[i].LimitOrder? && events[j].LimitOrder? ==> events[i].id != events[j].id
  }

  ghost predicate SubmittedAs(events: seq<OrderEvent>, id: OrderId) {
    exists i :: 0 <= i < |events| && events[i].LimitOrder? && events[i].id == id
  }

  lemma InsertedRests(queue: seq<Order>, o: Order, id: OrderId)
    requires Sorted(o.side, queue)
    ensures RestsIn(Rest(queue, o), id) ==> RestsIn(queue, id) || o.id == id
  {
    var n := RestAt(queue, o);
    if i :| 0 <= i < |Rest(queue, o)| && Rest(queue, o)[i].id == id {
      assert i < n ==> queue[i].id == id;
      assert i > n ==> queue[i - 1].id == id;
    }
  }

  lemma RemovedRests(queue: seq<Order>, gone: OrderId, price: Price, id: OrderId)
    ensures RestsIn(Remove(queue, gone, price), id) ==> RestsIn(queue, id)
  {
    var n := RemoveSplits(queue, gone, price);
    var rest := Remove(queue, gone, price);
    if i :| 0 <= i < |rest| && rest[i].id == id {
      assert queue[if i < n then i else i + 1].id == id;
    }
  }

  // What rests after a step rested before, or is the order just submitted.
  lemma StepRests(s: State, e: OrderEvent, id: OrderId)
    requires Safe(s)
    ensures Rests(Step(s, e).state, id) ==> Rests(s, id) || (e.LimitOrder? && e.id == id)
  {
    match e
    case LimitOrder(eid, side, price, qty, seqNum) =>
      TailRests(s, eid, side, Some(price), qty, id);
      var w := Swept(s, eid, side, Some(price), qty);
      if w.remaining > 0 {
        InsertedRests(s.Queue(side), Order(eid, side, price, w.remaining, seqNum), id);
      }
    case MarketOrder(eid, side, qty, _) =>
      TailRests(s, eid, side, None, qty, id);
    case CancelOrder(eid) =>
      if eid in s.index {
        RemovedRests(s.Queue(s.index[eid].0), eid, s.index[eid].1, id);
      }
  }

  lemma TailRests(s: State, id: OrderId, side: Side, limit: Option<Price>, qty: U64, other: OrderId)
    ensures RestsIn(Swept(s, id, side, limit, qty).rest, other) ==> RestsIn(s.Queue(side.Flip()), other)
  {
    var queue := s.Queue(side.Flip());
    var w := Swept(s, id, side, limit, qty);
    SweepLeavesTail(id, side, limit, qty, queue);
    if i :| 0 <= i < |w.rest| && w.rest[i].id == other {
      assert queue[Used(w, queue) + i].id == other;
    }
  }

  lemma {:induction false} RestingWasSubmitted(events: seq<OrderEvent>, n: nat, id: OrderId)
    requires n <= |events| && Rests(After(events, n), id)
    ensures SubmittedAs(events[..n], id)
  {
    if n > 0 {
      AfterNext(events, n - 1);
      RunIsSafe(EMPTY, events[..n - 1]);
      StepRests(After(events, n - 1), events[n - 1], id);
      if Rests(After(events, n - 1), id) {
        RestingWasSubmitted(events, n - 1, id);
        var i :| 0 <= i < n - 1 && events[i].LimitOrder? && events[i].id == id;
        assert events[..n][i] == events[i];
      } else {
        assert events[..n][n - 1] == events[n - 1];
      }
    }
  }

  lemma NewIdNotSubmitted(events: seq<OrderEvent>, k: nat)
    requires UniqueIds(events) && k < |events| && events[k].LimitOrder?
    ensures !SubmittedAs(events[..k], events[k].id)
  {
    forall i | 0 <= i < k && events[..k][i].LimitOrder? ensures events[..k][i].id != events[k].id {
      assert events[..k][i] == events[i];
    }
  }

  lemma UniqueIdsAgree(events: seq<OrderEvent>, n: nat)
    requires UniqueIds(events) && n <= |events|
    ensures Agrees(After(events, n)) && Safe(After(events, n))
  {
    forall k | 0 <= k < n ensures !ClashesAt(events, k) {
      if ClashesAt(events, k) {
        NewIdNotSubmitted(events, k);
        RestingWasSubmitted(events, k, events[k].id);
      }
    }
    RunAgrees(events, n);
    assert AgreesAfter(events, n);
    RunIsSafe(EMPTY, events[..n]);
  }

  // The assumption is needed: the same order sent twice leaves two orders
  // under one index entry, so that only one of them can be cancelled.
  lemma ReusedIdDisagrees(e: OrderEvent)
    requires e.LimitOrder? && e.qty > 0
    ensures var s := Run(EMPTY, [e, e]).state;
            && !Agrees(s)
            && Rests(Cancel(s, e.id), e.id) && !Cancels(Cancel(s, e.id), e.id)
  {
    var o := Order(e.id, e.side, e.price, e.qty, e.seqNum);
    var s1 := Step(EMPTY, e).state;
    assert s1.Queue(e.side) == [o] && s1.Queue(e.side.Flip()) == [];
    var s2 := Step(s1, e).state;
    assert [e, e] == [e] + [e];
    RunAppends(EMPTY, [e], [e]);
    RunOne(EMPTY, e);
    RunOne(s1, e);
    assert Rest([o], o) == [o] + Rest([], o);
    assert s2.Queue(e.side) == [o, o];
    assert s2.Queue(e.side)[0].id == s2.Queue(e.side)[1].id;
    assert Cancel(s2, e.id).Queue(e.side) == [o];
    assert Cancel(s2, e.id).Queue(e.side)[0].id == e.id;
  }

  // ---- what a cancel does

  // Whether or not ids are unique, a cancel succeeds iff the id is indexed.
  lemma CancelsIfIndexed(events: seq<OrderEvent>, n: nat, id: OrderId)
    requires n <= |events|
    ensures Cancels(After(events, n), id) <==> id in After(events, n).index
  {
    RunIsSafe(EMPTY, events[..n]);
  }

  // The queue without any order of the given ids, in the same order.
  function Without(queue: seq<Order>, ids: set<OrderId>): seq<Order> {
    if queue == [] then []
    else if queue[0].id in ids then Without(queue[1..], ids)
    else [queue[0]] + Without(queue[1..], ids)
  }

  lemma {:induction false} WithoutNone(queue: seq<Order>, ids: set<OrderId>)
    requires forall i :: 0 <= i < |queue| ==> queue[i].id !in ids
    ensures Without(queue, ids) == queue
  {
    if queue != [] { WithoutNone(queue[1..], ids); }
  }

  lemma {:induction false} RemoveIsWithout(queue: seq<Order>, id: OrderId, price: Price)
    requires DistinctIds(queue)
    requires forall i :: 0 <= i < |queue| && queue[i].id == id ==> queue[i].price == price
    ensures Remove(queue, id, price) == Without(queue, {id})
  {
    if queue != [] {
      if queue[0].id == id {
        WithoutNone(queue[1..], {id});
      } else {
        RemoveIsWithout(queue[1..], id, price);
      }
    }
  }

  lemma RestingIsIndexed(s: State, id: OrderId)
    requires Agrees(s)
    ensures RestsIn(s.bids, id) ==> id in s.index && s.index[id].0 == Buy
    ensures RestsIn(s.asks, id) ==> id in s.index && s.index[id].0 == Sell
    ensures id in s.index ==> RestsIn(s.Queue(s.index[id].0), id)
  {
    if id in s.index {
      var (side, price) := s.index[id];
      var i :| 0 <= i < |s.Queue(side)| && Matches(s.Queue(side)[i], id, price);
      assert s.Queue(side)[i].id == id;
    }
  }

  // With an agreeing index, a cancel succeeds iff the id rests, and takes out
  // that order and no other.
  lemma CancelIsExact(s: State, id: OrderId)
    requires Agrees(s)
    ensures Cancels(s, id) <==> Rests(s, id)
    ensures Cancel(s, id).bids == Without(s.bids, {id})
    ensures Cancel(s, id).asks == Without(s.asks, {id})
  {
    RestingIsIndexed(s, id);
    if id in s.index {
      var (side, price) := s.index[id];
      assert Indexed(s.index, side, s.Queue(side));
      RemoveIsWithout(s.Queue(side), id, price);
      assert !RestsIn(s.Queue(side.Flip()), id);
      WithoutNone(s.Queue(side.Flip()), {id});
    } else {
      assert !RestsIn(s.bids, id) && !RestsIn(s.asks, id);
      WithoutNone(s.bids, {id});
      WithoutNone(s.asks, {id});
    }
  }
}
