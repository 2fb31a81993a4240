/** Running a sequence again with a cancel appended for every order that was filled. */
module CancelFills {
  import opened RmeTypes
  import opened PriorityList
  import opened ReferenceEngine
  import opened Safety
  import opened IndexAgreement
  import opened Conservation

  function IdSet(ids: seq<OrderId>): set<OrderId> {
    set id | id in ids
  }

  ghost predicate Distinct(ids: seq<OrderId>) {
    forall i, j :: 0 <= i < j < |ids| ==> ids[i] != ids[j]
  }

  function CancelsFor(ids: seq<OrderId>): seq<OrderEvent> {
    if ids == [] then [] else [CancelOrder(ids[0])] + CancelsFor(ids[1..])
  }

  // One rejection for each id that does not rest.
  function UnknownAmong(s: State, ids: seq<OrderId>): seq<RejectEvent> {
    if ids == [] then []
    else if Rests(s, ids[0]) then UnknownAmong(s, ids[1..])
    else [RejectEvent(ids[0], UnknownOrderId)] + UnknownAmong(s, ids[1..])
  }

  // Aggressor and resting ids in order of first appearance.
  function FilledIds(fills: seq<FillEvent>, seen: seq<OrderId>): seq<OrderId> {
    if fills == [] then seen else FilledIds(fills[1..], AddId(AddId(seen, fills[0].aggressorId), fills[0].restingId))
  }

  function AddId(ids: seq<OrderId>, id: OrderId): seq<OrderId> {
    if id in ids then ids else ids + [id]
  }

  lemma {:induction false} FilledIdsDistinct(fills: seq<FillEvent>, seen: seq<OrderId>)
    requires Distinct(seen)
    ensures Distinct(FilledIds(fills, seen))
    ensures forall id :: id in FilledIds(fills, seen)
                         <==> id in seen || exists i :: 0 <= i < |fills| && (fills[i].aggressorId == id || fills[i].restingId == id)
  {
    if fills != [] {
      var seen' := AddId(AddId(seen, fills[0].aggressorId), fills[0].restingId);
      FilledIdsDistinct(fills[1..], seen');
      forall id
        ensures id in FilledIds(fills, seen)
                <==> id in seen || exists i :: 0 <= i < |fills| && (fills[i].aggressorId == id || fills[i].restingId == id)
      {
        if i :| 0 <= i < |fills| && (fills[i].aggressorId == id || fills[i].restingId == id) {
          assert i > 0 ==> fills[i] == fills[1..][i - 1];
        }
      }
    }
  }

  lemma {:induction false} WithoutTwice(queue: seq<Order>, a: set<OrderId>, b: set<OrderId>)
    ensures Without(Without(queue, a), b) == Without(queue, a + b)
  {
    if queue != [] {
      WithoutTwice(queue[1..], a, b);
    }
  }

  lemma {:induction false} RestsWithout(queue: seq<Order>, ids: set<OrderId>, id: OrderId)
    ensures RestsIn(Without(queue, ids), id) <==> RestsIn(queue, id) && id !in ids
  {
    if queue != [] {
      RestsWithout(queue[1..], ids, id);
      RestsInCons(queue[0], queue[1..], id);
      RestsInCons(queue[0], Without(queue[1..], ids), id);
      assert [queue[0]] + queue[1..] == queue;
    }
  }

  lemma RestsInCons(o: Order, queue: seq<Order>, id: OrderId)
    ensures RestsIn([o] + queue, id) <==> o.id == id || RestsIn(queue, id)
  {
    var all := [o] + queue;
    if o.id == id { assert all[0].id == id; }
    if i :| 0 <= i < |queue| && queue[i].id == id { assert all[i + 1].id == id; }
    if i :| 0 <= i < |all| && all[i].id == id { assert i > 0 ==> queue[i - 1].id == id; }
  }

  lemma CancelFirst(s: State, ids: seq<OrderId>)
    requires Agrees(s) && ids != []
    ensures var s' := Cancel(s, ids[0]);
            && Without(s'.bids, IdSet(ids[1..])) == Without(s.bids, IdSet(ids))
            && Without(s'.asks, IdSet(ids[1..])) == Without(s.asks, IdSet(ids))
  {
    CancelIsExact(s, ids[0]);
    WithoutTwice(s.bids, {ids[0]}, IdSet(ids[1..]));
    WithoutTwice(s.asks, {ids[0]}, IdSet(ids[1..]));
    assert IdSet(ids) == {ids[0]} + IdSet(ids[1..]) by { assert ids == [ids[0]] + ids[1..]; }
  }

  // The first cancel does not change which of the other ids rest.
  lemma OthersUnaffected(s: State, ids: seq<OrderId>)
    requires Agrees(s) && Distinct(ids) && ids != []
    ensures UnknownAmong(Cancel(s, ids[0]), ids[1..]) == UnknownAmong(s, ids[1..])
  {
    var s', others := Cancel(s, ids[0]), ids[1..];
    CancelIsExact(s, ids[0]);
    forall i | 0 <= i < |others| ensures Rests(s', others[i]) <==> Rests(s, others[i]) {
      RestsWithout(s.bids, {ids[0]}, others[i]);
      RestsWithout(s.asks, {ids[0]}, others[i]);
    }
    SameUnknown(s, s', others);
  }

  lemma CancelThenRun(s: State, ids: seq<OrderId>)
    requires Agrees(s) && ids != []
    ensures var r, more := Run(s, CancelsFor(ids)), Run(Cancel(s, ids[0]), CancelsFor(ids[1..]));
            && r.state == more.state
            && r.fills == more.fills
            && r.rejections == (if Rests(s, ids[0]) then [] else [RejectEvent(ids[0], UnknownOrderId)]) + more.rejections
  {
    CancelIsExact(s, ids[0]);
    assert CancelsFor(ids)[1..] == CancelsFor(ids[1..]);
    var more := Run(Cancel(s, ids[0]), CancelsFor(ids[1..]));
    assert [] + more.fills == more.fills;
  }

  // Cancelling distinct ids takes out exactly the resting orders among them,
  // keeps the others in order, and rejects exactly the ids that do not rest.
  lemma {:induction false} CancellingMany(s: State, ids: seq<OrderId>)
    requires Safe(s) && Agrees(s) && Distinct(ids)
    ensures Run(s, CancelsFor(ids)).fills == []
    ensures Run(s, CancelsFor(ids)).state.bids == Without(s.bids, IdSet(ids))
    ensures Run(s, CancelsFor(ids)).state.asks == Without(s.asks, IdSet(ids))
    ensures Run(s, CancelsFor(ids)).rejections == UnknownAmong(s, ids)
    decreases |ids|
  {
    if ids == [] {
      assert IdSet(ids) == {};
      WithoutNone(s.bids, {});
      WithoutNone(s.asks, {});
    } else {
      CancelFirst(s, ids);
      OthersUnaffected(s, ids);
      CancelThenRun(s, ids);
      CancelIsSafe(s, ids[0]);
      CancelAgrees(s, ids[0]);
      CancellingMany(Cancel(s, ids[0]), ids[1..]);
      var unknown := UnknownAmong(s, ids[1..]);
      assert [] + unknown == unknown;
    }
  }

  lemma {:induction false} SameUnknown(s: State, s': State, ids: seq<OrderId>)
    requires forall i :: 0 <= i < |ids| ==> (Rests(s', ids[i]) <==> Rests(s, ids[i]))
    ensures UnknownAmong(s', ids) == UnknownAmong(s, ids)
  {
    if ids != [] {
      assert Rests(s', ids[0]) <==> Rests(s, ids[0]);
      forall i | 0 <= i < |ids[1..]| ensures Rests(s', ids[1..][i]) <==> Rests(s, ids[1..][i]) {
        assert ids[1..][i] == ids[i + 1];
      }
      SameUnknown(s, s', ids[1..]);
    }
  }

  // Appending a cancel for every id that appears in the fills: no new fills,
  // one rejection for each of them no longer resting, and the other orders
  // left alone, in order.
  lemma CancellingTheFilled(events: seq<OrderEvent>)
    requires UniqueIds(events)
    ensures var once := Run(EMPTY, events);
            var ids := FilledIds(once.fills, []);
            var twice := Run(EMPTY, events + CancelsFor(ids));
            && twice.fills == once.fills
            && twice.rejections == once.rejections + UnknownAmong(once.state, ids)
            && twice.state.bids == Without(once.state.bids, IdSet(ids))
            && twice.state.asks == Without(once.state.asks, IdSet(ids))
  {
    var once := Run(EMPTY, events);
    var ids := FilledIds(once.fills, []);
    UniqueIdsAgree(events, |events|);
    assert events[..|events|] == events;
    FilledIdsDistinct(once.fills, []);
    CancellingMany(once.state, ids);
    RunAppends(EMPTY, events, CancelsFor(ids));
    assert once.fills + [] == once.fills;
  }

  lemma NoFilledIdRests(events: seq<OrderEvent>, i: nat)
    requires UniqueIds(events) && i < |Run(EMPTY, events).fills|
    ensures var once := Run(EMPTY, events);
            var twice := Run(EMPTY, events + CancelsFor(FilledIds(once.fills, []))).state;
            !Rests(twice, once.fills[i].aggressorId) && !Rests(twice, once.fills[i].restingId)
  {
    var once := Run(EMPTY, events);
    var ids := FilledIds(once.fills, []);
    CancellingTheFilled(events);
    FilledIdsDistinct(once.fills, []);
    forall id | id in {once.fills[i].aggressorId, once.fills[i].restingId}
      ensures id in IdSet(ids) && !RestsIn(Without(once.state.bids, IdSet(ids)), id)
                               && !RestsIn(Without(once.state.asks, IdSet(ids)), id)
    {
      RestsWithout(once.state.bids, IdSet(ids), id);
      RestsWithout(once.state.asks, IdSet(ids), id);
    }
  }

  // ---- without any assumption on ids

  lemma {:induction false} CancelsSubmitNothing(ids: seq<OrderId>)
    ensures Submitted(CancelsFor(ids)) == 0
  {
    if ids != [] {
      assert CancelsFor(ids)[1..] == CancelsFor(ids[1..]);
      CancelsSubmitNothing(ids[1..]);
    }
  }

  lemma {:induction false} CancelsFillNothing(s: State, ids: seq<OrderId>)
    ensures Run(s, CancelsFor(ids)).fills == []
    decreases |ids|
  {
    if ids != [] {
      assert CancelsFor(ids)[1..] == CancelsFor(ids[1..]);
      CancelsFillNothing(Cancel(s, ids[0]), ids[1..]);
    }
  }

  // Whatever the ids, appended cancels add no fills, never make the book grow
  // and leave only positive quantities.
  lemma CancelsNeverGrow(events: seq<OrderEvent>, ids: seq<OrderId>)
    ensures var once, twice := Run(EMPTY, events), Run(EMPTY, events + CancelsFor(ids));
            && twice.fills == once.fills
            && Resting(twice.state) <= Resting(once.state)
            && Positive(twice.state.bids) && Positive(twice.state.asks)
  {
    var once := Run(EMPTY, events);
    RunAppends(EMPTY, events, CancelsFor(ids));
    RunIsSafe(EMPTY, events);
    RunIsSafe(EMPTY, events + CancelsFor(ids));
    RunConserves(once.state, CancelsFor(ids));
    CancelsSubmitNothing(ids);
    CancelsFillNothing(once.state, ids);
    assert once.fills + [] == once.fills;
  }
}
