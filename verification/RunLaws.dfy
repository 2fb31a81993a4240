/** What whole runs report, event by event: in which order fills and rejections
    stand, which event each of them comes from, and where resting orders come from. */
module RunLaws {
  import opened Wrappers
  import opened RmeTypes
  import opened PriorityList
  import opened ReferenceEngine
  import opened Execution
  import opened Safety

  // Everything before the first n events have been processed.
  function Report(events: seq<OrderEvent>, n: nat): Outcome
    requires n <= |events|
  {
    Run(EMPTY, events[..n])
  }

  // An event's fills and rejections are put behind those of the events before it.
  lemma NextReport(events: seq<OrderEvent>, n: nat)
    requires n < |events|
    ensures var next := Step(After(events, n), events[n]);
            && Report(events, n + 1).fills == Report(events, n).fills + next.fills
            && Report(events, n + 1).rejections == Report(events, n).rejections + next.rejections
            && Report(events, n + 1).state == next.state
  {
    assert events[..n + 1] == events[..n] + [events[n]];
    RunAppends(EMPTY, events[..n], [events[n]]);
    RunOne(After(events, n), events[n]);
  }

  // Later events never touch what has been reported.
  lemma {:induction false} ReportsGrow(events: seq<OrderEvent>, m: nat, n: nat)
    requires m <= n <= |events|
    ensures Report(events, m).fills <= Report(events, n).fills
    ensures Report(events, m).rejections <= Report(events, n).rejections
  {
    if m < n {
      ReportsGrow(events, m, n - 1);
      NextReport(events, n - 1);
    }
  }

  // ---- where a fill comes from

  // The fill belongs to this event: the event's order is the aggressor, and the
  // other order rests on the opposite side when the event arrives.
  ghost predicate FillOfEvent(s: State, e: OrderEvent, fill: FillEvent) {
    && !e.CancelOrder?
    && fill.aggressorId == e.id && fill.aggressorSide == e.side
    && (e.LimitOrder? ==> if e.side.Buy? then fill.price <= e.price else fill.price >= e.price)
    && exists o :: o in s.Queue(e.side.Flip()) && Reports(fill, e.id, e.side, o)
  }

  ghost predicate RejectionOfEvent(s: State, e: OrderEvent, rejection: RejectEvent) {
    && rejection.orderId == e.id
    && match e
       case LimitOrder(_, _, _, _, _) => false
       case MarketOrder(_, side, qty, _) => rejection.reason == NoLiquidity && qty > TotalQty(s.Queue(side.Flip()))
       case CancelOrder(id) => rejection.reason == UnknownOrderId && id !in s.index
  }

  lemma StepReports(s: State, e: OrderEvent)
    requires Safe(s)
    ensures forall i :: 0 <= i < |Step(s, e).fills| ==> FillOfEvent(s, e, Step(s, e).fills[i])
    ensures forall i :: 0 <= i < |Step(s, e).rejections| ==> RejectionOfEvent(s, e, Step(s, e).rejections[i])
  {
    match e
    case LimitOrder(id, side, price, qty, seqNum) =>
      LimitOrderExecution(s, id, side, price, qty, seqNum);
      FilledFrom(s, e, Some(price), Step(s, e).fills);
    case MarketOrder(id, side, qty, seqNum) =>
      MarketOrderExecution(s, id, side, qty, seqNum);
      FilledFrom(s, e, None, Step(s, e).fills);
    case CancelOrder(id) =>
      CancelOrderExecution(s, id);
  }

  lemma FilledFrom(s: State, e: OrderEvent, limit: Option<Price>, fills: seq<FillEvent>)
    requires !e.CancelOrder? && FillsFollow(e.id, e.side, limit, s.Queue(e.side.Flip()), fills)
    requires e.LimitOrder? ==> limit == Some(e.price)
    ensures forall i :: 0 <= i < |fills| ==> FillOfEvent(s, e, fills[i])
  {
    forall i | 0 <= i < |fills| ensures FillOfEvent(s, e, fills[i]) {
      assert s.Queue(e.side.Flip())[i] in s.Queue(e.side.Flip());
    }
  }

  // Event n reported fill k.
  ghost predicate FilledAt(events: seq<OrderEvent>, n: nat, k: nat, fill: FillEvent)
    requires n < |events|
  {
    && |Report(events, n).fills| <= k < |Report(events, n + 1).fills|
    && FillOfEvent(After(events, n), events[n], fill)
  }

  ghost predicate RejectedAt(events: seq<OrderEvent>, n: nat, k: nat, rejection: RejectEvent)
    requires n < |events|
  {
    && |Report(events, n).rejections| <= k < |Report(events, n + 1).rejections|
    && RejectionOfEvent(After(events, n), events[n], rejection)
  }

  // Every fill of a run was reported by one event, whose order is the aggressor.
  lemma {:induction false} EveryFillHasItsEvent(events: seq<OrderEvent>, m: nat, k: nat) returns (n: nat)
    requires m <= |events| && k < |Report(events, m).fills|
    ensures n < m && FilledAt(events, n, k, Report(events, m).fills[k])
  {
    assert m > 0;
    NextReport(events, m - 1);
    if k < |Report(events, m - 1).fills| {
      n := EveryFillHasItsEvent(events, m - 1, k);
    } else {
      n := m - 1;
      RunIsSafe(EMPTY, events[..n]);
      StepReports(After(events, n), events[n]);
      var i := k - |Report(events, n).fills|;
      assert Report(events, m).fills[k] == Step(After(events, n), events[n]).fills[i];
    }
  }

  lemma {:induction false} EveryRejectionHasItsEvent(events: seq<OrderEvent>, m: nat, k: nat) returns (n: nat)
    requires m <= |events| && k < |Report(events, m).rejections|
    ensures n < m && RejectedAt(events, n, k, Report(events, m).rejections[k])
  {
    assert m > 0;
    NextReport(events, m - 1);
    if k < |Report(events, m - 1).rejections| {
      n := EveryRejectionHasItsEvent(events, m - 1, k);
    } else {
      n := m - 1;
      RunIsSafe(EMPTY, events[..n]);
      StepReports(After(events, n), events[n]);
      var i := k - |Report(events, n).rejections|;
      assert Report(events, m).rejections[k] == Step(After(events, n), events[n]).rejections[i];
    }
  }

  // ---- where a resting order comes from

  // The order was submitted as event k, with at least the quantity it has now.
  ghost predicate SubmittedAt(events: seq<OrderEvent>, k: nat, o: Order)
    requires k < |events|
  {
    && events[k].LimitOrder? && events[k].id == o.id && events[k].side == o.side && events[k].price == o.price
    && events[k].seqNum == o.seqNum && 0 < o.qty <= events[k].qty
  }

  ghost predicate SubmittedBefore(events: seq<OrderEvent>, n: nat, o: Order)
    requires n <= |events|
  {
    exists k :: 0 <= k < n && SubmittedAt(events, k, o)
  }

  ghost predicate AllSubmitted(events: seq<OrderEvent>, n: nat, side: Side, queue: seq<Order>)
    requires n <= |events|
  {
    forall o :: o in queue ==> o.side == side && SubmittedBefore(events, n, o)
  }

  lemma LeftSubmitted(events: seq<OrderEvent>, n: nat, side: Side, queue: seq<Order>, fills: seq<FillEvent>, rest: seq<Order>)
    requires n < |events| && AllSubmitted(events, n, side, queue) && Leaves(queue, fills, rest)
    requires forall i :: 0 <= i < |fills| ==> fills[i].qty > 0
    ensures AllSubmitted(events, n + 1, side, rest)
  {
    var used := |queue| - |rest|;
    forall o | o in rest ensures o.side == side && SubmittedBefore(events, n + 1, o) {
      var i :| 0 <= i < |rest| && rest[i] == o;
      var o' := queue[used + i];
      assert o' in queue && o == o'.(qty := o.qty) && 0 < o.qty <= o'.qty;
      var k :| 0 <= k < n && SubmittedAt(events, k, o');
      assert SubmittedAt(events, k, o);
    }
  }

  lemma SomeSubmitted(events: seq<OrderEvent>, n: nat, side: Side, queue: seq<Order>, queue': seq<Order>)
    requires n < |events| && AllSubmitted(events, n, side, queue)
    requires forall o :: o in queue' ==> o in queue || (o.side == side && SubmittedAt(events, n, o))
    ensures AllSubmitted(events, n + 1, side, queue')
  {
    forall o | o in queue' ensures o.side == side && SubmittedBefore(events, n + 1, o) {
      if o in queue {
        var k :| 0 <= k < n && SubmittedAt(events, k, o);
        assert SubmittedAt(events, k, o);
      } else {
        assert SubmittedAt(events, n, o);
      }
    }
  }

  lemma LimitSubmitted(events: seq<OrderEvent>, n: nat, s: State, side: Side)
    requires n < |events| && Safe(s) && events[n].LimitOrder?
    requires AllSubmitted(events, n, side, s.Queue(side))
    ensures AllSubmitted(events, n + 1, side, Step(s, events[n]).state.Queue(side))
  {
    var e := events[n];
    var r := Step(s, e);
    LimitOrderExecution(s, e.id, e.side, e.price, e.qty, e.seqNum);
    if e.side != side {
      LeftSubmitted(events, n, side, s.Queue(side), r.fills, r.state.Queue(side));
    } else {
      if Filled(r.fills) != e.qty {
        OnlyOneMore(s.Queue(side), Order(e.id, e.side, e.price, e.qty - Filled(r.fills), e.seqNum), r.state.Queue(side));
      }
      SomeSubmitted(events, n, side, s.Queue(side), r.state.Queue(side));
    }
  }

  lemma OnlyOneMore(queue: seq<Order>, o: Order, queue': seq<Order>)
    requires RestsInto(queue, o, queue')
    ensures forall x :: x in queue' ==> x in queue || x == o
  {
  }

  lemma MarketSubmitted(events: seq<OrderEvent>, n: nat, s: State, side: Side)
    requires n < |events| && Safe(s) && events[n].MarketOrder?
    requires AllSubmitted(events, n, side, s.Queue(side))
    ensures AllSubmitted(events, n + 1, side, Step(s, events[n]).state.Queue(side))
  {
    var e := events[n];
    var r := Step(s, e);
    MarketOrderExecution(s, e.id, e.side, e.qty, e.seqNum);
    if e.side == side {
      SomeSubmitted(events, n, side, s.Queue(side), r.state.Queue(side));
    } else {
      LeftSubmitted(events, n, side, s.Queue(side), r.fills, r.state.Queue(side));
    }
  }

  lemma CancelSubmitted(events: seq<OrderEvent>, n: nat, s: State, side: Side)
    requires n < |events| && Safe(s) && events[n].CancelOrder?
    requires AllSubmitted(events, n, side, s.Queue(side))
    ensures AllSubmitted(events, n + 1, side, Step(s, events[n]).state.Queue(side))
  {
    var queue' := Step(s, events[n]).state.Queue(side);
    CancelOrderExecution(s, events[n].id);
    if queue' != s.Queue(side) {
      DroppedIsLess(s.Queue(side), events[n].id, s.index[events[n].id].1, queue');
    }
    SomeSubmitted(events, n, side, s.Queue(side), queue');
  }

  lemma DroppedIsLess(queue: seq<Order>, id: OrderId, price: Price, queue': seq<Order>)
    requires Drops(queue, id, price, queue')
    ensures forall x :: x in queue' ==> x in queue
  {
  }

  lemma StepSubmitted(events: seq<OrderEvent>, n: nat, s: State, side: Side)
    requires n < |events| && Safe(s)
    requires AllSubmitted(events, n, side, s.Queue(side))
    ensures AllSubmitted(events, n + 1, side, Step(s, events[n]).state.Queue(side))
  {
    match events[n]
    case LimitOrder(_, _, _, _, _) => LimitSubmitted(events, n, s, side);
    case MarketOrder(_, _, _, _) => MarketSubmitted(events, n, s, side);
    case CancelOrder(_) => CancelSubmitted(events, n, s, side);
  }

  // Every resting order was submitted as a limit order with this id, side, price
  // and sequence number, and has no more than the submitted quantity left.
  lemma {:induction false} RestingWereSubmitted(events: seq<OrderEvent>, n: nat, side: Side)
    requires n <= |events|
    ensures AllSubmitted(events, n, side, After(events, n).Queue(side))
  {
    if n > 0 {
      RestingWereSubmitted(events, n - 1, side);
      RunIsSafe(EMPTY, events[..n - 1]);
      AfterNext(events, n - 1);
      StepSubmitted(events, n - 1, After(events, n - 1), side);
    }
  }
}
