/** Spreading a bot fleet over worker nodes and giving each bot a scenario. */
module Scheduler {
  import opened Wrappers
  import opened RoundRobin
  import opened Apportionment

  const DEFAULT_CAPACITY: int := 500

  datatype WorkerNode = WorkerNode(name: string, currentBots: int, maxCapacity: int) {
    function Room(): int {
      (if maxCapacity <= 0 then DEFAULT_CAPACITY else maxCapacity) - currentBots
    }
  }

  datatype Scenario = MarketMaker | AggressiveTaker | CancelSpammer | MixedRetail | LatencyProber

  const SCENARIOS: seq<Scenario> := [MarketMaker, AggressiveTaker, CancelSpammer, MixedRetail, LatencyProber]

  // Relative weights, in the order of SCENARIOS; exact reals stand for the floats.
  datatype Distribution = Distribution(marketMaker: real, aggressiveTaker: real, cancelSpammer: real,
                                       mixedRetail: real, latencyProber: real)
  {
    predicate NonNegative() {
      && marketMaker >= 0.0 && aggressiveTaker >= 0.0 && cancelSpammer >= 0.0
      && mixedRetail >= 0.0 && latencyProber >= 0.0
    }

    function Total(): real {
      marketMaker + aggressiveTaker + cancelSpammer + mixedRetail + latencyProber
    }
  }

  datatype BotAssignment = BotAssignment(botIndex: nat, nodeName: string, scenario: Scenario)

  datatype ScheduleError = NoAvailableNodes | InsufficientCapacity

  // ---------------------------------------------------------------- placement

  function Eligible(nodes: seq<WorkerNode>): (r: seq<WorkerNode>)
    ensures forall i :: 0 <= i < |r| ==> r[i].Room() > 0
  {
    if nodes == [] then []
    else
      var last := nodes[|nodes| - 1];
      Eligible(nodes[..|nodes| - 1]) + if last.Room() > 0 then [last] else []
  }

  // How many more bots a node takes: up to its capacity, 500 unless it has one of its own.
  function Spare(w: WorkerNode): nat {
    var capacity := if w.maxCapacity <= 0 then 500 else w.maxCapacity;
    if w.currentBots < capacity then capacity - w.currentBots else 0
  }

  function SpareRoom(nodes: seq<WorkerNode>): nat {
    if nodes == [] then 0 else Spare(nodes[0]) + SpareRoom(nodes[1..])
  }

  // `some` are the nodes with room, each as often as it is listed, and no others.
  ghost predicate AllWithRoom(some: seq<WorkerNode>, nodes: seq<WorkerNode>) {
    forall w :: multiset(some)[w] == if Spare(w) > 0 then multiset(nodes)[w] else 0
  }

  lemma RoomIsSpare(w: WorkerNode)
    ensures w.Room() > 0 <==> Spare(w) > 0
    ensures w.Room() > 0 ==> w.Room() == Spare(w)
  {
  }

  // Exactly the nodes with room are eligible.
  lemma {:induction false} EligibleHaveRoom(nodes: seq<WorkerNode>)
    ensures AllWithRoom(Eligible(nodes), nodes)
  {
    if nodes != [] {
      var front, last := nodes[..|nodes| - 1], nodes[|nodes| - 1];
      EligibleHaveRoom(front);
      RoomIsSpare(last);
      assert nodes == front + [last];
      forall w ensures multiset(Eligible(nodes))[w] == if Spare(w) > 0 then multiset(nodes)[w] else 0 {
        assert multiset(nodes)[w] == multiset(front)[w] + multiset([last])[w];
      }
    }
  }

  // They stay in the order in which they are listed.
  lemma {:induction false} EligibleInOrder(a: seq<WorkerNode>, b: seq<WorkerNode>)
    ensures Eligible(a + b) == Eligible(a) + Eligible(b)
  {
    if b == [] {
      assert a + b == a;
    } else {
      assert (a + b)[..|a + b| - 1] == a + b[..|b| - 1];
      EligibleInOrder(a, b[..|b| - 1]);
    }
  }

  lemma NoneEligible(nodes: seq<WorkerNode>)
    ensures Eligible(nodes) == [] <==> forall i :: 0 <= i < |nodes| ==> Spare(nodes[i]) == 0
  {
    EligibleHaveRoom(nodes);
    if Eligible(nodes) == [] {
      forall i | 0 <= i < |nodes| ensures Spare(nodes[i]) == 0 {
        assert multiset(nodes)[nodes[i]] > 0;
      }
    } else {
      var w := Eligible(nodes)[0];
      assert multiset(Eligible(nodes))[w] > 0;
      assert w in nodes;
    }
  }

  lemma SpareAppend(a: seq<WorkerNode>, w: WorkerNode)
    ensures SpareRoom(a + [w]) == SpareRoom(a) + Spare(w)
    decreases |a|
  {
    if a == [] {
      assert a + [w] == [w];
    } else {
      assert (a + [w])[1..] == a[1..] + [w];
      SpareAppend(a[1..], w);
    }
  }

  // Their room is all the room there is.
  lemma {:induction false} EligibleRoom(nodes: seq<WorkerNode>)
    ensures TotalRoom(Eligible(nodes)) == SpareRoom(nodes)
  {
    if nodes != [] {
      var front, last := nodes[..|nodes| - 1], nodes[|nodes| - 1];
      EligibleRoom(front);
      RoomOfNext(Eligible(front), last);
      SpareAppend(front, last);
      assert front + [last] == nodes;
    }
  }

  lemma RoomOfNext(eligible: seq<WorkerNode>, next: WorkerNode)
    ensures TotalRoom(eligible + if next.Room() > 0 then [next] else []) == TotalRoom(eligible) + Spare(next)
  {
    RoomIsSpare(next);
    if next.Room() > 0 {
      TotalAppend(eligible, [next]);
      assert [next][1..] == [];
    } else {
      assert eligible + [] == eligible;
    }
  }

  function Rooms(nodes: seq<WorkerNode>): seq<nat>
    requires forall i :: 0 <= i < |nodes| ==> nodes[i].Room() > 0
  {
    seq(|nodes|, i requires 0 <= i < |nodes| => nodes[i].Room())
  }

  function TotalRoom(nodes: seq<WorkerNode>): int {
    if nodes == [] then 0 else nodes[0].Room() + TotalRoom(nodes[1..])
  }

  lemma {:induction false} TotalOfRooms(nodes: seq<WorkerNode>)
    requires forall i :: 0 <= i < |nodes| ==> nodes[i].Room() > 0
    ensures Sum(Rooms(nodes)) == TotalRoom(nodes)
  {
    if nodes != [] {
      TotalOfRooms(nodes[1..]);
      assert Rooms(nodes)[1..] == Rooms(nodes[1..]);
    }
  }

  lemma {:induction false} TotalAppend(a: seq<WorkerNode>, b: seq<WorkerNode>)
    ensures TotalRoom(a + b) == TotalRoom(a) + TotalRoom(b)
  {
    if a == [] {
      assert a + b == b;
    } else {
      assert (a + b)[1..] == a[1..] + b;
      TotalAppend(a[1..], b);
    }
  }

  lemma WithoutOne<T>(s: seq<T>, i: nat)
    requires i < |s|
    ensures multiset(s[..i] + s[i + 1..]) == multiset(s) - multiset{s[i]}
  {
    assert s == s[..i] + [s[i]] + s[i + 1..];
  }

  lemma {:induction false} TotalWithout(nodes: seq<WorkerNode>, i: nat)
    requires i < |nodes|
    ensures TotalRoom(nodes) == nodes[i].Room() + TotalRoom(nodes[..i] + nodes[i + 1..])
  {
    var others := nodes[..i] + nodes[i + 1..];
    if i == 0 {
      assert others == nodes[1..];
    } else {
      var tail := nodes[1..];
      TotalWithout(tail, i - 1);
      assert others[1..] == tail[..i - 1] + tail[i..];
    }
  }

  lemma RestPermuted<T>(a: seq<T>, b: seq<T>, i: nat)
    requires multiset(a) == multiset(b) && i < |b| && a != [] && b[i] == a[0]
    ensures multiset(a[1..]) == multiset(b[..i] + b[i + 1..])
  {
    WithoutOne(a, 0);
    WithoutOne(b, i);
    assert a[..0] + a[0 + 1..] == a[1..];
  }

  lemma {:induction false} TotalPermuted(a: seq<WorkerNode>, b: seq<WorkerNode>)
    requires multiset(a) == multiset(b)
    ensures TotalRoom(a) == TotalRoom(b)
  {
    if a == [] {
      assert |multiset(b)| == 0;
    } else {
      assert a[0] in multiset(b);
      var i :| 0 <= i < |b| && b[i] == a[0];
      RestPermuted(a, b, i);
      TotalPermuted(a[1..], b[..i] + b[i + 1..]);
      TotalWithout(b, i);
    }
  }

  lemma MulAtLeast(d: int, n: nat)
    ensures d >= 1 ==> d * n >= n
    ensures d <= -1 ==> d * n + n <= 0
  {
    if d >= 1 { assert (d - 1) * n >= 0; }
    if d <= -1 { assert (-d - 1) * n >= 0; }
  }

  lemma DivMod(x: nat, n: nat)
    requires n > 0
    ensures x / n * n + x % n == x && 0 <= x % n < n
  {
  }

  lemma Subtracted(q: int, r: int, n: nat, m: int, k: int)
    requires q * n + m == r * n + k
    ensures (q - r) * n == k - m
  {
  }

  lemma TurnIndex(r: nat, k: nat, n: nat)
    requires k < n
    ensures (r * n + k) % n == k
  {
    var x := r * n + k;
    DivMod(x, n);
    Subtracted(x / n, r, n, x % n, k);
    MulAtLeast(x / n - r, n);
  }

  // Places that have had r rounds and k turns, and what room is left.
  ghost predicate AtTurn(caps: seq<nat>, left: seq<int>, r: nat, k: nat) {
    && k < |caps| == |left|
    && forall j :: 0 <= j < |left| ==> left[j] == caps[j] - Held(caps[j], r, k, j)
  }

  // The turn after turn k of round r.
  function NextTurn(r: nat, k: nat, n: nat): (nat, nat) {
    if k + 1 == n then (r + 1, 0) else (r, k + 1)
  }

  lemma NextIndex(r: nat, k: nat, n: nat)
    requires k < n
    ensures var t := NextTurn(r, k, n); t.1 < n && t.0 * n + t.1 == r * n + k + 1
  {
  }

  lemma PassTurn(caps: seq<nat>, left: seq<int>, placed: seq<nat>, r: nat, k: nat)
    requires AtTurn(caps, left, r, k) && Reached(caps, placed, r, k) && left[k] == 0
    ensures var t := NextTurn(r, k, |caps|);
            AtTurn(caps, left, t.0, t.1) && Reached(caps, placed, t.0, t.1)
  {
    TurnPassed(caps, placed, r, k);
    if k + 1 == |caps| { RoundOver(caps, placed, r); }
  }

  lemma UseTurn(caps: seq<nat>, left: seq<int>, placed: seq<nat>, r: nat, k: nat)
    requires AtTurn(caps, left, r, k) && Reached(caps, placed, r, k) && left[k] != 0
    requires Fair(caps, placed)
    ensures var t := NextTurn(r, k, |caps|);
            && AtTurn(caps, left[k := left[k] - 1], t.0, t.1)
            && Reached(caps, placed + [k], t.0, t.1)
    ensures Fair(caps, placed + [k])
  {
    assert r < caps[k];
    TurnTaken(caps, placed, r, k);
    if k + 1 == |caps| { RoundOver(caps, placed + [k], r); }
    FairGrows(caps, placed, k);
  }

  // Moves on to the next node with remaining capacity. The source gives up
  // with an error once it has made more attempts than there are nodes; that
  // never happens while a node has room.
  method Probe(nodeCaps: array<int>, start: nat, ghost caps: seq<nat>, ghost placed: seq<nat>, ghost r0: nat, ghost k0: nat)
    returns (nodeIdx: nat, ghost r: nat, ghost k: nat)
    requires AtTurn(caps, nodeCaps[..], r0, k0) && Reached(caps, placed, r0, k0)
    requires start == r0 * nodeCaps.Length + k0
    requires |placed| < Sum(caps) && forall i :: 0 <= i < |placed| ==> placed[i] < |caps|
    ensures nodeCaps.Length > 0 && start <= nodeIdx < start + nodeCaps.Length
    ensures nodeCaps[nodeIdx % nodeCaps.Length] != 0
    ensures forall i: nat :: start <= i < nodeIdx ==> nodeCaps[i % nodeCaps.Length] == 0
    ensures AtTurn(caps, nodeCaps[..], r, k) && Reached(caps, placed, r, k)
    ensures nodeIdx == r * nodeCaps.Length + k && nodeIdx % nodeCaps.Length == k
  {
    var n := nodeCaps.Length;
    ghost var free := RoomSomewhere(caps, placed, r0, k0);
    assert nodeCaps[..][free] > 0;
    nodeIdx, r, k := start, r0, k0;
    TurnIndex(r, k, n);
    var attempts := 0;
    while nodeCaps[nodeIdx % n] == 0
      invariant AtTurn(caps, nodeCaps[..], r, k) && Reached(caps, placed, r, k)
      invariant nodeIdx == r * n + k && nodeIdx % n == k
      invariant nodeIdx == start + attempts && 0 <= attempts && attempts + Distance(k, free, n) < n
      invariant forall i: nat :: start <= i < nodeIdx ==> nodeCaps[i % n] == 0
      decreases Distance(k, free, n)
    {
      assert nodeCaps[..][k] == 0;
      PassTurn(caps, nodeCaps[..], placed, r, k);
      NextIndex(r, k, n);
      r, k := NextTurn(r, k, n).0, NextTurn(r, k, n).1;
      nodeIdx := nodeIdx + 1;
      TurnIndex(r, k, n);
      attempts := attempts + 1;
      assert !(attempts > n);
    }
  }

  // Deals the bots round-robin over the nodes in the given order, probing past
  // nodes that are full.
  method PlaceBots(eligible: seq<WorkerNode>, fleetSize: nat) returns (placed: seq<nat>)
    requires forall i :: 0 <= i < |eligible| ==> eligible[i].Room() > 0
    requires eligible != [] && fleetSize <= TotalRoom(eligible)
    ensures |placed| == fleetSize && Fair(Rooms(eligible), placed)
  {
    var n := |eligible|;
    ghost var caps := Rooms(eligible);
    TotalOfRooms(eligible);
    var nodeCaps := new int[n];
    for i := 0 to n
      invariant forall j :: 0 <= j < i ==> nodeCaps[j] == caps[j]
    {
      nodeCaps[i] := eligible[i].Room();
    }
    placed := [];
    var nodeIdx: nat := 0;
    ghost var r: nat, k: nat := 0, 0;
    FairFromStart(caps);
    for i := 0 to fleetSize
      invariant |placed| == i && Fair(caps, placed)
      invariant AtTurn(caps, nodeCaps[..], r, k) && Reached(caps, placed, r, k)
      invariant nodeIdx == r * n + k
    {
      nodeIdx, r, k := Probe(nodeCaps, nodeIdx, caps, placed, r, k);
      var idx := nodeIdx % n;
      ghost var left := nodeCaps[..];
      UseTurn(caps, left, placed, r, k);
      NextIndex(r, k, n);
      placed := placed + [idx];
      nodeCaps[idx] := nodeCaps[idx] - 1;
      assert nodeCaps[..] == left[k := left[k] - 1];
      nodeIdx := nodeIdx + 1;
      r, k := NextTurn(r, k, n).0, NextTurn(r, k, n).1;
    }
  }

  // Turns until place `free` comes up.
  function Distance(k: nat, free: nat, n: nat): int {
    if k <= free then free - k else free + n - k
  }

  // ---------------------------------------------------------------- scenarios

  function Weights(dist: Distribution): seq<real> {
    if dist.Total() == 0.0 then [1.0, 1.0, 1.0, 1.0, 1.0]
    else [dist.marketMaker, dist.aggressiveTaker, dist.cancelSpammer, dist.mixedRetail, dist.latencyProber]
  }

  function Share(weight: real, total: real, fleetSize: nat): real
    requires total != 0.0
  {
    weight / total * fleetSize as real
  }

  function Scaled(weights: seq<real>, total: real, fleetSize: nat): (s: seq<real>)
    requires total != 0.0
    ensures |s| == |weights|
  {
    if weights == [] then [] else [Share(weights[0], total, fleetSize)] + Scaled(weights[1..], total, fleetSize)
  }

  // Each scenario's exact share of the fleet; equal shares when all weights are zero.
  function Shares(dist: Distribution, fleetSize: nat): (s: seq<real>)
    ensures |s| == 5
  {
    Scaled(Weights(dist), TotalWeight(dist), fleetSize)
  }

  lemma ShareTimesTotal(weight: real, total: real, fleetSize: nat)
    requires total != 0.0
    ensures Share(weight, total, fleetSize) * total == weight * fleetSize as real
    ensures weight >= 0.0 && total > 0.0 ==> Share(weight, total, fleetSize) >= 0.0
  {
    assert weight / total * total == weight;
    assert weight >= 0.0 && total > 0.0 ==> weight / total >= 0.0;
  }

  lemma {:induction false} ScaledTimesTotal(weights: seq<real>, total: real, fleetSize: nat)
    requires total != 0.0
    ensures SumReal(Scaled(weights, total, fleetSize)) * total == SumReal(weights) * fleetSize as real
    ensures total > 0.0 ==>
              forall i :: 0 <= i < |weights| && weights[i] >= 0.0 ==> Scaled(weights, total, fleetSize)[i] >= 0.0
  {
    if weights != [] {
      ScaledTimesTotal(weights[1..], total, fleetSize);
      ShareTimesTotal(weights[0], total, fleetSize);
      assert Scaled(weights, total, fleetSize)[1..] == Scaled(weights[1..], total, fleetSize);
    }
  }

  lemma Cancel(s: real, total: real, weight: real, f: real)
    requires weight == total != 0.0 && s * total == weight * f
    ensures s == f
  {
    assert (s - f) * total == 0.0;
  }

  // The sum the weights are divided by: never zero, as five equal weights stand
  // in for weights that cancel out.
  function TotalWeight(dist: Distribution): (total: real)
    ensures total != 0.0 && (dist.NonNegative() ==> total > 0.0)
  {
    if dist.Total() == 0.0 then 5.0 else dist.Total()
  }

  lemma WeightsAddUp(dist: Distribution)
    ensures |Weights(dist)| == 5 && SumReal(Weights(dist)) == TotalWeight(dist)
    ensures dist.NonNegative() ==> forall i :: 0 <= i < 5 ==> Weights(dist)[i] >= 0.0
  {
    SumOfFive(1.0, 1.0, 1.0, 1.0, 1.0);
    SumOfFive(dist.marketMaker, dist.aggressiveTaker, dist.cancelSpammer, dist.mixedRetail, dist.latencyProber);
  }

  // Whatever the weights, the shares add up to the fleet.
  lemma SharesAddUp(dist: Distribution, fleetSize: nat)
    ensures SumReal(Shares(dist, fleetSize)) == fleetSize as real
    ensures dist.NonNegative() ==> forall i :: 0 <= i < 5 ==> Shares(dist, fleetSize)[i] >= 0.0
  {
    WeightsAddUp(dist);
    ScaledTimesTotal(Weights(dist), TotalWeight(dist), fleetSize);
    Cancel(SumReal(Shares(dist, fleetSize)), TotalWeight(dist), SumReal(Weights(dist)), fleetSize as real);
  }

  lemma SumOfFive(a: real, b: real, c: real, d: real, e: real)
    ensures SumReal([a, b, c, d, e]) == a + b + c + d + e
  {
    assert [e][1..] == [];
    assert SumReal([e]) == e;
    assert [d, e][1..] == [e];
    assert SumReal([d, e]) == d + e;
    assert [c, d, e][1..] == [d, e];
    assert SumReal([c, d, e]) == c + d + e;
    assert [b, c, d, e][1..] == [c, d, e];
    assert [a, b, c, d, e][1..] == [b, c, d, e];
  }

  // A scenario with a negative count never comes up.
  function Clipped(counts: seq<int>): (caps: seq<nat>)
    ensures |caps| == |counts| && forall j :: 0 <= j < |caps| ==> caps[j] == if counts[j] < 0 then 0 else counts[j]
  {
    seq(|counts|, j requires 0 <= j < |counts| => if counts[j] < 0 then 0 else counts[j])
  }

  ghost predicate AnyNegative(counts: seq<int>) {
    exists j :: 0 <= j < |counts| && counts[j] < 0
  }

  // Scenario 0, 1, ... in turn, each round passing over scenarios that are used
  // up. Writes past the end of the slice, and so panics, when a count is negative.
  method Interleave(counts: seq<int>, fleetSize: nat) returns (kinds: Option<seq<nat>>)
    requires Sum(counts) == fleetSize
    ensures kinds.None? <==> AnyNegative(counts)
    ensures kinds.Some? ==> |kinds.value| == fleetSize && Fair(counts, kinds.value)
  {
    ghost var caps := Clipped(counts);
    ClippedSum(counts);
    var interleaved := new nat[fleetSize];
    var pos, round := 0, 0;
    FairFromStart(caps);
    assert interleaved[..0] == [];
    while true
      invariant 0 <= pos <= fleetSize && 0 <= round <= Sum(caps)
      invariant Fair(caps, interleaved[..pos]) && Reached(caps, interleaved[..pos], round, 0)
      decreases Sum(caps) - round
    {
      var advanced, panicked;
      pos, advanced, panicked := InterleaveRound(counts, interleaved, pos, round);
      if panicked {
        return None;
      }
      AnyLeftSome(counts, round, |counts|);
      if !advanced {
        break;
      }
      RoundOver(caps, interleaved[..pos], round);
      ghost var j :| 0 <= j < |counts| && round < counts[j];
      CountBelowSum(caps, j);
      round := round + 1;
    }
    UsedUp(caps, interleaved[..pos], round);
    assert interleaved[..pos] == interleaved[..];
    assert caps == counts;
    kinds := Some(interleaved[..]);
  }

  // Leaving out the negative counts makes the others add up to more.
  lemma {:induction false} ClippedSum(counts: seq<int>)
    ensures Sum(counts) <= Sum(Clipped(counts))
    ensures Sum(counts) == Sum(Clipped(counts)) <==> !AnyNegative(counts)
  {
    if counts != [] {
      ClippedSum(counts[1..]);
      assert Clipped(counts)[1..] == Clipped(counts[1..]);
      if j :| 0 <= j < |counts| && counts[j] < 0 {
        if j > 0 { assert counts[1..][j - 1] < 0; }
      }
    }
  }

  // One of the first n scenarios is not used up.
  predicate AnyLeft(counts: seq<int>, round: nat, n: nat)
    requires n <= |counts|
  {
    n > 0 && (AnyLeft(counts, round, n - 1) || round < counts[n - 1])
  }

  // One round: every scenario not used up gets one more place.
  method InterleaveRound(counts: seq<int>, interleaved: array<nat>, start: nat, round: nat)
    returns (pos: nat, advanced: bool, panicked: bool)
    requires start <= interleaved.Length
    requires Fair(Clipped(counts), interleaved[..start]) && Reached(Clipped(counts), interleaved[..start], round, 0)
    modifies interleaved
    ensures pos <= interleaved.Length
    ensures panicked ==> interleaved.Length < Sum(Clipped(counts))
    ensures !panicked ==>
              && Fair(Clipped(counts), interleaved[..pos])
              && Reached(Clipped(counts), interleaved[..pos], round, |counts|)
              && (advanced <==> AnyLeft(counts, round, |counts|))
  {
    ghost var caps := Clipped(counts);
    pos, advanced, panicked := start, false, false;
    for i := 0 to |counts|
      invariant pos <= interleaved.Length
      invariant Fair(caps, interleaved[..pos]) && Reached(caps, interleaved[..pos], round, i)
      invariant advanced <==> AnyLeft(counts, round, i)
    {
      assert AnyLeft(counts, round, i + 1) <==> AnyLeft(counts, round, i) || round < counts[i];
      ghost var dealt := interleaved[..pos];
      if round < counts[i] {
        DealOne(caps, dealt, round, i);
        if pos == interleaved.Length {
          return pos, advanced, true;
        }
        interleaved[pos] := i;
        pos := pos + 1;
        assert interleaved[..pos] == dealt + [i];
        advanced := true;
      } else {
        TurnPassed(caps, dealt, round, i);
      }
    }
  }

  lemma {:induction false} AnyLeftSome(counts: seq<int>, round: nat, n: nat)
    requires n <= |counts|
    ensures AnyLeft(counts, round, n) <==> exists j :: 0 <= j < n && round < counts[j]
  {
    if n > 0 { AnyLeftSome(counts, round, n - 1); }
  }

  lemma {:induction false} CountBelowSum(counts: seq<nat>, j: nat)
    requires j < |counts|
    ensures counts[j] <= Sum(counts)
  {
    SumNonNegative(counts[1..]);
    if j > 0 {
      CountBelowSum(counts[1..], j - 1);
    }
  }

  lemma {:induction false} SumNonNegative(counts: seq<nat>)
    ensures Sum(counts) >= 0
  {
    if counts != [] { SumNonNegative(counts[1..]); }
  }

  // The slice has room for a scenario that is not used up.
  lemma SpaceLeft(counts: seq<nat>, dealt: seq<nat>, round: nat, i: nat)
    requires Fair(counts, dealt) && Reached(counts, dealt, round, i) && i < |counts| && round < counts[i]
    ensures |dealt| < Sum(counts)
  {
    var c := Counts(dealt, |counts|);
    CountsAddUp(dealt, |counts|);
    assert c[i] == round;
    SumBelow(c, counts);
  }

  lemma DealOne(counts: seq<nat>, dealt: seq<nat>, round: nat, i: nat)
    requires Fair(counts, dealt) && Reached(counts, dealt, round, i) && i < |counts| && round < counts[i]
    ensures |dealt| < Sum(counts) && Fair(counts, dealt + [i]) && Reached(counts, dealt + [i], round, i + 1)
  {
    SpaceLeft(counts, dealt, round, i);
    TurnTaken(counts, dealt, round, i);
    FairGrows(counts, dealt, i);
  }

  lemma UsedUp(counts: seq<nat>, dealt: seq<nat>, round: nat)
    requires Fair(counts, dealt) && Reached(counts, dealt, round, |counts|)
    requires forall j :: 0 <= j < |counts| ==> counts[j] <= round
    ensures |dealt| == Sum(counts)
  {
    CountsAddUp(dealt, |counts|);
    assert Counts(dealt, |counts|) == counts;
  }

  // Counts as close to the shares as whole numbers get, interleaved. There is
  // no result exactly when one of these counts is negative.
  method AssignScenarios(fleetSize: nat, dist: Distribution) returns (kinds: Option<seq<nat>>, ghost counts: seq<int>)
    ensures |counts| == 5 && Sum(counts) == fleetSize
    ensures WithinQuota(counts, Shares(dist, fleetSize)) && Closest(counts, Shares(dist, fleetSize))
    ensures kinds.None? <==> AnyNegative(counts)
    ensures kinds.Some? ==> |kinds.value| == fleetSize && Fair(counts, kinds.value)
  {
    SharesAddUp(dist, fleetSize);
    var result := LargestRemainder(Shares(dist, fleetSize), fleetSize);
    kinds := Interleave(result, fleetSize);
    counts := result;
  }

  // Counts within their quotas are not negative when the weights are not; a
  // share of minus one or less makes one negative.
  lemma NegativeCounts(dist: Distribution, fleetSize: nat, counts: seq<int>)
    requires WithinQuota(counts, Shares(dist, fleetSize))
    ensures dist.NonNegative() ==> !AnyNegative(counts)
    ensures (exists j :: 0 <= j < 5 && Shares(dist, fleetSize)[j] <= -1.0) ==> AnyNegative(counts)
  {
    SharesAddUp(dist, fleetSize);
    if j :| 0 <= j < 5 && Shares(dist, fleetSize)[j] <= -1.0 {
      assert counts[j] < 0;
    }
  }

  // Weights 2, -1, 0, 0, 0 for one bot: two places for one scenario.
  lemma NegativeWeightPanics(counts: seq<int>)
    requires WithinQuota(counts, Shares(Distribution(2.0, -1.0, 0.0, 0.0, 0.0), 1))
    ensures AnyNegative(counts)
  {
    var dist := Distribution(2.0, -1.0, 0.0, 0.0, 0.0);
    var weights := Weights(dist);
    assert Shares(dist, 1)[1] == Scaled(weights[1..], 1.0, 1)[0] == Share(-1.0, 1.0, 1) == -1.0;
    NegativeCounts(dist, 1, counts);
  }

  // ----------------------------------------------------------------- schedule

  ghost predicate LeastLoadedFirst(nodes: seq<WorkerNode>) {
    forall i, j :: 0 <= i < j < |nodes| ==> nodes[i].currentBots <= nodes[j].currentBots
  }

  // A sorted permutation; nothing is promised about equally loaded nodes.
  method SortByLoad(nodes: seq<WorkerNode>) returns (sorted: seq<WorkerNode>)
    ensures LeastLoadedFirst(sorted) && multiset(sorted) == multiset(nodes)
  {
    var load := (node: WorkerNode) => node.currentBots as real;
    sorted := SortByKey(nodes, load);
    forall i, j | 0 <= i < j < |sorted| ensures sorted[i].currentBots <= sorted[j].currentBots {
      assert load(sorted[i]) <= load(sorted[j]);
    }
  }

  method SelectEligible(nodes: seq<WorkerNode>) returns (eligible: seq<WorkerNode>)
    ensures eligible == Eligible(nodes)
  {
    eligible := [];
    for i := 0 to |nodes|
      invariant eligible == Eligible(nodes[..i])
    {
      assert nodes[..i + 1][..i] == nodes[..i];
      if nodes[i].Room() > 0 {
        eligible := eligible + [nodes[i]];
      }
    }
    assert nodes[..|nodes|] == nodes;
  }

  method TotalCapacity(eligible: seq<WorkerNode>) returns (totalCap: int)
    ensures totalCap == TotalRoom(eligible)
  {
    totalCap := 0;
    for i := 0 to |eligible|
      invariant totalCap == TotalRoom(eligible[..i])
    {
      assert eligible[..i + 1] == eligible[..i] + [eligible[i]];
      TotalAppend(eligible[..i], [eligible[i]]);
      totalCap := totalCap + eligible[i].Room();
    }
    assert eligible[..|eligible|] == eligible;
  }

  datatype Outcome =
    | Scheduled(assignments: seq<BotAssignment>)
    | Refused(error: ScheduleError)
    | Panicked

  // Bots round-robin over all nodes with room, least loaded first, and scenarios
  // round-robin in the apportioned numbers.
  ghost predicate FairSchedule(assignments: seq<BotAssignment>, fleetSize: nat, nodes: seq<WorkerNode>,
                               sorted: seq<WorkerNode>, placed: seq<nat>, kinds: seq<nat>, counts: seq<int>)
  {
    && AllWithRoom(sorted, nodes) && LeastLoadedFirst(sorted)
    && Fair(SpareOf(sorted), placed)
    && |counts| == 5 && !AnyNegative(counts) && Fair(counts, kinds) && Sum(counts) == fleetSize
    && |assignments| == |placed| == |kinds| == fleetSize
    && (forall i :: 0 <= i < fleetSize ==> placed[i] < |sorted| && kinds[i] < 5)
    && forall i :: 0 <= i < fleetSize ==>
         assignments[i] == BotAssignment(i, sorted[placed[i]].name, SCENARIOS[kinds[i]])
  }

  function SpareOf(nodes: seq<WorkerNode>): seq<nat> {
    seq(|nodes|, i requires 0 <= i < |nodes| => Spare(nodes[i]))
  }

  lemma RoomsAreSpare(nodes: seq<WorkerNode>)
    requires forall i :: 0 <= i < |nodes| ==> nodes[i].Room() > 0
    ensures Rooms(nodes) == SpareOf(nodes)
  {
    forall i | 0 <= i < |nodes| ensures Rooms(nodes)[i] == SpareOf(nodes)[i] {
      RoomIsSpare(nodes[i]);
    }
  }

  lemma SortedAreEligible(nodes: seq<WorkerNode>, sorted: seq<WorkerNode>)
    requires multiset(sorted) == multiset(Eligible(nodes))
    ensures AllWithRoom(sorted, nodes)
  {
    EligibleHaveRoom(nodes);
  }

  // ---- each scenario's number of bots

  function Weight(dist: Distribution, scenario: Scenario): real {
    match scenario
    case MarketMaker => dist.marketMaker
    case AggressiveTaker => dist.aggressiveTaker
    case CancelSpammer => dist.cancelSpammer
    case MixedRetail => dist.mixedRetail
    case LatencyProber => dist.latencyProber
  }

  // The share that belongs to the scenario's own weight, or a fifth of the
  // fleet when the weights add up to zero.
  ghost predicate IsShare(dist: Distribution, fleetSize: nat, scenario: Scenario, share: real) {
    var total := dist.marketMaker + dist.aggressiveTaker + dist.cancelSpammer + dist.mixedRetail + dist.latencyProber;
    if total == 0.0 then 5.0 * share == fleetSize as real
    else share * total == Weight(dist, scenario) * fleetSize as real
  }

  function Position(scenario: Scenario): nat {
    match scenario
    case MarketMaker => 0
    case AggressiveTaker => 1
    case CancelSpammer => 2
    case MixedRetail => 3
    case LatencyProber => 4
  }

  function BotsWith(assignments: seq<BotAssignment>, scenario: Scenario): nat {
    if assignments == [] then 0
    else
      var n := |assignments| - 1;
      BotsWith(assignments[..n], scenario) + if assignments[n].scenario == scenario then 1 else 0
  }

  ghost predicate NearShare(dist: Distribution, fleetSize: nat, scenario: Scenario, count: int) {
    exists share: real :: IsShare(dist, fleetSize, scenario, share) && Near(count, share)
  }

  ghost predicate Near(count: int, share: real) {
    -1.0 < count as real - share < 1.0
  }

  lemma ShareAt(weights: seq<real>, total: real, fleetSize: nat, i: nat)
    requires total != 0.0 && i < |weights|
    ensures Scaled(weights, total, fleetSize)[i] == Share(weights[i], total, fleetSize)
    decreases |weights|
  {
    if i > 0 { ShareAt(weights[1..], total, fleetSize, i - 1); }
  }

  lemma WeightAt(dist: Distribution, scenario: Scenario)
    ensures SCENARIOS[Position(scenario)] == scenario
    ensures Weights(dist)[Position(scenario)] == if dist.Total() == 0.0 then 1.0 else Weight(dist, scenario)
  {
  }

  lemma SharesAre(dist: Distribution, fleetSize: nat, scenario: Scenario)
    ensures SCENARIOS[Position(scenario)] == scenario
    ensures IsShare(dist, fleetSize, scenario, Shares(dist, fleetSize)[Position(scenario)])
  {
    WeightAt(dist, scenario);
    var i, total := Position(scenario), TotalWeight(dist);
    var weight := Weights(dist)[i];
    ShareAt(Weights(dist), total, fleetSize, i);
    assert Share(weight, total, fleetSize) * total == weight * fleetSize as real by {
      ShareTimesTotal(weight, total, fleetSize);
    }
  }

  lemma {:induction false} BotsCounted(assignments: seq<BotAssignment>, kinds: seq<nat>, scenario: Scenario)
    requires |assignments| == |kinds|
    requires forall i :: 0 <= i < |kinds| ==> kinds[i] < 5 && assignments[i].scenario == SCENARIOS[kinds[i]]
    ensures BotsWith(assignments, scenario) == Count(kinds, Position(scenario))
  {
    if kinds != [] {
      var n := |kinds| - 1;
      BotsCounted(assignments[..n], kinds[..n], scenario);
      assert SCENARIOS[kinds[n]] == scenario <==> kinds[n] == Position(scenario);
    }
  }

  // Each scenario gets its share of the fleet, rounded one way or the other.
  lemma ScenarioNumbers(assignments: seq<BotAssignment>, fleetSize: nat, dist: Distribution, kinds: seq<nat>,
                        counts: seq<int>, scenario: Scenario)
    requires |counts| == 5 && !AnyNegative(counts) && Fair(counts, kinds) && Sum(counts) == fleetSize
    requires |assignments| == |kinds| == fleetSize && WithinQuota(counts, Shares(dist, fleetSize))
    requires forall i :: 0 <= i < fleetSize ==> kinds[i] < 5 && assignments[i].scenario == SCENARIOS[kinds[i]]
    ensures NearShare(dist, fleetSize, scenario, BotsWith(assignments, scenario))
  {
    var j := Position(scenario);
    BotsCounted(assignments, kinds, scenario);
    ScenarioTotals(counts, kinds, j);
    SharesAre(dist, fleetSize, scenario);
    assert Near(counts[j], Shares(dist, fleetSize)[j]);
  }

  // Refused only for want of nodes or of room, in that order. Panics exactly
  // when the fleet size or an apportioned count is negative.
  method Schedule(fleetSize: int, nodes: seq<WorkerNode>, dist: Distribution)
    returns (r: Outcome,
             ghost sorted: seq<WorkerNode>, ghost placed: seq<nat>, ghost kinds: seq<nat>, ghost counts: seq<int>)
    ensures r == Refused(NoAvailableNodes) <==> forall i :: 0 <= i < |nodes| ==> Spare(nodes[i]) == 0
    ensures r == Refused(InsufficientCapacity)
            <==> (exists i :: 0 <= i < |nodes| && Spare(nodes[i]) > 0) && SpareRoom(nodes) < fleetSize
    ensures r.Panicked? <==> !r.Refused? && (fleetSize < 0 || AnyNegative(counts))
    ensures !r.Refused? && fleetSize >= 0 ==>
              && WithinQuota(counts, Shares(dist, fleetSize)) && Closest(counts, Shares(dist, fleetSize))
              && Sum(counts) == fleetSize
    ensures r.Panicked? ==> fleetSize < 0 || !dist.NonNegative()
    ensures r.Scheduled? ==>
              fleetSize >= 0 && FairSchedule(r.assignments, fleetSize, nodes, sorted, placed, kinds, counts)
    ensures r.Scheduled? ==> forall scenario :: NearShare(dist, fleetSize, scenario, BotsWith(r.assignments, scenario))
  {
    sorted, placed, kinds, counts := [], [], [], [];
    var eligible := SelectEligible(nodes);
    NoneEligible(nodes);
    if |eligible| == 0 {
      return Refused(NoAvailableNodes), sorted, placed, kinds, counts;
    }
    var totalCap := TotalCapacity(eligible);
    EligibleRoom(nodes);
    if totalCap < fleetSize {
      return Refused(InsufficientCapacity), sorted, placed, kinds, counts;
    }
    var inOrder := SortByLoad(eligible);
    SortedHaveRoom(nodes, inOrder);
    if fleetSize < 0 {
      return Panicked, sorted, placed, kinds, counts;
    }
    var nodeOf := PlaceBots(inOrder, fleetSize);
    RoomsAreSpare(inOrder);
    SortedAreEligible(nodes, inOrder);
    var scenarioOf;
    scenarioOf, counts := AssignScenarios(fleetSize, dist);
    NegativeCounts(dist, fleetSize, counts);
    if scenarioOf.None? {
      return Panicked, sorted, placed, kinds, counts;
    }
    var assignments := Assemble(fleetSize, inOrder, nodeOf, scenarioOf.value);
    forall scenario ensures NearShare(dist, fleetSize, scenario, BotsWith(assignments, scenario)) {
      ScenarioNumbers(assignments, fleetSize, dist, scenarioOf.value, counts, scenario);
    }
    return Scheduled(assignments), inOrder, nodeOf, scenarioOf.value, counts;
  }

  method Assemble(fleetSize: nat, nodes: seq<WorkerNode>, nodeOf: seq<nat>, scenarioOf: seq<nat>)
    returns (assignments: seq<BotAssignment>)
    requires |nodeOf| == |scenarioOf| == fleetSize
    requires forall i :: 0 <= i < fleetSize ==> nodeOf[i] < |nodes| && scenarioOf[i] < 5
    ensures |assignments| == fleetSize
    ensures forall i :: 0 <= i < fleetSize ==>
              assignments[i] == BotAssignment(i, nodes[nodeOf[i]].name, SCENARIOS[scenarioOf[i]])
  {
    assignments := [];
    for i := 0 to fleetSize
      invariant |assignments| == i
      invariant forall j :: 0 <= j < i ==>
                  assignments[j] == BotAssignment(j, nodes[nodeOf[j]].name, SCENARIOS[scenarioOf[j]])
    {
      assignments := assignments + [BotAssignment(i, nodes[nodeOf[i]].name, SCENARIOS[scenarioOf[i]])];
    }
  }

  lemma SortedHaveRoom(nodes: seq<WorkerNode>, sorted: seq<WorkerNode>)
    requires multiset(sorted) == multiset(Eligible(nodes))
    ensures |sorted| == |Eligible(nodes)| && TotalRoom(sorted) == TotalRoom(Eligible(nodes))
    ensures forall i :: 0 <= i < |sorted| ==> sorted[i].Room() > 0
  {
    TotalPermuted(sorted, Eligible(nodes));
    assert |multiset(sorted)| == |multiset(Eligible(nodes))|;
    forall i | 0 <= i < |sorted| ensures sorted[i].Room() > 0 {
      assert sorted[i] in multiset(Eligible(nodes));
    }
  }

  // The interleaver is the node placement again: dealing scenarios in turn and
  // dealing bots to nodes with those capacities give the same sequence.
  lemma InterleavingIsPlacement(counts: seq<nat>, kinds: seq<nat>, placed: seq<nat>)
    requires Fair(counts, kinds) && Fair(counts, placed) && |kinds| == |placed|
    ensures kinds == placed
  {
    FairIsUnique(counts, kinds, placed);
  }

  // Exactly counts[j] bots get scenario j.
  lemma ScenarioTotals(counts: seq<nat>, kinds: seq<nat>, j: nat)
    requires Fair(counts, kinds) && |kinds| == Sum(counts) && j < |counts|
    ensures Count(kinds, j) == counts[j]
  {
    AllDealt(counts, kinds, j);
  }
}
