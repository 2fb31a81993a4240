/** Largest-remainder apportionment in exact arithmetic: quotas are kept and no
    other whole-number division is closer to the shares. */
module Apportionment {
  import opened RoundRobin

  datatype Indexed = Indexed(key: real, item: nat)

  function Items(s: seq<Indexed>): seq<nat> {
    seq(|s|, i requires 0 <= i < |s| => s[i].item)
  }

  function SumReal(s: seq<real>): real {
    if s == [] then 0.0 else s[0] + SumReal(s[1..])
  }

  function Abs(x: real): real {
    if x < 0.0 then -x else x
  }

  // Total absolute deviation of whole counts from real shares.
  function Deviation(counts: seq<int>, shares: seq<real>): real
    requires |counts| == |shares|
  {
    if counts == [] then 0.0
    else Abs(counts[0] as real - shares[0]) + Deviation(counts[1..], shares[1..])
  }

  // No other integer vector with this sum is closer to the shares.
  ghost predicate Closest(counts: seq<int>, shares: seq<real>)
    requires |counts| == |shares|
  {
    forall c: seq<int> | |c| == |shares| && Sum(c) == Sum(counts) ::
      Deviation(counts, shares) <= Deviation(c, shares)
  }

  // Each count is its share rounded down, or up when there is something to round.
  ghost predicate WithinQuota(counts: seq<int>, shares: seq<real>) {
    && |counts| == |shares|
    && forall i :: 0 <= i < |counts| ==>
         || counts[i] == shares[i].Floor
         || (counts[i] == shares[i].Floor + 1 && shares[i].Floor as real < shares[i])
  }

  // ------------------------------------------------------------------ sorting

  ghost predicate Ascending<T>(s: seq<T>, key: T -> real) {
    forall i, j :: 0 <= i < j < |s| ==> key(s[i]) <= key(s[j])
  }

  // A sorted permutation; nothing is promised about equal keys.
  method SortByKey<T>(items: seq<T>, key: T -> real) returns (sorted: seq<T>)
    ensures Ascending(sorted, key) && multiset(sorted) == multiset(items)
  {
    sorted := [];
    for n := 0 to |items|
      invariant Ascending(sorted, key) && multiset(sorted) == multiset(items[..n])
    {
      assert items[..n + 1] == items[..n] + [items[n]];
      sorted := Insert(sorted, items[n], key);
    }
    assert items[..|items|] == items;
  }

  method Insert<T>(s: seq<T>, x: T, key: T -> real) returns (s': seq<T>)
    requires Ascending(s, key)
    ensures Ascending(s', key) && multiset(s') == multiset(s) + multiset{x}
  {
    var pos: nat := |s|;
    while pos > 0 && key(x) < key(s[pos - 1])
      invariant pos <= |s|
      invariant forall i :: pos <= i < |s| ==> key(x) < key(s[i])
    {
      pos := pos - 1;
    }
    InsertedAscending(s, pos, x, key);
    InsertedOnce(s, pos, x);
    s' := s[..pos] + [x] + s[pos..];
  }

  lemma InsertedOnce<T>(s: seq<T>, pos: nat, x: T)
    requires pos <= |s|
    ensures multiset(s[..pos] + [x] + s[pos..]) == multiset(s) + multiset{x}
  {
    assert s == s[..pos] + s[pos..];
  }

  lemma InsertedAscending<T>(s: seq<T>, pos: nat, x: T, key: T -> real)
    requires Ascending(s, key) && pos <= |s|
    requires pos > 0 ==> key(s[pos - 1]) <= key(x)
    requires forall i :: pos <= i < |s| ==> key(x) < key(s[i])
    ensures Ascending(s[..pos] + [x] + s[pos..], key)
  {
    var s' := s[..pos] + [x] + s[pos..];
    assert forall i :: 0 <= i < pos ==> s'[i] == s[i] && key(s[i]) <= key(x);
    assert forall i :: pos < i < |s'| ==> s'[i] == s[i - 1];
  }

  lemma TwiceCounted<T>(s: seq<T>, i: nat, j: nat)
    requires i < j < |s| && s[i] == s[j]
    ensures multiset(s)[s[i]] >= 2
  {
    assert s == s[..j] + [s[j]] + s[j + 1..];
    assert s[..j][i] == s[j];
  }

  lemma {:induction false} OnceCounted<T>(s: seq<T>, i: nat)
    requires i < |s| && forall j :: 0 <= j < |s| && j != i ==> s[j] != s[i]
    ensures multiset(s)[s[i]] == 1
  {
    assert s == s[..i] + [s[i]] + s[i + 1..];
    assert s[i] !in s[..i] && s[i] !in s[i + 1..];
  }

  function WithIndices(keys: seq<real>): seq<Indexed> {
    seq(|keys|, i requires 0 <= i < |keys| => Indexed(keys[i], i))
  }

  predicate Lists(sorted: seq<Indexed>, i: nat) {
    exists p :: 0 <= p < |sorted| && sorted[p].item == i
  }

  // The indices in a sorted list of (key, index) pairs: each index once.
  lemma SortedIndices(keys: seq<real>, sorted: seq<Indexed>)
    requires multiset(sorted) == multiset(WithIndices(keys))
    ensures |sorted| == |keys|
    ensures forall p :: 0 <= p < |sorted| ==> sorted[p].item < |keys| && sorted[p].key == keys[sorted[p].item]
    ensures forall p, q :: 0 <= p < q < |sorted| ==> sorted[p].item != sorted[q].item
    ensures forall i :: 0 <= i < |keys| ==> Lists(sorted, i)
  {
    var items := WithIndices(keys);
    assert |multiset(sorted)| == |multiset(items)|;
    forall p | 0 <= p < |sorted|
      ensures sorted[p].item < |keys| && sorted[p].key == keys[sorted[p].item]
    {
      assert sorted[p] in multiset(items);
    }
    forall p, q | 0 <= p < q < |sorted| ensures sorted[p].item != sorted[q].item {
      if sorted[p].item == sorted[q].item {
        TwiceCounted(sorted, p, q);
        OnceCounted(items, sorted[p].item);
      }
    }
    forall i | 0 <= i < |keys| ensures Lists(sorted, i) {
      assert items[i] in multiset(sorted);
    }
  }

  // --------------------------------------------------------------- optimality

  // d times the slope, as repeated addition.
  function Times(slope: real, d: int): real
    decreases if d < 0 then -d else d
  {
    if d == 0 then 0.0 else if d > 0 then Times(slope, d - 1) + slope else Times(slope, d + 1) - slope
  }

  lemma {:induction false} TimesAdds(slope: real, d: int, e: int)
    ensures Times(slope, d + e) == Times(slope, d) + Times(slope, e)
    decreases if d < 0 then -d else d
  {
    if d > 0 {
      TimesAdds(slope, d - 1, e);
    } else if d < 0 {
      TimesAdds(slope, d + 1, e);
    }
  }

  lemma {:induction false} TimesBound(slope: real, d: int)
    requires -1.0 <= slope <= 1.0
    ensures d >= 1 ==> Times(slope, d) <= slope + (d - 1) as real
    ensures d <= -1 ==> Times(slope, d) <= -slope + (-d - 1) as real
    decreases if d < 0 then -d else d
  {
    if d > 1 {
      TimesBound(slope, d - 1);
    } else if d < -1 {
      TimesBound(slope, d + 1);
    }
  }

  // The count is its share rounded up with a remainder of at least t, or
  // rounded down with a remainder of at most t.
  ghost predicate CutAt(count: int, share: real, t: real) {
    || (count == share.Floor + 1 && t <= Remainder(share))
    || (count == share.Floor && Remainder(share) <= t)
  }

  // Moving one count away from its rounding costs at least the slope set by
  // the cut-off remainder t, for every unit moved.
  lemma ExchangeOne(c: int, a: int, share: real, t: real)
    requires 0.0 <= t <= 1.0 && CutAt(a, share, t)
    ensures Abs(c as real - share) - Abs(a as real - share) >= Times(1.0 - 2.0 * t, c - a)
  {
    TimesBound(1.0 - 2.0 * t, c - a);
    assert share == share.Floor as real + Remainder(share);
  }

  lemma {:induction false} ExchangeAll(c: seq<int>, a: seq<int>, shares: seq<real>, t: real)
    requires |c| == |a| == |shares| && 0.0 <= t <= 1.0
    requires forall i :: 0 <= i < |a| ==> CutAt(a[i], shares[i], t)
    ensures Deviation(c, shares) - Deviation(a, shares) >= Times(1.0 - 2.0 * t, Sum(c) - Sum(a))
  {
    if c != [] {
      ExchangeAll(c[1..], a[1..], shares[1..], t);
      ExchangeOne(c[0], a[0], shares[0], t);
      TimesAdds(1.0 - 2.0 * t, c[0] - a[0], Sum(c[1..]) - Sum(a[1..]));
    }
  }

  // Rounding up the largest remainders is as close as whole numbers get.
  lemma CutIsClosest(a: seq<int>, shares: seq<real>, t: real)
    requires |a| == |shares| && 0.0 <= t <= 1.0
    requires forall i :: 0 <= i < |a| ==> CutAt(a[i], shares[i], t)
    ensures Closest(a, shares)
  {
    forall c: seq<int> | |c| == |shares| && Sum(c) == Sum(a)
      ensures Deviation(a, shares) <= Deviation(c, shares)
    {
      ExchangeAll(c, a, shares, t);
    }
  }

  // --------------------------------------------------------------- the method

  lemma {:induction false} RemaindersBound(shares: seq<real>, up: seq<int>)
    requires |up| == |shares|
    requires forall i :: 0 <= i < |up| ==> Remainder(shares[i]) <= (up[i] - shares[i].Floor) as real
    ensures SumReal(shares) <= Sum(up) as real
    ensures (exists i :: 0 <= i < |up| && shares[i] < up[i] as real) ==> SumReal(shares) < Sum(up) as real
  {
    if up != [] {
      RemaindersBound(shares[1..], up[1..]);
      if i :| 0 <= i < |up| && shares[i] < up[i] as real {
        if i > 0 { assert shares[1..][i - 1] < up[1..][i - 1] as real; }
      }
    }
  }

  lemma {:induction false} FloorsBelow(shares: seq<real>, floors: seq<int>)
    requires |floors| == |shares| && forall i :: 0 <= i < |floors| ==> floors[i] == shares[i].Floor
    ensures Sum(floors) as real <= SumReal(shares)
    ensures shares != [] ==> SumReal(shares) < (Sum(floors) + |shares|) as real
  {
    if floors != [] {
      FloorsBelow(shares[1..], floors[1..]);
    }
  }

  function Floors(shares: seq<real>): seq<int> {
    seq(|shares|, i requires 0 <= i < |shares| => shares[i].Floor)
  }

  function Remainder(share: real): (r: real)
    ensures 0.0 <= r < 1.0
  {
    share - share.Floor as real
  }

  // The indices by descending remainder; the first `bumped` of them are rounded up.
  ghost predicate RoundedUp(counts: seq<int>, shares: seq<real>, order: seq<nat>, bumped: nat) {
    && |counts| == |shares| == |order| && bumped <= |order|
    && (forall p :: 0 <= p < |order| ==>
          && order[p] < |shares|
          && counts[order[p]] == shares[order[p]].Floor + if p < bumped then 1 else 0)
    && (forall p, q :: 0 <= p < q < |order| ==>
          order[p] != order[q] && Remainder(shares[order[q]]) <= Remainder(shares[order[p]]))
    && (forall i :: 0 <= i < |shares| ==> i in order)
  }

  lemma BumpOne(counts: seq<int>, shares: seq<real>, order: seq<nat>, bumped: nat)
    requires RoundedUp(counts, shares, order, bumped) && bumped < |order|
    ensures var i := order[bumped];
            && RoundedUp(counts[i := counts[i] + 1], shares, order, bumped + 1)
            && Sum(counts[i := counts[i] + 1]) == Sum(counts) + 1
  {
    SumUpdate(counts, order[bumped], counts[order[bumped]] + 1);
  }

  ghost function PositiveRemainders(shares: seq<real>): set<nat> {
    set i: nat | i < |shares| && Remainder(shares[i]) > 0.0
  }

  // So many leftover places leave some fractional share that gets none.
  ghost predicate FewerThanFractional(places: int, shares: seq<real>) {
    0 <= places && if PositiveRemainders(shares) == {} then places == 0 else places < |PositiveRemainders(shares)|
  }

  // Only fractional shares are rounded up, and not all of them: as long as any
  // share is fractional, there are fewer leftover places than fractional shares.
  lemma BumpedArePositive(counts: seq<int>, shares: seq<real>, order: seq<nat>, bumped: nat)
    requires RoundedUp(counts, shares, order, bumped)
    requires Sum(counts) as real == SumReal(shares)
    ensures forall p :: 0 <= p < bumped ==> Remainder(shares[order[p]]) > 0.0
    ensures FewerThanFractional(bumped, shares)
  {
    if bumped > 0 {
      LastBumpedIsPositive(counts, shares, order, bumped);
      assert order[bumped - 1] in PositiveRemainders(shares);
    }
    if i: nat :| i in PositiveRemainders(shares) {
      var next := AnotherIsPositive(counts, shares, order, bumped, i);
      FirstAreDistinct(shares, order, bumped, next);
    }
  }

  lemma LastBumpedIsPositive(counts: seq<int>, shares: seq<real>, order: seq<nat>, bumped: nat)
    requires RoundedUp(counts, shares, order, bumped) && bumped > 0
    requires Sum(counts) as real == SumReal(shares)
    ensures Remainder(shares[order[bumped - 1]]) > 0.0
  {
    var last := order[bumped - 1];
    var up := counts[last := counts[last] - 1];
    SumUpdate(counts, last, counts[last] - 1);
    if Remainder(shares[last]) == 0.0 {
      forall i | 0 <= i < |up| ensures Remainder(shares[i]) <= (up[i] - shares[i].Floor) as real {
        assert i in order;
        var p :| 0 <= p < |order| && order[p] == i;
      }
      RemaindersBound(shares, up);
    }
  }

  // If every fractional share were rounded up, the counts would exceed the shares.
  lemma AnotherIsPositive(counts: seq<int>, shares: seq<real>, order: seq<nat>, bumped: nat, i: nat) returns (next: nat)
    requires RoundedUp(counts, shares, order, bumped)
    requires Sum(counts) as real == SumReal(shares)
    requires i < |shares| && Remainder(shares[i]) > 0.0
    ensures bumped <= next < |order| && Remainder(shares[order[next]]) > 0.0
  {
    if forall p :: bumped <= p < |order| ==> Remainder(shares[order[p]]) == 0.0 {
      forall j | 0 <= j < |counts| ensures Remainder(shares[j]) <= (counts[j] - shares[j].Floor) as real {
        assert j in order;
        var p :| 0 <= p < |order| && order[p] == j;
      }
      assert i in order;
      var p :| 0 <= p < |order| && order[p] == i;
      assert shares[i] < counts[i] as real;
      RemaindersBound(shares, counts);
      assert false;
    }
    next :| bumped <= next < |order| && Remainder(shares[order[next]]) != 0.0;
  }

  lemma FirstAreDistinct(shares: seq<real>, order: seq<nat>, bumped: nat, next: nat)
    requires bumped <= next < |order|
    requires forall p :: 0 <= p < |order| ==> order[p] < |shares|
    requires forall p, q :: 0 <= p < q < |order| ==> order[p] != order[q]
    requires forall p :: 0 <= p < bumped || p == next ==> Remainder(shares[order[p]]) > 0.0
    ensures bumped < |PositiveRemainders(shares)|
  {
    var chosen := order[..bumped] + [order[next]];
    assert forall p, q :: 0 <= p < q < |chosen| ==> chosen[p] != chosen[q];
    DistinctFit(chosen, PositiveRemainders(shares));
  }

  lemma {:induction false} DistinctFit(s: seq<nat>, elements: set<nat>)
    requires forall p :: 0 <= p < |s| ==> s[p] in elements
    requires forall p, q :: 0 <= p < q < |s| ==> s[p] != s[q]
    ensures |s| <= |elements|
  {
    if s != [] {
      DistinctFit(s[1..], elements - {s[0]});
    }
  }

  lemma RoundedUpIsBest(counts: seq<int>, shares: seq<real>, order: seq<nat>, bumped: nat)
    requires RoundedUp(counts, shares, order, bumped)
    requires Sum(counts) as real == SumReal(shares)
    ensures WithinQuota(counts, shares) && Closest(counts, shares) && FewerThanFractional(bumped, shares)
  {
    var t := if bumped == 0 then 1.0 else Remainder(shares[order[bumped - 1]]);
    BumpedArePositive(counts, shares, order, bumped);
    forall i | 0 <= i < |counts|
      ensures CutAt(counts[i], shares[i], t) && (counts[i] == shares[i].Floor || Remainder(shares[i]) > 0.0)
    {
      assert i in order;
      var p :| 0 <= p < |order| && order[p] == i;
    }
    CutIsClosest(counts, shares, t);
  }

  // Floors first, then one more for each of the largest remainders until the
  // counts add up.
  method LargestRemainder(shares: seq<real>, fleetSize: nat) returns (result: seq<int>)
    requires shares != [] && SumReal(shares) == fleetSize as real
    ensures Sum(result) == fleetSize
    ensures WithinQuota(result, shares)
    ensures Closest(result, shares)
    ensures FewerThanFractional(fleetSize - Sum(Floors(shares)), shares)
  {
    var counts, remainders, allotted := FloorCounts(shares);
    FloorsBelow(shares, Floors(shares));
    var remaining := fleetSize - allotted;
    var sorted := SortDescending(remainders);
    ghost var order := OrderOf(counts[..], shares, sorted);
    for m := 0 to remaining
      invariant RoundedUp(counts[..], shares, order, m)
      invariant Sum(counts[..]) == allotted + m
    {
      BumpOne(counts[..], shares, order, m);
      var i := sorted[m].item;
      ghost var bumped := counts[..][i := counts[..][i] + 1];
      counts[i] := counts[i] + 1;
      assert counts[..] == bumped;
    }
    result := counts[..];
    RoundedUpIsBest(result, shares, order, remaining);
  }

  method FloorCounts(shares: seq<real>) returns (counts: array<int>, remainders: seq<real>, allotted: int)
    ensures fresh(counts) && counts[..] == Floors(shares) && allotted == Sum(Floors(shares))
    ensures |remainders| == |shares| && forall i :: 0 <= i < |shares| ==> remainders[i] == Remainder(shares[i])
  {
    var n := |shares|;
    counts := new int[n];
    var rest := new real[n];
    allotted := 0;
    for i := 0 to n
      invariant forall j :: 0 <= j < i ==> counts[j] == Floors(shares)[j] && rest[j] == Remainder(shares[j])
      invariant allotted == Sum(Floors(shares)[..i])
    {
      counts[i] := shares[i].Floor;
      rest[i] := shares[i] - counts[i] as real;
      allotted := allotted + counts[i];
      SumAppend(Floors(shares)[..i], counts[i]);
      assert Floors(shares)[..i + 1] == Floors(shares)[..i] + [counts[i]];
    }
    assert Floors(shares)[..n] == Floors(shares);
    remainders := rest[..];
  }

  lemma OrderOf(counts: seq<int>, shares: seq<real>, sorted: seq<Indexed>) returns (order: seq<nat>)
    requires counts == Floors(shares) && |sorted| == |shares|
    requires forall p :: 0 <= p < |sorted| ==> sorted[p].item < |shares|
    requires forall p, q :: 0 <= p < q < |sorted| ==>
               sorted[p].item != sorted[q].item
               && Remainder(shares[sorted[q].item]) <= Remainder(shares[sorted[p].item])
    requires forall i :: 0 <= i < |shares| ==> Lists(sorted, i)
    ensures RoundedUp(counts, shares, order, 0) && order == Items(sorted)
  {
    order := Items(sorted);
    forall i | 0 <= i < |shares| ensures i in order {
      assert Lists(sorted, i);
      var p :| 0 <= p < |sorted| && sorted[p].item == i;
      assert order[p] == i;
    }
  }

  // The remainders with their indices, largest first.
  method SortDescending(remainders: seq<real>) returns (sorted: seq<Indexed>)
    ensures |sorted| == |remainders|
    ensures forall p :: 0 <= p < |sorted| ==> sorted[p].item < |remainders|
    ensures forall p, q :: 0 <= p < q < |sorted| ==>
              sorted[p].item != sorted[q].item && remainders[sorted[q].item] <= remainders[sorted[p].item]
    ensures forall i :: 0 <= i < |remainders| ==> Lists(sorted, i)
  {
    var keys := seq(|remainders|, i requires 0 <= i < |remainders| => -remainders[i]);
    var key := (x: Indexed) => x.key;
    sorted := SortByKey(WithIndices(keys), key);
    forall p, q | 0 <= p < q < |sorted| ensures sorted[p].key <= sorted[q].key {
      assert key(sorted[p]) <= key(sorted[q]);
    }
    SortedIndices(keys, sorted);
  }

  lemma {:induction false} SumAppend(s: seq<int>, x: int)
    ensures Sum(s + [x]) == Sum(s) + x
  {
    if s == [] {
      assert s + [x] == [x];
    } else {
      assert (s + [x])[1..] == s[1..] + [x];
      SumAppend(s[1..], x);
    }
  }
}
