/** Dealing items out in turn to places of limited capacity. The node placement
    and the scenario interleaving of the scheduler both do this. */
module RoundRobin {
  function Sum(s: seq<int>): int {
    if s == [] then 0 else s[0] + Sum(s[1..])
  }

  // What place j holds after r whole rounds and the first k turns of the next.
  function Held(cap: nat, r: nat, k: nat, j: nat): nat {
    var turns := r + if j < k then 1 else 0;
    if cap <= turns then cap else turns
  }

  // How often j has been dealt.
  function Count(dealt: seq<nat>, j: nat): nat {
    if dealt == [] then 0
    else Count(dealt[..|dealt| - 1], j) + if dealt[|dealt| - 1] == j then 1 else 0
  }

  // The deal has come to turn k of round r.
  ghost predicate Reached(caps: seq<nat>, dealt: seq<nat>, r: nat, k: nat) {
    && k <= |caps|
    && forall j :: 0 <= j < |caps| ==> Count(dealt, j) == Held(caps[j], r, k, j)
  }

  ghost predicate SomewhereReached(caps: seq<nat>, dealt: seq<nat>) {
    exists r: nat, k: nat :: Reached(caps, dealt, r, k)
  }

  // Every prefix of the deal is some whole number of rounds and turns.
  ghost predicate Fair(caps: seq<nat>, dealt: seq<nat>) {
    && (forall i :: 0 <= i < |dealt| ==> dealt[i] < |caps|)
    && (forall p :: 0 <= p <= |dealt| ==> SomewhereReached(caps, dealt[..p]))
  }

  // ---- sums

  lemma {:induction false} SumUpdate(s: seq<int>, i: nat, v: int)
    requires i < |s|
    ensures Sum(s[i := v]) == Sum(s) - s[i] + v
  {
    if i == 0 {
      assert s[i := v][1..] == s[1..];
    } else {
      assert s[i := v][1..] == s[1..][i - 1 := v];
      SumUpdate(s[1..], i - 1, v);
    }
  }

  lemma {:induction false} SumBelow(a: seq<int>, b: seq<int>)
    requires |a| == |b| && forall i :: 0 <= i < |a| ==> a[i] <= b[i]
    ensures Sum(a) <= Sum(b)
    ensures Sum(a) == Sum(b) ==> a == b
  {
    if a != [] {
      SumBelow(a[1..], b[1..]);
    }
  }

  lemma {:induction false} SumZero(s: seq<int>)
    requires forall i :: 0 <= i < |s| ==> s[i] == 0
    ensures Sum(s) == 0
  {
    if s != [] { SumZero(s[1..]); }
  }

  function Counts(dealt: seq<nat>, n: nat): seq<int> {
    seq(n, j requires 0 <= j < n => Count(dealt, j))
  }

  // Every item dealt is counted at exactly one place.
  lemma {:induction false} CountsAddUp(dealt: seq<nat>, n: nat)
    requires forall i :: 0 <= i < |dealt| ==> dealt[i] < n
    ensures Sum(Counts(dealt, n)) == |dealt|
  {
    if dealt == [] {
      SumZero(Counts(dealt, n));
    } else {
      var front, last := dealt[..|dealt| - 1], dealt[|dealt| - 1];
      CountsAddUp(front, n);
      assert Counts(dealt, n) == Counts(front, n)[last := Count(front, last) + 1];
      SumUpdate(Counts(front, n), last, Count(front, last) + 1);
    }
  }

  // ---- consequences of fairness

  // No place is overfilled, and one place runs more than one ahead of another
  // only when the other is full.
  lemma FairSpread(caps: seq<nat>, dealt: seq<nat>, p: nat, i: nat, j: nat)
    requires Fair(caps, dealt) && p <= |dealt| && i < |caps| && j < |caps|
    ensures Count(dealt[..p], i) <= caps[i]
    ensures Count(dealt[..p], i) + 1 < Count(dealt[..p], j) ==> Count(dealt[..p], i) == caps[i]
  {
    assert SomewhereReached(caps, dealt[..p]);
  }

  lemma ReachedTogether(caps: seq<nat>, a: seq<nat>, b: seq<nat>)
    requires SomewhereReached(caps, a) && SomewhereReached(caps, b) && |a| == |b|
    requires forall i :: 0 <= i < |a| ==> a[i] < |caps| && b[i] < |caps|
    ensures forall j :: 0 <= j < |caps| ==> Count(a, j) == Count(b, j)
  {
    var r, k :| Reached(caps, a, r, k);
    var r', k' :| Reached(caps, b, r', k');
    var n := |caps|;
    CountsAddUp(a, n);
    CountsAddUp(b, n);
    if r < r' || (r == r' && k <= k') {
      SumBelow(Counts(a, n), Counts(b, n));
    } else {
      SumBelow(Counts(b, n), Counts(a, n));
    }
    forall j | 0 <= j < n ensures Count(a, j) == Count(b, j) {
      assert Counts(a, n)[j] == Counts(b, n)[j];
    }
  }

  // The capacities and the number of items determine the whole deal.
  lemma {:induction false} FairIsUnique(caps: seq<nat>, a: seq<nat>, b: seq<nat>)
    requires Fair(caps, a) && Fair(caps, b) && |a| == |b|
    ensures a == b
    decreases |a|
  {
    if a != [] {
      var m := |a| - 1;
      var a', b' := a[..m], b[..m];
      forall p | 0 <= p <= m ensures SomewhereReached(caps, a'[..p]) && SomewhereReached(caps, b'[..p]) {
        assert a'[..p] == a[..p] && b'[..p] == b[..p];
      }
      FairIsUnique(caps, a', b');
      assert a[..|a|] == a && b[..|b|] == b;
      ReachedTogether(caps, a, b);
      assert Count(a, a[m]) == Count(b, a[m]);
    }
  }

  // The next item goes to a place with room that has been dealt the least,
  // the first such place.
  ghost predicate Greedy(caps: seq<nat>, dealt: seq<nat>, next: nat)
    requires next < |caps|
  {
    && Count(dealt, next) < caps[next]
    && forall i :: 0 <= i < |caps| && Count(dealt, i) < caps[i] ==>
         Count(dealt, next) < Count(dealt, i) || (Count(dealt, next) == Count(dealt, i) && next <= i)
  }

  // Every item of a fair deal goes there.
  lemma FairIsGreedy(caps: seq<nat>, dealt: seq<nat>, p: nat)
    requires Fair(caps, dealt) && p < |dealt|
    ensures Greedy(caps, dealt[..p], dealt[p])
  {
    var now, after, next := dealt[..p], dealt[..p + 1], dealt[p];
    assert after[..|after| - 1] == now;
    assert forall i :: 0 <= i < |caps| ==> Count(after, i) == Count(now, i) + if i == next then 1 else 0;
    assert SomewhereReached(caps, now) && SomewhereReached(caps, after);
    var r: nat, k: nat :| Reached(caps, now, r, k);
    var r': nat, k': nat :| Reached(caps, after, r', k');
    GreedyStep(caps, now, after, next, r, k, r', k');
  }

  lemma GreedyStep(caps: seq<nat>, now: seq<nat>, after: seq<nat>, next: nat, r: nat, k: nat, r': nat, k': nat)
    requires next < |caps| && Reached(caps, now, r, k) && Reached(caps, after, r', k')
    requires forall i :: 0 <= i < |caps| ==> Count(after, i) == Count(now, i) + if i == next then 1 else 0
    ensures Greedy(caps, now, next)
  {
    assert Count(after, next) == Held(caps[next], r', k', next);
    forall i | 0 <= i < |caps| && Count(now, i) < caps[i]
      ensures Count(now, next) < Count(now, i) || (Count(now, next) == Count(now, i) && next <= i)
    {
      assert Count(now, i) == Held(caps[i], r, k, i);
      assert Count(after, i) == Held(caps[i], r', k', i);
    }
  }

  // ---- one turn

  // Taking the turn of a place that is not full.
  lemma TurnTaken(caps: seq<nat>, dealt: seq<nat>, r: nat, k: nat)
    requires Reached(caps, dealt, r, k) && k < |caps| && r < caps[k]
    ensures Reached(caps, dealt + [k], r, k + 1)
  {
    assert (dealt + [k])[..|dealt|] == dealt;
  }

  // Passing over a place that is full.
  lemma TurnPassed(caps: seq<nat>, dealt: seq<nat>, r: nat, k: nat)
    requires Reached(caps, dealt, r, k) && k < |caps| && caps[k] <= r
    ensures Reached(caps, dealt, r, k + 1)
  {
  }

  lemma RoundOver(caps: seq<nat>, dealt: seq<nat>, r: nat)
    requires Reached(caps, dealt, r, |caps|)
    ensures Reached(caps, dealt, r + 1, 0)
  {
  }

  lemma FairGrows(caps: seq<nat>, dealt: seq<nat>, next: nat)
    requires Fair(caps, dealt) && next < |caps| && SomewhereReached(caps, dealt + [next])
    ensures Fair(caps, dealt + [next])
  {
    forall p | 0 <= p <= |dealt + [next]| ensures SomewhereReached(caps, (dealt + [next])[..p]) {
      if p <= |dealt| {
        assert (dealt + [next])[..p] == dealt[..p];
      } else {
        assert (dealt + [next])[..p] == dealt + [next];
      }
    }
  }

  lemma FairFromStart(caps: seq<nat>)
    ensures Reached(caps, [], 0, 0) && Fair(caps, [])
  {
    var none: seq<nat> := [];
    assert Reached(caps, none, 0, 0);
    forall p | 0 <= p <= |none| ensures SomewhereReached(caps, none[..p]) {
      assert none[..p] == none;
    }
  }

  // As long as fewer items are dealt than fit, some place has room.
  lemma RoomSomewhere(caps: seq<nat>, dealt: seq<nat>, r: nat, k: nat) returns (j: nat)
    requires Reached(caps, dealt, r, k)
    requires forall i :: 0 <= i < |dealt| ==> dealt[i] < |caps|
    requires |dealt| < Sum(caps)
    ensures j < |caps| && Held(caps[j], r, k, j) < caps[j]
  {
    CountsAddUp(dealt, |caps|);
    if forall j :: 0 <= j < |caps| ==> caps[j] <= Count(dealt, j) {
      SumBelow(caps, Counts(dealt, |caps|));
    }
    j :| 0 <= j < |caps| && Count(dealt, j) < caps[j];
  }

  // A deal of as many items as fit fills every place.
  lemma AllDealt(caps: seq<nat>, dealt: seq<nat>, j: nat)
    requires Fair(caps, dealt) && |dealt| == Sum(caps) && j < |caps|
    ensures Count(dealt, j) == caps[j]
  {
    assert dealt[..|dealt|] == dealt;
    CountsAddUp(dealt, |caps|);
    forall i | 0 <= i < |caps| ensures Counts(dealt, |caps|)[i] <= caps[i] {
      FairSpread(caps, dealt, |dealt|, i, i);
    }
    SumBelow(Counts(dealt, |caps|), caps);
    assert Counts(dealt, |caps|)[j] == caps[j];
  }
}
