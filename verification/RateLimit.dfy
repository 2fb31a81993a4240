/** The rolling-window upload limiter: a sorted set per contestant that is pruned
    lazily, against the full log of accepted uploads. Times are nanoseconds of
    one clock that never runs backwards; members of a set are distinct. */
module RateLimit {
  import opened Wrappers

  const MAX_UPLOADS: nat := 5
  const WINDOW_SECS: int := 3600
  const SECOND: int := 1_000_000_000
  const WINDOW: int := WINDOW_SECS * SECOND

  // A key's sorted set, by score, and the time at which the key expires.
  datatype Entry = Entry(scores: seq<int>, expiresAt: int)

  datatype Decision = Allowed | Limited(oldest: int)

  function Key(contestantId: string): string {
    "rate_limit:" + contestantId
  }

  lemma KeysAreSeparate(a: string, b: string)
    ensures Key(a) == Key(b) ==> a == b
  {
    assert Key(a)[11..] == a && Key(b)[11..] == b;
  }

  // Whether an expired key is already gone at its very deadline is left open.
  predicate Lapsed(e: Entry, now: int, onTheDot: bool) {
    now > e.expiresAt || (onTheDot && now == e.expiresAt)
  }

  function LiveScores(e: Option<Entry>, now: int, onTheDot: bool): seq<int> {
    if e.None? || Lapsed(e.value, now, onTheDot) then [] else e.value.scores
  }

  // Removes the scores in [0, upTo].
  function RemoveRange(scores: seq<int>, upTo: int): seq<int> {
    if scores == [] then []
    else if 0 <= scores[0] <= upTo then RemoveRange(scores[1..], upTo)
    else [scores[0]] + RemoveRange(scores[1..], upTo)
  }

  // Adds a score in its sorted place, behind equal ones.
  function AddScore(scores: seq<int>, score: int): seq<int> {
    if scores == [] then [score]
    else if scores[|scores| - 1] <= score then scores + [score]
    else AddScore(scores[..|scores| - 1], score) + [scores[|scores| - 1]]
  }

  // One atomic execution of the script.
  function Script(e: Option<Entry>, now: int, onTheDot: bool): (Entry, Decision) {
    var kept := RemoveRange(LiveScores(e, now, onTheDot), now - WINDOW - 1);
    if |kept| >= MAX_UPLOADS then
      (Entry(kept, if e.Some? then e.value.expiresAt else now), Limited(kept[0]))
    else
      (Entry(AddScore(kept, now), now + WINDOW), Allowed)
  }

  function CeilDiv(a: int, b: int): int
    requires b > 0
  {
    -((-a) / b)
  }

  function RetryAfter(oldest: int, now: int): int {
    var secs := CeilDiv(oldest + WINDOW - now, SECOND);
    if secs < 1 then 1 else secs
  }

  class Limiter {
    const onTheDot: bool
    var keys: map<string, Entry>

    constructor (onTheDot: bool)
      ensures keys == map[] && this.onTheDot == onTheDot
    {
      this.onTheDot := onTheDot;
      keys := map[];
    }

    function EntryOf(contestantId: string): Option<Entry>
      reads this
    {
      if Key(contestantId) in keys then Some(keys[Key(contestantId)]) else None
    }

    // Prunes, counts, and either records the upload or says how long to wait.
    // Other contestants' keys are untouched.
    method Allow(contestantId: string, now: int) returns (allowed: bool, retryAfter: int)
      modifies this
      ensures var (entry, decision) := Script(old(EntryOf(contestantId)), now, onTheDot);
              && keys == old(keys)[Key(contestantId) := entry]
              && allowed == decision.Allowed?
              && retryAfter == (if decision.Allowed? then 0 else RetryAfter(decision.oldest, now))
      ensures forall other: string :: other != contestantId ==> EntryOf(other) == old(EntryOf(other))
    {
      var key := Key(contestantId);
      var windowStart := now - WINDOW;
      var scores, expiresAt := [], now;
      if key in keys {
        expiresAt := keys[key].expiresAt;
        if !Lapsed(keys[key], now, onTheDot) {
          scores := keys[key].scores;
        }
      }
      scores := RemoveRange(scores, windowStart - 1);
      forall other: string | other != contestantId ensures Key(other) != key {
        KeysAreSeparate(other, contestantId);
      }
      if |scores| >= MAX_UPLOADS {
        keys := keys[key := Entry(scores, expiresAt)];
        var remaining := scores[0] + WINDOW_SECS * SECOND - now;
        retryAfter := CeilDiv(remaining, SECOND);
        if retryAfter < 1 {
          retryAfter := 1;
        }
        return false, retryAfter;
      }
      keys := keys[key := Entry(AddScore(scores, now), now + WINDOW)];
      return true, 0;
    }
  }

  // ---- the sorted set

  lemma {:induction false} AddScoreAdds(scores: seq<int>, score: int)
    ensures multiset(AddScore(scores, score)) == multiset(scores) + multiset{score}
  {
    if scores != [] {
      var front, last := scores[..|scores| - 1], scores[|scores| - 1];
      assert scores == front + [last];
      AddScoreAdds(front, score);
    }
  }

  lemma {:induction false} AddScoreSorted(scores: seq<int>, score: int)
    requires Ascending(scores)
    ensures Ascending(AddScore(scores, score))
  {
    if scores != [] && scores[|scores| - 1] > score {
      var front, last := scores[..|scores| - 1], scores[|scores| - 1];
      AddScoreSorted(front, score);
      AddScoreAdds(front, score);
      NoneLater(front, score, AddScore(front, score), last);
    }
  }

  lemma NoneLater(scores: seq<int>, score: int, more: seq<int>, last: int)
    requires multiset(more) == multiset(scores) + multiset{score} && score <= last
    requires forall i :: 0 <= i < |scores| ==> scores[i] <= last
    ensures forall i :: 0 <= i < |more| ==> more[i] <= last
  {
    forall i | 0 <= i < |more| ensures more[i] <= last {
      assert more[i] in multiset(scores) + multiset{score};
    }
  }

  lemma {:induction false} RemoveRangeRemoves(scores: seq<int>, upTo: int, x: int)
    ensures multiset(RemoveRange(scores, upTo))[x] == if 0 <= x <= upTo then 0 else multiset(scores)[x]
  {
    if scores != [] {
      RemoveRangeRemoves(scores[1..], upTo, x);
      assert scores == [scores[0]] + scores[1..];
    }
  }

  // ---- a contestant's whole history

  // The key as the store holds it, and every upload ever accepted.
  datatype History = History(entry: Option<Entry>, accepted: seq<int>)

  function Call(h: History, now: int, onTheDot: bool): History {
    var (entry, decision) := Script(h.entry, now, onTheDot);
    History(Some(entry), if decision.Allowed? then h.accepted + [now] else h.accepted)
  }

  function Calls(times: seq<int>, onTheDot: bool): History {
    if times == [] then History(None, [])
    else Call(Calls(times[..|times| - 1], onTheDot), times[|times| - 1], onTheDot)
  }

  ghost predicate Ascending(s: seq<int>) {
    forall i, j :: 0 <= i < j < |s| ==> s[i] <= s[j]
  }

  // A clock reading that may follow: not before the last call.
  ghost predicate Clock(times: seq<int>) {
    Ascending(times) && forall i :: 0 <= i < |times| ==> 0 <= times[i]
  }

  ghost predicate Log(accepted: seq<int>, last: int) {
    && Ascending(accepted)
    && forall i :: 0 <= i < |accepted| ==> 0 <= accepted[i] <= last
  }

  // The stored set is the tail of the log; what is missing is too old to count,
  // or stands exactly on the window's edge when keys lapse on the dot.
  ghost predicate Stored(e: Entry, accepted: seq<int>, last: int, onTheDot: bool) {
    && accepted != []
    && e.expiresAt == accepted[|accepted| - 1] + WINDOW
    && |e.scores| <= MAX_UPLOADS && |e.scores| <= |accepted|
    && Tail(accepted, e.scores, last - WINDOW, onTheDot)
  }

  ghost predicate Consistent(h: History, last: int, onTheDot: bool) {
    && Log(h.accepted, last)
    && (h.entry.None? ==> h.accepted == [])
    && (h.entry.Some? ==> Stored(h.entry.value, h.accepted, last, onTheDot))
  }

  ghost predicate Tail(accepted: seq<int>, scores: seq<int>, edge: int, onTheDot: bool)
    requires |scores| <= |accepted|
  {
    var k := |accepted| - |scores|;
    && scores == accepted[k..]
    && forall i :: 0 <= i < k ==> accepted[i] < edge || (onTheDot && accepted[i] == edge)
  }

  lemma {:induction false} RemoveRangeIsTail(scores: seq<int>, upTo: int)
    requires Ascending(scores) && forall i :: 0 <= i < |scores| ==> 0 <= scores[i]
    ensures var kept := RemoveRange(scores, upTo); var k := |scores| - |kept|;
            && 0 <= k && kept == scores[k..]
            && (forall i :: 0 <= i < k ==> scores[i] <= upTo)
            && (forall i :: k <= i < |scores| ==> scores[i] > upTo)
  {
    if scores != [] {
      if scores[0] <= upTo {
        RemoveRangeIsTail(scores[1..], upTo);
      } else {
        RemoveRangeKeepsAll(scores, upTo);
      }
    }
  }

  lemma {:induction false} RemoveRangeKeepsAll(scores: seq<int>, upTo: int)
    requires forall i :: 0 <= i < |scores| ==> scores[i] > upTo
    ensures RemoveRange(scores, upTo) == scores
  {
    if scores != [] { RemoveRangeKeepsAll(scores[1..], upTo); }
  }

  lemma TailOfTail(accepted: seq<int>, scores: seq<int>, edge: int, j: nat, edge': int, onTheDot: bool)
    requires |scores| <= |accepted| && Tail(accepted, scores, edge, onTheDot)
    requires j <= |scores| && edge <= edge' && forall i :: 0 <= i < j ==> scores[i] < edge'
    ensures Tail(accepted, scores[j..], edge', onTheDot)
  {
    var k := |accepted| - |scores|;
    assert scores[j..] == accepted[k + j..];
    forall i | 0 <= i < k + j ensures accepted[i] < edge' || (onTheDot && accepted[i] == edge') {
      if i >= k { assert accepted[i] == scores[i - k]; }
    }
  }

  lemma AllStale(e: Entry, accepted: seq<int>, last: int, now: int, onTheDot: bool)
    requires Log(accepted, last) && Stored(e, accepted, last, onTheDot) && Lapsed(e, now, onTheDot)
    ensures Tail(accepted, [], now - WINDOW, onTheDot)
  {
    var n := |accepted|;
    forall i | 0 <= i < n ensures accepted[i] < now - WINDOW || (onTheDot && accepted[i] == now - WINDOW) {
      assert accepted[i] <= accepted[n - 1];
    }
    assert accepted[n..] == [];
  }

  lemma TailInLog(accepted: seq<int>, last: int, scores: seq<int>)
    requires Log(accepted, last) && |scores| <= |accepted| && scores == accepted[|accepted| - |scores|..]
    ensures Log(scores, last)
  {
    var k := |accepted| - |scores|;
    forall i | 0 <= i < |scores| ensures 0 <= scores[i] <= last {
      assert scores[i] == accepted[k + i];
    }
    forall i, j | 0 <= i < j < |scores| ensures scores[i] <= scores[j] {
      assert scores[i] == accepted[k + i] && scores[j] == accepted[k + j];
    }
  }

  lemma PrunedInRange(scores: seq<int>, last: int, now: int)
    requires Log(scores, last) && last <= now
    ensures var kept := RemoveRange(scores, now - WINDOW - 1); var j := |scores| - |kept|;
            && 0 <= j && kept == scores[j..]
            && (forall i :: 0 <= i < j ==> scores[i] < now - WINDOW)
            && (forall i :: 0 <= i < |kept| ==> now - WINDOW <= kept[i] <= now)
  {
    RemoveRangeIsTail(scores, now - WINDOW - 1);
    var kept := RemoveRange(scores, now - WINDOW - 1);
    forall i | 0 <= i < |kept| ensures now - WINDOW <= kept[i] <= now {
      assert kept[i] == scores[|scores| - |kept| + i];
    }
  }

  lemma PrunedIsTail(e: Entry, accepted: seq<int>, last: int, now: int, onTheDot: bool)
    requires Log(accepted, last) && Stored(e, accepted, last, onTheDot) && last <= now
    ensures var kept := RemoveRange(e.scores, now - WINDOW - 1);
            && |kept| <= |e.scores|
            && Tail(accepted, kept, now - WINDOW, onTheDot)
            && forall i :: 0 <= i < |kept| ==> now - WINDOW <= kept[i] <= now
  {
    TailInLog(accepted, last, e.scores);
    PrunedInRange(e.scores, last, now);
    TailOfTail(accepted, e.scores, last - WINDOW, |e.scores| - |RemoveRange(e.scores, now - WINDOW - 1)|,
               now - WINDOW, onTheDot);
  }

  // What the script counts.
  function Kept(h: History, now: int, onTheDot: bool): seq<int> {
    RemoveRange(LiveScores(h.entry, now, onTheDot), now - WINDOW - 1)
  }

  // It is a tail of the log, and everything outside it is stale.
  lemma KeptIsTail(h: History, last: int, now: int, onTheDot: bool)
    requires Consistent(h, last, onTheDot) && last <= now
    ensures var kept := Kept(h, now, onTheDot);
            && |kept| <= MAX_UPLOADS && |kept| <= |h.accepted|
            && Tail(h.accepted, kept, now - WINDOW, onTheDot)
            && forall i :: 0 <= i < |kept| ==> now - WINDOW <= kept[i] <= now
  {
    if h.entry.Some? {
      if Lapsed(h.entry.value, now, onTheDot) {
        AllStale(h.entry.value, h.accepted, last, now, onTheDot);
      } else {
        PrunedIsTail(h.entry.value, h.accepted, last, now, onTheDot);
      }
    }
  }

  lemma TailGrows(accepted: seq<int>, kept: seq<int>, edge: int, now: int, onTheDot: bool)
    requires |kept| <= |accepted| && Tail(accepted, kept, edge, onTheDot)
    ensures Tail(accepted + [now], kept + [now], edge, onTheDot)
  {
    var k := |accepted| - |kept|;
    assert (accepted + [now])[k..] == accepted[k..] + [now];
  }

  lemma LogGrows(accepted: seq<int>, last: int, now: int)
    requires Log(accepted, last) && last <= now && 0 <= now
    ensures Log(accepted, now) && Log(accepted + [now], now)
  {
  }

  lemma AcceptIsStored(accepted: seq<int>, kept: seq<int>, now: int, onTheDot: bool)
    requires |kept| < MAX_UPLOADS && |kept| <= |accepted| && Tail(accepted, kept, now - WINDOW, onTheDot)
    requires forall i :: 0 <= i < |kept| ==> kept[i] <= now
    ensures Stored(Entry(AddScore(kept, now), now + WINDOW), accepted + [now], now, onTheDot)
  {
    AddInOrder(kept, now);
    TailGrows(accepted, kept, now - WINDOW, now, onTheDot);
  }

  lemma CallIs(h: History, now: int, onTheDot: bool)
    ensures var kept := Kept(h, now, onTheDot);
            Call(h, now, onTheDot)
            == if |kept| < MAX_UPLOADS
               then History(Some(Entry(AddScore(kept, now), now + WINDOW)), h.accepted + [now])
               else History(Some(Entry(kept, if h.entry.Some? then h.entry.value.expiresAt else now)), h.accepted)
  {
  }

  lemma RefusalIsStored(e: Entry, accepted: seq<int>, kept: seq<int>, last: int, now: int, onTheDot: bool)
    requires Stored(e, accepted, last, onTheDot)
    requires |kept| <= MAX_UPLOADS && |kept| <= |accepted| && Tail(accepted, kept, now - WINDOW, onTheDot)
    ensures Stored(Entry(kept, e.expiresAt), accepted, now, onTheDot)
  {
  }

  lemma CallIsConsistent(h: History, last: int, now: int, onTheDot: bool)
    requires Consistent(h, last, onTheDot) && last <= now && 0 <= now
    ensures Consistent(Call(h, now, onTheDot), now, onTheDot)
  {
    KeptIsTail(h, last, now, onTheDot);
    LogGrows(h.accepted, last, now);
    CallIs(h, now, onTheDot);
    var kept := Kept(h, now, onTheDot);
    if |kept| < MAX_UPLOADS {
      AcceptIsStored(h.accepted, kept, now, onTheDot);
    } else {
      RefusalIsStored(h.entry.value, h.accepted, kept, last, now, onTheDot);
    }
  }

  lemma AddInOrder(scores: seq<int>, now: int)
    requires forall i :: 0 <= i < |scores| ==> scores[i] <= now
    ensures AddScore(scores, now) == scores + [now]
  {
  }

  lemma {:induction false} CallsAreConsistent(times: seq<int>, onTheDot: bool)
    requires Clock(times)
    ensures Consistent(Calls(times, onTheDot), if times == [] then 0 else times[|times| - 1], onTheDot)
  {
    if times != [] {
      var front := times[..|times| - 1];
      CallsAreConsistent(front, onTheDot);
      CallIsConsistent(Calls(front, onTheDot), if front == [] then 0 else front[|front| - 1],
                       times[|times| - 1], onTheDot);
    }
  }

  // Where the next call of a run finds the history.
  lemma BeforeCall(times: seq<int>, now: int, onTheDot: bool) returns (last: int)
    requires Clock(times + [now])
    ensures Clock(times) && 0 <= last <= now && Consistent(Calls(times, onTheDot), last, onTheDot)
    ensures last == if times == [] then 0 else times[|times| - 1]
  {
    last := if times == [] then 0 else times[|times| - 1];
    var all := times + [now];
    assert all[|times|] == now;
    assert forall i :: 0 <= i < |times| ==> all[i] == times[i];
    CallsAreConsistent(times, onTheDot);
  }

  // ---- decisions against the full log

  function CountIn(s: seq<int>, lo: int, hi: int): nat {
    if s == [] then 0 else (if lo <= s[0] < hi then 1 else 0) + CountIn(s[1..], lo, hi)
  }

  lemma {:induction false} CountNone(s: seq<int>, lo: int, hi: int)
    requires forall i :: 0 <= i < |s| ==> s[i] < lo || hi <= s[i]
    ensures CountIn(s, lo, hi) == 0
  {
    if s != [] { CountNone(s[1..], lo, hi); }
  }

  lemma {:induction false} CountAtMost(s: seq<int>, lo: int, hi: int)
    ensures CountIn(s, lo, hi) <= |s|
    ensures (forall i :: 0 <= i < |s| ==> lo <= s[i] < hi) ==> CountIn(s, lo, hi) == |s|
  {
    if s != [] { CountAtMost(s[1..], lo, hi); }
  }

  lemma {:induction false} CountSplits(a: seq<int>, b: seq<int>, lo: int, hi: int)
    ensures CountIn(a + b, lo, hi) == CountIn(a, lo, hi) + CountIn(b, lo, hi)
  {
    if a == [] {
      assert a + b == b;
    } else {
      assert (a + b)[1..] == a[1..] + b;
      CountSplits(a[1..], b, lo, hi);
    }
  }

  lemma CountOfTail(accepted: seq<int>, kept: seq<int>, lo: int, hi: int)
    requires |kept| <= |accepted| && kept == accepted[|accepted| - |kept|..]
    requires forall i :: 0 <= i < |kept| ==> lo <= kept[i] < hi
    ensures CountIn(accepted, lo, hi) == |kept| + CountIn(accepted[..|accepted| - |kept|], lo, hi)
  {
    var stale := accepted[..|accepted| - |kept|];
    assert accepted == stale + kept;
    CountSplits(stale, kept, lo, hi);
    CountAtMost(kept, lo, hi);
  }

  // Whatever is missing from the stored set is at most as late as the edge.
  lemma KeptCount(accepted: seq<int>, kept: seq<int>, now: int, onTheDot: bool)
    requires |kept| <= |accepted| && Tail(accepted, kept, now - WINDOW, onTheDot)
    requires forall i :: 0 <= i < |kept| ==> now - WINDOW <= kept[i] <= now
    ensures |kept| <= CountIn(accepted, now - WINDOW, now + 1)
    ensures !onTheDot ==> |kept| == CountIn(accepted, now - WINDOW, now + 1)
  {
    CountOfTail(accepted, kept, now - WINDOW, now + 1);
    if !onTheDot { CountNone(accepted[..|accepted| - |kept|], now - WINDOW, now + 1); }
  }

  lemma KeptCountInside(accepted: seq<int>, kept: seq<int>, now: int, onTheDot: bool)
    requires |kept| <= |accepted| && Tail(accepted, kept, now - WINDOW, onTheDot)
    ensures CountIn(accepted, now - WINDOW + 1, now + 1) <= |kept|
  {
    var stale := accepted[..|accepted| - |kept|];
    assert accepted == stale + kept;
    CountSplits(stale, kept, now - WINDOW + 1, now + 1);
    CountAtMost(kept, now - WINDOW + 1, now + 1);
    CountNone(stale, now - WINDOW + 1, now + 1);
  }

  // A set of this size decides as the recount of the log.
  lemma CountDecides(h: History, last: int, now: int, onTheDot: bool)
    requires Consistent(h, last, onTheDot) && last <= now
    ensures var size := |Kept(h, now, onTheDot)|;
            && CountIn(h.accepted, now - WINDOW + 1, now + 1) <= size <= CountIn(h.accepted, now - WINDOW, now + 1)
            && (!onTheDot ==> size == CountIn(h.accepted, now - WINDOW, now + 1))
  {
    KeptIsTail(h, last, now, onTheDot);
    KeptCount(h.accepted, Kept(h, now, onTheDot), now, onTheDot);
    KeptCountInside(h.accepted, Kept(h, now, onTheDot), now, onTheDot);
  }

  // The set that is pruned and expires decides as a recount of everything ever
  // accepted in the last 3600 s, both ends included. If keys lapse on the dot,
  // uploads exactly 3600 s old may be missed; then the two ends of the window differ.
  lemma DecidesAsRecount(times: seq<int>, now: int, onTheDot: bool)
    requires Clock(times + [now])
    ensures var h := Calls(times, onTheDot);
            var allowed := Script(h.entry, now, onTheDot).1.Allowed?;
            && (!onTheDot ==> (allowed <==> CountIn(h.accepted, now - WINDOW, now + 1) < MAX_UPLOADS))
            && (allowed ==> CountIn(h.accepted, now - WINDOW + 1, now + 1) < MAX_UPLOADS)
            && (!allowed ==> CountIn(h.accepted, now - WINDOW, now + 1) >= MAX_UPLOADS)
  {
    var last := BeforeCall(times, now, onTheDot);
    CountDecides(Calls(times, onTheDot), last, now, onTheDot);
  }

  // ---- safety over every run

  // Six uploads in a row span at least the window, and more than it unless
  // keys lapse on the dot.
  ghost predicate Spaced(accepted: seq<int>, onTheDot: bool) {
    forall i, j :: 0 <= i && j == i + MAX_UPLOADS && j < |accepted| ==>
      accepted[j] > accepted[i] + WINDOW || (onTheDot && accepted[j] == accepted[i] + WINDOW)
  }

  lemma CallSpaced(h: History, last: int, now: int, onTheDot: bool)
    requires Consistent(h, last, onTheDot) && last <= now && 0 <= now && Spaced(h.accepted, onTheDot)
    ensures Spaced(Call(h, now, onTheDot).accepted, onTheDot)
  {
    KeptIsTail(h, last, now, onTheDot);
    var a, kept := h.accepted, Kept(h, now, onTheDot);
    if |kept| < MAX_UPLOADS {
      forall i, j | 0 <= i && j == i + MAX_UPLOADS && j < |a + [now]|
        ensures (a + [now])[j] > (a + [now])[i] + WINDOW || (onTheDot && (a + [now])[j] == (a + [now])[i] + WINDOW)
      {
        if j == |a| { assert i < |a| - |kept|; }
      }
    }
  }

  lemma {:induction false} AlwaysSpaced(times: seq<int>, onTheDot: bool)
    requires Clock(times)
    ensures Spaced(Calls(times, onTheDot).accepted, onTheDot)
  {
    if times != [] {
      var front, now := times[..|times| - 1], times[|times| - 1];
      assert front + [now] == times;
      var last := BeforeCall(front, now, onTheDot);
      AlwaysSpaced(front, onTheDot);
      CallSpaced(Calls(front, onTheDot), last, now, onTheDot);
    }
  }

  lemma {:induction false} SpacedWindow(accepted: seq<int>, lo: int, hi: int)
    requires Ascending(accepted)
    requires forall i, j :: 0 <= i && j == i + MAX_UPLOADS && j < |accepted| ==> accepted[j] >= accepted[i] + (hi - lo)
    ensures CountIn(accepted, lo, hi) <= MAX_UPLOADS
  {
    if |accepted| <= MAX_UPLOADS {
      CountAtMost(accepted, lo, hi);
    } else if accepted[0] < lo {
      SpacedWindow(accepted[1..], lo, hi);
    } else {
      var first, others := accepted[..MAX_UPLOADS], accepted[MAX_UPLOADS..];
      assert accepted == first + others;
      CountSplits(first, others, lo, hi);
      CountAtMost(first, lo, hi);
      CountNone(others, lo, hi);
    }
  }

  // Over any run of calls, no half-open window of 3600 s holds more than five
  // accepted uploads, wherever it starts.
  lemma WindowIsSafe(times: seq<int>, onTheDot: bool, start: int)
    requires Clock(times)
    ensures CountIn(Calls(times, onTheDot).accepted, start, start + WINDOW) <= MAX_UPLOADS
  {
    AlwaysSpaced(times, onTheDot);
    CallsAreConsistent(times, onTheDot);
    SpacedWindow(Calls(times, onTheDot).accepted, start, start + WINDOW);
  }

  // The window with both ends included.
  function InClosedWindow(times: seq<int>, onTheDot: bool, start: int): nat {
    CountIn(Calls(times, onTheDot).accepted, start, start + WINDOW + 1)
  }

  // Then the bound holds for every run exactly when keys outlive their
  // deadline: otherwise five uploads at 0 and one at 3600 s pass.
  lemma ClosedWindowIsSafe(onTheDot: bool)
    ensures (forall times: seq<int>, start: int | Clock(times) :: InClosedWindow(times, onTheDot, start) <= MAX_UPLOADS)
            <==> !onTheDot
  {
    if onTheDot {
      var times := SixOnTheDot();
      assert InClosedWindow(times, true, 0) > MAX_UPLOADS;
    } else {
      forall times: seq<int>, start: int | Clock(times) ensures InClosedWindow(times, onTheDot, start) <= MAX_UPLOADS {
        AlwaysSpaced(times, onTheDot);
        CallsAreConsistent(times, onTheDot);
        SpacedWindow(Calls(times, onTheDot).accepted, start, start + WINDOW + 1);
      }
    }
  }

  // ---- many contestants

  datatype Upload = Upload(contestantId: string, time: int)

  function Lookup(keys: map<string, Entry>, contestantId: string): Option<Entry> {
    if Key(contestantId) in keys then Some(keys[Key(contestantId)]) else None
  }

  // The store after these calls, in any mixture of contestants.
  function Store(uploads: seq<Upload>, onTheDot: bool): map<string, Entry> {
    if uploads == [] then map[]
    else
      var n := |uploads| - 1;
      var keys, u := Store(uploads[..n], onTheDot), uploads[n];
      keys[Key(u.contestantId) := Script(Lookup(keys, u.contestantId), u.time, onTheDot).0]
  }

  function TimesOf(uploads: seq<Upload>, contestantId: string): seq<int> {
    if uploads == [] then []
    else
      var n := |uploads| - 1;
      TimesOf(uploads[..n], contestantId) + if uploads[n].contestantId == contestantId then [uploads[n].time] else []
  }

  // Each contestant's key depends on that contestant's calls alone, so that all
  // laws about one contestant's history hold in any mixture.
  lemma {:induction false} ContestantsAreSeparate(uploads: seq<Upload>, contestantId: string, onTheDot: bool)
    ensures Lookup(Store(uploads, onTheDot), contestantId) == Calls(TimesOf(uploads, contestantId), onTheDot).entry
  {
    if uploads != [] {
      var n := |uploads| - 1;
      var u, times := uploads[n], TimesOf(uploads[..n], contestantId);
      ContestantsAreSeparate(uploads[..n], contestantId, onTheDot);
      if u.contestantId == contestantId {
        OneMoreCall(times, u.time, onTheDot);
      } else {
        KeysAreSeparate(u.contestantId, contestantId);
        assert times + [] == times;
      }
    }
  }

  lemma OneMoreCall(times: seq<int>, now: int, onTheDot: bool)
    ensures Calls(times + [now], onTheDot) == Call(Calls(times, onTheDot), now, onTheDot)
  {
    assert (times + [now])[..|times|] == times;
  }

  // Nothing but uploads at time zero, all accepted and all stored.
  function AllAtZero(times: seq<int>): History {
    History(if times == [] then None else Some(Entry(times, WINDOW)), times)
  }

  lemma ZeroAccepted(times: seq<int>, onTheDot: bool)
    requires |times| < MAX_UPLOADS && forall i :: 0 <= i < |times| ==> times[i] == 0
    ensures Call(AllAtZero(times), 0, onTheDot) == AllAtZero(times + [0])
  {
    RemoveRangeKeepsAll(times, -WINDOW - 1);
    AddInOrder(times, 0);
  }

  lemma LastAccepted(times: seq<int>)
    requires times != []
    ensures Call(AllAtZero(times), WINDOW, true).accepted == times + [WINDOW]
  {
  }

  lemma FiveAtZero(onTheDot: bool) returns (times: seq<int>)
    ensures |times| == MAX_UPLOADS && forall i :: 0 <= i < |times| ==> times[i] == 0
    ensures Calls(times, onTheDot) == AllAtZero(times)
  {
    times := [];
    while |times| < MAX_UPLOADS
      invariant |times| <= MAX_UPLOADS && forall i :: 0 <= i < |times| ==> times[i] == 0
      invariant Calls(times, onTheDot) == AllAtZero(times)
    {
      ZeroAccepted(times, onTheDot);
      OneMoreCall(times, 0, onTheDot);
      times := times + [0];
    }
  }

  lemma SixOnTheDot() returns (times: seq<int>)
    ensures Clock(times) && CountIn(Calls(times, true).accepted, 0, WINDOW + 1) == 6
  {
    times := FiveAtZero(true);
    OneMoreCall(times, WINDOW, true);
    LastAccepted(times);
    times := times + [WINDOW];
    CountAtMost(times, 0, WINDOW + 1);
  }

  // ---- the very edge of the window

  predicate Inside(accepted: seq<int>, now: int) {
    CountIn(accepted, now - WINDOW + 1, now) > 0
  }

  lemma {:induction false} InsideAt(accepted: seq<int>, now: int, i: nat)
    requires i < |accepted| && now - WINDOW < accepted[i] < now
    ensures Inside(accepted, now)
  {
    if i > 0 { InsideAt(accepted[1..], now, i - 1); }
  }

  lemma InsideGrows(accepted: seq<int>, now: int)
    requires Inside(accepted, now)
    ensures Inside(accepted + [now], now)
  {
    CountSplits(accepted, [now], now - WINDOW + 1, now);
  }

  // None, when the uploads but the last m are at the edge or before, and the others at this instant.
  lemma NoneInside(accepted: seq<int>, m: nat, now: int)
    requires m <= |accepted| && forall i :: 0 <= i < |accepted| - m ==> accepted[i] <= now - WINDOW
    requires forall i :: |accepted| - m <= i < |accepted| ==> accepted[i] == now
    ensures !Inside(accepted, now)
  {
    CountNone(accepted, now - WINDOW + 1, now);
  }

  // Of the last m uploads and those before: an upload exactly at the edge is
  // missing only if the key lapsed at this instant, so that all later ones are
  // of this instant; and it is there only if some upload inside the window kept
  // the key alive.
  ghost predicate EdgeMissing(accepted: seq<int>, m: nat, now: int) {
    m < |accepted| && accepted[|accepted| - m - 1] == now - WINDOW ==>
      forall i :: |accepted| - m <= i < |accepted| ==> accepted[i] == now
  }

  ghost predicate EdgeStored(accepted: seq<int>, m: nat, now: int) {
    0 < m <= |accepted| && accepted[|accepted| - m] == now - WINDOW ==> Inside(accepted, now)
  }

  ghost predicate Edged(accepted: seq<int>, m: nat, now: int, onTheDot: bool) {
    EdgeMissing(accepted, m, now) && (onTheDot ==> EdgeStored(accepted, m, now))
  }

  // The stored set as the call at `last` left it.
  ghost predicate Dated(h: History, last: int, onTheDot: bool) {
    h.entry.Some? ==>
      && Edged(h.accepted, |h.entry.value.scores|, last, onTheDot)
      && forall i :: 0 <= i < |h.entry.value.scores| ==> last - WINDOW <= h.entry.value.scores[i]
  }

  // Time has passed since: whatever is missing is older than the edge.
  lemma PrunedLater(e: Entry, accepted: seq<int>, last: int, now: int, onTheDot: bool)
    requires Log(accepted, last) && Stored(e, accepted, last, onTheDot) && last < now
    ensures var kept := RemoveRange(e.scores, now - WINDOW - 1);
            |kept| <= |accepted| && Tail(accepted, kept, now - WINDOW, false)
  {
    assert Tail(accepted, e.scores, now - WINDOW, false);
    TailInLog(accepted, last, e.scores);
    PrunedInRange(e.scores, last, now);
    TailOfTail(accepted, e.scores, now - WINDOW, |e.scores| - |RemoveRange(e.scores, now - WINDOW - 1)|,
               now - WINDOW, false);
  }

  lemma KeptLater(h: History, last: int, now: int, onTheDot: bool)
    requires Consistent(h, last, onTheDot) && last < now
    requires h.entry.Some? && !Lapsed(h.entry.value, now, onTheDot)
    ensures Edged(h.accepted, |Kept(h, now, onTheDot)|, now, onTheDot)
  {
    PrunedLater(h.entry.value, h.accepted, last, now, onTheDot);
    var a := h.accepted;
    if onTheDot { InsideAt(a, now, |a| - 1); }
  }

  lemma KeptAtOnce(h: History, now: int, onTheDot: bool)
    requires Consistent(h, now, onTheDot) && Dated(h, now, onTheDot)
    requires h.entry.Some? && !Lapsed(h.entry.value, now, onTheDot)
    ensures Edged(h.accepted, |Kept(h, now, onTheDot)|, now, onTheDot)
  {
    RemoveRangeKeepsAll(h.entry.value.scores, now - WINDOW - 1);
  }

  lemma KeptEdged(h: History, last: int, now: int, onTheDot: bool)
    requires Consistent(h, last, onTheDot) && Dated(h, last, onTheDot) && last <= now
    ensures Edged(h.accepted, |Kept(h, now, onTheDot)|, now, onTheDot)
  {
    if h.entry.Some? && !Lapsed(h.entry.value, now, onTheDot) {
      if last < now {
        KeptLater(h, last, now, onTheDot);
      } else {
        KeptAtOnce(h, now, onTheDot);
      }
    }
  }

  lemma AcceptEdged(accepted: seq<int>, m: nat, now: int, onTheDot: bool)
    requires m <= |accepted| && Edged(accepted, m, now, onTheDot)
    ensures Edged(accepted + [now], m + 1, now, onTheDot)
  {
    var a := accepted + [now];
    assert forall i :: 0 <= i < |accepted| ==> a[i] == accepted[i];
    if onTheDot && a[|a| - m - 1] == now - WINDOW {
      assert 0 < m && a[|a| - m - 1] == accepted[|accepted| - m];
      InsideGrows(accepted, now);
    }
  }

  lemma AcceptDated(accepted: seq<int>, kept: seq<int>, now: int, onTheDot: bool)
    requires |kept| <= |accepted| && Edged(accepted, |kept|, now, onTheDot)
    requires forall i :: 0 <= i < |kept| ==> now - WINDOW <= kept[i] <= now
    ensures Dated(History(Some(Entry(AddScore(kept, now), now + WINDOW)), accepted + [now]), now, onTheDot)
  {
    AddInOrder(kept, now);
    AcceptEdged(accepted, |kept|, now, onTheDot);
  }

  lemma RefuseDated(accepted: seq<int>, kept: seq<int>, expiresAt: int, now: int, onTheDot: bool)
    requires Edged(accepted, |kept|, now, onTheDot) && forall i :: 0 <= i < |kept| ==> now - WINDOW <= kept[i]
    ensures Dated(History(Some(Entry(kept, expiresAt)), accepted), now, onTheDot)
  {
  }

  lemma CallDated(h: History, last: int, now: int, onTheDot: bool)
    requires Consistent(h, last, onTheDot) && Dated(h, last, onTheDot) && last <= now
    ensures Dated(Call(h, now, onTheDot), now, onTheDot)
  {
    KeptIsTail(h, last, now, onTheDot);
    KeptEdged(h, last, now, onTheDot);
    CallIs(h, now, onTheDot);
    var kept := Kept(h, now, onTheDot);
    if |kept| < MAX_UPLOADS {
      AcceptDated(h.accepted, kept, now, onTheDot);
    } else {
      RefuseDated(h.accepted, kept, if h.entry.Some? then h.entry.value.expiresAt else now, now, onTheDot);
    }
  }

  lemma {:induction false} CallsAreDated(times: seq<int>, onTheDot: bool)
    requires Clock(times)
    ensures Dated(Calls(times, onTheDot), if times == [] then 0 else times[|times| - 1], onTheDot)
  {
    if times != [] {
      var front, now := times[..|times| - 1], times[|times| - 1];
      assert front + [now] == times;
      var last := BeforeCall(front, now, onTheDot);
      CallsAreDated(front, onTheDot);
      CallDated(Calls(front, onTheDot), last, now, onTheDot);
    }
  }

  // ---- Retry-After

  // Fewer than five uploads were ever accepted, or the fifth last is more than
  // 3600 s old; or, when keys lapse on the dot, it is exactly so old and nothing
  // was accepted strictly in between.
  ghost predicate Due(accepted: seq<int>, now: int, onTheDot: bool) {
    var n := |accepted|;
    || n < MAX_UPLOADS
    || now > accepted[n - MAX_UPLOADS] + WINDOW
    || (onTheDot && now == accepted[n - MAX_UPLOADS] + WINDOW && !Inside(accepted, now))
  }

  // The next call is accepted iff it is due by the log; neither earlier refusals
  // nor what the key still holds play a part.
  lemma NextDecision(times: seq<int>, now: int, onTheDot: bool)
    requires Clock(times + [now])
    ensures Script(Calls(times, onTheDot).entry, now, onTheDot).1.Allowed?
            <==> Due(Calls(times, onTheDot).accepted, now, onTheDot)
  {
    var last := BeforeCall(times, now, onTheDot);
    CallsAreDated(times, onTheDot);
    DecisionAt(Calls(times, onTheDot), last, now, onTheDot);
  }

  lemma DecisionAt(h: History, last: int, now: int, onTheDot: bool)
    requires Consistent(h, last, onTheDot) && Dated(h, last, onTheDot) && last <= now
    ensures Script(h.entry, now, onTheDot).1.Allowed? <==> Due(h.accepted, now, onTheDot)
  {
    KeptIsTail(h, last, now, onTheDot);
    KeptEdged(h, last, now, onTheDot);
    SizeDecides(h.accepted, Kept(h, now, onTheDot), now, onTheDot);
  }

  lemma SizeDecides(accepted: seq<int>, kept: seq<int>, now: int, onTheDot: bool)
    requires |kept| <= MAX_UPLOADS && |kept| <= |accepted| && Log(accepted, now)
    requires Tail(accepted, kept, now - WINDOW, onTheDot) && Edged(accepted, |kept|, now, onTheDot)
    requires forall i :: 0 <= i < |kept| ==> now - WINDOW <= kept[i]
    ensures |kept| < MAX_UPLOADS <==> Due(accepted, now, onTheDot)
  {
    if |kept| == MAX_UPLOADS {
      assert kept[0] == accepted[|accepted| - MAX_UPLOADS];
    } else if |accepted| >= MAX_UPLOADS {
      FewStored(accepted, |kept|, now, onTheDot);
    }
  }

  lemma FewStored(accepted: seq<int>, m: nat, now: int, onTheDot: bool)
    requires m < MAX_UPLOADS <= |accepted| && Ascending(accepted) && EdgeMissing(accepted, m, now)
    requires forall i :: 0 <= i < |accepted| - m ==> accepted[i] < now - WINDOW || (onTheDot && accepted[i] == now - WINDOW)
    ensures Due(accepted, now, onTheDot)
  {
    var n := |accepted|;
    if accepted[n - MAX_UPLOADS] == now - WINDOW {
      assert accepted[n - MAX_UPLOADS] <= accepted[n - m - 1];
      NoneInside(accepted, m, now);
    }
  }

  lemma RefusalReportsFifthLast(times: seq<int>, now: int, onTheDot: bool)
    requires Clock(times + [now])
    requires Script(Calls(times, onTheDot).entry, now, onTheDot).1.Limited?
    ensures var h := Calls(times, onTheDot); var n := |h.accepted|;
            var oldest := Script(h.entry, now, onTheDot).1.oldest;
            n >= MAX_UPLOADS && oldest == h.accepted[n - MAX_UPLOADS] && now - WINDOW <= oldest <= now
  {
    var h := Calls(times, onTheDot);
    var last := BeforeCall(times, now, onTheDot);
    KeptIsTail(h, last, now, onTheDot);
    assert Kept(h, now, onTheDot)[0] == h.accepted[|h.accepted| - MAX_UPLOADS];
  }

  // The least number of whole seconds, at least one, that covers the time left.
  lemma LeastWait(oldest: int, now: int)
    requires now - WINDOW <= oldest <= now
    ensures var wait := RetryAfter(oldest, now); var left := oldest + WINDOW - now;
            && 1 <= wait <= WINDOW_SECS
            && left <= wait * SECOND
            && (wait > 1 ==> (wait - 1) * SECOND < left)
            && (left % SECOND != 0 ==> left < wait * SECOND)
            && (left % SECOND == 0 && left != 0 ==> left == wait * SECOND)
  {
  }

  // A refusal reports the fifth last upload, and the least number of whole
  // seconds, at least one, that covers the time until it is 3600 s old.
  lemma RetryAfterIsTight(times: seq<int>, now: int, onTheDot: bool)
    requires Clock(times + [now])
    requires Script(Calls(times, onTheDot).entry, now, onTheDot).1.Limited?
    ensures var h := Calls(times, onTheDot); var n := |h.accepted|;
            var oldest := Script(h.entry, now, onTheDot).1.oldest;
            var wait := RetryAfter(oldest, now);
            && n >= MAX_UPLOADS && oldest == h.accepted[n - MAX_UPLOADS]
            && 1 <= wait <= WINDOW_SECS
            && oldest + WINDOW - now <= wait * SECOND
            && (wait > 1 ==> (wait - 1) * SECOND < oldest + WINDOW - now)
  {
    RefusalReportsFifthLast(times, now, onTheDot);
    LeastWait(Script(Calls(times, onTheDot).entry, now, onTheDot).1.oldest, now);
  }

  // Until then every call is refused, afterwards the first one is accepted;
  // `all` continues `times` with calls none of which is accepted.
  lemma RefusedUntilOldestLeaves(times: seq<int>, all: seq<int>, accepted: seq<int>, now: int, onTheDot: bool)
    requires times <= all && Clock(all + [now])
    requires Calls(times, onTheDot).accepted == accepted == Calls(all, onTheDot).accepted
    requires |accepted| >= MAX_UPLOADS
    ensures var oldest := accepted[|accepted| - MAX_UPLOADS];
            Script(Calls(all, onTheDot).entry, now, onTheDot).1.Allowed?
            <==> now > oldest + WINDOW || (onTheDot && now == oldest + WINDOW && !Inside(accepted, now))
  {
    NextDecision(all, now, onTheDot);
  }

  // Waiting exactly the advised time is enough iff the wait was rounded up;
  // when it comes out even, the call is still refused at that instant, unless
  // the key lapses at that very instant.
  lemma WaitingAsAdvised(times: seq<int>, now: int, onTheDot: bool)
    requires Clock(times + [now])
    requires Script(Calls(times, onTheDot).entry, now, onTheDot).1.Limited?
    ensures var oldest := Script(Calls(times, onTheDot).entry, now, onTheDot).1.oldest;
            var later := now + RetryAfter(oldest, now) * SECOND;
            Script(Call(Calls(times, onTheDot), now, onTheDot).entry, later, onTheDot).1.Allowed?
            <==> || (oldest + WINDOW - now) % SECOND != 0 || oldest + WINDOW == now
                 || (onTheDot && !Inside(Calls(times, onTheDot).accepted, later))
  {
    var oldest := Script(Calls(times, onTheDot).entry, now, onTheDot).1.oldest;
    WaitedAsAdvised(times, now, oldest, now + RetryAfter(oldest, now) * SECOND, onTheDot);
  }

  lemma WaitedAsAdvised(times: seq<int>, now: int, oldest: int, later: int, onTheDot: bool)
    requires Clock(times + [now])
    requires Script(Calls(times, onTheDot).entry, now, onTheDot).1 == Limited(oldest)
    requires later == now + RetryAfter(oldest, now) * SECOND
    ensures Script(Call(Calls(times, onTheDot), now, onTheDot).entry, later, onTheDot).1.Allowed?
            <==> || (oldest + WINDOW - now) % SECOND != 0 || oldest + WINDOW == now
                 || (onTheDot && !Inside(Calls(times, onTheDot).accepted, later))
  {
    var allowed := Script(Call(Calls(times, onTheDot), now, onTheDot).entry, later, onTheDot).1.Allowed?;
    var lapsed := onTheDot && !Inside(Calls(times, onTheDot).accepted, later);
    assert now - WINDOW <= oldest <= now by { RefusalReportsFifthLast(times, now, onTheDot); }
    assert allowed <==> later > oldest + WINDOW || (later == oldest + WINDOW && lapsed) by {
      LeastWait(oldest, now);
      LaterDecision(times, now, later, oldest, onTheDot);
    }
    RoundedWait(oldest, now, later, allowed, lapsed);
  }

  lemma RoundedWait(oldest: int, now: int, later: int, allowed: bool, lapsed: bool)
    requires now - WINDOW <= oldest <= now && later == now + RetryAfter(oldest, now) * SECOND
    requires allowed <==> later > oldest + WINDOW || (later == oldest + WINDOW && lapsed)
    ensures allowed <==> (oldest + WINDOW - now) % SECOND != 0 || oldest + WINDOW == now || lapsed
  {
    LeastWait(oldest, now);
  }

  lemma LaterDecision(times: seq<int>, now: int, later: int, oldest: int, onTheDot: bool)
    requires Clock(times + [now]) && now <= later
    requires Script(Calls(times, onTheDot).entry, now, onTheDot).1 == Limited(oldest)
    ensures Script(Call(Calls(times, onTheDot), now, onTheDot).entry, later, onTheDot).1.Allowed?
            <==> later > oldest + WINDOW
                 || (later == oldest + WINDOW && onTheDot && !Inside(Calls(times, onTheDot).accepted, later))
  {
    RefusalReportsFifthLast(times, now, onTheDot);
    DueLater(times, now, later, onTheDot);
  }

  // A refusal changes nothing about when the next call is due.
  lemma DueLater(times: seq<int>, now: int, later: int, onTheDot: bool)
    requires Clock(times + [now]) && now <= later
    requires Script(Calls(times, onTheDot).entry, now, onTheDot).1.Limited?
    ensures Script(Call(Calls(times, onTheDot), now, onTheDot).entry, later, onTheDot).1.Allowed?
            <==> Due(Calls(times, onTheDot).accepted, later, onTheDot)
  {
    var last := BeforeCall(times, now, onTheDot);
    CallsAreDated(times, onTheDot);
    AfterRefusal(Calls(times, onTheDot), last, now, later, onTheDot);
  }

  lemma AfterRefusal(h: History, last: int, now: int, later: int, onTheDot: bool)
    requires Consistent(h, last, onTheDot) && Dated(h, last, onTheDot) && 0 <= last <= now <= later
    requires Script(h.entry, now, onTheDot).1.Limited?
    ensures Script(Call(h, now, onTheDot).entry, later, onTheDot).1.Allowed? <==> Due(h.accepted, later, onTheDot)
  {
    CallIsConsistent(h, last, now, onTheDot);
    CallDated(h, last, now, onTheDot);
    DecisionAt(Call(h, now, onTheDot), now, later, onTheDot);
  }

  // Five uploads at 0, a refusal at 1 s that advises 3599 s, and again a refusal
  // at 3600 s.
  lemma EvenWaitIsRefused() returns (times: seq<int>)
    ensures Clock(times + [SECOND]) && RetryAfter(0, SECOND) == 3599
    ensures var h := Calls(times, false);
            && Script(h.entry, SECOND, false).1 == Limited(0)
            && Script(Call(h, SECOND, false).entry, SECOND + 3599 * SECOND, false).1.Limited?
  {
    times := FiveAtZero(false);
    SixthIsRefused(times, SECOND);
    StillRefused(times, SECOND, SECOND + 3599 * SECOND);
  }

  lemma StillRefused(times: seq<int>, now: int, later: int)
    requires Clock(times + [now]) && Script(Calls(times, false).entry, now, false).1 == Limited(0)
    requires now == SECOND && later == SECOND + 3599 * SECOND
    ensures Script(Call(Calls(times, false), now, false).entry, later, false).1.Limited? && RetryAfter(0, now) == 3599
  {
    WaitedAsAdvised(times, now, 0, later, false);
  }

  lemma SixthIsRefused(times: seq<int>, now: int)
    requires |times| == MAX_UPLOADS && 0 <= now <= WINDOW
    requires forall i :: 0 <= i < |times| ==> times[i] == 0
    ensures Script(AllAtZero(times).entry, now, false).1 == Limited(0)
  {
    RemoveRangeKeepsAll(times, now - WINDOW - 1);
  }
}
