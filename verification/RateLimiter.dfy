/** The in-memory sliding-window rate limiter, against the full history of what it accepted. */
module RateLimiter {
  import opened Prelude

  type Time = real

  /** The entries younger than `cutoff`. */
  function Younger(times: seq<Time>, cutoff: Time): seq<Time> {
    if times == [] then []
    else if times[0] > cutoff then [times[0]] + Younger(times[1..], cutoff)
    else Younger(times[1..], cutoff)
  }

  ghost predicate Sorted(times: seq<Time>) {
    forall i, j :: 0 <= i < j < |times| ==> times[i] <= times[j]
  }

  /** Entry `i + max` comes at least a whole window after entry `i`. */
  ghost predicate Spaced(times: seq<Time>, max: nat, window: real) {
    forall i :: 0 <= i < |times| - max ==> times[i] + window <= times[i + max]
  }

  /** A principal's pruned list is what some past cutoff leaves of its history, and the history is spaced. */
  ghost predicate Agrees(hits: seq<Time>, history: seq<Time>, max: int, window: real, clock: Time) {
    && Sorted(history) && (forall k :: 0 <= k < |history| ==> history[k] <= clock)
    && (exists cutoff :: cutoff <= clock - window && hits == Younger(history, cutoff))
    && Spaced(history, Max(0, max), window)
  }

  function Of(lists: map<string, seq<Time>>, p: string): seq<Time> {
    if p in lists then lists[p] else []
  }

  ghost predicate AllAgree(hits: map<string, seq<Time>>, accepted: map<string, seq<Time>>, max: int, window: real,
                           clock: Time)
  {
    forall p :: Agrees(Of(hits, p), Of(accepted, p), max, window, clock)
  }

  class RateLimiter {
    const maxMessages: int
    const window: real
    var hits: map<string, seq<Time>>
    /** Every instant at which `check` accepted, and the latest clock reading. */
    ghost var accepted: map<string, seq<Time>>
    ghost var clock: Time

    ghost predicate Valid()
      reads this
    {
      window > 0.0 && AllAgree(hits, accepted, maxMessages, window, clock)
    }

    constructor (maxMessages: int, window: real, now: Time)
      requires window > 0.0
      ensures Valid() && this.maxMessages == maxMessages && this.window == window
      ensures accepted == map[] && clock == now
    {
      this.maxMessages, this.window, hits := maxMessages, window, map[];
      accepted, clock := map[], now;
      new;
      assert Younger([], now - this.window) == [];
      assert Agrees([], [], this.maxMessages, this.window, clock);
    }

    method Check(p: string, now: Time) returns (ok: bool)
      requires Valid() && clock <= now
      modifies this
      ensures Valid() && clock == now
      // Accepted exactly if fewer than the maximum were accepted in the last window of the full history …
      ensures ok <==> |Younger(Of(old(accepted), p), now - window)| < maxMessages
      // … and remembered exactly then, the list being pruned in the same go; nobody else is affected.
      ensures accepted == old(accepted)[p := if ok then Of(old(accepted), p) + [now] else Of(old(accepted), p)]
      ensures hits == old(hits)[p := Younger(Of(accepted, p), now - window)]
    {
      CheckKeeps(hits, accepted, p, maxMessages, window, clock, now);
      ghost var history := Of(accepted, p);
      var recent := Younger(Of(hits, p), now - window);
      clock := now;
      if |recent| >= maxMessages {
        hits, accepted := hits[p := recent], accepted[p := history];
        return false;
      }
      hits, accepted := hits[p := recent + [now]], accepted[p := history + [now]];
      ok := true;
    }

    method Remaining(p: string, now: Time) returns (left: int)
      requires Valid() && clock <= now
      ensures left == Max(0, maxMessages - |Younger(Of(accepted, p), now - window)|)
      // Something is left exactly if a check at this instant would accept.
      ensures left > 0 <==> |Younger(Of(accepted, p), now - window)| < maxMessages
    {
      assert Agrees(Of(hits, p), Of(accepted, p), maxMessages, window, clock);
      Ages(Of(hits, p), Of(accepted, p), maxMessages, window, clock, now);
      var current := |Younger(Of(hits, p), now - window)|;
      left := Max(0, maxMessages - current);
    }

    /** A refusal at `now` means exactly the maximum (none, if that is negative) were accepted in the last window. */
    lemma RefusalMeansFull(p: string, now: Time)
      requires Valid() && clock <= now
      requires |Younger(Of(accepted, p), now - window)| >= maxMessages
      ensures |Younger(Of(accepted, p), now - window)| == Max(0, maxMessages)
    {
      assert Agrees(Of(hits, p), Of(accepted, p), maxMessages, window, clock);
      SpacedSuffix(Of(accepted, p), Max(0, maxMessages), window, now);
    }

    /** Any half-open interval of one window's length, anywhere, contains at most the maximum of acceptances. */
    lemma WindowBound(p: string, from: Time)
      requires Valid()
      ensures |InWindow(Of(accepted, p), from, window)| <= Max(0, maxMessages)
    {
      assert Agrees(Of(hits, p), Of(accepted, p), maxMessages, window, clock);
      AtMostMax(Of(accepted, p), Max(0, maxMessages), window, from);
    }
  }

  /** What `check` does to the two lists keeps them in agreement. */
  lemma CheckKeeps(hits: map<string, seq<Time>>, accepted: map<string, seq<Time>>, p: string, max: int, window: real,
                   clock: Time, now: Time)
    requires window > 0.0 && clock <= now && AllAgree(hits, accepted, max, window, clock)
    ensures var history := Of(accepted, p);
            var recent := Younger(Of(hits, p), now - window);
            && recent == Younger(history, now - window)
            && AllAgree(hits[p := recent], accepted[p := history], max, window, now)
            && (|recent| < max ==>
                  && Younger(history + [now], now - window) == recent + [now]
                  && AllAgree(hits[p := recent + [now]], accepted[p := history + [now]], max, window, now))
  {
    var history := Of(accepted, p);
    var recent := Younger(Of(hits, p), now - window);
    AllAge(hits, accepted, max, window, clock, now);
    Ages(Of(hits, p), history, max, window, clock, now);
    Replace(hits, accepted, p, recent, history, max, window, now);
    if |recent| < max {
      Accepts(history, max, window, now);
      YoungerAppend(history, now, now - window);
      Replace(hits, accepted, p, recent + [now], history + [now], max, window, now);
    }
  }

  lemma Replace(hits: map<string, seq<Time>>, accepted: map<string, seq<Time>>, p: string, recent: seq<Time>,
                history: seq<Time>, max: int, window: real, now: Time)
    requires AllAgree(hits, accepted, max, window, now) && Agrees(recent, history, max, window, now)
    ensures AllAgree(hits[p := recent], accepted[p := history], max, window, now)
  {
    var hits', accepted' := hits[p := recent], accepted[p := history];
    forall q
      ensures Agrees(Of(hits', q), Of(accepted', q), max, window, now)
    {
      assert q != p ==> Agrees(Of(hits, q), Of(accepted, q), max, window, now);
    }
  }

  /** From `now` on, pruning the pruned list is as good as pruning the full history. */
  lemma Ages(hits: seq<Time>, history: seq<Time>, max: int, window: real, clock: Time, now: Time)
    requires Agrees(hits, history, max, window, clock) && clock <= now
    ensures Younger(hits, now - window) == Younger(history, now - window)
    ensures Agrees(hits, history, max, window, now)
    ensures Agrees(Younger(hits, now - window), history, max, window, now)
  {
    var earlier :| earlier <= clock - window && hits == Younger(history, earlier);
    YoungerTwice(history, earlier, now - window);
  }

  lemma AllAge(hits: map<string, seq<Time>>, accepted: map<string, seq<Time>>, max: int, window: real,
              clock: Time, now: Time)
    requires clock <= now && AllAgree(hits, accepted, max, window, clock)
    ensures AllAgree(hits, accepted, max, window, now)
  {
    forall p
      ensures Agrees(Of(hits, p), Of(accepted, p), max, window, now)
    {
      assert Agrees(Of(hits, p), Of(accepted, p), max, window, clock);
      Ages(Of(hits, p), Of(accepted, p), max, window, clock, now);
    }
  }

  lemma Accepts(history: seq<Time>, max: int, window: real, now: Time)
    requires Sorted(history) && Spaced(history, Max(0, max), window) && window > 0.0
    requires forall k :: 0 <= k < |history| ==> history[k] <= now
    requires |Younger(history, now - window)| < max
    ensures Agrees(Younger(history, now - window) + [now], history + [now], max, window, now)
  {
    AcceptKeepsSpacing(history, now - window, Max(0, max), window, now);
    YoungerAppend(history, now, now - window);
  }

  lemma {:induction false} YoungerTwice(times: seq<Time>, c: Time, d: Time)
    requires c <= d
    ensures Younger(Younger(times, c), d) == Younger(times, d)
  {
    if times != [] {
      YoungerTwice(times[1..], c, d);
      if times[0] > c {
        assert ([times[0]] + Younger(times[1..], c))[1..] == Younger(times[1..], c);
      }
    }
  }

  lemma {:induction false} YoungerAppend(times: seq<Time>, t: Time, cutoff: Time)
    requires t > cutoff
    ensures Younger(times + [t], cutoff) == Younger(times, cutoff) + [t]
  {
    if times == [] {
      assert [t][1..] == [];
    } else {
      YoungerAppend(times[1..], t, cutoff);
      assert (times + [t])[1..] == times[1..] + [t];
    }
  }

  /** Of a sorted list, the younger entries are the last ones. */
  lemma {:induction false} YoungerIsSuffix(times: seq<Time>, cutoff: Time)
    requires Sorted(times)
    ensures |Younger(times, cutoff)| <= |times|
    ensures Younger(times, cutoff) == times[|times| - |Younger(times, cutoff)|..]
    ensures forall k :: 0 <= k < |times| ==> (times[k] > cutoff <==> k >= |times| - |Younger(times, cutoff)|)
  {
    if times != [] {
      YoungerIsSuffix(times[1..], cutoff);
      var n := |Younger(times[1..], cutoff)|;
      if times[0] > cutoff {
        assert forall k :: 1 <= k < |times| ==> times[k] == times[1..][k - 1];
        assert |times| > 1 ==> times[1..][0] > cutoff;
        assert n == |times| - 1;
        assert [times[0]] + times[1..] == times;
      } else {
        assert times[1..][|times| - 1 - n..] == times[|times| - n..];
        assert forall k :: 1 <= k < |times| ==> times[k] == times[1..][k - 1];
      }
    }
  }

  /** Accepting when fewer than `max` entries are younger than the cutoff keeps the history spaced. */
  lemma AcceptKeepsSpacing(times: seq<Time>, cutoff: Time, max: nat, window: real, now: Time)
    requires Sorted(times) && Spaced(times, max, window) && cutoff == now - window
    requires |Younger(times, cutoff)| < max
    requires forall k :: 0 <= k < |times| ==> times[k] <= now
    ensures Sorted(times + [now]) && Spaced(times + [now], max, window)
  {
    YoungerIsSuffix(times, cutoff);
    var longer := times + [now];
    forall i | 0 <= i < |longer| - max
      ensures longer[i] + window <= longer[i + max]
    {
      if i + max == |times| {
        assert i < |times| - |Younger(times, cutoff)|;
      }
    }
  }

  lemma SpacedSuffix(times: seq<Time>, max: nat, window: real, now: Time)
    requires Sorted(times) && Spaced(times, max, window)
    requires forall k :: 0 <= k < |times| ==> times[k] <= now
    ensures |Younger(times, now - window)| <= max
  {
    YoungerIsSuffix(times, now - window);
    if |times| > max {
      var i := |times| - max - 1;
      assert times[i] + window <= times[i + max] <= now;
    }
  }

  /** The entries of the half-open interval [from, from + window). */
  function InWindow(times: seq<Time>, from: Time, window: real): set<nat> {
    set k: nat | k < |times| && from <= times[k] < from + window
  }

  lemma AtMostMax(times: seq<Time>, max: nat, window: real, from: Time)
    requires Sorted(times) && Spaced(times, max, window)
    ensures |InWindow(times, from, window)| <= max
  {
    var inside := InWindow(times, from, window);
    if inside != {} {
      var first := Least(inside);
      forall k | first + max <= k < |times|
        ensures k !in inside
      {
        assert times[first] + window <= times[first + max] <= times[k];
      }
      assert inside <= Range(first, max);
      RangeCard(first, max);
      SubsetCard(inside, Range(first, max));
    }
  }

  lemma Least(s: set<nat>) returns (m: nat)
    requires s != {}
    ensures m in s && forall k :: k in s ==> m <= k
  {
    var some :| some in s;
    var smaller := set k | k in s && k < some;
    m := some;
    if smaller != {} {
      m := Least(smaller);
    }
    assert forall k :: k in s && k < some ==> k in smaller;
  }

  predicate Within(k: nat, first: nat, n: nat) { first <= k < first + n }

  function Range(first: nat, n: nat): set<nat> {
    set k: nat {:trigger Within(k, first, n)} | Within(k, first, n) && k < first + n
  }

  lemma {:induction false} RangeCard(first: nat, n: nat)
    ensures |Range(first, n)| == n
  {
    if n > 0 {
      RangeCard(first, n - 1);
      assert Range(first, n) == Range(first, n - 1) + {first + n - 1};
    }
  }

  lemma SubsetCard<T>(a: set<T>, b: set<T>)
    requires a <= b
    ensures |a| <= |b|
  {
    assert b == a + (b - a);
  }
}
