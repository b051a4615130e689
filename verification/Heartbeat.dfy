/** The lease heartbeat: exactly when a renewed lease never lapses while the handler runs. */
module Heartbeat {
  import opened Prelude
  import opened WorkModel

  /** One beat's renewal: accepted, refused (ownership lost), or failed with an error. */
  datatype Reply = Renewed | Refused | Error

  function Interval(lease: real): real {
    if lease / 3.0 > 0.05 then lease / 3.0 else 0.05
  }

  /** When beat `n` (from 0) fires, for a heartbeat spawned at `start`. */
  function BeatAt(start: real, lease: real, n: nat): real {
    start + Times(n + 1, Interval(lease))
  }

  /** The beats are a third of the lease apart, or the twentieth of a second for leases below 0.15 s. */
  lemma BeatsAreThirds(start: real, lease: real, n: nat)
    ensures lease >= 0.15 ==> 3.0 * (BeatAt(start, lease, n) - start) == (n + 1) as real * lease
    ensures lease <= 0.15 ==> 20.0 * (BeatAt(start, lease, n) - start) == (n + 1) as real
  {
    TimesIsProduct(n + 1, Interval(lease));
    if lease >= 0.15 {
      assert Interval(lease) == lease / 3.0;
      ThirdOf((n + 1) as real, lease);
    } else {
      assert Interval(lease) == 0.05;
    }
  }

  lemma ThirdOf(n: real, lease: real)
    ensures 3.0 * (n * (lease / 3.0)) == n * lease
  {
  }

  /** The recorded lease end just before beat `n`, for an item claimed at `claim`. */
  function EndBefore(claim: real, start: real, lease: real, replies: seq<Reply>, n: nat): real
    requires n <= |replies|
  {
    if n == 0 then claim + lease
    else if replies[n - 1] == Renewed then BeatAt(start, lease, n - 1) + lease
    else EndBefore(claim, start, lease, replies, n - 1)
  }

  /** The lease is strictly past at no instant up to the last beat: between two beats the end does not
      move, so it has to reach the later one. */
  ghost predicate NeverLapses(claim: real, start: real, lease: real, replies: seq<Reply>) {
    forall n :: 0 <= n < |replies| ==> EndBefore(claim, start, lease, replies, n) >= BeatAt(start, lease, n)
  }

  /** The failed beats in a row just before beat `n`. */
  function Streak(replies: seq<Reply>, n: nat): nat
    requires n <= |replies|
  {
    if n == 0 || replies[n - 1] == Renewed then 0 else 1 + Streak(replies, n - 1)
  }

  /** `_beat`: sleep, renew, and stop on a refusal.  `ends[n]` is the lease end just before beat `n`. */
  method Beat(claim: real, start: real, lease: real, replies: seq<Reply>) returns (ends: seq<real>, end: real)
    ensures |ends| <= |replies|
    ensures forall n :: 0 <= n < |ends| ==> ends[n] == EndBefore(claim, start, lease, replies, n)
    ensures end == EndBefore(claim, start, lease, replies, |ends|)
    ensures |ends| < |replies| ==> |ends| > 0 && replies[|ends| - 1] == Refused
    ensures forall n :: 0 <= n < |ends| - 1 ==> replies[n] != Refused
  {
    var interval := if lease / 3.0 > 0.05 then lease / 3.0 else 0.05;
    var clock := start;
    ends, end := [], claim + lease;
    while |ends| < |replies|
      invariant |ends| <= |replies|
      invariant clock == start + Times(|ends|, interval)
      invariant forall n :: 0 <= n < |ends| ==> ends[n] == EndBefore(claim, start, lease, replies, n)
      invariant end == EndBefore(claim, start, lease, replies, |ends|)
      invariant forall n :: 0 <= n < |ends| ==> replies[n] != Refused
    {
      clock := clock + interval;
      var reply := replies[|ends|];
      ends := ends + [end];
      if reply == Refused {
        return;
      }
      if reply == Renewed {
        end := clock + lease;
      }
    }
  }

  /** How far the lease reaches past beat `n`, from the failed beats before it alone. */
  lemma {:induction false} Slack(claim: real, start: real, lease: real, replies: seq<Reply>, n: nat)
    requires n <= |replies|
    ensures Streak(replies, n) <= n
    ensures EndBefore(claim, start, lease, replies, n) - BeatAt(start, lease, n)
         == lease - Times(Streak(replies, n) + 1, Interval(lease)) - (if Streak(replies, n) == n then start - claim else 0.0)
  {
    var x := Interval(lease);
    if n > 0 && replies[n - 1] != Renewed {
      Slack(claim, start, lease, replies, n - 1);
      assert BeatAt(start, lease, n) == BeatAt(start, lease, n - 1) + x;
      var f := Streak(replies, n - 1);
      assert Times(f + 2, x) == Times(f + 1, x) + x;
    } else if n > 0 {
      assert BeatAt(start, lease, n) == BeatAt(start, lease, n - 1) + x;
      assert Times(1, x) == Times(0, x) + x;
    }
  }

  /** Beat `n` comes after at most two failures in a row; and if no renewal came before it, the delay before
      the heartbeat started counts against them. */
  predicate Timely(claim: real, start: real, lease: real, replies: seq<Reply>, n: nat)
    requires n <= |replies|
  {
    && Streak(replies, n) <= 2
    && (Streak(replies, n) == n ==> start - claim <= Times(2 - n, lease / 3.0))
  }

  lemma BeatSurvives(claim: real, start: real, lease: real, replies: seq<Reply>, n: nat)
    requires lease >= 0.15 && claim <= start && n < |replies|
    ensures EndBefore(claim, start, lease, replies, n) >= BeatAt(start, lease, n) <==>
            Timely(claim, start, lease, replies, n)
  {
    var f, x := Streak(replies, n), lease / 3.0;
    assert Interval(lease) == x;
    Slack(claim, start, lease, replies, n);
    assert Times(1, x) == x && Times(2, x) == x + x && Times(3, x) == lease;
    TimesGrows(f + 1, 3, x);
    if f <= 2 {
      TimesAdds(f + 1, 2 - f, x);
    }
  }

  /** From a lease of 0.15 s on, the lease never lapses exactly if every beat is timely. */
  lemma LeaseSurvives(claim: real, start: real, lease: real, replies: seq<Reply>)
    requires lease >= 0.15 && claim <= start
    ensures NeverLapses(claim, start, lease, replies) <==>
            forall n :: 0 <= n < |replies| ==> Timely(claim, start, lease, replies, n)
  {
    forall n | 0 <= n < |replies|
      ensures EndBefore(claim, start, lease, replies, n) >= BeatAt(start, lease, n) <==>
              Timely(claim, start, lease, replies, n)
    {
      BeatSurvives(claim, start, lease, replies, n);
    }
  }

  /** A lease shorter than that survives beat `n` exactly if the failed beats before it, one more, and the delay of the
      start, all fit into it; so one of less than 0.05 s never survives its first beat. */
  lemma ShortLeaseSurvives(claim: real, start: real, lease: real, replies: seq<Reply>, n: nat)
    requires lease <= 0.15 && n < |replies|
    ensures EndBefore(claim, start, lease, replies, n) >= BeatAt(start, lease, n) <==>
            (Streak(replies, n) + 1) as real * 0.05 + (if Streak(replies, n) == n then start - claim else 0.0) <= lease
    ensures lease < 0.05 && claim <= start ==> !NeverLapses(claim, start, lease, replies)
  {
    Slack(claim, start, lease, replies, n);
    TimesIsProduct(Streak(replies, n) + 1, 0.05);
    if lease < 0.05 && claim <= start {
      Slack(claim, start, lease, replies, 0);
      assert Times(1, 0.05) == Times(0, 0.05) + 0.05;
    }
  }

  /** Until beat `n`, an item whose recorded lease end is the one just before that beat is out of reach of every
      claim pass, exactly if the lease survives that long. */
  lemma NotClaimable(it: Item, ledger: set<Signal>, claim: real, start: real, lease: real, replies: seq<Reply>, n: nat)
    requires n < |replies| && it.InFlight() && it.leaseExpiresAt == Some(EndBefore(claim, start, lease, replies, n))
    ensures (forall at :: at <= BeatAt(start, lease, n) ==> !Claimable(it, ledger, at)) <==>
            EndBefore(claim, start, lease, replies, n) >= BeatAt(start, lease, n)
  {
    if EndBefore(claim, start, lease, replies, n) < BeatAt(start, lease, n) {
      assert Claimable(it, ledger, BeatAt(start, lease, n));
    }
  }

  /** Started with the claim, at most two failures in a row are always survived. */
  lemma TwoFailuresSurvived(claim: real, lease: real, replies: seq<Reply>)
    requires lease >= 0.15
    requires forall n :: 0 <= n < |replies| ==> Streak(replies, n) <= 2
    ensures NeverLapses(claim, claim, lease, replies)
  {
    LeaseSurvives(claim, claim, lease, replies);
    forall n | 0 <= n < |replies|
      ensures Timely(claim, claim, lease, replies, n)
    {
      if Streak(replies, n) == n {
        TimesPositive(2 - n, lease / 3.0);
      }
    }
  }

  /** Started any later, two failures at the outset let it lapse. */
  lemma LateStartLapses(claim: real, start: real, lease: real)
    requires lease >= 0.15 && claim < start
    ensures !NeverLapses(claim, start, lease, [Error, Error, Renewed])
  {
    var replies := [Error, Error, Renewed];
    assert Streak(replies, 1) == 1 && Streak(replies, 2) == 2;
    BeatSurvives(claim, start, lease, replies, 2);
    assert Times(0, lease / 3.0) == 0.0;
  }
}
