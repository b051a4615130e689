/** The heartbeat inside the work protocol: with timely replies, nobody's claim takes the item while its
    handler runs, whatever all the others do. */
module HeartbeatRuns {
  import opened Prelude
  import opened WorkModel
  import opened WorkSessions
  import opened WorkProtocol
  import opened WorkSafety
  import opened WorkRuns
  import opened Heartbeat

  /** Worker `w` is given item `id` in step `i - 1`, and from then until `j` it has it in process, unreported. */
  ghost predicate Working(states: seq<State>, i: nat, j: nat, w: Worker, id: Id)
    requires 0 < i <= j < |states|
  {
    && !Holds(states[i - 1], w, id)
    && forall k :: i <= k <= j ==> InProcess(states[k], w, id)
  }

  predicate InProcess(s: State, w: Worker, id: Id) {
    Holds(s, w, id) && TokenOf(s, w, id).phase != Reported
  }

  /** Step `b` is a heartbeat at the instant `at` whose reply the worker heard, whatever the reply. */
  predicate IsBeat(states: seq<State>, steps: seq<Step>, b: nat, w: Worker, id: Id, at: Time)
    requires |states| == |steps| + 1
  {
    b < |steps| && steps[b] == Step.Beat(w, id, true) && states[b].now == at
  }

  /** The heartbeat beats as scheduled: each beat of the schedule that is answered and lies before the end of the
      stretch is a step of the run at its instant.  Beats that fail need not show at all. */
  ghost predicate Beats(states: seq<State>, steps: seq<Step>, i: nat, j: nat, w: Worker, id: Id, start: Time, lease: Time,
                        replies: seq<Reply>)
    requires |states| == |steps| + 1 && 0 < i <= j < |states|
  {
    forall n :: 0 <= n < |replies| && replies[n] == Renewed && BeatAt(start, lease, n) < states[j].now ==>
                  exists b: nat :: i <= b < j && IsBeat(states, steps, b, w, id, BeatAt(start, lease, n))
  }

  lemma {:induction false} TimeGrows(states: seq<State>, steps: seq<Step>, i: nat, j: nat)
    requires Run(states, steps) && i <= j < |states|
    ensures states[i].now <= states[j].now
  {
    if i < j {
      TimeGrows(states, steps, i, j - 1);
      assert StepAt(states, steps, j - 1);
      TimeMoves(states[j - 1], steps[j - 1], states[j]);
    }
  }

  lemma BeatsApart(start: Time, lease: Time, m: nat, n: nat)
    requires m <= n
    ensures BeatAt(start, lease, m) <= BeatAt(start, lease, n)
  {
    TimesGrows(m + 1, n + 1, Interval(lease));
  }

  /** The first beat not before `at`. */
  lemma {:induction false} NextBeat(start: Time, lease: Time, at: Time, n: nat) returns (next: nat)
    requires at <= BeatAt(start, lease, n)
    ensures next <= n && at <= BeatAt(start, lease, next)
    ensures next > 0 ==> BeatAt(start, lease, next - 1) < at
  {
    if n > 0 && at <= BeatAt(start, lease, n - 1) {
      next := NextBeat(start, lease, at, n - 1);
    } else {
      next := n;
    }
  }

  /** The recorded lease end comes from the claim or from the last renewal. */
  lemma {:induction false} LastRenewal(claim: Time, start: Time, lease: Time, replies: seq<Reply>, n: nat) returns (m: int)
    requires n <= |replies|
    ensures -1 <= m < n
    ensures m == -1 ==> EndBefore(claim, start, lease, replies, n) == claim + lease
    ensures m >= 0 ==> replies[m] == Renewed && EndBefore(claim, start, lease, replies, n) == BeatAt(start, lease, m) + lease
  {
    if n == 0 {
      m := -1;
    } else if replies[n - 1] == Renewed {
      m := n - 1;
    } else {
      m := LastRenewal(claim, start, lease, replies, n - 1);
    }
  }

  /** A grant that runs is honoured: the item is its worker's, or it was cancelled. */
  lemma GrantRuns(states: seq<State>, steps: seq<Step>, k: nat, w: Worker, id: Id)
    requires Run(states, steps) && k < |states| && InProcess(states[k], w, id)
    requires states[k].now <= TokenOf(states[k], w, id).until
    ensures id in states[k].db.items
    ensures states[k].db.items[id].status != Cancelled ==>
              && states[k].db.items[id].OwnedBy(w) && states[k].db.items[id].leaseExpiresAt.Some?
              && states[k].now <= states[k].db.items[id].leaseExpiresAt.value
  {
    GrantHonoured(states, steps, k, k, w, id);
  }

  /** A heard beat of the owner extends its grant by a whole lease. */
  lemma BeatExtends(s: State, step: Step, s': State, w: Worker, id: Id)
    requires Next(s, step, s') && step == Step.Beat(w, id, true) && InProcess(s, w, id)
    requires id in s.db.items && s.db.items[id].OwnedBy(w)
    ensures Holds(s', w, id) && TokenOf(s', w, id).until == s.now + s.workers[w].lease
  {
  }

  /** The item is cancelled, or the grant still runs. */
  predicate GrantStands(s: State, w: Worker, id: Id)
    requires Holds(s, w, id)
  {
    id in s.db.items && (s.db.items[id].status == Cancelled || s.now <= TokenOf(s, w, id).until)
  }

  lemma CancelledStays(states: seq<State>, steps: seq<Step>, i: nat, j: nat, id: Id)
    requires Run(states, steps) && i <= j < |states|
    requires id in states[i].db.items && states[i].db.items[id].status == Cancelled
    ensures id in states[j].db.items && states[j].db.items[id].status == Cancelled
  {
    EndIsFinal(states, steps, i, j, id);
  }

  /** A worker's lease time does not change while it lives. */
  lemma {:induction false} LeaseKept(states: seq<State>, steps: seq<Step>, i: nat, j: nat, w: Worker, id: Id)
    requires Run(states, steps) && i <= j < |states|
    requires forall k :: i <= k <= j ==> Holds(states[k], w, id)
    ensures Holds(states[i], w, id) && Holds(states[j], w, id)
    ensures states[j].workers[w].lease == states[i].workers[w].lease
  {
    if i < j {
      LeaseKept(states, steps, i, j - 1, w, id);
      RunInv(states, steps, j - 1);
      assert StepAt(states, steps, j - 1);
      TokenStays(states[j - 1], steps[j - 1], states[j], w, id);
    }
  }

  /** What the theorem is about. */
  ghost predicate Supervised(states: seq<State>, steps: seq<Step>, i: nat, j: nat, w: Worker, id: Id, start: Time,
                             replies: seq<Reply>)
  {
    && Run(states, steps) && 0 < i <= j < |states| && Working(states, i, j, w, id)
    && Beats(states, steps, i, j, w, id, start, states[i].workers[w].lease, replies)
    && 0 < |replies| && states[j].now <= BeatAt(start, states[i].workers[w].lease, |replies| - 1)
    && NeverLapses(states[i].now, start, states[i].workers[w].lease, replies)
  }

  lemma GrantedNow(states: seq<State>, steps: seq<Step>, i: nat, j: nat, w: Worker, id: Id, start: Time, replies: seq<Reply>)
    requires Supervised(states, steps, i, j, w, id, start, replies)
    ensures Holds(states[i], w, id) && TokenOf(states[i], w, id).until == states[i].now + states[i].workers[w].lease
  {
    assert InProcess(states[i], w, id) && StepAt(states, steps, i - 1);
    TokenAppears(states[i - 1], steps[i - 1], states[i], w, id);
    TimeMoves(states[i - 1], steps[i - 1], states[i]);
  }

  lemma HeldBetween(states: seq<State>, steps: seq<Step>, i: nat, j: nat, w: Worker, id: Id, a: nat, b: nat)
    requires Run(states, steps) && 0 < i <= a <= b <= j < |states| && Working(states, i, j, w, id)
    ensures forall k :: a <= k <= b ==> Holds(states[k], w, id)
    ensures TokenOf(states[a], w, id).until <= TokenOf(states[b], w, id).until
  {
    forall k | a <= k <= b
      ensures Holds(states[k], w, id)
    {
      assert InProcess(states[k], w, id);
    }
    TokenKept(states, steps, a, b, w, id);
  }

  /** After the renewal of beat `m` the grant runs for a whole lease, unless the item was cancelled before. */
  lemma Renewal(states: seq<State>, steps: seq<Step>, i: nat, j: nat, w: Worker, id: Id, start: Time,
                replies: seq<Reply>, b: nat)
    requires Supervised(states, steps, i, j, w, id, start, replies) && i <= b < j && steps[b] == Step.Beat(w, id, true)
    requires InProcess(states[b], w, id) && GrantStands(states[b], w, id)
    ensures states[b].db.items[id].status != Cancelled ==>
              && Holds(states[b + 1], w, id)
              && TokenOf(states[b + 1], w, id).until == states[b].now + states[i].workers[w].lease
  {
    if states[b].db.items[id].status != Cancelled {
      GrantRuns(states, steps, b, w, id);
      assert StepAt(states, steps, b);
      BeatExtends(states[b], steps[b], states[b + 1], w, id);
      HeldBetween(states, steps, i, j, w, id, i, b);
      LeaseKept(states, steps, i, b, w, id);
    }
  }

  /** At every point of the stretch the grant stands. */
  lemma {:induction false} GrantNeverLapses(states: seq<State>, steps: seq<Step>, i: nat, j: nat, w: Worker, id: Id,
                                            start: Time, replies: seq<Reply>, k: nat)
    requires Supervised(states, steps, i, j, w, id, start, replies) && i <= k <= j
    ensures InProcess(states[k], w, id) && GrantStands(states[k], w, id)
    decreases k
  {
    var lease, claim := states[i].workers[w].lease, states[i].now;
    assert InProcess(states[k], w, id);
    RunInv(states, steps, k);
    TimeGrows(states, steps, k, j);
    var n := NextBeat(start, lease, states[k].now, |replies| - 1);
    var m := LastRenewal(claim, start, lease, replies, n);
    GrantedNow(states, steps, i, j, w, id, start, replies);
    if m == -1 {
      HeldBetween(states, steps, i, j, w, id, i, k);
    } else {
      BeatsApart(start, lease, m, n - 1);
      var b: nat :| i <= b < j && IsBeat(states, steps, b, w, id, BeatAt(start, lease, m));
      if k <= b {
        TimeGrows(states, steps, k, b);
        assert false;
      }
      GrantNeverLapses(states, steps, i, j, w, id, start, replies, b);
      Renewal(states, steps, i, j, w, id, start, replies, b);
      if states[b].db.items[id].status == Cancelled {
        CancelledStays(states, steps, b, k, id);
      } else {
        HeldBetween(states, steps, i, j, w, id, b + 1, k);
      }
    }
  }

  lemma StandingIsSafe(s: State, step: Step, s': State, w: Worker, id: Id)
    requires Next(s, step, s') && step.Claim? && id in s.db.items
    requires s.db.items[id].status == Cancelled
             || (s.db.items[id].OwnedBy(w) && s.db.items[id].leaseExpiresAt.Some?
                 && s.now <= s.db.items[id].leaseExpiresAt.value)
    ensures id !in step.batch.claimed && id !in step.batch.reclaimDead
  {
    ClaimIsSeen(s, step, s', id);
  }

  /** While the handler runs under a heartbeat that keeps the lease from lapsing, no claim of any worker takes the item
      over or kills it. */
  lemma NeverReclaimed(states: seq<State>, steps: seq<Step>, i: nat, j: nat, w: Worker, id: Id, start: Time,
                       replies: seq<Reply>, k: nat)
    requires Supervised(states, steps, i, j, w, id, start, replies) && i <= k < j && steps[k].Claim?
    ensures id !in steps[k].batch.claimed && id !in steps[k].batch.reclaimDead
  {
    GrantNeverLapses(states, steps, i, j, w, id, start, replies, k);
    if states[k].db.items[id].status != Cancelled {
      GrantRuns(states, steps, k, w, id);
    }
    assert StepAt(states, steps, k);
    StandingIsSafe(states[k], steps[k], states[k + 1], w, id);
  }

  /** In particular if every beat is timely: at most two failures in a row, and before the first renewal no more than the
      delay since the claim leaves room for. */
  lemma TimelyIsNeverReclaimed(states: seq<State>, steps: seq<Step>, i: nat, j: nat, w: Worker, id: Id, start: Time,
                               replies: seq<Reply>, k: nat)
    requires Run(states, steps) && 0 < i <= k < j < |states| && Working(states, i, j, w, id)
    requires w in states[i].workers
    requires var lease := states[i].workers[w].lease;
             && lease >= 0.15 && states[i].now <= start && 0 < |replies|
             && Beats(states, steps, i, j, w, id, start, lease, replies)
             && states[j].now <= BeatAt(start, lease, |replies| - 1)
             && forall n :: 0 <= n < |replies| ==> Timely(states[i].now, start, lease, replies, n)
    requires steps[k].Claim?
    ensures id !in steps[k].batch.claimed && id !in steps[k].batch.reclaimDead
  {
    LeaseSurvives(states[i].now, start, states[i].workers[w].lease, replies);
    NeverReclaimed(states, steps, i, j, w, id, start, replies, k);
  }
}
