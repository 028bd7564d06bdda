/** Sweeps compete for stuck rows through one conditional update. */
module SweeperClaims {
  import opened Wrappers
  import opened RetryLadder
  import opened DeliveryModel

  predicate ClaimOf(e: Event, d: DeliveryId) {
    e.Claimed? && e.delivery == d
  }

  predicate BySweep(e: Event, k: SweeperId) {
    (e.Claimed? || e.SweepPublished?) && e.sweeper == k
  }

  /** d was claimed and nobody wrote IN_FLIGHT since. */
  predicate ClaimStands(log: seq<Event>, d: DeliveryId) {
    log != []
    && var last := log[|log| - 1];
       last != Event.WroteInFlight(d) && (ClaimOf(last, d) || ClaimStands(log[..|log| - 1], d))
  }

  /** The last thing sweep k did was to claim d. */
  predicate HoldsClaim(log: seq<Event>, k: SweeperId, d: DeliveryId) {
    log != []
    && var last := log[|log| - 1];
       if BySweep(last, k) then last == Claimed(k, d) else HoldsClaim(log[..|log| - 1], k, d)
  }

  /** Between two claims of one delivery somebody wrote IN_FLIGHT. */
  ghost predicate ClaimsAlternate(log: seq<Event>, d: DeliveryId) {
    forall i, j :: 0 <= i < j < |log| && ClaimOf(log[i], d) && ClaimOf(log[j], d)
      ==> exists w :: i < w < j && log[w] == Event.WroteInFlight(d)
  }

  /** Position i holds the claim that the publish at j answers. */
  ghost predicate Answers(log: seq<Event>, i: int, j: int, k: SweeperId, d: DeliveryId) {
    0 <= i < j <= |log| && log[i] == Claimed(k, d) && forall x :: i < x < j ==> !BySweep(log[x], k)
  }

  /** Every publish answers a claim of the same sweep on the same delivery, and no claim is answered twice. */
  ghost predicate PublishesFollowClaims(log: seq<Event>, k: SweeperId, d: DeliveryId) {
    forall j :: 0 <= j < |log| && log[j] == SweepPublished(k, d) ==> exists i :: Answers(log, i, j, k, d)
  }

  lemma {:induction false} StandingClaim(log: seq<Event>, d: DeliveryId, i: nat)
    requires i < |log| && ClaimOf(log[i], d) && !ClaimStands(log, d)
    ensures exists w :: i < w < |log| && log[w] == Event.WroteInFlight(d)
  {
    var n := |log| - 1;
    if log[n] != Event.WroteInFlight(d) {
      StandingClaim(log[..n], d, i);
      var w :| i < w < n && log[..n][w] == Event.WroteInFlight(d);
      assert log[w] == Event.WroteInFlight(d);
    }
  }

  lemma {:induction false} HeldClaim(log: seq<Event>, k: SweeperId, d: DeliveryId)
    requires HoldsClaim(log, k, d)
    ensures exists i :: Answers(log, i, |log|, k, d)
  {
    var n := |log| - 1;
    if BySweep(log[n], k) {
      assert Answers(log, n, |log|, k, d);
    } else {
      HeldClaim(log[..n], k, d);
      var i :| Answers(log[..n], i, n, k, d);
      assert Answers(log, i, |log|, k, d);
    }
  }

  ghost predicate Claims(s: State, k: SweeperId, d: DeliveryId) {
    && (ClaimStands(s.log, d) ==> d in s.deliveries && !s.deliveries[d].status.InFlight?)
    && (AtStage(s, k, Publishing) && s.sweeps[k].todo[0].id == d ==> HoldsClaim(s.log, k, d))
    && ClaimsAlternate(s.log, d)
    && PublishesFollowClaims(s.log, k, d)
  }

  /** What a step that logged `ev` did to delivery d and sweep k. */
  ghost predicate Effect(s: State, t: State, ev: seq<Event>, k: SweeperId, d: DeliveryId) {
    && t.log == s.log + ev
    && |ev| <= 1
    && (d in s.deliveries ==> d in t.deliveries)
    && (ev != [] && ClaimOf(ev[0], d) ==> d in s.deliveries && s.deliveries[d].status.InFlight?)
    && (d in t.deliveries && t.deliveries[d].status.InFlight? ==>
          ev == [Event.WroteInFlight(d)]
          || (d in s.deliveries && s.deliveries[d].status.InFlight? && !(ev != [] && ClaimOf(ev[0], d))))
    && (ev == [SweepPublished(k, d)] ==> AtStage(s, k, Publishing) && s.sweeps[k].todo[0].id == d)
    && (AtStage(t, k, Publishing) && t.sweeps[k].todo[0].id == d ==>
          ev == [Claimed(k, d)]
          || (AtStage(s, k, Publishing) && s.sweeps[k].todo[0].id == d && !(ev != [] && BySweep(ev[0], k))))
  }

  /** What was logged on the way from s to t. */
  function Logs(s: State, t: State): seq<Event> {
    if |t.log| > |s.log| then [t.log[|t.log| - 1]] else []
  }

  lemma EffectByApi(c: Config, s: State, step: Step, t: State, k: SweeperId, d: DeliveryId)
    requires Takes(c, s, step, t) && ByApi(step)
    ensures Effect(s, t, Logs(s, t), k, d)
  {
  }

  lemma EffectMoving(c: Config, s: State, step: Step, t: State, k: SweeperId, d: DeliveryId)
    requires Takes(c, s, step, t) && Moving(step)
    ensures Effect(s, t, Logs(s, t), k, d)
  {
  }

  lemma EffectLeaving(c: Config, s: State, step: Step, t: State, k: SweeperId, d: DeliveryId)
    requires Takes(c, s, step, t) && Leaving(step)
    ensures Effect(s, t, Logs(s, t), k, d)
  {
  }

  lemma EffectSettling(c: Config, s: State, step: Step, t: State, k: SweeperId, d: DeliveryId)
    requires Takes(c, s, step, t) && Settling(step)
    ensures Effect(s, t, Logs(s, t), k, d)
  {
  }

  lemma EffectWriting(c: Config, s: State, step: Step, t: State, k: SweeperId, d: DeliveryId)
    requires Takes(c, s, step, t) && (step.Skip? || step.WriteInFlight?)
    ensures Effect(s, t, Logs(s, t), k, d)
  {
  }

  lemma EffectClaiming(c: Config, s: State, step: Step, t: State, k: SweeperId, d: DeliveryId)
    requires Takes(c, s, step, t) && (step.Claim? || step.Release?)
    ensures Effect(s, t, Logs(s, t), k, d)
  {
    if step.Claim? { EffectOfClaim(s, step.k, k, d); } else { EffectOfRelease(s, step.k, k, d); }
  }

  lemma EffectOfClaim(s: State, o: SweeperId, k: SweeperId, d: DeliveryId)
    requires AtStage(s, o, Claiming) && s.sweeps[o].todo[0].id in s.deliveries
    ensures Effect(s, ClaimFirst(s, o), Logs(s, ClaimFirst(s, o)), k, d)
  {
  }

  lemma EffectOfRelease(s: State, o: SweeperId, k: SweeperId, d: DeliveryId)
    requires AtStage(s, o, Releasing) && s.sweeps[o].todo[0].id in s.deliveries
    ensures Effect(s, PutBackFirst(s, o), Logs(s, PutBackFirst(s, o)), k, d)
  {
  }

  lemma EffectForwarding(c: Config, s: State, step: Step, t: State, k: SweeperId, d: DeliveryId)
    requires Takes(c, s, step, t) && Forwarding(step)
    ensures Effect(s, t, Logs(s, t), k, d)
  {
  }

  lemma EffectBookkeeping(c: Config, s: State, step: Step, t: State, k: SweeperId, d: DeliveryId)
    requires Takes(c, s, step, t) && Bookkeeping(step)
    ensures Effect(s, t, Logs(s, t), k, d)
  {
  }

  lemma StepEffect(c: Config, s: State, step: Step, t: State, k: SweeperId, d: DeliveryId)
    requires Takes(c, s, step, t)
    ensures Effect(s, t, Logs(s, t), k, d)
  {
    if ByApi(step) { EffectByApi(c, s, step, t, k, d); }
    else if Moving(step) { EffectMoving(c, s, step, t, k, d); }
    else if Leaving(step) { EffectLeaving(c, s, step, t, k, d); }
    else if step.Claim? || step.Release? { EffectClaiming(c, s, step, t, k, d); }
    else if Writing(step) { EffectWriting(c, s, step, t, k, d); }
    else if Forwarding(step) { EffectForwarding(c, s, step, t, k, d); }
    else if Settling(step) { EffectSettling(c, s, step, t, k, d); }
    else { EffectBookkeeping(c, s, step, t, k, d); }
  }

  lemma EffectKeeps(s: State, t: State, ev: seq<Event>, k: SweeperId, d: DeliveryId)
    requires Effect(s, t, ev, k, d) && Claims(s, k, d)
    ensures Claims(t, k, d)
  {
    if ev == [] {
      assert t.log == s.log;
    } else {
      assert ev == [ev[0]];
      LogGrows(s.log, ev[0], k, d);
      ClaimsGoOnAlternating(s.log, ev[0], d);
      PublishesGoOnAnswering(s.log, ev[0], k, d);
    }
  }

  lemma LogGrows(log: seq<Event>, last: Event, k: SweeperId, d: DeliveryId)
    ensures ClaimStands(log + [last], d) <==>
            last != Event.WroteInFlight(d) && (ClaimOf(last, d) || ClaimStands(log, d))
    ensures HoldsClaim(log + [last], k, d) <==>
            if BySweep(last, k) then last == Claimed(k, d) else HoldsClaim(log, k, d)
  {
    assert (log + [last])[..|log|] == log;
  }

  lemma ClaimsGoOnAlternating(log: seq<Event>, last: Event, d: DeliveryId)
    requires ClaimsAlternate(log, d) && (ClaimOf(last, d) ==> !ClaimStands(log, d))
    ensures ClaimsAlternate(log + [last], d)
  {
    var n, more := |log|, log + [last];
    forall i, j | 0 <= i < j < |more| && ClaimOf(more[i], d) && ClaimOf(more[j], d)
      ensures exists w :: i < w < j && more[w] == Event.WroteInFlight(d)
    {
      if j == n { StandingClaim(log, d, i); }
      var w :| i < w < j && log[w] == Event.WroteInFlight(d);
      assert more[w] == Event.WroteInFlight(d);
    }
  }

  lemma PublishesGoOnAnswering(log: seq<Event>, last: Event, k: SweeperId, d: DeliveryId)
    requires PublishesFollowClaims(log, k, d) && (last == SweepPublished(k, d) ==> HoldsClaim(log, k, d))
    ensures PublishesFollowClaims(log + [last], k, d)
  {
    var n, more := |log|, log + [last];
    forall j | 0 <= j < |more| && more[j] == SweepPublished(k, d) ensures exists i :: Answers(more, i, j, k, d) {
      if j == n { HeldClaim(log, k, d); }
      var i :| Answers(log, i, j, k, d);
      assert Answers(more, i, j, k, d);
    }
  }

  lemma {:induction false} RunKeepsClaims(c: Config, s: State, steps: seq<Step>, k: SweeperId, d: DeliveryId)
    requires Claims(s, k, d) && ValidRun(c, s, steps)
    ensures Claims(End(c, s, steps), k, d)
    decreases |steps|
  {
    if steps != [] {
      StepEffect(c, s, steps[0], Next(c, s, steps[0]), k, d);
      EffectKeeps(s, Next(c, s, steps[0]), Logs(s, Next(c, s, steps[0])), k, d);
      RunKeepsClaims(c, Next(c, s, steps[0]), steps[1..], k, d);
    }
  }

  /** In every run, any number of sweeps and handlers interleaved: a sweep publishes only in answer to its own claim,
      each claim once, and between two claims of a delivery some step wrote IN_FLIGHT. */
  lemma SweepsClaimBeforePublishing(c: Config, steps: seq<Step>, k: SweeperId, d: DeliveryId)
    requires ValidRun(c, Init(), steps)
    ensures PublishesFollowClaims(End(c, Init(), steps).log, k, d)
    ensures ClaimsAlternate(End(c, Init(), steps).log, d)
  {
    RunKeepsClaims(c, Init(), steps, k, d);
  }

  /** Parallel sweeps over a stuck row nobody touches publish at most one message: two publishes, by whichever sweeps,
      have an IN_FLIGHT write between their claims. */
  lemma SecondPublishNeedsAnInFlightWrite(c: Config, steps: seq<Step>, d: DeliveryId, a: nat, b: nat)
    requires ValidRun(c, Init(), steps)
    requires var log := End(c, Init(), steps).log;
             a < b < |log| && log[a].SweepPublished? && log[b].SweepPublished?
             && log[a].delivery == log[b].delivery == d
    ensures var log := End(c, Init(), steps).log;
            exists w :: 0 <= w < b && log[w] == Event.WroteInFlight(d)
                        && exists i, j :: Answers(log, i, a, log[a].sweeper, d) && Answers(log, j, b, log[b].sweeper, d)
                                          && (i < w < j || j < w < i)
  {
    var log := End(c, Init(), steps).log;
    SweepsClaimBeforePublishing(c, steps, log[a].sweeper, d);
    SweepsClaimBeforePublishing(c, steps, log[b].sweeper, d);
    var i :| Answers(log, i, a, log[a].sweeper, d);
    var j :| Answers(log, j, b, log[b].sweeper, d);
    if i == j {
      assert BySweep(log[a], log[b].sweeper);
      assert false;
    }
    assert ClaimOf(log[i], d) && ClaimOf(log[j], d);
    if i < j {
      var w :| i < w < j && log[w] == Event.WroteInFlight(d);
    } else {
      var w :| j < w < i && log[w] == Event.WroteInFlight(d);
    }
  }
  // What a sweep may claim at all.

  /** A sweep can select exactly the rows that are stuck: being sent, and due before its cutoff. */
  lemma SelectsExactlyTheStuck(c: Config, s: State, k: SweeperId, cutoff: int, ids: seq<DeliveryId>)
    requires k !in s.sweeps
    ensures Enabled(c, s, StartSweep(k, cutoff, ids)) <==>
            forall d :: d in ids ==> d in s.deliveries && StuckSince(s.deliveries[d], cutoff)
  {
    if Enabled(c, s, StartSweep(k, cutoff, ids)) {
      forall d | d in ids ensures d in s.deliveries && StuckSince(s.deliveries[d], cutoff) {
        var i :| 0 <= i < |ids| && ids[i] == d;
      }
    }
  }

  /** Sweep k has d nowhere on its list. */
  ghost predicate NotListed(s: State, k: SweeperId, d: DeliveryId) {
    k in s.sweeps ==> forall i :: 0 <= i < |s.sweeps[k].todo| ==> s.sweeps[k].todo[i].id != d
  }

  predicate Restarts(step: Step, k: SweeperId) {
    step.StartSweep? && step.k == k
  }

  /** Neither a claim nor a publish of d by sweep k is among the events. */
  ghost predicate LeftAlone(events: seq<Event>, k: SweeperId, d: DeliveryId) {
    Claimed(k, d) !in events && SweepPublished(k, d) !in events
  }

  lemma BookkeepingLeavesAlone(c: Config, s: State, step: Step, t: State, k: SweeperId, d: DeliveryId)
    requires Takes(c, s, step, t) && NotListed(s, k, d) && !Restarts(step, k) && Bookkeeping(step)
    ensures NotListed(t, k, d) && LeftAlone(Logs(s, t), k, d)
  {
  }

  lemma SweepStepLeavesAlone(c: Config, s: State, step: Step, t: State, k: SweeperId, d: DeliveryId)
    requires Takes(c, s, step, t) && NotListed(s, k, d)
    requires step.Claim? || step.Release? || step.SweepPublish?
    ensures NotListed(t, k, d) && LeftAlone(Logs(s, t), k, d)
  {
  }

  lemma OtherStepLeavesAlone(c: Config, s: State, step: Step, t: State, k: SweeperId, d: DeliveryId)
    requires Takes(c, s, step, t)
    requires ByApi(step) || Moving(step) || Leaving(step) || step.Skip? || step.WriteInFlight? || Settling(step)
             || step.PublishThrottle? || step.PublishRetry? || step.LoseChannel?
    ensures t.sweeps == s.sweeps && LeftAlone(Logs(s, t), k, d)
  {
  }

  lemma StepLeavesAlone(c: Config, s: State, step: Step, t: State, k: SweeperId, d: DeliveryId)
    requires Takes(c, s, step, t) && NotListed(s, k, d) && !Restarts(step, k)
    ensures NotListed(t, k, d) && LeftAlone(Logs(s, t), k, d)
  {
    if Bookkeeping(step) { BookkeepingLeavesAlone(c, s, step, t, k, d); }
    else if step.Claim? || step.Release? || step.SweepPublish? { SweepStepLeavesAlone(c, s, step, t, k, d); }
    else { OtherStepLeavesAlone(c, s, step, t, k, d); }
  }

  lemma LogGoesOn(s: State, t: State, end: State)
    requires t.log == s.log + Logs(s, t) && t.log <= end.log
    ensures s.log <= end.log && end.log[|s.log|..] == Logs(s, t) + end.log[|t.log|..]
  {
  }

  lemma {:induction false} NotListedIsLeftAlone(c: Config, s: State, steps: seq<Step>, k: SweeperId, d: DeliveryId)
    requires ValidRun(c, s, steps) && NotListed(s, k, d) && forall step :: step in steps ==> !Restarts(step, k)
    ensures s.log <= End(c, s, steps).log && LeftAlone(End(c, s, steps).log[|s.log|..], k, d)
    decreases |steps|
  {
    if steps != [] {
      var t := Next(c, s, steps[0]);
      StepEffect(c, s, steps[0], t, k, d);
      StepLeavesAlone(c, s, steps[0], t, k, d);
      NotListedIsLeftAlone(c, t, steps[1..], k, d);
      LogGoesOn(s, t, End(c, s, steps));
    }
  }

  /** Whatever else runs, a sweep neither claims nor publishes a delivery that was not stuck when it started: one not
      being sent, or due no earlier than its cutoff. */
  lemma SweepsLeaveTheUndueAlone(c: Config, s: State, k: SweeperId, cutoff: int, ids: seq<DeliveryId>,
                                 steps: seq<Step>, d: DeliveryId)
    requires Enabled(c, s, StartSweep(k, cutoff, ids)) && d in s.deliveries && !StuckSince(s.deliveries[d], cutoff)
    requires ValidRun(c, Next(c, s, StartSweep(k, cutoff, ids)), steps)
    requires forall step :: step in steps ==> !Restarts(step, k)
    ensures var t := Next(c, s, StartSweep(k, cutoff, ids));
            t.log <= End(c, t, steps).log && LeftAlone(End(c, t, steps).log[|t.log|..], k, d)
  {
    SelectsExactlyTheStuck(c, s, k, cutoff, ids);
    NotListedIsLeftAlone(c, Next(c, s, StartSweep(k, cutoff, ids)), steps, k, d);
  }
}
