/** No delivery is lost: once its first message is published, a delivery that is not finished has a message on its
    way, or is IN_FLIGHT and so within reach of the sweeper, or is held by a sweep that will publish or release it.

    The proof follows the last writer of the status: a carrying message is one whose handler will not acknowledge it
    before it has written IN_FLIGHT or a terminal status, or published a successor. */
module NoLoss {
  import opened Wrappers
  import opened RetryLadder
  import opened DeliveryModel

  predicate Carrying(p: Phase) {
    p.Ready? || p.Delayed? || p.Parked? || p.Fetched? || p.Loaded? || p.Denied? || p.Permitted? || p.RetryCommitted?
  }

  ghost predicate CarriedBy(s: State, d: DeliveryId, m: MessageId) {
    m in s.messages && m !in s.detached && s.messages[m].deliveryId == d && Carrying(s.messages[m].phase)
  }

  /** Claimed, and neither published nor released yet. */
  ghost predicate SweptBy(s: State, d: DeliveryId, k: SweeperId) {
    k in s.sweeps && s.sweeps[k].todo != [] && s.sweeps[k].todo[0].id == d && !s.sweeps[k].stage.Claiming?
  }

  ghost predicate Safe(s: State, d: DeliveryId) {
    d in s.deliveries ==>
      || Terminal(s.deliveries[d].status)
      || s.deliveries[d].status.InFlight?
      || (exists m :: CarriedBy(s, d, m))
      || (exists k :: SweptBy(s, d, k))
  }

  ghost predicate NothingLost(s: State) {
    forall d :: d in s.queued ==> Safe(s, d)
  }

  /** What a sweep holds was IN_FLIGHT once, and nothing writes PENDING again. */
  ghost predicate HeldNotPending(s: State) {
    forall k, d :: SweptBy(s, d, k) ==> d in s.deliveries && !s.deliveries[d].status.Pending?
  }

  /** The faults the code recovers from. It does not recover when a redelivered message's handler throws before the
      IN_FLIGHT write or between a retry's commit and its publish, when a handler that outlived its channel commits a
      retry it cannot publish, nor when a sweep dies holding a claim. */
  predicate Tolerated(c: Config, s: State, step: Step) {
    match step
    case Throw(m) =>
      m in s.messages && m !in s.detached ==> !(s.messages[m].redelivered && Carrying(s.messages[m].phase))
    case Commit(m, r, _) =>
      m in s.messages && m in s.detached ==> IsSuccess(r) || LevelAfter(c, r, s.messages[m].attempt).None?
    case SweeperCrash(k) => k in s.sweeps ==> s.sweeps[k].stage.Claiming? || s.sweeps[k].todo == []
    case _ => true
  }

  /** A cover the step does not touch is still there. */
  lemma OtherCoversStay(s: State, t: State, d: DeliveryId, m: MessageId)
    requires CarriedBy(s, d, m) && m in t.messages && t.messages[m] == s.messages[m] && m !in t.detached
    ensures CarriedBy(t, d, m)
  {
  }

  lemma SafeByApi(c: Config, s: State, step: Step, t: State, d: DeliveryId)
    requires WellFormed(s) && Takes(c, s, step, t) && ByApi(step) && (d in s.queued ==> Safe(s, d))
    ensures d in t.queued ==> Safe(t, d)
  {
    if step.PublishFirst? && step.d == d {
      assert CarriedBy(t, d, s.nextMessage);
    } else if d in s.queued {
      if m :| CarriedBy(s, d, m) { assert CarriedBy(t, d, m); }
      if k :| SweptBy(s, d, k) { assert SweptBy(t, d, k); }
    }
  }

  lemma SafeMoving(c: Config, s: State, step: Step, t: State, d: DeliveryId)
    requires WellFormed(s) && Takes(c, s, step, t) && Moving(step) && Safe(s, d)
    ensures Safe(t, d)
  {
    assert t.deliveries == s.deliveries && t.sweeps == s.sweeps;
    if m :| CarriedBy(s, d, m) {
      if !Terminal(s.deliveries[d].status) { assert CarriedBy(t, d, m); }
    }
    if k :| SweptBy(s, d, k) { assert SweptBy(t, d, k); }
  }

  lemma SafeLeaving(c: Config, s: State, step: Step, t: State, d: DeliveryId)
    requires WellFormed(s) && Takes(c, s, step, t) && Leaving(step) && !Failing(step) && Safe(s, d)
    ensures Safe(t, d)
  {
    assert t.deliveries == s.deliveries && t.sweeps == s.sweeps && t.detached == s.detached;
    if m :| CarriedBy(s, d, m) { assert CarriedBy(t, d, m); }
    if k :| SweptBy(s, d, k) { assert SweptBy(t, d, k); }
  }

  predicate Failing(step: Step) {
    step.Throw? || step.Crash?
  }

  lemma SafeFailing(c: Config, s: State, step: Step, t: State, d: DeliveryId)
    requires WellFormed(s) && Takes(c, s, step, t) && Failing(step) && Tolerated(c, s, step) && Safe(s, d)
    ensures Safe(t, d)
  {
    assert t.deliveries == s.deliveries && t.sweeps == s.sweeps && t.detached == s.detached;
    if m :| CarriedBy(s, d, m) { assert CarriedBy(t, d, m); }
    if k :| SweptBy(s, d, k) { assert SweptBy(t, d, k); }
  }

  lemma SafeWriting(c: Config, s: State, step: Step, t: State, d: DeliveryId)
    requires WellFormed(s) && Takes(c, s, step, t) && (step.Skip? || step.WriteInFlight?) && Safe(s, d)
    ensures Safe(t, d)
  {
    assert t.sweeps == s.sweeps;
    if m :| CarriedBy(s, d, m) {
      if m != step.m { OtherCoversStay(s, t, d, m); }
    }
    if k :| SweptBy(s, d, k) { assert SweptBy(t, d, k); }
  }

  lemma SafeClaim(s: State, k: SweeperId, d: DeliveryId)
    requires AtStage(s, k, Claiming) && s.sweeps[k].todo[0].id in s.deliveries && Safe(s, d)
    ensures Safe(ClaimFirst(s, k), d)
  {
    var t := ClaimFirst(s, k);
    if s.sweeps[k].todo[0].id == d && s.deliveries[d].status.InFlight? {
      assert SweptBy(t, d, k);
    } else {
      if m :| CarriedBy(s, d, m) { assert CarriedBy(t, d, m); }
      if o :| SweptBy(s, d, o) { assert o != k && SweptBy(t, d, o); }
    }
  }

  lemma SafePutBack(s: State, k: SweeperId, d: DeliveryId)
    requires AtStage(s, k, Releasing) && s.sweeps[k].todo[0].id in s.deliveries && HeldNotPending(s) && Safe(s, d)
    ensures Safe(PutBackFirst(s, k), d)
  {
    var t := PutBackFirst(s, k);
    assert SweptBy(s, s.sweeps[k].todo[0].id, k);
    if m :| CarriedBy(s, d, m) { assert CarriedBy(t, d, m); }
    if o :| SweptBy(s, d, o) { assert o != k ==> SweptBy(t, d, o); }
  }

  lemma SafeClaiming(c: Config, s: State, step: Step, t: State, d: DeliveryId)
    requires WellFormed(s) && HeldNotPending(s) && Takes(c, s, step, t) && (step.Claim? || step.Release?) && Safe(s, d)
    ensures Safe(t, d)
  {
    if step.Claim? { SafeClaim(s, step.k, d); } else { SafePutBack(s, step.k, d); }
  }

  /** The handler of m publishes a message for its own delivery and is done. */
  lemma SafeSuccessor(s: State, m: MessageId, attempt: nat, p: Phase, d: DeliveryId)
    requires m in s.messages && m != s.nextMessage && Carrying(p) && Safe(s, d) && WellFormed(s)
    ensures Safe(Goto(Send(s, s.messages[m].deliveryId, attempt, p), m, Finished), d)
  {
    var t := Goto(Send(s, s.messages[m].deliveryId, attempt, p), m, Finished);
    if s.messages[m].deliveryId == d {
      assert CarriedBy(t, d, s.nextMessage);
    } else {
      if o :| CarriedBy(s, d, o) { assert CarriedBy(t, d, o); }
      if k :| SweptBy(s, d, k) { assert SweptBy(t, d, k); }
    }
  }

  lemma SafeRedelivered(s: State, m: MessageId, d: DeliveryId)
    requires m in s.messages && m != s.nextMessage && Safe(s, d) && WellFormed(s)
    ensures Safe(Redeliver(s, m), d)
  {
    var t := Redeliver(s, m);
    if s.messages[m].deliveryId == d {
      assert CarriedBy(t, d, s.nextMessage);
    } else {
      if o :| CarriedBy(s, d, o) { assert CarriedBy(t, d, o); }
      if k :| SweptBy(s, d, k) { assert SweptBy(t, d, k); }
    }
  }

  lemma SafeSwept(s: State, t: State, k: SweeperId, attempt: nat, d: DeliveryId)
    requires k in s.sweeps && s.sweeps[k].todo != [] && Safe(s, d) && WellFormed(s)
    requires t == NextStuck(Send(s, s.sweeps[k].todo[0].id, attempt, Ready), k).(log := t.log)
    ensures Safe(t, d)
  {
    if s.sweeps[k].todo[0].id == d {
      assert CarriedBy(t, d, s.nextMessage);
    } else {
      if o :| CarriedBy(s, d, o) { assert CarriedBy(t, d, o); }
      if o :| SweptBy(s, d, o) { assert SweptBy(t, d, o); }
    }
  }

  lemma SafeForwarding(c: Config, s: State, step: Step, t: State, d: DeliveryId)
    requires WellFormed(s) && Takes(c, s, step, t) && Forwarding(step) && Safe(s, d)
    ensures Safe(t, d)
  {
    if step.PublishThrottle? || step.PublishRetry? {
      SafePublishing(c, s, step, t, d);
    } else if step.SweepPublish? {
      SafeSwept(s, t, step.k, s.sweeps[step.k].todo[0].attemptCount + 1, d);
    } else {
      SafeRedelivered(s, step.m, d);
    }
  }

  lemma SafePublishing(c: Config, s: State, step: Step, t: State, d: DeliveryId)
    requires WellFormed(s) && Takes(c, s, step, t) && (step.PublishThrottle? || step.PublishRetry?) && Safe(s, d)
    ensures Safe(t, d)
  {
    var msg := s.messages[step.m];
    if step.PublishThrottle? { SafeSuccessor(s, step.m, msg.attempt, Parked, d); }
    else { SafeSuccessor(s, step.m, msg.attempt + 1, Delayed(msg.phase.next), d); }
  }

  lemma SafeSettling(c: Config, s: State, step: Step, t: State, d: DeliveryId)
    requires WellFormed(s) && Takes(c, s, step, t) && Settling(step) && Tolerated(c, s, step) && Safe(s, d)
    ensures Safe(t, d)
  {
    if step.Commit? { SafeCommit(c, s, step, t, d); } else { SafeElsewhere(s, t, d, step.m); }
  }

  lemma SafeCommit(c: Config, s: State, step: Step, t: State, d: DeliveryId)
    requires WellFormed(s) && Takes(c, s, step, t) && step.Commit? && Tolerated(c, s, step) && Safe(s, d)
    ensures Safe(t, d)
  {
    CommitShape(c, s, step.m, step.result, step.at);
    if s.messages[step.m].deliveryId == d {
      if t.deliveries[d].status.Retrying? { assert CarriedBy(t, d, step.m); }
    } else {
      SafeElsewhere(s, t, d, step.m);
    }
  }

  /** A message that carries nothing moves on; d's row stays. */
  lemma SafeElsewhere(s: State, t: State, d: DeliveryId, m: MessageId)
    requires Safe(s, d) && m in s.messages && m in t.messages && !Carrying(s.messages[m].phase)
    requires t.messages == s.messages[m := t.messages[m]] && t.detached == s.detached && t.sweeps == s.sweeps
    requires d in t.deliveries ==> d in s.deliveries && t.deliveries[d] == s.deliveries[d]
    ensures Safe(t, d)
  {
    if o :| CarriedBy(s, d, o) { assert CarriedBy(t, d, o); }
    if k :| SweptBy(s, d, k) { assert SweptBy(t, d, k); }
  }

  lemma SafeBookkeeping(c: Config, s: State, step: Step, t: State, d: DeliveryId)
    requires WellFormed(s) && Takes(c, s, step, t) && Bookkeeping(step) && Tolerated(c, s, step) && Safe(s, d)
    ensures Safe(t, d)
  {
    SafeBesides(s, t, step.k, d);
  }

  /** One sweep that holds no claim on d, or still holds the one it held, changes. */
  lemma SafeBesides(s: State, t: State, k: SweeperId, d: DeliveryId)
    requires Safe(s, d) && t.deliveries == s.deliveries && t.messages == s.messages && t.detached == s.detached
    requires t.sweeps - {k} == s.sweeps - {k} && (SweptBy(s, d, k) ==> SweptBy(t, d, k))
    ensures Safe(t, d)
  {
    if m :| CarriedBy(s, d, m) { assert CarriedBy(t, d, m); }
    if o :| SweptBy(s, d, o) {
      assert o != k ==> o in s.sweeps - {k} && (t.sweeps - {k})[o] == s.sweeps[o];
      assert SweptBy(t, d, o);
    }
  }

  lemma StatusesLeavePending(c: Config, s: State, step: Step, t: State, d: DeliveryId)
    requires Takes(c, s, step, t) && d in s.deliveries && !s.deliveries[d].status.Pending?
    ensures d in t.deliveries && !t.deliveries[d].status.Pending?
  {
    if !step.CreateDelivery? && !Writing(step) && !step.Commit? { OtherStepsLeaveTables(c, s, step, t); }
  }

  lemma StepKeepsHeldNotPending(c: Config, s: State, step: Step, t: State)
    requires HeldNotPending(s) && Takes(c, s, step, t)
    ensures HeldNotPending(t)
  {
    forall k, d | SweptBy(t, d, k) ensures d in t.deliveries && !t.deliveries[d].status.Pending? {
      if SweptBy(s, d, k) {
        StatusesLeavePending(c, s, step, t, d);
      } else {
        assert step.Claim?;
      }
    }
  }

  lemma StepKeepsSafe(c: Config, s: State, step: Step, t: State, d: DeliveryId)
    requires WellFormed(s) && HeldNotPending(s) && Takes(c, s, step, t) && Tolerated(c, s, step)
    requires (d in s.queued ==> Safe(s, d)) && d in t.queued
    ensures Safe(t, d)
  {
    if ByApi(step) { SafeByApi(c, s, step, t, d); }
    else if d in s.queued { OtherStepKeepsSafe(c, s, step, t, d); }
  }

  lemma OtherStepKeepsSafe(c: Config, s: State, step: Step, t: State, d: DeliveryId)
    requires WellFormed(s) && HeldNotPending(s) && Takes(c, s, step, t) && Tolerated(c, s, step) && !ByApi(step)
    requires Safe(s, d)
    ensures Safe(t, d)
  {
    if Moving(step) { SafeMoving(c, s, step, t, d); }
    else if Failing(step) { SafeFailing(c, s, step, t, d); }
    else if Leaving(step) { SafeLeaving(c, s, step, t, d); }
    else if step.Claim? || step.Release? { SafeClaiming(c, s, step, t, d); }
    else if Writing(step) { SafeWriting(c, s, step, t, d); }
    else if Forwarding(step) { SafeForwarding(c, s, step, t, d); }
    else if Settling(step) { SafeSettling(c, s, step, t, d); }
    else { SafeBookkeeping(c, s, step, t, d); }
  }

  lemma StepLosesNothing(c: Config, s: State, step: Step, t: State)
    requires WellFormed(s) && HeldNotPending(s) && NothingLost(s) && Takes(c, s, step, t) && Tolerated(c, s, step)
    ensures NothingLost(t)
  {
    forall d | d in t.queued ensures Safe(t, d) { StepKeepsSafe(c, s, step, t, d); }
  }

  // Exactly when a step loses a delivery.

  /** PENDING or RETRYING: a row the sweeper's filter does not select and no handler has finished. */
  predicate OutOfReach(status: Status) {
    status.Pending? || status.Retrying?
  }

  /** The handler has written IN_FLIGHT and has no retry left to publish, so nobody waits for this message. */
  predicate PastItsWrite(p: Phase) {
    p.Sending? || p.FailureCommitted? || p.DisableTried? || p.DeadLettered? || p.Finished?
  }

  /** Every message of d but m is past its write, or its handler can publish nothing any more. */
  ghost predicate NoOtherMessage(s: State, d: DeliveryId, m: MessageId) {
    forall o :: o != m && o in s.messages && s.messages[o].deliveryId == d && o !in s.detached ==>
      PastItsWrite(s.messages[o].phase)
  }

  /** No sweep but k has claimed d and neither published nor released it. */
  ghost predicate NoOtherClaim(s: State, d: DeliveryId, k: SweeperId) {
    forall o :: o != k && o in s.sweeps && s.sweeps[o].todo != [] && s.sweeps[o].todo[0].id == d
                ==> s.sweeps[o].stage.Claiming?
  }

  lemma OthersCarry(s: State, t: State, d: DeliveryId, m: MessageId)
    requires forall o :: CarriedBy(t, d, o) <==> CarriedBy(s, d, o) && o != m
    ensures (exists o :: CarriedBy(t, d, o)) <==> !NoOtherMessage(s, d, m)
  {
    assert forall o :: CarriedBy(t, d, o) ==> CarriedBy(s, d, o) && !PastItsWrite(s.messages[o].phase);
    if !NoOtherMessage(s, d, m) {
      var o :| o != m && o in s.messages && s.messages[o].deliveryId == d && o !in s.detached
               && !PastItsWrite(s.messages[o].phase);
      assert CarriedBy(t, d, o);
    }
  }

  /** Dropping a redelivered message too early loses its delivery exactly when the row is PENDING or RETRYING, no other
      message of it is still before its write and no sweep is between claim and publish. */
  lemma DropLosesExactly(c: Config, s: State, m: MessageId)
    requires WellFormed(s) && NothingLost(s) && Enabled(c, s, Throw(m)) && !Tolerated(c, s, Throw(m))
    ensures var d := s.messages[m].deliveryId;
            NothingLost(Next(c, s, Throw(m))) <==>
            !(d in s.deliveries && OutOfReach(s.deliveries[d].status) && NoOtherMessage(s, d, m)
              && forall k :: !SweptBy(s, d, k))
  {
    var t := Next(c, s, Throw(m));
    var gone := s.messages[m].deliveryId;
    assert t.deliveries == s.deliveries && t.sweeps == s.sweeps && t.queued == s.queued;
    forall d, k ensures SweptBy(t, d, k) <==> SweptBy(s, d, k) {}
    forall d, o ensures CarriedBy(t, d, o) <==> CarriedBy(s, d, o) && o != m {}
    OthersCarry(s, t, gone, m);
    forall d | d in s.queued && d != gone ensures Safe(t, d) {
      assert Safe(s, d);
      if o :| CarriedBy(s, d, o) { assert CarriedBy(t, d, o); }
      if k :| SweptBy(s, d, k) { assert SweptBy(t, d, k); }
    }
    assert gone in s.queued;
  }

  /** A sweep that dies holding a claim loses the delivery exactly when the row is PENDING or RETRYING, no message of it
      is still before its write and no other sweep is between claim and publish. */
  lemma SweepDeathLosesExactly(c: Config, s: State, k: SweeperId)
    requires WellFormed(s) && NothingLost(s)
    requires Enabled(c, s, SweeperCrash(k)) && !Tolerated(c, s, SweeperCrash(k))
    ensures var d := s.sweeps[k].todo[0].id;
            NothingLost(Next(c, s, SweeperCrash(k))) <==>
            !(d in s.deliveries && OutOfReach(s.deliveries[d].status) && (forall m :: !CarriedBy(s, d, m))
              && NoOtherClaim(s, d, k))
  {
    var t := Next(c, s, SweeperCrash(k));
    var gone := s.sweeps[k].todo[0].id;
    assert gone in s.queued && SweptBy(s, gone, k);
    forall d, m ensures CarriedBy(t, d, m) <==> CarriedBy(s, d, m) {}
    forall d, o ensures SweptBy(t, d, o) <==> SweptBy(s, d, o) && o != k {}
    assert (exists o :: SweptBy(t, gone, o)) <==> !NoOtherClaim(s, gone, k) by {
      if !NoOtherClaim(s, gone, k) {
        var o :| o != k && o in s.sweeps && s.sweeps[o].todo != [] && s.sweeps[o].todo[0].id == gone
                 && !s.sweeps[o].stage.Claiming?;
        assert SweptBy(t, gone, o);
      }
    }
    forall d | d in s.queued && d != gone ensures Safe(t, d) {
      assert Safe(s, d);
      if m :| CarriedBy(s, d, m) { assert CarriedBy(t, d, m); }
      if o :| SweptBy(s, d, o) { assert SweptBy(t, d, o); }
    }
  }

  /** A handler that outlived its channel and commits a retry, which it cannot publish, loses the delivery exactly when
      no other message of it is still before its write and no sweep is between claim and publish. */
  lemma LateRetryLosesExactly(c: Config, s: State, m: MessageId, r: Result, at: int)
    requires WellFormed(s) && NothingLost(s) && Enabled(c, s, Commit(m, r, at)) && !Tolerated(c, s, Commit(m, r, at))
    ensures var d := s.messages[m].deliveryId;
            NothingLost(Next(c, s, Commit(m, r, at))) <==> !(NoOtherMessage(s, d, m) && forall k :: !SweptBy(s, d, k))
  {
    var t := Next(c, s, Commit(m, r, at));
    var gone := s.messages[m].deliveryId;
    assert t.sweeps == s.sweeps && t.queued == s.queued && gone in s.queued && t.deliveries[gone].status.Retrying?;
    forall d, k ensures SweptBy(t, d, k) <==> SweptBy(s, d, k) {}
    forall d, o ensures CarriedBy(t, d, o) <==> CarriedBy(s, d, o) && o != m {}
    OthersCarry(s, t, gone, m);
    forall d | d in s.queued && d != gone ensures Safe(t, d) {
      assert Safe(s, d);
      if o :| CarriedBy(s, d, o) { assert CarriedBy(t, d, o); }
      if k :| SweptBy(s, d, k) { assert SweptBy(t, d, k); }
    }
  }

  // Whole runs.

  ghost predicate ToleratedRun(c: Config, s: State, steps: seq<Step>)
    requires ValidRun(c, s, steps)
    decreases |steps|
  {
    steps == [] || (Tolerated(c, s, steps[0]) && ToleratedRun(c, Next(c, s, steps[0]), steps[1..]))
  }

  lemma {:induction false} RunLosesNothing(c: Config, s: State, steps: seq<Step>)
    requires WellFormed(s) && HeldNotPending(s) && NothingLost(s) && ValidRun(c, s, steps) && ToleratedRun(c, s, steps)
    ensures NothingLost(End(c, s, steps)) && HeldNotPending(End(c, s, steps)) && WellFormed(End(c, s, steps))
    decreases |steps|
  {
    if steps != [] {
      StepKeepsWellFormed(c, s, steps[0], Next(c, s, steps[0]));
      StepKeepsHeldNotPending(c, s, steps[0], Next(c, s, steps[0]));
      StepLosesNothing(c, s, steps[0], Next(c, s, steps[0]));
      RunLosesNothing(c, Next(c, s, steps[0]), steps[1..]);
    }
  }

  function Due(d: Delivery): int {
    if d.nextAttemptAt.Some? then d.nextAttemptAt.value else d.createdAt
  }

  /** Every sweep whose cutoff has passed the row's due time selects it. */
  ghost predicate Sweepable(d: Delivery) {
    forall cutoff: int :: cutoff > Due(d) ==> StuckFilter(d, cutoff)
  }

  /** In every run with tolerated faults only, any number of handlers and sweeps interleaved: a delivery once queued
      and not finished has a message queued or unacknowledged, or is IN_FLIGHT and sweepable, or is held by a sweep
      about to publish or release it. */
  lemma NoDeliveryIsLost(c: Config, steps: seq<Step>, d: DeliveryId)
    requires ValidRun(c, Init(), steps) && ToleratedRun(c, Init(), steps)
    requires d in End(c, Init(), steps).queued && d in End(c, Init(), steps).deliveries
    requires !Terminal(End(c, Init(), steps).deliveries[d].status)
    ensures var s := End(c, Init(), steps);
            || (exists m :: CarriedBy(s, d, m))
            || Sweepable(s.deliveries[d])
            || (exists k :: SweptBy(s, d, k))
  {
    RunLosesNothing(c, Init(), steps);
    assert Safe(End(c, Init(), steps), d);
  }

  /** A handler that throws twice before the IN_FLIGHT write leaves the row PENDING, out of the sweeper's reach and
      with no message: the architecture document says such a row is left IN_FLIGHT. */
  lemma ThrowingTwiceEarlyLosesADelivery(c: Config)
    ensures exists steps ::
              && ValidRun(c, Init(), steps)
              && var s := End(c, Init(), steps);
              && 0 in s.queued && 0 in s.deliveries && s.deliveries[0].status.Pending?
              && s.messages == map[] && s.sweeps == map[]
  {
    FirstPublish(c);
    var requeued := FIRST_PUBLISHED.(messages := map[0 := Message(0, 1, true, Ready)]);
    FetchAndThrow(c, FIRST_PUBLISHED, requeued);
    FetchAndThrow(c, requeued, requeued.(messages := map[]));
    RunsCompose(c, Init(), FIRST_PUBLISH, [Consume(0), Throw(0)]);
    RunsCompose(c, Init(), FIRST_PUBLISH + [Consume(0), Throw(0)], [Consume(0), Throw(0)]);
    assert ValidRun(c, Init(), (FIRST_PUBLISH + [Consume(0), Throw(0)]) + [Consume(0), Throw(0)]);
  }

  lemma FetchAndThrow(c: Config, s: State, t: State)
    requires At(s, 0, Ready) && 0 !in s.detached
    requires t == s.(messages := if s.messages[0].redelivered then s.messages - {0}
                                 else s.messages[0 := s.messages[0].(redelivered := true)])
    ensures ValidRun(c, s, [Consume(0), Throw(0)]) && End(c, s, [Consume(0), Throw(0)]) == t
  {
    OneStep(c, Next(c, s, Consume(0)), Throw(0));
    assert Next(c, Next(c, s, Consume(0)), Throw(0)).messages == t.messages;
    assert [Consume(0), Throw(0)][1..] == [Throw(0)];
  }
}
