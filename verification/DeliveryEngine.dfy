/** The worker and the sweeper as programs over the shared tables and queues. An uninterrupted call is a run of the
    step machine made of the caller's own steps, so every theorem about runs applies to it. */
module DeliveryEngine {
  import opened Wrappers
  import opened RetryLadder
  import opened DeliveryModel

  datatype Outcome =
    | UnknownDelivery
    | AlreadyFinalised
    | EndpointDisabled
    | Throttled
    | DeliverySucceeded
    | WillRetry(level: Level)
    | DeliveryFailed

  /** t is where the run `steps` from s ends. */
  ghost predicate Ran(c: Config, s: State, steps: seq<Step>, t: State) {
    ValidRun(c, s, steps) && End(c, s, steps) == t
  }

  lemma RanOne(c: Config, s: State, step: Step)
    requires Enabled(c, s, step)
    ensures Ran(c, s, [step], Next(c, s, step))
  {
    OneStep(c, s, step);
  }

  lemma RanOn(c: Config, s: State, first: seq<Step>, t: State, rest: seq<Step>, u: State)
    requires Ran(c, s, first, t) && Ran(c, t, rest, u)
    ensures Ran(c, s, first + rest, u)
  {
    RunsCompose(c, s, first, rest);
  }

  /** A failure commit on this state fills the counter of an endpoint still active. */
  predicate WillFlip(c: Config, s: State, m: MessageId)
    requires m in s.messages && s.messages[m].deliveryId in s.deliveries
    requires s.deliveries[s.messages[m].deliveryId].endpointId in s.endpoints
  {
    var e := s.endpoints[s.deliveries[s.messages[m].deliveryId].endpointId];
    e.active && e.consecutiveFailures + 1 >= c.threshold
  }

  predicate Full(c: Config, s: State, m: MessageId)
    requires m in s.messages && s.messages[m].deliveryId in s.deliveries
    requires s.deliveries[s.messages[m].deliveryId].endpointId in s.endpoints
  {
    var e := s.endpoints[s.deliveries[s.messages[m].deliveryId].endpointId];
    e.active && e.consecutiveFailures >= c.threshold
  }

  function DeadLetterSteps(m: MessageId, disabled: bool): seq<Step> {
    if disabled then [PublishDeadLetter(m)] + [AnnounceDisable(m)] else [PublishDeadLetter(m)]
  }

  function BuryingSteps(m: MessageId, flips: bool): seq<Step> {
    [TryDisable(m)] + DeadLetterSteps(m, flips)
  }

  function FailureSteps(m: MessageId, r: Result, at: int, flips: bool): seq<Step> {
    [Commit(m, r, at)] + BuryingSteps(m, flips)
  }

  ghost predicate Known(s: State, m: MessageId) {
    && m in s.messages && m < s.nextMessage && m !in s.detached
    && s.messages[m].deliveryId in s.deliveries
    && s.deliveries[s.messages[m].deliveryId].endpointId in s.endpoints
  }

  /** The channel is there. The delivery row may be gone; if it is there, so is its endpoint's. */
  ghost predicate Fetchable(s: State, m: MessageId) {
    m in s.messages && m !in s.detached && (s.messages[m].deliveryId in s.deliveries ==> Known(s, m))
  }

  /** The outcome's transaction and all it entails. */
  ghost function AttemptSteps(c: Config, s: State, m: MessageId, r: Result, at: int): seq<Step>
    requires Known(s, m)
  {
    if IsSuccess(r) then [Commit(m, r, at)]
    else if LevelAfter(c, r, s.messages[m].attempt).Some? then [Commit(m, r, at)] + [PublishRetry(m)]
    else FailureSteps(m, r, at, WillFlip(c, s, m))
  }

  ghost function TokenSteps(c: Config, s: State, m: MessageId, allowed: bool, r: Result, at: int): seq<Step>
    requires Known(s, m)
  {
    if !allowed then [TakeToken(m, false)] + ([PublishThrottle(m)] + [Ack(m)])
    else [TakeToken(m, true)] + ([Step.WriteInFlight(m)] + (AttemptSteps(c, s, m, r, at) + [Ack(m)]))
  }

  /** All steps of one handling, from the row's read to the acknowledgement. */
  ghost function HandlingSteps(c: Config, s: State, m: MessageId, allowed: bool, r: Result, at: int): seq<Step>
    requires Fetchable(s, m)
  {
    var d := s.messages[m].deliveryId;
    if d !in s.deliveries || Terminal(s.deliveries[d].status) then [LoadRow(m)] + [Ack(m)]
    else if !s.endpoints[s.deliveries[d].endpointId].active then [LoadRow(m)] + ([Skip(m)] + [Ack(m)])
    else [LoadRow(m)] + TokenSteps(c, s, m, allowed, r, at)
  }

  /** Apart from the attempt rows and the log, nothing differs but one delivery, one endpoint and one message. */
  ghost predicate OnlyTheirs(s: State, t: State, d: DeliveryId, e: EndpointId, m: MessageId) {
    && t.deliveries - {d} == s.deliveries - {d}
    && t.endpoints - {e} == s.endpoints - {e}
    && t.messages - {m} == s.messages - {m}
    && t.unpublished == s.unpublished && t.queued == s.queued && t.nextMessage == s.nextMessage
    && t.detached == s.detached && t.deadLetters == s.deadLetters && t.sweeps == s.sweeps
  }

  /** An attempt of m's handler and its outcome leave s as t, m's own entry aside: the attempt's row; the delivery's
      row; its endpoint's counter; the next attempt, waiting in its level's queue; or the dead letter. Nothing else. */
  ghost predicate AttemptLeaves(c: Config, s: State, t: State, m: MessageId, r: Result, at: int, outcome: Outcome)
    requires Known(s, m)
  {
    var id, attempt := s.messages[m].deliveryId, s.messages[m].attempt;
    var row, e := s.deliveries[id], s.deliveries[id].endpointId;
    var failures, active := s.endpoints[e].consecutiveFailures, s.endpoints[e].active;
    && t.rows == s.rows + [AttemptRow(id, attempt, r)]
    && t.queued == s.queued && t.unpublished == s.unpublished && t.sweeps == s.sweeps && t.detached == s.detached
    && match outcome
       case DeliverySucceeded =>
         && t.deliveries == s.deliveries[id := Delivery(e, Succeeded, attempt, row.createdAt, None)]
         && t.endpoints == s.endpoints[e := Endpoint(active, 0)]
         && t.messages - {m} == s.messages - {m} && t.nextMessage == s.nextMessage && t.deadLetters == s.deadLetters
       case WillRetry(level) =>
         && t.deliveries == s.deliveries[id := Delivery(e, Retrying, attempt, row.createdAt, Some(at + level.delayMs))]
         && t.endpoints == s.endpoints
         && t.messages - {m} == (s.messages - {m})[s.nextMessage := Message(id, attempt + 1, false, Delayed(level))]
         && t.nextMessage == s.nextMessage + 1 && t.deadLetters == s.deadLetters
       case DeliveryFailed =>
         && t.deliveries == s.deliveries[id := Delivery(e, FailedPermanently, attempt, row.createdAt, None)]
         && t.endpoints == s.endpoints[e := Endpoint(active && failures + 1 < c.threshold, failures + 1)]
         && t.messages - {m} == s.messages - {m} && t.nextMessage == s.nextMessage
         && t.deadLetters == s.deadLetters + [(id, attempt)]
       case _ => false
  }

  /** The outcome an attempt's result calls for. */
  ghost predicate OutcomeFits(c: Config, attempt: nat, r: Result, outcome: Outcome) {
    var succeeded := r.Response? && 200 <= r.status <= 299;
    && (outcome.DeliverySucceeded? <==> succeeded)
    && (outcome.WillRetry? <==> !succeeded && WorthRetrying(r) && attempt < c.maxAttempts)
    && (outcome.DeliveryFailed? <==> !succeeded && !(WorthRetrying(r) && attempt < c.maxAttempts))
    && (outcome.WillRetry? && r.Response? ==> Promised(outcome.level, attempt, c.schedule, r.retryAfter))
    && (outcome.WillRetry? && !r.Response? ==> Promised(outcome.level, attempt, c.schedule, None))
  }

  /** Another phase of m, another status of its delivery and a longer log change nothing of what an attempt leaves. */
  lemma LeavesAlike(c: Config, s: State, u: State, t: State, m: MessageId, r: Result, at: int, outcome: Outcome)
    requires Known(s, m) && Known(u, m) && AttemptLeaves(c, u, t, m, r, at, outcome)
    requires u.messages == s.messages[m := s.messages[m].(phase := u.messages[m].phase)]
    requires var id := s.messages[m].deliveryId;
             u.deliveries == s.deliveries[id := s.deliveries[id].(status := u.deliveries[id].status)]
    requires u == s.(messages := u.messages, deliveries := u.deliveries, log := u.log)
    ensures AttemptLeaves(c, s, t, m, r, at, outcome)
  {
    assert u.messages - {m} == s.messages - {m};
  }

  lemma SuccessLeaves(c: Config, s: State, t: State, m: MessageId, r: Result, at: int)
    requires Known(s, m) && m in t.messages
    requires var id := s.messages[m].deliveryId; var e := s.deliveries[id].endpointId;
             && t.rows == s.rows + [AttemptRow(id, s.messages[m].attempt, r)]
             && id in t.deliveries && e in t.endpoints
             && t.deliveries[id] == Delivery(e, Succeeded, s.messages[m].attempt, s.deliveries[id].createdAt, None)
             && t.endpoints[e] == Endpoint(s.endpoints[e].active, 0) && OnlyTheirs(s, t, id, e, m)
    ensures AttemptLeaves(c, s, t, m, r, at, DeliverySucceeded)
  {
    var id := s.messages[m].deliveryId;
    OnlyOneDiffers(s.deliveries, t.deliveries, id);
    OnlyOneDiffers(s.endpoints, t.endpoints, s.deliveries[id].endpointId);
  }

  lemma OnlyOneDiffers<T>(before: map<nat, T>, after: map<nat, T>, k: nat)
    requires after - {k} == before - {k} && k in after
    ensures after == before[k := after[k]]
  {
    forall x | x != k ensures x in after <==> x in before
                      ensures x in before && x in after ==> after[x] == before[x]
    {
      assert x in after - {k} <==> x in after;
      assert x in before - {k} <==> x in before;
      assert x in after && x in before ==> (after - {k})[x] == (before - {k})[x];
    }
  }

  /** A retry's commit and publish. */
  lemma RetryLeaves(c: Config, s: State, t: State, m: MessageId, r: Result, at: int, level: Level)
    requires Known(s, m)
    requires var msg := s.messages[m]; var row := s.deliveries[msg.deliveryId];
             var waiting := Delivery(row.endpointId, Retrying, msg.attempt, row.createdAt, Some(at + level.delayMs));
             t == s.(rows := s.rows + [AttemptRow(msg.deliveryId, msg.attempt, r)],
                     deliveries := s.deliveries[msg.deliveryId := waiting],
                     messages := s.messages[m := msg.(phase := Finished)][
                       s.nextMessage := Message(msg.deliveryId, msg.attempt + 1, false, Delayed(level))],
                     nextMessage := s.nextMessage + 1)
    ensures AttemptLeaves(c, s, t, m, r, at, WillRetry(level))
  {
    var next := t.messages[s.nextMessage];
    assert t.messages - {m} == (s.messages - {m})[s.nextMessage := next];
  }

  /** A failure's commit, its disable if it is due, and the dead letter. */
  lemma FailureLeaves(c: Config, s: State, t: State, m: MessageId, r: Result, at: int)
    requires Known(s, m)
    requires var msg := s.messages[m]; var row := s.deliveries[msg.deliveryId]; var e := s.endpoints[row.endpointId];
             var failed := Delivery(row.endpointId, FailedPermanently, msg.attempt, row.createdAt, None);
             var counted := Endpoint(e.active && e.consecutiveFailures + 1 < c.threshold, e.consecutiveFailures + 1);
             t == s.(rows := s.rows + [AttemptRow(msg.deliveryId, msg.attempt, r)],
                     deliveries := s.deliveries[msg.deliveryId := failed],
                     endpoints := s.endpoints[row.endpointId := counted],
                     messages := s.messages[m := msg.(phase := Finished)],
                     deadLetters := s.deadLetters + [(msg.deliveryId, msg.attempt)], log := t.log)
    ensures AttemptLeaves(c, s, t, m, r, at, DeliveryFailed)
  {
    assert t.messages - {m} == s.messages - {m};
  }

  lemma OutcomeIsRight(c: Config, attempt: nat, r: Result, outcome: Outcome)
    requires ValidConfig(c) && attempt >= 1
    requires var level := LevelAfter(c, r, attempt);
             outcome == if IsSuccess(r) then DeliverySucceeded
                        else if level.Some? then WillRetry(level.value) else DeliveryFailed
    ensures OutcomeFits(c, attempt, r, outcome)
  {
    LevelIsPromised(c, r, attempt);
  }

  /** Taking m out of the messages is all that is left to do. */
  lemma LeavesWithoutM(c: Config, s: State, t: State, m: MessageId, r: Result, at: int, outcome: Outcome)
    requires Known(s, m) && AttemptLeaves(c, s, t, m, r, at, outcome)
    ensures AttemptLeaves(c, s, t.(messages := t.messages - {m}), m, r, at, outcome)
  {
    assert (t.messages - {m}) - {m} == t.messages - {m};
  }

  /** What a whole handling leaves: nothing for a missing or finished row, SKIPPED under a disabled endpoint, the
      message parked when there is no token, and otherwise what the attempt leaves. Its own message is gone. */
  ghost predicate HandlingLeaves(c: Config, s: State, t: State, m: MessageId, r: Result, at: int, outcome: Outcome)
    requires Fetchable(s, m)
  {
    var msg, others := s.messages[m], s.messages - {m};
    && m !in t.messages
    && match outcome
       case UnknownDelivery => t == s.(messages := others)
       case AlreadyFinalised => t == s.(messages := others)
       case EndpointDisabled =>
         && msg.deliveryId in s.deliveries
         && var skipped := s.deliveries[msg.deliveryId].(status := Skipped);
            t == s.(messages := others, deliveries := s.deliveries[msg.deliveryId := skipped])
       case Throttled =>
         t == s.(messages := others[s.nextMessage := Message(msg.deliveryId, msg.attempt, false, Parked)],
                 nextMessage := s.nextMessage + 1)
       case _ => Known(s, m) && AttemptLeaves(c, s, t, m, r, at, outcome)
  }

  lemma HandlingAlike(c: Config, s: State, u: State, t: State, m: MessageId, r: Result, at: int, outcome: Outcome)
    requires Known(s, m) && Known(u, m) && HandlingLeaves(c, u, t, m, r, at, outcome)
    requires u == s.(messages := s.messages[m := s.messages[m].(phase := u.messages[m].phase)])
    ensures HandlingLeaves(c, s, t, m, r, at, outcome)
  {
    assert u.messages - {m} == s.messages - {m};
    if !outcome.UnknownDelivery? && !outcome.AlreadyFinalised? && !outcome.EndpointDisabled? && !outcome.Throttled? {
      LeavesAlike(c, s, u, t, m, r, at, outcome);
    }
  }

  /** The outcome of a handling, by the rows it finds, the token bucket's answer and the attempt's result. */
  ghost predicate HandlingFits(c: Config, s: State, m: MessageId, allowed: bool, r: Result, outcome: Outcome)
    requires Fetchable(s, m)
  {
    var id := s.messages[m].deliveryId;
    if id !in s.deliveries then outcome.UnknownDelivery?
    else if s.deliveries[id].status in {Succeeded, FailedPermanently, Skipped} then outcome.AlreadyFinalised?
    else if !s.endpoints[s.deliveries[id].endpointId].active then outcome.EndpointDisabled?
    else if !allowed then outcome.Throttled?
    else OutcomeFits(c, s.messages[m].attempt, r, outcome)
  }

  function RecoverySteps(k: SweeperId, recovered: bool, threw: bool): seq<Step> {
    if recovered then [Claim(k)] + [SweepPublish(k)]
    else if threw then [Claim(k)] + ([SweepPublishFails(k)] + [Release(k)])
    else [Claim(k)]
  }

  /** Of the selected rows the first n are RETRYING, and none is anything but that or IN_FLIGHT. */
  ghost predicate RecoveredUpTo(s: State, ids: seq<DeliveryId>, n: nat) {
    forall j :: 0 <= j < |ids| ==>
      && ids[j] in s.deliveries
      && (s.deliveries[ids[j]].status.Retrying? || (s.deliveries[ids[j]].status.InFlight? && j >= n))
  }

  lemma OneMoreRecovered(s: State, t: State, ids: seq<DeliveryId>, n: nat, recovered: bool)
    requires RecoveredUpTo(s, ids, n) && n < |ids|
    requires recovered <==> s.deliveries[ids[n]].status.InFlight?
    requires t.deliveries == if recovered then SetStatus(s, ids[n], Retrying).deliveries else s.deliveries
    ensures RecoveredUpTo(t, ids, n + 1)
  {
  }

  /** One worker or sweeper process at work on the shared store: the database tables and the broker's queues. */
  class Engine {
    const config: Config
    var store: State

    constructor (config: Config)
      ensures this.config == config && store == Init()
    {
      this.config := config;
      store := Init();
    }

    method Acknowledge(m: MessageId)
      requires At(store, m, Finished)
      modifies this
      ensures Ran(config, old(store), [Ack(m)], store)
      ensures store == old(store).(messages := old(store).messages - {m})
    {
      RanOne(config, store, Ack(m));
      store := store.(messages := store.messages - {m});
    }

    /** The consumer's catch: the first failure requeues the message, a second one drops it. On a channel that is gone
        neither answer reaches the broker, which has queued a copy already. */
    method HandlingFailed(m: MessageId)
      requires Enabled(config, store, Throw(m))
      modifies this
      ensures Ran(config, old(store), [Throw(m)], store)
      ensures m in store.messages <==> !old(store).messages[m].redelivered && m !in old(store).detached
      ensures m in store.messages ==> store.messages[m].phase == Ready && store.messages[m].redelivered
      ensures m in store.messages ==>
                store.messages == old(store).messages[m := old(store).messages[m].(phase := Ready, redelivered := true)]
      ensures store == old(store).(messages := store.messages)
      ensures store.messages - {m} == old(store).messages - {m}
    {
      ghost var others := store.messages - {m};
      RanOne(config, store, Throw(m));
      if store.messages[m].redelivered || m in store.detached {
        store := store.(messages := store.messages - {m});
      } else {
        store := store.(messages := store.messages[m := store.messages[m].(phase := Ready, redelivered := true)]);
      }
      assert store.messages - {m} == others;
    }

    /** The success transaction. The delivery ends as SUCCEEDED with this attempt's number, its endpoint's failure count
        starts over, and no other row, message, queue or sweep is touched. */
    method CommitSuccess(m: MessageId, result: Result, at: int)
      requires Enabled(config, store, Commit(m, result, at)) && IsSuccess(result)
      modifies this
      ensures store == Next(config, old(store), Commit(m, result, at))
      ensures var msg := old(store).messages[m];
              var before, after := old(store).deliveries[msg.deliveryId], store.deliveries[msg.deliveryId];
              && store.rows == old(store).rows + [AttemptRow(msg.deliveryId, msg.attempt, result)]
              && after.status == Succeeded && after.attemptCount == msg.attempt && after.nextAttemptAt == None
              && after.createdAt == before.createdAt && after.endpointId == before.endpointId
              && store.endpoints[before.endpointId].consecutiveFailures == 0
              && store.endpoints[before.endpointId].active == old(store).endpoints[before.endpointId].active
              && At(store, m, Finished)
              && OnlyTheirs(old(store), store, msg.deliveryId, before.endpointId, m)
    {
      var msg := store.messages[m];
      var delivery, e := store.deliveries[msg.deliveryId], store.deliveries[msg.deliveryId].endpointId;
      var done := delivery.(status := Succeeded, attemptCount := msg.attempt, nextAttemptAt := None);
      store := store.(rows := store.rows + [AttemptRow(msg.deliveryId, msg.attempt, result)]);
      store := store.(deliveries := store.deliveries[msg.deliveryId := done]);
      store := store.(endpoints := store.endpoints[e := store.endpoints[e].(consecutiveFailures := 0)]);
      store := Logged(Goto(store, m, Finished), FailuresReset(e));
    }

    method CommitRetry(m: MessageId, result: Result, level: Level, at: int)
      requires Enabled(config, store, Commit(m, result, at)) && !IsSuccess(result)
      requires LevelAfter(config, result, store.messages[m].attempt) == Some(level)
      modifies this
      ensures store == Next(config, old(store), Commit(m, result, at)) && At(store, m, RetryCommitted(level))
      ensures var msg, row := old(store).messages[m], old(store).deliveries[old(store).messages[m].deliveryId];
              var waiting := Delivery(row.endpointId, Retrying, msg.attempt, row.createdAt, Some(at + level.delayMs));
              store == old(store).(rows := old(store).rows + [AttemptRow(msg.deliveryId, msg.attempt, result)],
                                   deliveries := old(store).deliveries[msg.deliveryId := waiting],
                                   messages := old(store).messages[m := msg.(phase := RetryCommitted(level))])
    {
      var msg := store.messages[m];
      var delivery := store.deliveries[msg.deliveryId];
      var due := Some(at + level.delayMs);
      var waiting := delivery.(status := Retrying, attemptCount := msg.attempt, nextAttemptAt := due);
      store := store.(rows := store.rows + [AttemptRow(msg.deliveryId, msg.attempt, result)]);
      store := store.(deliveries := store.deliveries[msg.deliveryId := waiting]);
      store := Goto(store, m, RetryCommitted(level));
    }

    method CommitFailure(m: MessageId, result: Result, at: int)
      requires Enabled(config, store, Commit(m, result, at)) && !IsSuccess(result)
      requires LevelAfter(config, result, store.messages[m].attempt).None?
      modifies this
      ensures store == Next(config, old(store), Commit(m, result, at))
      ensures Enabled(config, store, TryDisable(m))
      ensures WillFlip(config, old(store), m) == Full(config, store, m)
      ensures var msg, row := old(store).messages[m], old(store).deliveries[old(store).messages[m].deliveryId];
              var failed := Delivery(row.endpointId, FailedPermanently, msg.attempt, row.createdAt, None);
              var e := old(store).endpoints[row.endpointId];
              var counted := Endpoint(e.active, e.consecutiveFailures + 1);
              store == old(store).(rows := old(store).rows + [AttemptRow(msg.deliveryId, msg.attempt, result)],
                                   deliveries := old(store).deliveries[msg.deliveryId := failed],
                                   endpoints := old(store).endpoints[row.endpointId := counted],
                                   messages := old(store).messages[m := msg.(phase := FailureCommitted)],
                                   log := store.log)
    {
      var msg := store.messages[m];
      var delivery, e := store.deliveries[msg.deliveryId], store.deliveries[msg.deliveryId].endpointId;
      var failed := delivery.(status := FailedPermanently, attemptCount := msg.attempt, nextAttemptAt := None);
      var counted := store.endpoints[e].(consecutiveFailures := store.endpoints[e].consecutiveFailures + 1);
      store := store.(rows := store.rows + [AttemptRow(msg.deliveryId, msg.attempt, result)]);
      store := store.(deliveries := store.deliveries[msg.deliveryId := failed]);
      store := store.(endpoints := store.endpoints[e := counted]);
      store := Logged(Goto(store, m, FailureCommitted), FailureCounted(e));
    }

    /** Flips the endpoint row if it still matches, and says whether it did. */
    method DisableIfStillDue(m: MessageId) returns (disabled: bool)
      requires Enabled(config, store, TryDisable(m))
      modifies this
      ensures store == DisableIfDue(config, old(store), m)
      ensures At(store, m, DisableTried(disabled)) && store.messages[m].deliveryId in store.deliveries
      ensures disabled == Full(config, old(store), m)
      ensures var e := old(store).deliveries[old(store).messages[m].deliveryId].endpointId;
              var after := Endpoint(old(store).endpoints[e].active && !disabled,
                                    old(store).endpoints[e].consecutiveFailures);
              && store == old(store).(endpoints := store.endpoints, messages := store.messages, log := store.log)
              && store.endpoints == old(store).endpoints[e := after]
              && store.messages == old(store).messages[m := old(store).messages[m].(phase := DisableTried(disabled))]
    {
      var id := store.deliveries[store.messages[m].deliveryId].endpointId;
      disabled := store.endpoints[id].active && store.endpoints[id].consecutiveFailures >= config.threshold;
      if disabled {
        store := store.(endpoints := store.endpoints[id := store.endpoints[id].(active := false)]);
        store := Goto(store, m, DisableTried(true));
        store := Logged(store, AutoDisabled(id));
      } else {
        store := Goto(store, m, DisableTried(false));
      }
    }

    /** Dead letter first, then the announcement of a disable this handler made. */
    method SendDeadLetter(m: MessageId, disabled: bool)
      requires At(store, m, DisableTried(disabled)) && store.messages[m].deliveryId in store.deliveries
      requires m !in store.detached
      modifies this
      ensures Ran(config, old(store), DeadLetterSteps(m, disabled), store)
      ensures At(store, m, Finished)
      ensures var msg := old(store).messages[m];
              store == old(store).(deadLetters := old(store).deadLetters + [(msg.deliveryId, msg.attempt)],
                                   messages := old(store).messages[m := msg.(phase := Finished)], log := store.log)
    {
      ghost var before := store;
      RanOne(config, store, PublishDeadLetter(m));
      store := store.(deadLetters := store.deadLetters + [(store.messages[m].deliveryId, store.messages[m].attempt)]);
      store := Goto(store, m, if disabled then DeadLettered else Finished);
      if disabled {
        ghost var lettered := store;
        Announce(m);
        RanOn(config, before, [PublishDeadLetter(m)], lettered, [AnnounceDisable(m)], store);
      }
    }

    method Announce(m: MessageId)
      requires At(store, m, DeadLettered) && store.messages[m].deliveryId in store.deliveries
      modifies this
      ensures Ran(config, old(store), [AnnounceDisable(m)], store)
      ensures store == old(store).(messages := old(store).messages[m := old(store).messages[m].(phase := Finished)],
                                   log := store.log)
    {
      RanOne(config, store, AnnounceDisable(m));
      store := Goto(store, m, Finished);
      store := Logged(store, Announced(store.deliveries[store.messages[m].deliveryId].endpointId));
    }

    method FinaliseFailure(m: MessageId, result: Result, at: int)
      requires Enabled(config, store, Commit(m, result, at)) && !IsSuccess(result) && Known(store, m)
      requires LevelAfter(config, result, store.messages[m].attempt).None?
      modifies this
      ensures Ran(config, old(store), FailureSteps(m, result, at, WillFlip(config, old(store), m)), store)
      ensures At(store, m, Finished) && AttemptLeaves(config, old(store), store, m, result, at, DeliveryFailed)
    {
      ghost var before := store;
      RanOne(config, before, Commit(m, result, at));
      CommitFailure(m, result, at);
      ghost var committed := store;
      DisableAndBury(m);
      RanOn(config, before, [Commit(m, result, at)], committed, BuryingSteps(m, WillFlip(config, before, m)), store);
      FailureLeaves(config, before, store, m, result, at);
    }

    /** After the failure's commit: the conditional disable, the dead letter and the announcement. */
    method DisableAndBury(m: MessageId)
      requires Enabled(config, store, TryDisable(m)) && m !in store.detached
      modifies this
      ensures Ran(config, old(store), BuryingSteps(m, Full(config, old(store), m)), store)
      ensures var msg := old(store).messages[m];
              var e := old(store).deliveries[msg.deliveryId].endpointId;
              var after := Endpoint(old(store).endpoints[e].active && !Full(config, old(store), m),
                                    old(store).endpoints[e].consecutiveFailures);
              store == old(store).(endpoints := old(store).endpoints[e := after],
                                   deadLetters := old(store).deadLetters + [(msg.deliveryId, msg.attempt)],
                                   messages := old(store).messages[m := msg.(phase := Finished)], log := store.log)
    {
      ghost var before := store;
      RanOne(config, before, TryDisable(m));
      var disabled := DisableIfStillDue(m);
      ghost var tried := store;
      SendDeadLetter(m, disabled);
      RanOn(config, before, [TryDisable(m)], tried, DeadLetterSteps(m, disabled), store);
    }

    method FinaliseRetry(m: MessageId, result: Result, level: Level, at: int)
      requires Enabled(config, store, Commit(m, result, at)) && !IsSuccess(result) && Known(store, m)
      requires LevelAfter(config, result, store.messages[m].attempt) == Some(level)
      modifies this
      ensures Ran(config, old(store), [Commit(m, result, at)] + [PublishRetry(m)], store)
      ensures At(store, m, Finished)
      ensures var msg := old(store).messages[m];
              && store.nextMessage == old(store).nextMessage + 1
              && store.messages == old(store).messages[m := msg.(phase := Finished)][
                   old(store).nextMessage := Message(msg.deliveryId, msg.attempt + 1, false, Delayed(level))]
      ensures AttemptLeaves(config, old(store), store, m, result, at, WillRetry(level))
    {
      ghost var before := store;
      RanOne(config, before, Commit(m, result, at));
      CommitRetry(m, result, level, at);
      ghost var committed := store;
      SendRetry(m, level);
      RanOn(config, before, [Commit(m, result, at)], committed, [PublishRetry(m)], store);
      RetryLeaves(config, before, store, m, result, at, level);
    }

    /** The next attempt goes into the queue of its level. */
    method SendRetry(m: MessageId, level: Level)
      requires At(store, m, RetryCommitted(level)) && m != store.nextMessage && m !in store.detached
      modifies this
      ensures Ran(config, old(store), [PublishRetry(m)], store)
      ensures var msg := old(store).messages[m];
              store == old(store).(messages := old(store).messages[m := msg.(phase := Finished)][
                                     old(store).nextMessage :=
                                       Message(msg.deliveryId, msg.attempt + 1, false, Delayed(level))],
                                   nextMessage := old(store).nextMessage + 1)
    {
      RanOne(config, store, PublishRetry(m));
      store := Send(store, store.messages[m].deliveryId, store.messages[m].attempt + 1, Delayed(level));
      store := Goto(store, m, Finished);
    }

    method Attempt(m: MessageId, result: Result, at: int) returns (outcome: Outcome)
      requires Known(store, m) && At(store, m, Sending)
      modifies this
      ensures Ran(config, old(store), AttemptSteps(config, old(store), m, result, at), store)
      ensures At(store, m, Finished)
      ensures ValidConfig(config) && old(store).messages[m].attempt >= 1 ==>
                OutcomeFits(config, old(store).messages[m].attempt, result, outcome)
      ensures AttemptLeaves(config, old(store), store, m, result, at, outcome)
    {
      ghost var attempt := store.messages[m].attempt;
      var level := LevelAfter(config, result, store.messages[m].attempt);
      if IsSuccess(result) {
        ghost var before := store;
        RanOne(config, store, Commit(m, result, at));
        CommitSuccess(m, result, at);
        outcome := DeliverySucceeded;
        SuccessLeaves(config, before, store, m, result, at);
      } else if level.Some? {
        FinaliseRetry(m, result, level.value, at);
        outcome := WillRetry(level.value);
      } else {
        FinaliseFailure(m, result, at);
        outcome := DeliveryFailed;
      }
      if ValidConfig(config) && attempt >= 1 { OutcomeIsRight(config, attempt, result, outcome); }
    }

    /** Writes IN_FLIGHT, then attempts and acknowledges. */
    method SendAndSettle(m: MessageId, result: Result, at: int) returns (outcome: Outcome)
      requires Known(store, m) && At(store, m, Permitted)
      modifies this
      ensures Ran(config, old(store),
                  [Step.WriteInFlight(m)] + (AttemptSteps(config, old(store), m, result, at) + [Ack(m)]), store)
      ensures m !in store.messages && AttemptLeaves(config, old(store), store, m, result, at, outcome)
      ensures ValidConfig(config) && old(store).messages[m].attempt >= 1 ==>
                OutcomeFits(config, old(store).messages[m].attempt, result, outcome)
    {
      ghost var before := store;
      RanOne(config, before, Step.WriteInFlight(m));
      var d := store.messages[m].deliveryId;
      store := SetStatus(store, d, InFlight);
      store := Goto(store, m, Sending);
      store := Logged(store, Event.WroteInFlight(d));
      ghost var sending := store;
      outcome := AttemptAndAcknowledge(m, result, at);
      RanOn(config, before, [Step.WriteInFlight(m)], sending, AttemptSteps(config, before, m, result, at) + [Ack(m)],
            store);
      LeavesAlike(config, before, sending, store, m, result, at, outcome);
    }

    method AttemptAndAcknowledge(m: MessageId, result: Result, at: int) returns (outcome: Outcome)
      requires Known(store, m) && At(store, m, Sending)
      modifies this
      ensures Ran(config, old(store), AttemptSteps(config, old(store), m, result, at) + [Ack(m)], store)
      ensures m !in store.messages && AttemptLeaves(config, old(store), store, m, result, at, outcome)
      ensures ValidConfig(config) && old(store).messages[m].attempt >= 1 ==>
                OutcomeFits(config, old(store).messages[m].attempt, result, outcome)
    {
      ghost var before := store;
      outcome := Attempt(m, result, at);
      ghost var finished := store;
      Acknowledge(m);
      RanOn(config, before, AttemptSteps(config, before, m, result, at), finished, [Ack(m)], store);
      LeavesWithoutM(config, before, finished, m, result, at, outcome);
    }

    method Park(m: MessageId)
      requires Known(store, m) && At(store, m, Denied)
      modifies this
      ensures Ran(config, old(store), [PublishThrottle(m)] + [Ack(m)], store)
      ensures forall r: Result, at: int :: HandlingLeaves(config, old(store), store, m, r, at, Throttled)
    {
      ghost var before := store;
      RanOne(config, before, PublishThrottle(m));
      store := Send(store, store.messages[m].deliveryId, store.messages[m].attempt, Parked);
      store := Goto(store, m, Finished);
      ghost var parked := store;
      Acknowledge(m);
      RanOn(config, before, [PublishThrottle(m)], parked, [Ack(m)], store);
    }

    method SkipDisabled(m: MessageId)
      requires Known(store, m) && At(store, m, Loaded(false))
      modifies this
      ensures Ran(config, old(store), [Skip(m)] + [Ack(m)], store)
      ensures forall r: Result, at: int :: HandlingLeaves(config, old(store), store, m, r, at, EndpointDisabled)
    {
      ghost var before := store;
      RanOne(config, before, Skip(m));
      var d := store.messages[m].deliveryId;
      store := SetStatus(store, d, Skipped);
      store := Goto(store, m, Finished);
      ghost var skipped := store;
      Acknowledge(m);
      RanOn(config, before, [Skip(m)], skipped, [Ack(m)], store);
    }

    /** One message from its fetch to its acknowledgement, nothing failing: `allowed` is the token bucket's answer and
        `result` what sending, or the target guard, would give. */
    method HandleDelivery(m: MessageId, allowed: bool, result: Result, at: int) returns (outcome: Outcome)
      requires Fetchable(store, m) && At(store, m, Fetched)
      modifies this
      ensures Ran(config, old(store), HandlingSteps(config, old(store), m, allowed, result, at), store)
      ensures ValidConfig(config) && old(store).messages[m].attempt >= 1 ==>
                HandlingFits(config, old(store), m, allowed, result, outcome)
      ensures HandlingLeaves(config, old(store), store, m, result, at, outcome)
    {
      ghost var before := store;
      RanOne(config, before, LoadRow(m));
      if store.messages[m].deliveryId !in store.deliveries {
        Dismiss(m);
        return UnknownDelivery;
      }
      var delivery := store.deliveries[store.messages[m].deliveryId];
      if Terminal(delivery.status) {
        Dismiss(m);
        return AlreadyFinalised;
      }
      var active := store.endpoints[delivery.endpointId].active;
      store := Goto(store, m, Loaded(active));
      ghost var loaded := store;
      if !active {
        SkipDisabled(m);
        RanOn(config, before, [LoadRow(m)], loaded, [Skip(m)] + [Ack(m)], store);
        HandlingAlike(config, before, loaded, store, m, result, at, EndpointDisabled);
        return EndpointDisabled;
      }
      outcome := AskToken(m, allowed, result, at);
      RanOn(config, before, [LoadRow(m)], loaded, TokenSteps(config, loaded, m, allowed, result, at), store);
      HandlingAlike(config, before, loaded, store, m, result, at, outcome);
    }

    /** The message of a delivery that is missing or finished: read and acknowledged. */
    method Dismiss(m: MessageId)
      requires m in store.messages && At(store, m, Fetched)
      requires var id := store.messages[m].deliveryId;
               id !in store.deliveries || Terminal(store.deliveries[id].status)
      modifies this
      ensures Ran(config, old(store), [LoadRow(m)] + [Ack(m)], store)
      ensures store == old(store).(messages := old(store).messages - {m})
    {
      ghost var before := store;
      RanOne(config, before, LoadRow(m));
      store := Goto(store, m, Finished);
      ghost var loaded := store;
      Acknowledge(m);
      RanOn(config, before, [LoadRow(m)], loaded, [Ack(m)], store);
    }

    method AskToken(m: MessageId, allowed: bool, result: Result, at: int) returns (outcome: Outcome)
      requires Known(store, m) && At(store, m, Loaded(true))
      modifies this
      ensures Ran(config, old(store), TokenSteps(config, old(store), m, allowed, result, at), store)
      ensures if !allowed then outcome == Throttled
              else ValidConfig(config) && old(store).messages[m].attempt >= 1 ==>
                     OutcomeFits(config, old(store).messages[m].attempt, result, outcome)
      ensures HandlingLeaves(config, old(store), store, m, result, at, outcome)
    {
      ghost var before := store;
      RanOne(config, before, TakeToken(m, allowed));
      store := Goto(store, m, if allowed then Permitted else Denied);
      ghost var asked := store;
      if allowed {
        outcome := SendAndSettle(m, result, at);
        RanOn(config, before, [TakeToken(m, true)], asked,
              [Step.WriteInFlight(m)] + (AttemptSteps(config, asked, m, result, at) + [Ack(m)]), store);
        LeavesAlike(config, before, asked, store, m, result, at, outcome);
      } else {
        Park(m);
        outcome := Throttled;
        RanOn(config, before, [TakeToken(m, false)], asked, [PublishThrottle(m)] + [Ack(m)], store);
        HandlingAlike(config, before, asked, store, m, result, at, Throttled);
      }
    }

    /** Claims one stuck row; when the claim matched, publishes its next attempt, or puts the row back if the broker
        refuses. */
    method Recover(k: SweeperId, brokerUp: bool) returns (recovered: bool, threw: bool)
      requires AtStage(store, k, Claiming) && store.sweeps[k].todo[0].id in store.deliveries
      modifies this
      ensures recovered == (brokerUp && old(store).deliveries[old(store).sweeps[k].todo[0].id].status.InFlight?)
      ensures threw == (!brokerUp && old(store).deliveries[old(store).sweeps[k].todo[0].id].status.InFlight?)
      ensures Ran(config, old(store), RecoverySteps(k, recovered, threw), store)
      ensures !threw ==> k in store.sweeps && store.sweeps[k] == Sweep(old(store).sweeps[k].todo[1..], Claiming)
      ensures threw ==> k !in store.sweeps && store.deliveries == old(store).deliveries
      ensures !threw ==>
                var d := old(store).sweeps[k].todo[0].id;
                store.deliveries == if recovered then SetStatus(old(store), d, Retrying).deliveries
                                    else old(store).deliveries
      ensures store.nextMessage == old(store).nextMessage + if recovered then 1 else 0
      ensures recovered ==> var stuck := old(store).sweeps[k].todo[0];
                            store.messages == old(store).messages[old(store).nextMessage :=
                                                Message(stuck.id, stuck.attemptCount + 1, false, Ready)]
    {
      ghost var before := store;
      var todo := store.sweeps[k].todo;
      var d := todo[0].id;
      RanOne(config, before, Claim(k));
      if !store.deliveries[d].status.InFlight? {
        store := store.(sweeps := store.sweeps[k := Sweep(todo[1..], Claiming)]);
        return false, false;
      }
      store := SetStatus(store, d, Retrying);
      store := store.(sweeps := store.sweeps[k := Sweep(todo, Publishing)]);
      store := Logged(store, Claimed(k, d));
      ghost var claimed := store;
      if brokerUp {
        PublishClaimed(k);
        RanOn(config, before, [Claim(k)], claimed, [SweepPublish(k)], store);
        return true, false;
      }
      PutBack(k);
      RanOn(config, before, [Claim(k)], claimed, [SweepPublishFails(k)] + [Release(k)], store);
      return false, true;
    }

    method PublishClaimed(k: SweeperId)
      requires AtStage(store, k, Publishing)
      modifies this
      ensures Ran(config, old(store), [SweepPublish(k)], store)
      ensures k in store.sweeps && store.sweeps[k] == Sweep(old(store).sweeps[k].todo[1..], Claiming)
      ensures store.deliveries == old(store).deliveries && store.nextMessage == old(store).nextMessage + 1
      ensures var stuck := old(store).sweeps[k].todo[0];
              store.messages == old(store).messages[old(store).nextMessage :=
                                  Message(stuck.id, stuck.attemptCount + 1, false, Ready)]
    {
      RanOne(config, store, SweepPublish(k));
      var todo := store.sweeps[k].todo;
      store := Send(store, todo[0].id, todo[0].attemptCount + 1, Ready);
      store := store.(sweeps := store.sweeps[k := Sweep(todo[1..], Claiming)]);
      store := Logged(store, SweepPublished(k, todo[0].id));
    }

    /** The publish failed: the claim goes back and the sweep ends with the error. */
    method PutBack(k: SweeperId)
      requires AtStage(store, k, Publishing) && store.sweeps[k].todo[0].id in store.deliveries
      requires store.deliveries[store.sweeps[k].todo[0].id].status.Retrying?
      modifies this
      ensures Ran(config, old(store), [SweepPublishFails(k)] + [Release(k)], store)
      ensures k !in store.sweeps && store.nextMessage == old(store).nextMessage
      ensures var d := old(store).sweeps[k].todo[0].id;
              store.deliveries == old(store).deliveries[d := old(store).deliveries[d].(status := InFlight)]
    {
      ghost var before := store;
      var d := store.sweeps[k].todo[0].id;
      RanOne(config, before, SweepPublishFails(k));
      store := store.(sweeps := store.sweeps[k := store.sweeps[k].(stage := Releasing)]);
      ghost var failed := store;
      RanOne(config, failed, Release(k));
      store := store.(sweeps := store.sweeps - {k});
      store := SetStatus(store, d, InFlight);
      store := Logged(store, Event.WroteInFlight(d));
      RanOn(config, before, [SweepPublishFails(k)], failed, [Release(k)], store);
    }

    /** One sweep nobody interrupts over the rows the filter selected, publishing until the broker refuses one. It is a
        run of the step machine; unless it threw it leaves none of them IN_FLIGHT, and it counts what it published. */
    method RunStuckSweep(k: SweeperId, cutoff: int, ids: seq<DeliveryId>, brokerUp: seq<bool>)
      returns (recovered: nat, threw: bool, ghost steps: seq<Step>)
      requires Enabled(config, store, StartSweep(k, cutoff, ids)) && |brokerUp| == |ids|
      modifies this
      ensures Ran(config, old(store), steps, store)
      ensures k !in store.sweeps
      ensures store.nextMessage == old(store).nextMessage + recovered
      ensures !threw ==> forall d :: d in ids ==> d in store.deliveries && store.deliveries[d].status.Retrying?
      ensures forall d :: d in ids ==> d in old(store).deliveries && StuckSince(old(store).deliveries[d], cutoff)
    {
      ghost var before := store;
      var stuck := Select(k, cutoff, ids);
      steps := [StartSweep(k, cutoff, ids)];
      recovered, threw := 0, false;
      var i := 0;
      while i < |ids|
        invariant 0 <= i <= |ids| && !threw
        invariant Ran(config, before, steps, store)
        invariant k in store.sweeps && store.sweeps[k] == Sweep(stuck[i..], Claiming)
        invariant store.nextMessage == before.nextMessage + recovered
        invariant RecoveredUpTo(store, ids, i)
      {
        ghost var at := store;
        var done;
        done, threw := Recover(k, brokerUp[i]);
        RanOn(config, before, steps, at, RecoverySteps(k, done, threw), store);
        steps := steps + RecoverySteps(k, done, threw);
        if threw {
          return;
        }
        OneMoreRecovered(at, store, ids, i, done);
        if done {
          recovered := recovered + 1;
        }
        i := i + 1;
      }
      ghost var at := store;
      Finish(k);
      RanOn(config, before, steps, at, [EndSweep(k)], store);
      steps := steps + [EndSweep(k)];
    }

    method Select(k: SweeperId, cutoff: int, ids: seq<DeliveryId>) returns (stuck: seq<Stuck>)
      requires Enabled(config, store, StartSweep(k, cutoff, ids))
      modifies this
      ensures Ran(config, old(store), [StartSweep(k, cutoff, ids)], store)
      ensures |stuck| == |ids| && forall i :: 0 <= i < |ids| ==> stuck[i].id == ids[i]
      ensures forall d :: d in ids ==> d in old(store).deliveries && StuckSince(old(store).deliveries[d], cutoff)
      ensures k in store.sweeps && store.sweeps[k] == Sweep(stuck, Claiming)
      ensures store.deliveries == old(store).deliveries && store.nextMessage == old(store).nextMessage
    {
      RanOne(config, store, StartSweep(k, cutoff, ids));
      stuck := Snapshot(store, ids);
      store := store.(sweeps := store.sweeps[k := Sweep(stuck, Claiming)]);
    }

    method Finish(k: SweeperId)
      requires k in store.sweeps && store.sweeps[k].todo == []
      modifies this
      ensures Ran(config, old(store), [EndSweep(k)], store)
      ensures k !in store.sweeps
      ensures store.deliveries == old(store).deliveries && store.nextMessage == old(store).nextMessage
    {
      RanOne(config, store, EndSweep(k));
      store := store.(sweeps := store.sweeps - {k});
    }
  }
}
