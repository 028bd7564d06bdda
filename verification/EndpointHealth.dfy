/** An endpoint's failure counter and its automatic disable, against the history of what was committed. */
module EndpointHealth {
  import opened Wrappers
  import opened RetryLadder
  import opened DeliveryModel

  /** Failure commits on e since its last success commit or enable. */
  function FailuresSince(log: seq<Event>, e: EndpointId): nat {
    if log == [] then 0
    else
      var last := log[|log| - 1];
      if last == FailuresReset(e) || last == EndpointEnabled(e) then 0
      else FailuresSince(log[..|log| - 1], e) + if last == FailureCounted(e) then 1 else 0
  }

  /** A worker disabled e and nobody enabled it since. */
  predicate FlippedSince(log: seq<Event>, e: EndpointId) {
    log != []
    && var last := log[|log| - 1];
       last != EndpointEnabled(e) && (last == AutoDisabled(e) || FlippedSince(log[..|log| - 1], e))
  }

  function Occurrences(log: seq<Event>, event: Event): nat {
    if log == [] then 0
    else Occurrences(log[..|log| - 1], event) + if log[|log| - 1] == event then 1 else 0
  }

  function EndpointOf(s: State, msg: Message): EndpointId {
    if msg.deliveryId in s.deliveries then s.deliveries[msg.deliveryId].endpointId else 0
  }

  /** What endpoint e looks like after a step that logged `ev`. */
  ghost predicate Effect(s: State, t: State, ev: seq<Event>, e: EndpointId) {
    && t.log == s.log + ev
    && |ev| <= 1
    && (e in s.endpoints ==> e in t.endpoints)
    && (e in t.endpoints && e !in s.endpoints ==> ev == [] && t.endpoints[e] == Endpoint(true, 0))
    && (e !in s.endpoints ==> ev != [FailuresReset(e)] && ev != [EndpointEnabled(e)] && ev != [FailureCounted(e)]
                              && ev != [AutoDisabled(e)])
    && (e in s.endpoints ==>
          var before, after := s.endpoints[e], t.endpoints[e];
          && after.consecutiveFailures == (
               if ev == [FailuresReset(e)] || ev == [EndpointEnabled(e)] then 0
               else if ev == [FailureCounted(e)] then before.consecutiveFailures + 1 else before.consecutiveFailures)
          && (ev == [EndpointEnabled(e)] ==> after.active)
          && (ev == [AutoDisabled(e)] ==> before.active && !after.active)
          && (after.active && !before.active ==> ev == [EndpointEnabled(e)]))
  }

  /** What was logged on the way from s to t. */
  function Logs(s: State, t: State): seq<Event> {
    if |t.log| > |s.log| then [t.log[|t.log| - 1]] else []
  }

  lemma EffectByApi(c: Config, s: State, step: Step, t: State, e: EndpointId)
    requires Takes(c, s, step, t) && ByApi(step)
    ensures Effect(s, t, Logs(s, t), e)
  {
  }

  lemma EffectSettling(c: Config, s: State, step: Step, t: State, e: EndpointId)
    requires Takes(c, s, step, t) && Settling(step)
    ensures Effect(s, t, Logs(s, t), e)
  {
  }

  lemma EffectMoving(c: Config, s: State, step: Step, t: State, e: EndpointId)
    requires Takes(c, s, step, t) && Moving(step)
    ensures Effect(s, t, Logs(s, t), e)
  {
  }

  lemma EffectLeaving(c: Config, s: State, step: Step, t: State, e: EndpointId)
    requires Takes(c, s, step, t) && Leaving(step)
    ensures Effect(s, t, Logs(s, t), e)
  {
  }

  lemma EffectWriting(c: Config, s: State, step: Step, t: State, e: EndpointId)
    requires Takes(c, s, step, t) && Writing(step)
    ensures Effect(s, t, Logs(s, t), e)
  {
  }

  lemma EffectForwarding(c: Config, s: State, step: Step, t: State, e: EndpointId)
    requires Takes(c, s, step, t) && Forwarding(step)
    ensures Effect(s, t, Logs(s, t), e)
  {
  }

  lemma EffectBookkeeping(c: Config, s: State, step: Step, t: State, e: EndpointId)
    requires Takes(c, s, step, t) && Bookkeeping(step)
    ensures Effect(s, t, Logs(s, t), e)
  {
  }

  lemma StepEffect(c: Config, s: State, step: Step, t: State, e: EndpointId)
    requires Takes(c, s, step, t)
    ensures Effect(s, t, Logs(s, t), e)
  {
    if ByApi(step) { EffectByApi(c, s, step, t, e); }
    else if Settling(step) { EffectSettling(c, s, step, t, e); }
    else if Moving(step) { EffectMoving(c, s, step, t, e); }
    else if Leaving(step) { EffectLeaving(c, s, step, t, e); }
    else if Writing(step) { EffectWriting(c, s, step, t, e); }
    else if Forwarding(step) { EffectForwarding(c, s, step, t, e); }
    else { EffectBookkeeping(c, s, step, t, e); }
  }

  // The counter and the flips, over the history alone.

  ghost predicate CounterRefines(s: State, e: EndpointId) {
    && FailuresSince(s.log, e) == (if e in s.endpoints then s.endpoints[e].consecutiveFailures else 0)
    && (FlippedSince(s.log, e) ==> e in s.endpoints && !s.endpoints[e].active)
  }

  /** Between two automatic disables somebody enabled the endpoint. */
  ghost predicate FlipsAlternate(log: seq<Event>, e: EndpointId) {
    forall i, j :: 0 <= i < j < |log| && log[i] == AutoDisabled(e) && log[j] == AutoDisabled(e)
      ==> exists k :: i < k < j && log[k] == EndpointEnabled(e)
  }

  lemma {:induction false} NotFlippedMeansEnabled(log: seq<Event>, e: EndpointId, i: nat)
    requires i < |log| && log[i] == AutoDisabled(e) && !FlippedSince(log, e)
    ensures exists k :: i < k < |log| && log[k] == EndpointEnabled(e)
  {
    var n := |log| - 1;
    if log[n] != EndpointEnabled(e) {
      NotFlippedMeansEnabled(log[..n], e, i);
      var k :| i < k < n && log[..n][k] == EndpointEnabled(e);
      assert log[k] == EndpointEnabled(e);
    }
  }

  lemma HistoryGrows(log: seq<Event>, last: Event, e: EndpointId)
    ensures FailuresSince(log + [last], e) ==
            if last == FailuresReset(e) || last == EndpointEnabled(e) then 0
            else FailuresSince(log, e) + if last == FailureCounted(e) then 1 else 0
    ensures FlippedSince(log + [last], e) <==>
            last != EndpointEnabled(e) && (last == AutoDisabled(e) || FlippedSince(log, e))
  {
    assert (log + [last])[..|log|] == log;
  }

  lemma EffectKeepsCounter(s: State, t: State, ev: seq<Event>, e: EndpointId)
    requires Effect(s, t, ev, e) && CounterRefines(s, e)
    ensures CounterRefines(t, e)
  {
    if ev == [] {
      assert t.log == s.log;
    } else {
      var last := ev[0];
      assert ev == [last];
      HistoryGrows(s.log, last, e);
    }
  }

  /** One more event keeps the alternation when it is a flip only if none stands. */
  lemma FlipsGoOnAlternating(log: seq<Event>, last: Event, e: EndpointId)
    requires FlipsAlternate(log, e) && (last == AutoDisabled(e) ==> !FlippedSince(log, e))
    ensures FlipsAlternate(log + [last], e)
  {
    var n, more := |log|, log + [last];
    forall i, j | 0 <= i < j < |more| && more[i] == AutoDisabled(e) && more[j] == AutoDisabled(e)
      ensures exists k :: i < k < j && more[k] == EndpointEnabled(e)
    {
      if j == n { NotFlippedMeansEnabled(log, e, i); }
      var k :| i < k < j && log[k] == EndpointEnabled(e);
      assert more[k] == EndpointEnabled(e);
    }
  }

  lemma EffectKeeps(s: State, t: State, ev: seq<Event>, e: EndpointId)
    requires Effect(s, t, ev, e) && CounterRefines(s, e) && FlipsAlternate(s.log, e)
    ensures CounterRefines(t, e) && FlipsAlternate(t.log, e)
  {
    EffectKeepsCounter(s, t, ev, e);
    if ev == [] {
      assert t.log == s.log;
    } else {
      assert ev == [ev[0]] && t.log == s.log + [ev[0]];
      FlipsGoOnAlternating(s.log, ev[0], e);
    }
  }

  lemma {:induction false} RunKeepsCounter(c: Config, s: State, steps: seq<Step>, e: EndpointId)
    requires WellFormed(s) && CounterRefines(s, e) && FlipsAlternate(s.log, e) && ValidRun(c, s, steps)
    ensures CounterRefines(End(c, s, steps), e) && FlipsAlternate(End(c, s, steps).log, e)
    decreases |steps|
  {
    if steps != [] {
      StepEffect(c, s, steps[0], Next(c, s, steps[0]), e);
      EffectKeeps(s, Next(c, s, steps[0]), Logs(s, Next(c, s, steps[0])), e);
      StepKeepsWellFormed(c, s, steps[0], Next(c, s, steps[0]));
      RunKeepsCounter(c, Next(c, s, steps[0]), steps[1..], e);
    }
  }

  /** In every run, whatever fails: consecutiveFailures is the number of failure commits since the last success
      commit or enable, and between two worker-made disables there is an enable. */
  lemma CounterRefinesHistory(c: Config, steps: seq<Step>, e: EndpointId)
    requires ValidRun(c, Init(), steps)
    ensures var s := End(c, Init(), steps);
            && (e in s.endpoints ==> s.endpoints[e].consecutiveFailures == FailuresSince(s.log, e))
            && FlipsAlternate(s.log, e)
  {
    RunKeepsCounter(c, Init(), steps, e);
  }

  // A full counter on an active endpoint is on its way to the disable.

  ghost predicate AboutToDisable(s: State, e: EndpointId, m: MessageId) {
    && m in s.messages
    && s.messages[m].phase.FailureCommitted?
    && s.messages[m].deliveryId in s.deliveries
    && s.deliveries[s.messages[m].deliveryId].endpointId == e
  }

  ghost predicate DisableComing(c: Config, s: State, e: EndpointId) {
    e in s.endpoints && s.endpoints[e].active && s.endpoints[e].consecutiveFailures >= c.threshold
    ==> exists m :: AboutToDisable(s, e, m)
  }

  /** The step does not drop a handler between its failure commit and its conditional disable. */
  predicate FinishesDisable(s: State, step: Step) {
    match step
    case Throw(m) => m in s.messages ==> !s.messages[m].phase.FailureCommitted?
    case Crash(m) => m in s.messages ==> !s.messages[m].phase.FailureCommitted?
    case _ => true
  }

  lemma EndpointIdIsFixed(c: Config, s: State, step: Step, t: State, d: DeliveryId)
    requires Takes(c, s, step, t) && d in s.deliveries
    ensures d in t.deliveries && t.deliveries[d].endpointId == s.deliveries[d].endpointId
  {
    if !step.CreateDelivery? && !Writing(step) && !step.Commit? { OtherStepsLeaveTables(c, s, step, t); }
  }

  lemma TryDisableSettles(c: Config, s: State, step: Step, t: State, e: EndpointId, m: MessageId)
    requires ValidConfig(c) && Takes(c, s, step, t) && FinishesDisable(s, step) && AboutToDisable(s, e, m)
             && ActsOn(step, m)
    ensures e in t.endpoints && !(t.endpoints[e].active && t.endpoints[e].consecutiveFailures >= c.threshold)
  {
  }

  lemma DisablerStays(c: Config, s: State, step: Step, t: State, e: EndpointId, m: MessageId)
    requires WellFormed(s) && Takes(c, s, step, t) && AboutToDisable(s, e, m) && !ActsOn(step, m)
    ensures AboutToDisable(t, e, m)
  {
    OtherMessagesStay(c, s, step, t, m);
    EndpointIdIsFixed(c, s, step, t, s.messages[m].deliveryId);
  }

  lemma CountedByDisabler(c: Config, s: State, step: Step, t: State, e: EndpointId)
    requires Takes(c, s, step, t) && Logs(s, t) == [FailureCounted(e)]
    ensures step.Commit? && AboutToDisable(t, e, step.m)
  {
    if Settling(step) || ByApi(step) { LogsSettling(c, s, step, t, e); } else { LogsOther(c, s, step, t, e); }
    CounterDisables(c, s, step, t, e);
  }

  lemma CounterDisables(c: Config, s: State, step: Step, t: State, e: EndpointId)
    requires Takes(c, s, step, t) && step.Commit? && Logs(s, t) == [FailureCounted(e)]
    ensures AboutToDisable(t, e, step.m)
  {
  }

  lemma StepKeepsDisableComing(c: Config, s: State, step: Step, t: State, e: EndpointId)
    requires ValidConfig(c) && WellFormed(s) && Takes(c, s, step, t) && FinishesDisable(s, step)
    requires DisableComing(c, s, e)
    ensures DisableComing(c, t, e)
  {
    StepEffect(c, s, step, t, e);
    if e in t.endpoints && t.endpoints[e].active && t.endpoints[e].consecutiveFailures >= c.threshold {
      if Logs(s, t) == [FailureCounted(e)] {
        CountedByDisabler(c, s, step, t, e);
      } else {
        assert e in s.endpoints && s.endpoints[e].active;
        var m :| AboutToDisable(s, e, m);
        if ActsOn(step, m) { TryDisableSettles(c, s, step, t, e, m); } else { DisablerStays(c, s, step, t, e, m); }
      }
    }
  }

  /** Dropping a handler between its failure commit and its conditional disable leaves an active endpoint at the
      threshold with nobody to disable it exactly when that endpoint is active and at the threshold already and no
      other handler stands where this one stood. */
  lemma DroppedDisableLeavesItActive(c: Config, s: State, step: Step, t: State, e: EndpointId)
    requires WellFormed(s) && DisableComing(c, s, e) && Takes(c, s, step, t) && (step.Throw? || step.Crash?)
    requires AboutToDisable(s, e, step.m)
    ensures !DisableComing(c, t, e) <==>
            && e in s.endpoints && s.endpoints[e].active && s.endpoints[e].consecutiveFailures >= c.threshold
            && forall o :: o != step.m ==> !AboutToDisable(s, e, o)
  {
    DisablersBut(s, t, e, step.m);
    DisableLeft(c, s, t, e, step.m);
  }

  lemma DisableLeft(c: Config, s: State, t: State, e: EndpointId, m: MessageId)
    requires t.endpoints == s.endpoints
    requires forall o :: AboutToDisable(t, e, o) <==> AboutToDisable(s, e, o) && o != m
    ensures !DisableComing(c, t, e) <==>
            && e in s.endpoints && s.endpoints[e].active && s.endpoints[e].consecutiveFailures >= c.threshold
            && forall o :: o != m ==> !AboutToDisable(s, e, o)
  {
  }

  lemma DisablersBut(s: State, t: State, e: EndpointId, m: MessageId)
    requires t.messages - {m} == s.messages - {m} && t.deliveries == s.deliveries
    requires m in t.messages ==> !t.messages[m].phase.FailureCommitted?
    ensures forall o :: AboutToDisable(t, e, o) <==> AboutToDisable(s, e, o) && o != m
  {
    forall o | o != m ensures o in t.messages <==> o in s.messages
                      ensures o in s.messages ==> t.messages[o] == s.messages[o]
    {
      assert o in t.messages - {m} <==> o in t.messages;
      assert o in s.messages ==> (t.messages - {m})[o] == (s.messages - {m})[o];
    }
  }

  // Announcements: one per flip.

  ghost predicate Announcing(s: State, e: EndpointId, m: MessageId) {
    && m in s.messages
    && (s.messages[m].phase == DisableTried(true) || s.messages[m].phase.DeadLettered?)
    && EndpointOf(s, s.messages[m]) == e
  }

  ghost function Announcers(s: State, e: EndpointId): set<MessageId> {
    set m | m in s.messages && Announcing(s, e, m)
  }

  /** Flips of e that no announcement answers, now or later. */
  ghost function Unannounced(s: State, e: EndpointId): int {
    Occurrences(s.log, AutoDisabled(e)) - Occurrences(s.log, Announced(e)) - |Announcers(s, e)|
  }

  predicate Flips(c: Config, s: State, step: Step, e: EndpointId)
    requires Enabled(c, s, step)
  {
    && step.TryDisable?
    && EndpointOf(s, s.messages[step.m]) == e
    && e in s.endpoints && s.endpoints[e].active && s.endpoints[e].consecutiveFailures >= c.threshold
  }

  lemma LogsSettling(c: Config, s: State, step: Step, t: State, e: EndpointId)
    requires Takes(c, s, step, t) && (Settling(step) || ByApi(step))
    ensures Logs(s, t) == [AutoDisabled(e)] <==> Flips(c, s, step, e)
    ensures Logs(s, t) != [Announced(e)] && (Logs(s, t) == [FailureCounted(e)] ==> step.Commit?)
  {
  }

  lemma LogsOther(c: Config, s: State, step: Step, t: State, e: EndpointId)
    requires Takes(c, s, step, t) && !Settling(step) && !ByApi(step)
    ensures Logs(s, t) != [AutoDisabled(e)] && Logs(s, t) != [FailureCounted(e)]
    ensures Logs(s, t) == [Announced(e)] <==> step.AnnounceDisable? && EndpointOf(s, s.messages[step.m]) == e
  {
  }

  /** The handler stops announcing: it has announced, or it is gone. */
  predicate Stops(step: Step, m: MessageId) {
    step == AnnounceDisable(m) || step == Throw(m) || step == Crash(m)
  }

  lemma FlipperAnnounces(c: Config, s: State, step: Step, t: State, e: EndpointId, m: MessageId)
    requires Takes(c, s, step, t) && (step == TryDisable(m) || step == PublishDeadLetter(m))
    ensures Announcing(t, e, m) <==>
            (step == TryDisable(m) && Flips(c, s, step, e)) || Announcing(s, e, m)
  {
  }

  lemma OthersDoNotAnnounce(c: Config, s: State, step: Step, t: State, e: EndpointId, m: MessageId)
    requires Takes(c, s, step, t) && ActsOn(step, m) && step != TryDisable(m) && step != PublishDeadLetter(m)
    requires m < s.nextMessage
    ensures !Announcing(t, e, m)
    ensures Announcing(s, e, m) ==> Stops(step, m)
  {
  }

  /** How whether m's handler announces for e changes from s to t. */
  ghost predicate AnnouncingChange(s: State, t: State, begins: bool, ends: bool, e: EndpointId, m: MessageId) {
    Announcing(t, e, m) <==> begins || (Announcing(s, e, m) && !ends)
  }

  lemma AnnouncingAfterOtherStep(c: Config, s: State, step: Step, t: State, e: EndpointId, m: MessageId)
    requires WellFormed(s) && Takes(c, s, step, t) && !ActsOn(step, m)
    ensures AnnouncingChange(s, t, false, false, e, m)
  {
    if m in s.messages {
      OtherMessagesStay(c, s, step, t, m);
      EndpointIdIsFixed(c, s, step, t, s.messages[m].deliveryId);
    } else {
      NewMessagesAreQueued(c, s, step, t, m);
    }
  }

  lemma AnnouncingAfterOwnStep(c: Config, s: State, step: Step, t: State, e: EndpointId, m: MessageId)
    requires WellFormed(s) && Takes(c, s, step, t) && ActsOn(step, m)
    ensures AnnouncingChange(s, t, step == TryDisable(m) && Flips(c, s, step, e), Stops(step, m), e, m)
  {
    if step == TryDisable(m) || step == PublishDeadLetter(m) { FlipperAnnounces(c, s, step, t, e, m); }
    else { OthersDoNotAnnounce(c, s, step, t, e, m); }
  }

  lemma OtherStepIsNotOwn(step: Step, m: MessageId)
    requires !ActsOn(step, m)
    ensures step != TryDisable(m) && !Stops(step, m)
  {
  }

  lemma AnnouncingAfter(c: Config, s: State, step: Step, t: State, e: EndpointId, m: MessageId)
    requires WellFormed(s) && Takes(c, s, step, t)
    ensures AnnouncingChange(s, t, step == TryDisable(m) && Flips(c, s, step, e), Stops(step, m), e, m)
  {
    if ActsOn(step, m) {
      AnnouncingAfterOwnStep(c, s, step, t, e, m);
    } else {
      OtherStepIsNotOwn(step, m);
      AnnouncingAfterOtherStep(c, s, step, t, e, m);
    }
  }

  /** The step neither drops a handler between its flip and its announcement nor takes the channel from one, which then
      cannot publish the dead letter that comes before the announcement. */
  predicate FinishesAnnouncing(s: State, step: Step) {
    match step
    case Throw(m) => m in s.messages ==> s.messages[m].phase != DisableTried(true) && !s.messages[m].phase.DeadLettered?
    case Crash(m) => m in s.messages ==> s.messages[m].phase != DisableTried(true) && !s.messages[m].phase.DeadLettered?
    case LoseChannel(_) => false
    case _ => true
  }

  /** The handler that flips, announces or gives up. */
  function Actor(step: Step): MessageId {
    match step
    case TryDisable(m) => m
    case AnnounceDisable(m) => m
    case Throw(m) => m
    case Crash(m) => m
    case _ => 0
  }

  predicate SomeoneStops(step: Step) {
    step.AnnounceDisable? || step.Throw? || step.Crash?
  }

  lemma AnnouncerAfter(c: Config, s: State, step: Step, t: State, e: EndpointId, m: MessageId)
    requires WellFormed(s) && Takes(c, s, step, t)
    ensures Announcing(t, e, m) <==>
            || (Flips(c, s, step, e) && m == Actor(step))
            || (Announcing(s, e, m) && !(SomeoneStops(step) && m == Actor(step)))
  {
    AnnouncingAfter(c, s, step, t, e, m);
    ActorIs(step, m);
  }

  lemma ActorIs(step: Step, m: MessageId)
    ensures Stops(step, m) <==> SomeoneStops(step) && m == Actor(step)
    ensures step.TryDisable? ==> (step == TryDisable(m) <==> m == Actor(step))
  {
  }

  lemma AnnouncersAfter(c: Config, s: State, step: Step, t: State, e: EndpointId)
    requires WellFormed(s) && Takes(c, s, step, t)
    ensures Announcers(t, e) ==
            Announcers(s, e) + (if Flips(c, s, step, e) then {Actor(step)} else {})
                             - (if SomeoneStops(step) then {Actor(step)} else {})
  {
    forall m ensures Announcing(t, e, m) <==>
      (Flips(c, s, step, e) && m == Actor(step)) || (Announcing(s, e, m) && !(SomeoneStops(step) && m == Actor(step)))
    {
      AnnouncerAfter(c, s, step, t, e, m);
    }
    AnnouncersAre(s, t, e, Actor(step), Flips(c, s, step, e), SomeoneStops(step));
  }

  lemma AnnouncersAre(s: State, t: State, e: EndpointId, actor: MessageId, flips: bool, stops: bool)
    requires flips ==> !stops
    requires forall m :: Announcing(t, e, m) <==>
               (flips && m == actor) || (Announcing(s, e, m) && !(stops && m == actor))
    ensures Announcers(t, e) ==
            Announcers(s, e) + (if flips then {actor} else {}) - (if stops then {actor} else {})
  {
    assert forall m :: m in Announcers(t, e) <==> Announcing(t, e, m);
    assert forall m :: m in Announcers(s, e) <==> Announcing(s, e, m);
    if flips { assert Announcers(t, e) == Announcers(s, e) + {actor}; }
    else if stops { assert Announcers(t, e) == Announcers(s, e) - {actor}; }
    else { assert Announcers(t, e) == Announcers(s, e); }
  }

  lemma FlipperBefore(c: Config, s: State, step: Step, t: State, e: EndpointId)
    requires Takes(c, s, step, t) && step.TryDisable?
    ensures Actor(step) !in Announcers(s, e)
  {
  }

  lemma AnnouncerBefore(c: Config, s: State, step: Step, t: State, e: EndpointId)
    requires Takes(c, s, step, t) && step.AnnounceDisable?
    ensures Actor(step) in Announcers(s, e) <==> EndpointOf(s, s.messages[step.m]) == e
  {
  }

  lemma LoggedFlips(c: Config, s: State, step: Step, t: State, e: EndpointId)
    requires Takes(c, s, step, t)
    ensures Logs(s, t) == [AutoDisabled(e)] <==> Flips(c, s, step, e)
    ensures Logs(s, t) == [Announced(e)] <==> step.AnnounceDisable? && EndpointOf(s, s.messages[step.m]) == e
  {
    if Settling(step) || ByApi(step) { LogsSettling(c, s, step, t, e); } else { LogsOther(c, s, step, t, e); }
  }

  /** A handler gives up an announcement it has to make. */
  ghost predicate Loses(s: State, step: Step, e: EndpointId) {
    (step.Throw? || step.Crash?) && step.m in Announcers(s, e)
  }

  lemma WhoAnnounces(c: Config, s: State, step: Step, t: State, e: EndpointId)
    requires Takes(c, s, step, t)
    ensures Logs(s, t) == [AutoDisabled(e)] <==> Flips(c, s, step, e)
    ensures Flips(c, s, step, e) ==> Actor(step) !in Announcers(s, e)
    ensures Logs(s, t) == [Announced(e)] ==> SomeoneStops(step) && Actor(step) in Announcers(s, e)
    ensures SomeoneStops(step) && Actor(step) in Announcers(s, e) && Logs(s, t) != [Announced(e)] <==> Loses(s, step, e)
  {
    LoggedFlips(c, s, step, t, e);
    if step.TryDisable? { FlipperBefore(c, s, step, t, e); }
    if step.AnnounceDisable? { AnnouncerBefore(c, s, step, t, e); }
  }

  /** A flip is left without its announcement exactly when a handler that has one to make throws or crashes. */
  lemma FlipsAreLostExactly(c: Config, s: State, step: Step, t: State, e: EndpointId)
    requires WellFormed(s) && Takes(c, s, step, t)
    ensures Unannounced(t, e) == Unannounced(s, e) + if Loses(s, step, e) then 1 else 0
  {
    AnnouncersAfter(c, s, step, t, e);
    WhoAnnounces(c, s, step, t, e);
    StepEffect(c, s, step, t, e);
    AccountAfter(s.log, t.log, Logs(s, t), e, Announcers(s, e), Announcers(t, e),
                 Actor(step), Flips(c, s, step, e), SomeoneStops(step));
  }

  lemma AccountAfter(log: seq<Event>, more: seq<Event>, ev: seq<Event>, e: EndpointId, before: set<MessageId>,
                     after: set<MessageId>, actor: MessageId, flips: bool, stops: bool)
    requires more == log + ev && |ev| <= 1 && (flips ==> !stops)
    requires ev == [AutoDisabled(e)] <==> flips
    requires after == before + (if flips then {actor} else {}) - (if stops then {actor} else {})
    requires flips ==> actor !in before
    requires ev == [Announced(e)] ==> stops && actor in before
    ensures var flipped := Occurrences(more, AutoDisabled(e)) - Occurrences(log, AutoDisabled(e));
            var announced := Occurrences(more, Announced(e)) - Occurrences(log, Announced(e));
            flipped - announced - |after| + |before|
            == if stops && actor in before && ev != [Announced(e)] then 1 else 0
  {
    if ev == [] { assert more == log; } else { assert more[..|log|] == log; }
    if flips { assert after == before + {actor}; }
    else if stops { assert after == before - {actor}; }
    else { assert after == before; }
  }

  // Whole runs.

  ghost predicate DisablesFinish(c: Config, s: State, steps: seq<Step>)
    requires ValidRun(c, s, steps)
    decreases |steps|
  {
    steps == [] || (FinishesDisable(s, steps[0]) && FinishesAnnouncing(s, steps[0])
                    && DisablesFinish(c, Next(c, s, steps[0]), steps[1..]))
  }

  lemma {:induction false} RunKeepsDisableComing(c: Config, s: State, steps: seq<Step>, e: EndpointId)
    requires ValidConfig(c) && WellFormed(s) && ValidRun(c, s, steps) && DisablesFinish(c, s, steps)
             && DisableComing(c, s, e)
    ensures DisableComing(c, End(c, s, steps), e)
    ensures Unannounced(End(c, s, steps), e) == Unannounced(s, e)
    decreases |steps|
  {
    if steps != [] {
      StepKeepsDisableComing(c, s, steps[0], Next(c, s, steps[0]), e);
      FlipsAreLostExactly(c, s, steps[0], Next(c, s, steps[0]), e);
      StepKeepsWellFormed(c, s, steps[0], Next(c, s, steps[0]));
      RunKeepsDisableComing(c, Next(c, s, steps[0]), steps[1..], e);
    }
  }

  lemma {:induction false} RunNeverOverannounces(c: Config, s: State, steps: seq<Step>, e: EndpointId)
    requires WellFormed(s) && ValidRun(c, s, steps)
    ensures Unannounced(End(c, s, steps), e) >= Unannounced(s, e)
    decreases |steps|
  {
    if steps != [] {
      FlipsAreLostExactly(c, s, steps[0], Next(c, s, steps[0]), e);
      StepKeepsWellFormed(c, s, steps[0], Next(c, s, steps[0]));
      RunNeverOverannounces(c, Next(c, s, steps[0]), steps[1..], e);
    }
  }

  /** When no handler is dropped between its failure commit and its announcement and none loses its channel: an active
      endpoint at the threshold has a worker about to disable it, and every worker-made flip is announced exactly once,
      by the worker that made it, now or later. */
  lemma DisableIsMadeAndAnnouncedOnce(c: Config, steps: seq<Step>, e: EndpointId)
    requires ValidConfig(c) && ValidRun(c, Init(), steps) && DisablesFinish(c, Init(), steps)
    ensures var s := End(c, Init(), steps);
            && (e in s.endpoints && s.endpoints[e].active && s.endpoints[e].consecutiveFailures >= c.threshold ==>
                  exists m :: AboutToDisable(s, e, m))
            && Occurrences(s.log, AutoDisabled(e)) == Occurrences(s.log, Announced(e)) + |Announcers(s, e)|
  {
    RunKeepsDisableComing(c, Init(), steps, e);
    assert Announcers(Init(), e) == {};
  }

  /** Whatever fails, no flip is announced twice. */
  lemma NoFlipIsAnnouncedTwice(c: Config, steps: seq<Step>, e: EndpointId)
    requires ValidRun(c, Init(), steps)
    ensures var s := End(c, Init(), steps);
            Occurrences(s.log, Announced(e)) + |Announcers(s, e)| <= Occurrences(s.log, AutoDisabled(e))
  {
    RunNeverOverannounces(c, Init(), steps, e);
    assert Announcers(Init(), e) == {};
  }

  // A disabled endpoint.

  lemma EndpointsStay(c: Config, s: State, step: Step, t: State)
    requires Takes(c, s, step, t) && !ByApi(step) && !Settling(step)
    ensures t.endpoints == s.endpoints
  {
  }

  lemma SettlingReactivatesNone(c: Config, s: State, step: Step, t: State, e: EndpointId)
    requires Takes(c, s, step, t) && Settling(step) && e in s.endpoints && !s.endpoints[e].active
    ensures e in t.endpoints && !t.endpoints[e].active
  {
  }

  lemma OnlyEnablingReactivates(c: Config, s: State, step: Step, t: State, e: EndpointId)
    requires Takes(c, s, step, t) && e in s.endpoints && !s.endpoints[e].active && step != EnableEndpoint(e)
    ensures e in t.endpoints && !t.endpoints[e].active
  {
    if Settling(step) { SettlingReactivatesNone(c, s, step, t, e); }
    else if !ByApi(step) { EndpointsStay(c, s, step, t); }
  }

  lemma {:induction false} StaysDisabled(c: Config, s: State, steps: seq<Step>, e: EndpointId)
    requires ValidRun(c, s, steps) && e in s.endpoints && !s.endpoints[e].active && EnableEndpoint(e) !in steps
    ensures e in End(c, s, steps).endpoints && !End(c, s, steps).endpoints[e].active
    decreases |steps|
  {
    if steps != [] {
      OnlyEnablingReactivates(c, s, steps[0], Next(c, s, steps[0]), e);
      StaysDisabled(c, Next(c, s, steps[0]), steps[1..], e);
    }
  }

  /** The handler of m reads a delivery to a disabled endpoint. */
  ghost predicate ReadsDisabled(c: Config, s: State, m: MessageId, e: EndpointId) {
    && Enabled(c, s, LoadRow(m)) && s.messages[m].deliveryId in s.deliveries
    && s.deliveries[s.messages[m].deliveryId].endpointId == e && e in s.endpoints && !s.endpoints[e].active
  }

  /** It then has no token to take; it ends with a delivery that is finished, or makes it SKIPPED. */
  ghost predicate SendsNothing(c: Config, s: State, m: MessageId) {
    && Enabled(c, s, LoadRow(m)) && s.messages[m].deliveryId in s.deliveries
    && var t, d := Next(c, s, LoadRow(m)), s.messages[m].deliveryId;
       && (forall allowed :: !Enabled(c, t, TakeToken(m, allowed)))
       && if s.deliveries[d].status in {Succeeded, FailedPermanently, Skipped} then At(t, m, Finished)
          else && Enabled(c, t, Skip(m)) && d in Next(c, t, Skip(m)).deliveries
               && Next(c, t, Skip(m)).deliveries[d] == s.deliveries[d].(status := Skipped)
  }

  lemma DisabledIsSkipped(c: Config, s: State, m: MessageId, e: EndpointId)
    requires ReadsDisabled(c, s, m, e)
    ensures SendsNothing(c, s, m)
  {
  }

  /** From the moment an endpoint is disabled until it is enabled again, whatever else runs, a handler that reads a
      delivery to it sends nothing. */
  lemma DisabledEndpointsGetNothing(c: Config, s: State, e: EndpointId, steps: seq<Step>, m: MessageId)
    requires Enabled(c, s, DisableEndpoint(e)) && ValidRun(c, Next(c, s, DisableEndpoint(e)), steps)
    requires EnableEndpoint(e) !in steps
    requires var u := End(c, Next(c, s, DisableEndpoint(e)), steps);
             && Enabled(c, u, LoadRow(m)) && u.messages[m].deliveryId in u.deliveries
             && u.deliveries[u.messages[m].deliveryId].endpointId == e
    ensures SendsNothing(c, End(c, Next(c, s, DisableEndpoint(e)), steps), m)
  {
    var t := Next(c, s, DisableEndpoint(e));
    StaysDisabled(c, t, steps, e);
    DisabledIsSkipped(c, End(c, t, steps), m, e);
  }
}
