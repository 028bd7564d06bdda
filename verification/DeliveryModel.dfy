/** The delivery engine as a step machine.

    One step is what happens between two awaits of the API, of a worker's handler or of a sweeper, or one move
    of the broker. Steps of any number of handlers and sweepers interleave freely. An unacknowledged message and
    the handler working on it are one object: the message's phase is the handler's program counter. When the broker
    takes the message back from a channel it lost, a copy goes to the queue and the handler goes on, detached. */
module DeliveryModel {
  import opened Wrappers
  import opened RetryLadder

  type DeliveryId = nat
  type EndpointId = nat
  type MessageId = nat
  type SweeperId = nat

  datatype Config = Config(maxAttempts: int, schedule: Schedule, threshold: int)

  /** What the environment schema accepts, for the schedule the queues were declared from. */
  ghost predicate ValidConfig(c: Config) {
    1 <= c.maxAttempts <= |c.schedule| + 1 && Increasing(c.schedule) && c.threshold >= 1
  }

  datatype Status = Pending | InFlight | Retrying | Succeeded | FailedPermanently | Skipped

  predicate Terminal(status: Status) {
    status.Succeeded? || status.FailedPermanently? || status.Skipped?
  }

  datatype Delivery = Delivery(endpointId: EndpointId, status: Status, attemptCount: nat,
                               createdAt: int, nextAttemptAt: Option<int>)

  datatype Endpoint = Endpoint(active: bool, consecutiveFailures: nat)

  /** How an attempt ended: an HTTP answer, no answer at all, or a target the guard refused. */
  datatype Result =
    | Response(status: int, retryAfter: Option<real>)
    | TransportError
    | TargetRejected(dnsFailure: bool)

  predicate IsSuccess(r: Result) {
    r.Response? && 200 <= r.status < 300
  }

  function Classify(r: Result): Failure {
    match r
    case Response(status, _) => ClassifyFailure(Some(status))
    case TransportError => ClassifyFailure(None)
    case TargetRejected(dnsFailure) => if dnsFailure then Retryable else Permanent
  }

  function LevelAfter(c: Config, r: Result, attempt: int): Option<Level> {
    NextRetryLevel(Classify(r), attempt, c.maxAttempts, c.schedule, if r.Response? then r.retryAfter else None)
  }

  /** Worth another attempt: no answer at all, a name that did not resolve, or a status that says to come back. */
  predicate WorthRetrying(r: Result) {
    || r.TransportError?
    || r == TargetRejected(true)
    || (r.Response? && (r.status >= 500 || r.status == 408 || r.status == 425 || r.status == 429))
  }

  /** A failed attempt is followed by another exactly if it is worth it and the ceiling is not reached, and then after
      the level promised for the response's own Retry-After. */
  lemma LevelIsPromised(c: Config, r: Result, attempt: nat)
    requires ValidConfig(c) && attempt >= 1
    ensures LevelAfter(c, r, attempt).Some? <==> WorthRetrying(r) && attempt < c.maxAttempts
    ensures LevelAfter(c, r, attempt).Some? ==>
              Promised(LevelAfter(c, r, attempt).value, attempt, c.schedule, if r.Response? then r.retryAfter else None)
  {
    LadderSelection(attempt, c.maxAttempts, c.schedule, if r.Response? then r.retryAfter else None);
  }

  datatype AttemptRow = AttemptRow(deliveryId: DeliveryId, attemptNumber: nat, result: Result)

  /** Where a message is; from Fetched on it is unacknowledged and the phase says what its handler does next. */
  datatype Phase =
    | Ready                          // in the delivery queue
    | Delayed(level: Level)          // in the TTL queue of a retry level
    | Parked                         // in the throttle queue
    | Fetched                        // reads the delivery row
    | Loaded(endpointActive: bool)   // holds its copy of the row, decides on the endpoint
    | Denied                         // no token: publishes to the throttle queue
    | Permitted                      // token taken: writes IN_FLIGHT
    | Sending                        // resolves the target, sends, commits
    | RetryCommitted(next: Level)    // publishes the next attempt
    | FailureCommitted               // tries to disable the endpoint
    | DisableTried(flipped: bool)    // publishes the dead letter
    | DeadLettered                   // announces the disable it made
    | Finished                       // acknowledges

  datatype Message = Message(deliveryId: DeliveryId, attempt: nat, redelivered: bool, phase: Phase)

  predicate Held(p: Phase) {
    !p.Ready? && !p.Delayed? && !p.Parked?
  }

  datatype Stuck = Stuck(id: DeliveryId, attemptCount: nat)

  datatype Stage = Claiming | Publishing | Releasing

  /** A running sweep: the rows it still has to recover, and how far it got with the first. */
  datatype Sweep = Sweep(todo: seq<Stuck>, stage: Stage)

  /** What happened, in order. Nothing the engine does depends on it. */
  datatype Event =
    | FailureCounted(endpoint: EndpointId)
    | FailuresReset(endpoint: EndpointId)
    | EndpointEnabled(endpoint: EndpointId)
    | AutoDisabled(endpoint: EndpointId)
    | Announced(endpoint: EndpointId)
    | Claimed(sweeper: SweeperId, delivery: DeliveryId)
    | SweepPublished(sweeper: SweeperId, delivery: DeliveryId)
    | WroteInFlight(delivery: DeliveryId)

  datatype State = State(
    deliveries: map<DeliveryId, Delivery>,
    endpoints: map<EndpointId, Endpoint>,
    rows: seq<AttemptRow>,
    unpublished: set<DeliveryId>,   // created, first message still to be published
    queued: set<DeliveryId>,        // first message published at some time
    messages: map<MessageId, Message>,
    nextMessage: MessageId,
    detached: set<MessageId>,       // handled on a channel that is gone
    deadLetters: seq<(DeliveryId, nat)>,
    sweeps: map<SweeperId, Sweep>,
    log: seq<Event>)

  function Init(): State {
    State(map[], map[], [], {}, {}, map[], 0, {}, [], map[], [])
  }

  datatype Step =
    | AddEndpoint(e: EndpointId)
    | EnableEndpoint(e: EndpointId)
    | DisableEndpoint(e: EndpointId)
    | CreateDelivery(d: DeliveryId, e: EndpointId, at: int, skipped: bool)
    | PublishFirst(d: DeliveryId)
    | AbandonPublish(d: DeliveryId)
    | Expire(m: MessageId)
    | Consume(m: MessageId)
    | LoadRow(m: MessageId)
    | Skip(m: MessageId)
    | TakeToken(m: MessageId, allowed: bool)
    | PublishThrottle(m: MessageId)
    | WriteInFlight(m: MessageId)
    | Commit(m: MessageId, result: Result, at: int)
    | PublishRetry(m: MessageId)
    | TryDisable(m: MessageId)
    | PublishDeadLetter(m: MessageId)
    | AnnounceDisable(m: MessageId)
    | Ack(m: MessageId)
    | Throw(m: MessageId)
    | Crash(m: MessageId)
    | LoseChannel(m: MessageId)
    | StartSweep(k: SweeperId, cutoff: int, ids: seq<DeliveryId>)
    | Claim(k: SweeperId)
    | SweepPublish(k: SweeperId)
    | SweepPublishFails(k: SweeperId)
    | Release(k: SweeperId)
    | EndSweep(k: SweeperId)
    | SweeperCrash(k: SweeperId)

  predicate At(s: State, m: MessageId, p: Phase) {
    m in s.messages && s.messages[m].phase == p
  }

  /** IN_FLIGHT, and due before the cutoff: by its next attempt, or by its creation on a first attempt. */
  predicate StuckFilter(d: Delivery, cutoff: int) {
    && d.status.InFlight?
    && (if d.nextAttemptAt.Some? then d.nextAttemptAt.value < cutoff else d.createdAt < cutoff)
  }

  /** A delivery being sent whose time to be sent was before the cutoff: the next attempt's when one was due, or else
      its creation's. */
  ghost predicate StuckSince(d: Delivery, cutoff: int) {
    && d.status == InFlight
    && (forall due :: d.nextAttemptAt == Some(due) ==> due < cutoff)
    && (d.nextAttemptAt == None ==> d.createdAt < cutoff)
  }

  predicate AtStage(s: State, k: SweeperId, stage: Stage) {
    k in s.sweeps && s.sweeps[k].stage == stage && s.sweeps[k].todo != []
  }

  predicate Enabled(c: Config, s: State, step: Step) {
    match step
    case AddEndpoint(e) => e !in s.endpoints
    case EnableEndpoint(e) => e in s.endpoints
    case DisableEndpoint(e) => e in s.endpoints
    case CreateDelivery(d, e, _, _) => d !in s.deliveries && e in s.endpoints
    case PublishFirst(d) => d in s.unpublished
    case AbandonPublish(d) => d in s.unpublished
    case Expire(m) => m in s.messages && (s.messages[m].phase.Delayed? || s.messages[m].phase.Parked?)
    case Consume(m) => At(s, m, Ready)
    case LoadRow(m) => At(s, m, Fetched)
    case Skip(m) => At(s, m, Loaded(false)) && s.messages[m].deliveryId in s.deliveries
    case TakeToken(m, _) => At(s, m, Loaded(true))
    case PublishThrottle(m) => At(s, m, Denied) && m !in s.detached
    case WriteInFlight(m) => At(s, m, Permitted) && s.messages[m].deliveryId in s.deliveries
    case Commit(m, _, _) =>
      && At(s, m, Sending)
      && s.messages[m].deliveryId in s.deliveries
      && s.deliveries[s.messages[m].deliveryId].endpointId in s.endpoints
    case PublishRetry(m) => m in s.messages && s.messages[m].phase.RetryCommitted? && m !in s.detached
    case TryDisable(m) =>
      && At(s, m, FailureCommitted)
      && s.messages[m].deliveryId in s.deliveries
      && s.deliveries[s.messages[m].deliveryId].endpointId in s.endpoints
    case PublishDeadLetter(m) => m in s.messages && s.messages[m].phase.DisableTried? && m !in s.detached
    case AnnounceDisable(m) => At(s, m, DeadLettered) && s.messages[m].deliveryId in s.deliveries
    case Ack(m) => At(s, m, Finished)
    case Throw(m) => m in s.messages && Held(s.messages[m].phase) && !s.messages[m].phase.Finished?
    case Crash(m) => m in s.messages && Held(s.messages[m].phase)
    case LoseChannel(m) => m in s.messages && Held(s.messages[m].phase) && m !in s.detached
    case StartSweep(k, cutoff, ids) =>
      k !in s.sweeps
      && (forall i :: 0 <= i < |ids| ==> ids[i] in s.deliveries && StuckFilter(s.deliveries[ids[i]], cutoff))
    case Claim(k) => AtStage(s, k, Claiming) && s.sweeps[k].todo[0].id in s.deliveries
    case SweepPublish(k) => AtStage(s, k, Publishing)
    case SweepPublishFails(k) => AtStage(s, k, Publishing)
    case Release(k) => AtStage(s, k, Releasing) && s.sweeps[k].todo[0].id in s.deliveries
    case EndSweep(k) => k in s.sweeps && s.sweeps[k].todo == []
    case SweeperCrash(k) => k in s.sweeps
  }

  // Building blocks of the steps.

  function Goto(s: State, m: MessageId, p: Phase): State
    requires m in s.messages
  {
    s.(messages := s.messages[m := s.messages[m].(phase := p)])
  }

  /** Back to the delivery queue, marked as delivered before. */
  function Requeue(s: State, m: MessageId): State
    requires m in s.messages
  {
    s.(messages := s.messages[m := s.messages[m].(phase := Ready, redelivered := true)])
  }

  /** A copy back to the delivery queue, marked as delivered before, while the handler goes on. */
  function Redeliver(s: State, m: MessageId): State
    requires m in s.messages
  {
    s.(messages := s.messages[s.nextMessage := s.messages[m].(phase := Ready, redelivered := true)],
       nextMessage := s.nextMessage + 1, detached := s.detached + {m})
  }

  function Remove(s: State, m: MessageId): State {
    s.(messages := s.messages - {m})
  }

  function Send(s: State, d: DeliveryId, attempt: nat, p: Phase): State {
    s.(messages := s.messages[s.nextMessage := Message(d, attempt, false, p)], nextMessage := s.nextMessage + 1)
  }

  function SetStatus(s: State, d: DeliveryId, status: Status): State
    requires d in s.deliveries
  {
    s.(deliveries := s.deliveries[d := s.deliveries[d].(status := status)])
  }

  function Logged(s: State, e: Event): State {
    s.(log := s.log + [e])
  }

  function AddRow(s: State, m: MessageId, r: Result): State
    requires m in s.messages
  {
    s.(rows := s.rows + [AttemptRow(s.messages[m].deliveryId, s.messages[m].attempt, r)])
  }

  /** One transaction: the attempt row, the delivery row, and the endpoint's failure counter. */
  function CommitResult(c: Config, s: State, m: MessageId, r: Result, at: int): State
    requires Enabled(c, s, Commit(m, r, at))
  {
    var msg := s.messages[m];
    var d := s.deliveries[msg.deliveryId];
    var e := s.endpoints[d.endpointId];
    var t := AddRow(s, m, r);
    var level := LevelAfter(c, r, msg.attempt);
    if IsSuccess(r) then
      Logged(
        Goto(t.(deliveries := t.deliveries[msg.deliveryId :=
                                d.(status := Succeeded, attemptCount := msg.attempt, nextAttemptAt := None)],
                endpoints := t.endpoints[d.endpointId := e.(consecutiveFailures := 0)]),
             m, Finished),
        FailuresReset(d.endpointId))
    else if level.Some? then
      Goto(t.(deliveries := t.deliveries[msg.deliveryId :=
                              d.(status := Retrying, attemptCount := msg.attempt,
                                 nextAttemptAt := Some(at + level.value.delayMs))]),
           m, RetryCommitted(level.value))
    else
      Logged(
        Goto(t.(deliveries := t.deliveries[msg.deliveryId :=
                                d.(status := FailedPermanently, attemptCount := msg.attempt, nextAttemptAt := None)],
                endpoints := t.endpoints[d.endpointId := e.(consecutiveFailures := e.consecutiveFailures + 1)]),
             m, FailureCommitted),
        FailureCounted(d.endpointId))
  }

  /** What the transaction leaves alone, and what it makes of the delivery and the handler. */
  lemma CommitShape(c: Config, s: State, m: MessageId, r: Result, at: int)
    requires Enabled(c, s, Commit(m, r, at))
    ensures var t, d := CommitResult(c, s, m, r, at), s.messages[m].deliveryId;
            && d in t.deliveries && t.deliveries == s.deliveries[d := t.deliveries[d]]
            && m in t.messages && t.messages == s.messages[m := s.messages[m].(phase := t.messages[m].phase)]
            && t.rows == s.rows + [AttemptRow(d, s.messages[m].attempt, r)] && t.queued == s.queued
            && t.sweeps == s.sweeps && t.detached == s.detached && t.endpoints.Keys == s.endpoints.Keys
            && t.unpublished == s.unpublished && t.nextMessage == s.nextMessage
            && t.deliveries[d].endpointId == s.deliveries[d].endpointId
    ensures var t, level := CommitResult(c, s, m, r, at), LevelAfter(c, r, s.messages[m].attempt);
            var status := t.deliveries[s.messages[m].deliveryId].status;
            if IsSuccess(r) then status.Succeeded? && At(t, m, Finished)
            else if level.Some? then status.Retrying? && At(t, m, RetryCommitted(level.value))
            else status.FailedPermanently? && At(t, m, FailureCommitted)
  {
  }

  /** Flips the endpoint only if it is still active and still at the threshold. */
  function DisableIfDue(c: Config, s: State, m: MessageId): State
    requires Enabled(c, s, TryDisable(m))
  {
    var id := s.deliveries[s.messages[m].deliveryId].endpointId;
    var e := s.endpoints[id];
    if e.active && e.consecutiveFailures >= c.threshold then
      Logged(Goto(s.(endpoints := s.endpoints[id := e.(active := false)]), m, DisableTried(true)), AutoDisabled(id))
    else
      Goto(s, m, DisableTried(false))
  }

  function NextStuck(s: State, k: SweeperId): State
    requires k in s.sweeps && s.sweeps[k].todo != []
  {
    s.(sweeps := s.sweeps[k := Sweep(s.sweeps[k].todo[1..], Claiming)])
  }

  function ToStage(s: State, k: SweeperId, stage: Stage): State
    requires k in s.sweeps
  {
    s.(sweeps := s.sweeps[k := s.sweeps[k].(stage := stage)])
  }

  function Snapshot(s: State, ids: seq<DeliveryId>): (r: seq<Stuck>)
    requires forall i :: 0 <= i < |ids| ==> ids[i] in s.deliveries
    ensures |r| == |ids|
    ensures forall i :: 0 <= i < |ids| ==> r[i] == Stuck(ids[i], s.deliveries[ids[i]].attemptCount)
  {
    if ids == [] then []
    else [Stuck(ids[0], s.deliveries[ids[0]].attemptCount)] + Snapshot(s, ids[1..])
  }

  /** A finished or missing row ends the handling; otherwise the endpoint decides. */
  function AfterLoading(s: State, d: DeliveryId): Phase {
    if d !in s.deliveries || Terminal(s.deliveries[d].status) then Finished
    else
      var e := s.deliveries[d].endpointId;
      Loaded(e in s.endpoints && s.endpoints[e].active)
  }

  /** The conditional update to RETRYING; a row it does not match is passed over. */
  function ClaimFirst(s: State, k: SweeperId): State
    requires k in s.sweeps && s.sweeps[k].todo != [] && s.sweeps[k].todo[0].id in s.deliveries
  {
    var d := s.sweeps[k].todo[0].id;
    if s.deliveries[d].status.InFlight? then
      Logged(ToStage(SetStatus(s, d, Retrying), k, Publishing), Claimed(k, d))
    else NextStuck(s, k)
  }

  /** The conditional update back to IN_FLIGHT, with which the sweep ends. */
  function PutBackFirst(s: State, k: SweeperId): State
    requires k in s.sweeps && s.sweeps[k].todo != [] && s.sweeps[k].todo[0].id in s.deliveries
  {
    var d := s.sweeps[k].todo[0].id;
    var t := s.(sweeps := s.sweeps - {k});
    if s.deliveries[d].status.Retrying? then Logged(SetStatus(t, d, InFlight), Event.WroteInFlight(d)) else t
  }

  function Next(c: Config, s: State, step: Step): State
    requires Enabled(c, s, step)
  {
    match step
    case AddEndpoint(e) => s.(endpoints := s.endpoints[e := Endpoint(true, 0)])
    case EnableEndpoint(e) => Logged(s.(endpoints := s.endpoints[e := Endpoint(true, 0)]), EndpointEnabled(e))
    case DisableEndpoint(e) => s.(endpoints := s.endpoints[e := s.endpoints[e].(active := false)])
    case CreateDelivery(d, e, at, skipped) =>
      s.(deliveries := s.deliveries[d := Delivery(e, if skipped then Skipped else Pending, 0, at, None)],
         unpublished := if skipped then s.unpublished else s.unpublished + {d})
    case PublishFirst(d) => Send(s.(unpublished := s.unpublished - {d}, queued := s.queued + {d}), d, 1, Ready)
    case AbandonPublish(d) => s.(unpublished := s.unpublished - {d})
    case Expire(m) => Goto(s, m, Ready)
    case Consume(m) => Goto(s, m, Fetched)
    case LoadRow(m) => Goto(s, m, AfterLoading(s, s.messages[m].deliveryId))
    case Skip(m) => Goto(SetStatus(s, s.messages[m].deliveryId, Skipped), m, Finished)
    case TakeToken(m, allowed) => Goto(s, m, if allowed then Permitted else Denied)
    case PublishThrottle(m) => Goto(Send(s, s.messages[m].deliveryId, s.messages[m].attempt, Parked), m, Finished)
    case WriteInFlight(m) =>
      var d := s.messages[m].deliveryId;
      Logged(Goto(SetStatus(s, d, InFlight), m, Sending), Event.WroteInFlight(d))
    case Commit(m, r, at) => CommitResult(c, s, m, r, at)
    case PublishRetry(m) =>
      Goto(Send(s, s.messages[m].deliveryId, s.messages[m].attempt + 1, Delayed(s.messages[m].phase.next)), m, Finished)
    case TryDisable(m) => DisableIfDue(c, s, m)
    case PublishDeadLetter(m) =>
      Goto(s.(deadLetters := s.deadLetters + [(s.messages[m].deliveryId, s.messages[m].attempt)]), m,
           if s.messages[m].phase.flipped then DeadLettered else Finished)
    case AnnounceDisable(m) =>
      Logged(Goto(s, m, Finished), Announced(s.deliveries[s.messages[m].deliveryId].endpointId))
    case Ack(m) => Remove(s, m)
    case Throw(m) => if s.messages[m].redelivered || m in s.detached then Remove(s, m) else Requeue(s, m)
    case Crash(m) => if m in s.detached then Remove(s, m) else Requeue(s, m)
    case LoseChannel(m) => Redeliver(s, m)
    case StartSweep(k, _, ids) => s.(sweeps := s.sweeps[k := Sweep(Snapshot(s, ids), Claiming)])
    case Claim(k) => ClaimFirst(s, k)
    case SweepPublish(k) =>
      var stuck := s.sweeps[k].todo[0];
      Logged(NextStuck(Send(s, stuck.id, stuck.attemptCount + 1, Ready), k), SweepPublished(k, stuck.id))
    case SweepPublishFails(k) => ToStage(s, k, Releasing)
    case Release(k) => PutBackFirst(s, k)
    case EndSweep(k) => s.(sweeps := s.sweeps - {k})
    case SweeperCrash(k) => s.(sweeps := s.sweeps - {k})
  }

  /** The step is taken in s and leads to t. */
  ghost predicate Takes(c: Config, s: State, step: Step, t: State) {
    Enabled(c, s, step) && t == Next(c, s, step)
  }

  ghost predicate ValidRun(c: Config, s: State, steps: seq<Step>)
    decreases |steps|
  {
    steps == [] || (Enabled(c, s, steps[0]) && ValidRun(c, Next(c, s, steps[0]), steps[1..]))
  }

  ghost function End(c: Config, s: State, steps: seq<Step>): State
    requires ValidRun(c, s, steps)
    decreases |steps|
  {
    if steps == [] then s else End(c, Next(c, s, steps[0]), steps[1..])
  }

  lemma {:induction false} RunsCompose(c: Config, s: State, first: seq<Step>, rest: seq<Step>)
    requires ValidRun(c, s, first) && ValidRun(c, End(c, s, first), rest)
    ensures ValidRun(c, s, first + rest)
    ensures End(c, s, first + rest) == End(c, End(c, s, first), rest)
    decreases |first|
  {
    if first == [] {
      assert first + rest == rest;
    } else {
      assert (first + rest)[1..] == first[1..] + rest;
      RunsCompose(c, Next(c, s, first[0]), first[1..], rest);
    }
  }

  lemma OneStep(c: Config, s: State, step: Step)
    requires Enabled(c, s, step)
    ensures ValidRun(c, s, [step]) && End(c, s, [step]) == Next(c, s, step)
  {
    assert [step][1..] == [];
  }

  const FIRST_PUBLISH: seq<Step> := [AddEndpoint(0), CreateDelivery(0, 0, 0, false), PublishFirst(0)]

  /** One endpoint, one delivery, its first message in the delivery queue. */
  const FIRST_PUBLISHED: State :=
    State(map[0 := Delivery(0, Pending, 0, 0, None)], map[0 := Endpoint(true, 0)], [], {}, {0},
          map[0 := Message(0, 1, false, Ready)], 1, {}, [], map[], [])

  lemma FirstPublish(c: Config)
    ensures ValidRun(c, Init(), FIRST_PUBLISH) && End(c, Init(), FIRST_PUBLISH) == FIRST_PUBLISHED
  {
    var s1 := Next(c, Init(), AddEndpoint(0));
    var s2 := Next(c, s1, CreateDelivery(0, 0, 0, false));
    OneStep(c, s2, PublishFirst(0));
    assert FIRST_PUBLISH[1..] == [CreateDelivery(0, 0, 0, false), PublishFirst(0)];
    assert FIRST_PUBLISH[1..][1..] == [PublishFirst(0)];
    assert s2.unpublished - {0} == {};
  }

  /** Steps referring to rows and messages that exist: kept by every step, needed by every other proof. */
  ghost predicate WellFormed(s: State) {
    && (forall m :: m in s.messages ==>
          m < s.nextMessage && s.messages[m].deliveryId in s.queued && s.messages[m].attempt >= 1)
    && (forall m :: m in s.detached ==> m < s.nextMessage)
    && (forall d :: d in s.deliveries ==> s.deliveries[d].endpointId in s.endpoints)
    && s.queued <= s.deliveries.Keys
    && s.unpublished <= s.deliveries.Keys
    && s.unpublished !! s.queued
    && (forall d :: d in s.unpublished ==> s.deliveries[d].status.Pending?)
    && (forall d :: d in s.deliveries && d !in s.queued ==>
          s.deliveries[d].status.Pending? || s.deliveries[d].status.Skipped?)
    && (forall k, i :: k in s.sweeps && 0 <= i < |s.sweeps[k].todo| ==> s.sweeps[k].todo[i].id in s.queued)
  }

  // Groups of steps, so that each proof stays small.

  /** Rows and first messages are created, endpoints switched. */
  predicate ByApi(step: Step) {
    step.AddEndpoint? || step.EnableEndpoint? || step.DisableEndpoint? || step.CreateDelivery? ||
    step.PublishFirst? || step.AbandonPublish?
  }

  /** One message moves on; the tables stay. */
  predicate Moving(step: Step) {
    step.Expire? || step.Consume? || step.LoadRow? || step.TakeToken?
  }

  /** A handling ends, well or not; the tables stay. */
  predicate Leaving(step: Step) {
    step.PublishDeadLetter? || step.AnnounceDisable? || step.Ack? || step.Throw? || step.Crash?
  }

  /** A handler or a sweep writes a delivery's status. */
  predicate Writing(step: Step) {
    step.Skip? || step.WriteInFlight? || step.Claim? || step.Release?
  }

  /** A handler or a sweep publishes a successor message, or the broker queues a copy. */
  predicate Forwarding(step: Step) {
    step.PublishThrottle? || step.PublishRetry? || step.SweepPublish? || step.LoseChannel?
  }

  /** The outcome's transaction and what it triggers. */
  predicate Settling(step: Step) {
    step.Commit? || step.TryDisable?
  }

  /** A sweep starts, fails to publish or ends. */
  predicate Bookkeeping(step: Step) {
    step.StartSweep? || step.SweepPublishFails? || step.EndSweep? || step.SweeperCrash?
  }

  lemma WellFormedByApi(c: Config, s: State, step: Step, t: State)
    requires WellFormed(s) && Takes(c, s, step, t) && ByApi(step)
    ensures WellFormed(t)
  {
  }

  lemma WellFormedMoving(c: Config, s: State, step: Step, t: State)
    requires WellFormed(s) && Takes(c, s, step, t) && Moving(step)
    ensures WellFormed(t)
  {
  }

  lemma WellFormedLeaving(c: Config, s: State, step: Step, t: State)
    requires WellFormed(s) && Takes(c, s, step, t) && Leaving(step) && !step.Throw? && !step.Crash?
    ensures WellFormed(t)
  {
  }

  lemma WellFormedFailing(c: Config, s: State, step: Step, t: State)
    requires WellFormed(s) && Takes(c, s, step, t) && (step.Throw? || step.Crash?)
    ensures WellFormed(t)
  {
  }

  lemma WellFormedWriting(c: Config, s: State, step: Step, t: State)
    requires WellFormed(s) && Takes(c, s, step, t) && (step.Skip? || step.WriteInFlight?)
    ensures WellFormed(t)
  {
  }

  lemma WellFormedClaim(c: Config, s: State, step: Step, t: State)
    requires WellFormed(s) && Takes(c, s, step, t) && step.Claim?
    ensures WellFormed(t)
  {
    assert s.sweeps[step.k].todo[0].id in s.queued;
  }

  lemma WellFormedRelease(c: Config, s: State, step: Step, t: State)
    requires WellFormed(s) && Takes(c, s, step, t) && step.Release?
    ensures WellFormed(t)
  {
    assert s.sweeps[step.k].todo[0].id in s.queued;
  }

  lemma WellFormedForwarding(c: Config, s: State, step: Step, t: State)
    requires WellFormed(s) && Takes(c, s, step, t) && (step.PublishThrottle? || step.PublishRetry?)
    ensures WellFormed(t)
  {
  }

  lemma WellFormedRequeuing(c: Config, s: State, step: Step, t: State)
    requires WellFormed(s) && Takes(c, s, step, t) && (step.SweepPublish? || step.LoseChannel?)
    ensures WellFormed(t)
  {
  }

  lemma WellFormedCommit(c: Config, s: State, step: Step, t: State)
    requires WellFormed(s) && Takes(c, s, step, t) && step.Commit?
    ensures WellFormed(t)
  {
    CommitShape(c, s, step.m, step.result, step.at);
    WellFormedBesides(s, t, step.m);
  }

  /** A status other than PENDING for m's delivery and a new phase for m disturb nothing. */
  lemma WellFormedBesides(s: State, t: State, m: MessageId)
    requires WellFormed(s) && m in s.messages && m in t.messages && s.messages[m].deliveryId in s.deliveries
    requires var d := s.messages[m].deliveryId;
             && d in t.deliveries && t.deliveries == s.deliveries[d := t.deliveries[d]]
             && t.deliveries[d].endpointId == s.deliveries[d].endpointId
    requires t.messages == s.messages[m := s.messages[m].(phase := t.messages[m].phase)]
    requires t.queued == s.queued && t.unpublished == s.unpublished && t.nextMessage == s.nextMessage
    requires t.sweeps == s.sweeps && t.detached == s.detached && t.endpoints.Keys == s.endpoints.Keys
    ensures WellFormed(t)
  {
  }

  lemma WellFormedTryDisable(c: Config, s: State, step: Step, t: State)
    requires WellFormed(s) && Takes(c, s, step, t) && step.TryDisable?
    ensures WellFormed(t)
  {
  }

  lemma WellFormedStart(c: Config, s: State, step: Step, t: State)
    requires WellFormed(s) && Takes(c, s, step, t) && step.StartSweep?
    ensures WellFormed(t)
  {
  }

  lemma WellFormedBookkeeping(c: Config, s: State, step: Step, t: State)
    requires WellFormed(s) && Takes(c, s, step, t) && Bookkeeping(step) && !step.StartSweep?
    ensures WellFormed(t)
  {
  }

  lemma StepKeepsWellFormed(c: Config, s: State, step: Step, t: State)
    requires WellFormed(s) && Takes(c, s, step, t)
    ensures WellFormed(t)
  {
    if ByApi(step) { WellFormedByApi(c, s, step, t); }
    else if Moving(step) { WellFormedMoving(c, s, step, t); }
    else if step.Throw? || step.Crash? { WellFormedFailing(c, s, step, t); }
    else if Leaving(step) { WellFormedLeaving(c, s, step, t); }
    else if step.Skip? || step.WriteInFlight? { WellFormedWriting(c, s, step, t); }
    else if step.Claim? { WellFormedClaim(c, s, step, t); }
    else if step.Release? { WellFormedRelease(c, s, step, t); }
    else if step.PublishThrottle? || step.PublishRetry? { WellFormedForwarding(c, s, step, t); }
    else if Forwarding(step) { WellFormedRequeuing(c, s, step, t); }
    else if step.Commit? { WellFormedCommit(c, s, step, t); }
    else if step.TryDisable? { WellFormedTryDisable(c, s, step, t); }
    else if step.StartSweep? { WellFormedStart(c, s, step, t); }
    else { WellFormedBookkeeping(c, s, step, t); }
  }

  /** The delivery and attempt tables have few writers. */
  lemma OtherStepsLeaveTables(c: Config, s: State, step: Step, t: State)
    requires Takes(c, s, step, t)
    requires !step.CreateDelivery? && !Writing(step) && !step.Commit?
    ensures t.rows == s.rows && t.deliveries == s.deliveries
  {
    if Moving(step) { MovesLeaveTables(c, s, step, t); }
    else if Leaving(step) { EndsLeaveTables(c, s, step, t); }
    else if Forwarding(step) { MessagesLeaveTables(c, s, step, t); }
    else { SwitchesLeaveTables(c, s, step, t); }
  }

  lemma MovesLeaveTables(c: Config, s: State, step: Step, t: State)
    requires Takes(c, s, step, t) && Moving(step)
    ensures t.rows == s.rows && t.deliveries == s.deliveries
  {
  }

  lemma EndsLeaveTables(c: Config, s: State, step: Step, t: State)
    requires Takes(c, s, step, t) && Leaving(step)
    ensures t.rows == s.rows && t.deliveries == s.deliveries
  {
  }

  lemma MessagesLeaveTables(c: Config, s: State, step: Step, t: State)
    requires Takes(c, s, step, t) && Forwarding(step)
    ensures t.rows == s.rows && t.deliveries == s.deliveries
  {
  }

  lemma SwitchesLeaveTables(c: Config, s: State, step: Step, t: State)
    requires Takes(c, s, step, t) && (ByApi(step) || Bookkeeping(step) || step.TryDisable?) && !step.CreateDelivery?
    ensures t.rows == s.rows && t.deliveries == s.deliveries
  {
  }

  /** The step is one of message m's own: nothing else touches it. */
  predicate ActsOn(step: Step, m: MessageId) {
    match step
    case Expire(x) => x == m
    case Consume(x) => x == m
    case LoadRow(x) => x == m
    case Skip(x) => x == m
    case TakeToken(x, _) => x == m
    case PublishThrottle(x) => x == m
    case WriteInFlight(x) => x == m
    case Commit(x, _, _) => x == m
    case PublishRetry(x) => x == m
    case TryDisable(x) => x == m
    case PublishDeadLetter(x) => x == m
    case AnnounceDisable(x) => x == m
    case Ack(x) => x == m
    case Throw(x) => x == m
    case Crash(x) => x == m
    case _ => false
  }

  lemma OtherMessagesStayMoving(c: Config, s: State, step: Step, t: State, m: MessageId)
    requires Takes(c, s, step, t) && m in s.messages && !ActsOn(step, m) && Moving(step)
    ensures m in t.messages && t.messages[m] == s.messages[m]
  {
  }

  lemma OtherMessagesStayLeaving(c: Config, s: State, step: Step, t: State, m: MessageId)
    requires Takes(c, s, step, t) && m in s.messages && !ActsOn(step, m) && Leaving(step)
    ensures m in t.messages && t.messages[m] == s.messages[m]
  {
  }

  lemma OtherMessagesStayWriting(c: Config, s: State, step: Step, t: State, m: MessageId)
    requires Takes(c, s, step, t) && m in s.messages && !ActsOn(step, m) && Writing(step)
    ensures m in t.messages && t.messages[m] == s.messages[m]
  {
  }

  lemma OtherMessagesStayForwarding(c: Config, s: State, step: Step, t: State, m: MessageId)
    requires Takes(c, s, step, t) && m in s.messages && m < s.nextMessage && !ActsOn(step, m) && Forwarding(step)
    ensures m in t.messages && t.messages[m] == s.messages[m]
  {
  }

  lemma OtherMessagesStaySettling(c: Config, s: State, step: Step, t: State, m: MessageId)
    requires Takes(c, s, step, t) && m in s.messages && !ActsOn(step, m) && Settling(step)
    ensures m in t.messages && t.messages[m] == s.messages[m]
  {
  }

  lemma OtherMessagesStay(c: Config, s: State, step: Step, t: State, m: MessageId)
    requires Takes(c, s, step, t) && m in s.messages && m < s.nextMessage && !ActsOn(step, m)
    ensures m in t.messages && t.messages[m] == s.messages[m]
  {
    if Moving(step) { OtherMessagesStayMoving(c, s, step, t, m); }
    else if Leaving(step) { OtherMessagesStayLeaving(c, s, step, t, m); }
    else if Writing(step) { OtherMessagesStayWriting(c, s, step, t, m); }
    else if Forwarding(step) { OtherMessagesStayForwarding(c, s, step, t, m); }
    else if Settling(step) { OtherMessagesStaySettling(c, s, step, t, m); }
  }

  lemma ApiQueues(c: Config, s: State, step: Step, t: State, m: MessageId)
    requires Takes(c, s, step, t) && ByApi(step) && m !in s.messages
    ensures m in t.messages ==> !Held(t.messages[m].phase)
  {
  }

  /** A message enters the world in one of the queues. */
  lemma NewMessagesAreQueued(c: Config, s: State, step: Step, t: State, m: MessageId)
    requires Takes(c, s, step, t) && m !in s.messages
    ensures m in t.messages ==> !Held(t.messages[m].phase)
  {
    if ByApi(step) {
      ApiQueues(c, s, step, t, m);
    } else if !Forwarding(step) {
      assert m !in t.messages;
    }
  }
}
