/** Runs without crash, throw, lost channel or sweep: every unfinished delivery travels as one token. */
module SingleToken {
  import opened Wrappers
  import opened RetryLadder
  import opened DeliveryModel

  predicate Quiet(step: Step) {
    !step.Throw? && !step.Crash? && !step.LoseChannel? && !step.StartSweep?
  }

  /** Not yet handed on: the message still stands for its delivery. */
  predicate TokenPhase(p: Phase) {
    !p.FailureCommitted? && !p.DisableTried? && !p.DeadLettered? && !p.Finished?
  }

  ghost predicate Token(s: State, d: DeliveryId, m: MessageId) {
    m in s.messages && s.messages[m].deliveryId == d && TokenPhase(s.messages[m].phase)
  }

  function NextAttempt(msg: Message): nat {
    if msg.phase.RetryCommitted? then msg.attempt + 1 else msg.attempt
  }

  /** The attempt numbers of d, in the order the rows were committed. */
  function AttemptsOf(rows: seq<AttemptRow>, d: DeliveryId): seq<nat> {
    if rows == [] then []
    else
      var last := rows[|rows| - 1];
      AttemptsOf(rows[..|rows| - 1], d) + if last.deliveryId == d then [last.attemptNumber] else []
  }

  function UpTo(n: nat): (r: seq<nat>)
    ensures |r| == n && forall i :: 0 <= i < n ==> r[i] == i + 1
  {
    if n == 0 then [] else UpTo(n - 1) + [n]
  }

  lemma AttemptsGrow(rows: seq<AttemptRow>, row: AttemptRow, d: DeliveryId)
    ensures AttemptsOf(rows + [row], d) ==
            AttemptsOf(rows, d) + if row.deliveryId == d then [row.attemptNumber] else []
  {
    assert (rows + [row])[..|rows|] == rows;
  }

  ghost predicate TokensMatch(s: State, d: DeliveryId) {
    && (forall m, o :: Token(s, d, m) && Token(s, d, o) ==> m == o)
    && (forall m :: Token(s, d, m) ==>
          d in s.deliveries && !Terminal(s.deliveries[d].status)
          && NextAttempt(s.messages[m]) == s.deliveries[d].attemptCount + 1)
  }

  ghost predicate TokenExists(c: Config, s: State, d: DeliveryId) {
    d in s.queued && d in s.deliveries && !Terminal(s.deliveries[d].status)
    ==> s.deliveries[d].attemptCount < c.maxAttempts && exists m :: Token(s, d, m)
  }

  ghost predicate RowsInOrder(c: Config, s: State, d: DeliveryId) {
    var count := if d in s.deliveries then s.deliveries[d].attemptCount else 0;
    && AttemptsOf(s.rows, d) == UpTo(count)
    && count <= c.maxAttempts
    && (d !in s.queued ==> count == 0)
  }

  ghost predicate Single(c: Config, s: State, d: DeliveryId) {
    s.sweeps == map[] && TokensMatch(s, d) && TokenExists(c, s, d) && RowsInOrder(c, s, d)
  }

  lemma SingleByApi(c: Config, s: State, step: Step, t: State, d: DeliveryId)
    requires ValidConfig(c) && WellFormed(s) && Single(c, s, d) && Takes(c, s, step, t) && ByApi(step)
    ensures Single(c, t, d)
  {
    if step.PublishFirst? && step.d == d {
      SingleFirst(c, s, d);
    } else {
      if m :| Token(s, d, m) { assert Token(t, d, m); }
      assert forall m :: Token(t, d, m) ==> Token(s, d, m);
    }
  }

  lemma SingleFirst(c: Config, s: State, d: DeliveryId)
    requires ValidConfig(c) && WellFormed(s) && Single(c, s, d) && d in s.unpublished
    ensures Single(c, Send(s.(unpublished := s.unpublished - {d}, queued := s.queued + {d}), d, 1, Ready), d)
  {
    assert forall m :: m in s.messages ==> s.messages[m].deliveryId != d;
    assert Token(Send(s.(unpublished := s.unpublished - {d}, queued := s.queued + {d}), d, 1, Ready), d, s.nextMessage);
  }

  lemma SingleMoving(c: Config, s: State, step: Step, t: State, d: DeliveryId)
    requires WellFormed(s) && Single(c, s, d) && Takes(c, s, step, t) && Moving(step)
    ensures Single(c, t, d)
  {
    MovingUntouched(c, s, step, t, d);
    SingleFrames(c, s, t, d);
  }

  lemma MovingShape(c: Config, s: State, step: Step, t: State)
    requires Takes(c, s, step, t) && Moving(step)
    ensures var p := t.messages[step.m].phase;
            var d := s.messages[step.m].deliveryId;
            && t == Goto(s, step.m, p)
            && !p.RetryCommitted? && !s.messages[step.m].phase.RetryCommitted?
            && TokenPhase(s.messages[step.m].phase)
            && (TokenPhase(p) || d !in s.deliveries || Terminal(s.deliveries[d].status))
  {
  }

  lemma GotoUntouched(s: State, m: MessageId, p: Phase, d: DeliveryId)
    requires m in s.messages && !p.RetryCommitted? && !s.messages[m].phase.RetryCommitted?
    requires s.messages[m].deliveryId == d ==> (TokenPhase(p) <==> TokenPhase(s.messages[m].phase))
    ensures Untouched(s, Goto(s, m, p), d)
  {
  }

  lemma MovingUntouched(c: Config, s: State, step: Step, t: State, d: DeliveryId)
    requires TokensMatch(s, d) && Takes(c, s, step, t) && Moving(step)
    ensures Untouched(s, t, d)
  {
    MovingShape(c, s, step, t);
    if s.messages[step.m].deliveryId == d { assert Token(s, d, step.m); }
    GotoUntouched(s, step.m, t.messages[step.m].phase, d);
  }

  lemma SingleLeaving(c: Config, s: State, step: Step, t: State, d: DeliveryId)
    requires WellFormed(s) && Single(c, s, d) && Takes(c, s, step, t) && Quiet(step) && Leaving(step)
    ensures Single(c, t, d)
  {
    assert t.deliveries == s.deliveries && t.rows == s.rows && t.queued == s.queued && t.sweeps == s.sweeps;
    assert forall m :: Token(t, d, m) <==> Token(s, d, m);
    assert forall m :: Token(t, d, m) ==> t.messages[m] == s.messages[m];
  }

  lemma SingleSkip(c: Config, s: State, step: Step, t: State, d: DeliveryId)
    requires Single(c, s, d) && Takes(c, s, step, t) && step.Skip?
    ensures Single(c, t, d)
  {
    var own := s.messages[step.m].deliveryId == d;
    if own { assert Token(s, d, step.m); }
    forall m ensures Token(t, d, m) <==> Token(s, d, m) && !own {
      if own && m != step.m { assert !Token(s, d, m); }
    }
  }

  lemma SingleWriteInFlight(c: Config, s: State, step: Step, t: State, d: DeliveryId)
    requires Single(c, s, d) && Takes(c, s, step, t) && step.WriteInFlight?
    ensures Single(c, t, d)
  {
    if s.messages[step.m].deliveryId == d { assert Token(s, d, step.m); }
    forall m ensures Token(t, d, m) <==> Token(s, d, m) {}
  }

  lemma SingleWriting(c: Config, s: State, step: Step, t: State, d: DeliveryId)
    requires Single(c, s, d) && Takes(c, s, step, t) && Writing(step)
    ensures Single(c, t, d)
  {
    if step.Skip? { SingleSkip(c, s, step, t, d); } else { SingleWriteInFlight(c, s, step, t, d); }
  }

  lemma SingleForwarding(c: Config, s: State, step: Step, t: State, d: DeliveryId)
    requires WellFormed(s) && Single(c, s, d) && Takes(c, s, step, t) && Quiet(step) && Forwarding(step)
    ensures Single(c, t, d)
  {
    assert step.PublishThrottle? || step.PublishRetry?;
    assert t == Goto(Send(s, s.messages[step.m].deliveryId, t.messages[s.nextMessage].attempt,
                          t.messages[s.nextMessage].phase), step.m, Finished);
    if s.messages[step.m].deliveryId == d { assert Token(s, d, step.m); }
    TokenMoves(c, s, t, step.m, d);
  }

  /** The handler of m publishes m's successor, and is done. */
  lemma TokenMoves(c: Config, s: State, t: State, m: MessageId, d: DeliveryId)
    requires WellFormed(s) && Single(c, s, d) && m in s.messages && Token(s, s.messages[m].deliveryId, m)
    requires s.nextMessage in t.messages && TokenPhase(t.messages[s.nextMessage].phase)
    requires NextAttempt(t.messages[s.nextMessage]) == NextAttempt(s.messages[m])
    requires t == Goto(Send(s, s.messages[m].deliveryId, t.messages[s.nextMessage].attempt,
                            t.messages[s.nextMessage].phase), m, Finished)
    ensures Single(c, t, d)
  {
    if s.messages[m].deliveryId == d {
      assert Token(s, d, m) && Token(t, d, s.nextMessage) && !Token(t, d, m);
      assert forall o :: Token(t, d, o) ==> o == s.nextMessage || Token(s, d, o);
    } else {
      assert forall o :: Token(t, d, o) <==> Token(s, d, o);
    }
  }

  lemma SingleTryDisable(c: Config, s: State, step: Step, t: State, d: DeliveryId)
    requires WellFormed(s) && Single(c, s, d) && Takes(c, s, step, t) && step.TryDisable?
    ensures Single(c, t, d)
  {
    assert forall m :: Token(t, d, m) <==> Token(s, d, m);
    assert t.deliveries == s.deliveries;
  }

  /** What a commit by the handler of m, nobody else moving, makes of s. */
  ghost predicate Committed(c: Config, s: State, t: State, m: MessageId) {
    && m in s.messages && m in t.messages
    && t.messages == s.messages[m := s.messages[m].(phase := t.messages[m].phase)]
    && t.queued == s.queued && t.sweeps == s.sweeps && |t.rows| == |s.rows| + 1
    && var d, row := s.messages[m].deliveryId, t.rows[|s.rows|];
       && d in s.deliveries && d in t.deliveries && t.deliveries == s.deliveries[d := t.deliveries[d]]
       && t.rows == s.rows + [row] && row.deliveryId == d && row.attemptNumber == s.messages[m].attempt
       && t.deliveries[d].attemptCount == s.messages[m].attempt
       && if t.messages[m].phase.RetryCommitted?
          then t.deliveries[d].status.Retrying? && s.messages[m].attempt < c.maxAttempts
          else Terminal(t.deliveries[d].status) && !TokenPhase(t.messages[m].phase)
  }

  lemma CommitCommits(c: Config, s: State, step: Step, t: State)
    requires ValidConfig(c) && WellFormed(s) && Takes(c, s, step, t) && step.Commit?
    ensures Committed(c, s, t, step.m)
  {
    CommitShape(c, s, step.m, step.result, step.at);
    var attempt := s.messages[step.m].attempt;
    if LevelAfter(c, step.result, attempt).Some? { LevelMeansMore(c, step.result, attempt); }
  }

  lemma LevelMeansMore(c: Config, r: Result, attempt: nat)
    requires attempt >= 1 && LevelAfter(c, r, attempt).Some?
    ensures attempt < c.maxAttempts
  {
  }

  lemma TokenAdvances(c: Config, s: State, t: State, m: MessageId, d: DeliveryId)
    requires Single(c, s, d) && Committed(c, s, t, m) && s.messages[m].deliveryId == d && d in s.queued
    requires At(s, m, Sending)
    ensures t.deliveries[d].attemptCount == s.deliveries[d].attemptCount + 1 && RowsInOrder(c, t, d)
  {
    assert Token(s, d, m);
    AttemptsGrow(s.rows, t.rows[|s.rows|], d);
  }

  lemma CommitOwn(c: Config, s: State, t: State, m: MessageId, d: DeliveryId)
    requires WellFormed(s) && Single(c, s, d) && Committed(c, s, t, m) && At(s, m, Sending)
    requires s.messages[m].deliveryId == d
    ensures Single(c, t, d)
  {
    TokenAdvances(c, s, t, m, d);
    assert Token(s, d, m);
    assert forall o :: Token(t, d, o) ==> Token(s, d, o);
    if t.messages[m].phase.RetryCommitted? { assert Token(t, d, m); } else { assert !Token(t, d, m); }
  }

  lemma CommitOther(c: Config, s: State, t: State, m: MessageId, d: DeliveryId)
    requires Single(c, s, d) && Committed(c, s, t, m) && At(s, m, Sending) && s.messages[m].deliveryId != d
    ensures Single(c, t, d)
  {
    AttemptsGrow(s.rows, t.rows[|s.rows|], d);
    SingleFrames(c, s, t, d);
  }

  /** Nothing about d differs. */
  ghost predicate Untouched(s: State, t: State, d: DeliveryId) {
    && t.sweeps == s.sweeps
    && (d in t.deliveries <==> d in s.deliveries)
    && (d in s.deliveries ==> t.deliveries[d] == s.deliveries[d])
    && (d in t.queued <==> d in s.queued)
    && AttemptsOf(t.rows, d) == AttemptsOf(s.rows, d)
    && (forall m :: Token(t, d, m) <==> Token(s, d, m))
    && (forall m :: Token(t, d, m) ==> NextAttempt(t.messages[m]) == NextAttempt(s.messages[m]))
  }

  lemma SingleFrames(c: Config, s: State, t: State, d: DeliveryId)
    requires Single(c, s, d) && Untouched(s, t, d)
    ensures Single(c, t, d)
  {
    if m :| Token(s, d, m) { assert Token(t, d, m); }
  }

  lemma StepKeepsSingle(c: Config, s: State, step: Step, t: State, d: DeliveryId)
    requires ValidConfig(c) && WellFormed(s) && Single(c, s, d) && Takes(c, s, step, t) && Quiet(step)
    ensures Single(c, t, d)
  {
    if ByApi(step) { SingleByApi(c, s, step, t, d); }
    else if Moving(step) { SingleMoving(c, s, step, t, d); }
    else if Leaving(step) { SingleLeaving(c, s, step, t, d); }
    else if Writing(step) { SingleWriting(c, s, step, t, d); }
    else if Forwarding(step) { SingleForwarding(c, s, step, t, d); }
    else if step.TryDisable? { SingleTryDisable(c, s, step, t, d); }
    else { SingleCommit(c, s, step, t, d); }
  }

  lemma SingleCommit(c: Config, s: State, step: Step, t: State, d: DeliveryId)
    requires ValidConfig(c) && WellFormed(s) && Single(c, s, d) && Takes(c, s, step, t) && step.Commit?
    ensures Single(c, t, d)
  {
    CommitCommits(c, s, step, t);
    if s.messages[step.m].deliveryId == d { CommitOwn(c, s, t, step.m, d); } else { CommitOther(c, s, t, step.m, d); }
  }

  ghost predicate QuietRun(steps: seq<Step>) {
    forall i :: 0 <= i < |steps| ==> Quiet(steps[i])
  }

  lemma {:induction false} RunKeepsSingle(c: Config, s: State, steps: seq<Step>, d: DeliveryId)
    requires ValidConfig(c) && WellFormed(s) && Single(c, s, d) && ValidRun(c, s, steps) && QuietRun(steps)
    ensures Single(c, End(c, s, steps), d) && WellFormed(End(c, s, steps))
    decreases |steps|
  {
    if steps != [] {
      StepKeepsSingle(c, s, steps[0], Next(c, s, steps[0]), d);
      StepKeepsWellFormed(c, s, steps[0], Next(c, s, steps[0]));
      RunKeepsSingle(c, Next(c, s, steps[0]), steps[1..], d);
    }
  }

  /** In a quiet run every queued unfinished delivery has exactly one message that stands for it, carrying the next
      attempt; a finished one has none; and its rows are exactly 1..attemptCount, in order, at most MAX_ATTEMPTS. */
  lemma OneTokenPerDelivery(c: Config, steps: seq<Step>, d: DeliveryId)
    requires ValidConfig(c) && ValidRun(c, Init(), steps) && QuietRun(steps)
    requires d in End(c, Init(), steps).deliveries
    ensures var s := End(c, Init(), steps);
            var count := s.deliveries[d].attemptCount;
            && (d in s.queued && !Terminal(s.deliveries[d].status) ==>
                  exists m :: Token(s, d, m) && NextAttempt(s.messages[m]) == count + 1
                              && forall o :: Token(s, d, o) ==> o == m)
            && (Terminal(s.deliveries[d].status) ==> forall m :: !Token(s, d, m))
            && AttemptsOf(s.rows, d) == UpTo(count)
            && count <= c.maxAttempts
  {
    RunKeepsSingle(c, Init(), steps, d);
    var s := End(c, Init(), steps);
    if m :| Token(s, d, m) {
      assert forall o :: Token(s, d, o) ==> o == m;
    }
  }

  /** A handler is at work on its delivery: it has fetched the message and not handed on yet. */
  predicate AtWork(p: Phase) {
    Held(p) && TokenPhase(p)
  }

  /** In a quiet run no two handlers are at work on one delivery. */
  lemma HandlersNeverOverlap(c: Config, steps: seq<Step>, m: MessageId, o: MessageId)
    requires ValidConfig(c) && ValidRun(c, Init(), steps) && QuietRun(steps)
    requires var s := End(c, Init(), steps);
             m in s.messages && o in s.messages && s.messages[m].deliveryId == s.messages[o].deliveryId
             && AtWork(s.messages[m].phase) && AtWork(s.messages[o].phase)
    ensures m == o
  {
    var s := End(c, Init(), steps);
    var d := s.messages[m].deliveryId;
    RunKeepsSingle(c, Init(), steps, d);
    assert Token(s, d, m) && Token(s, d, o);
  }

  /** In a quiet run every commit writes the next row in order and either ends its delivery or leaves attempts to go:
      each handling that is not throttled takes one off MAX_ATTEMPTS - attemptCount. */
  lemma CommitAdvances(c: Config, steps: seq<Step>, m: MessageId, result: Result, at: int)
    requires ValidConfig(c) && ValidRun(c, Init(), steps) && QuietRun(steps)
    requires Enabled(c, End(c, Init(), steps), Commit(m, result, at))
    ensures var s := End(c, Init(), steps);
            var t, d := Next(c, s, Commit(m, result, at)), s.messages[m].deliveryId;
            && t.deliveries[d].attemptCount == s.messages[m].attempt == s.deliveries[d].attemptCount + 1
            && AttemptsOf(t.rows, d) == UpTo(s.deliveries[d].attemptCount) + [t.deliveries[d].attemptCount]
            && t.deliveries[d].attemptCount <= c.maxAttempts
            && (Terminal(t.deliveries[d].status)
                || (t.deliveries[d].status.Retrying? && t.deliveries[d].attemptCount < c.maxAttempts
                    && t.messages[m].phase.RetryCommitted?))
  {
    RunKeepsSingle(c, Init(), steps, End(c, Init(), steps).messages[m].deliveryId);
    SingleCommitAdvances(c, End(c, Init(), steps), m, result, at);
  }

  lemma SingleCommitAdvances(c: Config, s: State, m: MessageId, result: Result, at: int)
    requires ValidConfig(c) && WellFormed(s) && Enabled(c, s, Commit(m, result, at))
    requires Single(c, s, s.messages[m].deliveryId)
    ensures var t, d := Next(c, s, Commit(m, result, at)), s.messages[m].deliveryId;
            && t.deliveries[d].attemptCount == s.messages[m].attempt == s.deliveries[d].attemptCount + 1
            && AttemptsOf(t.rows, d) == UpTo(s.deliveries[d].attemptCount) + [t.deliveries[d].attemptCount]
            && t.deliveries[d].attemptCount <= c.maxAttempts
            && (Terminal(t.deliveries[d].status)
                || (t.deliveries[d].status.Retrying? && t.deliveries[d].attemptCount < c.maxAttempts
                    && t.messages[m].phase.RetryCommitted?))
  {
    var t := Next(c, s, Commit(m, result, at));
    CommitCommits(c, s, Commit(m, result, at), t);
    TokenAdvances(c, s, t, m, s.messages[m].deliveryId);
  }

  // Without quiet, two handlers overlap.

  const SLOW: State :=
    FIRST_PUBLISHED.(deliveries := map[0 := Delivery(0, InFlight, 0, 0, None)],
                     messages := map[0 := Message(0, 1, false, Sending)], log := [Event.WroteInFlight(0)])

  const SWEPT: State :=
    SLOW.(deliveries := map[0 := Delivery(0, Retrying, 0, 0, None)],
          messages := map[0 := Message(0, 1, false, Sending), 1 := Message(0, 1, false, Ready)], nextMessage := 2,
          sweeps := map[0 := Sweep([], Claiming)], log := [Event.WroteInFlight(0), Claimed(0, 0), SweepPublished(0, 0)])

  const OVERLAPPING: State :=
    SWEPT.(deliveries := map[0 := Delivery(0, InFlight, 0, 0, None)],
           messages := map[0 := Message(0, 1, false, Sending), 1 := Message(0, 1, false, Sending)],
           log := [Event.WroteInFlight(0), Claimed(0, 0), SweepPublished(0, 0), Event.WroteInFlight(0)])

  function Handling(m: MessageId): seq<Step> {
    [Consume(m), LoadRow(m), TakeToken(m, true), Step.WriteInFlight(m)]
  }

  lemma Prepend(c: Config, s: State, step: Step, rest: seq<Step>, end: State)
    requires Enabled(c, s, step) && ValidRun(c, Next(c, s, step), rest) && End(c, Next(c, s, step), rest) == end
    ensures ValidRun(c, s, [step] + rest) && End(c, s, [step] + rest) == end
  {
    assert ([step] + rest)[1..] == rest;
  }

  lemma FourSteps(c: Config, s: State, a: Step, b: Step, e: Step, f: Step, end: State)
    requires Enabled(c, s, a) && Enabled(c, Next(c, s, a), b) && Enabled(c, Next(c, Next(c, s, a), b), e)
    requires Enabled(c, Next(c, Next(c, Next(c, s, a), b), e), f)
    requires Next(c, Next(c, Next(c, Next(c, s, a), b), e), f) == end
    ensures ValidRun(c, s, [a, b, e, f]) && End(c, s, [a, b, e, f]) == end
  {
    var s1 := Next(c, s, a);
    var s2 := Next(c, s1, b);
    var s3 := Next(c, s2, e);
    OneStep(c, s3, f);
    Prepend(c, s2, e, [f], end);
    Prepend(c, s1, b, [e, f], end);
    Prepend(c, s, a, [b, e, f], end);
  }

  lemma ReachSlow(c: Config)
    ensures ValidRun(c, FIRST_PUBLISHED, Handling(0)) && End(c, FIRST_PUBLISHED, Handling(0)) == SLOW
  {
    FourSteps(c, FIRST_PUBLISHED, Consume(0), LoadRow(0), TakeToken(0, true), Step.WriteInFlight(0), SLOW);
  }

  const CLAIMED: State :=
    SLOW.(deliveries := map[0 := Delivery(0, Retrying, 0, 0, None)],
          sweeps := map[0 := Sweep([Stuck(0, 0)], Publishing)],
          log := [Event.WroteInFlight(0), Claimed(0, 0)])

  lemma ClaimSlow(c: Config, s: State)
    requires s == SLOW.(sweeps := map[0 := Sweep([Stuck(0, 0)], Claiming)])
    ensures Enabled(c, s, Step.Claim(0)) && Next(c, s, Step.Claim(0)) == CLAIMED
  {
  }

  lemma PublishSlow(c: Config)
    ensures ValidRun(c, CLAIMED, [SweepPublish(0)]) && End(c, CLAIMED, [SweepPublish(0)]) == SWEPT
  {
    assert [Stuck(0, 0)][1..] == [];
    OneStep(c, CLAIMED, SweepPublish(0));
  }

  lemma ReachSwept(c: Config)
    ensures var sweep := [StartSweep(0, 1, [0]), Step.Claim(0), SweepPublish(0)];
            ValidRun(c, SLOW, sweep) && End(c, SLOW, sweep) == SWEPT
  {
    var s1 := SLOW.(sweeps := map[0 := Sweep([Stuck(0, 0)], Claiming)]);
    ClaimSlow(c, s1);
    PublishSlow(c);
    Prepend(c, s1, Step.Claim(0), [SweepPublish(0)], SWEPT);
    assert Snapshot(SLOW, [0]) == [Stuck(0, 0)];
    Prepend(c, SLOW, StartSweep(0, 1, [0]), [Step.Claim(0), SweepPublish(0)], SWEPT);
  }

  lemma ReachOverlapping(c: Config)
    ensures ValidRun(c, SWEPT, Handling(1)) && End(c, SWEPT, Handling(1)) == OVERLAPPING
  {
    FourSteps(c, SWEPT, Consume(1), LoadRow(1), TakeToken(1, true), Step.WriteInFlight(1), OVERLAPPING);
  }

  predicate HasSucceeded(s: State, d: DeliveryId) {
    d in s.deliveries && s.deliveries[d].status.Succeeded?
  }

  /** The first commit ends d with a success, the second one undoes it. */
  predicate Undone(c: Config, s: State, first: Step, second: Step, d: DeliveryId) {
    && Enabled(c, s, first) && HasSucceeded(Next(c, s, first), d)
    && Enabled(c, Next(c, s, first), second) && !HasSucceeded(Next(c, Next(c, s, first), second), d)
  }

  const OK: Result := Response(200, None)
  const ERROR: Result := Response(500, None)

  /** Two handlers of one delivery are sending: a success the one commits is undone by the other's failure. */
  lemma OverlapUndoesASuccess(c: Config, s: State, first: MessageId, second: MessageId)
    requires first != second && At(s, first, Sending) && At(s, second, Sending)
    requires s.messages[first].deliveryId == s.messages[second].deliveryId
    requires s.messages[first].deliveryId in s.deliveries
    requires s.deliveries[s.messages[first].deliveryId].endpointId in s.endpoints
    ensures Undone(c, s, Commit(first, OK, 0), Commit(second, ERROR, 0), s.messages[first].deliveryId)
  {
    CommitShape(c, s, first, OK, 0);
    CommitShape(c, Next(c, s, Commit(first, OK, 0)), second, ERROR, 0);
  }

  /** One sweep over a slow handler is enough: nobody crashes or throws, the second handler commits a success, and then
      the first one's failure is written over it. A finished delivery is not finished for good. */
  lemma SweepLetsASuccessBeOverwritten(c: Config)
    ensures var sweep := [StartSweep(0, 1, [0]), Step.Claim(0), SweepPublish(0)];
            var steps := ((FIRST_PUBLISH + Handling(0)) + sweep) + Handling(1);
            && ValidRun(c, Init(), steps)
            && Undone(c, End(c, Init(), steps), Commit(1, OK, 0), Commit(0, ERROR, 0), 0)
  {
    var sweep := [StartSweep(0, 1, [0]), Step.Claim(0), SweepPublish(0)];
    FirstPublish(c);
    ReachSlow(c);
    RunsCompose(c, Init(), FIRST_PUBLISH, Handling(0));
    ReachSwept(c);
    RunsCompose(c, Init(), FIRST_PUBLISH + Handling(0), sweep);
    ReachOverlapping(c);
    RunsCompose(c, Init(), (FIRST_PUBLISH + Handling(0)) + sweep, Handling(1));
    OverlapUndoesASuccess(c, OVERLAPPING, 1, 0);
  }
}
