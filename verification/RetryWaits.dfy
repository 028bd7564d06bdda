/** A message sent to a delay queue is not handled before that queue gives it back. */
module RetryWaits {
  import opened Wrappers
  import opened RetryLadder
  import opened DeliveryModel

  /** m is where it was put: in the TTL queue of a level, or in the throttle queue. */
  predicate WaitsIn(s: State, m: MessageId, p: Phase) {
    At(s, m, p) && (p.Delayed? || p.Parked?)
  }

  predicate HasNoHandler(s: State, m: MessageId) {
    m in s.messages && !Held(s.messages[m].phase)
  }

  lemma OnlyExpiryMovesIt(c: Config, s: State, step: Step, t: State, m: MessageId, p: Phase)
    requires Takes(c, s, step, t) && WaitsIn(s, m, p) && ActsOn(step, m)
    ensures step == Expire(m)
  {
  }

  /** Until its expiry a message stays in its queue, whatever else runs. */
  lemma {:induction false} StaysUntilExpiry(c: Config, s: State, steps: seq<Step>, m: MessageId, p: Phase)
    requires WellFormed(s) && ValidRun(c, s, steps) && WaitsIn(s, m, p) && Expire(m) !in steps
    ensures WaitsIn(End(c, s, steps), m, p)
    decreases |steps|
  {
    if steps != [] {
      var t := Next(c, s, steps[0]);
      if ActsOn(steps[0], m) { OnlyExpiryMovesIt(c, s, steps[0], t, m, p); }
      OtherMessagesStay(c, s, steps[0], t, m);
      StepKeepsWellFormed(c, s, steps[0], t);
      StaysUntilExpiry(c, t, steps[1..], m, p);
    }
  }

  lemma OnlyConsumptionHandsItOver(c: Config, s: State, step: Step, t: State, m: MessageId)
    requires Takes(c, s, step, t) && HasNoHandler(s, m) && ActsOn(step, m)
    ensures step == Consume(m) || (step == Expire(m) && At(t, m, Ready))
  {
  }

  /** Until its consumption from the delivery queue a message has no handler. */
  lemma {:induction false} QueuedUntilConsumed(c: Config, s: State, steps: seq<Step>, m: MessageId)
    requires WellFormed(s) && ValidRun(c, s, steps) && HasNoHandler(s, m) && Consume(m) !in steps
    ensures HasNoHandler(End(c, s, steps), m)
    decreases |steps|
  {
    if steps != [] {
      var t := Next(c, s, steps[0]);
      if ActsOn(steps[0], m) {
        OnlyConsumptionHandsItOver(c, s, steps[0], t, m);
      } else {
        OtherMessagesStay(c, s, steps[0], t, m);
      }
      StepKeepsWellFormed(c, s, steps[0], t);
      QueuedUntilConsumed(c, t, steps[1..], m);
    }
  }

  lemma {:induction false} HandlerStays(c: Config, s: State, steps: seq<Step>, m: MessageId)
    requires WellFormed(s) && ValidRun(c, s, steps) && m in s.messages
    requires forall step :: step in steps ==> !ActsOn(step, m)
    ensures WellFormed(End(c, s, steps))
    ensures m in End(c, s, steps).messages && End(c, s, steps).messages[m] == s.messages[m]
    decreases |steps|
  {
    if steps != [] {
      OtherMessagesStay(c, s, steps[0], Next(c, s, steps[0]), m);
      StepKeepsWellFormed(c, s, steps[0], Next(c, s, steps[0]));
      HandlerStays(c, Next(c, s, steps[0]), steps[1..], m);
    }
  }

  /** The message that a retry's commit is to be followed by. */
  function NextMessage(msg: Message, level: Level): Message {
    Message(msg.deliveryId, msg.attempt + 1, false, Delayed(level))
  }

  /** A handler commits a failure that is worth another attempt, and later publishes that attempt, whatever runs in
      between. What it publishes carries the next attempt number and waits in the queue of the level promised for this
      attempt and this response; and there it stays until that queue's expiry gives it back, and no handler has it until
      it is consumed after that. */
  lemma RetriesWaitTheirLevel(c: Config, s: State, m: MessageId, r: Result, at: int, between: seq<Step>,
                              after: seq<Step>)
    requires ValidConfig(c) && WellFormed(s) && Enabled(c, s, Commit(m, r, at))
    requires !IsSuccess(r) && WorthRetrying(r) && s.messages[m].attempt < c.maxAttempts
    requires ValidRun(c, Next(c, s, Commit(m, r, at)), between)
    requires forall step :: step in between ==> !ActsOn(step, m)
    requires var u := End(c, Next(c, s, Commit(m, r, at)), between);
             Enabled(c, u, PublishRetry(m)) && ValidRun(c, Next(c, u, PublishRetry(m)), after)
    ensures var u := End(c, Next(c, s, Commit(m, r, at)), between);
            var t, n := Next(c, u, PublishRetry(m)), u.nextMessage;
            exists level ::
              && Promised(level, s.messages[m].attempt, c.schedule, if r.Response? then r.retryAfter else None)
              && n !in u.messages && n in t.messages && t.messages[n] == NextMessage(s.messages[m], level)
              && (Expire(n) !in after ==> WaitsIn(End(c, t, after), n, Delayed(level)))
              && (Consume(n) !in after ==> HasNoHandler(End(c, t, after), n))
  {
    var committed := Next(c, s, Commit(m, r, at));
    var attempt := s.messages[m].attempt;
    LevelIsPromised(c, r, attempt);
    CommitShape(c, s, m, r, at);
    var level := LevelAfter(c, r, attempt).value;
    StepKeepsWellFormed(c, s, Commit(m, r, at), committed);
    HandlerStays(c, committed, between, m);
    Published(c, End(c, committed, between), m, level, after);
  }

  lemma Published(c: Config, u: State, m: MessageId, level: Level, after: seq<Step>)
    requires WellFormed(u) && At(u, m, RetryCommitted(level)) && Enabled(c, u, PublishRetry(m))
    requires ValidRun(c, Next(c, u, PublishRetry(m)), after)
    ensures var t, n := Next(c, u, PublishRetry(m)), u.nextMessage;
            && n !in u.messages && n in t.messages
            && t.messages[n] == NextMessage(u.messages[m].(phase := Sending), level)
            && (Expire(n) !in after ==> WaitsIn(End(c, t, after), n, Delayed(level)))
            && (Consume(n) !in after ==> HasNoHandler(End(c, t, after), n))
  {
    var t, n := Next(c, u, PublishRetry(m)), u.nextMessage;
    StepKeepsWellFormed(c, u, PublishRetry(m), t);
    if Expire(n) !in after { StaysUntilExpiry(c, t, after, n, Delayed(level)); }
    if Consume(n) !in after { QueuedUntilConsumed(c, t, after, n); }
  }
}
