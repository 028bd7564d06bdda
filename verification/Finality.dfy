/** When a terminal row is final. Status writes are unconditional, so it is final exactly when no handler is past its
    read of the row and still has a write to make. Crashes, throws, lost channels and sweeps make no difference. */
module Finality {
  import opened Wrappers
  import opened RetryLadder
  import opened DeliveryModel
  import opened SingleToken

  /** The handler of m read d's row before it was finished, and will write it unless it fails first: a status, a
      commit, or SKIPPED over another outcome. */
  ghost predicate LateWriter(s: State, d: DeliveryId, m: MessageId) {
    && d in s.deliveries && m in s.messages && s.messages[m].deliveryId == d
    && var p := s.messages[m].phase;
       || p == Loaded(true) || p.Permitted? || p.Sending?
       || (p == Loaded(false) && !s.deliveries[d].status.Skipped?)
  }

  ghost predicate Settled(s: State, d: DeliveryId) {
    d in s.deliveries && Terminal(s.deliveries[d].status) && forall m :: !LateWriter(s, d, m)
  }

  /** The row of d is what it was. */
  ghost predicate RowKept(s: State, t: State, d: DeliveryId)
    requires d in s.deliveries
  {
    d in t.deliveries && t.deliveries[d] == s.deliveries[d]
  }

  // Without a late writer the row stays.

  lemma WriterKeepsSettledRow(c: Config, s: State, step: Step, t: State, d: DeliveryId)
    requires Settled(s, d) && Takes(c, s, step, t)
    ensures RowKept(s, t, d)
  {
    if step.CreateDelivery? || step.Claim? || step.Release? {
    } else if Writing(step) || step.Commit? {
      assert !LateWriter(s, d, step.m);
    } else {
      OtherStepsLeaveTables(c, s, step, t);
    }
  }

  lemma OwnStepStartsNoWriter(c: Config, s: State, step: Step, t: State, d: DeliveryId, m: MessageId)
    requires Settled(s, d) && Takes(c, s, step, t) && ActsOn(step, m) && m < s.nextMessage
    requires d in t.deliveries && t.deliveries[d] == s.deliveries[d]
    ensures !LateWriter(t, d, m)
  {
    assert !LateWriter(s, d, m);
    if Moving(step) { MovingStartsNoWriter(c, s, step, t, d, m); }
  }

  lemma MovingStartsNoWriter(c: Config, s: State, step: Step, t: State, d: DeliveryId, m: MessageId)
    requires Settled(s, d) && Takes(c, s, step, t) && Moving(step) && ActsOn(step, m)
    ensures !LateWriter(t, d, m)
  {
    assert !LateWriter(s, d, m);
  }

  lemma StepKeepsSettled(c: Config, s: State, step: Step, t: State, d: DeliveryId)
    requires WellFormed(s) && Settled(s, d) && Takes(c, s, step, t)
    ensures Settled(t, d) && RowKept(s, t, d)
  {
    WriterKeepsSettledRow(c, s, step, t, d);
    forall m ensures !LateWriter(t, d, m) { NoWriterStarts(c, s, step, t, d, m); }
  }

  lemma NoWriterStarts(c: Config, s: State, step: Step, t: State, d: DeliveryId, m: MessageId)
    requires WellFormed(s) && Settled(s, d) && Takes(c, s, step, t) && RowKept(s, t, d)
    ensures !LateWriter(t, d, m)
  {
    if m in s.messages && ActsOn(step, m) { OwnStepStartsNoWriter(c, s, step, t, d, m); }
    else { OtherStepStartsNoWriter(c, s, step, t, d, m); }
  }

  lemma OtherStepStartsNoWriter(c: Config, s: State, step: Step, t: State, d: DeliveryId, m: MessageId)
    requires WellFormed(s) && Settled(s, d) && Takes(c, s, step, t) && RowKept(s, t, d)
    requires m in s.messages ==> !ActsOn(step, m)
    ensures !LateWriter(t, d, m)
  {
    assert !LateWriter(s, d, m);
    if m in s.messages { OtherMessagesStay(c, s, step, t, m); } else { NewMessagesAreQueued(c, s, step, t, m); }
  }

  lemma {:induction false} SettledRowStays(c: Config, s: State, steps: seq<Step>, d: DeliveryId)
    requires WellFormed(s) && Settled(s, d) && ValidRun(c, s, steps)
    ensures RowKept(s, End(c, s, steps), d)
    decreases |steps|
  {
    if steps != [] {
      StepKeepsSettled(c, s, steps[0], Next(c, s, steps[0]), d);
      StepKeepsWellFormed(c, s, steps[0], Next(c, s, steps[0]));
      SettledRowStays(c, Next(c, s, steps[0]), steps[1..], d);
    }
  }

  // With one, some run changes it.

  /** A result whose commit does not leave the row as it is. */
  function Contrary(status: Status): Result {
    if status.Succeeded? then Response(404, None) else Response(200, None)
  }

  lemma CommitOverwrites(c: Config, s: State, d: DeliveryId, m: MessageId)
    requires WellFormed(s) && At(s, m, Sending) && s.messages[m].deliveryId == d && d in s.deliveries
    ensures var step := Commit(m, Contrary(s.deliveries[d].status), 0);
            Enabled(c, s, step) && !RowKept(s, Next(c, s, step), d)
  {
  }

  /** What the late writer does next when nothing stops it. */
  function Overwriting(s: State, d: DeliveryId, m: MessageId): seq<Step>
    requires m in s.messages && d in s.deliveries
  {
    match s.messages[m].phase
    case Loaded(true) => [TakeToken(m, true), Step.WriteInFlight(m)]
    case Loaded(false) => [Skip(m)]
    case Permitted => [Step.WriteInFlight(m)]
    case _ => [Commit(m, Contrary(s.deliveries[d].status), 0)]
  }

  lemma TokenThenWrite(c: Config, s: State, d: DeliveryId, m: MessageId)
    requires At(s, m, Loaded(true)) && s.messages[m].deliveryId == d && d in s.deliveries
    requires Terminal(s.deliveries[d].status)
    ensures var steps := [TakeToken(m, true), Step.WriteInFlight(m)];
            ValidRun(c, s, steps) && !RowKept(s, End(c, s, steps), d)
  {
    OneStep(c, Next(c, s, TakeToken(m, true)), Step.WriteInFlight(m));
    assert [TakeToken(m, true), Step.WriteInFlight(m)][1..] == [Step.WriteInFlight(m)];
  }

  lemma StatusOverwrites(c: Config, s: State, d: DeliveryId, m: MessageId, step: Step)
    requires LateWriter(s, d, m) && Terminal(s.deliveries[d].status)
    requires step == if At(s, m, Permitted) then Step.WriteInFlight(m) else Skip(m)
    requires At(s, m, Permitted) || At(s, m, Loaded(false))
    ensures Enabled(c, s, step) && !RowKept(s, Next(c, s, step), d)
  {
  }

  lemma LateWriterWrites(c: Config, s: State, d: DeliveryId, m: MessageId)
    requires WellFormed(s) && LateWriter(s, d, m) && Terminal(s.deliveries[d].status)
    ensures ValidRun(c, s, Overwriting(s, d, m)) && !RowKept(s, End(c, s, Overwriting(s, d, m)), d)
  {
    if At(s, m, Loaded(true)) {
      TokenThenWrite(c, s, d, m);
    } else {
      var step := Overwriting(s, d, m)[0];
      if At(s, m, Sending) { CommitOverwrites(c, s, d, m); } else { StatusOverwrites(c, s, d, m, step); }
      OneStep(c, s, step);
    }
  }

  /** A terminal row stays as it is in every continuation, crashes, throws and sweeps included, if and only if no
      handler of the delivery is past its read of the row and short of its commit. */
  lemma FinalIffNoLateWriter(c: Config, s: State, d: DeliveryId)
    requires WellFormed(s) && d in s.deliveries && Terminal(s.deliveries[d].status)
    ensures (forall steps :: ValidRun(c, s, steps) ==> RowKept(s, End(c, s, steps), d))
            <==> (forall m :: !LateWriter(s, d, m))
  {
    if m :| LateWriter(s, d, m) {
      LateWriterWrites(c, s, d, m);
    } else {
      forall steps | ValidRun(c, s, steps) ensures RowKept(s, End(c, s, steps), d) {
        SettledRowStays(c, s, steps, d);
      }
    }
  }

  /** After a run without crash, throw, lost channel or sweep there is no late writer, so a row finished by then is
      final whatever happens afterwards. */
  lemma TerminalIsFinal(c: Config, steps: seq<Step>, more: seq<Step>, d: DeliveryId)
    requires ValidConfig(c) && ValidRun(c, Init(), steps) && QuietRun(steps)
    requires var s := End(c, Init(), steps); d in s.deliveries && Terminal(s.deliveries[d].status)
    requires ValidRun(c, End(c, Init(), steps), more)
    ensures RowKept(End(c, Init(), steps), End(c, End(c, Init(), steps), more), d)
  {
    RunKeepsSingle(c, Init(), steps, d);
    var s := End(c, Init(), steps);
    forall m ensures !LateWriter(s, d, m) { assert !Token(s, d, m); }
    SettledRowStays(c, s, more, d);
  }
}
