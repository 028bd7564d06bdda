/** One delay queue: FIFO, no consumer, messages expire from the head only, and the time a message may
    wait is the smaller of its own expiration and the queue's TTL. */
module DelayQueue {
  import opened Wrappers
  import RetryLadder

  datatype Waiting = Waiting(id: nat, enteredAt: int, expiration: int)
  datatype Left = Left(entry: Waiting, leftAt: int)

  datatype State = State(ttl: nat, now: int, entered: seq<Waiting>, left: seq<Left>) {
    /** What still waits: the entries not yet gone, oldest first. */
    function Queue(): seq<Waiting>
      requires |left| <= |entered|
    {
      entered[|left|..]
    }
  }

  function Effective(ttl: nat, w: Waiting): int {
    if w.expiration < ttl then w.expiration else ttl
  }

  predicate HeadExpired(s: State) {
    && |s.left| < |s.entered|
    && s.now >= s.entered[|s.left|].enteredAt + Effective(s.ttl, s.entered[|s.left|])
  }

  datatype Step = Publish(expiration: nat) | Tick | Deliver

  /** The broker drops an expired head at once, so time does not pass while one is there. */
  predicate Enabled(s: State, step: Step) {
    && |s.left| <= |s.entered|
    && match step
       case Publish(_) => true
       case Tick => !HeadExpired(s)
       case Deliver => HeadExpired(s)
  }

  /** The state after the step; one that is not enabled does nothing. */
  function Next(s: State, step: Step): State {
    if !Enabled(s, step) then s
    else
      match step
      case Publish(x) => s.(entered := s.entered + [Waiting(|s.entered|, s.now, x)])
      case Tick => s.(now := s.now + 1)
      case Deliver => s.(left := s.left + [Left(s.entered[|s.left|], s.now)])
  }

  ghost predicate ValidRun(s: State, steps: seq<Step>)
    decreases |steps|
  {
    steps == [] || (Enabled(s, steps[0]) && ValidRun(Next(s, steps[0]), steps[1..]))
  }

  ghost function End(s: State, steps: seq<Step>): State
    decreases |steps|
  {
    if steps == [] then s else End(Next(s, steps[0]), steps[1..])
  }

  /** First in, first out; never before its own time; never later than the queue's TTL after entry. */
  ghost predicate Punctual(s: State) {
    && |s.left| <= |s.entered|
    && (forall i :: 0 <= i < |s.left| ==>
          && s.left[i].entry == s.entered[i]
          && s.left[i].leftAt >= s.entered[i].enteredAt + Effective(s.ttl, s.entered[i])
          && s.left[i].leftAt <= s.entered[i].enteredAt + s.ttl)
    && (forall i, j :: 0 <= i < j < |s.left| ==> s.left[i].leftAt <= s.left[j].leftAt)
  }

  ghost predicate Inv(s: State) {
    && Punctual(s)
    && (forall i, j :: 0 <= i < j < |s.entered| ==> s.entered[i].enteredAt <= s.entered[j].enteredAt)
    && (forall i :: 0 <= i < |s.entered| ==> s.entered[i].enteredAt <= s.now)
    && (forall i :: 0 <= i < |s.left| ==> s.left[i].leftAt <= s.now)
    && (forall i :: |s.left| <= i < |s.entered| ==> s.now <= s.entered[i].enteredAt + s.ttl)
  }

  lemma PublishKeepsInv(s: State, step: Step)
    requires Inv(s) && Enabled(s, step) && step.Publish?
    ensures Inv(Next(s, step))
  {
  }

  lemma TickKeepsInv(s: State, step: Step)
    requires Inv(s) && Enabled(s, step) && step.Tick?
    ensures Inv(Next(s, step))
  {
    if |s.left| < |s.entered| {
      var head := s.entered[|s.left|];
      assert s.now < head.enteredAt + s.ttl;
      assert forall i :: |s.left| < i < |s.entered| ==> head.enteredAt <= s.entered[i].enteredAt;
    }
  }

  lemma DeliverKeepsInv(s: State, step: Step)
    requires Inv(s) && Enabled(s, step) && step.Deliver?
    ensures Inv(Next(s, step))
  {
  }

  lemma StepKeepsInv(s: State, step: Step)
    requires Inv(s) && Enabled(s, step)
    ensures Inv(Next(s, step))
  {
    match step
    case Publish(_) => PublishKeepsInv(s, step);
    case Tick => TickKeepsInv(s, step);
    case Deliver => DeliverKeepsInv(s, step);
  }

  lemma {:induction false} RunKeepsInv(s: State, steps: seq<Step>)
    requires Inv(s) && ValidRun(s, steps)
    ensures Inv(End(s, steps)) && End(s, steps).ttl == s.ttl
    decreases |steps|
  {
    if steps != [] {
      StepKeepsInv(s, steps[0]);
      RunKeepsInv(Next(s, steps[0]), steps[1..]);
    }
  }

  /** Every publish sequence: order kept, own expiration respected, head blocking bounded by the TTL for the messages
      that have left and for those that wait. */
  lemma HeadBlockingIsBounded(ttl: nat, now: int, steps: seq<Step>)
    requires ValidRun(State(ttl, now, [], []), steps)
    ensures Punctual(End(State(ttl, now, [], []), steps))
    ensures End(State(ttl, now, [], []), steps).ttl == ttl
    ensures var s := End(State(ttl, now, [], []), steps);
            forall w :: w in s.Queue() ==> w.enteredAt <= s.now <= w.enteredAt + ttl
  {
    RunKeepsInv(State(ttl, now, [], []), steps);
  }

  function DueAt(s: State, i: nat): int
    requires i < |s.entered|
  {
    s.entered[i].enteredAt + Effective(s.ttl, s.entered[i])
  }

  ghost predicate LeftInTime(s: State, i: nat)
    requires i < |s.left| <= |s.entered|
  {
    s.left[i].leftAt == DueAt(s, i) || (i > 0 && s.left[i].leftAt == s.left[i - 1].leftAt)
  }

  /** A message left when it was due, or together with the one before it; and time has not passed the head by. */
  ghost predicate Prompt(s: State) {
    && |s.left| <= |s.entered|
    && (forall i: nat :: i < |s.left| ==> LeftInTime(s, i))
    && (|s.left| < |s.entered| ==>
          s.now <= DueAt(s, |s.left|) || (s.left != [] && s.now == s.left[|s.left| - 1].leftAt))
  }

  lemma {:induction false} RunKeepsPrompt(s: State, steps: seq<Step>)
    requires Prompt(s) && ValidRun(s, steps)
    ensures Prompt(End(s, steps))
    decreases |steps|
  {
    if steps != [] {
      StepKeepsPrompt(s, steps[0]);
      RunKeepsPrompt(Next(s, steps[0]), steps[1..]);
    }
  }

  lemma StepKeepsPrompt(s: State, step: Step)
    requires Prompt(s) && Enabled(s, step)
    ensures Prompt(Next(s, step))
  {
    var t := Next(s, step);
    forall i: nat | i < |t.left| ensures LeftInTime(t, i) {
      if i < |s.left| { assert LeftInTime(s, i); }
    }
    if step.Publish? && |s.left| == |s.entered| { assert DueAt(t, |s.left|) >= s.now; }
  }

  /** The time is the earlier of the two at which an entry may go: by its own expiration and by the queue's TTL. */
  ghost predicate IsDue(ttl: nat, w: Waiting, time: int) {
    && time <= w.enteredAt + w.expiration && time <= w.enteredAt + ttl
    && (time == w.enteredAt + w.expiration || time == w.enteredAt + ttl)
  }

  lemma {:induction false} PromptMeansLatest(s: State, i: nat)
    requires Prompt(s) && Punctual(s) && i < |s.left|
    ensures exists j: nat :: j <= i && IsDue(s.ttl, s.entered[j], s.left[i].leftAt)
    decreases i
  {
    assert LeftInTime(s, i);
    if s.left[i].leftAt == DueAt(s, i) {
      assert IsDue(s.ttl, s.entered[i], s.left[i].leftAt);
    } else {
      PromptMeansLatest(s, i - 1);
      var j: nat :| j <= i - 1 && IsDue(s.ttl, s.entered[j], s.left[i - 1].leftAt);
      assert IsDue(s.ttl, s.entered[j], s.left[i].leftAt);
    }
  }

  /** Every message leaves at exactly the latest of the times at which it and those before it are due: never before, and
      delayed by nothing but the messages ahead. */
  lemma LeavesWithTheLatestAhead(ttl: nat, now: int, steps: seq<Step>, i: nat)
    requires ValidRun(State(ttl, now, [], []), steps) && i < |End(State(ttl, now, [], []), steps).left|
    ensures var s := End(State(ttl, now, [], []), steps);
            && i < |s.entered|
            && (exists j: nat :: j <= i && IsDue(ttl, s.entered[j], s.left[i].leftAt))
            && forall j: nat, time :: j <= i && IsDue(ttl, s.entered[j], time) ==> time <= s.left[i].leftAt
  {
    var s := End(State(ttl, now, [], []), steps);
    HeadBlockingIsBounded(ttl, now, steps);
    RunKeepsPrompt(State(ttl, now, [], []), steps);
    PromptMeansLatest(s, i);
    forall j: nat, time | j <= i && IsDue(ttl, s.entered[j], time) ensures time <= s.left[i].leftAt {
      assert s.left[j].leftAt >= DueAt(s, j);
    }
  }

  /** A message sent to a retry queue of the real schedule carries a jittered expiration, so it comes back
      between nine tenths of the level's delay and the whole of it. */
  lemma RetryComesBackInItsBand(level: RetryLadder.Level, random: real, now: int, steps: seq<Step>, i: nat)
    requires level in RetryLadder.RETRY_SCHEDULE && 0.0 <= random <= 1.0
    requires ValidRun(State(level.delayMs, now, [], []), steps)
    requires var s := End(State(level.delayMs, now, [], []), steps);
             i < |s.left| && s.left[i].entry.expiration == RetryLadder.ApplyJitter(level.delayMs, random)
    ensures var done := End(State(level.delayMs, now, [], []), steps).left[i];
            9 * level.delayMs <= 10 * (done.leftAt - done.entry.enteredAt) <= 10 * level.delayMs
  {
    HeadBlockingIsBounded(level.delayMs, now, steps);
    RetryLadder.JitterBand(level.delayMs, random);
    assert level.delayMs % 10 == 0;
  }
}
