/** The attempt rows: numbers without a gap, and a terminal status the rows justify, in every run with any
    faults, duplicates, overlapping handlers and sweeps. */
module AuditTrail {
  import opened Wrappers
  import opened RetryLadder
  import opened DeliveryModel

  datatype Kind = AnyRow | SuccessRow | LastFailureRow

  /** The last failure is one after which the ladder offers nothing. */
  predicate OfKind(c: Config, kind: Kind, row: AttemptRow) {
    match kind
    case AnyRow => true
    case SuccessRow => IsSuccess(row.result)
    case LastFailureRow =>
      !IsSuccess(row.result) && (Classify(row.result).Permanent? || row.attemptNumber >= c.maxAttempts)
  }

  /** The (delivery, attempt number) pairs of the rows of one kind. */
  ghost function Numbered(c: Config, rows: seq<AttemptRow>, kind: Kind): set<(DeliveryId, nat)> {
    if rows == [] then {}
    else
      var last := rows[|rows| - 1];
      Numbered(c, rows[..|rows| - 1], kind)
      + if OfKind(c, kind, last) then {(last.deliveryId, last.attemptNumber)} else {}
  }

  lemma {:induction false} NumberedMeansRow(c: Config, rows: seq<AttemptRow>, kind: Kind,
                                            d: DeliveryId, n: nat)
    ensures (d, n) in Numbered(c, rows, kind) <==>
            exists i :: 0 <= i < |rows| && rows[i].deliveryId == d && rows[i].attemptNumber == n
                        && OfKind(c, kind, rows[i])
  {
    if rows != [] {
      var init := rows[..|rows| - 1];
      NumberedMeansRow(c, init, kind, d, n);
      forall i | 0 <= i < |rows| - 1 ensures rows[i] == init[i] {}
    }
  }

  lemma NumberedGrows(c: Config, rows: seq<AttemptRow>, row: AttemptRow, kind: Kind)
    ensures Numbered(c, rows + [row], kind) ==
            Numbered(c, rows, kind) + if OfKind(c, kind, row) then {(row.deliveryId, row.attemptNumber)} else {}
  {
    assert (rows + [row])[..|rows|] == rows;
  }

  ghost predicate HasRow(rows: set<(DeliveryId, nat)>, d: DeliveryId, n: nat) {
    (d, n) in rows
  }

  /** Number n may follow: it is the first, or its predecessor is committed. */
  ghost predicate MayFollow(rows: set<(DeliveryId, nat)>, d: DeliveryId, n: nat) {
    n >= 1 && (n == 1 || HasRow(rows, d, n - 1))
  }

  ghost predicate CountBacked(rows: set<(DeliveryId, nat)>, d: DeliveryId, n: nat) {
    n == 0 || HasRow(rows, d, n)
  }

  ghost predicate MessageBacked(rows: set<(DeliveryId, nat)>, msg: Message) {
    && MayFollow(rows, msg.deliveryId, msg.attempt)
    && (msg.phase.RetryCommitted? ==> HasRow(rows, msg.deliveryId, msg.attempt))
  }

  ghost predicate MessagesBacked(rows: set<(DeliveryId, nat)>, messages: map<MessageId, Message>) {
    forall m :: m in messages ==> MessageBacked(rows, messages[m])
  }

  ghost predicate RowsBacked(rows: set<(DeliveryId, nat)>) {
    forall d, n :: (d, n) in rows ==> MayFollow(rows, d, n)
  }

  ghost predicate CountsBacked(rows: set<(DeliveryId, nat)>, deliveries: map<DeliveryId, Delivery>) {
    forall d :: d in deliveries ==> CountBacked(rows, d, deliveries[d].attemptCount)
  }

  ghost predicate SweepsBacked(rows: set<(DeliveryId, nat)>, sweeps: map<SweeperId, Sweep>) {
    forall k, i :: k in sweeps && 0 <= i < |sweeps[k].todo| ==>
      CountBacked(rows, sweeps[k].todo[i].id, sweeps[k].todo[i].attemptCount)
  }

  ghost predicate Justified(succeeded: set<(DeliveryId, nat)>, failed: set<(DeliveryId, nat)>,
                            deliveries: map<DeliveryId, Delivery>) {
    forall d :: d in deliveries ==>
      && (deliveries[d].status.Succeeded? ==> (d, deliveries[d].attemptCount) in succeeded)
      && (deliveries[d].status.FailedPermanently? ==> (d, deliveries[d].attemptCount) in failed)
  }

  /** Everything that refers to a committed row, for a given set of row numbers. */
  ghost predicate Backed(rows: set<(DeliveryId, nat)>, s: State) {
    MessagesBacked(rows, s.messages) && CountsBacked(rows, s.deliveries) && SweepsBacked(rows, s.sweeps)
  }

  ghost predicate Trail(c: Config, s: State) {
    && Backed(Numbered(c, s.rows, AnyRow), s)
    && RowsBacked(Numbered(c, s.rows, AnyRow))
    && Justified(Numbered(c, s.rows, SuccessRow), Numbered(c, s.rows, LastFailureRow), s.deliveries)
  }

  lemma BackedByApi(rows: set<(DeliveryId, nat)>, c: Config, s: State, step: Step, t: State)
    requires Backed(rows, s) && Takes(c, s, step, t) && ByApi(step)
    ensures Backed(rows, t)
  {
  }

  lemma BackedMoving(rows: set<(DeliveryId, nat)>, c: Config, s: State, step: Step, t: State)
    requires Backed(rows, s) && Takes(c, s, step, t) && Moving(step)
    ensures Backed(rows, t)
  {
  }

  lemma BackedLeaving(rows: set<(DeliveryId, nat)>, c: Config, s: State, step: Step, t: State)
    requires Backed(rows, s) && Takes(c, s, step, t) && Leaving(step) && !step.Throw? && !step.Crash?
    ensures Backed(rows, t)
  {
  }

  lemma BackedFailing(rows: set<(DeliveryId, nat)>, c: Config, s: State, step: Step, t: State)
    requires Backed(rows, s) && Takes(c, s, step, t) && (step.Throw? || step.Crash?)
    ensures Backed(rows, t)
  {
  }

  lemma BackedWriting(rows: set<(DeliveryId, nat)>, c: Config, s: State, step: Step, t: State)
    requires Backed(rows, s) && Takes(c, s, step, t) && (step.Skip? || step.WriteInFlight?)
    ensures Backed(rows, t)
  {
  }

  lemma BackedClaiming(rows: set<(DeliveryId, nat)>, c: Config, s: State, step: Step, t: State)
    requires Backed(rows, s) && Takes(c, s, step, t) && (step.Claim? || step.Release?)
    ensures Backed(rows, t)
  {
  }

  lemma BackedForwarding(rows: set<(DeliveryId, nat)>, c: Config, s: State, step: Step, t: State)
    requires Backed(rows, s) && Takes(c, s, step, t) && Forwarding(step)
    ensures Backed(rows, t)
  {
    if step.SweepPublish? {
      var stuck := s.sweeps[step.k].todo[0];
      assert CountBacked(rows, stuck.id, stuck.attemptCount);
    } else {
      assert MessageBacked(rows, s.messages[step.m]);
    }
  }

  lemma BackedBookkeeping(rows: set<(DeliveryId, nat)>, c: Config, s: State, step: Step, t: State)
    requires Backed(rows, s) && Takes(c, s, step, t) && Bookkeeping(step) && !step.StartSweep?
    ensures Backed(rows, t)
  {
  }

  lemma BackedStart(rows: set<(DeliveryId, nat)>, c: Config, s: State, step: Step, t: State)
    requires Backed(rows, s) && Takes(c, s, step, t) && step.StartSweep?
    ensures Backed(rows, t)
  {
  }

  lemma BackedTryDisable(rows: set<(DeliveryId, nat)>, c: Config, s: State, step: Step, t: State)
    requires Backed(rows, s) && Takes(c, s, step, t) && step.TryDisable?
    ensures Backed(rows, t)
  {
  }

  /** The transaction adds the row and whatever it backs in one go. */
  lemma BackedCommit(rows: set<(DeliveryId, nat)>, c: Config, s: State, step: Step, t: State)
    requires Backed(rows, s) && Takes(c, s, step, t) && step.Commit?
    ensures var msg := s.messages[step.m];
            Backed(rows + {(msg.deliveryId, msg.attempt)}, t)
  {
    var msg := s.messages[step.m];
    assert MessageBacked(rows, msg);
  }

  /** Only the transaction adds rows and only it writes an outcome. */
  lemma OnlyCommitWritesOutcomes(succeeded: set<(DeliveryId, nat)>, failed: set<(DeliveryId, nat)>,
                                 c: Config, s: State, step: Step, t: State)
    requires Takes(c, s, step, t) && !step.Commit? && Justified(succeeded, failed, s.deliveries)
    ensures t.rows == s.rows
    ensures Justified(succeeded, failed, t.deliveries)
  {
    if !step.CreateDelivery? && !Writing(step) { OtherStepsLeaveTables(c, s, step, t); }
  }

  /** The ladder answers no level only for a permanent failure or at the ceiling. */
  lemma NoLevelMeansOver(c: Config, r: Result, attempt: nat)
    requires ValidConfig(c) && attempt >= 1 && LevelAfter(c, r, attempt).None?
    ensures Classify(r).Permanent? || attempt >= c.maxAttempts
  {
  }

  function RowOf(s: State, step: Step): AttemptRow
    requires step.Commit? && step.m in s.messages
  {
    AttemptRow(s.messages[step.m].deliveryId, s.messages[step.m].attempt, step.result)
  }

  ghost function If(c: Config, kind: Kind, row: AttemptRow): set<(DeliveryId, nat)> {
    if OfKind(c, kind, row) then {(row.deliveryId, row.attemptNumber)} else {}
  }

  /** The outcome written is the one the row of the same transaction justifies. */
  lemma JustifiedCommit(succeeded: set<(DeliveryId, nat)>, failed: set<(DeliveryId, nat)>, c: Config, s: State,
                        step: Step, t: State)
    requires ValidConfig(c) && WellFormed(s) && Takes(c, s, step, t) && step.Commit?
    requires Justified(succeeded, failed, s.deliveries)
    ensures Justified(succeeded + If(c, SuccessRow, RowOf(s, step)), failed + If(c, LastFailureRow, RowOf(s, step)),
                      t.deliveries)
    ensures t.rows == s.rows + [RowOf(s, step)]
  {
    var msg := s.messages[step.m];
    if !IsSuccess(step.result) && LevelAfter(c, step.result, msg.attempt).None? {
      NoLevelMeansOver(c, step.result, msg.attempt);
    }
  }

  lemma TrailWithRow(c: Config, rows: seq<AttemptRow>, row: AttemptRow, t: State)
    requires t.rows == rows + [row]
    requires RowsBacked(Numbered(c, rows, AnyRow))
    requires MayFollow(Numbered(c, rows, AnyRow), row.deliveryId, row.attemptNumber)
    requires Backed(Numbered(c, rows, AnyRow) + {(row.deliveryId, row.attemptNumber)}, t)
    requires Justified(Numbered(c, rows, SuccessRow) + If(c, SuccessRow, row),
                       Numbered(c, rows, LastFailureRow) + If(c, LastFailureRow, row), t.deliveries)
    ensures Trail(c, t)
  {
    NumberedGrows(c, rows, row, AnyRow);
    NumberedGrows(c, rows, row, SuccessRow);
    NumberedGrows(c, rows, row, LastFailureRow);
  }

  lemma TrailCommit(c: Config, s: State, step: Step, t: State)
    requires ValidConfig(c) && WellFormed(s) && Trail(c, s) && Takes(c, s, step, t) && step.Commit?
    ensures Trail(c, t)
  {
    var rows := Numbered(c, s.rows, AnyRow);
    assert MessageBacked(rows, s.messages[step.m]);
    BackedCommit(rows, c, s, step, t);
    JustifiedCommit(Numbered(c, s.rows, SuccessRow), Numbered(c, s.rows, LastFailureRow), c, s, step, t);
    TrailWithRow(c, s.rows, RowOf(s, step), t);
  }

  lemma StepKeepsTrail(c: Config, s: State, step: Step, t: State)
    requires ValidConfig(c) && WellFormed(s) && Trail(c, s) && Takes(c, s, step, t)
    ensures Trail(c, t)
  {
    var rows := Numbered(c, s.rows, AnyRow);
    if step.Commit? {
      TrailCommit(c, s, step, t);
    } else {
      OnlyCommitWritesOutcomes(Numbered(c, s.rows, SuccessRow), Numbered(c, s.rows, LastFailureRow), c, s, step, t);
      if ByApi(step) { BackedByApi(rows, c, s, step, t); }
      else if Moving(step) { BackedMoving(rows, c, s, step, t); }
      else if step.Throw? || step.Crash? { BackedFailing(rows, c, s, step, t); }
      else if Leaving(step) { BackedLeaving(rows, c, s, step, t); }
      else if step.Claim? || step.Release? { BackedClaiming(rows, c, s, step, t); }
      else if Writing(step) { BackedWriting(rows, c, s, step, t); }
      else if Forwarding(step) { BackedForwarding(rows, c, s, step, t); }
      else if step.TryDisable? { BackedTryDisable(rows, c, s, step, t); }
      else if step.StartSweep? { BackedStart(rows, c, s, step, t); }
      else { BackedBookkeeping(rows, c, s, step, t); }
    }
  }

  lemma {:induction false} RunKeepsTrail(c: Config, s: State, steps: seq<Step>)
    requires ValidConfig(c) && WellFormed(s) && Trail(c, s) && ValidRun(c, s, steps)
    ensures Trail(c, End(c, s, steps))
    decreases |steps|
  {
    if steps != [] {
      StepKeepsTrail(c, s, steps[0], Next(c, s, steps[0]));
      StepKeepsWellFormed(c, s, steps[0], Next(c, s, steps[0]));
      RunKeepsTrail(c, Next(c, s, steps[0]), steps[1..]);
    }
  }

  // The theorems.

  ghost function AttemptNumbers(rows: seq<AttemptRow>, d: DeliveryId): set<nat> {
    set i | 0 <= i < |rows| && rows[i].deliveryId == d :: rows[i].attemptNumber
  }

  lemma NumberedIsAttemptNumber(c: Config, rows: seq<AttemptRow>, d: DeliveryId, n: nat)
    ensures (d, n) in Numbered(c, rows, AnyRow) <==> n in AttemptNumbers(rows, d)
  {
    NumberedMeansRow(c, rows, AnyRow, d, n);
  }

  /** A set of positive numbers closed under predecessor is an initial segment. */
  lemma {:induction false} ClosedIsSegment(numbers: set<nat>)
    requires forall n :: n in numbers ==> n >= 1 && (n == 1 || n - 1 in numbers)
    ensures forall n :: n in numbers <==> 1 <= n <= |numbers|
    decreases |numbers|
  {
    if numbers != {} {
      var top := Greatest(numbers);
      var rest := numbers - {top};
      assert forall n :: n in numbers <==> n in rest || n == top;
      forall n | n in rest ensures n >= 1 && (n == 1 || n - 1 in rest) {
        assert n in numbers && n <= top;
      }
      ClosedIsSegment(rest);
      assert top == 1 || top - 1 in rest;
      assert |rest| >= 1 ==> |rest| in rest;
    }
  }

  lemma {:induction false} Greatest(numbers: set<nat>) returns (top: nat)
    requires numbers != {}
    ensures top in numbers && forall n :: n in numbers ==> n <= top
    decreases |numbers|
  {
    top :| top in numbers;
    if numbers != {top} {
      var rest := numbers - {top};
      var other := Greatest(rest);
      assert forall n :: n in numbers ==> n == top || n in rest;
      if other > top { top := other; }
    }
  }

  /** In every run, with crashes, throws, duplicates, reordering and sweeps: the attempt numbers of a delivery are
      exactly 1..n, and its attemptCount is 0 or one of them. */
  lemma AttemptNumbersHaveNoGap(c: Config, steps: seq<Step>, d: DeliveryId)
    requires ValidConfig(c) && ValidRun(c, Init(), steps) && d in End(c, Init(), steps).deliveries
    ensures var s := End(c, Init(), steps);
            var numbers := AttemptNumbers(s.rows, d);
            && (forall n :: n in numbers <==> 1 <= n <= |numbers|)
            && 0 <= s.deliveries[d].attemptCount <= |numbers|
  {
    RunKeepsTrail(c, Init(), steps);
    var s := End(c, Init(), steps);
    var numbers := AttemptNumbers(s.rows, d);
    forall n: nat ensures (d, n) in Numbered(c, s.rows, AnyRow) <==> n in numbers {
      NumberedIsAttemptNumber(c, s.rows, d, n);
    }
    forall n | n in numbers ensures n >= 1 && (n == 1 || n - 1 in numbers) {
      assert MayFollow(Numbered(c, s.rows, AnyRow), d, n);
    }
    ClosedIsSegment(numbers);
    assert CountBacked(Numbered(c, s.rows, AnyRow), d, s.deliveries[d].attemptCount);
  }

  /** Its attempt is the first, or the attempt before it has a committed row. */
  ghost predicate FollowsCommittedRow(s: State, msg: Message) {
    && msg.attempt >= 1
    && (msg.attempt > 1 ==> msg.attempt - 1 in AttemptNumbers(s.rows, msg.deliveryId))
  }

  lemma BackedMessageFollows(c: Config, s: State, m: MessageId)
    requires Trail(c, s) && m in s.messages
    ensures FollowsCommittedRow(s, s.messages[m])
  {
    var msg := s.messages[m];
    assert MessageBacked(Numbered(c, s.rows, AnyRow), msg);
    if msg.attempt > 1 { NumberedIsAttemptNumber(c, s.rows, msg.deliveryId, msg.attempt - 1); }
  }

  /** In every run a message for attempt k > 1 exists only once attempt k - 1 is committed. */
  lemma MessageFollowsCommittedRow(c: Config, steps: seq<Step>, m: MessageId)
    requires ValidConfig(c) && ValidRun(c, Init(), steps) && m in End(c, Init(), steps).messages
    ensures FollowsCommittedRow(End(c, Init(), steps), End(c, Init(), steps).messages[m])
  {
    RunKeepsTrail(c, Init(), steps);
    BackedMessageFollows(c, End(c, Init(), steps), m);
  }

  /** In every run, overlapping handlers included: SUCCEEDED has a 2xx row numbered attemptCount, and
      FAILED_PERMANENTLY a failed one that was permanent or at the attempt ceiling. */
  lemma TerminalStatusIsJustified(c: Config, steps: seq<Step>, d: DeliveryId)
    requires ValidConfig(c) && ValidRun(c, Init(), steps) && d in End(c, Init(), steps).deliveries
    ensures var s := End(c, Init(), steps);
            var delivery := s.deliveries[d];
            && (delivery.status.Succeeded? ==>
                  exists row :: row in s.rows && row.deliveryId == d && row.attemptNumber == delivery.attemptCount
                                && IsSuccess(row.result))
            && (delivery.status.FailedPermanently? ==>
                  exists row :: row in s.rows && row.deliveryId == d && row.attemptNumber == delivery.attemptCount
                                && !IsSuccess(row.result)
                                && (Classify(row.result).Permanent? || delivery.attemptCount >= c.maxAttempts))
  {
    RunKeepsTrail(c, Init(), steps);
    var s := End(c, Init(), steps);
    NumberedMeansRow(c, s.rows, SuccessRow, d, s.deliveries[d].attemptCount);
    NumberedMeansRow(c, s.rows, LastFailureRow, d, s.deliveries[d].attemptCount);
  }
}
