/** The retry ladder: failure classification, level selection and jitter. */
module RetryLadder {
  import opened Wrappers

  datatype Level = Level(name: string, delayMs: nat)

  type Schedule = seq<Level>

  datatype Failure = Retryable | Permanent

  const RETRY_SCHEDULE: Schedule := [
    Level("1m", 60_000),
    Level("5m", 300_000),
    Level("30m", 1_800_000),
    Level("2h", 7_200_000),
    Level("6h", 21_600_000)
  ]

  const MAX_SUPPORTED_ATTEMPTS: nat := |RETRY_SCHEDULE| + 1

  /** The delay a level's name gives, in minutes or hours. */
  function NamedDelay(name: string): nat
    requires |name| == 2 && '0' <= name[0] <= '9'
  {
    (name[0] as int - '0' as int) * if name[1] == 'h' then 60 * 60_000 else 60_000
  }

  /** Five levels, named after their delays and ever longer: six attempts in all. */
  lemma ScheduleIsAsNamed()
    ensures Increasing(RETRY_SCHEDULE) && |RETRY_SCHEDULE| == 5 && MAX_SUPPORTED_ATTEMPTS == 6
    ensures forall i :: 0 <= i < |RETRY_SCHEDULE| ==>
              var name := ["1m", "5m", "30m", "2h", "6h"][i];
              && RETRY_SCHEDULE[i].name == name
              && RETRY_SCHEDULE[i].delayMs == if |name| == 2 then NamedDelay(name) else 30 * 60_000
  {
    assert NamedDelay("1m") == 60_000 && NamedDelay("5m") == 300_000;
    assert NamedDelay("2h") == 7_200_000 && NamedDelay("6h") == 21_600_000;
  }

  ghost predicate Increasing(schedule: Schedule) {
    forall i, j :: 0 <= i < j < |schedule| ==> schedule[i].delayMs < schedule[j].delayMs
  }

  /** A missing status is a transport failure. */
  function ClassifyFailure(status: Option<int>): Failure {
    if status.None? then Retryable
    else if status.value >= 500 then Retryable
    else if status.value in {408, 425, 429} then Retryable
    else Permanent
  }

  predicate ShouldRetry(classification: Failure, attempt: int, maxAttempts: int) {
    classification.Retryable? && attempt < maxAttempts
  }

  function FirstCovering(schedule: Schedule, requestedMs: real): Option<Level> {
    if schedule == [] then None
    else if schedule[0].delayMs as real >= requestedMs then Some(schedule[0])
    else FirstCovering(schedule[1..], requestedMs)
  }

  function SelectRetryLevel(attempt: int, maxAttempts: int, schedule: Schedule,
                            retryAfter: Option<real>): Option<Level> {
    if attempt >= maxAttempts then None
    else if !(0 <= attempt - 1 < |schedule|) then None
    else
      var scheduled := schedule[attempt - 1];
      if retryAfter.None? || retryAfter.value * 1000.0 <= scheduled.delayMs as real then Some(scheduled)
      else
        var larger := FirstCovering(schedule, retryAfter.value * 1000.0);
        if larger.Some? then larger else Some(schedule[|schedule| - 1])
  }

  /** The level the worker walks to after a failure, or None when the delivery is over. */
  function NextRetryLevel(classification: Failure, attempt: int, maxAttempts: int, schedule: Schedule,
                          retryAfter: Option<real>): Option<Level> {
    if !ShouldRetry(classification, attempt, maxAttempts) then None
    else SelectRetryLevel(attempt, maxAttempts, schedule, retryAfter)
  }

  /** A level that waits at least the scheduled delay and at least what the receiver asked for. */
  ghost predicate Covers(level: Level, scheduled: Level, retryAfter: Option<real>) {
    && level.delayMs >= scheduled.delayMs
    && (retryAfter.Some? ==> level.delayMs as real >= retryAfter.value * 1000.0)
  }

  /** The level the ladder promises after an attempt: the least that covers the scheduled delay and what the receiver
      asked for, or the last one when none does. */
  ghost predicate Promised(level: Level, attempt: int, schedule: Schedule, retryAfter: Option<real>) {
    && 1 <= attempt <= |schedule| && level in schedule
    && (forall other :: other in schedule && Covers(other, schedule[attempt - 1], retryAfter) ==>
          level.delayMs <= other.delayMs)
    && (Covers(level, schedule[attempt - 1], retryAfter)
        || (level == schedule[|schedule| - 1]
            && forall other :: other in schedule ==> !Covers(other, schedule[attempt - 1], retryAfter)))
  }

  lemma {:induction false} FirstCoveringIsFirst(schedule: Schedule, requestedMs: real)
    ensures FirstCovering(schedule, requestedMs).None? <==>
            (forall level :: level in schedule ==> (level.delayMs as real) < requestedMs)
    ensures var r := FirstCovering(schedule, requestedMs);
            r.Some? ==> exists k :: 0 <= k < |schedule| && r.value == schedule[k]
                                    && r.value.delayMs as real >= requestedMs
                                    && forall j :: 0 <= j < k ==> (schedule[j].delayMs as real) < requestedMs
  {
    if schedule != [] {
      if schedule[0].delayMs as real >= requestedMs {
        assert schedule[0] in schedule;
      } else {
        FirstCoveringIsFirst(schedule[1..], requestedMs);
        assert forall level :: level in schedule <==> level == schedule[0] || level in schedule[1..];
        var r := FirstCovering(schedule[1..], requestedMs);
        if r.Some? {
          var k :| 0 <= k < |schedule[1..]| && r.value == schedule[1..][k] && r.value.delayMs as real >= requestedMs
                   && forall j :: 0 <= j < k ==> (schedule[1..][j].delayMs as real) < requestedMs;
          assert r.value == schedule[k + 1];
          forall j | 0 <= j < k + 1 ensures (schedule[j].delayMs as real) < requestedMs {
            if j > 0 { assert schedule[j] == schedule[1..][j - 1]; }
          }
        }
      }
    }
  }

  /** On a validated configuration the ladder ends exactly at the attempt ceiling, and otherwise
      answers the least level that covers both delays, or the last level when none does. */
  lemma LadderSelection(attempt: int, maxAttempts: int, schedule: Schedule, retryAfter: Option<real>)
    requires Increasing(schedule) && 1 <= attempt && maxAttempts <= |schedule| + 1
    ensures var r := SelectRetryLevel(attempt, maxAttempts, schedule, retryAfter);
            && (r.None? <==> attempt >= maxAttempts)
            && (r.Some? ==> Promised(r.value, attempt, schedule, retryAfter))
  {
    var r := SelectRetryLevel(attempt, maxAttempts, schedule, retryAfter);
    if r.Some? {
      var scheduled := schedule[attempt - 1];
      if retryAfter.Some? && retryAfter.value * 1000.0 > scheduled.delayMs as real {
        FirstCoveringIsFirst(schedule, retryAfter.value * 1000.0);
        forall level | level in schedule && Covers(level, scheduled, retryAfter)
          ensures r.value.delayMs <= level.delayMs
        {
          var j :| 0 <= j < |schedule| && schedule[j] == level;
        }
      }
    }
  }

  /** The levels waited through from `attempt` on, when no receiver sends Retry-After. */
  function Walk(attempt: int, maxAttempts: int, schedule: Schedule): Schedule
    decreases maxAttempts - attempt
  {
    var level := SelectRetryLevel(attempt, maxAttempts, schedule, None);
    if level.None? then [] else [level.value] + Walk(attempt + 1, maxAttempts, schedule)
  }

  /** Without Retry-After the attempts visit the schedule in order, one level each, up to the ceiling. */
  lemma {:induction false} WalkIsSchedule(attempt: int, maxAttempts: int, schedule: Schedule)
    requires 1 <= attempt <= maxAttempts <= |schedule| + 1
    ensures Walk(attempt, maxAttempts, schedule) == schedule[attempt - 1..maxAttempts - 1]
    decreases maxAttempts - attempt
  {
    if attempt < maxAttempts {
      WalkIsSchedule(attempt + 1, maxAttempts, schedule);
      assert schedule[attempt - 1..maxAttempts - 1] == [schedule[attempt - 1]] + schedule[attempt..maxAttempts - 1];
    }
  }

  /** Rounds half up, as Math.round does. */
  function Round(x: real): int {
    (x + 0.5).Floor
  }

  function ApplyJitter(delayMs: nat, random: real): int {
    Round(delayMs as real * (1.0 - 0.1 * random))
  }

  /** Jitter only shortens a delay, and by no more than a tenth once rounding is accounted for. */
  lemma JitterBand(delayMs: nat, random: real)
    requires 0.0 <= random <= 1.0
    ensures ApplyJitter(delayMs, random) <= delayMs
    ensures 10 * ApplyJitter(delayMs, random) >= 9 * delayMs - 5
    ensures delayMs % 10 == 0 ==> 10 * ApplyJitter(delayMs, random) >= 9 * delayMs
  {
    var d := delayMs as real;
    var cut := d * random;
    assert 0.0 <= cut <= d;
    assert d * (1.0 - 0.1 * random) == d - 0.1 * cut;
    var r := ApplyJitter(delayMs, random);
    assert r as real <= d - 0.1 * cut + 0.5;
    assert r as real > d - 0.1 * cut - 0.5;
    if delayMs % 10 == 0 {
      var q := delayMs / 10;
      assert delayMs == 10 * q;
      assert r as real > 9.0 * (q as real) - 0.5;
    }
  }

  /** Just short of 1, a random number that takes off the whole tenth. */
  function NearlyOne(delayMs: nat): (random: real)
    ensures 0.0 <= random < 1.0
  {
    1.0 - 1.0 / (delayMs as real + 1.0)
  }

  lemma WholeTenth(delayMs: nat)
    requires delayMs % 10 == 0
    ensures 10 * ApplyJitter(delayMs, NearlyOne(delayMs)) == 9 * delayMs
  {
    var d, r := delayMs as real, NearlyOne(delayMs);
    SmallShare(d, 1.0 - r);
    Spread(d, r);
    JitterTakesTenth(delayMs, r, d * (1.0 - r));
  }

  lemma JitterTakesTenth(delayMs: nat, r: real, rest: real)
    requires delayMs as real * (1.0 - 0.1 * r) == 0.9 * (delayMs as real) + 0.1 * rest
    requires delayMs % 10 == 0 && 0.0 <= rest < 1.0
    ensures 10 * ApplyJitter(delayMs, r) == 9 * delayMs
  {
    var tenth := delayMs / 10;
    assert delayMs == 10 * tenth;
    var jittered, exact := ApplyJitter(delayMs, r), 0.9 * (delayMs as real) + 0.1 * rest;
    assert jittered as real <= exact + 0.5 && jittered as real > exact - 0.5;
    assert 9.0 * (tenth as real) - 0.5 < jittered as real < 9.0 * (tenth as real) + 1.0;
  }

  lemma Spread(d: real, r: real)
    ensures d * (1.0 - 0.1 * r) == 0.9 * d + 0.1 * (d * (1.0 - r))
  {
  }

  lemma SmallShare(d: real, share: real)
    requires d >= 0.0 && share == 1.0 / (d + 1.0)
    ensures 0.0 <= d * share < 1.0
  {
    assert share > 0.0 && d * share + share == (d + 1.0) * share == 1.0;
  }

  /** A wait the receiver asked for survives every jitter exactly if it is at most nine tenths of the level's delay. */
  lemma JitterKeepsWaitIff(delayMs: nat, requestedMs: real)
    requires delayMs % 10 == 0
    ensures (forall random: real :: 0.0 <= random < 1.0 ==> ApplyJitter(delayMs, random) as real >= requestedMs)
            <==> requestedMs <= 0.9 * delayMs as real
  {
    WholeTenth(delayMs);
    forall random: real | 0.0 <= random < 1.0 ensures ApplyJitter(delayMs, random) as real >= 0.9 * delayMs as real {
      JitterBand(delayMs, random);
    }
    if forall random: real :: 0.0 <= random < 1.0 ==> ApplyJitter(delayMs, random) as real >= requestedMs {
      assert ApplyJitter(delayMs, NearlyOne(delayMs)) as real >= requestedMs;
    }
  }

  /** However the level's delay is jittered, the wait is at least what was asked for. */
  ghost predicate KeptByEveryJitter(level: Level, requestedMs: real) {
    forall random: real :: 0.0 <= random < 1.0 ==> ApplyJitter(level.delayMs, random) as real >= requestedMs
  }

  /** The wait is above the delay of the level before j and at most nine tenths of level j's own. */
  predicate WellBelow(schedule: Schedule, j: nat, retryAfter: real)
    requires 1 <= j < |schedule|
  {
    schedule[j - 1].delayMs as real < retryAfter * 1000.0 <= 0.9 * schedule[j].delayMs as real
  }

  /** A wait longer than the scheduled delay falls between two neighbours of the schedule, or above all of it. */
  lemma LongWaitIsSomewhere(attempt: int, schedule: Schedule, requestedMs: real) returns (j: nat)
    requires Increasing(schedule) && 1 <= attempt <= |schedule| && requestedMs > schedule[attempt - 1].delayMs as real
    ensures attempt <= j <= |schedule| && schedule[j - 1].delayMs as real < requestedMs
    ensures if j == |schedule| then FirstCovering(schedule, requestedMs).None?
            else FirstCovering(schedule, requestedMs) == Some(schedule[j]) && requestedMs <= schedule[j].delayMs as real
  {
    FirstCoveringIsFirst(schedule, requestedMs);
    var larger := FirstCovering(schedule, requestedMs);
    if larger.Some? {
      var k :| 0 <= k < |schedule| && larger.value == schedule[k] && larger.value.delayMs as real >= requestedMs
               && forall i :: 0 <= i < k ==> (schedule[i].delayMs as real) < requestedMs;
      assert forall i :: 0 <= i < attempt ==> schedule[i].delayMs <= schedule[attempt - 1].delayMs;
      j := k;
    } else {
      assert schedule[|schedule| - 1] in schedule;
      j := |schedule|;
    }
  }

  lemma OnlyThere(schedule: Schedule, retryAfter: real, j: nat, i: nat)
    requires Increasing(schedule) && 1 <= j <= |schedule| && schedule[j - 1].delayMs as real < retryAfter * 1000.0
    requires j < |schedule| ==> retryAfter * 1000.0 <= schedule[j].delayMs as real
    requires 1 <= i < |schedule| && WellBelow(schedule, i, retryAfter)
    ensures i == j
  {
    assert forall a, b :: 0 <= a <= b < |schedule| ==> schedule[a].delayMs <= schedule[b].delayMs;
  }

  /** The level picked for a wait longer than the scheduled delay. */
  function PickedForLong(schedule: Schedule, retryAfter: real): Level
    requires schedule != []
  {
    var larger := FirstCovering(schedule, retryAfter * 1000.0);
    if larger.Some? then larger.value else schedule[|schedule| - 1]
  }

  lemma LongWaitFitsIff(attempt: int, schedule: Schedule, retryAfter: real)
    requires Increasing(schedule) && 1 <= attempt <= |schedule|
    requires retryAfter * 1000.0 > schedule[attempt - 1].delayMs as real
    ensures retryAfter * 1000.0 <= 0.9 * PickedForLong(schedule, retryAfter).delayMs as real <==>
            exists j :: attempt <= j < |schedule| && WellBelow(schedule, j, retryAfter)
  {
    var j := LongWaitIsSomewhere(attempt, schedule, retryAfter * 1000.0);
    forall i: nat | attempt <= i < |schedule| && WellBelow(schedule, i, retryAfter) ensures i == j {
      OnlyThere(schedule, retryAfter, j, i);
    }
    if j < |schedule| {
      assert WellBelow(schedule, j, retryAfter) <==> retryAfter * 1000.0 <= 0.9 * schedule[j].delayMs as real;
    }
  }

  lemma ShortWaitFitsNoLater(attempt: int, schedule: Schedule, retryAfter: real)
    requires Increasing(schedule) && 1 <= attempt <= |schedule|
    requires retryAfter * 1000.0 <= schedule[attempt - 1].delayMs as real
    ensures forall j :: attempt <= j < |schedule| ==> !WellBelow(schedule, j, retryAfter)
  {
    assert forall i :: attempt - 1 <= i < |schedule| ==> schedule[i].delayMs >= schedule[attempt - 1].delayMs;
  }

  /** Retry-After is honoured, whatever the jitter, if and only if it asks for at most nine tenths of the scheduled
      delay, or for a wait above some later level's predecessor and within nine tenths of that level's own delay. */
  lemma RetryAfterIsHonouredIff(attempt: int, maxAttempts: int, schedule: Schedule, retryAfter: real)
    requires Increasing(schedule) && 1 <= attempt < maxAttempts <= |schedule| + 1
    requires forall level :: level in schedule ==> level.delayMs % 10 == 0
    ensures var picked := SelectRetryLevel(attempt, maxAttempts, schedule, Some(retryAfter));
            picked.Some? && (KeptByEveryJitter(picked.value, retryAfter * 1000.0) <==>
                             retryAfter * 1000.0 <= 0.9 * schedule[attempt - 1].delayMs as real
                             || exists j :: attempt <= j < |schedule| && WellBelow(schedule, j, retryAfter))
  {
    var scheduled := schedule[attempt - 1];
    if retryAfter * 1000.0 <= scheduled.delayMs as real {
      ShortWaitFitsNoLater(attempt, schedule, retryAfter);
      JitterKeepsWaitIff(scheduled.delayMs, retryAfter * 1000.0);
    } else {
      var level := PickedForLong(schedule, retryAfter);
      FirstCoveringIsFirst(schedule, retryAfter * 1000.0);
      LongWaitFitsIff(attempt, schedule, retryAfter);
      assert level in schedule;
      JitterKeepsWaitIff(level.delayMs, retryAfter * 1000.0);
    }
  }

  /** On the real schedule: a receiver that asks for exactly a level's delay gets that level, and can be called before
      its time is up. */
  lemma RetryAfterMayEndEarly()
    ensures SelectRetryLevel(1, MAX_SUPPORTED_ATTEMPTS, RETRY_SCHEDULE, Some(300.0)) == Some(RETRY_SCHEDULE[1])
    ensures !KeptByEveryJitter(RETRY_SCHEDULE[1], 300_000.0)
  {
    JitterKeepsWaitIff(RETRY_SCHEDULE[1].delayMs, 300_000.0);
    assert FirstCovering(RETRY_SCHEDULE, 300_000.0) == FirstCovering(RETRY_SCHEDULE[1..], 300_000.0);
  }
}
