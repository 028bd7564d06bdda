/** The per-endpoint token bucket: refilled at the endpoint's rate per minute, capped at that rate, one token a send. */
module TokenBucket {
  import opened Wrappers

  const MINUTE := 60000.0

  datatype Bucket = Bucket(tokens: real, updatedAt: int)

  /** What `elapsed` milliseconds add at `rate` per minute. */
  function Refill(rate: real, elapsed: int): real {
    elapsed as real * rate / MINUTE
  }

  function Min(a: real, b: real): real {
    if a <= b then a else b
  }

  /** The tokens a call at `now` finds, before it takes any. A key that is not there counts as full. */
  function Available(bucket: Option<Bucket>, rate: real, now: int): real {
    match bucket
    case None => rate
    case Some(b) => if now > b.updatedAt then Min(rate, b.tokens + Refill(rate, now - b.updatedAt)) else b.tokens
  }

  predicate Allowed(bucket: Option<Bucket>, rate: real, now: int) {
    Available(bucket, rate, now) >= 1.0
  }

  function Taken(bucket: Option<Bucket>, rate: real, now: int): Bucket {
    Bucket(Available(bucket, rate, now) - if Allowed(bucket, rate, now) then 1.0 else 0.0, now)
  }

  datatype Answer = Answer(at: int, allowed: bool)

  /** One endpoint's key, the answers so far in execution order, and the latest clock reading. */
  datatype State = State(bucket: Option<Bucket>, log: seq<Answer>, clock: int)

  datatype Step =
    | Take(now: int, rate: real)
    | Expire(now: int)

  /** Whatever the clock reads, a rate is not negative, and a key goes `ttl` after it was last written. */
  predicate Permitted(ttl: nat, s: State, step: Step) {
    match step
    case Take(_, rate) => rate >= 0.0
    case Expire(now) => s.bucket.Some? && s.bucket.value.updatedAt + ttl <= now
  }

  /** And the clock does not go back. */
  predicate Enabled(ttl: nat, s: State, step: Step) {
    step.now >= s.clock && Permitted(ttl, s, step)
  }

  function Next(s: State, step: Step): State {
    match step
    case Take(now, rate) =>
      State(Some(Taken(s.bucket, rate, now)), s.log + [Answer(now, Allowed(s.bucket, rate, now))], now)
    case Expire(now) => State(None, s.log, now)
  }

  function Init(): State {
    State(None, [], 0)
  }

  function After(steps: seq<Step>): State
    decreases |steps|
  {
    if steps == [] then Init() else Next(After(steps[..|steps| - 1]), steps[|steps| - 1])
  }

  ghost predicate ValidRun(ttl: nat, steps: seq<Step>)
    decreases |steps|
  {
    steps == []
    || (ValidRun(ttl, steps[..|steps| - 1]) && Enabled(ttl, After(steps[..|steps| - 1]), steps[|steps| - 1]))
  }

  predicate AtRate(steps: seq<Step>, rate: real) {
    forall step :: step in steps && step.Take? ==> step.rate == rate
  }

  function WithoutExpiry(steps: seq<Step>): seq<Step>
    decreases |steps|
  {
    if steps == [] then []
    else
      var earlier := WithoutExpiry(steps[..|steps| - 1]);
      if steps[|steps| - 1].Expire? then earlier else earlier + [steps[|steps| - 1]]
  }

  // Key expiry cannot be observed.

  lemma FullAgain(rate: real, bucket: Bucket, now: int)
    requires rate >= 0.0 && bucket.tokens >= 0.0 && bucket.updatedAt + 60_000 <= now
    ensures Available(Some(bucket), rate, now) == rate
  {
    MinuteFills(rate, now - bucket.updatedAt);
  }

  /** The kept key is the same, or the lost one would be full again by now. */
  ghost predicate Alike(s: State, kept: State) {
    && s.log == kept.log && kept.clock <= s.clock
    && (kept.bucket.Some? ==> kept.bucket.value.tokens >= 0.0 && kept.bucket.value.updatedAt <= kept.clock)
    && (s.bucket == kept.bucket
        || (s.bucket.None? && kept.bucket.Some? && kept.bucket.value.updatedAt + 60_000 <= s.clock))
  }

  lemma {:induction false} RunsAlike(ttl: nat, steps: seq<Step>)
    requires ttl >= 60_000 && ValidRun(ttl, steps)
    ensures ValidRun(ttl, WithoutExpiry(steps))
    ensures Alike(After(steps), After(WithoutExpiry(steps)))
    decreases |steps|
  {
    if steps != [] {
      var last := |steps| - 1;
      RunsAlike(ttl, steps[..last]);
      var s, kept := After(steps[..last]), After(WithoutExpiry(steps[..last]));
      if steps[last].Take? {
        if s.bucket != kept.bucket { FullAgain(steps[last].rate, kept.bucket.value, steps[last].now); }
        if kept.bucket.Some? { RefillIsPositive(steps[last].rate, steps[last].now - kept.bucket.value.updatedAt); }
        var without := WithoutExpiry(steps);
        assert without[..|without| - 1] == WithoutExpiry(steps[..last]);
        assert After(without) == Next(kept, steps[last]);
      }
    }
  }

  lemma RefillIsPositive(rate: real, elapsed: int)
    requires rate >= 0.0 && elapsed >= 0
    ensures Refill(rate, elapsed) >= 0.0
  {
  }

  /** Whatever the rates, losing keys after their time to live gives every call the answer it would have had. */
  lemma ExpiryIsUnobservable(ttl: nat, steps: seq<Step>)
    requires ttl >= 60_000 && ValidRun(ttl, steps)
    ensures ValidRun(ttl, WithoutExpiry(steps))
    ensures After(WithoutExpiry(steps)).log == After(steps).log
  {
    RunsAlike(ttl, steps);
  }

  /** A minute is the shortest time to live that hides: below it, an endpoint at one a minute gets a call early. */
  lemma ShorterTtlIsObservable(ttl: nat)
    requires ttl < 60_000
    ensures var steps := [Take(0, 1.0), Expire(ttl), Take(ttl, 1.0)];
            ValidRun(ttl, steps) && After(WithoutExpiry(steps)).log != After(steps).log
  {
    var first, lost, again := Take(0, 1.0), Expire(ttl), Take(ttl, 1.0);
    OneMore(ttl, [], first);
    OneMore(ttl, [first], lost);
    OneMore(ttl, [first, lost], again);
    OneMore(ttl, [first], again);
    assert [] + [first] == [first] && [first] + [lost] == [first, lost]
           && [first, lost] + [again] == [first, lost, again];
    assert [first] + [again] == [first, again];
    assert Refill(1.0, ttl) < 1.0;
    var empty := Next(Init(), first);
    assert empty.bucket == Some(Bucket(0.0, 0)) && !Allowed(empty.bucket, 1.0, ttl) && Allowed(None, 1.0, ttl);
    assert !After([first, again]).log[1].allowed && After([first, lost, again]).log[1].allowed;
  }

  lemma OneMore(ttl: nat, steps: seq<Step>, step: Step)
    ensures After(steps + [step]) == Next(After(steps), step)
    ensures ValidRun(ttl, steps + [step]) <==> ValidRun(ttl, steps) && Enabled(ttl, After(steps), step)
    ensures WithoutExpiry(steps + [step]) ==
            if step.Expire? then WithoutExpiry(steps) else WithoutExpiry(steps) + [step]
  {
    assert (steps + [step])[..|steps + [step]| - 1] == steps;
  }

  // At a constant rate, the bucket is the pacing rule.

  function Grants(log: seq<Answer>, from: nat): nat
    decreases |log|
  {
    if |log| <= from then 0
    else Grants(log[..|log| - 1], from) + if log[|log| - 1].allowed then 1 else 0
  }

  /** The most that may have been granted by `now` from a moment `elapsed` ago. */
  function Allowance(rate: real, elapsed: int): real {
    rate + Refill(rate, elapsed)
  }

  lemma AllowanceGrows(rate: real, elapsed: int, more: int)
    requires rate >= 0.0 && more >= 0
    ensures Allowance(rate, elapsed + more) == Allowance(rate, elapsed) + Refill(rate, more)
  {
  }

  /** The bucket holds exactly what the tightest of the past calls leaves of its allowance. */
  ghost predicate Tight(s: State, rate: real) {
    && (forall i :: 0 <= i < |s.log| ==> s.log[i].at <= s.clock)
    && match s.bucket
       case None => s.log == []
       case Some(b) =>
         && b.updatedAt == s.clock
         && 0.0 <= b.tokens <= rate
         && (forall i :: 0 <= i < |s.log| ==>
               Grants(s.log, i) as real + b.tokens <= Allowance(rate, s.clock - s.log[i].at))
         && (exists i :: 0 <= i < |s.log|
                         && Grants(s.log, i) as real + b.tokens == Allowance(rate, s.clock - s.log[i].at))
  }

  /** Since every past call, granting one more would still keep within the allowance. */
  ghost predicate HasRoom(log: seq<Answer>, rate: real, now: int) {
    rate >= 1.0 && forall i :: 0 <= i < |log| ==> (Grants(log, i) + 1) as real <= Allowance(rate, now - log[i].at)
  }

  lemma AvailableAt(s: State, rate: real, now: int)
    requires rate >= 0.0 && Tight(s, rate) && now >= s.clock
    ensures 0.0 <= Available(s.bucket, rate, now) <= rate
    ensures s.bucket.Some? ==>
              Available(s.bucket, rate, now) == Min(rate, s.bucket.value.tokens + Refill(rate, now - s.clock))
  {
    if s.bucket.Some? { RefillIsPositive(rate, now - s.clock); }
  }

  lemma AllowedExactlyWithRoom(s: State, rate: real, now: int)
    requires rate >= 0.0 && Tight(s, rate) && now >= s.clock
    ensures Allowed(s.bucket, rate, now) <==> HasRoom(s.log, rate, now)
  {
    AvailableAt(s, rate, now);
    if s.bucket.Some? {
      var tokens, more := s.bucket.value.tokens, now - s.clock;
      forall i | 0 <= i < |s.log|
        ensures Allowance(rate, now - s.log[i].at) == Allowance(rate, s.clock - s.log[i].at) + Refill(rate, more)
      {
        AllowanceGrows(rate, s.clock - s.log[i].at, more);
      }
      var i :| 0 <= i < |s.log| && Grants(s.log, i) as real + tokens == Allowance(rate, s.clock - s.log[i].at);
      assert HasRoom(s.log, rate, now) ==> (Grants(s.log, i) + 1) as real <= Allowance(rate, now - s.log[i].at);
    }
  }

  lemma GrantsSnoc(log: seq<Answer>, answer: Answer, from: nat)
    ensures Grants(log + [answer], from) ==
            if from <= |log| then Grants(log, from) + (if answer.allowed then 1 else 0) else 0
  {
    assert (log + [answer])[..|log + [answer]| - 1] == log;
  }

  /** From s to t one answer is added, and what was granted since any call, with what is left, is what was available. */
  ghost predicate Conserved(s: State, rate: real, now: int, t: State) {
    && t.bucket.Some? && t.bucket.value.updatedAt == now == t.clock && |t.log| == |s.log| + 1
    && t.log[|s.log|].at == now && (forall i :: 0 <= i < |s.log| ==> t.log[i] == s.log[i])
    && forall i :: 0 <= i <= |s.log| ==>
         Grants(t.log, i) as real + t.bucket.value.tokens ==
         Grants(s.log, i) as real + Available(s.bucket, rate, now)
  }

  /** A take moves a token to its answer: what was granted since any call, with what is left, is what it was. */
  lemma TakeConserves(s: State, rate: real, now: int, t: State)
    requires t == Next(s, Take(now, rate))
    ensures Conserved(s, rate, now, t)
  {
    forall i | 0 <= i <= |s.log| { GrantsSnoc(s.log, t.log[|s.log|], i); }
  }

  lemma TightAgain(s: State, rate: real, now: int, t: State)
    requires rate >= 0.0 && Tight(s, rate) && now >= s.clock && Conserved(s, rate, now, t)
    requires 0.0 <= t.bucket.value.tokens <= rate
    ensures Tight(t, rate)
  {
    forall i | 0 <= i < |t.log|
      ensures Grants(t.log, i) as real + t.bucket.value.tokens <= Allowance(rate, t.clock - t.log[i].at)
    {
      BoundedAgain(s, rate, now, t, i);
    }
    AttainedAgain(s, rate, now, t);
  }

  lemma TakeKeepsTight(s: State, rate: real, now: int)
    requires rate >= 0.0 && Tight(s, rate) && now >= s.clock
    ensures Tight(Next(s, Take(now, rate)), rate)
  {
    var t := Next(s, Take(now, rate));
    AvailableAt(s, rate, now);
    TakeConserves(s, rate, now, t);
    TightAgain(s, rate, now, t);
  }

  lemma BoundedAgain(s: State, rate: real, now: int, t: State, i: nat)
    requires rate >= 0.0 && Tight(s, rate) && now >= s.clock && Conserved(s, rate, now, t) && i < |t.log|
    ensures Grants(t.log, i) as real + t.bucket.value.tokens <= Allowance(rate, t.clock - t.log[i].at)
  {
    AvailableAt(s, rate, now);
    if i < |s.log| { AllowanceGrows(rate, s.clock - s.log[i].at, now - s.clock); }
  }

  lemma AttainedAgain(s: State, rate: real, now: int, t: State)
    requires rate >= 0.0 && Tight(s, rate) && now >= s.clock && Conserved(s, rate, now, t)
    ensures exists i :: 0 <= i < |t.log|
                        && Grants(t.log, i) as real + t.bucket.value.tokens == Allowance(rate, t.clock - t.log[i].at)
  {
    var n, b := |s.log|, t.bucket.value;
    AvailableAt(s, rate, now);
    if Available(s.bucket, rate, now) == rate {
      assert Grants(t.log, n) as real + b.tokens == Allowance(rate, t.clock - t.log[n].at);
    } else {
      var i :| 0 <= i < n && Grants(s.log, i) as real + s.bucket.value.tokens == Allowance(rate, s.clock - s.log[i].at);
      AllowanceGrows(rate, s.clock - s.log[i].at, now - s.clock);
      assert Grants(t.log, i) as real + b.tokens == Allowance(rate, t.clock - t.log[i].at);
    }
  }

  lemma {:induction false} TakesStayTight(ttl: nat, steps: seq<Step>, rate: real)
    requires rate >= 0.0 && ValidRun(ttl, steps) && AtRate(steps, rate) && (forall step :: step in steps ==> step.Take?)
    ensures Tight(After(steps), rate)
    decreases |steps|
  {
    if steps != [] {
      var last := |steps| - 1;
      TakesStayTight(ttl, steps[..last], rate);
      TakeKeepsTight(After(steps[..last]), rate, steps[last].now);
    }
  }

  lemma {:induction false} OnlyTakes(steps: seq<Step>, rate: real)
    requires AtRate(steps, rate)
    ensures AtRate(WithoutExpiry(steps), rate)
    ensures forall step :: step in WithoutExpiry(steps) ==> step.Take?
    decreases |steps|
  {
    if steps != [] { OnlyTakes(steps[..|steps| - 1], rate); }
  }

  /** In every run at one rate, expiry or not, a call is allowed exactly when granting it keeps within the allowance
      since every earlier call. */
  lemma AnswersAreExact(ttl: nat, steps: seq<Step>, rate: real, now: int)
    requires ttl >= 60_000 && rate >= 0.0 && ValidRun(ttl, steps) && AtRate(steps, rate) && now >= After(steps).clock
    ensures Allowed(After(steps).bucket, rate, now) <==> HasRoom(After(steps).log, rate, now)
  {
    RunsAlike(ttl, steps);
    OnlyTakes(steps, rate);
    var s, kept := After(steps), After(WithoutExpiry(steps));
    TakesStayTight(ttl, WithoutExpiry(steps), rate);
    AllowedExactlyWithRoom(kept, rate, now);
    if s.bucket != kept.bucket { FullAgain(rate, kept.bucket.value, now); }
  }

  /** Grants with a clock reading in [from, to]. */
  function GrantsWithin(log: seq<Answer>, from: int, to: int): nat
    decreases |log|
  {
    if log == [] then 0
    else
      var last := log[|log| - 1];
      GrantsWithin(log[..|log| - 1], from, to) + if last.allowed && from <= last.at <= to then 1 else 0
  }

  // With a clock that may go back.

  /** Runs in which a clock reading may be earlier than the one before it. */
  ghost predicate SkewedRun(ttl: nat, steps: seq<Step>)
    decreases |steps|
  {
    steps == []
    || (SkewedRun(ttl, steps[..|steps| - 1]) && Permitted(ttl, After(steps[..|steps| - 1]), steps[|steps| - 1]))
  }

  /** How far the clock went forward from step i on, leaving out what it went back. */
  function Forward(steps: seq<Step>, i: nat): nat
    decreases |steps|
  {
    if |steps| <= i + 1 then 0
    else
      var last := |steps| - 1;
      var moved := steps[last].now - steps[last - 1].now;
      Forward(steps[..last], i) + if moved > 0 then moved else 0
  }

  /** How far the clock went back, all in all, from step i on. */
  function Backward(steps: seq<Step>, i: nat): nat
    decreases |steps|
  {
    if |steps| <= i + 1 then 0
    else
      var last := |steps| - 1;
      var moved := steps[last].now - steps[last - 1].now;
      Backward(steps[..last], i) + if moved < 0 then -moved else 0
  }

  /** The grants of step i and the steps after it. */
  function GrantsFrom(steps: seq<Step>, i: nat): nat
    decreases |steps|
  {
    if |steps| <= i then 0
    else
      var last := |steps| - 1;
      GrantsFrom(steps[..last], i) + Granted(After(steps[..last]).bucket, steps[last])
  }

  /** What is left in the bucket; a key that is not there counts as full. */
  function Left(bucket: Option<Bucket>, rate: real): real {
    if bucket.None? then rate else bucket.value.tokens
  }

  lemma {:induction false} ForwardIsNet(steps: seq<Step>, i: nat)
    requires i < |steps|
    ensures Forward(steps, i) == steps[|steps| - 1].now - steps[i].now + Backward(steps, i)
    decreases |steps|
  {
    if i < |steps| - 1 { ForwardIsNet(steps[..|steps| - 1], i); }
  }

  /** Between none and the rate, written at the last reading. */
  ghost predicate Sound(steps: seq<Step>, rate: real) {
    var bucket := After(steps).bucket;
    && 0.0 <= Left(bucket, rate) <= rate
    && (bucket.Some? ==> steps != [] && bucket.value.updatedAt == steps[|steps| - 1].now)
  }

  lemma {:induction false} RunStaysSound(ttl: nat, steps: seq<Step>, rate: real)
    requires rate >= 0.0 && SkewedRun(ttl, steps) && AtRate(steps, rate)
    ensures Sound(steps, rate)
    decreases |steps|
  {
    if steps != [] {
      var last := |steps| - 1;
      RunStaysSound(ttl, steps[..last], rate);
      var bucket := After(steps[..last]).bucket;
      if bucket.Some? && steps[last].now > bucket.value.updatedAt {
        RefillIsPositive(rate, steps[last].now - bucket.value.updatedAt);
      }
    }
  }

  function Granted(bucket: Option<Bucket>, step: Step): nat {
    if step.Take? && Allowed(bucket, step.rate, step.now) then 1 else 0
  }

  /** A step grants and leaves no more than there was plus the refill of how far the clock went forward. */
  lemma StepPays(ttl: nat, s: State, rate: real, step: Step, before: int, more: nat)
    requires ttl >= 60_000 && rate >= 0.0 && Permitted(ttl, s, step) && (step.Take? ==> step.rate == rate)
    requires 0.0 <= Left(s.bucket, rate) <= rate && (s.bucket.Some? ==> s.bucket.value.updatedAt == before)
    requires more == if step.now > before then step.now - before else 0
    ensures Granted(s.bucket, step) as real + Left(Next(s, step).bucket, rate)
            <= Left(s.bucket, rate) + Refill(rate, more)
  {
    RefillIsPositive(rate, more);
    if step.Expire? {
      MinuteFills(rate, more);
    } else {
      assert Available(s.bucket, rate, step.now) <= Left(s.bucket, rate) + Refill(rate, more);
    }
  }

  lemma MinuteFills(rate: real, elapsed: int)
    requires rate >= 0.0 && elapsed >= 60_000
    ensures Refill(rate, elapsed) >= rate
  {
    assert elapsed as real * rate >= MINUTE * rate;
  }

  /** What has been granted from step i on, with what is left, stays within the allowance of the forward movement. */
  lemma {:induction false} GrantsArePaid(ttl: nat, steps: seq<Step>, rate: real, i: nat)
    requires ttl >= 60_000 && rate >= 0.0 && SkewedRun(ttl, steps) && AtRate(steps, rate) && i < |steps|
    ensures GrantsFrom(steps, i) as real + Left(After(steps).bucket, rate) <= Allowance(rate, Forward(steps, i))
    decreases |steps|
  {
    var last := |steps| - 1;
    var earlier := steps[..last];
    RunStaysSound(ttl, earlier, rate);
    if i < last {
      GrantsArePaid(ttl, earlier, rate, i);
      var more := Forward(steps, i) - Forward(earlier, i);
      StepPays(ttl, After(earlier), rate, steps[last], steps[last - 1].now, more);
      AllowanceGrows(rate, Forward(earlier, i), more);
    } else {
      FirstStepPays(ttl, After(earlier), rate, steps[last]);
    }
  }

  lemma FirstStepPays(ttl: nat, s: State, rate: real, step: Step)
    requires rate >= 0.0 && Permitted(ttl, s, step) && (step.Take? ==> step.rate == rate)
    requires 0.0 <= Left(s.bucket, rate) <= rate
    ensures Granted(s.bucket, step) as real + Left(Next(s, step).bucket, rate) <= Allowance(rate, 0)
  {
  }

  lemma {:induction false} WithinIsFrom(steps: seq<Step>, from: int, to: int, i: nat)
    requires forall k :: 0 <= k < i && k < |steps| && steps[k].Take? ==> !(from <= steps[k].now <= to)
    ensures GrantsWithin(After(steps).log, from, to) <= GrantsFrom(steps, i)
    decreases |steps|
  {
    if steps != [] {
      var last := |steps| - 1;
      WithinIsFrom(steps[..last], from, to, i);
      var log := After(steps).log;
      if steps[last].Take? { assert log[..|log| - 1] == After(steps[..last]).log; }
    }
  }

  predicate InRange(step: Step, from: int, to: int) {
    step.Take? && from <= step.now <= to
  }

  lemma AllowanceIsMonotone(rate: real, elapsed: int, longer: int)
    requires rate >= 0.0 && elapsed <= longer
    ensures Allowance(rate, elapsed) <= Allowance(rate, longer)
  {
    AllowanceGrows(rate, elapsed, longer - elapsed);
    RefillIsPositive(rate, longer - elapsed);
  }

  lemma LastInRangeIsPaid(ttl: nat, steps: seq<Step>, rate: real, from: int, to: int)
    requires ttl >= 60_000 && rate >= 0.0 && SkewedRun(ttl, steps) && AtRate(steps, rate)
    requires steps != [] && InRange(steps[|steps| - 1], from, to)
    ensures GrantsWithin(After(steps).log, from, to) as real <= Allowance(rate, to - from + Backward(steps, 0))
  {
    var i := FirstInRange(steps, from, to);
    WithinIsFrom(steps, from, to, i);
    GrantsArePaid(ttl, steps, rate, i);
    RunStaysSound(ttl, steps, rate);
    ForwardIsNet(steps, i);
    BackwardShrinks(steps, i);
    AllowanceIsMonotone(rate, Forward(steps, i), to - from + Backward(steps, 0));
  }

  /** At a constant rate and whatever the clock does, an interval of readings holds no more grants than the burst plus
      the refill of the interval and of all the clock went back: R + R * (to - from + B) / 60000. */
  lemma {:induction false} GrantsWithSkew(ttl: nat, steps: seq<Step>, rate: real, from: int, to: int)
    requires ttl >= 60_000 && rate >= 0.0 && SkewedRun(ttl, steps) && AtRate(steps, rate) && from <= to
    ensures GrantsWithin(After(steps).log, from, to) as real <= Allowance(rate, to - from + Backward(steps, 0))
    decreases |steps|
  {
    if steps == [] {
      RefillIsPositive(rate, to - from);
    } else if InRange(steps[|steps| - 1], from, to) {
      LastInRangeIsPaid(ttl, steps, rate, from, to);
    } else {
      var earlier := steps[..|steps| - 1];
      GrantsWithSkew(ttl, earlier, rate, from, to);
      var log := After(steps).log;
      if steps[|steps| - 1].Take? { assert log[..|log| - 1] == After(earlier).log; }
      AllowanceIsMonotone(rate, to - from + Backward(earlier, 0), to - from + Backward(steps, 0));
    }
  }

  lemma FirstInRange(steps: seq<Step>, from: int, to: int) returns (i: nat)
    requires steps != [] && InRange(steps[|steps| - 1], from, to)
    ensures i < |steps| && InRange(steps[i], from, to)
    ensures forall k :: 0 <= k < i ==> !InRange(steps[k], from, to)
  {
    i := 0;
    while !InRange(steps[i], from, to)
      invariant i < |steps| && forall k :: 0 <= k < i ==> !InRange(steps[k], from, to)
      decreases |steps| - i
    {
      i := i + 1;
    }
  }

  lemma {:induction false} BackwardShrinks(steps: seq<Step>, i: nat)
    ensures Backward(steps, i) <= Backward(steps, 0)
    decreases |steps|
  {
    if |steps| > 1 { BackwardShrinks(steps[..|steps| - 1], i); }
  }

  lemma {:induction false} ForwardOnly(ttl: nat, steps: seq<Step>)
    requires ValidRun(ttl, steps)
    ensures SkewedRun(ttl, steps) && Backward(steps, 0) == 0
            && (steps != [] ==> After(steps).clock == steps[|steps| - 1].now)
    decreases |steps|
  {
    if steps != [] { ForwardOnly(ttl, steps[..|steps| - 1]); }
  }

  /** At a constant rate and with a clock that does not go back, no interval of readings holds more grants than the
      burst plus the refill: R + R * (to - from) / 60000. */
  lemma GrantsInAnyInterval(ttl: nat, steps: seq<Step>, rate: real, from: int, to: int)
    requires ttl >= 60_000 && rate >= 0.0 && ValidRun(ttl, steps) && AtRate(steps, rate) && from <= to
    ensures GrantsWithin(After(steps).log, from, to) as real <= Allowance(rate, to - from)
  {
    ForwardOnly(ttl, steps);
    GrantsWithSkew(ttl, steps, rate, from, to);
  }

  /** Tokens stay between none and the rate in every run, expiry or not. */
  lemma {:induction false} TokensStayInRange(ttl: nat, steps: seq<Step>, rate: real)
    requires rate >= 0.0 && ValidRun(ttl, steps) && AtRate(steps, rate)
    ensures var s := After(steps);
            s.bucket.Some? ==> 0.0 <= s.bucket.value.tokens <= rate && s.bucket.value.updatedAt <= s.clock
    decreases |steps|
  {
    if steps != [] {
      var last := |steps| - 1;
      TokensStayInRange(ttl, steps[..last], rate);
      var s := After(steps[..last]);
      if s.bucket.Some? { RefillIsPositive(rate, steps[last].now - s.bucket.value.updatedAt); }
    }
  }

  lemma OneMoreSkewed(ttl: nat, steps: seq<Step>, step: Step)
    ensures After(steps + [step]) == Next(After(steps), step)
    ensures SkewedRun(ttl, steps + [step]) <==> SkewedRun(ttl, steps) && Permitted(ttl, After(steps), step)
    ensures Backward(steps + [step], 0) ==
            Backward(steps, 0)
            + if steps != [] && step.now < steps[|steps| - 1].now then steps[|steps| - 1].now - step.now else 0
  {
    assert (steps + [step])[..|steps + [step]| - 1] == steps;
  }

  /** The movement back does count: `updatedAt` follows the clock, so an earlier reading in between refills a bucket
      of one token twice for the same minute, and the bound with skew is met exactly. */
  lemma BackwardClockBreaksTheBound(ttl: nat)
    ensures var steps := [Take(60_000, 1.0), Take(0, 1.0), Take(60_000, 1.0)];
            && SkewedRun(ttl, steps) && Backward(steps, 0) == 60_000
            && GrantsWithin(After(steps).log, 60_000, 60_000) == 2
            && Allowance(1.0, 0) == 1.0 && Allowance(1.0, Backward(steps, 0)) == 2.0
  {
    var late, early := Take(60_000, 1.0), Take(0, 1.0);
    OneMoreSkewed(ttl, [], late);
    OneMoreSkewed(ttl, [late], early);
    OneMoreSkewed(ttl, [late, early], late);
    assert [] + [late] == [late] && [late] + [early] == [late, early] && [late, early] + [late] == [late, early, late];
    var s1 := Next(Init(), Take(60_000, 1.0));
    var s2 := Next(s1, Take(0, 1.0));
    var s3 := Next(s2, Take(60_000, 1.0));
    assert Refill(1.0, 60_000) == 1.0;
    assert s3.log == [Answer(60_000, true), Answer(0, false), Answer(60_000, true)];
    assert s3.log[..2] == s2.log && s2.log[..1] == s1.log && s1.log[..0] == [];
    assert GrantsWithin(s1.log, 60_000, 60_000) == 1;
    assert GrantsWithin(s2.log, 60_000, 60_000) == 1;
  }

  // The script, over every endpoint's key.

  class TokenBuckets {
    var buckets: map<string, Bucket>

    constructor ()
      ensures buckets == map[]
    {
      buckets := map[];
    }

    function Key(endpointId: string): Option<Bucket>
      reads this
    {
      if endpointId in buckets then Some(buckets[endpointId]) else None
    }

    method Take(endpointId: string, ratePerMinute: real, now: int) returns (allowed: bool)
      modifies this
      ensures allowed == Allowed(old(Key(endpointId)), ratePerMinute, now)
      ensures buckets == old(buckets)[endpointId := Taken(old(Key(endpointId)), ratePerMinute, now)]
    {
      var tokens, updatedAt := ratePerMinute, now;
      if endpointId in buckets {
        tokens, updatedAt := buckets[endpointId].tokens, buckets[endpointId].updatedAt;
      }
      var elapsed := now - updatedAt;
      if elapsed > 0 {
        tokens := Min(ratePerMinute, tokens + elapsed as real * ratePerMinute / MINUTE);
      }
      allowed := false;
      if tokens >= 1.0 {
        tokens := tokens - 1.0;
        allowed := true;
      }
      assert Bucket(tokens, now) == Taken(old(Key(endpointId)), ratePerMinute, now);
      buckets := buckets[endpointId := Bucket(tokens, now)];
    }
  }
}
