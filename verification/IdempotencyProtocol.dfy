/** The idempotency middleware on one key: reserve, publish, store, answer, release. The reservation in the store is a
    bare marker that names nobody, yet only the request that made it ever overwrites or deletes it. */
module IdempotencyProtocol {
  import opened Wrappers

  type Request = nat

  const ACCEPTED := 202

  datatype Response = Response(status: nat, body: string)

  /** The key's value. A reservation does not say whose it is. */
  datatype Slot = Free | Reserved | Kept(response: Response)

  /** Where a request stands. Publishing, Storing, Failing and Releasing hold the reservation; the `stored` flag is set
      from Storing on. A refused request reads the key in one call and answers from what it read in a later turn. Broken
      is a request whose SET NX or GET threw, before any finish handler was registered. */
  datatype Phase =
    | Reading
    | Found(slot: Slot)
    | Publishing
    | Storing(response: Response)
    | Stored(response: Response)
    | Unsaved
    | Failing(status: nat)
    | Releasing
    | Broken
    | Done

  /** Unavailable is the error of a request whose own SET NX or GET threw. */
  datatype Answer =
    | Fresh(response: Response)
    | Replay(response: Response)
    | Conflict
    | Failure(status: nat)
    | Unavailable

  /** An answer sent, and the request it was sent to. */
  datatype Given = Given(request: Request, answer: Answer)

  /** The key, the requests, every answer given so far, and (history only) who made the last reservation. */
  datatype State = State(slot: Slot, phases: map<Request, Phase>, answers: seq<Given>, reservedBy: Option<Request>)

  datatype Step =
    | Reserve(r: Request)                     // SET ... NX
    | ReserveFails(r: Request, applied: bool) // that SET threw, having been applied or not
    | Get(r: Request)                         // GET after a refused reservation
    | GetFails(r: Request)                    // that GET threw
    | Reply(r: Request)                       // the replay or the conflict goes out
    | Publish(r: Request, body: string)       // the event was published; `stored` is set
    | PublishFails(r: Request, status: nat)   // the route threw
    | Store(r: Request)                       // SET with the response
    | StoreFails(r: Request, applied: bool)   // that SET threw, having been applied or not
    | Respond(r: Request)                     // the response goes out
    | Release(r: Request)                     // the finish handler deletes the key
    | ReleaseFails(r: Request)                // that DEL threw; nobody notices
    | Vanish(r: Request)                      // the process dies, or the client leaves before the response finishes

  predicate At(s: State, r: Request, phase: Phase) {
    r in s.phases && s.phases[r] == phase
  }

  predicate Enabled(s: State, step: Step) {
    match step
    case Reserve(r) => r !in s.phases
    case ReserveFails(r, _) => r !in s.phases
    case Get(r) => At(s, r, Reading)
    case GetFails(r) => At(s, r, Reading)
    case Reply(r) => r in s.phases && s.phases[r].Found?
    case Publish(r, _) => At(s, r, Publishing)
    case PublishFails(r, status) => At(s, r, Publishing) && status >= 400
    case Store(r) => r in s.phases && s.phases[r].Storing?
    case StoreFails(r, _) => r in s.phases && s.phases[r].Storing?
    case Respond(r) =>
      r in s.phases
      && (s.phases[r].Stored? || s.phases[r].Unsaved? || s.phases[r].Failing? || s.phases[r].Broken?)
    case Release(r) => At(s, r, Releasing)
    case ReleaseFails(r) => At(s, r, Releasing)
    case Vanish(r) => r in s.phases && s.phases[r] != Done
  }

  function Lookup(slot: Slot): Answer {
    if slot.Kept? then Replay(slot.response) else Conflict
  }

  /** The request is done with this answer, or goes on to `phase`. */
  function Answered(s: State, r: Request, phase: Phase, answer: Answer): State {
    s.(phases := s.phases[r := phase], answers := s.answers + [Given(r, answer)])
  }

  /** The state after the step; one that is not enabled does nothing. */
  function Next(s: State, step: Step): State {
    if !Enabled(s, step) then s
    else
      var r := step.r;
      match step
      case Reserve(_) =>
        if s.slot.Free? then s.(slot := Reserved, phases := s.phases[r := Publishing], reservedBy := Some(r))
        else s.(phases := s.phases[r := Reading])
      case ReserveFails(_, applied) =>
        if applied && s.slot.Free? then s.(slot := Reserved, phases := s.phases[r := Broken], reservedBy := Some(r))
        else s.(phases := s.phases[r := Broken])
      case GetFails(_) => s.(phases := s.phases[r := Broken])
      case Get(_) => s.(phases := s.phases[r := Found(s.slot)])
      case Reply(_) => Answered(s, r, Done, Lookup(s.phases[r].slot))
      case Publish(_, body) => s.(phases := s.phases[r := Storing(Response(ACCEPTED, body))])
      case PublishFails(_, status) => s.(phases := s.phases[r := Failing(status)])
      case Store(_) => s.(slot := Kept(s.phases[r].response), phases := s.phases[r := Stored(s.phases[r].response)])
      case StoreFails(_, applied) =>
        s.(slot := if applied then Kept(s.phases[r].response) else s.slot, phases := s.phases[r := Unsaved])
      case Respond(_) =>
        (match s.phases[r]
         case Stored(response) => Answered(s, r, Done, Fresh(response))
         case Failing(status) => Answered(s, r, Releasing, Failure(status))
         case Broken => Answered(s, r, Done, Unavailable)
         case _ => Answered(s, r, Done, Failure(500)))
      case Release(_) => s.(slot := Free, phases := s.phases[r := Done])
      case ReleaseFails(_) => s.(phases := s.phases[r := Done])
      case Vanish(_) => s.(phases := s.phases[r := Done])
  }

  function Init(): State {
    State(Free, map[], [], None)
  }

  ghost predicate ValidRun(s: State, steps: seq<Step>)
    decreases |steps|
  {
    steps == [] || (Enabled(s, steps[0]) && ValidRun(Next(s, steps[0]), steps[1..]))
  }

  ghost function End(s: State, steps: seq<Step>): State
    decreases |steps|
  {
    if steps == [] then s else End(Next(s, steps[0]), steps[1..])
  }

  // One holder at a time.

  /** The request may still write the key. */
  predicate Holds(s: State, r: Request) {
    r in s.phases && (s.phases[r].Publishing? || s.phases[r].Storing? || s.phases[r].Failing? || s.phases[r].Releasing?)
  }

  /** The request has tried to store its response and has yet to answer. */
  predicate AboutToAnswer(s: State, r: Request) {
    r in s.phases && (s.phases[r].Stored? || s.phases[r].Unsaved?)
  }

  /** The request has read a stored response and has yet to send it. */
  predicate FoundKept(s: State, r: Request) {
    r in s.phases && s.phases[r].Found? && s.phases[r].slot.Kept?
  }

  predicate Carries(answer: Answer) {
    answer.Fresh? || answer.Replay?
  }

  ghost predicate HoldersReserved(s: State) {
    && (forall r: Request :: Holds(s, r) ==> s.slot == Reserved && s.reservedBy == Some(r))
    && (forall r: Request :: AboutToAnswer(s, r) ==> s.slot != Free && s.reservedBy == Some(r))
    && (forall r: Request :: r in s.phases && s.phases[r].Stored? ==> s.slot == Kept(s.phases[r].response))
    && (forall r: Request :: FoundKept(s, r) ==> s.slot == s.phases[r].slot)
  }

  ghost predicate AnswersAgree(s: State) {
    && (forall i :: 0 <= i < |s.answers| && Carries(s.answers[i].answer) ==>
          s.slot == Kept(s.answers[i].answer.response))
    && (forall r: Request, i :: AboutToAnswer(s, r) && 0 <= i < |s.answers| ==> !s.answers[i].answer.Fresh?)
    && (forall i, j :: 0 <= i < j < |s.answers| && s.answers[i].answer.Fresh? ==>
          s.answers[j].answer.Replay? || s.answers[j].answer.Conflict? || s.answers[j].answer.Unavailable?)
  }

  /** Whoever may still write the key made the reservation in it; what is kept is the one response ever given or about
      to be; and once it has been given fresh there are only replays, conflicts and errors of requests that could not
      read the key. */
  ghost predicate OneHolder(s: State) {
    HoldersReserved(s) && AnswersAgree(s)
  }

  lemma StepKeepsHolder(s: State, step: Step, q: Request)
    requires HoldersReserved(s) && Enabled(s, step)
    ensures var t := Next(s, step);
            && (Holds(t, q) ==> t.slot == Reserved && t.reservedBy == Some(q))
            && (AboutToAnswer(t, q) ==> t.slot != Free && t.reservedBy == Some(q))
            && (q in t.phases && t.phases[q].Stored? ==> t.slot == Kept(t.phases[q].response))
            && (FoundKept(t, q) ==> t.slot == t.phases[q].slot)
  {
    var t := Next(s, step);
    var holding, answering := Holds(s, step.r), AboutToAnswer(s, step.r);
    if q != step.r {
      assert Holds(t, q) == Holds(s, q) && AboutToAnswer(t, q) == AboutToAnswer(s, q)
             && FoundKept(t, q) == FoundKept(s, q);
    }
  }

  lemma StepKeepsAnswers(s: State, step: Step)
    requires OneHolder(s) && Enabled(s, step)
    ensures AnswersAgree(Next(s, step))
  {
    var t := Next(s, step);
    var holding, answering := Holds(s, step.r), AboutToAnswer(s, step.r);
    assert FoundKept(s, step.r) ==> s.slot == s.phases[step.r].slot;
    assert t.answers == s.answers || (|t.answers| == |s.answers| + 1 && t.answers[..|s.answers|] == s.answers);
    forall q: Request, i | AboutToAnswer(t, q) && 0 <= i < |t.answers| ensures !t.answers[i].answer.Fresh? {
      StepKeepsHolder(s, step, q);
      if q != step.r { assert AboutToAnswer(s, q); }
    }
  }

  lemma StepKeepsOneHolder(s: State, step: Step)
    requires OneHolder(s) && Enabled(s, step)
    ensures OneHolder(Next(s, step))
  {
    StepKeepsAnswers(s, step);
    forall q: Request { StepKeepsHolder(s, step, q); }
  }

  lemma {:induction false} RunKeepsOneHolder(s: State, steps: seq<Step>)
    requires OneHolder(s) && ValidRun(s, steps)
    ensures OneHolder(End(s, steps))
    decreases |steps|
  {
    if steps != [] {
      StepKeepsOneHolder(s, steps[0]);
      RunKeepsOneHolder(Next(s, steps[0]), steps[1..]);
    }
  }

  // What the protocol promises over every interleaving.

  /** At most one request is answered afresh; every answer after it replays its response, is a conflict, or is the error
      of a request that could not read the key; and all answers that carry a response carry the same one. */
  lemma OneFreshAnswer(steps: seq<Step>)
    requires ValidRun(Init(), steps)
    ensures var answers := End(Init(), steps).answers;
            && (forall i, j :: 0 <= i < j < |answers| && answers[i].answer.Fresh? ==>
                  || answers[j].answer == Replay(answers[i].answer.response)
                  || answers[j].answer == Conflict || answers[j].answer == Unavailable)
            && (forall i, j :: 0 <= i < |answers| && 0 <= j < |answers|
                               && Carries(answers[i].answer) && Carries(answers[j].answer)
                  ==> answers[i].answer.response == answers[j].answer.response)
  {
    RunKeepsOneHolder(Init(), steps);
    var s := End(Init(), steps);
    forall i, j | 0 <= i < j < |s.answers| && s.answers[i].answer.Fresh?
      ensures || s.answers[j].answer == Replay(s.answers[i].answer.response)
              || s.answers[j].answer == Conflict || s.answers[j].answer == Unavailable
    {
      if s.answers[j].answer.Replay? {
        assert s.slot == Kept(s.answers[i].answer.response) == Kept(s.answers[j].answer.response);
      }
    }
  }

  /** The request read the key before a response was in it, and has yet to answer. */
  predicate ReadTooEarly(s: State, r: Request) {
    r in s.phases && s.phases[r].Found? && !s.phases[r].slot.Kept?
  }

  lemma KeptStays(s: State, step: Step)
    requires OneHolder(s) && s.slot.Kept? && Enabled(s, step)
    ensures Next(s, step).slot == s.slot && s.answers <= Next(s, step).answers
    ensures forall r: Request :: ReadTooEarly(Next(s, step), r) ==> ReadTooEarly(s, r)
    ensures forall i :: |s.answers| <= i < |Next(s, step).answers| && Next(s, step).answers[i].answer == Conflict ==>
              ReadTooEarly(s, Next(s, step).answers[i].request)
  {
    assert !Holds(s, step.r);
  }

  lemma {:induction false} LateConflictsReadEarly(s: State, steps: seq<Step>)
    requires OneHolder(s) && s.slot.Kept? && ValidRun(s, steps)
    ensures End(s, steps).slot == s.slot && s.answers <= End(s, steps).answers
    ensures forall i :: |s.answers| <= i < |End(s, steps).answers| && End(s, steps).answers[i].answer == Conflict ==>
              ReadTooEarly(s, End(s, steps).answers[i].request)
    decreases |steps|
  {
    if steps != [] {
      var t := Next(s, steps[0]);
      KeptStays(s, steps[0]);
      StepKeepsOneHolder(s, steps[0]);
      LateConflictsReadEarly(t, steps[1..]);
      assert forall i :: 0 <= i < |t.answers| ==> t.answers[i] == End(s, steps).answers[i];
    }
  }

  /** Once a response is in the key, it stays there, and a request is told of a conflict only if it had already read the
      key before the response was in it: a request that comes later never is. */
  lemma ConflictAfterTheStoreReadBefore(before: seq<Step>, after: seq<Step>, i: nat)
    requires ValidRun(Init(), before) && End(Init(), before).slot.Kept? && ValidRun(End(Init(), before), after)
    requires var s, t := End(Init(), before), End(End(Init(), before), after);
             |s.answers| <= i < |t.answers| && t.answers[i].answer == Conflict
    ensures var s, t := End(Init(), before), End(End(Init(), before), after);
            && t.slot == s.slot
            && t.answers[i].request in s.phases
            && s.phases[t.answers[i].request].Found? && !s.phases[t.answers[i].request].slot.Kept?
  {
    RunKeepsOneHolder(Init(), before);
    LateConflictsReadEarly(End(Init(), before), after);
  }

  lemma Prepend(s: State, step: Step, rest: seq<Step>, end: State)
    requires Enabled(s, step) && ValidRun(Next(s, step), rest) && End(Next(s, step), rest) == end
    ensures ValidRun(s, [step] + rest) && End(s, [step] + rest) == end
  {
    assert ([step] + rest)[1..] == rest;
  }

  /** The first request holds the key, the second has read the reservation. */
  const EARLY_READER: State := State(Reserved, map[0 := Publishing, 1 := Found(Reserved)], [], Some(0))

  lemma ReachEarlyReader(rest: seq<Step>)
    requires ValidRun(EARLY_READER, rest)
    ensures ValidRun(Init(), [Reserve(0), Reserve(1), Get(1)] + rest)
    ensures End(Init(), [Reserve(0), Reserve(1), Get(1)] + rest) == End(EARLY_READER, rest)
  {
    var s1 := Next(Init(), Reserve(0));
    var s2 := Next(s1, Reserve(1));
    var end := End(EARLY_READER, rest);
    assert Next(s2, Get(1)) == EARLY_READER;
    Prepend(s2, Get(1), rest, end);
    Prepend(s1, Reserve(1), [Get(1)] + rest, end);
    Prepend(Init(), Reserve(0), [Reserve(1)] + ([Get(1)] + rest), end);
    assert [Reserve(0), Reserve(1), Get(1)] + rest == [Reserve(0)] + ([Reserve(1)] + ([Get(1)] + rest));
  }

  lemma EarlyReaderIsTurnedAway(body: string)
    ensures var rest := [Publish(0, body), Store(0), Respond(0), Reply(1)];
            ValidRun(EARLY_READER, rest)
            && End(EARLY_READER, rest).answers == [Given(0, Fresh(Response(ACCEPTED, body))), Given(1, Conflict)]
  {
    var s1 := Next(EARLY_READER, Publish(0, body));
    var s2 := Next(s1, Store(0));
    var s3 := Next(s2, Respond(0));
    var s4 := Next(s3, Reply(1));
    Prepend(s3, Reply(1), [], s4);
    Prepend(s2, Respond(0), [Reply(1)], s4);
    Prepend(s1, Store(0), [Respond(0), Reply(1)], s4);
    Prepend(EARLY_READER, Publish(0, body), [Store(0), Respond(0), Reply(1)], s4);
  }

  /** That happens: a second request reads the reservation, the first stores and answers, and only then is the second
      told of a conflict. */
  lemma AConflictCanFollowTheFreshAnswer(body: string)
    ensures var steps := [Reserve(0), Reserve(1), Get(1)] + [Publish(0, body), Store(0), Respond(0), Reply(1)];
            ValidRun(Init(), steps)
            && End(Init(), steps).answers == [Given(0, Fresh(Response(ACCEPTED, body))), Given(1, Conflict)]
  {
    EarlyReaderIsTurnedAway(body);
    ReachEarlyReader([Publish(0, body), Store(0), Respond(0), Reply(1)]);
  }

  /** Nobody stores into, deletes or leaves behind a reservation that is not its own. */
  lemma OnlyTheHolderWrites(steps: seq<Step>, step: Step)
    requires ValidRun(Init(), steps) && Enabled(End(Init(), steps), step)
    ensures var s := End(Init(), steps);
            Next(s, step).slot != s.slot ==>
              || ((step.Reserve? || step.ReserveFails?) && s.slot == Free)
              || (s.slot == Reserved && s.reservedBy == Some(step.r)
                  && (step.Store? || step.StoreFails? || step.Release?))
  {
    RunKeepsOneHolder(Init(), steps);
    var s := End(Init(), steps);
    assert step.Store? || step.StoreFails? || step.Release? ==> Holds(s, step.r);
  }

  /** A request that failed before storing frees the key, and the next request may publish again. */
  lemma FailureFreesTheKey(steps: seq<Step>, r: Request, status: nat, next: Request)
    requires ValidRun(Init(), steps) && At(End(Init(), steps), r, Failing(status)) && next !in End(Init(), steps).phases
    ensures var s := End(Init(), steps);
            && Enabled(s, Respond(r)) && Enabled(Next(s, Respond(r)), Release(r))
            && var freed := Next(Next(s, Respond(r)), Release(r));
               freed.slot == Free && At(Next(freed, Reserve(next)), next, Publishing)
               && forall q: Request :: !Holds(freed, q)
  {
    RunKeepsOneHolder(Init(), steps);
    var s := End(Init(), steps);
    assert Holds(s, r);
    assert forall q: Request :: Holds(s, q) ==> q == r;
    var freed := Next(Next(s, Respond(r)), Release(r));
    forall q: Request ensures !Holds(freed, q) {
      assert q != r ==> Holds(freed, q) == Holds(s, q);
    }
  }

  // A reservation nobody holds any more.

  /** The key is reserved and whoever reserved it can no longer write it. */
  ghost predicate Orphaned(s: State) {
    s.slot == Reserved && forall r: Request :: !Holds(s, r)
  }

  /** In every reachable state, the steps that orphan a reservation are exactly these: a SET NX that threw although it
      was applied to a free key, before the finish handler was registered; a holder's crash; its lost DEL; and its store
      that threw without having been applied, when the flag was already set, so that nobody deletes the key. */
  lemma OrphanedExactly(before: seq<Step>, step: Step)
    requires ValidRun(Init(), before) && Enabled(End(Init(), before), step)
    ensures var s := End(Init(), before);
            Orphaned(Next(s, step)) <==>
            || Orphaned(s)
            || (step.ReserveFails? && step.applied && s.slot == Free)
            || (Holds(s, step.r) && (step.Vanish? || step.ReleaseFails? || (step.StoreFails? && !step.applied)))
  {
    RunKeepsOneHolder(Init(), before);
    var s := End(Init(), before);
    if Holds(s, step.r) { HolderOrphans(s, step); } else { OthersOrphan(s, step); }
  }

  lemma OthersKeepHolding(s: State, step: Step, q: Request)
    requires Enabled(s, step) && q != step.r
    ensures Holds(Next(s, step), q) == Holds(s, q)
  {
  }

  lemma HolderOrphans(s: State, step: Step)
    requires OneHolder(s) && Enabled(s, step) && Holds(s, step.r)
    ensures Orphaned(Next(s, step)) <==> step.Vanish? || step.ReleaseFails? || (step.StoreFails? && !step.applied)
  {
    var t := Next(s, step);
    forall q: Request ensures Holds(t, q) ==> q == step.r {
      if q != step.r { OthersKeepHolding(s, step, q); }
    }
    assert Orphaned(t) <==> t.slot == Reserved && !Holds(t, step.r);
  }

  lemma OthersOrphan(s: State, step: Step)
    requires OneHolder(s) && Enabled(s, step) && !Holds(s, step.r)
    ensures Orphaned(Next(s, step)) <==> Orphaned(s) || (step.ReserveFails? && step.applied && s.slot == Free)
  {
    var t := Next(s, step);
    forall q: Request | q != step.r ensures Holds(t, q) == Holds(s, q) { OthersKeepHolding(s, step, q); }
    if s.slot == Reserved {
      assert t.slot == Reserved && !Holds(t, step.r);
      assert forall q: Request :: Holds(t, q) == Holds(s, q);
    } else {
      assert t.slot == Reserved && !step.ReserveFails? ==> Holds(t, step.r);
      assert forall q: Request :: q != step.r ==> !Holds(t, q);
    }
  }

  /** Told to come back, or given an error. */
  predicate Refusal(answer: Answer) {
    answer == Conflict || answer == Failure(500) || answer == Unavailable
  }

  lemma {:induction false} OrphansStay(s: State, steps: seq<Step>)
    requires Orphaned(s) && OneHolder(s) && ValidRun(s, steps)
    ensures Orphaned(End(s, steps)) && s.answers <= End(s, steps).answers
    ensures forall i :: |s.answers| <= i < |End(s, steps).answers| ==> Refusal(End(s, steps).answers[i].answer)
    decreases |steps|
  {
    if steps != [] {
      var t := Next(s, steps[0]);
      assert !Holds(s, steps[0].r) && !FoundKept(s, steps[0].r);
      assert forall r: Request :: Holds(t, r) ==> Holds(s, r);
      StepKeepsOneHolder(s, steps[0]);
      OrphansStay(t, steps[1..]);
      assert forall i :: 0 <= i < |t.answers| ==> t.answers[i] == End(s, steps).answers[i];
    }
  }

  /** What the holder does next when nothing fails. */
  function WayOut(s: State, r: Request): seq<Step>
    requires Holds(s, r)
  {
    match s.phases[r]
    case Publishing => [Publish(r, ""), Store(r)]
    case Storing(_) => [Store(r)]
    case Failing(_) => [Respond(r), Release(r)]
    case _ => [Release(r)]
  }

  lemma TwoSteps(s: State, a: Step, b: Step)
    requires Enabled(s, a) && Enabled(Next(s, a), b)
    ensures ValidRun(s, [a, b]) && End(s, [a, b]) == Next(Next(s, a), b)
  {
    var end := Next(Next(s, a), b);
    Prepend(Next(s, a), b, [], end);
    assert [b] + [] == [b] && [a] + [b] == [a, b];
    Prepend(s, a, [b], end);
  }

  lemma HoldersLeave(s: State, r: Request)
    requires Holds(s, r)
    ensures ValidRun(s, WayOut(s, r)) && End(s, WayOut(s, r)).slot != Reserved
  {
    if s.phases[r].Publishing? { TwoSteps(s, Publish(r, ""), Store(r)); }
    else if s.phases[r].Failing? { TwoSteps(s, Respond(r), Release(r)); }
    else { assert WayOut(s, r)[1..] == []; }
  }

  /** The key is reserved in every continuation. */
  ghost predicate Blocked(s: State) {
    forall after :: ValidRun(s, after) ==> End(s, after).slot == Reserved
  }

  lemma BlockedIffOrphaned(s: State)
    requires OneHolder(s)
    ensures Blocked(s) <==> Orphaned(s)
  {
    if Orphaned(s) {
      forall after | ValidRun(s, after) ensures End(s, after).slot == Reserved { OrphansStay(s, after); }
    } else if s.slot == Reserved {
      var r: Request :| Holds(s, r);
      HoldersLeave(s, r);
    } else {
      assert ValidRun(s, []) && End(s, []).slot != Reserved;
    }
  }

  /** In every reachable state the reservation is there for good, until the key's time to live ends, if and only if it
      is orphaned; and then every answer is a conflict, or the error of a request whose own call threw. */
  lemma LostReservationBlocksTheKey(before: seq<Step>)
    requires ValidRun(Init(), before)
    ensures Blocked(End(Init(), before)) <==> Orphaned(End(Init(), before))
    ensures Orphaned(End(Init(), before)) ==>
              forall after, i :: ValidRun(End(Init(), before), after)
                                 && |End(Init(), before).answers| <= i < |End(End(Init(), before), after).answers| ==>
                Refusal(End(End(Init(), before), after).answers[i].answer)
  {
    RunKeepsOneHolder(Init(), before);
    var s := End(Init(), before);
    BlockedIffOrphaned(s);
    if Orphaned(s) {
      forall after | ValidRun(s, after)
        ensures forall i :: |s.answers| <= i < |End(s, after).answers| ==> Refusal(End(s, after).answers[i].answer)
      {
        OrphansStay(s, after);
      }
    }
  }

  // The middleware and the route.

  class Idempotency {
    var store: State

    constructor ()
      ensures store == Init() && OneHolder(store)
    {
      store := Init();
    }

    /** Either the request now holds the key, or it has been answered. */
    method Admit(r: Request) returns (proceed: bool)
      requires Enabled(store, Reserve(r))
      modifies this
      ensures proceed == (old(store.slot) == Free)
      ensures proceed ==> store == Next(old(store), Reserve(r)) && At(store, r, Publishing)
      ensures !proceed ==> store == Next(Next(Next(old(store), Reserve(r)), Get(r)), Reply(r))
                           && store.answers == old(store.answers) + [Given(r, Lookup(old(store.slot)))]
    {
      proceed := store.slot == Free;
      if proceed {
        store := store.(slot := Reserved, phases := store.phases[r := Publishing], reservedBy := Some(r));
      } else {
        store := store.(phases := store.phases[r := Reading]);
        var stored := store.slot;
        var answer := if stored == Free || stored == Reserved then Conflict else Replay(stored.response);
        store := store.(phases := store.phases[r := Found(stored)]);
        store := store.(phases := store.phases[r := Done], answers := store.answers + [Given(r, answer)]);
      }
    }

    /** The route with the finish handler, the store answering and nobody else in between. `outcome` is what publishing
        the event came to: a response body, or the status of the error. */
    method Route(r: Request, outcome: Option<string>, status: nat)
      requires OneHolder(store) && At(store, r, Publishing) && status >= 400
      modifies this
      ensures OneHolder(store) && At(store, r, Done)
      ensures outcome.Some? ==> store.slot == Kept(Response(202, outcome.value))
                                && store.answers ==
                                   old(store.answers) + [Given(r, Fresh(Response(202, outcome.value)))]
      ensures outcome.None? ==> store.slot == Free && store.answers == old(store.answers) + [Given(r, Failure(status))]
    {
      var stored := false;
      if outcome.Some? {
        stored := true;
        Perform(Publish(r, outcome.value));
        Perform(Store(r));
        Perform(Respond(r));
      } else {
        Perform(PublishFails(r, status));
        Perform(Respond(r));
      }
      if !stored { Perform(Release(r)); }
    }

    method Perform(step: Step)
      requires OneHolder(store) && Enabled(store, step)
      modifies this
      ensures store == Next(old(store), step) && OneHolder(store)
    {
      StepKeepsOneHolder(store, step);
      store := Next(store, step);
    }
  }
}
