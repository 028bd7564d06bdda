/** The dashboard's latest-wins gate: one owner whose runs number themselves on the gate, followers that only read it,
    and any order of starts and completions. */
module RequestGate {
  import opened Wrappers

  type RequestId = nat

  /** The refs and the counter of one request. The error is a code standing for what was caught. */
  datatype Request = Request(claimsSequence: bool, ownSeq: nat, loading: bool, error: Option<int>)

  /** One call of `run`: whose it is, the numbers it took when it started, and whether its fetcher is still out. */
  datatype Run = Run(request: RequestId, mine: nat, sequence: nat, pending: bool)

  /** A result handed to onSuccess: which run it came from, and how many runs had started by then. */
  datatype Landing = Landing(run: nat, started: nat)

  /** The gate's number, the requests sharing it (0 is the owner), the runs in starting order, and what has landed. */
  datatype State = State(latest: nat, requests: seq<Request>, runs: seq<Run>, landings: seq<Landing>)

  datatype Step =
    | Follow
    | Start(q: RequestId)
    | Succeed(run: nat)
    | Fail(run: nat, error: int)

  // What one request does, as far as its own refs and the gate go.

  function Numbered(latest: nat, request: Request): nat {
    if request.claimsSequence then latest + 1 else latest
  }

  function Started(request: Request): Request {
    request.(ownSeq := request.ownSeq + 1, loading := true, error := None)
  }

  function Settled(request: Request, mine: nat): Request {
    if mine == request.ownSeq then request.(loading := false) else request
  }

  function Failed(request: Request, mine: nat, current: bool, error: int): Request {
    Settled(if current then request.(error := Some(error)) else request, mine)
  }

  // All of them together.

  predicate Enabled(s: State, step: Step) {
    match step
    case Follow => true
    case Start(q) => q < |s.requests|
    case Succeed(i) => i < |s.runs| && s.runs[i].pending && s.runs[i].request < |s.requests|
    case Fail(i, _) => i < |s.runs| && s.runs[i].pending && s.runs[i].request < |s.requests|
  }

  /** The state after the step; one that is not enabled does nothing. */
  function Next(s: State, step: Step): State {
    if !Enabled(s, step) then s
    else
      match step
      case Follow => s.(requests := s.requests + [Request(false, 0, false, None)])
      case Start(q) =>
        var number := Numbered(s.latest, s.requests[q]);
        State(number, s.requests[q := Started(s.requests[q])],
              s.runs + [Run(q, s.requests[q].ownSeq + 1, number, true)], s.landings)
      case Succeed(i) =>
        var run := s.runs[i];
        State(s.latest, s.requests[run.request := Settled(s.requests[run.request], run.mine)],
              s.runs[i := run.(pending := false)],
              if run.sequence == s.latest then s.landings + [Landing(i, |s.runs|)] else s.landings)
      case Fail(i, error) =>
        var run := s.runs[i];
        State(s.latest,
              s.requests[run.request := Failed(s.requests[run.request], run.mine, run.sequence == s.latest, error)],
              s.runs[i := run.(pending := false)], s.landings)
  }

  function Init(): State {
    State(0, [Request(true, 0, false, None)], [], [])
  }

  ghost predicate ValidRun(s: State, steps: seq<Step>)
    decreases |steps|
  {
    steps == [] || (Enabled(s, steps[0]) && ValidRun(Next(s, steps[0]), steps[1..]))
  }

  ghost function End(s: State, steps: seq<Step>): State
    decreases |steps|
  {
    if steps == [] then s else End(Next(s, steps[0]), steps[1..])
  }

  // The numbers say who started after whom.

  /** No run of the owner is among those that started after run i, up to the first `started`. */
  ghost predicate Unsuperseded(runs: seq<Run>, i: nat, started: nat) {
    forall k :: i < k < started && k < |runs| ==> runs[k].request != 0
  }

  ghost predicate OneOwner(s: State) {
    && |s.requests| > 0
    && (forall q :: 0 <= q < |s.requests| ==> (s.requests[q].claimsSequence <==> q == 0))
    && (forall i :: 0 <= i < |s.runs| ==> s.runs[i].request < |s.requests|)
  }

  ghost predicate Ordered(s: State) {
    && (forall i :: 0 <= i < |s.runs| ==> s.runs[i].sequence <= s.latest)
    && (forall i, k :: 0 <= i < k < |s.runs| && s.runs[k].request == 0 ==> s.runs[i].sequence < s.runs[k].sequence)
    && (forall i :: 0 <= i < |s.runs| && Unsuperseded(s.runs, i, |s.runs|) ==> s.runs[i].sequence == s.latest)
  }

  lemma CurrentIffUnsuperseded(s: State, i: nat)
    requires Ordered(s) && i < |s.runs|
    ensures s.runs[i].sequence == s.latest <==> Unsuperseded(s.runs, i, |s.runs|)
  {
  }

  lemma StepKeepsOneOwner(s: State, step: Step)
    requires OneOwner(s) && Enabled(s, step)
    ensures OneOwner(Next(s, step))
  {
    assert forall i :: 0 <= i < |s.runs| ==> Next(s, step).runs[i].request == s.runs[i].request;
  }

  lemma StartKeepsOrdered(s: State, q: RequestId)
    requires OneOwner(s) && Ordered(s) && Enabled(s, Start(q))
    ensures Ordered(Next(s, Start(q)))
  {
    var t := Next(s, Start(q));
    forall i | 0 <= i < |t.runs| && Unsuperseded(t.runs, i, |t.runs|) ensures t.runs[i].sequence == t.latest {
      if i < |s.runs| {
        assert forall k :: 0 <= k < |s.runs| ==> t.runs[k] == s.runs[k];
        assert Unsuperseded(s.runs, i, |s.runs|);
        assert t.runs[|s.runs|].request != 0;
      }
    }
  }

  lemma OthersKeepOrdered(s: State, step: Step)
    requires Ordered(s) && Enabled(s, step) && !step.Start?
    ensures Ordered(Next(s, step))
  {
    var t := Next(s, step);
    assert forall i :: 0 <= i < |s.runs| ==>
        t.runs[i].request == s.runs[i].request && t.runs[i].sequence == s.runs[i].sequence;
    forall i | 0 <= i < |t.runs| && Unsuperseded(t.runs, i, |t.runs|) ensures t.runs[i].sequence == t.latest {
      assert Unsuperseded(s.runs, i, |s.runs|);
    }
  }

  lemma StepKeepsOrdered(s: State, step: Step)
    requires OneOwner(s) && Ordered(s) && Enabled(s, step)
    ensures OneOwner(Next(s, step)) && Ordered(Next(s, step))
  {
    StepKeepsOneOwner(s, step);
    if step.Start? { StartKeepsOrdered(s, step.q); } else { OthersKeepOrdered(s, step); }
  }

  // What lands.

  ghost predicate LandingsHold(s: State) {
    && (forall p :: 0 <= p < |s.landings| ==>
          && s.landings[p].run < s.landings[p].started <= |s.runs|
          && !s.runs[s.landings[p].run].pending
          && Unsuperseded(s.runs, s.landings[p].run, s.landings[p].started))
    && (forall p, r :: 0 <= p < r < |s.landings| ==>
          s.landings[p].run != s.landings[r].run && s.landings[p].started <= s.landings[r].started)
  }

  lemma StepKeepsLandings(s: State, step: Step)
    requires OneOwner(s) && Ordered(s) && LandingsHold(s) && Enabled(s, step)
    ensures LandingsHold(Next(s, step))
  {
    var t := Next(s, step);
    assert forall i :: 0 <= i < |s.runs| ==>
      t.runs[i].request == s.runs[i].request && (t.runs[i].pending ==> s.runs[i].pending);
    forall p | 0 <= p < |t.landings|
      ensures t.landings[p].run < t.landings[p].started <= |t.runs| && !t.runs[t.landings[p].run].pending
      ensures Unsuperseded(t.runs, t.landings[p].run, t.landings[p].started)
    {
      if p < |s.landings| {
        assert t.landings[p] == s.landings[p];
        assert Unsuperseded(s.runs, s.landings[p].run, s.landings[p].started);
      } else {
        CurrentIffUnsuperseded(s, step.run);
      }
    }
  }

  ghost predicate Holds(s: State) {
    OneOwner(s) && Ordered(s) && LandingsHold(s)
  }

  lemma {:induction false} RunHolds(s: State, steps: seq<Step>)
    requires Holds(s) && ValidRun(s, steps)
    ensures Holds(End(s, steps))
    decreases |steps|
  {
    if steps != [] {
      StepKeepsOrdered(s, steps[0]);
      StepKeepsLandings(s, steps[0]);
      RunHolds(Next(s, steps[0]), steps[1..]);
    }
  }

  /** In every order of starts and completions, a result lands exactly when no run of the owner has started since its
      own run did. */
  lemma LandsIffNothingNewer(steps: seq<Step>, i: nat)
    requires ValidRun(Init(), steps) && Enabled(End(Init(), steps), Succeed(i))
    ensures var s := End(Init(), steps);
            Next(s, Succeed(i)).landings == (if forall k :: i < k < |s.runs| ==> s.runs[k].request != 0
                                             then s.landings + [Landing(i, |s.runs|)] else s.landings)
  {
    RunHolds(Init(), steps);
    CurrentIffUnsuperseded(End(Init(), steps), i);
  }

  /** The owner's results that land come from ever later runs, with strictly increasing numbers. */
  lemma OwnerResultsOnlyGetNewer(steps: seq<Step>, p: nat, r: nat)
    requires ValidRun(Init(), steps) && p < r < |End(Init(), steps).landings|
    ensures var s := End(Init(), steps);
            var first, second := s.landings[p].run, s.landings[r].run;
            && first < |s.runs| && second < |s.runs|
            && (s.runs[first].request == 0 && s.runs[second].request == 0 ==>
                  first < second && s.runs[first].sequence < s.runs[second].sequence)
  {
    RunHolds(Init(), steps);
    var s := End(Init(), steps);
    assert Unsuperseded(s.runs, s.landings[r].run, s.landings[r].started);
  }

  /** No result, a follower's included, lands once the owner has started a run after it. */
  lemma NothingLandsAfterANewerOwnerRun(steps: seq<Step>, p: nat, k: nat)
    requires ValidRun(Init(), steps)
    requires var s := End(Init(), steps); p < |s.landings| && s.landings[p].run < k < |s.runs| && s.runs[k].request == 0
    ensures k >= End(Init(), steps).landings[p].started
  {
    RunHolds(Init(), steps);
    var s := End(Init(), steps);
    assert Unsuperseded(s.runs, s.landings[p].run, s.landings[p].started);
  }

  /** Between themselves a follower's runs are not gated: the older of two can land last. */
  lemma FollowerResultsMayLandOutOfOrder()
    ensures var steps := [Follow, Start(1), Start(1), Succeed(1), Succeed(0)];
            ValidRun(Init(), steps) && End(Init(), steps).landings == [Landing(1, 2), Landing(0, 2)]
  {
    var s1 := Next(Init(), Follow);
    var s2 := Next(s1, Start(1));
    var s3 := Next(s2, Start(1));
    var s4 := Next(s3, Succeed(1));
    var s5 := Next(s4, Succeed(0));
    Prepend(s4, Succeed(0), [], s5);
    Prepend(s3, Succeed(1), [Succeed(0)], s5);
    Prepend(s2, Start(1), [Succeed(1), Succeed(0)], s5);
    Prepend(s1, Start(1), [Start(1), Succeed(1), Succeed(0)], s5);
    Prepend(Init(), Follow, [Start(1), Start(1), Succeed(1), Succeed(0)], s5);
  }

  lemma Prepend(s: State, step: Step, rest: seq<Step>, end: State)
    requires Enabled(s, step) && ValidRun(Next(s, step), rest) && End(Next(s, step), rest) == end
    ensures ValidRun(s, [step] + rest) && End(s, [step] + rest) == end
  {
    assert ([step] + rest)[1..] == rest;
  }

  // Loading.

  predicate IsNewest(s: State, q: RequestId, i: nat)
    requires q < |s.requests| && i < |s.runs|
  {
    s.runs[i].request == q && s.runs[i].mine == s.requests[q].ownSeq
  }

  /** Runs of q are numbered upwards to its own counter, and the ref tells whether the one with that number is out. */
  ghost predicate LoadingHolds(s: State, q: RequestId)
    requires q < |s.requests|
  {
    && (forall i :: 0 <= i < |s.runs| && s.runs[i].request == q ==> s.runs[i].mine <= s.requests[q].ownSeq)
    && (forall i, k :: 0 <= i < k < |s.runs| && s.runs[i].request == q && s.runs[k].request == q
          ==> s.runs[i].mine < s.runs[k].mine)
    && (s.requests[q].loading <==> exists i :: 0 <= i < |s.runs| && IsNewest(s, q, i) && s.runs[i].pending)
    && (forall i :: 0 <= i < |s.runs| && s.runs[i].request == q ==> exists k :: 0 <= k < |s.runs| && IsNewest(s, q, k))
  }

  lemma FollowKeepsLoading(s: State, q: RequestId)
    requires OneOwner(s) && q <= |s.requests| && (q < |s.requests| ==> LoadingHolds(s, q))
    ensures LoadingHolds(Next(s, Follow), q)
  {
    var t := Next(s, Follow);
    if q < |s.requests| {
      forall i | 0 <= i < |s.runs| ensures IsNewest(t, q, i) <==> IsNewest(s, q, i) {}
    }
  }

  lemma StartKeepsLoading(s: State, started: RequestId, q: RequestId)
    requires Enabled(s, Start(started)) && q < |s.requests| && LoadingHolds(s, q)
    ensures LoadingHolds(Next(s, Start(started)), q)
  {
    var t, n := Next(s, Start(started)), |s.runs|;
    assert IsNewest(t, started, n) && t.runs[n].pending;
    if q != started {
      forall i | 0 <= i < |t.runs| ensures IsNewest(t, q, i) <==> i < n && IsNewest(s, q, i) {}
    }
  }

  lemma SettleKeepsLoading(s: State, step: Step, q: RequestId)
    requires Enabled(s, step) && (step.Succeed? || step.Fail?) && q < |s.requests| && LoadingHolds(s, q)
    ensures LoadingHolds(Next(s, step), q)
  {
    var t := Next(s, step);
    forall i | 0 <= i < |s.runs|
      ensures IsNewest(t, q, i) <==> IsNewest(s, q, i)
      ensures t.runs[i].pending <==> s.runs[i].pending && i != step.run
    {
    }
  }

  lemma StepKeepsLoading(s: State, step: Step)
    requires Enabled(s, step) && OneOwner(s) && forall q :: 0 <= q < |s.requests| ==> LoadingHolds(s, q)
    ensures forall q :: 0 <= q < |Next(s, step).requests| ==> LoadingHolds(Next(s, step), q)
  {
    forall q | 0 <= q < |Next(s, step).requests| ensures LoadingHolds(Next(s, step), q) {
      match step
      case Follow => FollowKeepsLoading(s, q);
      case Start(started) => StartKeepsLoading(s, started, q);
      case _ => SettleKeepsLoading(s, step, q);
    }
  }

  lemma {:induction false} RunKeepsLoading(s: State, steps: seq<Step>)
    requires ValidRun(s, steps) && OneOwner(s) && forall q :: 0 <= q < |s.requests| ==> LoadingHolds(s, q)
    ensures forall q :: 0 <= q < |End(s, steps).requests| ==> LoadingHolds(End(s, steps), q)
    decreases |steps|
  {
    if steps != [] {
      StepKeepsOneOwner(s, steps[0]);
      StepKeepsLoading(s, steps[0]);
      RunKeepsLoading(Next(s, steps[0]), steps[1..]);
    }
  }

  /** `loading` is on exactly while the request's newest run is pending. */
  ghost predicate LoadingIsRight(s: State, q: RequestId)
    requires q < |s.requests|
  {
    s.requests[q].loading <==>
    exists i :: 0 <= i < |s.runs| && s.runs[i].request == q && s.runs[i].pending
                && forall k :: i < k < |s.runs| ==> s.runs[k].request != q
  }

  lemma LoadingFollows(s: State, q: RequestId)
    requires q < |s.requests| && LoadingHolds(s, q)
    ensures LoadingIsRight(s, q)
  {
    if i :| 0 <= i < |s.runs| && s.runs[i].request == q && s.runs[i].pending
            && (forall k :: i < k < |s.runs| ==> s.runs[k].request != q) {
      var newest :| 0 <= newest < |s.runs| && IsNewest(s, q, newest);
      assert IsNewest(s, q, i);
    }
  }

  /** In every run, `loading` is true exactly while the newest run of that request is pending. */
  lemma LoadingTracksTheNewestRun(steps: seq<Step>, q: RequestId)
    requires ValidRun(Init(), steps) && q < |End(Init(), steps).requests|
    ensures LoadingIsRight(End(Init(), steps), q)
  {
    RunKeepsLoading(Init(), steps);
    LoadingFollows(End(Init(), steps), q);
  }

  /** No run of the owner has started after run i. */
  ghost predicate Newest(s: State, i: nat) {
    forall k :: i < k < |s.runs| ==> s.runs[k].request != 0
  }

  lemma FollowersSupersedeNothing(s: State, q: RequestId)
    requires 0 < q < |s.requests|
    ensures forall i :: 0 <= i < |s.runs| ==> (Newest(Next(s, Start(q)), i) <==> Newest(s, i))
  {
    var t := Next(s, Start(q));
    assert forall k :: 0 <= k < |s.runs| ==> t.runs[k] == s.runs[k];
  }

  lemma SettlingKeepsNewest(s: State, step: Step)
    requires Ordered(s) && Enabled(s, step) && (step.Succeed? || step.Fail?)
    ensures Newest(Next(s, step), step.run) <==> s.runs[step.run].sequence == s.latest
  {
    CurrentIffUnsuperseded(s, step.run);
    var t := Next(s, step);
    assert forall k :: 0 <= k < |s.runs| ==> t.runs[k].request == s.runs[k].request;
  }

  // The gate and its requests.

  lemma StartShape(s: State, q: RequestId)
    requires q < |s.requests|
    ensures var t, number := Next(s, Start(q)), Numbered(s.latest, s.requests[q]);
            && t.latest == number && |t.requests| == |s.requests| && t.requests[q] == Started(s.requests[q])
            && |t.runs| == |s.runs| + 1 && t.runs[|s.runs|] == Run(q, s.requests[q].ownSeq + 1, number, true)
  {
  }

  class Gate {
    var latest: nat
    /** Everything the requests sharing this gate have done. */
    ghost var history: State

    constructor ()
      ensures latest == 0 && history == Init() && Valid()
    {
      latest, history := 0, Init();
    }

    ghost predicate Valid()
      reads this
    {
      && latest == history.latest
      && Holds(history) && forall q :: 0 <= q < |history.requests| ==> LoadingHolds(history, q)
    }
  }

  class GatedRequest {
    const gate: Gate
    const claimsSequence: bool
    /** Its number among the requests sharing the gate, in the order they were created. */
    ghost const id: RequestId
    var ownSeq: nat
    var loading: bool
    var error: Option<int>

    /** useSequencedRequest: a request with a gate of its own. */
    constructor Owner()
      ensures fresh(gate) && id == 0 && Valid() && gate.history == Init()
    {
      gate := new Gate();
      claimsSequence, id, ownSeq, loading, error := true, 0, 0, false, None;
    }

    constructor Following(gate: Gate)
      requires gate.Valid()
      modifies gate`history
      ensures this.gate == gate && id == |old(gate.history.requests)| && Valid()
      ensures gate.history == Next(old(gate.history), Follow)
    {
      this.gate := gate;
      claimsSequence, id, ownSeq, loading, error := false, |gate.history.requests|, 0, false, None;
      new;
      Record(Follow);
    }

    function View(): Request
      reads this
    {
      Request(claimsSequence, ownSeq, loading, error)
    }

    /** The refs are what the history says of this request. */
    ghost predicate Valid()
      reads this, gate
    {
      gate.Valid() && id < |gate.history.requests| && gate.history.requests[id] == View()
    }

    /** Steps of the other requests on the gate do not disturb this one. */
    twostate lemma StaysValid(step: Step)
      requires old(Valid()) && unchanged(this) && gate.Valid()
      requires Enabled(old(gate.history), step) && gate.history == Next(old(gate.history), step)
      requires step.Start? ==> step.q != id
      requires step.Succeed? || step.Fail? ==> old(gate.history).runs[step.run].request != id
      ensures Valid()
    {
    }

    /** One more step in the history of the gate. */
    ghost method Record(step: Step)
      requires Holds(gate.history) && (forall q :: 0 <= q < |gate.history.requests| ==> LoadingHolds(gate.history, q))
      requires Enabled(gate.history, step) && Next(gate.history, step).latest == gate.latest
      modifies gate`history
      ensures gate.history == Next(old(gate.history), step) && gate.Valid()
    {
      StepKeepsOrdered(gate.history, step);
      StepKeepsLandings(gate.history, step);
      StepKeepsLoading(gate.history, step);
      gate.history := Next(gate.history, step);
    }

    /** `run`, up to the fetcher: a step of the machine, as run number `run`. From now on `loading` follows this run. */
    method Begin() returns (mine: nat, sequence: nat, ghost run: nat)
      requires Valid()
      modifies this, gate
      ensures Valid() && gate.history == Next(old(gate.history), Start(id))
      ensures run == |old(gate.history.runs)| && gate.history.runs[run] == Run(id, mine, sequence, true)
      ensures loading && error == None && LoadingIsRight(gate.history, id)
    {
      run := |gate.history.runs|;
      ownSeq := ownSeq + 1;
      mine := ownSeq;
      if claimsSequence { gate.latest := gate.latest + 1; }
      sequence := gate.latest;
      loading := true;
      error := None;
      assert gate.history.requests[id] == old(View());
      StartShape(gate.history, id);
      Record(Start(id));
      LoadingFollows(gate.history, id);
    }

    /** `run`, from a fetched result on. The result lands exactly if no run of the owner has started since this one did,
        and `loading` goes off exactly if this was the request's newest run. */
    method Resolve(mine: nat, sequence: nat, ghost run: nat) returns (lands: bool)
      requires Valid() && run < |gate.history.runs| && gate.history.runs[run] == Run(id, mine, sequence, true)
      modifies this, gate`history
      ensures Valid() && gate.history == Next(old(gate.history), Succeed(run))
      ensures lands <==> Newest(gate.history, run)
      ensures error == old(error) && LoadingIsRight(gate.history, id)
    {
      SettlingKeepsNewest(gate.history, Succeed(run));
      lands := sequence == gate.latest;
      if mine == ownSeq { loading := false; }
      Record(Succeed(run));
      LoadingFollows(gate.history, id);
    }

    /** `run`, from a caught error on. The error is kept exactly if no run of the owner has started since, and `loading`
        goes off exactly if this was the request's newest run. */
    method Reject(mine: nat, sequence: nat, caught: int, ghost run: nat)
      requires Valid() && run < |gate.history.runs| && gate.history.runs[run] == Run(id, mine, sequence, true)
      modifies this, gate`history
      ensures Valid() && gate.history == Next(old(gate.history), Fail(run, caught))
      ensures error == if Newest(gate.history, run) then Some(caught) else old(error)
      ensures LoadingIsRight(gate.history, id)
    {
      SettlingKeepsNewest(gate.history, Fail(run, caught));
      if sequence == gate.latest { error := Some(caught); }
      if mine == ownSeq { loading := false; }
      Record(Fail(run, caught));
      LoadingFollows(gate.history, id);
    }

    /** A request that reads this one's gate without ever claiming it. */
    method Follower() returns (follower: GatedRequest)
      requires Valid()
      modifies gate`history
      ensures fresh(follower) && follower.gate == gate && !follower.claimsSequence && follower.Valid() && Valid()
      ensures gate.history == Next(old(gate.history), Follow)
    {
      follower := new GatedRequest.Following(gate);
    }
  }
  /** A store with a list and a way to get more of it: `more` follows `list`. */
  class ListStore {
    const list: GatedRequest
    const more: GatedRequest

    constructor ()
      ensures Valid() && fresh(list) && fresh(more) && fresh(list.gate)
    {
      var owner := new GatedRequest.Owner();
      var follower := owner.Follower();
      list, more := owner, follower;
    }

    ghost predicate Valid()
      reads this, list, more, list.gate, more.gate
    {
      list != more && list.gate == more.gate && list.id == 0 && more.id != 0 && list.Valid() && more.Valid()
    }

    /** Nothing under way before a load lands any more, neither an earlier load nor more of the old list. */
    method Load() returns (mine: nat, sequence: nat, ghost run: nat)
      requires Valid()
      modifies list, list.gate
      ensures Valid() && list.loading
      ensures list.gate.history == Next(old(list.gate.history), Start(0)) && run == |old(list.gate.history.runs)|
      ensures forall i :: 0 <= i < run ==> !Newest(list.gate.history, i)
    {
      label before:
      mine, sequence, run := list.Begin();
      more.StaysValid@before(Start(0));
      assert list.gate.history.runs[run].request == 0;
    }

    /** One page more at a time, and only if there is one; what is under way lands as it would have. */
    method LoadMore(hasMore: bool) returns (started: bool, mine: nat, sequence: nat, ghost run: nat)
      requires Valid()
      modifies more, more.gate
      ensures Valid() && started == (hasMore && !old(more.loading))
      ensures list.gate.history == if started then Next(old(list.gate.history), Start(more.id))
                                   else old(list.gate.history)
      ensures forall i :: 0 <= i < |old(list.gate.history.runs)| ==>
                (Newest(list.gate.history, i) <==> Newest(old(list.gate.history), i))
    {
      started, mine, sequence, run := hasMore && !more.loading, 0, 0, 0;
      if started {
        label before:
        mine, sequence, run := more.Begin();
        list.StaysValid@before(Start(more.id));
        FollowersSupersedeNothing(old(list.gate.history), more.id);
      }
    }
  }
}
