/** Refresh tokens: sign-in, rotation, logout and the family-wide revocation on replay, with every database call a step
    of its own and any number of requests in between. */
module RefreshRotation {
  import opened Sets
  import opened Wrappers

  type User = string
  type TokenId = nat
  type CallId = nat

  datatype Token = Token(user: User, expiresAt: int, revokedAt: Option<int>)

  /** Where a request stands between two database calls. */
  datatype Phase =
    | Rotating(token: TokenId, user: User)   // usableToken returned this record
    | Revoking(user: User)                   // a replay was seen
    | Issuing(user: User)                    // signed in, or rotated: about to create a token
    | Done

  /** The token rows and the requests; as history, every rotation that matched and every sign-in. */
  datatype State = State(tokens: map<TokenId, Token>, calls: map<CallId, Phase>,
                         rotations: multiset<TokenId>, signIns: multiset<User>)

  datatype Step =
    | SignIn(c: CallId, user: User)                          // login or registration, credentials accepted
    | Present(c: CallId, token: TokenId, now: int)           // usableToken's read
    | Rotate(c: CallId, now: int)                            // updateMany on the unrevoked row
    | RevokeFamily(c: CallId, now: int)                      // updateMany on the user's unrevoked rows
    | Issue(c: CallId, token: TokenId, now: int, ttl: int)   // create
    | Logout(token: TokenId, now: int)
    | Abort(c: CallId)                                       // the process dies, or a database call throws

  predicate Enabled(s: State, step: Step) {
    match step
    case SignIn(c, _) => c !in s.calls
    case Present(c, _, _) => c !in s.calls
    case Rotate(c, _) => c in s.calls && s.calls[c].Rotating?
    case RevokeFamily(c, _) => c in s.calls && s.calls[c].Revoking?
    case Issue(c, token, _, _) => c in s.calls && s.calls[c].Issuing? && token !in s.tokens
    case Logout(_, _) => true
    case Abort(c) => c in s.calls
  }

  predicate IsLive(tokens: map<TokenId, Token>, id: TokenId) {
    id in tokens && tokens[id].revokedAt == None
  }

  function Revoked(tokens: map<TokenId, Token>, id: TokenId, now: int): map<TokenId, Token> {
    if IsLive(tokens, id) then tokens[id := tokens[id].(revokedAt := Some(now))] else tokens
  }

  function FamilyRevoked(tokens: map<TokenId, Token>, user: User, now: int): map<TokenId, Token> {
    map id | id in tokens ::
      if tokens[id].user == user && IsLive(tokens, id) then tokens[id].(revokedAt := Some(now)) else tokens[id]
  }

  /** What usableToken makes of a presented token. */
  function Presented(tokens: map<TokenId, Token>, id: TokenId, now: int): Phase {
    if id !in tokens || tokens[id].expiresAt <= now then Done
    else if tokens[id].revokedAt.Some? then Revoking(tokens[id].user)
    else Rotating(id, tokens[id].user)
  }

  function Next(s: State, step: Step): State
    requires Enabled(s, step)
  {
    match step
    case SignIn(c, user) => s.(calls := s.calls[c := Issuing(user)], signIns := s.signIns + multiset{user})
    case Present(c, token, now) => s.(calls := s.calls[c := Presented(s.tokens, token, now)])
    case Rotate(c, now) =>
      var id := s.calls[c].token;
      if IsLive(s.tokens, id)
      then s.(tokens := Revoked(s.tokens, id, now), calls := s.calls[c := Issuing(s.calls[c].user)],
              rotations := s.rotations + multiset{id})
      else s.(calls := s.calls[c := Done])
    case RevokeFamily(c, now) =>
      s.(tokens := FamilyRevoked(s.tokens, s.calls[c].user, now), calls := s.calls[c := Done])
    case Issue(c, token, now, ttl) =>
      s.(tokens := s.tokens[token := Token(s.calls[c].user, now + ttl, None)], calls := s.calls[c := Done])
    case Logout(token, now) => s.(tokens := Revoked(s.tokens, token, now))
    case Abort(c) => s.(calls := s.calls[c := Done])
  }

  function Init(): State {
    State(map[], map[], multiset{}, multiset{})
  }

  ghost predicate ValidRun(s: State, steps: seq<Step>)
    decreases |steps|
  {
    steps == [] || (Enabled(s, steps[0]) && ValidRun(Next(s, steps[0]), steps[1..]))
  }

  ghost function End(s: State, steps: seq<Step>): State
    requires ValidRun(s, steps)
    decreases |steps|
  {
    if steps == [] then s else End(Next(s, steps[0]), steps[1..])
  }

  // A row, once revoked, is settled.

  /** Every row of `before` is still there, for the same user and the same time, and its revocation has not moved. */
  ghost predicate Settled(before: map<TokenId, Token>, after: map<TokenId, Token>) {
    forall id :: id in before ==>
      && id in after
      && after[id].user == before[id].user
      && after[id].expiresAt == before[id].expiresAt
      && (before[id].revokedAt.Some? ==> after[id].revokedAt == before[id].revokedAt)
  }

  lemma {:induction false} RevocationIsFinal(s: State, steps: seq<Step>)
    requires ValidRun(s, steps)
    ensures Settled(s.tokens, End(s, steps).tokens)
    decreases |steps|
  {
    if steps != [] {
      StepSettles(s, steps[0]);
      RevocationIsFinal(Next(s, steps[0]), steps[1..]);
    }
  }

  // A token is rotated at most once.

  /** A request about to rotate knows the user of the row it read. */
  ghost predicate KnowsUser(s: State, c: CallId) {
    c in s.calls && s.calls[c].Rotating? ==>
      s.calls[c].token in s.tokens && s.tokens[s.calls[c].token].user == s.calls[c].user
  }

  ghost predicate RotatedOnce(s: State, id: TokenId) {
    s.rotations[id] <= 1 && (s.rotations[id] == 1 ==> id in s.tokens && s.tokens[id].revokedAt.Some?)
  }

  ghost predicate Consistent(s: State) {
    (forall c :: KnowsUser(s, c)) && (forall id :: RotatedOnce(s, id))
  }

  lemma StepSettles(s: State, step: Step)
    requires Enabled(s, step)
    ensures Settled(s.tokens, Next(s, step).tokens)
  {
  }

  lemma StepKeepsRotatedOnce(s: State, step: Step, id: TokenId)
    requires RotatedOnce(s, id) && Enabled(s, step)
    ensures RotatedOnce(Next(s, step), id)
  {
    StepSettles(s, step);
  }

  lemma StepKeepsKnowsUser(s: State, step: Step, c: CallId)
    requires KnowsUser(s, c) && Enabled(s, step)
    ensures KnowsUser(Next(s, step), c)
  {
    StepSettles(s, step);
  }

  lemma StepKeepsConsistent(s: State, step: Step)
    requires Consistent(s) && Enabled(s, step)
    ensures Consistent(Next(s, step))
  {
    forall c { StepKeepsKnowsUser(s, step, c); }
    forall id { StepKeepsRotatedOnce(s, step, id); }
  }

  lemma {:induction false} RunKeepsConsistent(s: State, steps: seq<Step>)
    requires Consistent(s) && ValidRun(s, steps)
    ensures Consistent(End(s, steps))
    decreases |steps|
  {
    if steps != [] {
      StepKeepsConsistent(s, steps[0]);
      RunKeepsConsistent(Next(s, steps[0]), steps[1..]);
    }
  }

  /** However requests race with one token, it is rotated at most once ever, and once rotated it is revoked. */
  lemma RotatedAtMostOnce(steps: seq<Step>, id: TokenId)
    requires ValidRun(Init(), steps)
    ensures var s := End(Init(), steps);
            s.rotations[id] <= 1 && (s.rotations[id] == 1 ==> id in s.tokens && s.tokens[id].revokedAt.Some?)
  {
    RunKeepsConsistent(Init(), steps);
    assert RotatedOnce(End(Init(), steps), id);
  }

  // A rotation was asked for in time.

  /** In the state after the first n steps of the run. */
  ghost function Reached(steps: seq<Step>, n: nat): State
    requires ValidRun(Init(), steps) && n <= |steps|
  {
    PrefixRuns(Init(), steps, n);
    End(Init(), steps[..n])
  }

  lemma {:induction false} PrefixRuns(s: State, steps: seq<Step>, n: nat)
    requires ValidRun(s, steps) && n <= |steps|
    ensures ValidRun(s, steps[..n])
    ensures n < |steps| ==> Enabled(End(s, steps[..n]), steps[n])
    ensures n < |steps| ==> ValidRun(s, steps[..n + 1])
                            && End(s, steps[..n + 1]) == Next(End(s, steps[..n]), steps[n])
    decreases n
  {
    if n > 0 {
      PrefixRuns(Next(s, steps[0]), steps[1..], n - 1);
      assert steps[..n][1..] == steps[1..][..n - 1];
      if n < |steps| { assert steps[..n + 1][1..] == steps[1..][..n]; }
    } else if n < |steps| {
      assert steps[..1][1..] == [];
    }
  }

  /** Step i of the run is c's own: it read the row of id, neither revoked then nor expired at the time it read. */
  ghost predicate ReadUsable(steps: seq<Step>, i: nat, c: CallId, id: TokenId, expiresAt: int)
    requires ValidRun(Init(), steps)
  {
    && i < |steps| && steps[i].Present? && steps[i].c == c && steps[i].token == id
    && id in Reached(steps, i).tokens && Reached(steps, i).tokens[id].revokedAt == None
    && steps[i].now < Reached(steps, i).tokens[id].expiresAt == expiresAt
  }

  lemma {:induction false} RotatingReadUsable(steps: seq<Step>, n: nat, c: CallId)
    requires ValidRun(Init(), steps) && n <= |steps|
    requires c in Reached(steps, n).calls && Reached(steps, n).calls[c].Rotating?
    ensures var s := Reached(steps, n); var id := s.calls[c].token;
            id in s.tokens && exists i :: 0 <= i < n && ReadUsable(steps, i, c, id, s.tokens[id].expiresAt)
    decreases n
  {
    if n > 0 {
      var s, t := Reached(steps, n - 1), Reached(steps, n);
      PrefixRuns(Init(), steps, n - 1);
      StepSettles(s, steps[n - 1]);
      if steps[n - 1].Present? && steps[n - 1].c == c {
        assert ReadUsable(steps, n - 1, c, t.calls[c].token, t.tokens[t.calls[c].token].expiresAt);
      } else {
        RotatingReadUsable(steps, n - 1, c);
        var id := s.calls[c].token;
        var i :| 0 <= i < n - 1 && ReadUsable(steps, i, c, id, s.tokens[id].expiresAt);
      }
    }
  }

  /** In every run, however requests interleave: a rotation that matched revokes a row that its own request had read,
      unrevoked, before its expiry. So an expired token is never swapped for a new one, nor a token nobody presented. */
  lemma RotationsWerePresentedInTime(steps: seq<Step>, n: nat, id: TokenId)
    requires ValidRun(Init(), steps) && n < |steps|
    requires Reached(steps, n + 1).rotations[id] > Reached(steps, n).rotations[id]
    ensures steps[n].Rotate? && id in Reached(steps, n).tokens
    ensures exists i :: 0 <= i < n && ReadUsable(steps, i, steps[n].c, id, Reached(steps, n).tokens[id].expiresAt)
  {
    PrefixRuns(Init(), steps, n);
    RotatingReadUsable(steps, n, steps[n].c);
  }

  // A token logged out is over.

  /** Logging out revokes the presented token, once and for all, and no other row. */
  lemma LogoutIsForGood(s: State, id: TokenId, now: int, after: seq<Step>)
    requires ValidRun(Next(s, Logout(id, now)), after)
    ensures var t := Next(s, Logout(id, now));
            && t.tokens - {id} == s.tokens - {id} && t.calls == s.calls
            && (id in s.tokens ==>
                  && id in t.tokens
                  && (s.tokens[id].revokedAt == None ==> t.tokens[id] == s.tokens[id].(revokedAt := Some(now)))
                  && id in End(t, after).tokens && End(t, after).tokens[id].revokedAt.Some?)
  {
    RevocationIsFinal(Next(s, Logout(id, now)), after);
  }

  // Sessions are conserved.

  ghost function LiveTokens(tokens: map<TokenId, Token>, user: User): set<TokenId> {
    set id | id in tokens && IsLive(tokens, id) && tokens[id].user == user
  }

  ghost function IssuingCalls(calls: map<CallId, Phase>, user: User): set<CallId> {
    set c | c in calls && calls[c] == Issuing(user)
  }

  ghost function Live(s: State, user: User): set<TokenId> {
    LiveTokens(s.tokens, user)
  }

  ghost function Pending(s: State, user: User): set<CallId> {
    IssuingCalls(s.calls, user)
  }

  ghost function Sessions(s: State, user: User): nat {
    |Live(s, user)| + |Pending(s, user)|
  }

  lemma CallMoves(calls: map<CallId, Phase>, c: CallId, phase: Phase, user: User)
    ensures IssuingCalls(calls[c := phase], user) ==
            if phase == Issuing(user) then IssuingCalls(calls, user) + {c} else IssuingCalls(calls, user) - {c}
  {
  }

  lemma TokenRevoked(tokens: map<TokenId, Token>, id: TokenId, now: int, user: User)
    ensures LiveTokens(Revoked(tokens, id, now), user) == LiveTokens(tokens, user) - {id}
  {
  }

  lemma TokenCreated(tokens: map<TokenId, Token>, id: TokenId, token: Token, user: User)
    requires id !in tokens && token.revokedAt == None
    ensures LiveTokens(tokens[id := token], user) ==
            if token.user == user then LiveTokens(tokens, user) + {id} else LiveTokens(tokens, user)
  {
  }

  lemma SignInAddsOne(s: State, step: Step, user: User)
    requires Enabled(s, step) && step.SignIn?
    ensures Sessions(Next(s, step), user) <= Sessions(s, user) + if step.user == user then 1 else 0
  {
    CallMoves(s.calls, step.c, Issuing(step.user), user);
    SubsetSize(IssuingCalls(s.calls, user) - {step.c}, IssuingCalls(s.calls, user));
  }

  lemma RotateMovesOne(s: State, step: Step, user: User)
    requires Enabled(s, step) && step.Rotate? && KnowsUser(s, step.c)
    ensures Sessions(Next(s, step), user) <= Sessions(s, user)
  {
    var id, u := s.calls[step.c].token, s.calls[step.c].user;
    if IsLive(s.tokens, id) {
      TokenRevoked(s.tokens, id, step.now, user);
      CallMoves(s.calls, step.c, Issuing(u), user);
      assert u == user ==> id in Live(s, user);
      assert u != user ==> id !in Live(s, user);
    } else {
      CallMoves(s.calls, step.c, Done, user);
    }
    SubsetSize(Pending(s, user) - {step.c}, Pending(s, user));
  }

  lemma IssueMovesOne(s: State, step: Step, user: User)
    requires Enabled(s, step) && step.Issue?
    ensures Sessions(Next(s, step), user) <= Sessions(s, user)
  {
    var t := Next(s, step);
    CallMoves(s.calls, step.c, Done, user);
    TokenCreated(s.tokens, step.token, t.tokens[step.token], user);
    SubsetSize(Pending(t, user), Pending(s, user));
    assert s.calls[step.c].user == user ==> step.c in Pending(s, user);
  }

  lemma OthersAddNone(s: State, step: Step, user: User)
    requires Enabled(s, step) && !step.SignIn? && !step.Rotate? && !step.Issue?
    ensures Sessions(Next(s, step), user) <= Sessions(s, user)
  {
    SubsetSize(Live(Next(s, step), user), Live(s, user));
    SubsetSize(Pending(Next(s, step), user), Pending(s, user));
  }

  /** Only signing in adds a session: a rotation turns a live token into a pending one, issuing turns it back. */
  lemma StepConservesSessions(s: State, step: Step, user: User)
    requires Consistent(s) && Enabled(s, step)
    ensures Sessions(Next(s, step), user) <= Sessions(s, user) + if step.SignIn? && step.user == user then 1 else 0
  {
    match step
    case SignIn(_, _) => SignInAddsOne(s, step, user);
    case Rotate(c, _) =>
      assert KnowsUser(s, c);
      RotateMovesOne(s, step, user);
    case Issue(_, _, _, _) => IssueMovesOne(s, step, user);
    case _ => OthersAddNone(s, step, user);
  }

  lemma {:induction false} RunConservesSessions(s: State, steps: seq<Step>, user: User)
    requires Consistent(s) && ValidRun(s, steps)
    ensures var t := End(s, steps);
            s.signIns[user] <= t.signIns[user]
            && Sessions(t, user) - Sessions(s, user) <= t.signIns[user] - s.signIns[user]
    decreases |steps|
  {
    if steps != [] {
      StepKeepsConsistent(s, steps[0]);
      StepConservesSessions(s, steps[0], user);
      RunConservesSessions(Next(s, steps[0]), steps[1..], user);
    }
  }

  /** Live tokens and reissues under way never outnumber the user's logins and registrations. */
  lemma SessionsNeverExceedSignIns(steps: seq<Step>, user: User)
    requires ValidRun(Init(), steps)
    ensures |Live(End(Init(), steps), user)| + |Pending(End(Init(), steps), user)| <= End(Init(), steps).signIns[user]
  {
    RunConservesSessions(Init(), steps, user);
    assert Live(Init(), user) == {} && Pending(Init(), user) == {};
  }

  // Replay of a revoked token.

  lemma {:induction false} RunsCompose(s: State, first: seq<Step>, second: seq<Step>)
    requires ValidRun(s, first) && ValidRun(End(s, first), second)
    ensures ValidRun(s, first + second) && End(s, first + second) == End(End(s, first), second)
    decreases |first|
  {
    if first == [] {
      assert first + second == second;
    } else {
      assert (first + second)[0] == first[0] && (first + second)[1..] == first[1..] + second;
      RunsCompose(Next(s, first[0]), first[1..], second);
    }
  }

  lemma {:induction false} OthersLeaveTheCall(s: State, steps: seq<Step>, c: CallId)
    requires ValidRun(s, steps) && c in s.calls
             && (forall i :: 0 <= i < |steps| ==> steps[i].Logout? || steps[i].c != c)
    ensures c in End(s, steps).calls && End(s, steps).calls[c] == s.calls[c]
    decreases |steps|
  {
    if steps != [] { OthersLeaveTheCall(Next(s, steps[0]), steps[1..], c); }
  }

  /** A request that presents a revoked, unexpired token revokes, whatever runs in between, every token the user has at
      that moment, for good; and from then on the user has at most as many sessions as were being reissued just then,
      plus new sign-ins. */
  lemma ReplayRevokesTheFamily(s: State, c: CallId, id: TokenId, now: int, between: seq<Step>, at: int,
                               after: seq<Step>)
    requires Consistent(s) && c !in s.calls && id in s.tokens && s.tokens[id].revokedAt.Some?
             && now < s.tokens[id].expiresAt
    requires var seen := Next(s, Present(c, id, now));
             && ValidRun(seen, between) && (forall i :: 0 <= i < |between| ==> between[i].Logout? || between[i].c != c)
    requires var reached := End(Next(s, Present(c, id, now)), between);
             Enabled(reached, RevokeFamily(c, at)) ==> ValidRun(Next(reached, RevokeFamily(c, at)), after)
    ensures var user, reached := s.tokens[id].user, End(Next(s, Present(c, id, now)), between);
            && Enabled(reached, RevokeFamily(c, at))
            && var end := End(Next(reached, RevokeFamily(c, at)), after);
               && (forall x :: x in reached.tokens && reached.tokens[x].user == user ==>
                     x in end.tokens && end.tokens[x].revokedAt.Some?)
               && Sessions(end, user) <= |Pending(reached, user)| + end.signIns[user] - reached.signIns[user]
  {
    var user, seen := s.tokens[id].user, Next(s, Present(c, id, now));
    StepKeepsConsistent(s, Present(c, id, now));
    RunKeepsConsistent(seen, between);
    OthersLeaveTheCall(seen, between, c);
    var reached := End(seen, between);
    var revoked := Next(reached, RevokeFamily(c, at));
    StepKeepsConsistent(reached, RevokeFamily(c, at));
    assert Live(revoked, user) == {};
    assert Pending(revoked, user) == Pending(reached, user);
    RevocationIsFinal(revoked, after);
    RunConservesSessions(revoked, after, user);
  }

  /** Nobody signs in as the user. */
  ghost predicate NoSignIn(steps: seq<Step>, user: User) {
    forall i :: 0 <= i < |steps| ==> !(steps[i].SignIn? && steps[i].user == user)
  }

  lemma {:induction false} SignInsStay(s: State, steps: seq<Step>, user: User)
    requires ValidRun(s, steps) && NoSignIn(steps, user)
    ensures End(s, steps).signIns[user] == s.signIns[user]
    decreases |steps|
  {
    if steps != [] { SignInsStay(Next(s, steps[0]), steps[1..], user); }
  }

  /** Some continuation without a new sign-in of the user leaves it a live token. */
  ghost predicate MaySurvive(s: State, user: User) {
    exists after :: ValidRun(s, after) && NoSignIn(after, user) && Live(End(s, after), user) != {}
  }

  lemma PendingCallIssues(s: State, c: CallId, user: User)
    requires c in Pending(s, user)
    ensures MaySurvive(s, user)
  {
    var token := Above(s.tokens.Keys);
    var issue := Issue(c, token, 0, 1);
    Prepend(s, issue, [], Next(s, issue));
    assert ValidRun(s, [issue] + []) && NoSignIn([issue] + [], user);
    assert token in Live(End(s, [issue] + []), user);
  }

  lemma NobodyPendingNobodySurvives(s: State, user: User)
    requires Consistent(s) && Live(s, user) == {} && Pending(s, user) == {}
    ensures !MaySurvive(s, user)
  {
    forall after | ValidRun(s, after) && NoSignIn(after, user) ensures Live(End(s, after), user) == {} {
      RunConservesSessions(s, after, user);
      SignInsStay(s, after, user);
    }
  }

  /** A family revocation is complete, every session of the user over until the next sign-in whatever happens meanwhile,
      if and only if no rotation or sign-in of the user is between its two writes at that moment. */
  lemma FamilyIsGoneIffNobodyIsIssuing(s: State, c: CallId, at: int)
    requires Consistent(s) && Enabled(s, RevokeFamily(c, at))
    ensures var user := s.calls[c].user;
            MaySurvive(Next(s, RevokeFamily(c, at)), user) <==> Pending(s, user) != {}
  {
    var user, t := s.calls[c].user, Next(s, RevokeFamily(c, at));
    StepKeepsConsistent(s, RevokeFamily(c, at));
    assert Live(t, user) == {} && Pending(t, user) == Pending(s, user);
    if Pending(s, user) == {} {
      NobodyPendingNobodySurvives(t, user);
    } else {
      var p :| p in Pending(s, user);
      PendingCallIssues(t, p, user);
    }
  }

  /** A rotation caught between its two writes. */
  function MidRotation(user: User): State {
    State(map[7 := Token(user, 100, Some(2))], map[0 := Done, 1 := Issuing(user)], multiset{7}, multiset{user})
  }

  function UpToMidRotation(user: User): seq<Step> {
    [SignIn(0, user), Issue(0, 7, 0, 100), Present(1, 7, 1), Rotate(1, 2)]
  }

  lemma MidRotationIsReached(user: User)
    ensures ValidRun(Init(), UpToMidRotation(user)) && End(Init(), UpToMidRotation(user)) == MidRotation(user)
  {
    var s0 := Next(Init(), SignIn(0, user));
    var s1 := Next(s0, Issue(0, 7, 0, 100));
    var s2 := Next(s1, Present(1, 7, 1));
    assert Next(s2, Rotate(1, 2)) == MidRotation(user);
    Prepend(s2, Rotate(1, 2), [], MidRotation(user));
    Prepend(s1, Present(1, 7, 1), [Rotate(1, 2)], MidRotation(user));
    Prepend(s0, Issue(0, 7, 0, 100), [Present(1, 7, 1), Rotate(1, 2)], MidRotation(user));
    Prepend(Init(), SignIn(0, user), [Issue(0, 7, 0, 100), Present(1, 7, 1), Rotate(1, 2)], MidRotation(user));
  }

  /** Such a rotation: sign in, rotate the token, replay it while the rotation is between its two writes. The replay
      revokes the family, and the rotation's token is issued after it. */
  lemma RacingRotationOutlivesTheFamily(user: User)
    ensures var replay := [Present(2, 7, 3), RevokeFamily(2, 4), Issue(1, 8, 5, 100)];
            && ValidRun(Init(), UpToMidRotation(user) + replay)
            && Live(End(Init(), UpToMidRotation(user) + replay), user) == {8}
  {
    var replay := [Present(2, 7, 3), RevokeFamily(2, 4), Issue(1, 8, 5, 100)];
    var s0 := Next(MidRotation(user), Present(2, 7, 3));
    var s1 := Next(s0, RevokeFamily(2, 4));
    var s2 := Next(s1, Issue(1, 8, 5, 100));
    assert Live(s2, user) == {8};
    Prepend(s1, Issue(1, 8, 5, 100), [], s2);
    Prepend(s0, RevokeFamily(2, 4), [Issue(1, 8, 5, 100)], s2);
    Prepend(MidRotation(user), Present(2, 7, 3), [RevokeFamily(2, 4), Issue(1, 8, 5, 100)], s2);
    MidRotationIsReached(user);
    RunsCompose(Init(), UpToMidRotation(user), replay);
  }

  lemma Prepend(s: State, step: Step, rest: seq<Step>, end: State)
    requires Enabled(s, step) && ValidRun(Next(s, step), rest) && End(Next(s, step), rest) == end
    ensures ValidRun(s, [step] + rest) && End(s, [step] + rest) == end
  {
    assert ([step] + rest)[1..] == rest;
  }

  // The service, one request at a time.

  datatype Outcome = Session(token: TokenId, expiresAt: int) | Refused

  /** Of the rows of one user, those not revoked yet are revoked now; no other row differs. */
  ghost predicate FamilyEnded(before: map<TokenId, Token>, after: map<TokenId, Token>, user: User, now: int) {
    && after.Keys == before.Keys
    && forall id :: id in before ==>
         after[id] == if before[id].user == user && before[id].revokedAt == None
                      then Token(user, before[id].expiresAt, Some(now)) else before[id]
  }

  class AuthService {
    const ttl: int
    var state: State

    constructor (ttl: int)
      ensures this.ttl == ttl && state == Init() && Consistent(state)
    {
      this.ttl := ttl;
      state := Init();
    }

    /** One database call of one request. */
    method Perform(step: Step)
      requires Consistent(state) && Enabled(state, step)
      modifies this`state
      ensures state == Next(old(state), step) && Consistent(state)
    {
      StepKeepsConsistent(state, step);
      state := Next(state, step);
    }

    method RevokeFamilyOf(c: CallId, now: int) returns (count: nat)
      requires Consistent(state) && Enabled(state, RevokeFamily(c, now))
      modifies this`state
      ensures state == Next(old(state), RevokeFamily(c, now)) && Consistent(state)
      ensures count == |Live(old(state), old(state.calls[c].user))| && Live(state, old(state.calls[c].user)) == {}
      ensures FamilyEnded(old(state.tokens), state.tokens, old(state.calls[c].user), now)
    {
      var user := state.calls[c].user;
      var rows := set id | id in state.tokens && IsLive(state.tokens, id) && state.tokens[id].user == user;
      assert rows == Live(state, user);
      count := |rows|;
      Perform(RevokeFamily(c, now));
    }

    /** A refresh with nobody in between: a token that is known, not revoked and not expired is swapped for a fresh one,
        a revoked one not yet expired ends every session of its user, and any other changes nothing. */
    method Refresh(c: CallId, presented: TokenId, newId: TokenId, now: int) returns (outcome: Outcome)
      requires Consistent(state) && c !in state.calls && newId !in state.tokens
      modifies this`state
      ensures Consistent(state)
      ensures outcome.Session? <==>
              var rows := old(state.tokens);
              presented in rows && rows[presented].revokedAt == None && now < rows[presented].expiresAt
      ensures outcome.Session? ==>
                var row := old(state.tokens)[presented];
                && outcome == Session(newId, now + ttl)
                && state.tokens == old(state.tokens)[presented := Token(row.user, row.expiresAt, Some(now))]
                                                    [newId := Token(row.user, now + ttl, None)]
      ensures outcome.Refused? ==>
                var rows := old(state.tokens);
                if presented in rows && now < rows[presented].expiresAt
                then FamilyEnded(rows, state.tokens, rows[presented].user, now) else state.tokens == rows
    {
      outcome := Refused;
      Perform(Present(c, presented, now));
      if state.calls[c].Revoking? {
        var _ := RevokeFamilyOf(c, now);
      } else if state.calls[c].Rotating? {
        Perform(Rotate(c, now));
        if state.calls[c].Issuing? {
          Perform(Issue(c, newId, now, ttl));
          outcome := Session(newId, now + ttl);
        }
      }
    }

    /** Without a token there is nothing to do; a token that is not live is left as it is. */
    method LogOut(presented: Option<TokenId>, now: int)
      requires Consistent(state)
      modifies this`state
      ensures Consistent(state)
      ensures var rows := old(state.tokens);
              if presented.Some? && presented.value in rows && rows[presented.value].revokedAt == None
              then state.tokens == rows[presented.value := rows[presented.value].(revokedAt := Some(now))]
              else state.tokens == rows
    {
      if presented.Some? { Perform(Logout(presented.value, now)); }
    }
  }
}
