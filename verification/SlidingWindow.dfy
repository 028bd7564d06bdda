/** The sliding-window rate limiter: one sorted set of call times per key, added to before the decision and rolled
    back after a rejection. Calls of several processes interleave between the two. */
module SlidingWindow {
  import opened Sets

  type Key = string
  type CallId = nat

  /** A key a request is counted under, with the limit that applies to it. */
  datatype Identity = Identity(key: Key, limit: nat)

  /** One request: its clock reading, its identities, the decision, and whether a rejected one was rolled back. */
  datatype Call = Call(at: int, identities: seq<Identity>, accepted: bool, rolledBack: bool)

  type SortedSet = map<CallId, int>

  /** The store, the key expiry times, the calls so far in execution order, and the latest clock reading. */
  datatype State = State(sets: map<Key, SortedSet>, expiresAt: map<Key, int>, calls: seq<Call>, clock: int)

  function Entries(sets: map<Key, SortedSet>, k: Key): SortedSet {
    if k in sets then sets[k] else map[]
  }

  /** What ZREMRANGEBYSCORE up to now - window leaves. */
  function Trim(entries: SortedSet, now: int, window: int): SortedSet {
    map id | id in entries && entries[id] > now - window :: entries[id]
  }

  function Touch(sets: map<Key, SortedSet>, k: Key, now: int, id: CallId, window: int): map<Key, SortedSet> {
    sets[k := Trim(Entries(sets, k), now, window)[id := now]]
  }

  /** The transaction: trim, add and count, key by key. */
  function AddKeys(sets: map<Key, SortedSet>, who: seq<Identity>, now: int, id: CallId, window: int)
    : map<Key, SortedSet>
    decreases |who|
  {
    if who == [] then sets else AddKeys(Touch(sets, who[0].key, now, id, window), who[1..], now, id, window)
  }

  function Used(sets: map<Key, SortedSet>, who: seq<Identity>, now: int, id: CallId, window: int): seq<nat>
    decreases |who|
  {
    if who == [] then []
    else
      var touched := Touch(sets, who[0].key, now, id, window);
      [|Entries(touched, who[0].key)|] + Used(touched, who[1..], now, id, window)
  }

  predicate WithinLimits(who: seq<Identity>, used: seq<nat>)
    requires |used| == |who|
  {
    forall i :: 0 <= i < |who| ==> who[i].limit - used[i] >= 0
  }

  function RemoveKeys(sets: map<Key, SortedSet>, who: seq<Identity>, id: CallId): map<Key, SortedSet>
    decreases |who|
  {
    if who == [] then sets
    else
      var k := who[0].key;
      RemoveKeys(sets[k := Entries(sets, k) - {id}], who[1..], id)
  }

  function Renew(expiresAt: map<Key, int>, who: seq<Identity>, at: int): map<Key, int>
    decreases |who|
  {
    if who == [] then expiresAt else Renew(expiresAt[who[0].key := at], who[1..], at)
  }

  predicate Names(who: seq<Identity>, k: Key) {
    exists i :: 0 <= i < |who| && who[i].key == k
  }

  datatype Step =
    | Add(now: int, who: seq<Identity>)
    | Rollback(id: CallId)
    | Expire(key: Key, now: int)

  /** A request has at least one identity, only a rejected call is rolled back, and a key expires `window` after it was
      last added to. Every reading, a process's or the store's, is at most `skew` behind the latest one, so the key may
      expire that much early by the others' clocks. */
  predicate Permitted(skew: nat, s: State, step: Step) {
    match step
    case Add(now, who) => now + skew >= s.clock && who != []
    case Rollback(id) => id < |s.calls| && !s.calls[id].accepted && !s.calls[id].rolledBack
    case Expire(k, now) => now + skew >= s.clock && k in s.expiresAt && s.expiresAt[k] <= now + skew
  }

  /** Clock readings do not decrease in execution order. */
  predicate Enabled(s: State, step: Step) {
    Permitted(0, s, step)
  }

  function Later(clock: int, now: int): int {
    if now > clock then now else clock
  }

  lemma {:induction false} UsedLength(sets: map<Key, SortedSet>, who: seq<Identity>, now: int, id: CallId, window: int)
    ensures |Used(sets, who, now, id, window)| == |who|
    decreases |who|
  {
    if who != [] { UsedLength(Touch(sets, who[0].key, now, id, window), who[1..], now, id, window); }
  }

  function Decide(sets: map<Key, SortedSet>, who: seq<Identity>, now: int, id: CallId, window: int): bool {
    UsedLength(sets, who, now, id, window);
    WithinLimits(who, Used(sets, who, now, id, window))
  }

  /** The state after the step; rolling back a call that was never made does nothing. */
  function Next(window: int, s: State, step: Step): State {
    match step
    case Add(now, who) =>
      var id, clock := |s.calls|, Later(s.clock, now);
      State(AddKeys(s.sets, who, now, id, window), Renew(s.expiresAt, who, clock + window),
            s.calls + [Call(now, who, Decide(s.sets, who, now, id, window), false)], clock)
    case Rollback(id) =>
      if id >= |s.calls| then s
      else s.(sets := RemoveKeys(s.sets, s.calls[id].identities, id),
              calls := s.calls[id := s.calls[id].(rolledBack := true)])
    case Expire(k, now) => s.(sets := s.sets - {k}, expiresAt := s.expiresAt - {k}, clock := Later(s.clock, now))
  }

  function Init(): State {
    State(map[], map[], [], 0)
  }

  ghost predicate SkewedRun(window: int, skew: nat, s: State, steps: seq<Step>)
    decreases |steps|
  {
    steps == [] || (Permitted(skew, s, steps[0]) && SkewedRun(window, skew, Next(window, s, steps[0]), steps[1..]))
  }

  ghost predicate ValidRun(window: int, s: State, steps: seq<Step>)
    decreases |steps|
  {
    steps == [] || (Enabled(s, steps[0]) && ValidRun(window, Next(window, s, steps[0]), steps[1..]))
  }

  ghost function End(window: int, s: State, steps: seq<Step>): State
    decreases |steps|
  {
    if steps == [] then s else End(window, Next(window, s, steps[0]), steps[1..])
  }

  lemma {:induction false} ValidRunIsSkewedByNothing(window: int, s: State, steps: seq<Step>)
    requires ValidRun(window, s, steps)
    ensures SkewedRun(window, 0, s, steps)
    decreases |steps|
  {
    if steps != [] { ValidRunIsSkewedByNothing(window, Next(window, s, steps[0]), steps[1..]); }
  }

  // What the transaction does to one key.

  lemma {:induction false} AddKeysAt(sets: map<Key, SortedSet>, who: seq<Identity>, now: int, id: CallId, window: int,
                                   k: Key)
    requires window > 0
    ensures Entries(AddKeys(sets, who, now, id, window), k) ==
            if Names(who, k) then Trim(Entries(sets, k), now, window)[id := now] else Entries(sets, k)
    decreases |who|
  {
    if who != [] {
      var touched := Touch(sets, who[0].key, now, id, window);
      AddKeysAt(touched, who[1..], now, id, window, k);
      NamesTail(who, k);
      TrimAgain(Entries(sets, k), now, id, window);
    }
  }

  lemma NamesTail(who: seq<Identity>, k: Key)
    requires who != []
    ensures Names(who, k) <==> who[0].key == k || Names(who[1..], k)
  {
    if i :| 0 <= i < |who[1..]| && who[1..][i].key == k { assert who[i + 1].key == k; }
    if i :| 0 <= i < |who| && who[i].key == k { assert i > 0 ==> who[1..][i - 1].key == k; }
  }

  lemma TrimAgain(entries: SortedSet, now: int, id: CallId, window: int)
    requires window > 0
    ensures Trim(Trim(entries, now, window)[id := now], now, window)[id := now] == Trim(entries, now, window)[id := now]
  {
  }

  lemma {:induction false} UsedAt(sets: map<Key, SortedSet>, who: seq<Identity>, now: int, id: CallId, window: int,
                                i: nat)
    requires window > 0 && i < |who|
    ensures |Used(sets, who, now, id, window)| == |who|
    ensures Used(sets, who, now, id, window)[i] == |Trim(Entries(sets, who[i].key), now, window)[id := now]|
    decreases |who|
  {
    UsedLength(sets, who, now, id, window);
    if i > 0 {
      var touched := Touch(sets, who[0].key, now, id, window);
      UsedAt(touched, who[1..], now, id, window, i - 1);
      TrimAgain(Entries(sets, who[i].key), now, id, window);
    }
  }

  lemma {:induction false} RemoveKeysAt(sets: map<Key, SortedSet>, who: seq<Identity>, id: CallId, k: Key)
    ensures Entries(RemoveKeys(sets, who, id), k) == if Names(who, k) then Entries(sets, k) - {id} else Entries(sets, k)
    decreases |who|
  {
    if who != [] {
      var first := who[0].key;
      RemoveKeysAt(sets[first := Entries(sets, first) - {id}], who[1..], id, k);
      NamesTail(who, k);
    }
  }

  lemma {:induction false} RenewAt(expiresAt: map<Key, int>, who: seq<Identity>, at: int, k: Key)
    ensures k in Renew(expiresAt, who, at) <==> k in expiresAt || Names(who, k)
    ensures k in Renew(expiresAt, who, at) ==>
              Renew(expiresAt, who, at)[k] == if Names(who, k) then at else expiresAt[k]
    decreases |who|
  {
    if who != [] {
      RenewAt(expiresAt[who[0].key := at], who[1..], at, k);
      NamesTail(who, k);
    }
  }

  // The sets hold exactly the calls that count.

  /** The call was counted under k and has not been taken back. */
  predicate Counts(calls: seq<Call>, id: CallId, k: Key) {
    id < |calls| && Names(calls[id].identities, k) && (calls[id].accepted || !calls[id].rolledBack)
  }

  ghost predicate Ordered(s: State) {
    && (forall i, j :: 0 <= i < j < |s.calls| ==> s.calls[i].at <= s.calls[j].at)
    && (forall i :: 0 <= i < |s.calls| ==> s.calls[i].at <= s.clock)
  }

  /** The sorted set under k: nothing but counting calls, with their times, none of them outliving the key; and every
      counting call still inside the window. */
  ghost predicate ExactAt(window: int, s: State, k: Key) {
    && (forall id: CallId :: id in Entries(s.sets, k) ==>
          && Counts(s.calls, id, k)
          && Entries(s.sets, k)[id] == s.calls[id].at
          && k in s.expiresAt && s.calls[id].at + window <= s.expiresAt[k])
    && (forall id: CallId :: Counts(s.calls, id, k) && s.calls[id].at > s.clock - window ==> id in Entries(s.sets, k))
  }

  ghost predicate Exact(window: int, s: State) {
    Ordered(s) && forall k :: ExactAt(window, s, k)
  }

  /** The calls that count under k in the window ending at t. */
  ghost function Counting(calls: seq<Call>, k: Key, t: int, window: int): set<CallId> {
    set id: nat | id < |calls| && Counts(calls, id, k) && calls[id].at > t - window
  }

  lemma TrimmedIsCounting(window: int, s: State, k: Key, now: int)
    requires Exact(window, s) && now >= s.clock
    ensures Trim(Entries(s.sets, k), now, window).Keys == Counting(s.calls, k, now, window)
  {
    assert ExactAt(window, s, k);
  }

  lemma UsedIsCounting(window: int, s: State, who: seq<Identity>, now: int, i: nat)
    requires window > 0 && Exact(window, s) && now >= s.clock && i < |who|
    ensures var used := Used(s.sets, who, now, |s.calls|, window);
            |used| == |who| && used[i] == |Counting(s.calls, who[i].key, now, window)| + 1
  {
    UsedAt(s.sets, who, now, |s.calls|, window, i);
    TrimmedIsCounting(window, s, who[i].key, now);
    var trimmed := Trim(Entries(s.sets, who[i].key), now, window);
    assert trimmed[|s.calls| := now].Keys == trimmed.Keys + {|s.calls|};
  }

  /** Whatever has expired and whatever is still pending, a call is accepted exactly when every key has fewer calls
      counting in its window than its limit. */
  lemma DecisionIsExact(window: int, s: State, now: int, who: seq<Identity>)
    requires window > 0 && Exact(window, s) && now >= s.clock
    ensures Decide(s.sets, who, now, |s.calls|, window) <==>
            forall i :: 0 <= i < |who| ==> |Counting(s.calls, who[i].key, now, window)| < who[i].limit
  {
    var id := |s.calls|;
    UsedLength(s.sets, who, now, id, window);
    forall i | 0 <= i < |who| { UsedIsCounting(window, s, who, now, i); }
  }

  /** What an addition does to the set, the expiry and the counting calls of one key. */
  lemma AddAt(window: int, s: State, t: State, step: Step, k: Key)
    requires window > 0 && step.Add? && t == Next(window, s, step)
    ensures Entries(t.sets, k) ==
            if Names(step.who, k) then Trim(Entries(s.sets, k), step.now, window)[|s.calls| := step.now]
            else Entries(s.sets, k)
    ensures k in t.expiresAt <==> k in s.expiresAt || Names(step.who, k)
    ensures k in t.expiresAt ==> t.expiresAt[k] == if Names(step.who, k) then t.clock + window else s.expiresAt[k]
    ensures forall id: CallId :: Counts(t.calls, id, k) <==>
              Counts(s.calls, id, k) || (id == |s.calls| && Names(step.who, k))
    ensures |t.calls| == |s.calls| + 1 && t.calls[|s.calls|].at == step.now
    ensures forall id :: 0 <= id < |s.calls| ==> t.calls[id] == s.calls[id]
  {
    AddKeysAt(s.sets, step.who, step.now, |s.calls|, window, k);
    RenewAt(s.expiresAt, step.who, t.clock + window, k);
    assert t.calls[|s.calls|].identities == step.who;
  }

  lemma AddKeepsExactAt(window: int, s: State, step: Step, k: Key)
    requires window > 0 && Ordered(s) && ExactAt(window, s, k) && Enabled(s, step) && step.Add?
    ensures ExactAt(window, Next(window, s, step), k)
  {
    AddAt(window, s, Next(window, s, step), step, k);
  }

  lemma RollbackKeepsExactAt(window: int, s: State, step: Step, k: Key)
    requires ExactAt(window, s, k) && Enabled(s, step) && step.Rollback?
    ensures ExactAt(window, Next(window, s, step), k)
  {
    var t := Next(window, s, step);
    RemoveKeysAt(s.sets, s.calls[step.id].identities, step.id, k);
    forall id: CallId ensures Counts(t.calls, id, k) <==> Counts(s.calls, id, k) && id != step.id {}
  }

  lemma ExpireKeepsExactAt(window: int, s: State, step: Step, k: Key)
    requires ExactAt(window, s, k) && Enabled(s, step) && step.Expire?
    ensures ExactAt(window, Next(window, s, step), k)
  {
    var t := Next(window, s, step);
    assert Entries(t.sets, k) == if k == step.key then map[] else Entries(s.sets, k);
    forall id: CallId | Counts(t.calls, id, k) && t.calls[id].at > t.clock - window ensures id in Entries(t.sets, k) {
      assert id in Entries(s.sets, k);
    }
  }

  lemma StepKeepsExact(window: int, s: State, step: Step)
    requires window > 0 && Exact(window, s) && Enabled(s, step)
    ensures Exact(window, Next(window, s, step))
  {
    forall k ensures ExactAt(window, Next(window, s, step), k) {
      match step
      case Add(_, _) => AddKeepsExactAt(window, s, step, k);
      case Rollback(_) => RollbackKeepsExactAt(window, s, step, k);
      case Expire(_, _) => ExpireKeepsExactAt(window, s, step, k);
    }
  }

  // No window holds more accepted calls than the limit.

  ghost function AcceptedBefore(calls: seq<Call>, n: nat, k: Key, t: int, window: int): set<CallId>
    requires n <= |calls|
  {
    set id: nat | id < n && calls[id].accepted && Names(calls[id].identities, k) && calls[id].at > t - window
  }

  ghost predicate Bounded(calls: seq<Call>, window: int) {
    forall c, i :: 0 <= c < |calls| && calls[c].accepted && 0 <= i < |calls[c].identities| ==>
      |AcceptedBefore(calls, c, calls[c].identities[i].key, calls[c].at, window)| < calls[c].identities[i].limit
  }

  /** Whatever the clocks do within the skew, the set under k still holds every counting call that an admissible reading
      can have in a window shortened by twice the skew. */
  ghost predicate RemembersAt(window: int, skew: nat, s: State, k: Key) {
    forall id: CallId :: Counts(s.calls, id, k) && s.calls[id].at > s.clock + skew - window ==>
      && id in Entries(s.sets, k) && Entries(s.sets, k)[id] == s.calls[id].at
      && k in s.expiresAt && s.calls[id].at + window <= s.expiresAt[k]
  }

  ghost predicate Remembers(window: int, skew: nat, s: State) {
    (forall c :: 0 <= c < |s.calls| ==> s.calls[c].at <= s.clock) && forall k :: RemembersAt(window, skew, s, k)
  }

  lemma AddRemembersAt(window: int, skew: nat, s: State, step: Step, k: Key)
    requires window > 0 && Remembers(window, skew, s) && Permitted(skew, s, step) && step.Add?
    ensures RemembersAt(window, skew, Next(window, s, step), k)
  {
    AddAt(window, s, Next(window, s, step), step, k);
    assert RemembersAt(window, skew, s, k);
  }

  lemma OtherStepsRememberAt(window: int, skew: nat, s: State, step: Step, k: Key)
    requires window > 0 && RemembersAt(window, skew, s, k) && Permitted(skew, s, step) && !step.Add?
    ensures RemembersAt(window, skew, Next(window, s, step), k)
  {
    var t := Next(window, s, step);
    if step.Rollback? {
      RemoveKeysAt(s.sets, s.calls[step.id].identities, step.id, k);
      forall id: CallId ensures Counts(t.calls, id, k) <==> Counts(s.calls, id, k) && id != step.id {}
    } else {
      assert Entries(t.sets, k) == if k == step.key then map[] else Entries(s.sets, k);
    }
  }

  lemma StepRemembers(window: int, skew: nat, s: State, step: Step)
    requires window > 0 && Remembers(window, skew, s) && Permitted(skew, s, step)
    ensures Remembers(window, skew, Next(window, s, step))
  {
    var t := Next(window, s, step);
    forall k ensures RemembersAt(window, skew, t, k) {
      if step.Add? { AddRemembersAt(window, skew, s, step, k); }
      else { OtherStepsRememberAt(window, skew, s, step, k); }
    }
  }

  lemma CountedAtLeast(window: int, skew: nat, width: int, s: State, step: Step, i: nat)
    requires window > 0 && width <= window - 2 * skew && Remembers(window, skew, s)
    requires Permitted(skew, s, step) && step.Add? && i < |step.who|
    ensures var used := Used(s.sets, step.who, step.now, |s.calls|, window);
            |used| == |step.who| &&
            |AcceptedBefore(s.calls, |s.calls|, step.who[i].key, step.now, width)| + 1 <= used[i]
  {
    var n, k := |s.calls|, step.who[i].key;
    UsedAt(s.sets, step.who, step.now, n, window, i);
    var accepted := AcceptedBefore(s.calls, n, k, step.now, width);
    var counted := Trim(Entries(s.sets, k), step.now, window)[n := step.now];
    assert RemembersAt(window, skew, s, k);
    assert forall id :: id in accepted ==> Counts(s.calls, id, k) && id in counted;
    SubsetSize(accepted + {n}, counted.Keys);
  }

  lemma SameAcceptedBefore(calls: seq<Call>, others: seq<Call>, n: nat, k: Key, t: int, width: int)
    requires n <= |calls| && n <= |others|
    requires forall i :: 0 <= i < n ==> others[i] == calls[i].(rolledBack := others[i].rolledBack)
    ensures AcceptedBefore(others, n, k, t, width) == AcceptedBefore(calls, n, k, t, width)
  {
  }

  /** A call at t would stay within every limit. */
  ghost predicate HasRoom(calls: seq<Call>, who: seq<Identity>, t: int, width: int) {
    forall i :: 0 <= i < |who| ==> |AcceptedBefore(calls, |calls|, who[i].key, t, width)| < who[i].limit
  }

  lemma SnocKeepsBounded(calls: seq<Call>, all: seq<Call>, last: Call, width: int)
    requires |all| == |calls| + 1 && all[|calls|] == last && forall c :: 0 <= c < |calls| ==> all[c] == calls[c]
    requires Bounded(calls, width) && (last.accepted ==> HasRoom(calls, last.identities, last.at, width))
    ensures Bounded(all, width)
  {
    forall c, i | 0 <= c < |all| && all[c].accepted && 0 <= i < |all[c].identities|
      ensures |AcceptedBefore(all, c, all[c].identities[i].key, all[c].at, width)| < all[c].identities[i].limit
    {
      SameAcceptedBefore(calls, all, c, all[c].identities[i].key, all[c].at, width);
    }
  }

  lemma AddKeepsBounded(window: int, s: State, step: Step, width: int)
    requires step.Add? && Bounded(s.calls, width)
    requires Decide(s.sets, step.who, step.now, |s.calls|, window) ==> HasRoom(s.calls, step.who, step.now, width)
    ensures Bounded(Next(window, s, step).calls, width)
  {
    var all := Next(window, s, step).calls;
    SnocKeepsBounded(s.calls, all, all[|s.calls|], width);
  }

  lemma RollbackKeepsBounded(window: int, s: State, step: Step, width: int)
    requires step.Rollback? && step.id < |s.calls| && !s.calls[step.id].accepted && Bounded(s.calls, width)
    ensures Bounded(Next(window, s, step).calls, width)
  {
    var all := Next(window, s, step).calls;
    forall c, i | 0 <= c < |all| && all[c].accepted && 0 <= i < |all[c].identities|
      ensures |AcceptedBefore(all, c, all[c].identities[i].key, all[c].at, width)| < all[c].identities[i].limit
    {
      SameAcceptedBefore(s.calls, all, c, all[c].identities[i].key, all[c].at, width);
    }
  }

  lemma AcceptedHasRoom(window: int, skew: nat, width: int, s: State, step: Step)
    requires window > 0 && width <= window - 2 * skew && Remembers(window, skew, s)
    requires Permitted(skew, s, step) && step.Add? && Decide(s.sets, step.who, step.now, |s.calls|, window)
    ensures HasRoom(s.calls, step.who, step.now, width)
  {
    UsedLength(s.sets, step.who, step.now, |s.calls|, window);
    forall i | 0 <= i < |step.who| { CountedAtLeast(window, skew, width, s, step, i); }
  }

  lemma StepKeepsBounded(window: int, skew: nat, width: int, s: State, step: Step)
    requires window > 0 && width <= window - 2 * skew && Remembers(window, skew, s)
    requires Permitted(skew, s, step) && Bounded(s.calls, width)
    ensures Bounded(Next(window, s, step).calls, width)
  {
    if step.Add? {
      if Decide(s.sets, step.who, step.now, |s.calls|, window) { AcceptedHasRoom(window, skew, width, s, step); }
      AddKeepsBounded(window, s, step, width);
    } else if step.Rollback? {
      RollbackKeepsBounded(window, s, step, width);
    }
  }

  lemma {:induction false} SkewedRunKeepsBounded(window: int, skew: nat, width: int, s: State, steps: seq<Step>)
    requires window > 0 && width <= window - 2 * skew && Remembers(window, skew, s) && Bounded(s.calls, width)
    requires SkewedRun(window, skew, s, steps)
    ensures Bounded(End(window, s, steps).calls, width)
    decreases |steps|
  {
    if steps != [] {
      StepRemembers(window, skew, s, steps[0]);
      StepKeepsBounded(window, skew, width, s, steps[0]);
      SkewedRunKeepsBounded(window, skew, width, Next(window, s, steps[0]), steps[1..]);
    }
  }

  lemma {:induction false} RunKeepsExact(window: int, s: State, steps: seq<Step>)
    requires window > 0 && Exact(window, s) && ValidRun(window, s, steps)
    ensures Exact(window, End(window, s, steps))
    decreases |steps|
  {
    if steps != [] {
      StepKeepsExact(window, s, steps[0]);
      RunKeepsExact(window, Next(window, s, steps[0]), steps[1..]);
    }
  }

  lemma RunsAreSound(window: int, steps: seq<Step>)
    requires window > 0 && ValidRun(window, Init(), steps)
    ensures Exact(window, End(window, Init(), steps)) && Bounded(End(window, Init(), steps).calls, window)
  {
    RunKeepsExact(window, Init(), steps);
    ValidRunIsSkewedByNothing(window, Init(), steps);
    SkewedRunKeepsBounded(window, 0, window, Init(), steps);
  }

  /** The accepted calls under k with a clock reading in (t - window, t]. */
  ghost function AcceptedIn(calls: seq<Call>, k: Key, t: int, window: int): set<CallId> {
    set id: nat | id < |calls| && calls[id].accepted && Names(calls[id].identities, k) && t - window < calls[id].at <= t
  }

  /** Every identity that counted such a call under k carried at most this limit. */
  ghost predicate LimitedTo(calls: seq<Call>, k: Key, ids: set<CallId>, limit: nat) {
    forall id, i :: id in ids && id < |calls| && 0 <= i < |calls[id].identities| && calls[id].identities[i].key == k
                    ==> calls[id].identities[i].limit <= limit
  }

  lemma {:induction false} Latest(ids: set<CallId>) returns (last: CallId)
    requires ids != {}
    ensures last in ids && forall id :: id in ids ==> id <= last
    decreases |ids|
  {
    last :| last in ids;
    if ids != {last} {
      var rest := ids - {last};
      var other := Latest(rest);
      assert forall id :: id in ids ==> id == last || id in rest;
      if other > last { last := other; }
    }
  }

  lemma InsideIsEarlier(calls: seq<Call>, window: int, k: Key, t: int, c: CallId)
    requires c < |calls| && calls[c].at <= t
    requires forall id :: id in AcceptedIn(calls, k, t, window) ==> id <= c
    ensures AcceptedIn(calls, k, t, window) <= AcceptedBefore(calls, c, k, calls[c].at, window) + {c}
  {
  }

  lemma NoKeyExceedsItsLimit(calls: seq<Call>, window: int, k: Key, t: int, limit: nat)
    requires Bounded(calls, window) && LimitedTo(calls, k, AcceptedIn(calls, k, t, window), limit)
    ensures |AcceptedIn(calls, k, t, window)| <= limit
  {
    if AcceptedIn(calls, k, t, window) != {} {
      var c := Latest(AcceptedIn(calls, k, t, window));
      var i :| 0 <= i < |calls[c].identities| && calls[c].identities[i].key == k;
      assert calls[c].identities[i].limit <= limit;
      InsideIsEarlier(calls, window, k, t, c);
      SubsetSize(AcceptedIn(calls, k, t, window), AcceptedBefore(calls, c, k, calls[c].at, window) + {c});
    }
  }

  /** In every interleaving of additions, rollbacks and expiries of any number of requests, any window of length
      `window` holds at most `limit` accepted calls under each key. */
  lemma NoWindowExceedsTheLimit(window: int, steps: seq<Step>, k: Key, t: int, limit: nat)
    requires window > 0 && ValidRun(window, Init(), steps)
    requires var calls := End(window, Init(), steps).calls; LimitedTo(calls, k, AcceptedIn(calls, k, t, window), limit)
    ensures |AcceptedIn(End(window, Init(), steps).calls, k, t, window)| <= limit
  {
    RunsAreSound(window, steps);
    NoKeyExceedsItsLimit(End(window, Init(), steps).calls, window, k, t, limit);
  }

  /** With clocks up to `skew` apart, those of the processes and of the store, the same holds of windows shorter by
      twice the skew: once for the entries a fast clock trims, once for the keys that expire by one. */
  lemma SkewedWindowsAreBounded(window: int, skew: nat, width: int, steps: seq<Step>, k: Key, t: int, limit: nat)
    requires window > 0 && SkewedRun(window, skew, Init(), steps) && width <= window - 2 * skew
    requires var calls := End(window, Init(), steps).calls;
             LimitedTo(calls, k, AcceptedIn(calls, k, t, width), limit)
    ensures |AcceptedIn(End(window, Init(), steps).calls, k, t, width)| <= limit
  {
    SkewedRunKeepsBounded(window, skew, width, Init(), steps);
    NoKeyExceedsItsLimit(End(window, Init(), steps).calls, width, k, t, limit);
  }

  /** And of no longer windows: a key that expires early by the store's clock, read late by the next caller's, lets two
      calls through a limit of one within a window longer by a millisecond. */
  lemma SkewBoundIsMet(window: int, skew: nat, k: Key, expiry: int, again: int, width: int)
    requires window > 0 && expiry == window - skew && again == window - 2 * skew >= 0 && width == again + 1
    ensures var who := [Identity(k, 1)];
            var steps := [Add(0, who), Expire(k, expiry), Add(again, who)];
            && SkewedRun(window, skew, Init(), steps)
            && |AcceptedIn(End(window, Init(), steps).calls, k, again, width)| == 2
  {
    var who := [Identity(k, 1)];
    FreshKeyAccepts(Init(), Identity(k, 1), 0, window);
    var s1 := Next(window, Init(), Add(0, who));
    var s2 := Next(window, s1, Expire(k, expiry));
    FreshKeyAccepts(s2, Identity(k, 1), again, window);
    OneSkewedStep(window, skew, s2, Add(again, who), []);
    OneSkewedStep(window, skew, s1, Expire(k, expiry), [Add(again, who)]);
    OneSkewedStep(window, skew, Init(), Add(0, who), [Expire(k, expiry), Add(again, who)]);
    TwoAccepted(Next(window, s2, Add(again, who)).calls, who, k, again, width);
  }

  lemma OneSkewedStep(window: int, skew: nat, s: State, step: Step, rest: seq<Step>)
    requires Permitted(skew, s, step) && SkewedRun(window, skew, Next(window, s, step), rest)
    ensures SkewedRun(window, skew, s, [step] + rest)
    ensures End(window, s, [step] + rest) == End(window, Next(window, s, step), rest)
  {
    assert ([step] + rest)[1..] == rest;
  }

  lemma TwoAccepted(calls: seq<Call>, who: seq<Identity>, k: Key, again: int, width: int)
    requires calls == [Call(0, who, true, false), Call(again, who, true, false)] && who == [Identity(k, 1)]
    requires again >= 0 && width > again
    ensures |AcceptedIn(calls, k, again, width)| == 2
  {
    assert who[0].key == k;
    assert AcceptedIn(calls, k, again, width) == {0, 1};
  }

  lemma FreshKeyAccepts(s: State, id: Identity, now: int, window: int)
    requires id.key !in s.sets && id.limit == 1
    ensures Next(window, s, Add(now, [id])).calls == s.calls + [Call(now, [id], true, false)]
    ensures Next(window, s, Add(now, [id])).clock == Later(s.clock, now)
    ensures Next(window, s, Add(now, [id])).expiresAt == s.expiresAt[id.key := Later(s.clock, now) + window]
  {
    var trimmed := Trim(map[], now, window);
    assert trimmed == map[] && [id][1..] == [];
    assert Touch(s.sets, id.key, now, |s.calls|, window)[id.key] == map[|s.calls| := now];
    var expiresAt := s.expiresAt[id.key := Later(s.clock, now) + window];
    assert Renew(expiresAt, [], Later(s.clock, now) + window) == expiresAt;
    assert Used(s.sets, [id], now, |s.calls|, window) == [1];
  }

  /** Every rejected call has been rolled back. */
  ghost predicate AllSettled(calls: seq<Call>) {
    forall c :: 0 <= c < |calls| ==> calls[c].accepted || calls[c].rolledBack
  }

  /** When every rejected call so far has been rolled back, as in serial use, a call is accepted exactly when every key
      has fewer accepted calls in its window than its limit. */
  lemma SerialDecision(window: int, steps: seq<Step>, now: int, who: seq<Identity>)
    requires window > 0 && ValidRun(window, Init(), steps) && now >= End(window, Init(), steps).clock
    requires AllSettled(End(window, Init(), steps).calls)
    ensures var s := End(window, Init(), steps);
            Decide(s.sets, who, now, |s.calls|, window) <==>
            forall i :: 0 <= i < |who| ==> |AcceptedIn(s.calls, who[i].key, now, window)| < who[i].limit
  {
    RunsAreSound(window, steps);
    var s := End(window, Init(), steps);
    DecisionIsExact(window, s, now, who);
    forall k: Key ensures Counting(s.calls, k, now, window) == AcceptedIn(s.calls, k, now, window) {}
  }

  // How long a rejected client is told to wait.

  function CeilingOfThousandths(ms: int): int {
    (ms + 999) / 1000
  }

  /** Whose limit and reset the answer's headers carry: the first identity with the fewest calls remaining. */
  function LimitingIndex(who: seq<Identity>, used: seq<nat>): (i: nat)
    requires |used| == |who| > 0
    ensures i < |who| && forall j :: 0 <= j < |who| ==>
              if j < i then who[i].limit - used[i] < who[j].limit - used[j]
              else who[i].limit - used[i] <= who[j].limit - used[j]
    decreases |who|
  {
    if |who| == 1 then 0
    else
      var rest := 1 + LimitingIndex(who[1..], used[1..]);
      if who[0].limit - used[0] <= who[rest].limit - used[rest] then 0 else rest
  }

  /** The least number of seconds, at least one, until the oldest entry is out of the window. */
  function ResetSeconds(oldest: int, now: int, window: int): (r: int)
    ensures r >= 1 && now + 1000 * r >= oldest + window
    ensures forall fewer :: 1 <= fewer < r ==> now + 1000 * fewer < oldest + window
  {
    var seconds := CeilingOfThousandths(oldest + window - now);
    if seconds < 1 then 1 else seconds
  }

  /** The lowest score, as ZRANGE 0 0 finds it. */
  ghost predicate IsOldest(entries: SortedSet, oldest: int) {
    (exists id :: id in entries && entries[id] == oldest) && forall id :: id in entries ==> entries[id] >= oldest
  }

  /** The oldest entry the limiter finds under a key in use is the oldest of the calls that count. */
  ghost predicate OldestOf(calls: seq<Call>, counting: set<CallId>, oldest: int) {
    && (forall id :: id in counting ==> id < |calls| && oldest <= calls[id].at)
    && (counting != {} ==> exists id :: id in counting && id < |calls| && calls[id].at == oldest)
  }

  lemma OldestCounts(window: int, s: State, now: int, who: seq<Identity>, i: nat, oldest: int)
    requires window > 0 && Exact(window, s) && now >= s.clock && i < |who|
    requires IsOldest(Entries(Next(window, s, Add(now, who)).sets, who[i].key), oldest)
    ensures OldestOf(s.calls, Counting(s.calls, who[i].key, now, window), oldest)
  {
    var n, k := |s.calls|, who[i].key;
    var counting := Counting(s.calls, k, now, window);
    assert Names(who, k);
    AddKeysAt(s.sets, who, now, n, window, k);
    TrimmedIsCounting(window, s, k, now);
    var trimmed := Trim(Entries(s.sets, k), now, window);
    assert ExactAt(window, s, k);
    forall id | id in counting ensures id != n && trimmed[n := now][id] == s.calls[id].at && s.calls[id].at <= now {
      assert id in trimmed && id in Entries(s.sets, k);
    }
    if counting != {} {
      var first :| first in trimmed[n := now] && trimmed[n := now][first] == oldest;
      var some :| some in counting;
      if first == n { assert s.calls[some].at == oldest; } else { assert first in counting; }
    }
  }

  /** Nothing but rollbacks and expiries. */
  predicate OnlySettles(steps: seq<Step>) {
    forall step :: step in steps ==> !step.Add?
  }

  /** The same calls, but for what has been rolled back. */
  predicate SameCalls(calls: seq<Call>, others: seq<Call>) {
    && |calls| == |others|
    && forall i :: 0 <= i < |calls| ==> others[i] == calls[i].(rolledBack := others[i].rolledBack)
  }

  lemma {:induction false} SettlingKeepsCalls(window: int, s: State, steps: seq<Step>)
    requires window > 0 && Exact(window, s) && ValidRun(window, s, steps) && OnlySettles(steps)
    ensures Exact(window, End(window, s, steps)) && SameCalls(s.calls, End(window, s, steps).calls)
    decreases |steps|
  {
    if steps != [] {
      StepKeepsExact(window, s, steps[0]);
      assert steps[0] in steps && SameCalls(s.calls, Next(window, s, steps[0]).calls);
      SettlingKeepsCalls(window, Next(window, s, steps[0]), steps[1..]);
    }
  }

  /** Every key has kept one limit, of at least one, as the configuration fixes it. */
  ghost predicate FixedLimits(calls: seq<Call>, who: seq<Identity>) {
    && (forall i :: 0 <= i < |who| ==> who[i].limit >= 1)
    && forall j, c, i :: 0 <= j < |who| && 0 <= c < |calls| && 0 <= i < |calls[c].identities| ==>
         calls[c].identities[i].key == who[j].key ==> calls[c].identities[i].limit == who[j].limit
  }

  /** The accepted calls in the window take up the whole limit. */
  ghost predicate UsedUp(window: int, calls: seq<Call>, now: int, id: Identity) {
    |AcceptedIn(calls, id.key, now, window)| == id.limit
  }

  /** Every key used up resets within the wait. */
  ghost predicate AllReset(window: int, calls: seq<Call>, now: int, who: seq<Identity>, oldest: seq<int>, wait: int)
    requires |oldest| == |who|
  {
    forall i :: 0 <= i < |who| && UsedUp(window, calls, now, who[i]) ==> ResetSeconds(oldest[i], now, window) <= wait
  }

  /** The oldest accepted calls in the window, key by key. */
  ghost predicate OldestAccepted(window: int, calls: seq<Call>, now: int, who: seq<Identity>, oldest: seq<int>) {
    && |oldest| == |who|
    && forall i :: 0 <= i < |who| ==> OldestOf(calls, AcceptedIn(calls, who[i].key, now, window), oldest[i])
  }

  lemma NeverOverfull(window: int, calls: seq<Call>, now: int, who: seq<Identity>, i: nat)
    requires Bounded(calls, window) && FixedLimits(calls, who) && i < |who|
    ensures |AcceptedIn(calls, who[i].key, now, window)| <= who[i].limit
  {
    NoKeyExceedsItsLimit(calls, window, who[i].key, now, who[i].limit);
  }

  /** A key has room after `wait` seconds, when only accepted calls count any more, exactly if it is not used up now or
      its oldest accepted call has left the window by then. */
  lemma KeyOpensIff(calls: seq<Call>, window: int, now: int, id: Identity, oldest: int, wait: int,
                    later: int)
    requires id.limit >= 1 && wait >= 1 && later == now + 1000 * wait
    requires |AcceptedIn(calls, id.key, now, window)| <= id.limit
    requires forall c :: 0 <= c < |calls| ==> calls[c].at <= now
    requires OldestOf(calls, AcceptedIn(calls, id.key, now, window), oldest)
    ensures |AcceptedIn(calls, id.key, later, window)| < id.limit <==>
            (UsedUp(window, calls, now, id) ==> ResetSeconds(oldest, now, window) <= wait)
  {
    var accepted := AcceptedIn(calls, id.key, now, window);
    var still := AcceptedIn(calls, id.key, later, window);
    assert still <= accepted;
    SubsetSize(still, accepted);
    if |accepted| == id.limit {
      var first :| first in accepted && calls[first].at == oldest;
      if ResetSeconds(oldest, now, window) <= wait {
        assert still <= accepted - {first};
        SubsetSize(still, accepted - {first});
      } else {
        assert accepted <= still;
        SubsetSize(accepted, still);
      }
    }
  }

  /** Once everything rejected is rolled back, exactly the accepted calls count. */
  lemma SettledCountsAccepted(window: int, calls: seq<Call>, last: Call, settled: seq<Call>, k: Key, t: int)
    requires SameCalls(calls + [last], settled) && AllSettled(settled) && !last.accepted
    requires forall c :: 0 <= c < |calls| ==> calls[c].at <= t
    ensures Counting(settled, k, t, window) == AcceptedIn(calls, k, t, window)
  {
    assert (calls + [last])[..|calls|] == calls && (calls + [last])[|calls|] == last;
  }

  /** Every key has room for a call at t, as far as the accepted calls go. */
  ghost predicate Room(window: int, calls: seq<Call>, who: seq<Identity>, t: int) {
    forall i :: 0 <= i < |who| ==> |AcceptedIn(calls, who[i].key, t, window)| < who[i].limit
  }

  lemma RoomIffAllReset(window: int, calls: seq<Call>, now: int, who: seq<Identity>, oldest: seq<int>, wait: int,
                        later: int)
    requires Bounded(calls, window) && FixedLimits(calls, who) && wait >= 1 && later == now + 1000 * wait
    requires (forall c :: 0 <= c < |calls| ==> calls[c].at <= now) && OldestAccepted(window, calls, now, who, oldest)
    ensures Room(window, calls, who, later) <==> AllReset(window, calls, now, who, oldest, wait)
  {
    forall i | 0 <= i < |who|
      ensures |AcceptedIn(calls, who[i].key, later, window)| < who[i].limit <==>
              (UsedUp(window, calls, now, who[i]) ==> ResetSeconds(oldest[i], now, window) <= wait)
    {
      NeverOverfull(window, calls, now, who, i);
      KeyOpensIff(calls, window, now, who[i], oldest[i], wait, later);
    }
  }

  /** A request at t would be accepted. */
  predicate Accepts(window: int, s: State, who: seq<Identity>, t: int) {
    Decide(s.sets, who, t, |s.calls|, window)
  }

  /** Once everything is settled the accepted calls of s alone decide. */
  lemma SettledDecision(window: int, s: State, now: int, who: seq<Identity>, t: State, later: int)
    requires window > 0 && Exact(window, s) && Enabled(s, Add(now, who)) && !Accepts(window, s, who, now)
    requires SameCalls(Next(window, s, Add(now, who)).calls, t.calls) && AllSettled(t.calls)
    requires Exact(window, t) && now <= later && t.clock <= later
    ensures Accepts(window, t, who, later) <==>
            Room(window, s.calls, who, later)
  {
    DecisionIsExact(window, t, later, who);
    var rejected := Next(window, s, Add(now, who)).calls[|s.calls|];
    forall k: Key ensures Counting(t.calls, k, later, window) == AcceptedIn(s.calls, k, later, window) {
      SettledCountsAccepted(window, s.calls, rejected, t.calls, k, later);
    }
  }

  /** The request was rejected in s, and then everything rejected was rolled back, by the end of `rest`. */
  ghost predicate SettledBy(window: int, s: State, now: int, who: seq<Identity>, rest: seq<Step>, later: int) {
    && Enabled(s, Add(now, who)) && !Accepts(window, s, who, now)
    && ValidRun(window, Next(window, s, Add(now, who)), rest) && OnlySettles(rest)
    && var t := End(window, Next(window, s, Add(now, who)), rest);
       AllSettled(t.calls) && t.clock <= later
  }

  lemma SettledByDecides(window: int, s: State, now: int, who: seq<Identity>, rest: seq<Step>, later: int)
    requires window > 0 && Exact(window, s) && SettledBy(window, s, now, who, rest, later) && now <= later
    ensures Accepts(window, End(window, Next(window, s, Add(now, who)), rest), who, later) <==>
            Room(window, s.calls, who, later)
  {
    StepKeepsExact(window, s, Add(now, who));
    SettlingKeepsCalls(window, Next(window, s, Add(now, who)), rest);
    SettledDecision(window, s, now, who, End(window, Next(window, s, Add(now, who)), rest), later);
  }

  lemma AcceptedOnceAllReset(window: int, s: State, now: int, who: seq<Identity>, rest: seq<Step>, oldest: seq<int>,
                             wait: int, later: int)
    requires window > 0 && Exact(window, s) && Bounded(s.calls, window) && FixedLimits(s.calls, who)
    requires wait >= 1 && later == now + 1000 * wait && SettledBy(window, s, now, who, rest, later)
    requires OldestAccepted(window, s.calls, now, who, oldest)
    ensures Accepts(window, End(window, Next(window, s, Add(now, who)), rest), who, later) <==>
            AllReset(window, s.calls, now, who, oldest, wait)
  {
    RoomIffAllReset(window, s.calls, now, who, oldest, wait, later);
    SettledByDecides(window, s, now, who, rest, later);
  }

  /** Some run ends in s. */
  ghost predicate Reachable(window: int, s: State)
    requires window > 0
  {
    exists steps :: ValidRun(window, Init(), steps) && End(window, Init(), steps) == s
  }

  /** A request is rejected in any reachable state, with any number of other rejected calls still to be rolled back.
      Once they all are, it is accepted after a wait exactly when every key whose accepted calls take up its limit has
      its oldest accepted call out of the window by then. */
  lemma WaitIsEnoughIff(window: int, s: State, now: int, who: seq<Identity>, rest: seq<Step>, oldest: seq<int>,
                        wait: int, later: int)
    requires window > 0 && Reachable(window, s) && FixedLimits(s.calls, who)
    requires wait >= 1 && later == now + 1000 * wait && SettledBy(window, s, now, who, rest, later)
    requires OldestAccepted(window, s.calls, now, who, oldest)
    ensures Accepts(window, End(window, Next(window, s, Add(now, who)), rest), who, later) <==>
            AllReset(window, s.calls, now, who, oldest, wait)
  {
    var steps :| ValidRun(window, Init(), steps) && End(window, Init(), steps) == s;
    RunsAreSound(window, steps);
    AcceptedOnceAllReset(window, s, now, who, rest, oldest, wait, later);
  }

  // Serial use: nobody else is between being counted and being rolled back.

  /** What ZRANGE finds under each key just after the request was added. */
  ghost predicate FindsOldest(window: int, s: State, now: int, who: seq<Identity>, oldest: seq<int>) {
    && |oldest| == |who|
    && forall i :: 0 <= i < |who| ==>
         IsOldest(Entries(Next(window, s, Add(now, who)).sets, who[i].key), oldest[i])
  }

  /** The request, rejected at `now` and rolled back, is accepted at `later`. */
  ghost predicate AcceptedAt(window: int, s: State, now: int, who: seq<Identity>, later: int) {
    var rejected := Next(window, Next(window, s, Add(now, who)), Rollback(|s.calls|));
    Accepts(window, rejected, who, later)
  }

  /** What the answer's Retry-After carries: the reset of the limiting identity. */
  ghost function RetryAfter(window: int, s: State, now: int, who: seq<Identity>, oldest: seq<int>): int
    requires |oldest| == |who| > 0
  {
    UsedLength(s.sets, who, now, |s.calls|, window);
    ResetSeconds(oldest[LimitingIndex(who, Used(s.sets, who, now, |s.calls|, window))], now, window)
  }

  /** No call is under way, and every key has kept its limit. */
  ghost predicate SerialUse(calls: seq<Call>, who: seq<Identity>) {
    AllSettled(calls) && FixedLimits(calls, who)
  }

  lemma SerialOldest(window: int, s: State, now: int, who: seq<Identity>, oldest: seq<int>)
    requires window > 0 && Exact(window, s) && now >= s.clock && AllSettled(s.calls)
    requires FindsOldest(window, s, now, who, oldest)
    ensures OldestAccepted(window, s.calls, now, who, oldest)
  {
    forall i | 0 <= i < |who| ensures OldestOf(s.calls, AcceptedIn(s.calls, who[i].key, now, window), oldest[i]) {
      OldestCounts(window, s, now, who, i, oldest[i]);
      SerialCounts(window, s, who[i].key, now);
    }
  }

  lemma SerialCounts(window: int, s: State, k: Key, t: int)
    requires Ordered(s) && AllSettled(s.calls) && t >= s.clock
    ensures Counting(s.calls, k, t, window) == AcceptedIn(s.calls, k, t, window)
  {
  }

  /** In serial use the limiting key is used up, and no key before it is. */
  lemma LimitingIsFirstUsedUp(window: int, s: State, now: int, who: seq<Identity>)
    requires window > 0 && Exact(window, s) && Bounded(s.calls, window) && SerialUse(s.calls, who)
    requires now >= s.clock && who != [] && !Accepts(window, s, who, now)
    ensures var used := Used(s.sets, who, now, |s.calls|, window);
            |used| == |who| && UsedUp(window, s.calls, now, who[LimitingIndex(who, used)])
            && forall i :: 0 <= i < LimitingIndex(who, used) ==> !UsedUp(window, s.calls, now, who[i])
  {
    var used := Used(s.sets, who, now, |s.calls|, window);
    UsedLength(s.sets, who, now, |s.calls|, window);
    forall i | 0 <= i < |who|
      ensures who[i].limit - used[i] >= -1 && (who[i].limit - used[i] == -1 <==> UsedUp(window, s.calls, now, who[i]))
    {
      UsedIsCounting(window, s, who, now, i);
      SerialCounts(window, s, who[i].key, now);
      NeverOverfull(window, s.calls, now, who, i);
    }
  }

  /** In serial use, a request under any number of keys that was rejected and rolled back is accepted after a wait
      exactly when every key used up resets within it, and never before Retry-After seconds are over. So after those it
      is accepted if and only if no key used up resets later than the limiting one. */
  lemma RetryAfterIsExact(window: int, s: State, now: int, who: seq<Identity>, oldest: seq<int>, wait: int,
                          later: int)
    requires window > 0 && Reachable(window, s) && SerialUse(s.calls, who) && now >= s.clock
    requires who != [] && !Accepts(window, s, who, now) && FindsOldest(window, s, now, who, oldest)
    requires wait >= 1 && later == now + 1000 * wait
    ensures AcceptedAt(window, s, now, who, later) <==> AllReset(window, s.calls, now, who, oldest, wait)
    ensures AllReset(window, s.calls, now, who, oldest, wait) ==> wait >= RetryAfter(window, s, now, who, oldest)
  {
    var steps :| ValidRun(window, Init(), steps) && End(window, Init(), steps) == s;
    RunsAreSound(window, steps);
    SerialOldest(window, s, now, who, oldest);
    RolledBackAtOnce(window, s, now, who);
    AcceptedOnceAllReset(window, s, now, who, [Rollback(|s.calls|)], oldest, wait, later);
    LimitingIsFirstUsedUp(window, s, now, who);
  }

  lemma RolledBackAtOnce(window: int, s: State, now: int, who: seq<Identity>)
    requires AllSettled(s.calls) && Enabled(s, Add(now, who)) && !Accepts(window, s, who, now)
    ensures var added, rest := Next(window, s, Add(now, who)), [Rollback(|s.calls|)];
            && ValidRun(window, added, rest) && AllSettled(End(window, added, rest).calls)
            && End(window, added, rest) == Next(window, added, rest[0]) && End(window, added, rest).clock == now
  {
    var added, rest := Next(window, s, Add(now, who)), [Rollback(|s.calls|)];
    assert rest[1..] == [] && ValidRun(window, Next(window, added, rest[0]), rest[1..]);
    var t := Next(window, added, rest[0]);
  }

  /** Every call counted under one key of the request is counted under the later ones. */
  ghost predicate Nested(calls: seq<Call>, who: seq<Identity>) {
    forall i, j, c :: 0 <= i < j < |who| && 0 <= c < |calls| && Names(calls[c].identities, who[i].key) ==>
      Names(calls[c].identities, who[j].key)
  }

  lemma WiderKeyResetsFirst(window: int, calls: seq<Call>, now: int, who: seq<Identity>, oldest: seq<int>, i: nat,
                            j: nat)
    requires OldestAccepted(window, calls, now, who, oldest) && Nested(calls, who) && FixedLimits(calls, who)
    requires i <= j < |who| && UsedUp(window, calls, now, who[i])
    ensures ResetSeconds(oldest[j], now, window) <= ResetSeconds(oldest[i], now, window)
  {
    if i < j {
      var first :| first in AcceptedIn(calls, who[i].key, now, window) && calls[first].at == oldest[i];
      assert first in AcceptedIn(calls, who[j].key, now, window);
    }
  }

  lemma FirstUsedUpResetsLast(window: int, calls: seq<Call>, now: int, who: seq<Identity>, oldest: seq<int>, i: nat)
    requires OldestAccepted(window, calls, now, who, oldest) && Nested(calls, who) && FixedLimits(calls, who)
    requires i < |who| && UsedUp(window, calls, now, who[i])
    requires forall j :: 0 <= j < i ==> !UsedUp(window, calls, now, who[j])
    ensures AllReset(window, calls, now, who, oldest, ResetSeconds(oldest[i], now, window))
  {
    forall j | 0 <= j < |who| && UsedUp(window, calls, now, who[j])
      ensures ResetSeconds(oldest[j], now, window) <= ResetSeconds(oldest[i], now, window)
    {
      WiderKeyResetsFirst(window, calls, now, who, oldest, i, j);
    }
  }

  /** In serial use, and when every call counted under a key of the request also counts under its later keys, the wait
      named is always enough. */
  lemma NestedRetryAfterIsEnough(window: int, s: State, now: int, who: seq<Identity>, oldest: seq<int>, wait: int,
                                 later: int)
    requires window > 0 && Reachable(window, s) && SerialUse(s.calls, who) && Nested(s.calls, who) && now >= s.clock
    requires who != [] && !Accepts(window, s, who, now) && FindsOldest(window, s, now, who, oldest)
    requires wait == RetryAfter(window, s, now, who, oldest) && later == now + 1000 * wait
    ensures AcceptedAt(window, s, now, who, later)
  {
    var steps :| ValidRun(window, Init(), steps) && End(window, Init(), steps) == s;
    RunsAreSound(window, steps);
    SerialOldest(window, s, now, who, oldest);
    LimitingIsFirstUsedUp(window, s, now, who);
    FirstUsedUpResetsLast(window, s.calls, now, who, oldest,
                          LimitingIndex(who, Used(s.sets, who, now, |s.calls|, window)));
    RetryAfterIsExact(window, s, now, who, oldest, wait, later);
  }

  // What the publish route counts under: an API key, and the project it belongs to.

  datatype PublishLimits = PublishLimits(perKey: nat, perProject: nat)

  const PROJECT: string := "project:"

  predicate IsProjectKey(k: Key) {
    PROJECT <= k
  }

  function PublishIdentities(apiKey: Key, projectOf: Key -> Key, limits: PublishLimits): seq<Identity> {
    [Identity(apiKey, limits.perKey), Identity(PROJECT + projectOf(apiKey), limits.perProject)]
  }

  /** The identities are those of a publish with some API key. */
  ghost predicate OfPublish(who: seq<Identity>, projectOf: Key -> Key, limits: PublishLimits) {
    exists apiKey: Key :: !IsProjectKey(apiKey) && who == PublishIdentities(apiKey, projectOf, limits)
  }

  ghost predicate OnlyPublishes(steps: seq<Step>, projectOf: Key -> Key, limits: PublishLimits) {
    forall step :: step in steps && step.Add? ==> OfPublish(step.who, projectOf, limits)
  }

  ghost predicate PublishCalls(calls: seq<Call>, projectOf: Key -> Key, limits: PublishLimits) {
    forall c :: 0 <= c < |calls| ==> OfPublish(calls[c].identities, projectOf, limits)
  }

  lemma {:induction false} PublishesMakePublishCalls(window: int, s: State, steps: seq<Step>, projectOf: Key -> Key,
                                                     limits: PublishLimits)
    requires ValidRun(window, s, steps) && OnlyPublishes(steps, projectOf, limits)
    requires PublishCalls(s.calls, projectOf, limits)
    ensures PublishCalls(End(window, s, steps).calls, projectOf, limits)
    decreases |steps|
  {
    if steps != [] {
      assert steps[0] in steps;
      PublishesMakePublishCalls(window, Next(window, s, steps[0]), steps[1..], projectOf, limits);
    }
  }

  lemma PublishNames(apiKey: Key, projectOf: Key -> Key, limits: PublishLimits, k: Key)
    ensures Names(PublishIdentities(apiKey, projectOf, limits), k) <==> k == apiKey || k == PROJECT + projectOf(apiKey)
  {
    var who := PublishIdentities(apiKey, projectOf, limits);
    assert who[0].key == apiKey && who[1].key == PROJECT + projectOf(apiKey);
  }

  lemma PublishCallsAreNested(calls: seq<Call>, apiKey: Key, projectOf: Key -> Key, limits: PublishLimits)
    requires PublishCalls(calls, projectOf, limits) && !IsProjectKey(apiKey)
    requires limits.perKey >= 1 && limits.perProject >= 1
    ensures Nested(calls, PublishIdentities(apiKey, projectOf, limits))
    ensures FixedLimits(calls, PublishIdentities(apiKey, projectOf, limits))
  {
    forall c | 0 <= c < |calls|
      ensures Names(calls[c].identities, apiKey) ==> Names(calls[c].identities, PROJECT + projectOf(apiKey))
      ensures |calls[c].identities| == 2
      ensures !IsProjectKey(calls[c].identities[0].key) && IsProjectKey(calls[c].identities[1].key)
      ensures calls[c].identities[0].limit == limits.perKey && calls[c].identities[1].limit == limits.perProject
    {
      var other: Key :| !IsProjectKey(other) && calls[c].identities == PublishIdentities(other, projectOf, limits);
      PublishNames(other, projectOf, limits, apiKey);
      PublishNames(other, projectOf, limits, PROJECT + projectOf(apiKey));
    }
  }

  /** A publish that was rejected while no other one was under way is accepted once the Retry-After it was given is
      over, whatever was published before, by any keys of any projects. */
  lemma PublishRetryAfterIsEnough(window: int, steps: seq<Step>, now: int, apiKey: Key, projectOf: Key -> Key,
                                  limits: PublishLimits, oldest: seq<int>, later: int)
    requires window > 0 && ValidRun(window, Init(), steps) && OnlyPublishes(steps, projectOf, limits)
    requires limits.perKey >= 1 && limits.perProject >= 1 && !IsProjectKey(apiKey)
    requires AllSettled(End(window, Init(), steps).calls) && now >= End(window, Init(), steps).clock
    requires var s, who := End(window, Init(), steps), PublishIdentities(apiKey, projectOf, limits);
             && !Accepts(window, s, who, now) && FindsOldest(window, s, now, who, oldest)
             && later == now + 1000 * RetryAfter(window, s, now, who, oldest)
    ensures AcceptedAt(window, End(window, Init(), steps), now, PublishIdentities(apiKey, projectOf, limits), later)
  {
    var s, who := End(window, Init(), steps), PublishIdentities(apiKey, projectOf, limits);
    PublishesMakePublishCalls(window, Init(), steps, projectOf, limits);
    PublishCallsAreNested(s.calls, apiKey, projectOf, limits);
    NestedRetryAfterIsEnough(window, s, now, who, oldest, RetryAfter(window, s, now, who, oldest), later);
  }

  const MINUTE: int := 60_000
  const TIGHT: PublishLimits := PublishLimits(1, 2)

  /** A publish of a project that may publish twice a minute, each of its keys once. */
  function Publish(k: Key, of: Key -> Key): (who: seq<Identity>)
    ensures |who| == 2 && who[0].key == k && who[1].key == PROJECT + of(k)
  {
    PublishIdentities(k, of, TIGHT)
  }

  /** Two API keys of one project. */
  predicate Siblings(a: Key, b: Key, of: Key -> Key) {
    a != b && !IsProjectKey(a) && !IsProjectKey(b) && of(a) == of(b)
  }

  /** A publish with each, half a minute apart, and a second one with the first of them, not yet rolled back. */
  function OnePending(a: Key, b: Key, of: Key -> Key): seq<Step> {
    [Add(0, Publish(b, of)), Add(30_000, Publish(a, of)), Add(40_000, Publish(b, of))]
  }

  /** What becomes of the first n of those. */
  function PendingCalls(a: Key, b: Key, of: Key -> Key, n: nat): seq<Call>
    requires n <= 3
  {
    [Call(0, Publish(b, of), true, false), Call(30_000, Publish(a, of), true, false),
     Call(40_000, Publish(b, of), false, false)][..n]
  }

  lemma PendingCounts(a: Key, b: Key, of: Key -> Key, p: Key)
    requires Siblings(a, b, of) && p == PROJECT + of(a)
    ensures Counting(PendingCalls(a, b, of, 0), b, 0, MINUTE) == {} == Counting(PendingCalls(a, b, of, 0), p, 0, MINUTE)
    ensures Counting(PendingCalls(a, b, of, 1), a, 30_000, MINUTE) == {}
    ensures Counting(PendingCalls(a, b, of, 1), p, 30_000, MINUTE) == {0}
    ensures Counting(PendingCalls(a, b, of, 2), b, 40_000, MINUTE) == {0}
    ensures Counting(PendingCalls(a, b, of, 2), p, 40_000, MINUTE) == {0, 1}
    ensures Counting(PendingCalls(a, b, of, 3), a, 40_000, MINUTE) == {1}
    ensures Counting(PendingCalls(a, b, of, 3), p, 40_000, MINUTE) == {0, 1, 2}
  {
    forall k: Key ensures Names(Publish(a, of), k) <==> k == a || k == p { PublishNames(a, of, TIGHT, k); }
    forall k: Key ensures Names(Publish(b, of), k) <==> k == b || k == p { PublishNames(b, of, TIGHT, k); }
  }

  /** What counts under the two keys of a publish decides. */
  lemma PublishDecided(s: State, k: Key, of: Key -> Key, now: int, ofKey: set<CallId>, ofProject: set<CallId>)
    requires Exact(MINUTE, s) && now >= s.clock && Counting(s.calls, k, now, MINUTE) == ofKey
    requires Counting(s.calls, PROJECT + of(k), now, MINUTE) == ofProject
    ensures Used(s.sets, Publish(k, of), now, |s.calls|, MINUTE) == [|ofKey| + 1, |ofProject| + 1]
    ensures Accepts(MINUTE, s, Publish(k, of), now) <==> |ofKey| < 1 && |ofProject| < 2
  {
    UsedIsCounting(MINUTE, s, Publish(k, of), now, 0);
    UsedIsCounting(MINUTE, s, Publish(k, of), now, 1);
  }

  lemma NthDecision(a: Key, b: Key, of: Key -> Key, n: nat, s: State, now: int)
    requires Siblings(a, b, of) && n < 3 && Exact(MINUTE, s) && s.calls == PendingCalls(a, b, of, n)
    requires now == OnePending(a, b, of)[n].now >= s.clock
    ensures Accepts(MINUTE, s, OnePending(a, b, of)[n].who, now) <==> n < 2
  {
    PendingCounts(a, b, of, PROJECT + of(a));
    if n == 0 { PublishDecided(s, b, of, now, {}, {}); }
    else if n == 1 { PublishDecided(s, a, of, now, {}, {0}); }
    else { PublishDecided(s, b, of, now, {0}, {0, 1}); }
  }

  /** The n-th of the publishes does what PendingCalls says. */
  lemma NextPublish(a: Key, b: Key, of: Key -> Key, n: nat, s: State, now: int)
    requires Siblings(a, b, of) && n < 3 && Exact(MINUTE, s) && s.calls == PendingCalls(a, b, of, n)
    requires now == OnePending(a, b, of)[n].now >= s.clock
    ensures var step := OnePending(a, b, of)[n];
            && Enabled(s, step) && Exact(MINUTE, Next(MINUTE, s, step))
            && Next(MINUTE, s, step).calls == PendingCalls(a, b, of, n + 1) && Next(MINUTE, s, step).clock == now
  {
    NthDecision(a, b, of, n, s, now);
    StepKeepsExact(MINUTE, s, OnePending(a, b, of)[n]);
  }

  lemma {:induction false} RunOn(a: Key, b: Key, of: Key -> Key, n: nat, s: State)
    requires Siblings(a, b, of) && n <= 3 && Exact(MINUTE, s) && s.calls == PendingCalls(a, b, of, n)
    requires s.clock == if n == 0 then 0 else PendingCalls(a, b, of, n)[n - 1].at
    ensures ValidRun(MINUTE, s, OnePending(a, b, of)[n..])
    ensures var t := End(MINUTE, s, OnePending(a, b, of)[n..]);
            Exact(MINUTE, t) && t.calls == PendingCalls(a, b, of, 3) && t.clock == 40_000
    decreases 3 - n
  {
    var steps := OnePending(a, b, of);
    if n < 3 {
      NextPublish(a, b, of, n, s, steps[n].now);
      RunOn(a, b, of, n + 1, Next(MINUTE, s, steps[n]));
      assert steps[n..][0] == steps[n] && steps[n..][1..] == steps[n + 1..];
    }
  }

  lemma OldestFound(s: State, who: seq<Identity>, now: int, k: Key, first: CallId, at: int)
    requires Exact(MINUTE, s) && now >= s.clock && Names(who, k)
    requires first in Counting(s.calls, k, now, MINUTE) && s.calls[first].at == at
    requires forall id :: id in Counting(s.calls, k, now, MINUTE) ==> at <= s.calls[id].at
    ensures IsOldest(Entries(Next(MINUTE, s, Add(now, who)).sets, k), at)
  {
    var trimmed := Trim(Entries(s.sets, k), now, MINUTE);
    TrimmedIsCounting(MINUTE, s, k, now);
    TrimmedTimes(s, k, now);
    AddAt(MINUTE, s, Next(MINUTE, s, Add(now, who)), Add(now, who), k);
    assert trimmed[|s.calls| := now][first] == at;
  }

  lemma TrimmedTimes(s: State, k: Key, now: int)
    requires Exact(MINUTE, s) && now >= s.clock
    ensures forall id :: id in Trim(Entries(s.sets, k), now, MINUTE) ==>
              id < |s.calls| && Trim(Entries(s.sets, k), now, MINUTE)[id] == s.calls[id].at <= now
  {
    assert ExactAt(MINUTE, s, k);
  }

  /** Another publish at that moment finds these oldest entries under its keys. */
  lemma PendingOldest(a: Key, b: Key, of: Key -> Key, p: Key, s: State, now: int)
    requires Siblings(a, b, of) && p == PROJECT + of(a) && now == 40_000 >= s.clock
    requires Exact(MINUTE, s) && s.calls == PendingCalls(a, b, of, 3)
    ensures FindsOldest(MINUTE, s, now, Publish(a, of), [30_000, 0])
  {
    PendingCounts(a, b, of, p);
    PublishNames(a, of, TIGHT, a);
    PublishNames(a, of, TIGHT, p);
    OldestFound(s, Publish(a, of), now, a, 1, 30_000);
    OldestFound(s, Publish(a, of), now, p, 0, 0);
  }

  /** It is rejected, and the project's reset is the one it is told. */
  lemma PendingLimits(a: Key, b: Key, of: Key -> Key, s: State, now: int)
    requires Siblings(a, b, of) && now == 40_000 >= s.clock
    requires Exact(MINUTE, s) && s.calls == PendingCalls(a, b, of, 3)
    ensures !Accepts(MINUTE, s, Publish(a, of), now)
    ensures RetryAfter(MINUTE, s, now, Publish(a, of), [30_000, 0]) == 20
  {
    PendingCounts(a, b, of, PROJECT + of(a));
    PublishDecided(s, a, of, now, {1}, {0, 1, 2});
    assert |{0, 1, 2}| == 3;
  }

  lemma KeyStaysFull(s: State, a: Key, of: Key -> Key, id: CallId, later: int)
    requires Exact(MINUTE, s) && later == 60_000 >= s.clock && id < |s.calls|
    requires s.calls[id].accepted && s.calls[id].identities == Publish(a, of) && s.calls[id].at == 30_000
    ensures !Accepts(MINUTE, s, Publish(a, of), later)
  {
    PublishNames(a, of, TIGHT, a);
    DecisionIsExact(MINUTE, s, later, Publish(a, of));
    assert Publish(a, of)[0].key == a;
    SubsetSize({id}, Counting(s.calls, a, later, MINUTE));
  }

  function BothRollbacks(): seq<Step> {
    [Rollback(2), Rollback(3)]
  }

  lemma BothRolledBack(added: State, rest: seq<Step>)
    requires rest == BothRollbacks() && |added.calls| == 4 && Exact(MINUTE, added)
    requires added.calls[0].accepted && added.calls[1].accepted
    requires forall i :: 2 <= i < 4 ==> !added.calls[i].accepted && !added.calls[i].rolledBack
    ensures ValidRun(MINUTE, added, rest) && OnlySettles(rest)
    ensures var t := End(MINUTE, added, rest);
            AllSettled(t.calls) && t.clock == added.clock && Exact(MINUTE, t) && t.calls[1] == added.calls[1]
  {
    var one := Next(MINUTE, added, Rollback(2));
    OneMore(MINUTE, one, Rollback(3), []);
    OneMore(MINUTE, added, Rollback(2), [Rollback(3)]);
    SettlingKeepsCalls(MINUTE, added, rest);
  }

  lemma OneMore(window: int, s: State, step: Step, rest: seq<Step>)
    requires Enabled(s, step) && ValidRun(window, Next(window, s, step), rest)
    ensures ValidRun(window, s, [step] + rest)
    ensures End(window, s, [step] + rest) == End(window, Next(window, s, step), rest)
  {
    assert ([step] + rest)[1..] == rest;
  }

  lemma PendingSettles(a: Key, b: Key, of: Key -> Key, s: State, now: int, later: int)
    requires Siblings(a, b, of) && now == 40_000 >= s.clock && later == 60_000
    requires Exact(MINUTE, s) && s.calls == PendingCalls(a, b, of, 3)
    ensures SettledBy(MINUTE, s, now, Publish(a, of), BothRollbacks(), later)
    ensures !Accepts(MINUTE, End(MINUTE, Next(MINUTE, s, Add(now, Publish(a, of))), BothRollbacks()), Publish(a, of),
                     later)
  {
    PendingLimits(a, b, of, s, now);
    var added := Next(MINUTE, s, Add(now, Publish(a, of)));
    StepKeepsExact(MINUTE, s, Add(now, Publish(a, of)));
    BothRolledBack(added, BothRollbacks());
    KeyStaysFull(End(MINUTE, added, BothRollbacks()), a, of, 1, later);
  }

  /** While another rejected publish is still to be rolled back the wait named can be too short: the project looks
      fuller than it is, its reset is named, and the API key is used up for longer. */
  lemma PendingCallShortensTheWait(a: Key, b: Key, of: Key -> Key, now: int, later: int)
    requires Siblings(a, b, of) && now == 40_000 && later == 60_000
    ensures ValidRun(MINUTE, Init(), OnePending(a, b, of)) && OnlyPublishes(OnePending(a, b, of), of, TIGHT)
    ensures var s, who := End(MINUTE, Init(), OnePending(a, b, of)), Publish(a, of);
            && FindsOldest(MINUTE, s, now, who, [30_000, 0])
            && RetryAfter(MINUTE, s, now, who, [30_000, 0]) == 20
            && SettledBy(MINUTE, s, now, who, BothRollbacks(), later)
            && !Accepts(MINUTE, End(MINUTE, Next(MINUTE, s, Add(now, who)), BothRollbacks()), who, later)
  {
    RunOn(a, b, of, 0, Init());
    assert OnePending(a, b, of)[0..] == OnePending(a, b, of);
    var s := End(MINUTE, Init(), OnePending(a, b, of));
    PendingOldest(a, b, of, PROJECT + of(a), s, now);
    PendingLimits(a, b, of, s, now);
    PendingSettles(a, b, of, s, now, later);
  }

  // Key expiry cannot be observed.

  function WithoutExpiry(steps: seq<Step>): seq<Step> {
    if steps == [] then []
    else if steps[0].Expire? then WithoutExpiry(steps[1..])
    else [steps[0]] + WithoutExpiry(steps[1..])
  }

  lemma {:induction false} SameDecisions(window: int, s: State, kept: State, steps: seq<Step>)
    requires window > 0 && Exact(window, s) && Exact(window, kept) && s.calls == kept.calls && kept.clock <= s.clock
    requires ValidRun(window, s, steps)
    ensures ValidRun(window, kept, WithoutExpiry(steps))
    ensures End(window, kept, WithoutExpiry(steps)).calls == End(window, s, steps).calls
    decreases |steps|
  {
    if steps != [] {
      var step := steps[0];
      StepKeepsExact(window, s, step);
      if step.Expire? {
        SameDecisions(window, Next(window, s, step), kept, steps[1..]);
      } else {
        assert WithoutExpiry(steps)[1..] == WithoutExpiry(steps[1..]);
        if step.Add? {
          DecisionIsExact(window, s, step.now, step.who);
          DecisionIsExact(window, kept, step.now, step.who);
        }
        StepKeepsExact(window, kept, step);
        SameDecisions(window, Next(window, s, step), Next(window, kept, step), steps[1..]);
      }
    }
  }

  /** The same requests get the same answers whether or not the store ever drops an expired key. */
  lemma ExpiryIsUnobservable(window: int, steps: seq<Step>)
    requires window > 0 && ValidRun(window, Init(), steps)
    ensures ValidRun(window, Init(), WithoutExpiry(steps))
    ensures End(window, Init(), WithoutExpiry(steps)).calls == End(window, Init(), steps).calls
  {
    SameDecisions(window, Init(), Init(), steps);
  }

  // The limiter itself.

  lemma OneKey(sets: map<Key, SortedSet>, expiresAt: map<Key, int>, who: seq<Identity>, i: nat, now: int, id: CallId,
               window: int)
    requires i < |who|
    ensures var touched := Touch(sets, who[i].key, now, id, window);
            && AddKeys(sets, who[i..], now, id, window) == AddKeys(touched, who[i + 1..], now, id, window)
            && Used(sets, who[i..], now, id, window)
               == [|touched[who[i].key]|] + Used(touched, who[i + 1..], now, id, window)
    ensures Renew(expiresAt, who[i..], now + window) ==
            Renew(expiresAt[who[i].key := now + window], who[i + 1..], now + window)
  {
    assert who[i..][0] == who[i] && who[i..][1..] == who[i + 1..];
  }

  class RateLimiter {
    const window: int
    var store: State

    constructor (window: int)
      requires window > 0
      ensures this.window == window && store == Init() && Exact(window, store)
    {
      this.window := window;
      store := Init();
    }

    /** The transaction's commands, key by key: trim, add, count and renew. */
    static method Transact(before: map<Key, SortedSet>, expiry: map<Key, int>, who: seq<Identity>, now: int, id: CallId,
                           window: int)
      returns (sets: map<Key, SortedSet>, expiresAt: map<Key, int>, used: seq<nat>)
      ensures sets == AddKeys(before, who, now, id, window)
      ensures expiresAt == Renew(expiry, who, now + window)
      ensures used == Used(before, who, now, id, window)
    {
      sets, expiresAt, used := before, expiry, [];
      assert who[0..] == who;
      ghost var total := Used(before, who, now, id, window);
      for i := 0 to |who|
        invariant AddKeys(sets, who[i..], now, id, window) == AddKeys(before, who, now, id, window)
        invariant Renew(expiresAt, who[i..], now + window) == Renew(expiry, who, now + window)
        invariant used + Used(sets, who[i..], now, id, window) == total
      {
        OneKey(sets, expiresAt, who, i, now, id, window);
        ghost var rest := Used(sets, who[i..], now, id, window);
        var k := who[i].key;
        var recent := Trim(Entries(sets, k), now, window);
        sets := sets[k := recent[id := now]];
        assert used + rest == used + [|sets[k]|] + Used(sets, who[i + 1..], now, id, window);
        used := used + [|sets[k]|];
        expiresAt := expiresAt[k := now + window];
      }
    }

    /** Counts a request under all its keys and decides. */
    method Count(now: int, who: seq<Identity>) returns (used: seq<nat>)
      requires window > 0 && Enabled(store, Add(now, who))
      modifies this
      ensures store == Next(window, old(store), Add(now, who))
      ensures used == Used(old(store.sets), who, now, |old(store.calls)|, window)
    {
      var sets, expiresAt;
      UsedLength(store.sets, who, now, |store.calls|, window);
      sets, expiresAt, used := Transact(store.sets, store.expiresAt, who, now, |store.calls|, window);
      store := State(sets, expiresAt, store.calls + [Call(now, who, WithinLimits(who, used), false)], now);
    }

    /** The rollback transaction of a rejected call. */
    method TakeBack(id: CallId)
      requires Enabled(store, Rollback(id))
      modifies this
      ensures store == Next(window, old(store), Rollback(id))
    {
      var who := store.calls[id].identities;
      var sets := store.sets;
      for i := 0 to |who|
        invariant RemoveKeys(sets, who[i..], id) == RemoveKeys(old(store.sets), who, id)
      {
        assert who[i..][0] == who[i] && who[i..][1..] == who[i + 1..];
        sets := sets[who[i].key := Entries(sets, who[i].key) - {id}];
      }
      store := store.(sets := sets, calls := store.calls[id := store.calls[id].(rolledBack := true)]);
    }

    /** A whole request with nobody else in between. */
    method RateLimit(now: int, who: seq<Identity>) returns (allowed: bool)
      requires window > 0 && Exact(window, store) && Enabled(store, Add(now, who))
      modifies this
      ensures Exact(window, store)
      ensures allowed <==> forall i :: 0 <= i < |who| ==>
              |Counting(old(store.calls), who[i].key, now, window)| < who[i].limit
      ensures store.calls == old(store.calls) + [Call(now, who, allowed, !allowed)]
    {
      var id := |store.calls|;
      DecisionIsExact(window, store, now, who);
      StepKeepsExact(window, store, Add(now, who));
      var used := Count(now, who);
      UsedLength(old(store.sets), who, now, id, window);
      allowed := WithinLimits(who, used);
      if !allowed {
        StepKeepsExact(window, store, Rollback(id));
        TakeBack(id);
      }
    }
  }
}
