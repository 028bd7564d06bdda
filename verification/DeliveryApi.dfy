/** How deliveries come to be: an event's rows in one transaction and then one message for each row that is pending, or
    a replay as a delivery of its own. */
module DeliveryApi {
  import opened Wrappers
  import opened DeliveryModel
  import opened DeliveryEngine

  /** One row for each selected endpoint, skipped if the endpoint is disabled. */
  function Creations(s: State, ids: seq<DeliveryId>, targets: seq<EndpointId>, at: int): seq<Step>
    requires |ids| == |targets| && forall i :: 0 <= i < |targets| ==> targets[i] in s.endpoints
  {
    seq(|ids|, i requires 0 <= i < |ids| => CreateDelivery(ids[i], targets[i], at, !s.endpoints[targets[i]].active))
  }

  /** The first messages of the rows that came out pending, in order. */
  function Publications(s: State, ids: seq<DeliveryId>, targets: seq<EndpointId>): seq<Step>
    requires |ids| == |targets| && forall i :: 0 <= i < |targets| ==> targets[i] in s.endpoints
    decreases |ids|
  {
    if ids == [] then []
    else
      (if s.endpoints[targets[0]].active then [PublishFirst(ids[0])] else [])
      + Publications(s, ids[1..], targets[1..])
  }

  predicate Replayable(status: Status) {
    status.Succeeded? || status.FailedPermanently? || status.Skipped? || status.Retrying?
  }

  /** The row has its one first message in the delivery queue. */
  ghost predicate FirstQueued(s: State, d: DeliveryId) {
    d in s.queued && exists m :: m in s.messages && s.messages[m] == Message(d, 1, false, Ready)
  }

  /** The row as the transaction wrote it, still to be published if it is pending. */
  predicate Created(s: State, d: DeliveryId, e: EndpointId, active: bool, at: int) {
    && d in s.deliveries && s.deliveries[d] == Delivery(e, if active then Pending else Skipped, 0, at, None)
    && (d in s.unpublished <==> active)
  }

  lemma NextPublication(s: State, ids: seq<DeliveryId>, targets: seq<EndpointId>, n: nat)
    requires |ids| == |targets| && n < |ids| && forall i :: 0 <= i < |targets| ==> targets[i] in s.endpoints
    ensures Publications(s, ids[n..], targets[n..]) ==
            (if s.endpoints[targets[n]].active then [PublishFirst(ids[n])] else [])
            + Publications(s, ids[n + 1..], targets[n + 1..])
  {
    assert ids[n..][1..] == ids[n + 1..] && targets[n..][1..] == targets[n + 1..];
  }

  /** Only the endpoints decide what is published. */
  lemma {:induction false} SamePublications(s: State, t: State, ids: seq<DeliveryId>, targets: seq<EndpointId>)
    requires s.endpoints == t.endpoints
    requires |ids| == |targets| && forall i :: 0 <= i < |targets| ==> targets[i] in s.endpoints
    ensures Publications(s, ids, targets) == Publications(t, ids, targets)
    decreases |ids|
  {
    if ids != [] { SamePublications(s, t, ids[1..], targets[1..]); }
  }

  ghost predicate Waits(s: State, d: DeliveryId, active: bool) {
    d !in s.queued && (d in s.unpublished <==> active)
  }

  ghost predicate Handled(s: State, d: DeliveryId, active: bool) {
    d !in s.unpublished && if active then FirstQueued(s, d) else d !in s.queued
  }

  lemma OnePublished(c: Config, s: State, d: DeliveryId, other: DeliveryId, active: bool)
    requires Enabled(c, s, PublishFirst(d)) && s.nextMessage !in s.messages
    ensures Handled(Next(c, s, PublishFirst(d)), d, true)
    ensures other != d && Waits(s, other, active) ==> Waits(Next(c, s, PublishFirst(d)), other, active)
    ensures other != d && Handled(s, other, active) ==> Handled(Next(c, s, PublishFirst(d)), other, active)
  {
    var t := Next(c, s, PublishFirst(d));
    assert t.messages[s.nextMessage] == Message(d, 1, false, Ready);
    if m :| m in s.messages && s.messages[m] == Message(other, 1, false, Ready) {
      assert t.messages[m] == s.messages[m];
    }
  }

  lemma RanNothing(c: Config, s: State)
    ensures Ran(c, s, [], s)
  {
  }

  class Api {
    const config: Config
    var store: State

    constructor (config: Config)
      ensures this.config == config && store == Init()
    {
      this.config := config;
      store := Init();
    }

    method CreateRow(d: DeliveryId, e: EndpointId, at: int, skipped: bool)
      requires Enabled(config, store, CreateDelivery(d, e, at, skipped))
      modifies this`store
      ensures store == Next(config, old(store), CreateDelivery(d, e, at, skipped))
    {
      var row := Delivery(e, if skipped then Skipped else Pending, 0, at, None);
      store := store.(deliveries := store.deliveries[d := row]);
      if !skipped { store := store.(unpublished := store.unpublished + {d}); }
    }

    method PublishDelivery(d: DeliveryId)
      requires Enabled(config, store, PublishFirst(d))
      modifies this`store
      ensures store == Next(config, old(store), PublishFirst(d))
    {
      var m := store.nextMessage;
      store := store.(unpublished := store.unpublished - {d}, queued := store.queued + {d},
                      messages := store.messages[m := Message(d, 1, false, Ready)], nextMessage := m + 1);
    }

    /** The transaction: the rows of one event. */
    method CreateRows(ids: seq<DeliveryId>, targets: seq<EndpointId>, at: int)
      requires |ids| == |targets| && (forall i :: 0 <= i < |targets| ==> targets[i] in store.endpoints)
      requires forall i :: 0 <= i < |ids| ==> ids[i] !in store.deliveries && ids[i] !in store.unpublished
      requires forall i, j :: 0 <= i < j < |ids| ==> ids[i] != ids[j]
      modifies this`store
      ensures Ran(config, old(store), Creations(old(store), ids, targets, at), store)
      ensures store.endpoints == old(store).endpoints && store.messages == old(store).messages
      ensures forall i :: 0 <= i < |ids| ==> Created(store, ids[i], targets[i], store.endpoints[targets[i]].active, at)
      ensures store.queued == old(store).queued && store.nextMessage == old(store).nextMessage
    {
      ghost var before := store;
      ghost var all := Creations(before, ids, targets, at);
      RanNothing(config, before);
      for n := 0 to |ids|
        invariant Ran(config, before, all[..n], store)
        invariant store.endpoints == before.endpoints && store.messages == before.messages
        invariant store.queued == before.queued && store.nextMessage == before.nextMessage
        invariant forall i :: 0 <= i < n ==> Created(store, ids[i], targets[i], before.endpoints[targets[i]].active, at)
        invariant forall i :: n <= i < |ids| ==> ids[i] !in store.deliveries && ids[i] !in store.unpublished
      {
        ghost var reached := store;
        RanOne(config, reached, all[n]);
        CreateRow(ids[n], targets[n], at, !store.endpoints[targets[n]].active);
        RanOn(config, before, all[..n], reached, [all[n]], store);
        assert all[..n + 1] == all[..n] + [all[n]];
      }
      assert all[..|ids|] == all;
    }

    /** The loop over the pending rows: each gets its first message, and no other row does. */
    method PublishRows(ids: seq<DeliveryId>, targets: seq<EndpointId>)
      requires |ids| == |targets| && (forall i :: 0 <= i < |targets| ==> targets[i] in store.endpoints)
      requires forall i :: 0 <= i < |ids| ==> Waits(store, ids[i], store.endpoints[targets[i]].active)
      requires forall i :: 0 <= i < |ids| ==>
                 ids[i] in store.deliveries
                 && (store.deliveries[ids[i]].status.Pending? <==> store.endpoints[targets[i]].active)
      requires forall i, j :: 0 <= i < j < |ids| ==> ids[i] != ids[j]
      requires forall m :: m in store.messages ==> m < store.nextMessage
      modifies this`store
      ensures Ran(config, old(store), Publications(old(store), ids, targets), store)
      ensures store.deliveries == old(store).deliveries && store.endpoints == old(store).endpoints
      ensures forall i :: 0 <= i < |ids| ==> Handled(store, ids[i], store.endpoints[targets[i]].active)
    {
      ghost var before, all := store, Publications(store, ids, targets);
      ghost var done: seq<Step> := [];
      RanNothing(config, before);
      assert ids[0..] == ids && targets[0..] == targets;
      for n := 0 to |ids|
        invariant Ran(config, before, done, store)
        invariant done + Publications(before, ids[n..], targets[n..]) == all
        invariant store.deliveries == before.deliveries && store.endpoints == before.endpoints
        invariant forall m :: m in store.messages ==> m < store.nextMessage
        invariant forall i :: 0 <= i < n ==> Handled(store, ids[i], before.endpoints[targets[i]].active)
        invariant forall i :: n <= i < |ids| ==> Waits(store, ids[i], before.endpoints[targets[i]].active)
      {
        NextPublication(before, ids, targets, n);
        if store.deliveries[ids[n]].status == Pending {
          done := PublishOne(before, done, ids, targets, n);
        } else {
          ghost var rest := Publications(before, ids[n + 1..], targets[n + 1..]);
          assert [] + rest == rest;
        }
      }
      assert ids[|ids|..] == [] && done + [] == done;
    }

    method PublishOne(ghost before: State, ghost done: seq<Step>, ids: seq<DeliveryId>, targets: seq<EndpointId>,
                      n: nat)
      returns (ghost longer: seq<Step>)
      requires n < |ids| == |targets| && (forall i :: 0 <= i < |targets| ==> targets[i] in before.endpoints)
      requires Ran(config, before, done, store) && ids[n] in store.unpublished
      requires forall i, j :: 0 <= i < j < |ids| ==> ids[i] != ids[j]
      requires forall m :: m in store.messages ==> m < store.nextMessage
      requires forall i :: 0 <= i < n ==> Handled(store, ids[i], before.endpoints[targets[i]].active)
      requires forall i :: n <= i < |ids| ==> Waits(store, ids[i], before.endpoints[targets[i]].active)
      modifies this`store
      ensures Ran(config, before, longer, store)
      ensures forall rest: seq<Step> :: longer + rest == done + ([PublishFirst(ids[n])] + rest)
      ensures store.deliveries == old(store).deliveries && store.endpoints == old(store).endpoints
      ensures forall m :: m in store.messages ==> m < store.nextMessage
      ensures forall i :: 0 <= i <= n ==> Handled(store, ids[i], i == n || before.endpoints[targets[i]].active)
      ensures forall i :: n < i < |ids| ==> Waits(store, ids[i], before.endpoints[targets[i]].active)
    {
      ghost var reached := store;
      RanOne(config, reached, PublishFirst(ids[n]));
      PublishDelivery(ids[n]);
      OnePublished(config, reached, ids[n], ids[n], true);
      forall i | 0 <= i < |ids| && i != n
        ensures i < n ==> Handled(store, ids[i], before.endpoints[targets[i]].active)
        ensures i > n ==> Waits(store, ids[i], before.endpoints[targets[i]].active)
      {
        OnePublished(config, reached, ids[n], ids[i], before.endpoints[targets[i]].active);
      }
      longer := done + [PublishFirst(ids[n])];
      RanOn(config, before, done, reached, [PublishFirst(ids[n])], store);
      forall rest: seq<Step> ensures longer + rest == done + ([PublishFirst(ids[n])] + rest) {}
    }

    /** One event: its rows, then its messages. */
    method PublishEvent(ids: seq<DeliveryId>, targets: seq<EndpointId>, at: int)
      requires WellFormed(store)
      requires |ids| == |targets| && (forall i :: 0 <= i < |targets| ==> targets[i] in store.endpoints)
      requires forall i :: 0 <= i < |ids| ==> ids[i] !in store.deliveries
      requires forall i, j :: 0 <= i < j < |ids| ==> ids[i] != ids[j]
      modifies this`store
      ensures Ran(config, old(store),
                  Creations(old(store), ids, targets, at) + Publications(old(store), ids, targets), store)
      ensures forall i :: 0 <= i < |ids| ==> ids[i] in store.deliveries && ids[i] !in store.unpublished
      ensures forall i :: 0 <= i < |ids| ==>
                if old(store).endpoints[targets[i]].active
                then store.deliveries[ids[i]] == Delivery(targets[i], Pending, 0, at, None)
                     && FirstQueued(store, ids[i])
                else store.deliveries[ids[i]] == Delivery(targets[i], Skipped, 0, at, None)
                     && ids[i] !in store.queued
    {
      ghost var before := store;
      CreateRows(ids, targets, at);
      ghost var created := store;
      PublishRows(ids, targets);
      SamePublications(before, created, ids, targets);
      RanOn(config, before, Creations(before, ids, targets, at), created, Publications(created, ids, targets), store);
    }

    /** A replay is a new delivery; the old one stays as it was. */
    method Replay(original: DeliveryId, copy: DeliveryId, at: int) returns (accepted: bool)
      requires WellFormed(store) && original in store.deliveries && copy !in store.deliveries
      modifies this`store
      ensures accepted <==> !(old(store).deliveries[original].status in {Pending, InFlight})
      ensures !accepted ==> store == old(store)
      ensures accepted ==>
                && Ran(config, old(store),
                       [CreateDelivery(copy, old(store).deliveries[original].endpointId, at, false)]
                       + [PublishFirst(copy)], store)
                && FirstQueued(store, copy) && copy in store.deliveries
                && store.deliveries[copy] ==
                   Delivery(old(store).deliveries[original].endpointId, Pending, 0, at, None)
                && store.deliveries - {copy} == old(store).deliveries
    {
      accepted := Replayable(store.deliveries[original].status);
      if accepted {
        ghost var before := store;
        var e := store.deliveries[original].endpointId;
        RanOne(config, before, CreateDelivery(copy, e, at, false));
        CreateRow(copy, e, at, false);
        ghost var created := store;
        RanOne(config, created, PublishFirst(copy));
        PublishDelivery(copy);
        assert store.messages[before.nextMessage] == Message(copy, 1, false, Ready);
        RanOn(config, before, [CreateDelivery(copy, e, at, false)], created, [PublishFirst(copy)], store);
      }
    }
  }
}
