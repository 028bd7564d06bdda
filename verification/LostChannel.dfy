/** A handler that outlives its channel: the broker has given its message to another handler, and what it commits last
    stands without a message. */
module LostChannel {
  import opened Wrappers
  import opened RetryLadder
  import opened DeliveryModel
  import opened SingleToken

  /** The first handler is sending, its channel is gone, and the copy of its message is queued. */
  const COPIED: State :=
    SLOW.(messages := map[0 := Message(0, 1, false, Sending), 1 := Message(0, 1, true, Ready)], nextMessage := 2,
          detached := {0})

  const BOTH_SENDING: State :=
    COPIED.(messages := map[0 := Message(0, 1, false, Sending), 1 := Message(0, 1, true, Sending)],
            log := [Event.WroteInFlight(0), Event.WroteInFlight(0)])

  lemma ReachCopied(c: Config)
    ensures ValidRun(c, SLOW, [LoseChannel(0)]) && End(c, SLOW, [LoseChannel(0)]) == COPIED
  {
    OneStep(c, SLOW, LoseChannel(0));
  }

  lemma ReachBothSending(c: Config)
    ensures ValidRun(c, COPIED, Handling(1)) && End(c, COPIED, Handling(1)) == BOTH_SENDING
  {
    FourSteps(c, COPIED, Consume(1), LoadRow(1), TakeToken(1, true), Step.WriteInFlight(1), BOTH_SENDING);
  }

  /** Everything s holds of delivery 0 is a row that waits for a retry nobody will make. */
  predicate Stranded(s: State) {
    && 0 in s.queued && 0 in s.deliveries && s.deliveries[0].status.Retrying?
    && s.messages == map[] && s.sweeps == map[]
  }

  lemma SecondCommitStrands(c: Config, s: State)
    requires ValidConfig(c) && c.maxAttempts > 1 && s.messages.Keys == {0, 1} && s.sweeps == map[] && 0 in s.queued
    requires At(s, 0, Sending) && At(s, 1, Sending) && 0 in s.detached && s.messages[0].attempt == 1
    requires s.messages[0].deliveryId == s.messages[1].deliveryId == 0
    requires 0 in s.deliveries && s.deliveries[0].endpointId in s.endpoints
    ensures var steps := [Commit(1, OK, 0), Ack(1), Commit(0, ERROR, 0), Throw(0)];
            ValidRun(c, s, steps) && Stranded(End(c, s, steps))
  {
    CommitShape(c, s, 1, OK, 0);
    var s1 := Next(c, s, Commit(1, OK, 0));
    var s2 := Next(c, s1, Ack(1));
    assert s2.messages.Keys == {0} && At(s2, 0, Sending);
    LateRetryStrands(c, s2);
    Prepend(c, s1, Ack(1), [Commit(0, ERROR, 0), Throw(0)], End(c, s2, [Commit(0, ERROR, 0), Throw(0)]));
    Prepend(c, s, Commit(1, OK, 0), [Ack(1), Commit(0, ERROR, 0), Throw(0)],
            End(c, s2, [Commit(0, ERROR, 0), Throw(0)]));
  }

  lemma LateRetryStrands(c: Config, s: State)
    requires ValidConfig(c) && c.maxAttempts > 1 && s.messages.Keys == {0} && s.sweeps == map[] && 0 in s.queued
    requires At(s, 0, Sending) && 0 in s.detached && s.messages[0].attempt == 1 && s.messages[0].deliveryId == 0
    requires 0 in s.deliveries && s.deliveries[0].endpointId in s.endpoints
    ensures var steps := [Commit(0, ERROR, 0), Throw(0)];
            ValidRun(c, s, steps) && Stranded(End(c, s, steps))
  {
    CommitShape(c, s, 0, ERROR, 0);
    var t := Next(c, s, Commit(0, ERROR, 0));
    OneStep(c, t, Throw(0));
    assert Next(c, t, Throw(0)).messages.Keys == {};
    assert [Commit(0, ERROR, 0), Throw(0)][1..] == [Throw(0)];
  }

  /** Nothing fails but one channel, under a handler that is sending. The copy of its message is handled to a success;
      then the first handler commits a retry, and throws because it cannot publish it. The delivery that had succeeded
      is RETRYING, with no message and out of the sweeper's reach. */
  lemma LostChannelLosesADelivery(c: Config)
    requires ValidConfig(c) && c.maxAttempts > 1
    ensures var last := [Commit(1, OK, 0), Ack(1), Commit(0, ERROR, 0), Throw(0)];
            var steps := ((FIRST_PUBLISH + Handling(0)) + [LoseChannel(0)]) + Handling(1) + last;
            ValidRun(c, Init(), steps) && Stranded(End(c, Init(), steps))
  {
    var last := [Commit(1, OK, 0), Ack(1), Commit(0, ERROR, 0), Throw(0)];
    FirstPublish(c);
    ReachSlow(c);
    ReachCopied(c);
    ReachBothSending(c);
    SecondCommitStrands(c, BOTH_SENDING);
    RunsCompose(c, Init(), FIRST_PUBLISH, Handling(0));
    RunsCompose(c, Init(), FIRST_PUBLISH + Handling(0), [LoseChannel(0)]);
    RunsCompose(c, Init(), (FIRST_PUBLISH + Handling(0)) + [LoseChannel(0)], Handling(1));
    RunsCompose(c, Init(), ((FIRST_PUBLISH + Handling(0)) + [LoseChannel(0)]) + Handling(1), last);
  }
}
