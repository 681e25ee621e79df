/**
 * Why the delivery guarantee of the Kafka bridge needs monotone snapshot markers: once a streaming position has
 * been acknowledged, a snapshot record counts as acknowledged the moment it is emitted.
 */
module StaleAcknowledgement {
  import opened Prelude
  import opened Positions
  import opened DebeziumBridge
  import opened Decimals
  import opened StopAndWait
  import opened KafkaBridge
  import opened StaleDelivery
  import R = Runtime

  lemma EmittedIsNext(c: Config, s: System, p: nat, now: int)
    requires CanReceive(c, s, p) && !Skips(c, s, p) && DecodeMessage(c, NextOrigin(s, p, now)).Ok?
    ensures var r := DecodeMessage(c, NextOrigin(s, p, now)).value.record;
            && IsBridge(c.bridge.sourceType, r.position)
            && r.position.debezium.eventSerial == s.source.serial + 1
            && ReceiveMessage(c, s, p, now).source.phase == Waiting(p, s.committed[p], r.position)
            && ReceiveMessage(c, s, p, now).link.runtime == s.link.runtime
            && ReceiveMessage(c, s, p, now).committed == s.committed
  {
    var x := NextOrigin(s, p, now);
    var document := (c.bridge.env.parseJson)(c.partitions[p].messages[x.offset].value).value;
    DecodedShape(c.bridge, document, RecordId(c, p, x.offset), x.serial, x.flag, now);
  }

  lemma PriorIsBridge(c: Config, s: System)
    requires Inv(c, s) && s.source.phase.Receiving? && Prior(s.link).Some?
    ensures IsBridge(c.bridge.sourceType, Prior(s.link).value)
    ensures Prior(s.link).value.debezium.eventSerial == s.source.serial
  {
    hide R.Inv, CommittedOk, CheckpointOk, IdOk, OriginsOk;
  }

  /** An emission is acknowledged at once, with nothing delivered, exactly if the marker goes back to snapshot. */
  lemma StaleExactly(c: Config, s: System, p: nat, now: int)
    requires Inv(c, s) && CanReceive(c, s, p) && !Skips(c, s, p) && DecodeMessage(c, NextOrigin(s, p, now)).Ok?
    ensures Step(c, ReceiveMessage(c, s, p, now), Acknowledge).Some? <==> MarkerReturns(c, s, Receive(p, now))
  {
    hide CommittedOk, CheckpointOk, IdOk, OriginsOk, LinkInv, DecodeMessage, Confirm, IsAfter;
    var r := DecodeMessage(c, NextOrigin(s, p, now)).value.record;
    EmittedIsNext(c, s, p, now);
    Indexed(c, s);
    assert s.link.runtime.acknowledged == Prior(s.link);
    if Prior(s.link).Some? {
      PriorIsBridge(c, s);
      StaleAckExactly(c.bridge.sourceType, s.link, r);
    }
  }

  lemma Indexed(c: Config, s: System)
    requires Inv(c, s)
    ensures |s.committed| == |c.partitions|
  {
    hide LinkInv, CheckpointOk, IdOk, OriginsOk, PhaseOk;
  }

  /**
   * The returning marker lets the offset be committed while the sink stays as it is, so the guarantee survives
   * exactly if an earlier process had already delivered the message.
   */
  lemma StaleCommit(c: Config, s: System, p: nat, now: int)
    requires Inv(c, s) && CanReceive(c, s, p) && MarkerReturns(c, s, Receive(p, now))
    ensures var emitted := ReceiveMessage(c, s, p, now);
            && Step(c, emitted, Acknowledge) == Some(Confirm(c, emitted))
            && Step(c, Confirm(c, emitted), Commit(Committed)) == Some(CommitOffset(Confirm(c, emitted), Committed))
            && var t := CommitOffset(Confirm(c, emitted), Committed);
            && t.link.runtime.sink == s.link.runtime.sink
            && t.committed == s.committed[p := s.committed[p] + 1]
            && (CommittedOk(c, t.link.runtime.sink, t.committed)
                <==> Delivered(c, s.link.runtime.sink, p, s.committed[p]))
  {
    hide CheckpointOk, IdOk, OriginsOk, LinkInv, PhaseOk, DecodeMessage, Delivered;
    StaleExactly(c, s, p, now);
    EmittedIsNext(c, s, p, now);
  }

  // ---- A run that loses a message ----

  /** Two messages, a streamed one and then a snapshot one. */
  function LossyConfig(): Config {
    Config(LossyBridge(), [Partition("t", 0, [Some("streamed"), Some("scanned")])])
  }

  const LOSS: seq<Action> := [
    Receive(0, 0), HandOver, Pipe(R.Begin), Pipe(R.Deliver(1, R.Accepted)), Pipe(R.Save(R.Stored)),
    Pipe(R.Publish(true)), Pipe(R.Finish), Acknowledge, Commit(Committed),
    Receive(0, 0), Acknowledge, Commit(Committed)]

  /** The first message is decoded into the first record. */
  lemma FirstDecoded()
    ensures DecodeMessage(LossyConfig(), Origin(0, 0, 1, false, 0)) == Ok(Decoded(FirstRecord(), true))
  {
    hide DecodeDocument, RecordId;
    Ids();
    FirstDocument();
  }

  lemma Ids()
    ensures RecordId(LossyConfig(), 0, 0) == FIRST_ID && RecordId(LossyConfig(), 0, 1) == SECOND_ID
  {
    assert Decimal(0) == "0" && Decimal(1) == "1";
  }

  // The states of that run up to the first commit.

  function Fresh(): System { System(Link(R.Start([], None), [], []), Source(0, None, false, Receiving), [0], []) }

  function Emitted(): System {
    Fresh().(link := Link(R.Start([], None), [FirstRecord()], [FirstRecord()]), origins := [Origin(0, 0, 1, false, 0)],
             source := Source(1, None, true, Waiting(0, 0, FirstPosition())))
  }

  function WithRuntime(t: R.State): System {
    Emitted().(link := Link(t, [], [FirstRecord()]))
  }

  function Confirmed(committed: seq<nat>, phase: Phase): System {
    WithRuntime(Published().(phase := R.Idle)).(
      source := Source(1, Some(FIRST_ID), true, phase), committed := committed)
  }

  lemma Received()
    ensures Step(LossyConfig(), Fresh(), Receive(0, 0)) == Some(Emitted())
  {
    hide DecodeMessage, FirstPosition;
    FirstDecoded();
    var s, c, x := Fresh(), LossyConfig(), Origin(0, 0, 1, false, 0);
    assert c.partitions[0].messages[0] == Some("streamed");
    assert CanReceive(c, s, 0) && !Skips(c, s, 0) && NextOrigin(s, 0, 0) == x;
    assert [] + [FirstRecord()] == [FirstRecord()];
    assert Emit(s.link, FirstRecord()) == Emitted().link;
    assert FirstRecord().position == FirstPosition();
    assert s.origins + [x] == [x];
  }

  lemma HandedOver()
    ensures Step(LossyConfig(), Emitted(), HandOver) == Some(WithRuntime(Filled()))
  {
    hide Hand, FirstRecord, Filled;
    Handing();
  }

  /** The second message has been emitted; it is still in the channel in every later state of the run. */
  function Lost(committed: seq<nat>, id: string, phase: Phase): System {
    var t := Published().(phase := R.Idle);
    System(Link(t, [SecondRecord()], [FirstRecord(), SecondRecord()]), Source(2, Some(id), true, phase), committed,
           [Origin(0, 0, 1, false, 0), Origin(0, 1, 2, true, 0)])
  }

  lemma Piped(t: R.State, a: R.Action, u: R.State)
    requires !a.Consume? && R.Step(LossyBridge().env, t, a) == Some(u)
    ensures Step(LossyConfig(), WithRuntime(t), Pipe(a)) == Some(WithRuntime(u))
  {
    hide R.Step, FirstRecord, FirstPosition;
  }

  lemma FirstCommitted()
    ensures var c, s := LossyConfig(), WithRuntime(Published().(phase := R.Idle));
            && Step(c, s, Acknowledge) == Some(Confirmed([0], Committing(0, 0)))
            && Step(c, Confirmed([0], Committing(0, 0)), Commit(Committed)) == Some(Confirmed([1], Receiving))
  {
    hide FirstRecord, FirstPosition, RecordId, IsAfter;
    Ids();
    assert [0][0 := 1] == [1];
  }

  lemma SecondReceived()
    ensures Step(LossyConfig(), Confirmed([1], Receiving), Receive(0, 0))
            == Some(Lost([1], FIRST_ID, Waiting(0, 1, SecondPosition())))
  {
    hide DecodeMessage, SecondPosition, FirstPosition, RecordId, FirstRecord;
    var c, s, x := LossyConfig(), Confirmed([1], Receiving), Origin(0, 1, 2, true, 0);
    Ids();
    SecondIsData();
    assert c.partitions[0].messages[1] == Some("scanned");
    assert CanReceive(c, s, 0) && !Skips(c, s, 0) && NextOrigin(s, 0, 0) == x;
    assert [] + [SecondRecord()] == [SecondRecord()];
    assert [FirstRecord()] + [SecondRecord()] == [FirstRecord(), SecondRecord()];
    assert [Origin(0, 0, 1, false, 0)] + [x] == [Origin(0, 0, 1, false, 0), x];
  }

  lemma SecondIsData()
    ensures DecodeMessage(LossyConfig(), Origin(0, 1, 2, true, 0)) == Ok(Decoded(SecondRecord(), false))
  {
    hide DecodeDocument, RecordId;
    Ids();
    SecondDocument();
  }

  lemma SecondLost()
    ensures var c := LossyConfig();
            && Step(c, Lost([1], FIRST_ID, Waiting(0, 1, SecondPosition())), Acknowledge)
               == Some(Lost([1], SECOND_ID, Committing(0, 1)))
            && Step(c, Lost([1], SECOND_ID, Committing(0, 1)), Commit(Committed))
               == Some(Lost([2], SECOND_ID, Receiving))
  {
    hide FirstRecord, SecondRecord, RecordId;
    Ids();
    Stale();
    assert [1][0 := 2] == [2];
  }

  /** The second message is not in a sink that holds only the first. */
  lemma NeverDelivered()
    ensures !Delivered(LossyConfig(), [FirstEncoding()], 0, 1)
  {
    hide DecodeDocument, RecordId, Holds;
    forall x: Origin | x.partition == 0 && x.offset == 1
      ensures !DeliveredAs(LossyConfig(), [FirstEncoding()], x)
    {
      Ids();
      SecondNotHeld(x.serial, x.flag, x.now);
    }
  }

  lemma RunTo(c: Config, actions: seq<Action>, k: nat, s: System, t: System)
    requires k < |actions| && Run(c, actions[..k]) == Some(s) && Step(c, s, actions[k]) == Some(t)
    ensures Run(c, actions[..k + 1]) == Some(t)
  {
    assert actions[..k + 1][..k] == actions[..k];
  }

  lemma LossDelivers()
    ensures Run(LossyConfig(), LOSS[..4]) == Some(WithRuntime(Written()))
  {
    hide Step, R.Step, LossyConfig, LossyBridge, Fresh, Emitted, WithRuntime, Filled, Writing, Written;
    var c := LossyConfig();
    StartsFresh();
    Received();
    RunTo(c, LOSS, 0, Fresh(), Emitted());
    HandedOver();
    RunTo(c, LOSS, 1, Emitted(), WithRuntime(Filled()));
    Delivering();
    Piped(Filled(), R.Begin, Writing());
    RunTo(c, LOSS, 2, WithRuntime(Filled()), WithRuntime(Writing()));
    Piped(Writing(), R.Deliver(1, R.Accepted), Written());
    RunTo(c, LOSS, 3, WithRuntime(Writing()), WithRuntime(Written()));
  }

  lemma LossSettles()
    ensures Run(LossyConfig(), LOSS[..7]) == Some(WithRuntime(Published().(phase := R.Idle)))
  {
    hide Step, R.Step, LossyConfig, LossyBridge, WithRuntime, Written, Saved, Published;
    var c, idle := LossyConfig(), Published().(phase := R.Idle);
    LossDelivers();
    Settling();
    Piped(Written(), R.Save(R.Stored), Saved());
    RunTo(c, LOSS, 4, WithRuntime(Written()), WithRuntime(Saved()));
    Piped(Saved(), R.Publish(true), Published());
    RunTo(c, LOSS, 5, WithRuntime(Saved()), WithRuntime(Published()));
    Piped(Published(), R.Finish, idle);
    RunTo(c, LOSS, 6, WithRuntime(Published()), WithRuntime(idle));
  }

  lemma StartsFresh()
    ensures Run(LossyConfig(), LOSS[..0]) == Some(Fresh())
  {
    assert Zeros(1) == [0];
  }

  /**
   * Without monotone markers the guarantee fails: in this run both offsets are committed, and the second message
   * has not reached the sink.
   */
  lemma MessageLost()
    ensures Run(LossyConfig(), LOSS).Some?
    ensures var s := Run(LossyConfig(), LOSS).value;
            && s.committed == [2] && HasMessage(LossyConfig(), 0, 1) && !IsEmpty(LossyConfig(), 0, 1)
            && !Delivered(LossyConfig(), s.link.runtime.sink, 0, 1)
            && !MonotoneMarkers(LossyConfig(), LOSS)
  {
    hide Step, MonotoneMarkers, Delivered;
    LossRuns();
    NeverDelivered();
    if MonotoneMarkers(LossyConfig(), LOSS) {
      AtLeastOnce(LossyConfig(), LOSS, Lost([2], SECOND_ID, Receiving));
      assert false;
    }
  }

  lemma LossRuns()
    ensures Run(LossyConfig(), LOSS) == Some(Lost([2], SECOND_ID, Receiving))
  {
    hide Step, LossyConfig, Confirmed, Lost, WithRuntime, Published;
    var c := LossyConfig();
    LossSettles();
    FirstCommitted();
    var s := WithRuntime(Published().(phase := R.Idle));
    RunTo(c, LOSS, 7, s, Confirmed([0], Committing(0, 0)));
    RunTo(c, LOSS, 8, Confirmed([0], Committing(0, 0)), Confirmed([1], Receiving));
    SecondReceived();
    SecondLost();
    var waiting := Lost([1], FIRST_ID, Waiting(0, 1, SecondPosition()));
    var confirmed := Lost([1], SECOND_ID, Committing(0, 1));
    RunTo(c, LOSS, 9, Confirmed([1], Receiving), waiting);
    RunTo(c, LOSS, 10, waiting, confirmed);
    RunTo(c, LOSS, 11, confirmed, Lost([2], SECOND_ID, Receiving));
    assert LOSS[..12] == LOSS;
  }
}
