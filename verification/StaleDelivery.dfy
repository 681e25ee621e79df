/**
 * A delivery that leaves a streaming position acknowledged, and a snapshot document that comes after it: what the
 * runs of both bridges that lose a record have in common. The digest is the identity.
 */
module StaleDelivery {
  import opened Prelude
  import opened Positions
  import opened Events
  import opened Backoff
  import opened DebeziumBridge
  import opened StopAndWait
  import R = Runtime

  const STREAMED := JObject(map["op" := JString("c"), "source" := JObject(map["snapshot" := JBool(false)])])
  const SCANNED := JObject(map["op" := JString("r"), "source" := JObject(map["snapshot" := JBool(true)])])

  function LossyBridge(): Bridge {
    var env := Env(
      (e: ChangeEvent) => Some(Encoding("out", None, "{}")), (t: string) => t,
      (t: string) => Some(if t == "streamed" then STREAMED else SCANNED), true, 10, 0, 1, 1);
    Bridge(env, "inventory", "mysql")
  }

  const FIRST_ID: string := "kafka:t:0:0"
  const SECOND_ID: string := "kafka:t:0:1"

  function FirstPosition(): SourcePosition {
    Debezium(DebeziumPosition("mysql", map["snapshot" := JBool(false)], FIRST_ID, 1, false))
  }

  function FirstEvent(): ChangeEvent {
    ChangeEvent("inventory\0" + FIRST_ID, FirstPosition(), Create, false, false, STREAMED, 0)
  }

  function FirstRecord(): SourceRecord {
    SourceRecord(Some(FirstEvent()), FirstPosition(), SnapshotComplete, None, [])
  }

  function FirstEncoding(): EncodedEvent {
    EncodedEvent("inventory\0" + FIRST_ID, "out", None, Some("{}"))
  }

  function SecondPosition(): SourcePosition {
    Debezium(DebeziumPosition("mysql", map["snapshot" := JBool(true)], SECOND_ID, 2, true))
  }

  function SecondRecord(): SourceRecord {
    SourceRecord(Some(ChangeEvent("inventory\0" + SECOND_ID, SecondPosition(), Read, true, false, SCANNED, 0)),
                 SecondPosition(), Data, None, [])
  }

  lemma StreamedDocument(env: Env)
    ensures UnwrapPayload(env, STREAMED, 4) == Ok(STREAMED)
    ensures SourceObject(STREAMED) == map["snapshot" := JBool(false)]
    ensures CompletesSnapshot(STREAMED, false) && BoundaryFor(STREAMED, true) == SnapshotComplete
    ensures IsEventPayload(STREAMED) && OperationOf(Get(STREAMED, "op")) == Ok(Create)
  {
  }

  lemma FirstDocument()
    ensures DecodeDocument(LossyBridge(), STREAMED, FIRST_ID, 1, false, 0) == Ok(Decoded(FirstRecord(), true))
  {
    hide UnwrapPayload, CompletesSnapshot, BoundaryFor, OperationOf, IsEventPayload, SourceObject;
    var b := LossyBridge();
    StreamedDocument(b.env);
    assert PositionFor(b, STREAMED, FIRST_ID, 1) == FirstPosition();
    assert BridgeEventId(b, FIRST_ID) == FirstEvent().id;
  }

  lemma ScannedDocument(env: Env)
    ensures UnwrapPayload(env, SCANNED, 4) == Ok(SCANNED)
    ensures SourceObject(SCANNED) == map["snapshot" := JBool(true)]
    ensures !CompletesSnapshot(SCANNED, true) && BoundaryFor(SCANNED, false) == Data
    ensures IsEventPayload(SCANNED) && OperationOf(Get(SCANNED, "op")) == Ok(Read)
  {
  }

  lemma SecondDocument()
    ensures DecodeDocument(LossyBridge(), SCANNED, SECOND_ID, 2, true, 0) == Ok(Decoded(SecondRecord(), false))
  {
    hide UnwrapPayload, CompletesSnapshot, BoundaryFor, OperationOf, IsEventPayload, SourceObject;
    var b := LossyBridge();
    ScannedDocument(b.env);
    assert PositionFor(b, SCANNED, SECOND_ID, 2) == SecondPosition();
    assert BridgeEventId(b, SECOND_ID) == SecondRecord().event.value.id;
  }

  /** However the second document is decoded, a sink that holds only the first does not hold it. */
  lemma SecondNotHeld(serial: nat, flag: bool, now: int)
    ensures var decoded := DecodeDocument(LossyBridge(), SCANNED, SECOND_ID, serial, flag, now);
            decoded.Ok? && !Holds(LossyBridge().env, [FirstEncoding()], decoded.value.record)
  {
    hide UnwrapPayload, CompletesSnapshot, BoundaryFor, OperationOf, IsEventPayload, SourceObject;
    var b := LossyBridge();
    ScannedDocument(b.env);
    assert BridgeEventId(b, SECOND_ID) == "inventory\0" + SECOND_ID;
    var r := DecodeDocument(b, SCANNED, SECOND_ID, serial, flag, now).value.record;
    var encoded := RecordEncoding(b.env, r);
    assert (b.env.encodeOne)(r.event.value).Some?;
    assert ("inventory\0" + SECOND_ID)[20] == '1' && FirstEncoding().id[20] == '0';
    assert encoded.Some? && encoded.value[0].id != FirstEncoding().id;
    assert encoded.value[0] in encoded.value;
  }

  /** The position acknowledged for the first record is taken for the second. */
  lemma Stale()
    ensures Reached(Some(FirstPosition()), SecondPosition())
  {
  }

  // The states of the pipeline from the handover of the first record to its acknowledgement.

  function Filled(): R.State {
    R.State([], None, R.PendingBatch([FirstEncoding()], Some(FirstPosition()), []), R.Flushing, false, true, None, None,
            R.History(None, [], [], [FirstRecord()], [], [], []))
  }

  function Writing(): R.State {
    Filled().(pending := R.EMPTY_BATCH, phase := R.Writing([FirstEncoding()], FirstPosition(), RetryState(0, 1)))
  }

  function Written(): R.State {
    Writing().(sink := [FirstEncoding()], phase := R.Saving(FirstPosition()))
  }

  function Saved(): R.State {
    var stored := Checkpoint(FirstPosition(), true, None);
    Written().(stored := Some(stored), phase := R.Publishing(FirstPosition()),
               history := R.History(None, [], [FirstRecord()], [], [R.Saved(1, stored)], [], []))
  }

  function Published(): R.State {
    Saved().(acknowledged := Some(FirstPosition()), phase := R.Releasing,
             history := Saved().history.(acks := [FirstPosition()]))
  }

  lemma Handing()
    ensures Hand(LossyBridge().env, Link(R.Start([], None), [FirstRecord()], [FirstRecord()]))
            == Some(Link(Filled(), [], [FirstRecord()]))
  {
    var env, t := LossyBridge().env, R.Start([], None);
    assert RecordEncoding(env, FirstRecord()) == Some([FirstEncoding()]);
    R.ConsumeEffect(env, t, FirstRecord());
    assert [] + [FirstEncoding()] == [FirstEncoding()] && [] + [FirstRecord()] == [FirstRecord()];
    assert R.Admit(t, FirstRecord(), [FirstEncoding()]).(phase := R.Flushing) == Filled();
    assert [FirstRecord()][1..] == [];
  }

  lemma Delivering()
    ensures var env := LossyBridge().env;
            && R.Step(env, Filled(), R.Begin) == Some(Writing())
            && R.Step(env, Writing(), R.Deliver(1, R.Accepted)) == Some(Written())
  {
    hide FirstPosition, FirstRecord;
    assert [FirstEncoding()][..1] == [FirstEncoding()];
    assert [] + [FirstEncoding()] == [FirstEncoding()];
  }

  lemma Settling()
    ensures var env := LossyBridge().env;
            && R.Step(env, Written(), R.Save(R.Stored)) == Some(Saved())
            && R.Step(env, Saved(), R.Publish(true)) == Some(Published())
            && R.Step(env, Published(), R.Finish) == Some(Published().(phase := R.Idle))
  {
    hide FirstPosition, FirstEncoding;
    assert R.Consumed(Written().history) == [FirstRecord()];
    var saved := R.Saved(1, Checkpoint(FirstPosition(), true, None));
    assert [] + [saved] == [saved] && [] + [FirstPosition()] == [FirstPosition()];
  }
}
