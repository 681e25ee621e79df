/** Change events, their encodings and checkpoints (rustium-core, event.rs and traits.rs). */
module Events {
  import opened Prelude
  import opened Positions

  /** Hexadecimal text of a digest. */
  type EventId = string

  datatype Operation = Read | Create | Update | Delete | Truncate | Message

  datatype ChangeEvent = ChangeEvent(
    id: EventId, position: SourcePosition, operation: Operation, snapshot: bool, incremental: bool,
    document: Json, observedTime: int)

  datatype RecordBoundary = Data | TransactionCommit | SnapshotComplete | Heartbeat

  datatype ConnectorState = ConnectorState(format: string, version: nat, payload: Json)

  /** `signals` names the one-shot acknowledgements attached to the record. */
  datatype SourceRecord = SourceRecord(
    event: Option<ChangeEvent>, position: SourcePosition, boundary: RecordBoundary,
    connectorState: Option<ConnectorState>, signals: seq<nat>)

  datatype Encoding = Encoding(destination: string, key: Option<string>, payload: string)

  datatype EncodedEvent = EncodedEvent(
    id: EventId, destination: string, key: Option<string>, payload: Option<string>)

  datatype Checkpoint = Checkpoint(
    position: SourcePosition, snapshotCompleted: bool, connectorState: Option<ConnectorState>)

  /**
   * What the pipeline is configured with. The wire encoder, the JSON parser and SHA-256
   * are functions of their input about which nothing is assumed here.
   */
  datatype Env = Env(
    encodeOne: ChangeEvent -> Option<Encoding>,
    sha256: string -> string,
    parseJson: string -> Option<Json>,
    tombstonesOnDelete: bool,
    maxBatchSize: nat,
    maxRetries: int,
    initialDelay: nat,
    maxDelay: nat)

  const TOMBSTONE: string := "debezium-tombstone"

  /** The bytes framed for the digest of a derived identifier. */
  function DerivedFrame(id: EventId, discriminator: string): string {
    id + "\0" + discriminator
  }

  function Derived(env: Env, id: EventId, discriminator: string): EventId {
    (env.sha256)(DerivedFrame(id, discriminator))
  }

  /** A delete is followed by a tombstone with the same key when the encoder is so configured. */
  function EncodeBatch(env: Env, event: ChangeEvent): Option<seq<EncodedEvent>> {
    match (env.encodeOne)(event)
    case None => None
    case Some(e) =>
      var encoded := EncodedEvent(event.id, e.destination, e.key, Some(e.payload));
      if event.operation != Delete || !env.tombstonesOnDelete then Some([encoded])
      else
        Some([encoded, EncodedEvent(Derived(env, event.id, TOMBSTONE), e.destination, e.key, None)])
  }

  /**
   * What `e` says of the event: the encoder's destination and key, and either its payload under the event's own
   * identifier or, for a delete that is followed by a tombstone, no payload under the derived one.
   */
  predicate EntryOf(env: Env, event: ChangeEvent, e: EncodedEvent) {
    && (env.encodeOne)(event).Some?
    && var wire := (env.encodeOne)(event).value;
       && e.destination == wire.destination && e.key == wire.key
       && if e.payload.Some? then e.payload.value == wire.payload && e.id == event.id
          else event.operation == Delete && env.tombstonesOnDelete
               && e.id == (env.sha256)(event.id + "\0" + "debezium-tombstone")
  }

  /**
   * An event encodes exactly if the wire encoder accepts it. Its batch starts with the payload, and a tombstone
   * follows it exactly for a delete with the option set.
   */
  lemma BatchShape(env: Env, event: ChangeEvent)
    ensures EncodeBatch(env, event).Some? <==> (env.encodeOne)(event).Some?
    ensures EncodeBatch(env, event).Some? ==>
              var batch := EncodeBatch(env, event).value;
              && |batch| == (if event.operation == Delete && env.tombstonesOnDelete then 2 else 1)
              && (forall i | 0 <= i < |batch| :: EntryOf(env, event, batch[i]))
              && batch[0].payload.Some? && (|batch| == 2 ==> batch[1].payload.None?)
  {
  }

  /** What one record contributes to a delivery batch; `None` is an encoding failure. */
  function RecordEncoding(env: Env, r: SourceRecord): Option<seq<EncodedEvent>> {
    if r.event.None? then Some([]) else EncodeBatch(env, r.event.value)
  }

  /** The encodings of a record history, in order. */
  function Encodings(env: Env, rs: seq<SourceRecord>): seq<EncodedEvent> {
    if rs == [] then []
    else
      var e := RecordEncoding(env, rs[|rs| - 1]);
      Encodings(env, rs[..|rs| - 1]) + if e.Some? then e.value else []
  }

  function Signals(rs: seq<SourceRecord>): seq<nat> {
    if rs == [] then [] else Signals(rs[..|rs| - 1]) + rs[|rs| - 1].signals
  }

  predicate SnapshotSeen(resumed: Option<Checkpoint>, rs: seq<SourceRecord>) {
    || (resumed.Some? && resumed.value.snapshotCompleted)
    || exists i | 0 <= i < |rs| :: rs[i].boundary == SnapshotComplete
  }

  /** The most recent connector state: that of the last record carrying one, else the resumed one. */
  function LatestState(resumed: Option<Checkpoint>, rs: seq<SourceRecord>): Option<ConnectorState> {
    if rs == [] then (if resumed.Some? then resumed.value.connectorState else None)
    else if rs[|rs| - 1].connectorState.Some? then rs[|rs| - 1].connectorState
    else LatestState(resumed, rs[..|rs| - 1])
  }

  /** The checkpoint that a non-empty history of consumed records stands for. */
  function CheckpointAfter(resumed: Option<Checkpoint>, rs: seq<SourceRecord>): Checkpoint
    requires rs != []
  {
    Checkpoint(rs[|rs| - 1].position, SnapshotSeen(resumed, rs), LatestState(resumed, rs))
  }

  lemma NothingConsumed(env: Env)
    ensures Encodings(env, []) == [] && Signals([]) == []
  {
  }

  lemma NothingFolded(resumed: Option<Checkpoint>)
    ensures SnapshotSeen(resumed, []) == (resumed.Some? && resumed.value.snapshotCompleted)
    ensures LatestState(resumed, []) == if resumed.Some? then resumed.value.connectorState else None
  {
  }

  lemma {:induction false} EncodingsConcat(env: Env, a: seq<SourceRecord>, b: seq<SourceRecord>)
    ensures Encodings(env, a + b) == Encodings(env, a) + Encodings(env, b)
  {
    if b == [] {
      assert a + b == a;
    } else {
      assert (a + b)[..|a + b| - 1] == a + b[..|b| - 1];
      EncodingsConcat(env, a, b[..|b| - 1]);
    }
  }

  lemma EncodingsSnoc(env: Env, a: seq<SourceRecord>, r: SourceRecord)
    requires RecordEncoding(env, r).Some?
    ensures Encodings(env, a + [r]) == Encodings(env, a) + RecordEncoding(env, r).value
  {
    assert (a + [r])[..|a + [r]| - 1] == a;
  }

  lemma {:induction false} SignalsConcat(a: seq<SourceRecord>, b: seq<SourceRecord>)
    ensures Signals(a + b) == Signals(a) + Signals(b)
  {
    if b == [] {
      assert a + b == a;
    } else {
      assert (a + b)[..|a + b| - 1] == a + b[..|b| - 1];
      SignalsConcat(a, b[..|b| - 1]);
    }
  }

  lemma SignalsSnoc(a: seq<SourceRecord>, r: SourceRecord)
    ensures Signals(a + [r]) == Signals(a) + r.signals
  {
    assert (a + [r])[..|a + [r]| - 1] == a;
  }

  lemma FoldSnoc(resumed: Option<Checkpoint>, a: seq<SourceRecord>, r: SourceRecord)
    ensures SnapshotSeen(resumed, a + [r]) <==> SnapshotSeen(resumed, a) || r.boundary == SnapshotComplete
    ensures LatestState(resumed, a + [r])
            == if r.connectorState.Some? then r.connectorState else LatestState(resumed, a)
  {
    var b := a + [r];
    assert b[..|b| - 1] == a && b[|a|] == r;
    if SnapshotSeen(resumed, a) && !(resumed.Some? && resumed.value.snapshotCompleted) {
      var i :| 0 <= i < |a| && a[i].boundary == SnapshotComplete;
      assert b[i].boundary == SnapshotComplete;
    }
  }

  /** Record `i` carries a connector state and no later one does. */
  predicate LastWithState(rs: seq<SourceRecord>, i: nat) {
    i < |rs| && rs[i].connectorState.Some? && forall j | i < j < |rs| :: rs[j].connectorState.None?
  }

  /** `LatestState` is the state of the last record that carries one. */
  lemma {:induction false} LatestStateIsLatest(resumed: Option<Checkpoint>, rs: seq<SourceRecord>, i: nat)
    requires LastWithState(rs, i)
    ensures LatestState(resumed, rs) == rs[i].connectorState
  {
    if i < |rs| - 1 {
      LatestStateIsLatest(resumed, rs[..|rs| - 1], i);
    }
  }
}
