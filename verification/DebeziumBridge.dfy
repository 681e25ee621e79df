/** Decoding of Debezium documents and the identifiers of bridge records (rustium-debezium, source.rs). */
module DebeziumBridge {
  import opened Prelude
  import opened Positions
  import opened Decimals
  import opened Events

  /** One bridge: the environment, the connector's name and the source type of its kind. */
  datatype Bridge = Bridge(env: Env, connectorName: string, sourceType: string)

  function Get(value: Json, key: string): Option<Json> {
    if value.JObject? && key in value.fields then Some(value.fields[key]) else None
  }

  /** Strips at most `rounds` layers of text, CloudEvents and Connect schema envelopes. */
  function UnwrapPayload(env: Env, value: Json, rounds: nat): Result<Json>
    decreases rounds
  {
    if rounds == 0 then Err("too many nested data/payload envelopes")
    else if value.JString? then
      match (env.parseJson)(value.text)
      case None => Err("structured event data is not JSON")
      case Some(inner) => UnwrapPayload(env, inner, rounds - 1)
    else
      var data := if Get(value, "specversion").Some? then Get(value, "data") else None;
      var next := if data.Some? then data
                  else if Get(value, "schema").Some? then Get(value, "payload") else None;
      match next
      case None => Ok(value)
      case Some(inner) => UnwrapPayload(env, inner, rounds - 1)
  }

  datatype Marker = Marker(snapshot: bool, last: bool, incremental: bool)

  function SnapshotMarker(source: map<string, Json>): Marker {
    if "snapshot" !in source then Marker(false, false, false)
    else
      match source["snapshot"]
      case JBool(value) => Marker(value, false, false)
      case JString(text) =>
        if text == "last" then Marker(true, true, false)
        else if text == "incremental" then Marker(true, false, true)
        else Marker(text == "true", false, false)
      case _ => Marker(false, false, false)
  }

  function OperationOf(code: Option<Json>): Result<Operation> {
    if code.None? || !code.value.JString? then Ok(Message)
    else
      var c := code.value.text;
      if c == "r" then Ok(Read) else if c == "c" then Ok(Create) else if c == "u" then Ok(Update)
      else if c == "d" then Ok(Delete) else if c == "t" then Ok(Truncate) else if c == "m" then Ok(Message)
      else Err("unsupported Debezium operation code")
  }

  /** The bytes framed for the digest of a bridge event identifier. */
  function EventFrame(b: Bridge, recordId: string): string {
    b.connectorName + "\0" + recordId
  }

  function BridgeEventId(b: Bridge, recordId: string): EventId {
    (b.env.sha256)(EventFrame(b, recordId))
  }

  datatype Decoded = Decoded(record: SourceRecord, completesSnapshot: bool)

  function SourceObject(payload: Json): map<string, Json> {
    var source := Get(payload, "source");
    if source.Some? && source.value.JObject? then source.value.fields else map[]
  }

  predicate IsEventPayload(payload: Json) {
    Get(payload, "op").Some? || Get(payload, "ddl").Some? || Get(payload, "tableChanges").Some?
  }

  predicate ForeignConnector(b: Bridge, source: map<string, Json>) {
    "connector" in source && source["connector"].JString? && source["connector"].text != b.sourceType
  }

  function PositionFor(b: Bridge, payload: Json, recordId: string, serial: nat): SourcePosition {
    var source := SourceObject(payload);
    Debezium(DebeziumPosition(b.sourceType, source, recordId, serial, SnapshotMarker(source).snapshot))
  }

  function BoundaryFor(payload: Json, completes: bool): RecordBoundary {
    if Get(payload, "status") == Some(JString("END")) then TransactionCommit
    else if completes then SnapshotComplete
    else if IsEventPayload(payload) then Data
    else Heartbeat
  }

  function CompletesSnapshot(payload: Json, snapshotCompleted: bool): bool {
    var marker := SnapshotMarker(SourceObject(payload));
    marker.last || (!marker.snapshot && !snapshotCompleted)
  }

  /** `now` is the wall clock at decoding time. */
  function DecodeDocument(
    b: Bridge, document: Json, recordId: string, serial: nat, snapshotCompleted: bool, now: int): Result<Decoded>
  {
    match UnwrapPayload(b.env, document, 4)
    case Err(m) => Err(m)
    case Ok(payload) =>
      var source := SourceObject(payload);
      if ForeignConnector(b, source) then Err("event of another connector")
      else
        var marker := SnapshotMarker(source);
        var position := PositionFor(b, payload, recordId, serial);
        var completes := CompletesSnapshot(payload, snapshotCompleted);
        var boundary := BoundaryFor(payload, completes);
        if !IsEventPayload(payload) then
          Ok(Decoded(SourceRecord(None, position, boundary, None, []), completes))
        else
          match OperationOf(Get(payload, "op"))
          case Err(m) => Err(m)
          case Ok(op) =>
            var event := ChangeEvent(
              BridgeEventId(b, recordId), position, op, marker.snapshot, marker.incremental, payload, now);
            Ok(Decoded(SourceRecord(Some(event), position, boundary, None, []), completes))
  }

  /** A decoded record carries its own record identifier, serial and connector, and no state or signals. */
  lemma DecodedShape(b: Bridge, document: Json, recordId: string, serial: nat, flag: bool, now: int)
    requires DecodeDocument(b, document, recordId, serial, flag, now).Ok?
    ensures var r := DecodeDocument(b, document, recordId, serial, flag, now).value.record;
            && r.position.Debezium?
            && r.position.debezium.connector == b.sourceType
            && r.position.debezium.recordId == recordId
            && r.position.debezium.eventSerial == serial
            && (r.event.Some? ==>
                  r.event.value.id == BridgeEventId(b, recordId) && r.event.value.position == r.position)
            && r.connectorState.None? && r.signals == []
  {
  }

  // ---- What a decoded record says of its document ----

  /** One layer around a value: a text of it, a CloudEvent with it as data, or a Connect schema with it as payload. */
  predicate Wraps(env: Env, outer: Json, inner: Json) {
    match outer
    case JString(text) => (env.parseJson)(text) == Some(inner)
    case JObject(fields) =>
      if "specversion" in fields && "data" in fields then fields["data"] == inner
      else "schema" in fields && "payload" in fields && fields["payload"] == inner
    case _ => false
  }

  /** No layer is around the value. */
  predicate Bare(value: Json) {
    && !value.JString?
    && (value.JObject? ==>
          && !("specversion" in value.fields && "data" in value.fields)
          && !("schema" in value.fields && "payload" in value.fields))
  }

  /** From the outermost value to the innermost, each wraps the next. */
  predicate Layers(env: Env, chain: seq<Json>) {
    chain != [] && forall i | 0 <= i < |chain| - 1 :: Wraps(env, chain[i], chain[i + 1])
  }

  /** A bare value in fewer layers than there are rounds is found. */
  lemma {:induction false} LayersAreStripped(env: Env, chain: seq<Json>, rounds: nat)
    requires Layers(env, chain) && Bare(chain[|chain| - 1]) && |chain| <= rounds
    ensures UnwrapPayload(env, chain[0], rounds) == Ok(chain[|chain| - 1])
  {
    if |chain| > 1 {
      assert Wraps(env, chain[0], chain[1]);
      var rest := chain[1..];
      forall i | 0 <= i < |rest| - 1
        ensures Wraps(env, rest[i], rest[i + 1])
      {
        var k := i + 1;
        assert Wraps(env, chain[k], chain[k + 1]);
      }
      LayersAreStripped(env, chain[1..], rounds - 1);
    }
  }

  /** What is found is bare, and inside fewer layers than there are rounds. */
  lemma {:induction false} FoundInLayers(env: Env, value: Json, rounds: nat) returns (chain: seq<Json>)
    requires UnwrapPayload(env, value, rounds).Ok?
    ensures Layers(env, chain) && |chain| <= rounds && chain[0] == value
    ensures chain[|chain| - 1] == UnwrapPayload(env, value, rounds).value && Bare(chain[|chain| - 1])
    decreases rounds
  {
    if Bare(value) {
      chain := [value];
    } else {
      var inner := Inside(env, value);
      var rest := FoundInLayers(env, inner, rounds - 1);
      chain := [value] + rest;
      assert forall i | 0 < i < |chain| - 1 :: Wraps(env, rest[i - 1], rest[i]);
    }
  }

  /** The value in the outermost layer. */
  function Inside(env: Env, value: Json): (inner: Json)
    requires !Bare(value) && (value.JString? ==> (env.parseJson)(value.text).Some?)
    ensures Wraps(env, value, inner)
  {
    if value.JString? then (env.parseJson)(value.text).value
    else if "specversion" in value.fields && "data" in value.fields then value.fields["data"]
    else value.fields["payload"]
  }

  /** The payload of a document is what at most three layers hold. */
  lemma UnwrapsExactly(env: Env, document: Json, payload: Json)
    ensures UnwrapPayload(env, document, 4) == Ok(payload)
            <==> exists chain | Layers(env, chain) && |chain| <= 4 ::
                   chain[0] == document && chain[|chain| - 1] == payload && Bare(payload)
  {
    hide UnwrapPayload, Bare;
    if UnwrapPayload(env, document, 4) == Ok(payload) {
      var chain := FoundInLayers(env, document, 4);
      assert Layers(env, chain) && |chain| <= 4;
    }
    if chain :|
      Layers(env, chain) && |chain| <= 4 && chain[0] == document && chain[|chain| - 1] == payload && Bare(payload)
    {
      LayersAreStripped(env, chain, 4);
    }
  }

  /** The letter that stands for an operation in a Debezium document. */
  function CodeOf(operation: Operation): string {
    match operation
    case Read => "r"
    case Create => "c"
    case Update => "u"
    case Delete => "d"
    case Truncate => "t"
    case Message => "m"
  }

  /** The operation is the one whose letter stands under `op`; a document without a text there is a message. */
  lemma OperationIsCoded(code: Option<Json>)
    ensures code.Some? && code.value.JString? ==>
              && (OperationOf(code).Ok? <==> exists o :: code.value.text == CodeOf(o))
              && (OperationOf(code).Ok? ==> code.value.text == CodeOf(OperationOf(code).value))
    ensures !(code.Some? && code.value.JString?) ==> OperationOf(code) == Ok(Message)
  {
    if code.Some? && code.value.JString? {
      var text := code.value.text;
      if OperationOf(code).Ok? {
        assert text == CodeOf(OperationOf(code).value);
      }
      if o :| text == CodeOf(o) {
        assert o.Read? || o.Create? || o.Update? || o.Delete? || o.Truncate? || o.Message?;
      }
    }
  }

  /** Whether and how the `snapshot` entry of a source object marks a snapshot record. */
  predicate MarkedAs(source: map<string, Json>, snapshot: bool, last: bool, incremental: bool) {
    var entry := if "snapshot" in source then source["snapshot"] else JNull;
    && (snapshot <==> entry in {JBool(true), JString("true"), JString("last"), JString("incremental")})
    && (last <==> entry == JString("last"))
    && (incremental <==> entry == JString("incremental"))
  }

  lemma MarkerIsRead(source: map<string, Json>)
    ensures var m := SnapshotMarker(source); MarkedAs(source, m.snapshot, m.last, m.incremental)
  {
    assert |"last"| == 4 && |"true"| == 4 && |"incremental"| == 11 && "last"[0] != "true"[0];
  }

  /** Whether the payload carries a row change, a statement or a table change. */
  predicate CarriesEvent(payload: Json) {
    payload.JObject? && ("op" in payload.fields || "ddl" in payload.fields || "tableChanges" in payload.fields)
  }

  /** The source object of a payload, empty when there is none. */
  predicate HasSource(payload: Json, source: map<string, Json>) {
    if payload.JObject? && "source" in payload.fields && payload.fields["source"].JObject?
    then payload.fields["source"] == JObject(source)
    else source == map[]
  }

  /** The record that a payload stands for, by what each of its parts must be. */
  ghost predicate RecordOf(
    b: Bridge, payload: Json, source: map<string, Json>, recordId: string, serial: nat, flag: bool, now: int,
    d: Decoded)
  {
    var r, marker := d.record, SnapshotMarker(source);
    && r.position == Debezium(DebeziumPosition(b.sourceType, source, recordId, serial, marker.snapshot))
    && (d.completesSnapshot <==> marker.last || (!marker.snapshot && !flag))
    && (r.event.Some? <==> CarriesEvent(payload))
    && r.connectorState.None? && r.signals == []
    && (if payload.JObject? && "status" in payload.fields && payload.fields["status"] == JString("END")
        then r.boundary == TransactionCommit
        else if d.completesSnapshot then r.boundary == SnapshotComplete
        else r.boundary == (if CarriesEvent(payload) then Data else Heartbeat))
    && (r.event.Some? ==>
          var e := r.event.value;
          && e.id == (b.env.sha256)(b.connectorName + "\0" + recordId)
          && e.position == r.position && e.document == payload && e.observedTime == now
          && e.snapshot == marker.snapshot && e.incremental == marker.incremental
          && if "op" in payload.fields && payload.fields["op"].JString?
             then payload.fields["op"].text == CodeOf(e.operation)
             else e.operation == Message)
  }

  /** A payload of another connector, or with an operation code that no operation has. */
  predicate Refused(b: Bridge, payload: Json, source: map<string, Json>) {
    || ("connector" in source && source["connector"].JString? && source["connector"].text != b.sourceType)
    || (&& payload.JObject? && "op" in payload.fields && payload.fields["op"].JString?
        && forall o :: payload.fields["op"].text != CodeOf(o))
  }

  /**
   * A document decodes exactly if a payload is found in it that is not refused, and then to the record that this
   * payload stands for.
   */
  lemma DecodesExactly(
      b: Bridge, document: Json, recordId: string, serial: nat, flag: bool, now: int, source: map<string, Json>)
    requires UnwrapPayload(b.env, document, 4).Ok? ==> HasSource(UnwrapPayload(b.env, document, 4).value, source)
    ensures var payload, decoded :=
              UnwrapPayload(b.env, document, 4), DecodeDocument(b, document, recordId, serial, flag, now);
            && (decoded.Ok? <==> payload.Ok? && !Refused(b, payload.value, source))
            && (decoded.Ok? ==> RecordOf(b, payload.value, source, recordId, serial, flag, now, decoded.value))
  {
    hide UnwrapPayload, DecodeDocument, Refused, RecordOf;
    DecodeAccepts(b, document, recordId, serial, flag, now, source);
    if DecodeDocument(b, document, recordId, serial, flag, now).Ok? {
      DecodeYields(b, document, recordId, serial, flag, now, source);
    }
  }

  lemma DecodeAccepts(
      b: Bridge, document: Json, recordId: string, serial: nat, flag: bool, now: int, source: map<string, Json>)
    requires UnwrapPayload(b.env, document, 4).Ok? ==> HasSource(UnwrapPayload(b.env, document, 4).value, source)
    ensures var payload := UnwrapPayload(b.env, document, 4);
            DecodeDocument(b, document, recordId, serial, flag, now).Ok?
            <==> payload.Ok? && !Refused(b, payload.value, source)
  {
    hide UnwrapPayload, SnapshotMarker, OperationOf, CodeOf, PositionFor, BoundaryFor, CompletesSnapshot;
    if UnwrapPayload(b.env, document, 4).Ok? {
      OperationIsCoded(Get(UnwrapPayload(b.env, document, 4).value, "op"));
    }
  }

  lemma DecodeYields(
      b: Bridge, document: Json, recordId: string, serial: nat, flag: bool, now: int, source: map<string, Json>)
    requires UnwrapPayload(b.env, document, 4).Ok? ==> HasSource(UnwrapPayload(b.env, document, 4).value, source)
    requires DecodeDocument(b, document, recordId, serial, flag, now).Ok?
    ensures var d := DecodeDocument(b, document, recordId, serial, flag, now).value;
            RecordOf(b, UnwrapPayload(b.env, document, 4).value, source, recordId, serial, flag, now, d)
  {
    hide UnwrapPayload, SnapshotMarker, OperationOf, CodeOf;
    OperationIsCoded(Get(UnwrapPayload(b.env, document, 4).value, "op"));
  }

  // ---- Record identifiers of Kafka messages ----

  function KafkaRecordId(topic: string, partition: nat, offset: nat): string {
    "kafka:" + topic + ":" + Decimal(partition) + ":" + Decimal(offset)
  }

  /** The text after the last colon of `a:d` is `d` when `d` is a decimal. */
  lemma {:induction false} SplitLast(a: string, d: string, a': string, d': string)
    requires a + ":" + d == a' + ":" + d'
    requires IsDecimal(d) && IsDecimal(d')
    ensures a == a' && d == d'
  {
    var s, t := a + ":" + d, a' + ":" + d';
    NoColonAfter(a, d);
    NoColonAfter(a', d');
    assert s[|a|] == ':' && t[|a'|] == ':';
    assert |a| == |a'|;
    assert s[..|a|] == a && t[..|a|] == a' && s[|a| + 1..] == d && t[|a| + 1..] == d';
  }

  lemma NoColonAfter(a: string, d: string)
    requires IsDecimal(d)
    ensures forall i | |a| < i < |a + ":" + d| :: (a + ":" + d)[i] != ':'
  {
    forall i | |a| < i < |a + ":" + d|
      ensures (a + ":" + d)[i] != ':'
    {
      assert (a + ":" + d)[i] == d[i - |a| - 1];
    }
  }

  /** Record identifiers tell topics, partitions and offsets apart, whatever the topic name contains. */
  lemma KafkaRecordIdInjective(t: string, p: nat, o: nat, t': string, p': nat, o': nat)
    requires KafkaRecordId(t, p, o) == KafkaRecordId(t', p', o')
    ensures t == t' && p == p' && o == o'
  {
    DecimalShape(p);
    DecimalShape(o);
    DecimalShape(p');
    DecimalShape(o');
    var x, y := "kafka:" + t, "kafka:" + t';
    SplitLast(x + ":" + Decimal(p), Decimal(o), y + ":" + Decimal(p'), Decimal(o'));
    SplitLast(x, Decimal(p), y, Decimal(p'));
    assert t == x[6..] && t' == y[6..];
    DecimalInjective(p, p');
    DecimalInjective(o, o');
  }

  ghost predicate Injective(f: string -> string) {
    forall x, y :: f(x) == f(y) ==> x == y
  }

  /** With an injective digest, event identifiers are as distinct as record identifiers. */
  lemma EventIdsDistinct(b: Bridge, r: string, r': string)
    requires Injective(b.env.sha256) && BridgeEventId(b, r) == BridgeEventId(b, r')
    ensures r == r'
  {
    var n := |b.connectorName| + 1;
    assert r == EventFrame(b, r)[n..] && r' == EventFrame(b, r')[n..];
  }

  lemma TombstoneIdsDistinct(env: Env, id: EventId, id': EventId)
    requires Injective(env.sha256) && Derived(env, id, TOMBSTONE) == Derived(env, id', TOMBSTONE)
    ensures id == id'
  {
    var f, f' := DerivedFrame(id, TOMBSTONE), DerivedFrame(id', TOMBSTONE);
    assert f == f';
    assert |f| == |id| + 19 && |f'| == |id'| + 19;
    assert id == f[..|id|] && id' == f'[..|id'|];
  }

  /** A tombstone identifier is never the identifier of a Kafka record: the framed texts end differently. */
  lemma TombstoneIsNoRecord(b: Bridge, id: EventId, t: string, p: nat, o: nat)
    requires Injective(b.env.sha256)
    ensures Derived(b.env, id, TOMBSTONE) != BridgeEventId(b, KafkaRecordId(t, p, o))
  {
    var f, g := DerivedFrame(id, TOMBSTONE), EventFrame(b, KafkaRecordId(t, p, o));
    DecimalShape(o);
    assert f[|f| - 1] == 'e';
    assert g[|g| - 1] == Decimal(o)[|Decimal(o)| - 1];
    assert f != g;
  }
}
