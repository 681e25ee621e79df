/**
 * The Kafka form of the Debezium bridge (rustium-debezium, source.rs, `run_kafka`) on top of the delivery
 * pipeline, as one step system. Durable are the sink log, the checkpoint and the committed offsets; a restart may
 * happen between any two steps and loses everything else.
 */
module KafkaBridge {
  import opened Prelude
  import opened Positions
  import opened Events
  import opened DebeziumBridge
  import opened StopAndWait
  import R = Runtime

  /** A topic partition with its payloads by offset. */
  datatype Partition = Partition(topic: string, number: nat, messages: seq<Option<string>>)

  datatype Config = Config(bridge: Bridge, partitions: seq<Partition>)

  datatype Phase =
    | Receiving
    | Waiting(partition: nat, offset: nat, expected: SourcePosition)
    | Committing(partition: nat, offset: nat)
    | Stopped

  /** The locals of `run_kafka`. */
  datatype Source = Source(serial: nat, lastRecordId: Option<string>, snapshotCompleted: bool, phase: Phase)

  /** Which message an emitted record comes from, and what it was decoded with. */
  datatype Origin = Origin(partition: nat, offset: nat, serial: nat, flag: bool, now: int)

  /** `origins` runs parallel to `link.sent`. */
  datatype System = System(link: Link, source: Source, committed: seq<nat>, origins: seq<Origin>)

  /** A commit that is reported as failed may have been stored. */
  datatype CommitOutcome = Committed | Refused | CommittedButFailed

  datatype Action =
    | Pipe(step: R.Action)
    | HandOver
    | Receive(partition: nat, now: int)
    | Acknowledge
    | Commit(outcome: CommitOutcome)
    | StopSource
    | Restart

  predicate HasMessage(c: Config, p: nat, o: nat) {
    p < |c.partitions| && o < |c.partitions[p].messages|
  }

  function RecordId(c: Config, p: nat, o: nat): string
    requires p < |c.partitions|
  {
    KafkaRecordId(c.partitions[p].topic, c.partitions[p].number, o)
  }

  /** A missing or empty payload is committed without being emitted. */
  predicate IsEmpty(c: Config, p: nat, o: nat)
    requires HasMessage(c, p, o)
  {
    c.partitions[p].messages[o] == None || c.partitions[p].messages[o] == Some("")
  }

  /** Parsing and decoding of a non-empty message. */
  function DecodeMessage(c: Config, x: Origin): Result<Decoded>
    requires HasMessage(c, x.partition, x.offset) && !IsEmpty(c, x.partition, x.offset)
  {
    match (c.bridge.env.parseJson)(c.partitions[x.partition].messages[x.offset].value)
    case None => Err("payload is not JSON")
    case Some(document) =>
      DecodeDocument(c.bridge, document, RecordId(c, x.partition, x.offset), x.serial, x.flag, x.now)
  }

  /** `BridgeCheckpoint::from_context`: where a restarted bridge resumes. */
  function Resume(c: Config, stored: Option<Checkpoint>): Source {
    if stored.None? then Source(0, None, false, Receiving)
    else if !IsBridge(c.bridge.sourceType, stored.value.position) then Source(0, None, false, Stopped)
    else
      var p := stored.value.position.debezium;
      Source(p.eventSerial, Some(p.recordId), stored.value.snapshotCompleted, Receiving)
  }

  function Boot(c: Config, sink: seq<EncodedEvent>, stored: Option<Checkpoint>, committed: seq<nat>): System {
    System(Link(R.Start(sink, stored), [], []), Resume(c, stored), committed, [])
  }

  function Zeros(n: nat): (r: seq<nat>)
    ensures |r| == n && forall i | 0 <= i < n :: r[i] == 0
  {
    if n == 0 then [] else Zeros(n - 1) + [0]
  }

  /** The first start: nothing delivered, saved or committed. */
  function Init(c: Config): System {
    Boot(c, [], None, Zeros(|c.partitions|))
  }

  function NextOrigin(s: System, p: nat, now: int): Origin
    requires p < |s.committed|
  {
    Origin(p, s.committed[p], s.source.serial + 1, s.source.snapshotCompleted, now)
  }

  predicate CanReceive(c: Config, s: System, p: nat) {
    s.source.phase.Receiving? && p < |s.committed| && HasMessage(c, p, s.committed[p])
  }

  /** Whether the message is skipped: it is the last confirmed one, or it is empty. */
  predicate Skips(c: Config, s: System, p: nat)
    requires CanReceive(c, s, p)
  {
    s.source.lastRecordId == Some(RecordId(c, p, s.committed[p])) || IsEmpty(c, p, s.committed[p])
  }

  function ReceiveMessage(c: Config, s: System, p: nat, now: int): System
    requires CanReceive(c, s, p)
  {
    var o := s.committed[p];
    if Skips(c, s, p) then s.(source := s.source.(phase := Committing(p, o)))
    else
      var x := NextOrigin(s, p, now);
      match DecodeMessage(c, x)
      case Err(_) => s.(source := s.source.(phase := Stopped))
      case Ok(d) =>
        s.(link := Emit(s.link, d.record), origins := s.origins + [x],
           source := Source(x.serial, s.source.lastRecordId, s.source.snapshotCompleted || d.completesSnapshot,
                            Waiting(p, o, d.record.position)))
  }

  function CommitOffset(s: System, outcome: CommitOutcome): System
    requires s.source.phase.Committing? && s.source.phase.partition < |s.committed|
  {
    var committed := if outcome == Refused then s.committed
                     else s.committed[s.source.phase.partition := s.source.phase.offset + 1];
    s.(source := s.source.(phase := if outcome == Committed then Receiving else Stopped), committed := committed)
  }

  function Relink(s: System, l: Option<Link>): Option<System> {
    if l.Some? then Some(s.(link := l.value)) else None
  }

  function Confirm(c: Config, s: System): System
    requires s.source.phase.Waiting? && s.source.phase.partition < |c.partitions|
  {
    var p, o := s.source.phase.partition, s.source.phase.offset;
    s.(source := s.source.(phase := Committing(p, o), lastRecordId := Some(RecordId(c, p, o))))
  }

  function Step(c: Config, s: System, a: Action): Option<System> {
    match a
    case Pipe(step) => Relink(s, Pipeline(c.bridge.env, s.link, step))
    case HandOver => Relink(s, Hand(c.bridge.env, s.link))
    case Receive(p, now) => if CanReceive(c, s, p) then Some(ReceiveMessage(c, s, p, now)) else None
    case Acknowledge =>
      if s.source.phase.Waiting? && s.source.phase.partition < |c.partitions|
         && Reached(s.link.runtime.acknowledged, s.source.phase.expected)
      then Some(Confirm(c, s)) else None
    case Commit(outcome) =>
      if s.source.phase.Committing? && s.source.phase.partition < |s.committed| then Some(CommitOffset(s, outcome))
      else None
    case StopSource => Some(s.(source := s.source.(phase := Stopped)))
    case Restart => Some(Boot(c, s.link.runtime.sink, s.link.runtime.stored, s.committed))
  }

  function Run(c: Config, actions: seq<Action>): Option<System> {
    if actions == [] then Some(Init(c))
    else
      match Run(c, actions[..|actions| - 1])
      case None => None
      case Some(s) => Step(c, s, actions[|actions| - 1])
  }

  /** The step emits a snapshot record although the position before it is a streaming one. */
  predicate MarkerReturns(c: Config, s: System, a: Action) {
    && a.Receive? && CanReceive(c, s, a.partition) && !Skips(c, s, a.partition)
    && Prior(s.link).Some? && Prior(s.link).value.Debezium? && !Prior(s.link).value.debezium.snapshot
    && var d := DecodeMessage(c, NextOrigin(s, a.partition, a.now));
       d.Ok? && d.value.record.position.Debezium? && d.value.record.position.debezium.snapshot
  }

  /** Snapshot markers of the run are monotone, across restarts as well. */
  predicate MonotoneMarkers(c: Config, actions: seq<Action>) {
    actions == [] ||
    (var front := actions[..|actions| - 1];
     && MonotoneMarkers(c, front)
     && (Run(c, front).Some? ==> !MarkerReturns(c, Run(c, front).value, actions[|actions| - 1])))
  }

  // ---- What is durable about messages ----

  /** The sink holds all encodings of the message, decoded with some serial, flag and time. */
  ghost predicate DeliveredAs(c: Config, sink: seq<EncodedEvent>, x: Origin) {
    && HasMessage(c, x.partition, x.offset) && !IsEmpty(c, x.partition, x.offset)
    && DecodeMessage(c, x).Ok?
    && Holds(c.bridge.env, sink, DecodeMessage(c, x).value.record)
  }

  ghost predicate Delivered(c: Config, sink: seq<EncodedEvent>, p: nat, o: nat) {
    exists x :: DeliveredAs(c, sink, x) && x.partition == p && x.offset == o
  }

  /** Everything below the committed offsets is empty or delivered. */
  ghost predicate CommittedOk(c: Config, sink: seq<EncodedEvent>, committed: seq<nat>) {
    && |committed| == |c.partitions|
    && forall p, o | 0 <= p < |committed| && 0 <= o < committed[p] ::
         HasMessage(c, p, o) && (IsEmpty(c, p, o) || Delivered(c, sink, p, o))
  }

  /** A record identifier names a delivered message at or below the committed offset of its partition. */
  ghost predicate Names(c: Config, sink: seq<EncodedEvent>, committed: seq<nat>, id: string, x: Origin) {
    && DeliveredAs(c, sink, x)
    && x.partition < |committed| && x.offset <= committed[x.partition]
    && id == RecordId(c, x.partition, x.offset)
  }

  ghost predicate IdOk(c: Config, sink: seq<EncodedEvent>, committed: seq<nat>, id: Option<string>) {
    id.Some? ==> exists x :: Names(c, sink, committed, id.value, x)
  }

  ghost predicate CheckpointOk(c: Config, sink: seq<EncodedEvent>, committed: seq<nat>, stored: Option<Checkpoint>) {
    stored.Some? ==>
      && IsBridge(c.bridge.sourceType, stored.value.position)
      && IdOk(c, sink, committed, Some(stored.value.position.debezium.recordId))
  }

  /** Each emitted record is the decoding of the message recorded as its origin. */
  ghost predicate EmittedFrom(c: Config, committed: seq<nat>, r: SourceRecord, x: Origin) {
    && HasMessage(c, x.partition, x.offset) && !IsEmpty(c, x.partition, x.offset)
    && x.partition < |committed| && x.offset <= committed[x.partition]
    && DecodeMessage(c, x).Ok? && DecodeMessage(c, x).value.record == r
  }

  ghost predicate OriginsOk(c: Config, committed: seq<nat>, sent: seq<SourceRecord>, origins: seq<Origin>) {
    |sent| == |origins| && forall i | 0 <= i < |sent| :: EmittedFrom(c, committed, sent[i], origins[i])
  }

  /** The serial of the bridge is that of the position before the next emission. */
  predicate SerialOk(prior: Option<SourcePosition>, serial: nat) {
    if prior.None? then serial == 0 else prior.value.Debezium? && prior.value.debezium.eventSerial == serial
  }

  ghost predicate PhaseOk(c: Config, s: System) {
    match s.source.phase
    case Receiving => Settled(s.link) && s.link.runtime.acknowledged == Prior(s.link)
    case Waiting(p, o, expected) =>
      && AlmostSettled(s.link)
      && s.origins != []
      && s.origins[|s.origins| - 1].partition == p && s.origins[|s.origins| - 1].offset == o
      && p < |s.committed| && o == s.committed[p]
      && Prior(s.link) == Some(expected)
    case Committing(p, o) =>
      && Settled(s.link) && s.link.runtime.acknowledged == Prior(s.link)
      && p < |s.committed| && o == s.committed[p] && HasMessage(c, p, o)
      && (IsEmpty(c, p, o) || Delivered(c, s.link.runtime.sink, p, o))
    case Stopped => Settled(s.link) || AlmostSettled(s.link)
  }

  ghost predicate Inv(c: Config, s: System) {
    var sink := s.link.runtime.sink;
    && LinkInv(c.bridge.env, c.bridge.sourceType, s.link)
    && CommittedOk(c, sink, s.committed)
    && CheckpointOk(c, sink, s.committed, s.link.runtime.history.resumed)
    && OriginsOk(c, s.committed, s.link.sent, s.origins)
    && (s.source.phase.Stopped? || SerialOk(Prior(s.link), s.source.serial))
    && IdOk(c, sink, s.committed, s.source.lastRecordId)
    && PhaseOk(c, s)
  }

  // ---- Growth of the durable parts ----

  ghost predicate Grows(
    c: Config, sink: seq<EncodedEvent>, committed: seq<nat>, sink': seq<EncodedEvent>, committed': seq<nat>)
  {
    && sink <= sink'
    && |committed| == |committed'|
    && forall p | 0 <= p < |committed| :: committed[p] <= committed'[p]
  }

  lemma DeliveredGrows(c: Config, sink: seq<EncodedEvent>, sink': seq<EncodedEvent>)
    requires sink <= sink'
    ensures forall x | DeliveredAs(c, sink, x) :: DeliveredAs(c, sink', x)
    ensures forall p, o | Delivered(c, sink, p, o) :: Delivered(c, sink', p, o)
  {
    hide DecodeMessage, Holds, IsEmpty;
    forall x | DeliveredAs(c, sink, x)
      ensures DeliveredAs(c, sink', x)
    {
      HoldsGrows(c.bridge.env, sink, sink', DecodeMessage(c, x).value.record);
    }
  }

  lemma IdGrows(
      c: Config, sink: seq<EncodedEvent>, committed: seq<nat>, sink': seq<EncodedEvent>, committed': seq<nat>,
      id: Option<string>)
    requires Grows(c, sink, committed, sink', committed') && IdOk(c, sink, committed, id)
    ensures IdOk(c, sink', committed', id)
  {
    hide DeliveredAs, Delivered, RecordId;
    DeliveredGrows(c, sink, sink');
    if id.Some? {
      var x :| Names(c, sink, committed, id.value, x);
      assert DeliveredAs(c, sink', x);
      assert Names(c, sink', committed', id.value, x);
    }
  }

  lemma CheckpointGrows(
      c: Config, sink: seq<EncodedEvent>, committed: seq<nat>, sink': seq<EncodedEvent>, committed': seq<nat>,
      stored: Option<Checkpoint>)
    requires Grows(c, sink, committed, sink', committed') && CheckpointOk(c, sink, committed, stored)
    ensures CheckpointOk(c, sink', committed', stored)
  {
    hide IdOk;
    if stored.Some? {
      IdGrows(c, sink, committed, sink', committed', Some(stored.value.position.debezium.recordId));
    }
  }

  lemma CommittedGrows(c: Config, sink: seq<EncodedEvent>, sink': seq<EncodedEvent>, committed: seq<nat>)
    requires sink <= sink' && CommittedOk(c, sink, committed)
    ensures CommittedOk(c, sink', committed)
  {
    hide Delivered, IsEmpty;
    DeliveredGrows(c, sink, sink');
  }

  lemma OriginsGrow(c: Config, committed: seq<nat>, committed': seq<nat>, sent: seq<SourceRecord>, origins: seq<Origin>)
    requires OriginsOk(c, committed, sent, origins) && Grows(c, [], committed, [], committed')
    ensures OriginsOk(c, committed', sent, origins)
  {
    hide DecodeMessage, IsEmpty;
  }

  // ---- The checkpoint names a delivered message ----

  /** A settled record's message is delivered. */
  lemma SettledDelivered(c: Config, s: System, i: nat)
    requires LinkInv(c.bridge.env, c.bridge.sourceType, s.link)
    requires OriginsOk(c, s.committed, s.link.sent, s.origins)
    requires i < |s.link.runtime.history.settled|
    ensures i < |s.link.sent| && DeliveredAs(c, s.link.runtime.sink, s.origins[i])
    ensures Delivered(c, s.link.runtime.sink, s.origins[i].partition, s.origins[i].offset)
  {
    hide R.Inv, DecodeMessage, Holds, IsEmpty;
    SettledPrefix(c.bridge.env, c.bridge.sourceType, s.link);
    SettledHeld(c.bridge.env, s.link.runtime, i);
    assert EmittedFrom(c, s.committed, s.link.sent[i], s.origins[i]);
    assert s.link.runtime.history.settled[i] == s.link.sent[i];
  }

  /** The position of an emitted record names its message. */
  lemma EmittedPosition(c: Config, committed: seq<nat>, r: SourceRecord, x: Origin)
    requires EmittedFrom(c, committed, r, x)
    ensures IsBridge(c.bridge.sourceType, r.position)
    ensures r.position.debezium.recordId == RecordId(c, x.partition, x.offset)
    ensures r.position.debezium.eventSerial == x.serial
  {
    hide RecordId, DecodeDocument;
    var document := (c.bridge.env.parseJson)(c.partitions[x.partition].messages[x.offset].value).value;
    DecodedShape(c.bridge, document, RecordId(c, x.partition, x.offset), x.serial, x.flag, x.now);
  }

  lemma StoredOk(c: Config, s: System)
    requires Inv(c, s)
    ensures CheckpointOk(c, s.link.runtime.sink, s.committed, s.link.runtime.stored)
  {
    hide R.Inv, PhaseOk, CommittedOk, DecodeMessage, DeliveredAs, Delivered, RecordId, SerialOk;
    var l, h := s.link, s.link.runtime.history;
    StoredPosition(c.bridge.env, l.runtime);
    if h.settled != [] {
      var i := |h.settled| - 1;
      SettledPrefix(c.bridge.env, c.bridge.sourceType, l);
      SettledDelivered(c, s, i);
      NamesOrigin(c, s, i);
      assert h.settled[i] == l.sent[i];
    }
  }

  lemma NamesOrigin(c: Config, s: System, i: nat)
    requires OriginsOk(c, s.committed, s.link.sent, s.origins) && i < |s.origins|
    requires DeliveredAs(c, s.link.runtime.sink, s.origins[i])
    ensures IsBridge(c.bridge.sourceType, s.link.sent[i].position)
    ensures var id := s.link.sent[i].position.debezium.recordId;
            && Names(c, s.link.runtime.sink, s.committed, id, s.origins[i])
            && IdOk(c, s.link.runtime.sink, s.committed, Some(id))
  {
    hide DecodeMessage, DeliveredAs, IsEmpty;
    assert EmittedFrom(c, s.committed, s.link.sent[i], s.origins[i]);
    EmittedPosition(c, s.committed, s.link.sent[i], s.origins[i]);
  }

  // ---- Every step keeps the invariant ----

  lemma InitInv(c: Config)
    ensures Inv(c, Init(c))
  {
    hide R.Inv;
    RestartKeeps(c.bridge.env, c.bridge.sourceType, [], None);
  }

  lemma RestartInv(c: Config, s: System)
    requires Inv(c, s)
    ensures Inv(c, Boot(c, s.link.runtime.sink, s.link.runtime.stored, s.committed))
  {
    hide R.Inv, LinkInv, CommittedOk, Names, EmittedFrom;
    StoredOk(c, s);
    RestartKeeps(c.bridge.env, c.bridge.sourceType, s.link.runtime.sink, s.link.runtime.stored);
  }

  /** The pipeline moves on; the bridge waits or is between two messages. */
  lemma LinkMoves(c: Config, s: System, l: Link)
    requires Inv(c, s)
    requires LinkInv(c.bridge.env, c.bridge.sourceType, l) && l.sent == s.link.sent
    requires s.link.runtime.sink <= l.runtime.sink
    requires l.runtime.history.resumed == s.link.runtime.history.resumed
    requires s.link.runtime.history.settled <= l.runtime.history.settled
    requires Settled(s.link) ==>
               l.runtime.acknowledged == s.link.runtime.acknowledged || l.runtime.acknowledged == Prior(s.link)
    ensures Inv(c, s.(link := l))
  {
    hide R.Inv, CommittedOk, IdOk, CheckpointOk, OriginsOk, SerialOk, Ordered, Flow, PhaseOk;
    var sink, sink' := s.link.runtime.sink, l.runtime.sink;
    CommittedGrows(c, sink, sink', s.committed);
    CheckpointGrows(c, sink, s.committed, sink', s.committed, l.runtime.history.resumed);
    IdGrows(c, sink, s.committed, sink', s.committed, s.source.lastRecordId);
    PhaseMoves(c, s, l);
  }

  lemma PhaseMoves(c: Config, s: System, l: Link)
    requires PhaseOk(c, s)
    requires LinkInv(c.bridge.env, c.bridge.sourceType, l) && l.sent == s.link.sent
    requires s.link.runtime.sink <= l.runtime.sink
    requires l.runtime.history.resumed == s.link.runtime.history.resumed
    requires s.link.runtime.history.settled <= l.runtime.history.settled
    requires Settled(s.link) ==>
               l.runtime.acknowledged == s.link.runtime.acknowledged || l.runtime.acknowledged == Prior(s.link)
    ensures PhaseOk(c, s.(link := l))
  {
    hide R.Inv, Ordered, Flow, Delivered, IsEmpty;
    DeliveredGrows(c, s.link.runtime.sink, l.runtime.sink);
    SettledPrefix(c.bridge.env, c.bridge.sourceType, l);
  }

  lemma PipeInv(c: Config, s: System, a: R.Action)
    requires Inv(c, s) && Pipeline(c.bridge.env, s.link, a).Some?
    ensures Inv(c, s.(link := Pipeline(c.bridge.env, s.link, a).value))
  {
    hide R.Inv, R.Step, PhaseOk, CommittedOk, CheckpointOk, IdOk, OriginsOk, SerialOk, Ordered;
    PipelineKeeps(c.bridge.env, c.bridge.sourceType, s.link, a);
    PipelineGrows(c.bridge.env, s.link.runtime, a);
    if a.Publish? && Settled(s.link) {
      AckIsPrior(c.bridge.env, s.link, a.open);
    }
    LinkMoves(c, s, Pipeline(c.bridge.env, s.link, a).value);
  }

  lemma HandInv(c: Config, s: System)
    requires Inv(c, s) && Hand(c.bridge.env, s.link).Some?
    ensures Inv(c, s.(link := Hand(c.bridge.env, s.link).value))
  {
    hide R.Inv, R.Step, PhaseOk, CommittedOk, CheckpointOk, IdOk, OriginsOk, SerialOk, Ordered;
    HandKeeps(c.bridge.env, c.bridge.sourceType, s.link);
    HandoverGrows(c.bridge.env, s.link.runtime, s.link.queue[0]);
    LinkMoves(c, s, Hand(c.bridge.env, s.link).value);
  }

  /** The record just decoded is newer than anything before it. */
  lemma EmissionIsNewer(c: Config, s: System, p: nat, now: int)
    requires Inv(c, s) && CanReceive(c, s, p) && !Skips(c, s, p)
    requires DecodeMessage(c, NextOrigin(s, p, now)).Ok?
    requires !MarkerReturns(c, s, Receive(p, now))
    ensures var r := DecodeMessage(c, NextOrigin(s, p, now)).value.record;
            && EmittedFrom(c, s.committed, r, NextOrigin(s, p, now))
            && IsBridge(c.bridge.sourceType, r.position)
            && r.position.debezium.eventSerial == s.source.serial + 1
            && (Prior(s.link).Some? ==> Older(Prior(s.link).value, r.position))
  {
    hide R.Inv, PhaseOk, CommittedOk, CheckpointOk, IdOk, DecodeMessage, Ordered;
    var x := NextOrigin(s, p, now);
    EmittedPosition(c, s.committed, DecodeMessage(c, x).value.record, x);
  }

  lemma OriginsSnoc(
      c: Config, committed: seq<nat>, sent: seq<SourceRecord>, origins: seq<Origin>, r: SourceRecord, x: Origin)
    requires OriginsOk(c, committed, sent, origins) && EmittedFrom(c, committed, r, x)
    ensures OriginsOk(c, committed, sent + [r], origins + [x])
  {
    hide EmittedFrom;
  }

  lemma ReceiveInv(c: Config, s: System, p: nat, now: int)
    requires DistinctPartitions(c)
    requires Inv(c, s) && CanReceive(c, s, p) && !MarkerReturns(c, s, Receive(p, now))
    ensures Inv(c, ReceiveMessage(c, s, p, now))
  {
    hide Inv, MarkerReturns, DecodeMessage, DistinctPartitions, IsEmpty;
    if Skips(c, s, p) {
      SkipInv(c, s, p, now);
    } else if DecodeMessage(c, NextOrigin(s, p, now)).Ok? {
      EmissionInv(c, s, p, now);
    } else {
      StopInv(c, s);
    }
  }

  lemma EmissionEffect(c: Config, s: System, p: nat, now: int)
    requires CanReceive(c, s, p) && !Skips(c, s, p) && DecodeMessage(c, NextOrigin(s, p, now)).Ok?
    ensures var x, d := NextOrigin(s, p, now), DecodeMessage(c, NextOrigin(s, p, now)).value;
            ReceiveMessage(c, s, p, now)
            == System(Emit(s.link, d.record),
                      Source(s.source.serial + 1, s.source.lastRecordId,
                             s.source.snapshotCompleted || d.completesSnapshot,
                             Waiting(p, s.committed[p], d.record.position)),
                      s.committed, s.origins + [x])
  {
    hide DecodeMessage;
  }

  lemma EmissionInv(c: Config, s: System, p: nat, now: int)
    requires Inv(c, s) && CanReceive(c, s, p) && !Skips(c, s, p)
    requires DecodeMessage(c, NextOrigin(s, p, now)).Ok?
    requires !MarkerReturns(c, s, Receive(p, now))
    ensures Inv(c, ReceiveMessage(c, s, p, now))
  {
    hide R.Inv, LinkInv, CommittedOk, CheckpointOk, IdOk, OriginsOk, DecodeMessage, Older;
    hide MarkerReturns, EmittedFrom, IsEmpty;
    hide RecordId, ReceiveMessage;
    var x := NextOrigin(s, p, now);
    var r := DecodeMessage(c, x).value.record;
    EmissionIsNewer(c, s, p, now);
    EmissionEffect(c, s, p, now);
    EmitKeeps(c.bridge.env, c.bridge.sourceType, s.link, r);
    OriginsSnoc(c, s.committed, s.link.sent, s.origins, r, x);
    assert (s.link.sent + [r])[..|s.link.sent|] == s.link.sent;
  }

  /** Distinct partitions have distinct (topic, number) pairs. */
  ghost predicate DistinctPartitions(c: Config) {
    forall i, j | 0 <= i < j < |c.partitions| ::
      c.partitions[i].topic != c.partitions[j].topic || c.partitions[i].number != c.partitions[j].number
  }

  /** A message whose identifier has been confirmed is delivered. */
  lemma ConfirmedIsDelivered(c: Config, sink: seq<EncodedEvent>, committed: seq<nat>, p: nat, o: nat)
    requires DistinctPartitions(c) && HasMessage(c, p, o)
    requires IdOk(c, sink, committed, Some(RecordId(c, p, o)))
    ensures Delivered(c, sink, p, o)
  {
    hide DecodeMessage, Holds, IsEmpty;
    var x :| Names(c, sink, committed, RecordId(c, p, o), x);
    var a, b := c.partitions[p], c.partitions[x.partition];
    KafkaRecordIdInjective(a.topic, a.number, o, b.topic, b.number, x.offset);
    assert p == x.partition;
  }

  lemma SkipInv(c: Config, s: System, p: nat, now: int)
    requires Inv(c, s) && CanReceive(c, s, p) && Skips(c, s, p)
    requires DistinctPartitions(c)
    ensures Inv(c, ReceiveMessage(c, s, p, now))
  {
    hide R.Inv, LinkInv, CommittedOk, CheckpointOk, IdOk, OriginsOk, Delivered, RecordId, IsEmpty;
    if !IsEmpty(c, p, s.committed[p]) {
      ConfirmedIsDelivered(c, s.link.runtime.sink, s.committed, p, s.committed[p]);
    }
  }

  lemma AcknowledgeInv(c: Config, s: System)
    requires Inv(c, s) && s.source.phase.Waiting? && s.source.phase.partition < |c.partitions|
    requires Reached(s.link.runtime.acknowledged, s.source.phase.expected)
    ensures Inv(c, Confirm(c, s))
  {
    hide R.Inv, LinkInv, CommittedOk, CheckpointOk, EmittedFrom, DeliveredAs, Reached, IdOk, IsEmpty, IsAfter;
    AckSettles(c.bridge.env, c.bridge.sourceType, s.link);
    var i := |s.origins| - 1;
    SettledDelivered(c, s, i);
    NamesOrigin(c, s, i);
    assert EmittedFrom(c, s.committed, s.link.sent[i], s.origins[i]);
    EmittedPosition(c, s.committed, s.link.sent[i], s.origins[i]);
    DeliveredHasMessage(c, s.link.runtime.sink, s.source.phase.partition, s.source.phase.offset);
  }

  lemma DeliveredHasMessage(c: Config, sink: seq<EncodedEvent>, p: nat, o: nat)
    requires Delivered(c, sink, p, o)
    ensures HasMessage(c, p, o)
  {
    hide DecodeMessage, Holds, IsEmpty;
  }

  lemma CommitInv(c: Config, s: System, outcome: CommitOutcome)
    requires Inv(c, s) && s.source.phase.Committing? && s.source.phase.partition < |s.committed|
    ensures Inv(c, CommitOffset(s, outcome))
  {
    hide R.Inv, LinkInv, CheckpointOk, OriginsOk, Delivered, IdOk, IsEmpty, SerialOk;
    var p, o := s.source.phase.partition, s.source.phase.offset;
    var sink, committed' := s.link.runtime.sink, s.committed[p := o + 1];
    if outcome != Refused {
      OriginsGrow(c, s.committed, committed', s.link.sent, s.origins);
      CheckpointGrows(c, sink, s.committed, sink, committed', s.link.runtime.history.resumed);
      IdGrows(c, sink, s.committed, sink, committed', s.source.lastRecordId);
    }
  }

  lemma StepInv(c: Config, s: System, a: Action)
    requires DistinctPartitions(c) && Inv(c, s) && Step(c, s, a).Some? && !MarkerReturns(c, s, a)
    ensures Inv(c, Step(c, s, a).value)
  {
    hide Inv, Pipeline, Hand, MarkerReturns, DistinctPartitions, ReceiveMessage, CommitOffset, Confirm, Boot, Reached;
    match a
    case Pipe(step) => PipeInv(c, s, step);
    case HandOver => HandInv(c, s);
    case Receive(p, now) => ReceiveInv(c, s, p, now);
    case Acknowledge => AcknowledgeInv(c, s);
    case Commit(outcome) => CommitInv(c, s, outcome);
    case StopSource => StopInv(c, s);
    case Restart => RestartInv(c, s);
  }

  lemma StopInv(c: Config, s: System)
    requires Inv(c, s)
    ensures Inv(c, s.(source := s.source.(phase := Stopped)))
  {
    hide R.Inv, LinkInv, CommittedOk, CheckpointOk, OriginsOk, IdOk;
  }

  lemma {:induction false} RunInv(c: Config, actions: seq<Action>)
    requires DistinctPartitions(c) && Run(c, actions).Some? && MonotoneMarkers(c, actions)
    ensures Inv(c, Run(c, actions).value)
  {
    hide Inv, Step, MarkerReturns, DistinctPartitions;
    if actions == [] {
      InitInv(c);
    } else {
      RunInv(c, actions[..|actions| - 1]);
      StepInv(c, Run(c, actions[..|actions| - 1]).value, actions[|actions| - 1]);
    }
  }

  /**
   * At-least-once, end to end and over any number of partitions: in every reachable state, with restarts between
   * any two steps, every non-empty message below a committed offset is in the sink, and so is the message that
   * the checkpoint names.
   */
  lemma AtLeastOnce(c: Config, actions: seq<Action>, s: System)
    requires DistinctPartitions(c) && MonotoneMarkers(c, actions) && Run(c, actions) == Some(s)
    ensures |s.committed| == |c.partitions|
    ensures forall p, o | 0 <= p < |s.committed| && 0 <= o < s.committed[p] ::
              && HasMessage(c, p, o)
              && (c.partitions[p].messages[o] in {None, Some("")} || Delivered(c, s.link.runtime.sink, p, o))
    ensures s.link.runtime.stored.Some? ==>
              && s.link.runtime.stored.value.position.Debezium?
              && exists x ::
                   Names(c, s.link.runtime.sink, s.committed,
                         s.link.runtime.stored.value.position.debezium.recordId, x)
  {
    hide R.Inv, LinkInv, PhaseOk, OriginsOk, Names, Delivered, Run, MonotoneMarkers;
    RunInv(c, actions);
    StoredOk(c, s);
  }
}
