/**
 * The HTTP form of the Debezium bridge (rustium-debezium, source.rs, `process_http`). A lock admits one handler at a
 * time; it takes the documents of its request in turn and may be abandoned at each of its two awaits.
 */
module HttpBridge {
  import opened Prelude
  import opened Positions
  import opened Events
  import opened DebeziumBridge
  import opened Decimals
  import opened StopAndWait
  import R = Runtime

  /** `printJson` is the serializer whose output is digested for documents without an identifying header. */
  datatype Config = Config(bridge: Bridge, printJson: Json -> string)

  /** `header` is the first identifying header with a non-empty value. */
  datatype Request = Request(header: Option<string>, body: string)

  /** A document with its record identifier. */
  type Document = (string, Json)

  /** The fields guarded by the lock. */
  datatype Processing = Processing(
    nextSerial: nat, lastRecordId: Option<string>, pending: Option<SourcePosition>, snapshotCompleted: bool)

  /** How a posted document was decoded. */
  datatype Origin = Origin(recordId: string, document: Json, serial: nat, flag: bool, now: int)

  /** The handler that holds the lock has dealt with the first `next` documents of its request. */
  datatype Handler =
    | Free
    | Working(documents: seq<Document>, next: nat)
    | Sending(documents: seq<Document>, next: nat, origin: Origin, record: SourceRecord)
    | Waiting(documents: seq<Document>, next: nat, expected: SourcePosition)
    | Down

  /** `origins` runs parallel to `link.sent`; `posted` lists the documents ever received, with their identifiers. */
  datatype System = System(
    link: Link, processing: Processing, handler: Handler, origins: seq<Origin>, posted: seq<Document>)

  datatype Action =
    | Pipe(step: R.Action)
    | HandOver
    | Post(request: Request)
    | Proceed(now: int)
    | Sent
    | Acknowledge
    | Reply
    | Fail
    | Restart

  /** The identifier of the document at this place of a body. */
  function RecordId(c: Config, header: Option<string>, index: nat, document: Json): string {
    if header.None? then "sha256:" + (c.bridge.env.sha256)((c.printJson)(document))
    else if index == 0 then header.value
    else header.value + ":" + Decimal(index)
  }

  /** The documents of a body: the elements of an array, or the body itself. */
  function Documents(c: Config, request: Request): Option<seq<Document>> {
    if request.body == "" || request.body == "null" then Some([])
    else
      match (c.bridge.env.parseJson)(request.body)
      case None => None
      case Some(value) =>
        var items := if value.JArray? then value.items else [value];
        Some(seq(|items|, i requires 0 <= i < |items| => (RecordId(c, request.header, i, items[i]), items[i])))
  }

  function Decode(c: Config, x: Origin): Result<Decoded> {
    DecodeDocument(c.bridge, x.document, x.recordId, x.serial, x.flag, x.now)
  }

  /** Where a restarted bridge resumes. */
  function Resume(c: Config, stored: Option<Checkpoint>): (Processing, Handler) {
    if stored.None? then (Processing(0, None, None, false), Free)
    else if !IsBridge(c.bridge.sourceType, stored.value.position) then (Processing(0, None, None, false), Down)
    else
      var p := stored.value.position.debezium;
      (Processing(p.eventSerial, Some(p.recordId), None, stored.value.snapshotCompleted), Free)
  }

  function Boot(c: Config, sink: seq<EncodedEvent>, stored: Option<Checkpoint>, posted: seq<Document>): System {
    var (processing, handler) := Resume(c, stored);
    System(Link(R.Start(sink, stored), [], []), processing, handler, [], posted)
  }

  function Init(c: Config): System { Boot(c, [], None, []) }

  /** A malformed body is refused; any other is taken up, document by document. */
  function TakeUp(c: Config, s: System, request: Request): System {
    match Documents(c, request)
    case None => s
    case Some(documents) => s.(handler := Working(documents, 0), posted := s.posted + documents)
  }

  function NextOrigin(s: System, now: int): Origin
    requires s.handler.Working? && s.handler.next < |s.handler.documents|
  {
    var (id, document) := s.handler.documents[s.handler.next];
    Origin(id, document, s.processing.nextSerial + 1, s.processing.snapshotCompleted, now)
  }

  /** The next document: skipped when it is the last confirmed one, awaited when it is pending, else decoded. */
  function Handle(c: Config, s: System, now: int): System
    requires s.handler.Working? && s.handler.next < |s.handler.documents|
  {
    var q, documents, n := s.processing, s.handler.documents, s.handler.next;
    var id := documents[n].0;
    if q.lastRecordId == Some(id) then s.(handler := Working(documents, n + 1))
    else if q.pending.Some? then
      var p := q.pending.value;
      s.(handler := if p.Debezium? && p.debezium.recordId == id then Waiting(documents, n, p) else Free)
    else
      var x := NextOrigin(s, now);
      match Decode(c, x)
      case Err(_) => s.(processing := q.(nextSerial := x.serial), handler := Free)
      case Ok(d) =>
        s.(processing := q.(nextSerial := x.serial, snapshotCompleted := q.snapshotCompleted || d.completesSnapshot),
           handler := Sending(documents, n, x, d.record))
  }

  /** The channel has taken the record. */
  function Hold(s: System): System
    requires s.handler.Sending?
  {
    var x, r := s.handler.origin, s.handler.record;
    s.(link := Emit(s.link, r), origins := s.origins + [x],
       processing := s.processing.(pending := Some(r.position)),
       handler := Waiting(s.handler.documents, s.handler.next, r.position))
  }

  function Confirm(s: System): System
    requires s.handler.Waiting? && s.handler.next < |s.handler.documents|
  {
    var documents, n := s.handler.documents, s.handler.next;
    s.(processing := s.processing.(lastRecordId := Some(documents[n].0), pending := None),
       handler := Working(documents, n + 1))
  }

  function Relink(s: System, l: Option<Link>): Option<System> {
    if l.Some? then Some(s.(link := l.value)) else None
  }

  /** `Fail` stands for a time-out, a cancellation, a closed channel and an abandoned request alike. */
  function Step(c: Config, s: System, a: Action): Option<System> {
    match a
    case Pipe(step) => Relink(s, Pipeline(c.bridge.env, s.link, step))
    case HandOver => Relink(s, Hand(c.bridge.env, s.link))
    case Post(request) => if s.handler.Free? then Some(TakeUp(c, s, request)) else None
    case Proceed(now) =>
      if s.handler.Working? && s.handler.next < |s.handler.documents| then Some(Handle(c, s, now)) else None
    case Sent => if s.handler.Sending? then Some(Hold(s)) else None
    case Acknowledge =>
      if s.handler.Waiting? && s.handler.next < |s.handler.documents|
         && Reached(s.link.runtime.acknowledged, s.handler.expected)
      then Some(Confirm(s)) else None
    case Reply =>
      if s.handler.Working? && s.handler.next == |s.handler.documents| then Some(s.(handler := Free)) else None
    case Fail => if s.handler.Sending? || s.handler.Waiting? then Some(s.(handler := Free)) else None
    case Restart => Some(Boot(c, s.link.runtime.sink, s.link.runtime.stored, s.posted))
  }

  function Run(c: Config, actions: seq<Action>): Option<System> {
    if actions == [] then Some(Init(c))
    else
      match Run(c, actions[..|actions| - 1])
      case None => None
      case Some(s) => Step(c, s, actions[|actions| - 1])
  }

  /** The documents of a request that a step answers with success. */
  function Success(s: System, a: Action): Option<seq<Document>> {
    if a.Reply? && s.handler.Working? && s.handler.next == |s.handler.documents| then Some(s.handler.documents)
    else None
  }

  /** The step emits a snapshot record although the position before it is a streaming one. */
  predicate MarkerReturns(s: System, a: Action) {
    && a.Sent? && s.handler.Sending?
    && Prior(s.link).Some? && Prior(s.link).value.Debezium? && !Prior(s.link).value.debezium.snapshot
    && s.handler.record.position.Debezium? && s.handler.record.position.debezium.snapshot
  }

  predicate MonotoneMarkers(c: Config, actions: seq<Action>) {
    actions == [] ||
    (var front := actions[..|actions| - 1];
     && MonotoneMarkers(c, front)
     && (Run(c, front).Some? ==> !MarkerReturns(Run(c, front).value, actions[|actions| - 1])))
  }

  // ---- The documents of a body ----

  predicate DistinctIds(documents: seq<Document>) {
    forall i, j | 0 <= i < j < |documents| :: documents[i].0 != documents[j].0
  }

  /** Where the value that a body holds is an array, its elements are the documents, else the value is the only one. */
  lemma DocumentsOfBody(c: Config, request: Request)
    ensures request.body == "" || request.body == "null" ==> Documents(c, request) == Some([])
    ensures request.body != "" && request.body != "null" ==>
              match (c.bridge.env.parseJson)(request.body)
              case None => Documents(c, request) == None
              case Some(value) =>
                && Documents(c, request).Some?
                && var documents := Documents(c, request).value;
                   if value.JArray?
                   then
                     && |documents| == |value.items|
                     && forall i | 0 <= i < |documents| :: documents[i].1 == value.items[i]
                   else |documents| == 1 && documents[0].1 == value
  {
  }

  /** The first document has the identifying header, and each later one adds its place to it. */
  lemma HeaderIds(c: Config, header: string, index: nat, document: Json)
    ensures RecordId(c, Some(header), 0, document) == header
    ensures index > 0 ==>
              var id := RecordId(c, Some(header), index, document);
              && |id| > |header| + 1 && id[..|header|] == header && id[|header|] == ':'
              && Digits(id[|header| + 1..]) && Numeric(id[|header| + 1..]) == index
  {
    if index > 0 {
      var id := RecordId(c, Some(header), index, document);
      DecimalIsReadBack(index);
      DecimalShape(index);
      assert id[|header| + 1..] == Decimal(index);
    }
  }

  /** With an identifying header, the documents of one body have different identifiers. */
  lemma IdsOfOneBody(c: Config, request: Request)
    requires request.header.Some? && Documents(c, request).Some?
    ensures DistinctIds(Documents(c, request).value)
  {
    hide RecordId;
    var documents, h := Documents(c, request).value, request.header.value;
    forall i, j | 0 <= i < j < |documents|
      ensures documents[i].0 != documents[j].0
    {
      assert documents[i].0 == RecordId(c, request.header, i, documents[i].1);
      assert documents[j].0 == RecordId(c, request.header, j, documents[j].1);
      HeaderIds(c, h, i, documents[i].1);
      HeaderIds(c, h, j, documents[j].1);
    }
  }

  /** Without one, equal documents have equal identifiers, and with an injective digest and printer only those. */
  lemma DigestIds(c: Config, i: nat, a: Json, j: nat, b: Json)
    ensures a == b ==> RecordId(c, None, i, a) == RecordId(c, None, j, b)
    ensures Injective(c.bridge.env.sha256) && ((c.printJson)(a) == (c.printJson)(b) ==> a == b) ==>
              (RecordId(c, None, i, a) == RecordId(c, None, j, b) ==> a == b)
    ensures RecordId(c, None, i, a)[..7] == "sha256:"
  {
    var x, y := (c.bridge.env.sha256)((c.printJson)(a)), (c.bridge.env.sha256)((c.printJson)(b));
    assert ("sha256:" + x)[7..] == x && ("sha256:" + y)[7..] == y;
  }

  // ---- What every step keeps ----

  /** A posted document with this identifier is in the sink. */
  ghost predicate DeliveredAs(c: Config, posted: seq<Document>, sink: seq<EncodedEvent>, x: Origin) {
    && (x.recordId, x.document) in posted
    && Decode(c, x).Ok? && Holds(c.bridge.env, sink, Decode(c, x).value.record)
  }

  ghost predicate Delivered(c: Config, posted: seq<Document>, sink: seq<EncodedEvent>, id: string) {
    exists x :: DeliveredAs(c, posted, sink, x) && x.recordId == id
  }

  ghost predicate DecodedFrom(c: Config, posted: seq<Document>, r: SourceRecord, x: Origin) {
    (x.recordId, x.document) in posted && Decode(c, x).Ok? && Decode(c, x).value.record == r
  }

  ghost predicate OriginsOk(c: Config, posted: seq<Document>, sent: seq<SourceRecord>, origins: seq<Origin>) {
    |sent| == |origins| && forall i | 0 <= i < |sent| :: DecodedFrom(c, posted, sent[i], origins[i])
  }

  ghost predicate CheckpointOk(c: Config, posted: seq<Document>, sink: seq<EncodedEvent>, stored: Option<Checkpoint>) {
    stored.Some? ==>
      && IsBridge(c.bridge.sourceType, stored.value.position)
      && Delivered(c, posted, sink, stored.value.position.debezium.recordId)
  }

  /** The identifier is that of the resumed checkpoint or of a record covered by a checkpoint of this process. */
  ghost predicate Checkpointed(l: Link, id: string) {
    || NamedBy(R.PositionOf(l.runtime.history.resumed), id)
    || exists i | 0 <= i < |l.runtime.history.settled| :: NamedBy(Some(l.runtime.history.settled[i].position), id)
  }

  predicate NamedBy(p: Option<SourcePosition>, id: string) {
    p.Some? && p.value.Debezium? && p.value.debezium.recordId == id
  }

  /** Serials already given out bound those of emitted records. */
  predicate SerialOk(prior: Option<SourcePosition>, nextSerial: nat) {
    prior.Some? ==> prior.value.Debezium? && prior.value.debezium.eventSerial <= nextSerial
  }

  /** The position of the record before the last emitted one, else the resumed one. */
  function Earlier(l: Link): Option<SourcePosition>
    requires l.sent != []
  {
    if |l.sent| == 1 then R.PositionOf(l.runtime.history.resumed) else Some(l.sent[|l.sent| - 2].position)
  }

  predicate LastIs(lastRecordId: Option<string>, p: Option<SourcePosition>) {
    if p.None? then lastRecordId.None? else lastRecordId.Some? && NamedBy(p, lastRecordId.value)
  }

  /** `pending` names the one emitted record that may lack its acknowledgement. */
  ghost predicate PendingOk(s: System) {
    if s.processing.pending.None? then
      && Settled(s.link) && s.link.runtime.acknowledged == Prior(s.link)
      && LastIs(s.processing.lastRecordId, Prior(s.link))
    else
      && AlmostSettled(s.link) && s.processing.pending == Prior(s.link)
      && LastIs(s.processing.lastRecordId, Earlier(s.link))
  }

  /** The documents dealt with have been checkpointed, and all have been posted. */
  ghost predicate ProgressOk(l: Link, posted: seq<Document>, documents: seq<Document>, next: nat) {
    && next <= |documents|
    && (forall i | 0 <= i < next :: Checkpointed(l, documents[i].0))
    && forall i | 0 <= i < |documents| :: documents[i] in posted
  }

  ghost predicate HandlerOk(c: Config, s: System) {
    match s.handler
    case Free => true
    case Down => true
    case Working(documents, next) => ProgressOk(s.link, s.posted, documents, next)
    case Sending(documents, next, x, r) =>
      && ProgressOk(s.link, s.posted, documents, next) && next < |documents|
      && s.processing.pending.None?
      && DecodedFrom(c, s.posted, r, x)
      && x.recordId == documents[next].0 && s.processing.lastRecordId != Some(x.recordId)
      && x.serial == s.processing.nextSerial
      && (Prior(s.link).Some? ==> Prior(s.link).value.Debezium? && Prior(s.link).value.debezium.eventSerial < x.serial)
    case Waiting(documents, next, expected) =>
      && ProgressOk(s.link, s.posted, documents, next) && next < |documents|
      && s.processing.pending == Some(expected) && NamedBy(Some(expected), documents[next].0)
  }

  /** No two emissions in a row carry the same identifier. */
  ghost predicate NoRepeats(l: Link) {
    && (forall i | 0 <= i < |l.sent| - 1 ::
          !(l.sent[i].position.Debezium?
            && NamedBy(Some(l.sent[i + 1].position), l.sent[i].position.debezium.recordId)))
    && (l.sent != [] && l.runtime.history.resumed.Some? ==>
          var p := l.runtime.history.resumed.value.position;
          p.Debezium? ==> !NamedBy(Some(l.sent[0].position), p.debezium.recordId))
  }

  ghost predicate Inv(c: Config, s: System) {
    && LinkInv(c.bridge.env, c.bridge.sourceType, s.link)
    && OriginsOk(c, s.posted, s.link.sent, s.origins)
    && CheckpointOk(c, s.posted, s.link.runtime.sink, s.link.runtime.history.resumed)
    && SerialOk(Prior(s.link), s.processing.nextSerial)
    && PendingOk(s)
    && HandlerOk(c, s)
    && NoRepeats(s.link)
  }

  lemma DeliveredGrows(
      c: Config, posted: seq<Document>, posted': seq<Document>, sink: seq<EncodedEvent>,
      sink': seq<EncodedEvent>, stored: Option<Checkpoint>)
    requires posted <= posted' && sink <= sink' && CheckpointOk(c, posted, sink, stored)
    ensures CheckpointOk(c, posted', sink', stored)
  {
    hide Decode, Holds;
    if stored.Some? {
      var id := stored.value.position.debezium.recordId;
      var x :| DeliveredAs(c, posted, sink, x) && x.recordId == id;
      var i :| 0 <= i < |posted| && posted[i] == (x.recordId, x.document);
      assert posted'[i] == posted[i];
      HoldsGrows(c.bridge.env, sink, sink', Decode(c, x).value.record);
      assert DeliveredAs(c, posted', sink', x);
    }
  }

  lemma PostedGrows(
      c: Config, posted: seq<Document>, posted': seq<Document>, sent: seq<SourceRecord>, origins: seq<Origin>)
    requires posted <= posted' && OriginsOk(c, posted, sent, origins)
    ensures OriginsOk(c, posted', sent, origins)
  {
    hide Decode;
    forall i | 0 <= i < |sent|
      ensures DecodedFrom(c, posted', sent[i], origins[i])
    {
      assert DecodedFrom(c, posted, sent[i], origins[i]);
      var k :| 0 <= k < |posted| && posted[k] == (origins[i].recordId, origins[i].document);
      assert posted'[k] == posted[k];
    }
  }

  /** The position of a decoded record names its document and carries its serial. */
  lemma DecodedPosition(c: Config, posted: seq<Document>, r: SourceRecord, x: Origin)
    requires DecodedFrom(c, posted, r, x)
    ensures IsBridge(c.bridge.sourceType, r.position)
    ensures r.position.debezium.recordId == x.recordId && r.position.debezium.eventSerial == x.serial
  {
    hide DecodeDocument;
    DecodedShape(c.bridge, x.document, x.recordId, x.serial, x.flag, x.now);
  }

  /** A settled record's document is delivered. */
  lemma SettledDelivered(c: Config, s: System, i: nat)
    requires LinkInv(c.bridge.env, c.bridge.sourceType, s.link)
    requires OriginsOk(c, s.posted, s.link.sent, s.origins)
    requires i < |s.link.runtime.history.settled|
    ensures i < |s.link.sent| && s.link.runtime.history.settled[i] == s.link.sent[i]
    ensures IsBridge(c.bridge.sourceType, s.link.sent[i].position)
    ensures Delivered(c, s.posted, s.link.runtime.sink, s.link.sent[i].position.debezium.recordId)
  {
    hide R.Inv, Decode, Holds;
    SettledPrefix(c.bridge.env, c.bridge.sourceType, s.link);
    SettledHeld(c.bridge.env, s.link.runtime, i);
    assert DecodedFrom(c, s.posted, s.link.sent[i], s.origins[i]);
    DecodedPosition(c, s.posted, s.link.sent[i], s.origins[i]);
    assert DeliveredAs(c, s.posted, s.link.runtime.sink, s.origins[i]);
  }

  /** The stored checkpoint names a delivered document. */
  lemma StoredOk(c: Config, s: System)
    requires Inv(c, s)
    ensures CheckpointOk(c, s.posted, s.link.runtime.sink, s.link.runtime.stored)
  {
    hide R.Inv, PendingOk, HandlerOk, NoRepeats, Ordered, Delivered, OriginsOk;
    var h := s.link.runtime.history;
    StoredPosition(c.bridge.env, s.link.runtime);
    if h.settled != [] {
      SettledDelivered(c, s, |h.settled| - 1);
    }
  }

  /** What has been checkpointed is delivered. */
  lemma CheckpointedIsDelivered(c: Config, s: System, id: string)
    requires Inv(c, s) && Checkpointed(s.link, id)
    ensures Delivered(c, s.posted, s.link.runtime.sink, id)
  {
    hide R.Inv, PendingOk, HandlerOk, NoRepeats, Ordered, Delivered, OriginsOk;
    var h := s.link.runtime.history;
    if !NamedBy(R.PositionOf(h.resumed), id) {
      var i :| 0 <= i < |h.settled| && NamedBy(Some(h.settled[i].position), id);
      SettledDelivered(c, s, i);
    }
  }

  // ---- Each step ----

  lemma InitInv(c: Config)
    ensures Inv(c, Init(c))
  {
    hide R.Inv;
    RestartKeeps(c.bridge.env, c.bridge.sourceType, [], None);
  }

  lemma RestartInv(c: Config, s: System)
    requires Inv(c, s)
    ensures Inv(c, Boot(c, s.link.runtime.sink, s.link.runtime.stored, s.posted))
  {
    hide R.Inv, LinkInv, Delivered, DecodedFrom;
    StoredOk(c, s);
    RestartKeeps(c.bridge.env, c.bridge.sourceType, s.link.runtime.sink, s.link.runtime.stored);
  }

  /** What has been checkpointed stays so. */
  lemma CheckpointedGrows(l: Link, l': Link)
    requires l'.runtime.history.resumed == l.runtime.history.resumed
    requires l.runtime.history.settled <= l'.runtime.history.settled
    ensures forall id | Checkpointed(l, id) :: Checkpointed(l', id)
  {
    hide NamedBy;
    var a, b := l.runtime.history.settled, l'.runtime.history.settled;
    forall id | Checkpointed(l, id)
      ensures Checkpointed(l', id)
    {
      if !NamedBy(R.PositionOf(l.runtime.history.resumed), id) {
        var i :| 0 <= i < |a| && NamedBy(Some(a[i].position), id);
        assert b[i] == a[i];
      }
    }
  }

  lemma HandlerMoves(c: Config, s: System, l: Link)
    requires HandlerOk(c, s) && l.sent == s.link.sent
    requires l.runtime.history.resumed == s.link.runtime.history.resumed
    requires s.link.runtime.history.settled <= l.runtime.history.settled
    ensures HandlerOk(c, s.(link := l))
  {
    hide DecodedFrom, NamedBy, Checkpointed;
    CheckpointedGrows(s.link, l);
  }

  /** The pipeline moves on under the bridge. */
  lemma LinkMoves(c: Config, s: System, l: Link)
    requires Inv(c, s)
    requires LinkInv(c.bridge.env, c.bridge.sourceType, l) && l.sent == s.link.sent
    requires s.link.runtime.sink <= l.runtime.sink
    requires l.runtime.history.resumed == s.link.runtime.history.resumed
    requires s.link.runtime.history.settled <= l.runtime.history.settled
    requires Settled(s.link) ==>
               l.runtime.acknowledged == s.link.runtime.acknowledged || l.runtime.acknowledged == Prior(s.link)
    ensures Inv(c, s.(link := l))
  {
    hide R.Inv, CheckpointOk, OriginsOk, SerialOk, Ordered, LastIs, Flow, PendingOk, HandlerOk, NamedBy;
    DeliveredGrows(c, s.posted, s.posted, s.link.runtime.sink, l.runtime.sink, l.runtime.history.resumed);
    PendingMoves(c, s, l);
    HandlerMoves(c, s, l);
  }

  lemma PendingMoves(c: Config, s: System, l: Link)
    requires PendingOk(s)
    requires LinkInv(c.bridge.env, c.bridge.sourceType, l) && l.sent == s.link.sent
    requires l.runtime.history.resumed == s.link.runtime.history.resumed
    requires s.link.runtime.history.settled <= l.runtime.history.settled
    requires Settled(s.link) ==>
               l.runtime.acknowledged == s.link.runtime.acknowledged || l.runtime.acknowledged == Prior(s.link)
    ensures PendingOk(s.(link := l))
  {
    hide R.Inv, Ordered, LastIs, Flow;
    SettledPrefix(c.bridge.env, c.bridge.sourceType, l);
  }

  lemma PipeInv(c: Config, s: System, a: R.Action)
    requires Inv(c, s) && Pipeline(c.bridge.env, s.link, a).Some?
    ensures Inv(c, s.(link := Pipeline(c.bridge.env, s.link, a).value))
  {
    hide R.Inv, R.Step, PendingOk, CheckpointOk, HandlerOk, OriginsOk, SerialOk, Ordered, NoRepeats;
    PipelineKeeps(c.bridge.env, c.bridge.sourceType, s.link, a);
    PipelineGrows(c.bridge.env, s.link.runtime, a);
    if a.Publish? && Settled(s.link) {
      AckIsPrior(c.bridge.env, s.link, a.open);
    }
    LinkMoves(c, s, Pipeline(c.bridge.env, s.link, a).value);
  }

  lemma HandInv(c: Config, s: System)
    requires Inv(c, s) && Hand(c.bridge.env, s.link).Some?
    ensures Inv(c, s.(link := Hand(c.bridge.env, s.link).value))
  {
    hide R.Inv, R.Step, PendingOk, CheckpointOk, HandlerOk, OriginsOk, SerialOk, Ordered, NoRepeats;
    HandKeeps(c.bridge.env, c.bridge.sourceType, s.link);
    HandoverGrows(c.bridge.env, s.link.runtime, s.link.queue[0]);
    LinkMoves(c, s, Hand(c.bridge.env, s.link).value);
  }

  /** A request that is taken up disturbs nothing. */
  lemma TakeUpInv(c: Config, s: System, request: Request)
    requires Inv(c, s) && s.handler.Free?
    ensures Inv(c, TakeUp(c, s, request))
  {
    hide LinkInv, CheckpointOk, OriginsOk, SerialOk, LastIs, NoRepeats, Documents, Checkpointed;
    if Documents(c, request).Some? {
      var posted := s.posted + Documents(c, request).value;
      var sink := s.link.runtime.sink;
      DeliveredGrows(c, s.posted, posted, sink, sink, s.link.runtime.history.resumed);
      PostedGrows(c, s.posted, posted, s.link.sent, s.origins);
    }
  }

  lemma HandleInv(c: Config, s: System, now: int)
    requires Inv(c, s) && s.handler.Working? && s.handler.next < |s.handler.documents|
    ensures Inv(c, Handle(c, s, now))
  {
    hide LinkInv, CheckpointOk, OriginsOk, NoRepeats, Decode, LastIs, Checkpointed;
    var id := s.handler.documents[s.handler.next].0;
    if s.processing.lastRecordId == Some(id) {
      LastIsCheckpointed(c, s, id);
    }
  }

  lemma SentInv(c: Config, s: System)
    requires Inv(c, s) && s.handler.Sending? && !MarkerReturns(s, Sent)
    ensures Inv(c, Hold(s))
  {
    hide R.Inv, CheckpointOk, OriginsOk, NoRepeats, Decode, Ordered, Flow, LinkInv;
    var x, r := s.handler.origin, s.handler.record;
    var prior := Prior(s.link);
    DecodedPosition(c, s.posted, r, x);
    EmitKeeps(c.bridge.env, c.bridge.sourceType, s.link, r);
    OriginsSnoc(c, s.posted, s.link.sent, s.origins, r, x);
    NoRepeatsSnoc(s.link, r);
    assert (s.link.sent + [r])[..|s.link.sent|] == s.link.sent;
  }

  lemma OriginsSnoc(
      c: Config, posted: seq<Document>, sent: seq<SourceRecord>, origins: seq<Origin>, r: SourceRecord, x: Origin)
    requires OriginsOk(c, posted, sent, origins) && DecodedFrom(c, posted, r, x)
    ensures OriginsOk(c, posted, sent + [r], origins + [x])
  {
    hide DecodedFrom;
  }

  lemma NoRepeatsSnoc(l: Link, r: SourceRecord)
    requires NoRepeats(l) && r.position.Debezium?
    requires !NamedBy(Prior(l), r.position.debezium.recordId)
    ensures NoRepeats(Emit(l, r))
  {
  }

  lemma AcknowledgeInv(c: Config, s: System)
    requires Inv(c, s) && s.handler.Waiting? && Reached(s.link.runtime.acknowledged, s.handler.expected)
    ensures Settled(s.link) && s.handler.next < |s.handler.documents| && Inv(c, Confirm(s))
  {
    hide LinkInv, CheckpointOk, OriginsOk, NoRepeats, Reached, Checkpointed;
    AckSettles(c.bridge.env, c.bridge.sourceType, s.link);
    ConfirmedIsCheckpointed(c, s);
  }

  lemma ConfirmedIsCheckpointed(c: Config, s: System)
    requires Inv(c, s) && s.handler.Waiting? && Settled(s.link)
    ensures Checkpointed(s.link, s.handler.documents[s.handler.next].0)
  {
    hide R.Inv, Ordered, Flow, CheckpointOk, OriginsOk, NoRepeats, SerialOk;
    var id := s.handler.documents[s.handler.next].0;
    assert NamedBy(Some(s.link.runtime.history.settled[|s.link.sent| - 1].position), id);
  }

  lemma LastIsCheckpointed(c: Config, s: System, id: string)
    requires Inv(c, s) && s.processing.lastRecordId == Some(id)
    ensures Checkpointed(s.link, id)
  {
    hide R.Inv, Ordered, Flow, CheckpointOk, OriginsOk, NoRepeats, SerialOk, HandlerOk;
    var l, h := s.link, s.link.runtime.history;
    if s.processing.pending.None? {
      if l.sent != [] {
        assert NamedBy(Some(h.settled[|l.sent| - 1].position), id);
      }
    } else if |l.sent| > 1 {
      assert h.settled[|l.sent| - 2] == l.sent[|l.sent| - 2];
      assert NamedBy(Some(h.settled[|l.sent| - 2].position), id);
    }
  }

  lemma FailInv(c: Config, s: System)
    requires Inv(c, s)
    ensures Inv(c, s.(handler := Free))
  {
    hide LinkInv, CheckpointOk, OriginsOk, NoRepeats, LastIs;
  }

  lemma StepInv(c: Config, s: System, a: Action)
    requires Inv(c, s) && Step(c, s, a).Some? && !MarkerReturns(s, a)
    ensures Inv(c, Step(c, s, a).value)
  {
    hide Inv, Pipeline, Hand, MarkerReturns, TakeUp, Handle, Hold, Confirm, Boot, Reached;
    match a
    case Pipe(step) => PipeInv(c, s, step);
    case HandOver => HandInv(c, s);
    case Post(request) => TakeUpInv(c, s, request);
    case Proceed(now) => HandleInv(c, s, now);
    case Sent => SentInv(c, s);
    case Acknowledge => AcknowledgeInv(c, s);
    case Reply => FailInv(c, s);
    case Fail => FailInv(c, s);
    case Restart => RestartInv(c, s);
  }

  lemma {:induction false} RunInv(c: Config, actions: seq<Action>)
    requires Run(c, actions).Some? && MonotoneMarkers(c, actions)
    ensures Inv(c, Run(c, actions).value)
  {
    hide Inv, Step, MarkerReturns;
    if actions == [] {
      InitInv(c);
    } else {
      RunInv(c, actions[..|actions| - 1]);
      StepInv(c, Run(c, actions[..|actions| - 1]).value, actions[|actions| - 1]);
    }
  }

  // ---- Whole runs ----

  /**
   * In every reachable state at most one emitted record is not covered by a checkpoint, and `pending` names it;
   * without a pending record everything emitted is covered and acknowledged.
   */
  lemma AtMostOneUnacknowledged(c: Config, actions: seq<Action>, s: System)
    requires MonotoneMarkers(c, actions) && Run(c, actions) == Some(s)
    ensures var sent, settled := s.link.sent, s.link.runtime.history.settled;
            && settled <= sent && |sent| <= |settled| + 1
            && (s.processing.pending.None? ==> settled == sent && s.link.runtime.acknowledged == Prior(s.link))
            && (s.processing.pending.Some? ==>
                  sent != [] && s.processing.pending == Some(sent[|sent| - 1].position))
  {
    hide R.Inv, Ordered, OriginsOk, CheckpointOk, SerialOk, HandlerOk, NoRepeats, LastIs, Run, MonotoneMarkers;
    RunInv(c, actions);
    SettledPrefix(c.bridge.env, c.bridge.sourceType, s.link);
  }

  /** Within a process serials strictly increase from the resumed one on, and no two emissions in a row are the same. */
  lemma EmissionsAdvance(c: Config, actions: seq<Action>, s: System)
    requires MonotoneMarkers(c, actions) && Run(c, actions) == Some(s)
    ensures forall r | r in s.link.sent :: r.position.Debezium?
    ensures forall i, j | 0 <= i < j < |s.link.sent| ::
              s.link.sent[i].position.debezium.eventSerial < s.link.sent[j].position.debezium.eventSerial
    ensures var resumed := s.link.runtime.history.resumed;
            resumed.Some? ==>
              && resumed.value.position.Debezium?
              && forall r | r in s.link.sent ::
                   resumed.value.position.debezium.eventSerial < r.position.debezium.eventSerial
    ensures forall i | 0 <= i < |s.link.sent| - 1 ::
              s.link.sent[i].position.debezium.recordId != s.link.sent[i + 1].position.debezium.recordId
  {
    hide R.Inv, Flow, OriginsOk, CheckpointOk, SerialOk, HandlerOk, PendingOk, Run, MonotoneMarkers;
    RunInv(c, actions);
  }

  /** Success means that, for every document of the request, a checkpoint covers its record and the sink holds it. */
  lemma {:induction false} SuccessIsDurable(
      c: Config, actions: seq<Action>, s: System, a: Action, documents: seq<Document>)
    requires MonotoneMarkers(c, actions) && Run(c, actions) == Some(s) && Success(s, a) == Some(documents)
    ensures forall i | 0 <= i < |documents| :: Checkpointed(s.link, documents[i].0)
    ensures forall i | 0 <= i < |documents| :: Delivered(c, s.posted, s.link.runtime.sink, documents[i].0)
  {
    hide Delivered, Run, MonotoneMarkers, Checkpointed, LinkInv, OriginsOk, CheckpointOk;
    hide SerialOk, PendingOk, NoRepeats;
    RunInv(c, actions);
    forall i | 0 <= i < |documents|
      ensures Delivered(c, s.posted, s.link.runtime.sink, documents[i].0)
    {
      CheckpointedIsDelivered(c, s, documents[i].0);
    }
  }

  /** The identifier is that of the pending record, or of the last confirmed one when none is pending. */
  predicate Current(s: System, id: string) {
    if s.processing.pending.None? then s.processing.lastRecordId == Some(id)
    else NamedBy(s.processing.pending, id)
  }

  /** All documents of the request carry the identifier. */
  predicate CarriesId(c: Config, request: Request, id: string) {
    Documents(c, request).Some? ==> AllCarry(Documents(c, request).value, id)
  }

  predicate AllCarry(documents: seq<Document>, id: string) {
    forall i | 0 <= i < |documents| :: documents[i].0 == id
  }

  ghost predicate OnlyRetries(c: Config, actions: seq<Action>, id: string) {
    forall i | 0 <= i < |actions| && actions[i].Post? :: CarriesId(c, actions[i].request, id)
  }

  /** The handler has nothing but repetitions of the identifier at hand. */
  predicate Repeating(h: Handler, id: string) {
    match h
    case Working(documents, _) => AllCarry(documents, id)
    case Waiting(documents, _, _) => AllCarry(documents, id)
    case Sending(_, _, _, _) => false
    case _ => true
  }

  lemma RetryStep(c: Config, s: System, a: Action, id: string)
    requires Inv(c, s) && Current(s, id) && Repeating(s.handler, id) && Step(c, s, a).Some?
    requires a.Post? ==> CarriesId(c, a.request, id)
    requires a.Restart? ==> s.processing.pending.None?
    ensures a != Sent
    ensures Current(Step(c, s, a).value, id) && Repeating(Step(c, s, a).value.handler, id)
    ensures s.processing.pending.None? ==> Step(c, s, a).value.processing.pending.None?
    ensures !a.Restart? ==> Step(c, s, a).value.link.sent == s.link.sent
  {
    hide LinkInv, CheckpointOk, OriginsOk, NoRepeats, SerialOk, Decode, Reached, Documents;
    hide R.Step;
    if a.Restart? {
      StoredIsLast(c, s, id);
    }
  }

  /** With nothing pending the stored checkpoint names the last confirmed record. */
  lemma StoredIsLast(c: Config, s: System, id: string)
    requires Inv(c, s) && s.processing.pending.None? && s.processing.lastRecordId == Some(id)
    ensures s.link.runtime.stored.Some? && NamedBy(Some(s.link.runtime.stored.value.position), id)
    ensures IsBridge(c.bridge.sourceType, s.link.runtime.stored.value.position)
  {
    hide R.Inv, Ordered, Flow, OriginsOk, NoRepeats, SerialOk, HandlerOk;
    StoredPosition(c.bridge.env, s.link.runtime);
    StoredOk(c, s);
  }

  /**
   * Repeating the identifier that is pending or last confirmed emits nothing, over any number of requests,
   * time-outs and abandoned handlers. For a confirmed record this holds across restarts as well.
   */
  lemma {:induction false} RetriesEmitNothing(c: Config, before: seq<Action>, after: seq<Action>, id: string)
    requires MonotoneMarkers(c, before + after) && Run(c, before).Some? && Run(c, before + after).Some?
    requires Current(Run(c, before).value, id) && Repeating(Run(c, before).value.handler, id)
    requires OnlyRetries(c, after, id)
    requires Restart in after ==> Run(c, before).value.processing.pending.None?
    ensures Sent !in after
    ensures Restart !in after ==> Run(c, before + after).value.link.sent == Run(c, before).value.link.sent
    ensures Current(Run(c, before + after).value, id) && Repeating(Run(c, before + after).value.handler, id)
    ensures Run(c, before).value.processing.pending.None? ==> Run(c, before + after).value.processing.pending.None?
  {
    hide Step, CarriesId, Current, Inv, MarkerReturns, Repeating;
    if after == [] {
      assert before + after == before;
    } else {
      var front, a := after[..|after| - 1], after[|after| - 1];
      assert (before + after)[..|before + after| - 1] == before + front;
      assert (before + after)[|before + after| - 1] == a;
      assert after == front + [a];
      assert OnlyRetries(c, front, id) by {
        assert forall i | 0 <= i < |front| :: front[i] == after[i];
      }
      RetriesEmitNothing(c, before, front, id);
      RunInv(c, before + front);
      RetryStep(c, Run(c, before + front).value, a, id);
    }
  }

  /** A document that is not the pending one is refused, with the rest of its request, and changes nothing. */
  lemma OthersAreRefused(c: Config, s: System, now: int)
    requires s.handler.Working? && s.handler.next < |s.handler.documents| && s.processing.pending.Some?
    requires var id := s.handler.documents[s.handler.next].0;
             s.processing.lastRecordId != Some(id) && !NamedBy(s.processing.pending, id)
    ensures Step(c, s, Proceed(now)) == Some(s.(handler := Free))
    ensures Success(s, Proceed(now)).None?
  {
  }

  /**
   * A request of several documents is posted again while the one at place `n` is pending and the one before it is the
   * last confirmed: the handler comes to wait for the pending one exactly if it is the first or the second. Otherwise
   * the first document is taken for a new one and the request is refused.
   */
  lemma RetriedArray(c: Config, s: System, n: nat, now: int)
    requires s.handler.Working? && s.handler.next == 0 && n < |s.handler.documents| && DistinctIds(s.handler.documents)
    requires NamedBy(s.processing.pending, s.handler.documents[n].0)
    requires if n > 0 then s.processing.lastRecordId == Some(s.handler.documents[n - 1].0)
             else s.processing.lastRecordId != Some(s.handler.documents[0].0)
    ensures var documents, p := s.handler.documents, s.processing.pending.value;
            var first := Handle(c, s, now);
            && (n == 0 ==> first == s.(handler := Waiting(documents, 0, p)))
            && (n == 1 ==> first == s.(handler := Working(documents, 1))
                           && Handle(c, first, now) == s.(handler := Waiting(documents, 1, p)))
            && (n >= 2 ==> first == s.(handler := Free))
  {
  }

  /** The wait for an emission ends at once, with nothing checkpointed, exactly if the marker goes back to snapshot. */
  lemma StaleExactly(c: Config, s: System)
    requires Inv(c, s) && s.handler.Sending?
    ensures Step(c, Hold(s), Acknowledge).Some? <==> MarkerReturns(s, Sent)
  {
    hide CheckpointOk, OriginsOk, Decode, R.Inv, Flow, IsAfter, NoRepeats, LastIs, Ordered, Checkpointed;
    var x, r := s.handler.origin, s.handler.record;
    DecodedPosition(c, s.posted, r, x);
    if Prior(s.link).Some? {
      PriorIsBridge(c, s);
      StaleAckExactly(c.bridge.sourceType, s.link, r);
    }
  }

  /**
   * The returning marker lets the request go on as if the document had been confirmed, to success if it is the last
   * one. The sink stays as it is, so the success is justified exactly if the document had been delivered before.
   */
  lemma StaleSuccess(c: Config, s: System)
    requires Inv(c, s) && MarkerReturns(s, Sent)
    ensures var documents, n := s.handler.documents, s.handler.next;
            var t := Confirm(Hold(s));
            && Step(c, s, Sent) == Some(Hold(s)) && Step(c, Hold(s), Acknowledge) == Some(t)
            && (n + 1 == |documents| ==> Success(t, Reply) == Some(documents))
            && t.link.runtime == s.link.runtime
            && ((forall i | 0 <= i <= n :: Delivered(c, t.posted, t.link.runtime.sink, documents[i].0))
                <==> Delivered(c, s.posted, s.link.runtime.sink, documents[n].0))
  {
    hide LinkInv, CheckpointOk, OriginsOk, PendingOk, NoRepeats, Decode, Delivered, Checkpointed, Reached;
    StaleExactly(c, s);
    forall i | 0 <= i < s.handler.next
      ensures Delivered(c, s.posted, s.link.runtime.sink, s.handler.documents[i].0)
    {
      CheckpointedIsDelivered(c, s, s.handler.documents[i].0);
    }
  }

  lemma PriorIsBridge(c: Config, s: System)
    requires Inv(c, s) && Prior(s.link).Some?
    ensures IsBridge(c.bridge.sourceType, Prior(s.link).value)
  {
    hide R.Inv, CheckpointOk, OriginsOk, HandlerOk, PendingOk, SerialOk, NoRepeats, Flow;
  }
}
