/**
 * The delivery pipeline of rustium-core (runtime.rs) as a step system: batch, deliver with retry,
 * save a checkpoint, acknowledge the source, release signals. A run is a sequence of actions, and
 * every nondeterministic answer of the environment (sink, store, clock, cancellation) is an action.
 */
module Runtime {
  import opened Prelude
  import opened Subsequences
  import opened Positions
  import opened Events
  import opened Backoff

  datatype PendingBatch = PendingBatch(
    encoded: seq<EncodedEvent>, highest: Option<SourcePosition>, signals: seq<nat>)

  /** Where the single pipeline task stands; each phase ends at an await. */
  datatype Phase =
    | Idle
    | Flushing
    | Writing(batch: seq<EncodedEvent>, target: SourcePosition, retry: RetryState)
    | Sleeping(batch: seq<EncodedEvent>, target: SourcePosition, retry: RetryState)
    | Saving(target: SourcePosition)
    | Publishing(target: SourcePosition)
    | Releasing
    | Halted(ok: bool)

  /** A saved checkpoint and the number of records of this run it covers. */
  datatype Saved = Saved(upTo: nat, checkpoint: Checkpoint)

  /**
   * What happened since the process started; no step reads it. The consumed records are those covered by
   * a saved checkpoint (`settled`) followed by the others (`open`).
   */
  datatype History = History(
    resumed: Option<Checkpoint>, base: seq<EncodedEvent>, settled: seq<SourceRecord>, open: seq<SourceRecord>,
    saves: seq<Saved>, acks: seq<SourcePosition>, released: seq<nat>)

  function Consumed(h: History): seq<SourceRecord> { h.settled + h.open }

  datatype State = State(
    sink: seq<EncodedEvent>, stored: Option<Checkpoint>,
    pending: PendingBatch, phase: Phase, stopping: bool, snapshotCompleted: bool,
    connectorState: Option<ConnectorState>, acknowledged: Option<SourcePosition>,
    history: History)

  datatype WriteOutcome = Accepted | Retryable | Fatal

  datatype SaveOutcome = Stored | Rejected | StoredButFailed

  datatype Action =
    | Tick
    | Consume(record: SourceRecord)
    | SourceFailed
    | Break
    | Begin
    | Deliver(appended: nat, outcome: WriteOutcome)
    | Wake
    | CancelSleep
    | Save(result: SaveOutcome)
    | Publish(open: bool)
    | Release
    | Finish

  function PositionOf(c: Option<Checkpoint>): Option<SourcePosition> {
    if c.Some? then Some(c.value.position) else None
  }

  const EMPTY_BATCH := PendingBatch([], None, [])

  /** A process that starts over what is durable: the sink log and the loaded checkpoint. */
  function Start(sink: seq<EncodedEvent>, stored: Option<Checkpoint>): State {
    State(sink, stored, EMPTY_BATCH, Idle, false,
          stored.Some? && stored.value.snapshotCompleted,
          if stored.Some? then stored.value.connectorState else None,
          PositionOf(stored),
          History(stored, sink, [], [], [], [], []))
  }

  function Halt(s: State, ok: bool): State { s.(phase := Halted(ok)) }

  /** A flush that has returned: back to the select loop, or out of it when it was the final flush. */
  function EndFlush(s: State): State {
    s.(phase := if s.stopping then Halted(true) else Idle)
  }

  function BeginFlush(env: Env, s: State): State {
    match s.pending.highest
    case None => EndFlush(s)
    case Some(target) =>
      var rest := PendingBatch([], None, s.pending.signals);
      if s.pending.encoded == [] then s.(pending := rest, phase := Saving(target))
      else s.(pending := rest, phase := Writing(s.pending.encoded, target, RetryState(0, env.initialDelay)))
  }

  /** Whether consuming a record forces a flush. */
  predicate Flushes(env: Env, boundary: RecordBoundary, encoded: seq<EncodedEvent>) {
    match boundary
    case SnapshotComplete => true
    case TransactionCommit => true
    case Data => |encoded| >= env.maxBatchSize
    case Heartbeat => encoded == []
  }

  predicate MovesBackwards(pending: PendingBatch, position: SourcePosition) {
    && pending.highest.Some?
    && !IsAfter(position, pending.highest.value)
    && position != pending.highest.value
  }

  function Admit(s: State, r: SourceRecord, encoded: seq<EncodedEvent>): State {
    s.(pending := PendingBatch(s.pending.encoded + encoded, Some(r.position), s.pending.signals + r.signals),
       snapshotCompleted := s.snapshotCompleted || r.boundary == SnapshotComplete,
       connectorState := if r.connectorState.Some? then r.connectorState else s.connectorState,
       history := s.history.(open := s.history.open + [r]))
  }

  function ConsumeRecord(env: Env, s: State, r: SourceRecord): State {
    if MovesBackwards(s.pending, r.position) then Halt(s, false)
    else
      match RecordEncoding(env, r)
      case None => Halt(s, false)
      case Some(encoded) =>
        var t := Admit(s, r, encoded);
        if Flushes(env, r.boundary, t.pending.encoded) then t.(phase := Flushing) else t
  }

  predicate Exhausted(env: Env, retry: RetryState) {
    env.maxRetries >= 0 && retry.attempts >= env.maxRetries
  }

  function DeliverBatch(env: Env, s: State, appended: nat, outcome: WriteOutcome): State
    requires s.phase.Writing? && appended <= |s.phase.batch|
  {
    var t := s.(sink := s.sink + s.phase.batch[..appended]);
    match outcome
    case Accepted => t.(phase := Saving(s.phase.target))
    case Fatal => Halt(t, false)
    case Retryable =>
      if Exhausted(env, s.phase.retry) then Halt(t, false)
      else
        t.(phase := Sleeping(s.phase.batch, s.phase.target,
                             RetryState(s.phase.retry.attempts + 1, s.phase.retry.delay)))
  }

  function Store(s: State, target: SourcePosition): State {
    var c := Checkpoint(target, s.snapshotCompleted, s.connectorState);
    var settled := Consumed(s.history);
    s.(stored := Some(c),
       history := s.history.(settled := settled, open := [], saves := s.history.saves + [Saved(|settled|, c)]))
  }

  function SaveCheckpoint(s: State, result: SaveOutcome): State
    requires s.phase.Saving?
  {
    match result
    case Rejected => Halt(s, false)
    case StoredButFailed => Halt(Store(s, s.phase.target), false)
    case Stored => Store(s, s.phase.target).(phase := Publishing(s.phase.target))
  }

  function PublishAck(s: State, open: bool): State
    requires s.phase.Publishing?
  {
    if open then
      s.(acknowledged := Some(s.phase.target), phase := Releasing,
         history := s.history.(acks := s.history.acks + [s.phase.target]))
    else Halt(s, false)
  }

  function ReleaseSignal(s: State): State
    requires s.pending.signals != []
  {
    s.(pending := s.pending.(signals := s.pending.signals[1..]),
       history := s.history.(released := s.history.released + [s.pending.signals[0]]))
  }

  /** One step; `None` when the action is not possible in the state. */
  function Step(env: Env, s: State, a: Action): Option<State> {
    match a
    case Tick => if s.phase.Idle? then Some(s.(phase := Flushing)) else None
    case Consume(r) => if s.phase.Idle? then Some(ConsumeRecord(env, s, r)) else None
    case SourceFailed => if s.phase.Idle? then Some(Halt(s, false)) else None
    case Break => if s.phase.Idle? then Some(s.(stopping := true, phase := Flushing)) else None
    case Begin => if s.phase.Flushing? then Some(BeginFlush(env, s)) else None
    case Deliver(n, outcome) =>
      if s.phase.Writing? && n <= |s.phase.batch| && (outcome == Accepted ==> n == |s.phase.batch|)
      then Some(DeliverBatch(env, s, n, outcome)) else None
    case Wake =>
      if s.phase.Sleeping? then
        Some(s.(phase := Writing(s.phase.batch, s.phase.target,
                                 RetryState(s.phase.retry.attempts, NextDelay(s.phase.retry.delay, env.maxDelay)))))
      else None
    case CancelSleep => if s.phase.Sleeping? then Some(Halt(s, true)) else None
    case Save(result) => if s.phase.Saving? then Some(SaveCheckpoint(s, result)) else None
    case Publish(open) => if s.phase.Publishing? then Some(PublishAck(s, open)) else None
    case Release => if s.phase.Releasing? && s.pending.signals != [] then Some(ReleaseSignal(s)) else None
    case Finish => if s.phase.Releasing? && s.pending.signals == [] then Some(EndFlush(s)) else None
  }

  function Run(env: Env, s: State, actions: seq<Action>): Option<State> {
    if actions == [] then Some(s)
    else
      match Run(env, s, actions[..|actions| - 1])
      case None => None
      case Some(t) => Step(env, t, actions[|actions| - 1])
  }

  // ---- What every step keeps ----

  /** One saved checkpoint is the fold of the prefix it covers, and that prefix is in the sink, in order. */
  ghost predicate SaveOk(
    env: Env, resumed: Option<Checkpoint>, settled: seq<SourceRecord>, written: seq<EncodedEvent>, v: Saved)
  {
    && 0 < v.upTo <= |settled|
    && v.checkpoint == CheckpointAfter(resumed, settled[..v.upTo])
    && Subseq(Encodings(env, settled[..v.upTo]), written)
  }

  ghost predicate SavesOk(
    env: Env, resumed: Option<Checkpoint>, settled: seq<SourceRecord>, written: seq<EncodedEvent>, saves: seq<Saved>)
  {
    && (forall i | 0 <= i < |saves| :: SaveOk(env, resumed, settled, written, saves[i]))
    && (forall i, j | 0 <= i < j < |saves| :: saves[i].upTo < saves[j].upTo)
    && |settled| == (if saves == [] then 0 else saves[|saves| - 1].upTo)
    && Subseq(Encodings(env, settled), written)
  }

  /** Acknowledged positions are the saved ones, in order and at most one behind. */
  ghost predicate AcksOk(saves: seq<Saved>, acks: seq<SourcePosition>) {
    && |acks| <= |saves| <= |acks| + 1
    && forall i | 0 <= i < |acks| :: acks[i] == saves[i].checkpoint.position
  }

  function LastSaved(resumed: Option<Checkpoint>, saves: seq<Saved>): Option<Checkpoint> {
    if saves == [] then resumed else Some(saves[|saves| - 1].checkpoint)
  }

  function LastAck(resumed: Option<Checkpoint>, acks: seq<SourcePosition>): Option<SourcePosition> {
    if acks == [] then PositionOf(resumed) else Some(acks[|acks| - 1])
  }

  function LastPosition(rs: seq<SourceRecord>): Option<SourcePosition> {
    if rs == [] then None else Some(rs[|rs| - 1].position)
  }

  /** The sink log is what it was at the start, followed by what this run has written. */
  ghost predicate HistoryOk(env: Env, h: History, sink: seq<EncodedEvent>) {
    && h.base <= sink
    && SavesOk(env, h.resumed, h.settled, sink[|h.base|..], h.saves)
    && AcksOk(h.saves, h.acks)
  }

  ghost predicate FoldOk(h: History, snapshotCompleted: bool, connectorState: Option<ConnectorState>) {
    && snapshotCompleted == SnapshotSeen(h.resumed, Consumed(h))
    && connectorState == LatestState(h.resumed, Consumed(h))
  }

  ghost predicate Accumulating(env: Env, h: History, pending: PendingBatch) {
    && pending == PendingBatch(Encodings(env, h.open), LastPosition(h.open), Signals(h.open))
    && h.released == Signals(h.settled)
    && |h.acks| == |h.saves|
  }

  ghost predicate InFlight(h: History, pending: PendingBatch, target: SourcePosition) {
    && LastPosition(h.open) == Some(target)
    && pending == PendingBatch([], None, Signals(h.open))
    && h.released == Signals(h.settled)
    && |h.acks| == |h.saves|
  }

  ghost predicate Settling(h: History, pending: PendingBatch) {
    && h.open == []
    && pending.highest.None? && pending.encoded == []
    && h.released + pending.signals == Signals(h.settled)
  }

  /** What the process holds in memory is exactly the open part of the history. */
  ghost predicate PendingOk(env: Env, h: History, sink: seq<EncodedEvent>, pending: PendingBatch, phase: Phase) {
    match phase
    case Idle => Accumulating(env, h, pending)
    case Flushing => Accumulating(env, h, pending)
    case Writing(batch, target, _) => InFlight(h, pending, target) && batch == Encodings(env, h.open)
    case Sleeping(batch, target, _) => InFlight(h, pending, target) && batch == Encodings(env, h.open)
    case Saving(target) =>
      && InFlight(h, pending, target)
      && |h.base| <= |sink|
      && Subseq(Encodings(env, Consumed(h)), sink[|h.base|..])
    case Publishing(target) =>
      && Settling(h, pending) && LastPosition(h.settled) == Some(target) && |h.saves| == |h.acks| + 1
    case Releasing => Settling(h, pending) && |h.acks| == |h.saves|
    case Halted(_) => h.released <= Signals(h.settled)
  }

  ghost predicate AllEncode(env: Env, rs: seq<SourceRecord>) {
    forall i | 0 <= i < |rs| :: RecordEncoding(env, rs[i]).Some?
  }

  ghost predicate Inv(env: Env, s: State) {
    && AllEncode(env, Consumed(s.history))
    && HistoryOk(env, s.history, s.sink)
    && s.stored == LastSaved(s.history.resumed, s.history.saves)
    && s.acknowledged == LastAck(s.history.resumed, s.history.acks)
    && FoldOk(s.history, s.snapshotCompleted, s.connectorState)
    && PendingOk(env, s.history, s.sink, s.pending, s.phase)
  }

  lemma StartInv(env: Env, sink: seq<EncodedEvent>, stored: Option<Checkpoint>)
    ensures Inv(env, Start(sink, stored))
  {
    hide Subseq, Encodings, Signals, SnapshotSeen, LatestState;
    NothingConsumed(env);
    NothingFolded(stored);
    NothingSkipped<EncodedEvent>();
    assert sink[|sink|..] == [] && Consumed(Start(sink, stored).history) == [];
  }

  /** A batch accepted as a whole completes the encodings of everything consumed. */
  lemma Accept(env: Env, h: History, written: seq<EncodedEvent>, batch: seq<EncodedEvent>)
    requires Subseq(Encodings(env, h.settled), written) && batch == Encodings(env, h.open)
    ensures Subseq(Encodings(env, Consumed(h)), written + batch)
  {
    SubseqTake(Encodings(env, h.settled), written, batch);
    EncodingsConcat(env, h.settled, h.open);
  }

  lemma BeginFlushInv(env: Env, s: State)
    requires Inv(env, s) && s.phase.Flushing?
    ensures Inv(env, BeginFlush(env, s))
  {
    hide Subseq, Encodings, Signals, SnapshotSeen, LatestState, HistoryOk, AllEncode;
    if s.pending.highest.Some? && s.pending.encoded == [] {
      WrittenSoFar(env, s.history, s.sink);
      var written := s.sink[|s.history.base|..];
      Accept(env, s.history, written, []);
      assert written + [] == written;
    } else if s.pending.highest.None? {
      NothingConsumed(env);
    }
  }

  lemma WrittenSoFar(env: Env, h: History, sink: seq<EncodedEvent>)
    requires HistoryOk(env, h, sink)
    ensures h.base <= sink && Subseq(Encodings(env, h.settled), sink[|h.base|..])
  {
  }

  lemma AdmitInv(env: Env, s: State, r: SourceRecord)
    requires Inv(env, s) && s.phase.Idle? && RecordEncoding(env, r).Some?
    ensures Inv(env, Admit(s, r, RecordEncoding(env, r).value))
  {
    hide Subseq, SnapshotSeen, LatestState, Encodings, Signals, SavesOk, AcksOk, AllEncode;
    var h := s.history;
    EncodingsSnoc(env, h.open, r);
    SignalsSnoc(h.open, r);
    FoldSnoc(h.resumed, Consumed(h), r);
    assert h.settled + (h.open + [r]) == Consumed(h) + [r];
    AllEncodeSnoc(env, Consumed(h), r);
  }

  lemma AllEncodeSnoc(env: Env, rs: seq<SourceRecord>, r: SourceRecord)
    requires AllEncode(env, rs) && RecordEncoding(env, r).Some?
    ensures AllEncode(env, rs + [r])
  {
  }

  lemma ConsumeInv(env: Env, s: State, r: SourceRecord)
    requires Inv(env, s) && s.phase.Idle?
    ensures Inv(env, ConsumeRecord(env, s, r))
  {
    hide Subseq, Encodings, Signals, SnapshotSeen, LatestState, IsAfter, AllEncode;
    if !MovesBackwards(s.pending, r.position) && RecordEncoding(env, r).Some? {
      AdmitInv(env, s, r);
    }
  }

  lemma SavesGrow(
      env: Env, resumed: Option<Checkpoint>, settled: seq<SourceRecord>, written: seq<EncodedEvent>,
      saves: seq<Saved>, more: seq<EncodedEvent>)
    requires SavesOk(env, resumed, settled, written, saves)
    ensures SavesOk(env, resumed, settled, written + more, saves)
  {
    forall i | 0 <= i < |saves|
      ensures SaveOk(env, resumed, settled, written + more, saves[i])
    {
      SubseqSkip(Encodings(env, settled[..saves[i].upTo]), written, more);
    }
    SubseqSkip(Encodings(env, settled), written, more);
  }

  lemma SinkGrows(env: Env, h: History, sink: seq<EncodedEvent>, more: seq<EncodedEvent>)
    requires HistoryOk(env, h, sink)
    ensures HistoryOk(env, h, sink + more)
    ensures (sink + more)[|h.base|..] == sink[|h.base|..] + more
  {
    hide Subseq, Encodings, Signals, SnapshotSeen, LatestState, IsAfter;
    assert (sink + more)[|h.base|..] == sink[|h.base|..] + more;
    SavesGrow(env, h.resumed, h.settled, sink[|h.base|..], h.saves, more);
  }

  /** Any part of the batch may reach the sink while the batch is in flight. */
  lemma PartialWrite(env: Env, s: State, more: seq<EncodedEvent>)
    requires Inv(env, s) && s.phase.Writing?
    ensures Inv(env, s.(sink := s.sink + more))
  {
    hide Subseq, Encodings, Signals, SnapshotSeen, LatestState, SavesOk, AllEncode;
    SinkGrows(env, s.history, s.sink, more);
  }

  lemma FullWrite(env: Env, s: State)
    requires Inv(env, s) && s.phase.Writing?
    ensures Inv(env, s.(sink := s.sink + s.phase.batch, phase := Saving(s.phase.target)))
  {
    hide Subseq, Encodings, Signals, SnapshotSeen, LatestState, AllEncode;
    var h := s.history;
    SinkGrows(env, h, s.sink, s.phase.batch);
    Accept(env, h, s.sink[|h.base|..], s.phase.batch);
  }

  lemma DeliverInv(env: Env, s: State, n: nat, outcome: WriteOutcome)
    requires Inv(env, s) && s.phase.Writing? && n <= |s.phase.batch|
    requires outcome == Accepted ==> n == |s.phase.batch|
    ensures Inv(env, DeliverBatch(env, s, n, outcome))
  {
    hide Subseq, Encodings, Signals, HistoryOk, FoldOk, AllEncode;
    if outcome == Accepted {
      assert s.phase.batch[..n] == s.phase.batch;
      FullWrite(env, s);
    } else {
      PartialWrite(env, s, s.phase.batch[..n]);
    }
  }

  lemma SavesSnoc(
      env: Env, resumed: Option<Checkpoint>, settled: seq<SourceRecord>, open: seq<SourceRecord>,
      written: seq<EncodedEvent>, saves: seq<Saved>, c: Checkpoint)
    requires SavesOk(env, resumed, settled, written, saves)
    requires open != []
    requires c == CheckpointAfter(resumed, settled + open)
    requires Subseq(Encodings(env, settled + open), written)
    ensures SavesOk(env, resumed, settled + open, written, saves + [Saved(|settled + open|, c)])
  {
    var all, v := settled + open, Saved(|settled + open|, c);
    var more := saves + [v];
    assert all[..|all|] == all;
    forall i | 0 <= i < |more|
      ensures SaveOk(env, resumed, all, written, more[i])
    {
      if i < |saves| {
        assert SaveOk(env, resumed, settled, written, saves[i]);
        assert all[..saves[i].upTo] == settled[..saves[i].upTo];
      } else {
        assert more[i] == v;
      }
    }
    forall i, j | 0 <= i < j < |more|
      ensures more[i].upTo < more[j].upTo
    {
      if j == |saves| {
        assert SaveOk(env, resumed, settled, written, saves[i]);
      }
    }
  }

  lemma StoreInv(env: Env, s: State, phase: Phase)
    requires Inv(env, s) && s.phase.Saving?
    requires phase == Publishing(s.phase.target) || phase.Halted?
    ensures Inv(env, Store(s, s.phase.target).(phase := phase))
  {
    hide Subseq, Encodings, Signals, SnapshotSeen, LatestState, IsAfter, SavesOk, AllEncode;
    var h := s.history;
    var c := Checkpoint(s.phase.target, s.snapshotCompleted, s.connectorState);
    SavesSnoc(env, h.resumed, h.settled, h.open, s.sink[|h.base|..], h.saves, c);
    SignalsConcat(h.settled, h.open);
    var k := Store(s, s.phase.target).history;
    assert Consumed(k) == Consumed(h);
    assert k.saves[|k.saves| - 1].checkpoint == c;
  }

  lemma SaveInv(env: Env, s: State, result: SaveOutcome)
    requires Inv(env, s) && s.phase.Saving?
    ensures Inv(env, SaveCheckpoint(s, result))
  {
    hide Subseq, Encodings, Signals, SnapshotSeen, LatestState, IsAfter;
    match result
    case Rejected =>
    case StoredButFailed => StoreInv(env, s, Halted(false));
    case Stored => StoreInv(env, s, Publishing(s.phase.target));
  }

  lemma PublishInv(env: Env, s: State, open: bool)
    requires Inv(env, s) && s.phase.Publishing?
    ensures Inv(env, PublishAck(s, open))
  {
    hide Subseq, Encodings, Signals, SnapshotSeen, LatestState, IsAfter, SavesOk, AllEncode;
    LastSavePosition(env, s.history, s.sink);
  }

  lemma LastSavePosition(env: Env, h: History, sink: seq<EncodedEvent>)
    requires HistoryOk(env, h, sink) && h.saves != []
    ensures LastPosition(h.settled) == Some(h.saves[|h.saves| - 1].checkpoint.position)
  {
    hide Subseq, Encodings, SnapshotSeen, LatestState;
    var v := h.saves[|h.saves| - 1];
    assert SaveOk(env, h.resumed, h.settled, sink[|h.base|..], v);
    assert h.settled[..v.upTo] == h.settled;
  }

  lemma ReleaseInv(env: Env, s: State)
    requires Inv(env, s) && s.phase.Releasing? && s.pending.signals != []
    ensures Inv(env, ReleaseSignal(s))
  {
    hide Subseq, Encodings, Signals, SnapshotSeen, LatestState, IsAfter, AllEncode;
    assert s.history.released + s.pending.signals
        == s.history.released + [s.pending.signals[0]] + s.pending.signals[1..];
  }

  lemma FinishInv(env: Env, s: State)
    requires Inv(env, s) && s.phase.Releasing? && s.pending.signals == []
    ensures Inv(env, EndFlush(s))
  {
    hide Subseq, Encodings, Signals, SnapshotSeen, LatestState, IsAfter, AllEncode;
    NothingConsumed(env);
    assert s.history.released + [] == s.history.released;
  }

  /** Every step keeps the invariant. */
  lemma StepInv(env: Env, s: State, a: Action)
    requires Inv(env, s) && Step(env, s, a).Some?
    ensures Inv(env, Step(env, s, a).value)
  {
    hide Subseq, Encodings, Signals, SnapshotSeen, LatestState, IsAfter, AllEncode;
    match a
    case Tick =>
    case Consume(r) => ConsumeInv(env, s, r);
    case SourceFailed =>
    case Break =>
    case Begin => BeginFlushInv(env, s);
    case Deliver(n, outcome) => DeliverInv(env, s, n, outcome);
    case Wake =>
    case CancelSleep =>
    case Save(result) => SaveInv(env, s, result);
    case Publish(open) => PublishInv(env, s, open);
    case Release => ReleaseInv(env, s);
    case Finish => FinishInv(env, s);
  }

  /** The step that each busy phase waits for. */
  lemma NextStep(env: Env, s: State, result: SaveOutcome, open: bool)
    ensures s.phase.Flushing? ==> Step(env, s, Begin) == Some(BeginFlush(env, s))
    ensures s.phase.Saving? ==> Step(env, s, Save(result)) == Some(SaveCheckpoint(s, result))
    ensures s.phase.Publishing? ==> Step(env, s, Publish(open)) == Some(PublishAck(s, open))
    ensures s.phase.Releasing? && s.pending.signals != [] ==> Step(env, s, Release) == Some(ReleaseSignal(s))
    ensures s.phase.Releasing? && s.pending.signals == [] ==> Step(env, s, Finish) == Some(EndFlush(s))
  {
    hide BeginFlush, SaveCheckpoint, PublishAck, ReleaseSignal, EndFlush;
  }

  /** What an idle pipeline does with a record. */
  lemma ConsumeEffect(env: Env, s: State, r: SourceRecord)
    requires s.phase.Idle?
    ensures Step(env, s, Consume(r)) ==
            Some(if MovesBackwards(s.pending, r.position) || RecordEncoding(env, r).None? then Halt(s, false)
                 else
                   var t := Admit(s, r, RecordEncoding(env, r).value);
                   t.(phase := if Flushes(env, r.boundary, t.pending.encoded) then Flushing else Idle))
  {
    hide MovesBackwards, Flushes, RecordEncoding;
  }

  /** What one call of the sink changes. */
  lemma DeliverEffect(env: Env, s: State, n: nat, outcome: WriteOutcome)
    requires s.phase.Writing? && n <= |s.phase.batch| && (outcome == Accepted ==> n == |s.phase.batch|)
    ensures Step(env, s, Deliver(n, outcome)) == Some(DeliverBatch(env, s, n, outcome))
    ensures var t := DeliverBatch(env, s, n, outcome);
            && t == s.(sink := s.sink + s.phase.batch[..n], phase := t.phase)
            && match outcome
               case Accepted => t.phase == Saving(s.phase.target)
               case Fatal => t.phase == Halted(false)
               case Retryable =>
                 t.phase == (if Exhausted(env, s.phase.retry) then Halted(false)
                             else Sleeping(s.phase.batch, s.phase.target,
                                           RetryState(s.phase.retry.attempts + 1, s.phase.retry.delay)))
  {
  }

  lemma {:induction false} RunInv(env: Env, s: State, actions: seq<Action>)
    requires Inv(env, s) && Run(env, s, actions).Some?
    ensures Inv(env, Run(env, s, actions).value)
  {
    if actions != [] {
      RunInv(env, s, actions[..|actions| - 1]);
      StepInv(env, Run(env, s, actions[..|actions| - 1]).value, actions[|actions| - 1]);
    }
  }
}
