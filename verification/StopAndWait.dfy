/**
 * The link between a bridge source and the pipeline: records wait in a channel, and the bridge compares the
 * acknowledged position with the one it emitted (rustium-debezium, source.rs, `wait_for_ack`).
 */
module StopAndWait {
  import opened Prelude
  import opened Subsequences
  import opened Positions
  import opened Events
  import R = Runtime
  import opened Backoff

  /** `queue` is the channel; `sent` lists the records the bridge has emitted in this process. */
  datatype Link = Link(runtime: R.State, queue: seq<SourceRecord>, sent: seq<SourceRecord>)

  /** What `wait_for_ack` tests. */
  predicate Reached(acknowledged: Option<SourcePosition>, expected: SourcePosition) {
    acknowledged.Some? && (acknowledged.value == expected || IsAfter(acknowledged.value, expected))
  }

  /** The position before the next emission: the last emitted one, else the resumed one. */
  function Prior(l: Link): Option<SourcePosition> {
    if l.sent == [] then R.PositionOf(l.runtime.history.resumed) else Some(l.sent[|l.sent| - 1].position)
  }

  predicate IsBridge(sourceType: string, p: SourcePosition) {
    p.Debezium? && p.debezium.connector == sourceType
  }

  /** `a` was emitted before `b`, and the snapshot marker has not come back in between. */
  predicate Older(a: SourcePosition, b: SourcePosition) {
    && a.Debezium? && b.Debezium?
    && a.debezium.eventSerial < b.debezium.eventSerial
    && (a.debezium.snapshot || !b.debezium.snapshot)
  }

  /** Serials rise and markers never return to snapshot, from the resumed position on. */
  ghost predicate Ordered(sourceType: string, resumed: Option<SourcePosition>, sent: seq<SourceRecord>) {
    && (resumed.Some? ==> IsBridge(sourceType, resumed.value))
    && (forall i | 0 <= i < |sent| :: IsBridge(sourceType, sent[i].position))
    && (forall i | 0 <= i < |sent| && resumed.Some? :: Older(resumed.value, sent[i].position))
    && (forall i, j | 0 <= i < j < |sent| :: Older(sent[i].position, sent[j].position))
  }

  /** Every emitted record has been consumed or waits in the channel, in order. */
  ghost predicate Flow(l: Link) {
    var consumed := R.Consumed(l.runtime.history);
    if l.runtime.phase.Halted? then consumed <= l.sent else consumed + l.queue == l.sent
  }

  ghost predicate LinkInv(env: Env, sourceType: string, l: Link) {
    && R.Inv(env, l.runtime)
    && Flow(l)
    && Ordered(sourceType, R.PositionOf(l.runtime.history.resumed), l.sent)
  }

  /** Every emitted record is covered by a saved checkpoint. */
  ghost predicate Settled(l: Link) { l.runtime.history.settled == l.sent }

  /** All but possibly the last emitted record are. */
  ghost predicate AlmostSettled(l: Link) {
    l.sent != [] && (Settled(l) || l.runtime.history.settled == l.sent[..|l.sent| - 1])
  }

  lemma SettledPrefix(env: Env, sourceType: string, l: Link)
    requires LinkInv(env, sourceType, l)
    ensures l.runtime.history.settled <= R.Consumed(l.runtime.history) <= l.sent
  {
    hide R.Inv, Ordered;
  }

  /** What a pipeline step other than a handover does to the parts of the state that the bridge can see. */
  lemma PipelineGrows(env: Env, s: R.State, a: R.Action)
    requires !a.Consume? && R.Step(env, s, a).Some?
    ensures var t := R.Step(env, s, a).value;
            && s.sink <= t.sink
            && t.history.resumed == s.history.resumed
            && s.history.settled <= t.history.settled
            && !s.phase.Halted?
            && R.Consumed(t.history) == R.Consumed(s.history)
            && (!a.Publish? ==> t.acknowledged == s.acknowledged)
  {
    hide R.Exhausted, NextDelay;
    assert R.Consumed(s.history) + [] == R.Consumed(s.history);
  }

  /** A handover adds the record to the consumed ones, or stops the pipeline. */
  lemma HandoverGrows(env: Env, s: R.State, r: SourceRecord)
    requires R.Step(env, s, R.Consume(r)).Some?
    ensures var t := R.Step(env, s, R.Consume(r)).value;
            && t.sink == s.sink
            && t.history.resumed == s.history.resumed
            && t.history.settled == s.history.settled
            && !s.phase.Halted?
            && (R.Consumed(t.history) == R.Consumed(s.history) + [r]
                || (t.phase.Halted? && R.Consumed(t.history) == R.Consumed(s.history)))
            && t.acknowledged == s.acknowledged
  {
    hide RecordEncoding, R.MovesBackwards, R.Flushes;
    R.ConsumeEffect(env, s, r);
    var h := s.history;
    assert h.settled + (h.open + [r]) == R.Consumed(h) + [r];
  }

  function Pipeline(env: Env, l: Link, a: R.Action): Option<Link> {
    if a.Consume? then None
    else
      match R.Step(env, l.runtime, a)
      case None => None
      case Some(t) => Some(l.(runtime := t))
  }

  /** The pipeline receives the head of the channel. */
  function Hand(env: Env, l: Link): Option<Link> {
    if l.queue == [] then None
    else
      match R.Step(env, l.runtime, R.Consume(l.queue[0]))
      case None => None
      case Some(t) => Some(l.(runtime := t, queue := l.queue[1..]))
  }

  function Emit(l: Link, r: SourceRecord): Link {
    l.(queue := l.queue + [r], sent := l.sent + [r])
  }

  lemma PipelineKeeps(env: Env, sourceType: string, l: Link, a: R.Action)
    requires LinkInv(env, sourceType, l) && Pipeline(env, l, a).Some?
    ensures LinkInv(env, sourceType, Pipeline(env, l, a).value)
  {
    hide R.Inv, R.Step, Ordered;
    R.StepInv(env, l.runtime, a);
    PipelineGrows(env, l.runtime, a);
    var consumed := R.Consumed(l.runtime.history);
    assert consumed <= consumed + l.queue;
  }

  lemma HandKeeps(env: Env, sourceType: string, l: Link)
    requires LinkInv(env, sourceType, l) && Hand(env, l).Some?
    ensures LinkInv(env, sourceType, Hand(env, l).value)
  {
    hide R.Inv, R.Step, Ordered;
    R.StepInv(env, l.runtime, R.Consume(l.queue[0]));
    HandoverGrows(env, l.runtime, l.queue[0]);
    var consumed := R.Consumed(l.runtime.history);
    assert consumed + [l.queue[0]] + l.queue[1..] == consumed + l.queue;
    assert consumed <= consumed + l.queue;
    assert consumed + [l.queue[0]] <= consumed + l.queue;
  }

  lemma OlderTransitive(a: SourcePosition, b: SourcePosition, c: SourcePosition)
    requires Older(a, b) && Older(b, c)
    ensures Older(a, c)
  {
  }

  lemma OrderedSnoc(sourceType: string, resumed: Option<SourcePosition>, sent: seq<SourceRecord>, r: SourceRecord)
    requires Ordered(sourceType, resumed, sent) && IsBridge(sourceType, r.position)
    requires sent == [] && resumed.Some? ==> Older(resumed.value, r.position)
    requires sent != [] ==> Older(sent[|sent| - 1].position, r.position)
    ensures Ordered(sourceType, resumed, sent + [r])
  {
    hide IsBridge;
    if sent != [] {
      var last := sent[|sent| - 1].position;
      forall i | 0 <= i < |sent|
        ensures Older(sent[i].position, r.position)
      {
        if i < |sent| - 1 {
          OlderTransitive(sent[i].position, last, r.position);
        }
      }
      if resumed.Some? {
        OlderTransitive(resumed.value, last, r.position);
      }
    }
  }

  lemma EmitKeeps(env: Env, sourceType: string, l: Link, r: SourceRecord)
    requires LinkInv(env, sourceType, l) && IsBridge(sourceType, r.position)
    requires Prior(l).Some? ==> Older(Prior(l).value, r.position)
    ensures LinkInv(env, sourceType, Emit(l, r))
  {
    hide R.Inv, Ordered, IsBridge, Older;
    OrderedSnoc(sourceType, R.PositionOf(l.runtime.history.resumed), l.sent, r);
    var consumed := R.Consumed(l.runtime.history);
    assert consumed + (l.queue + [r]) == consumed + l.queue + [r];
  }

  /** A restarted process has emitted nothing yet. */
  lemma RestartKeeps(env: Env, sourceType: string, sink: seq<EncodedEvent>, stored: Option<Checkpoint>)
    requires stored.Some? ==> IsBridge(sourceType, stored.value.position)
    ensures LinkInv(env, sourceType, Link(R.Start(sink, stored), [], []))
  {
    hide R.Inv;
    R.StartInv(env, sink, stored);
  }

  lemma NotReachedByOlder(sourceType: string, a: SourcePosition, b: SourcePosition)
    requires IsBridge(sourceType, a) && IsBridge(sourceType, b) && Older(a, b)
    ensures !Reached(Some(a), b)
  {
    hide IsAfter;
    DebeziumOrder(a.debezium, b.debezium);
  }

  /** What the acknowledged position can be. */
  lemma AcknowledgedCases(env: Env, l: Link)
    requires R.Inv(env, l.runtime)
    ensures || l.runtime.acknowledged == R.PositionOf(l.runtime.history.resumed)
            || exists k | 0 <= k < |l.runtime.history.settled| ::
                 l.runtime.acknowledged == Some(l.runtime.history.settled[k].position)
  {
    hide Subseq, Encodings, Signals, SnapshotSeen, LatestState, R.PendingOk, R.FoldOk, R.AllEncode;
    var h, s := l.runtime.history, l.runtime;
    if h.acks != [] {
      var i := |h.acks| - 1;
      var v := h.saves[i];
      assert R.SaveOk(env, h.resumed, h.settled, s.sink[|h.base|..], v);
      assert s.acknowledged == Some(h.settled[v.upTo - 1].position);
    }
  }

  /** With ordered markers a wait ends only when the record waited for has itself been checkpointed. */
  lemma AckSettles(env: Env, sourceType: string, l: Link)
    requires LinkInv(env, sourceType, l) && l.sent != []
    requires Reached(l.runtime.acknowledged, l.sent[|l.sent| - 1].position)
    ensures Settled(l) && l.runtime.acknowledged == Prior(l)
  {
    hide R.Inv, Reached, Older, IsBridge;
    SettledPrefix(env, sourceType, l);
    AcknowledgedCases(env, l);
    var h, n := l.runtime.history, |l.sent|;
    var last := l.sent[n - 1].position;
    if l.runtime.acknowledged == R.PositionOf(h.resumed) {
      OnlyResumed(sourceType, h.resumed, l);
      assert false;
    } else {
      var k :| 0 <= k < |h.settled| && l.runtime.acknowledged == Some(h.settled[k].position);
      assert h.settled[k] == l.sent[k];
      if k < n - 1 {
        NotReachedByOlder(sourceType, l.sent[k].position, last);
        assert false;
      }
    }
  }

  lemma OnlyResumed(sourceType: string, resumed: Option<Checkpoint>, l: Link)
    requires l.sent != [] && Ordered(sourceType, R.PositionOf(resumed), l.sent)
    ensures !Reached(R.PositionOf(resumed), l.sent[|l.sent| - 1].position)
  {
    hide IsAfter;
    if resumed.Some? {
      NotReachedByOlder(sourceType, resumed.value.position, l.sent[|l.sent| - 1].position);
    }
  }

  /** A publication puts the position of the last settled record on the watch. */
  lemma PublishedPosition(env: Env, s: R.State, open: bool)
    requires R.Inv(env, s) && s.phase.Publishing? && R.Step(env, s, R.Publish(open)).Some?
    ensures var t := R.Step(env, s, R.Publish(open)).value;
            t.acknowledged == s.acknowledged || t.acknowledged == R.LastPosition(s.history.settled)
  {
    hide Subseq, Encodings, Signals, SnapshotSeen, LatestState, R.HistoryOk, R.FoldOk, R.AllEncode;
  }

  /**
   * At the moment of emission the stale acknowledgement would be accepted exactly if the marker goes back
   * from streaming to snapshot.
   */
  lemma StaleAckExactly(sourceType: string, l: Link, r: SourceRecord)
    requires Prior(l).Some? && l.runtime.acknowledged == Prior(l)
    requires IsBridge(sourceType, Prior(l).value) && IsBridge(sourceType, r.position)
    requires Prior(l).value.debezium.eventSerial < r.position.debezium.eventSerial
    ensures Reached(l.runtime.acknowledged, r.position)
            <==> !Prior(l).value.debezium.snapshot && r.position.debezium.snapshot
  {
    hide IsAfter;
    DebeziumOrder(Prior(l).value.debezium, r.position.debezium);
  }

  lemma {:induction false} EncodingMember(env: Env, rs: seq<SourceRecord>, i: nat, e: EncodedEvent)
    requires i < |rs| && RecordEncoding(env, rs[i]).Some? && e in RecordEncoding(env, rs[i]).value
    ensures e in Encodings(env, rs)
  {
    hide RecordEncoding;
    if i < |rs| - 1 {
      EncodingMember(env, rs[..|rs| - 1], i, e);
    }
  }

  /** The encodings of a record are all in a log. */
  ghost predicate Holds(env: Env, sink: seq<EncodedEvent>, r: SourceRecord) {
    RecordEncoding(env, r).Some? && forall e | e in RecordEncoding(env, r).value :: e in sink
  }

  /** A settled record is in the sink. */
  lemma SettledHeld(env: Env, s: R.State, i: nat)
    requires R.Inv(env, s) && i < |s.history.settled|
    ensures Holds(env, s.sink, s.history.settled[i])
  {
    hide R.Inv, R.HistoryOk, Encodings, RecordEncoding, Subseq, R.AllEncode;
    var h := s.history;
    var r := h.settled[i];
    SettledWritten(env, s, i);
    forall e | e in RecordEncoding(env, r).value
      ensures e in s.sink
    {
      EncodingMember(env, h.settled, i, e);
      SubseqMember(Encodings(env, h.settled), s.sink[|h.base|..], e);
    }
  }

  lemma SettledWritten(env: Env, s: R.State, i: nat)
    requires R.Inv(env, s) && i < |s.history.settled|
    ensures s.history.base <= s.sink
    ensures Subseq(Encodings(env, s.history.settled), s.sink[|s.history.base|..])
    ensures RecordEncoding(env, s.history.settled[i]).Some?
  {
    hide Encodings, RecordEncoding, Subseq, Signals, SnapshotSeen, LatestState, R.PendingOk, R.FoldOk;
    assert R.Consumed(s.history)[i] == s.history.settled[i];
    R.WrittenSoFar(env, s.history, s.sink);
  }

  /** The stored checkpoint is the resumed one or that of the last settled record. */
  lemma StoredPosition(env: Env, s: R.State)
    requires R.Inv(env, s)
    ensures s.history.settled == [] ==> s.stored == s.history.resumed
    ensures s.history.settled != [] ==>
              s.stored.Some? && s.stored.value.position == s.history.settled[|s.history.settled| - 1].position
  {
    hide Subseq, Encodings, Signals, SnapshotSeen, LatestState, R.PendingOk, R.FoldOk, R.AllEncode;
    var h := s.history;
    if h.settled != [] {
      R.LastSavePosition(env, h, s.sink);
    }
  }

  lemma HoldsGrows(env: Env, sink: seq<EncodedEvent>, sink': seq<EncodedEvent>, r: SourceRecord)
    requires sink <= sink' && Holds(env, sink, r)
    ensures Holds(env, sink', r)
  {
    hide RecordEncoding;
    forall e | e in RecordEncoding(env, r).value
      ensures e in sink'
    {
      var i :| 0 <= i < |sink| && sink[i] == e;
      assert sink'[i] == e;
    }
  }

  /** While everything emitted is settled, a publication can only put the last emitted position on the watch. */
  lemma AckIsPrior(env: Env, l: Link, open: bool)
    requires R.Inv(env, l.runtime) && Settled(l) && R.Step(env, l.runtime, R.Publish(open)).Some?
    ensures var t := R.Step(env, l.runtime, R.Publish(open)).value;
            t.acknowledged == l.runtime.acknowledged || t.acknowledged == Prior(l)
  {
    hide R.HistoryOk, R.FoldOk, R.AllEncode, Signals, Encodings;
    PublishedPosition(env, l.runtime, open);
  }
}
