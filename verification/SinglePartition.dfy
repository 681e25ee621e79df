/**
 * A single-partition topic in which no snapshot message follows a streaming one: exactly-once for the sink as a whole,
 * from an assumption on the input alone (rustium-debezium, source.rs, `run_kafka`).
 */
module SinglePartition {
  import opened Prelude
  import opened Positions
  import opened Events
  import opened DebeziumBridge
  import opened StopAndWait
  import opened KafkaBridge
  import opened ExactlyOnce
  import R = Runtime

  predicate Single(c: Config) { |c.partitions| == 1 }

  /** The marker of a message that can be decoded. */
  predicate Decodes(c: Config, o: nat) { Present(c, 0, o) && DecodeMessage(c, Canonical(0, o)).Ok? }

  predicate Marker(c: Config, o: nat)
    requires Decodes(c, o)
  {
    var p := DecodeMessage(c, Canonical(0, o)).value.record.position;
    p.Debezium? && p.debezium.snapshot
  }

  /** No snapshot message follows a streaming one in the input. */
  ghost predicate MarkersNeverReturn(c: Config) {
    forall i, j | 0 <= i < j && Decodes(c, i) && Decodes(c, j) :: Marker(c, i) || !Marker(c, j)
  }

  lemma MarkerStays(c: Config, i: nat, j: nat)
    requires MarkersNeverReturn(c) && i <= j && Decodes(c, i) && Decodes(c, j) && !Marker(c, i)
    ensures !Marker(c, j)
  {
    hide Decodes, Marker;
  }

  /** In such an input the marker never returns in any run. */
  lemma MarkersHold(c: Config, s: System, a: Action)
    requires Single(c) && MarkersNeverReturn(c) && Once(c, s)
    ensures !MarkerReturns(c, s, a)
  {
    hide Inv, SinksOk, Genuine, DecodeMessage, LastIdOk, TailOk, IsEmpty, MarkersNeverReturn;
    if a.Receive? && CanReceive(c, s, a.partition) && !Skips(c, s, a.partition) && Prior(s.link).Some?
       && DecodeMessage(c, NextOrigin(s, a.partition, a.now)).Ok? {
      PriorFromInput(c, s);
      var o, x := s.committed[0], NextOrigin(s, a.partition, a.now);
      DecodingIsStable(c, x);
      var r, y :| EmittedFrom(c, s.committed, r, y) && r.position == Prior(s.link).value;
      DecodingIsStable(c, y);
      assert Decodes(c, y.offset) && Decodes(c, o);
      if !Marker(c, y.offset) {
        MarkerStays(c, y.offset, o);
      }
    }
  }

  /** So every run over such an input is one with monotone markers. */
  lemma {:induction false} RunsAreMonotone(c: Config, actions: seq<Action>)
    requires Single(c) && Injective(c.bridge.env.sha256) && MarkersNeverReturn(c) && Run(c, actions).Some?
    ensures MonotoneMarkers(c, actions)
  {
    hide Once, Step, MarkersNeverReturn, Injective, MarkerReturns;
    if actions != [] {
      var front := actions[..|actions| - 1];
      RunsAreMonotone(c, front);
      RunOnce(c, front);
      MarkersHold(c, Run(c, front).value, actions[|actions| - 1]);
    }
  }

  lemma {:induction false} RunsAreOnce(c: Config, actions: seq<Action>)
    requires Single(c) && Injective(c.bridge.env.sha256) && MarkersNeverReturn(c) && Run(c, actions).Some?
    ensures MonotoneMarkers(c, actions) && Once(c, Run(c, actions).value)
  {
    hide Once, Run, MarkersNeverReturn, Injective, MonotoneMarkers;
    RunsAreMonotone(c, actions);
    RunOnce(c, actions);
  }

  /** Everything in the sink belongs to the one partition. */
  lemma AllBelong(c: Config, sink: seq<EncodedEvent>)
    requires Single(c) && Injective(c.bridge.env.sha256) && forall e | e in sink :: Genuine(c, e)
    ensures Of(OwnIds(c, 0), sink) == sink
  {
    hide Genuine, SlotIds, OwnIds, Injective, EncodesMessage;
    forall e | e in sink
      ensures e.id in OwnIds(c, 0)
    {
      var x, i := GenuineSlot(c, e);
      SlotBelongs(c, x.partition, x.offset, i, 0);
    }
    OfAllOrNone(OwnIds(c, 0), sink);
  }

  /** The sink as a whole holds the first `k` messages once each, in order, then part of the next one. */
  ghost predicate WholeSinkOk(c: Config, sink: seq<EncodedEvent>, k: nat)
    requires Single(c)
  {
    exists j | 0 <= j <= |SlotIds(c, 0, k)| ::
      Ids(Deduplicated(sink)) == InputIds(c, 0, k) + SlotIds(c, 0, k)[..j]
  }

  /**
   * Over any run, with restarts between any two steps and partial sink writes: deduplicated by identifier, the sink
   * lists the messages below the committed offset once each and in order, followed by at most part of the next one.
   * Every entry encodes the message whose identifier it carries.
   */
  lemma {:induction false} ExactlyOnceAfterDeduplication(c: Config, actions: seq<Action>, s: System)
    requires Single(c) && Injective(c.bridge.env.sha256) && MarkersNeverReturn(c) && Run(c, actions) == Some(s)
    ensures |s.committed| == 1 && s.committed[0] <= |c.partitions[0].messages|
    ensures WholeSinkOk(c, s.link.runtime.sink, s.committed[0])
    ensures Truthful(c, s.link.runtime.sink)
  {
    hide Truthful, Inv, TailOk, LastIdOk, FromInput, Injective, MarkersNeverReturn, MonotoneMarkers;
    hide Run, Genuine, SlotIds;
    hide Deduplicated, OwnIds;
    RunsAreOnce(c, actions);
    ExactlyOncePerPartition(c, actions, s, 0);
    AllBelong(c, s.link.runtime.sink);
  }

  /** Such a sink is, deduplicated, a beginning of the input, at least up to `k` and at most one message further. */
  lemma {:induction false} SinkIsPrefixOfInput(c: Config, sink: seq<EncodedEvent>, k: nat)
    requires Single(c) && WholeSinkOk(c, sink, k) && k <= |c.partitions[0].messages|
    ensures InputIds(c, 0, k) <= Ids(Deduplicated(sink)) <= InputIds(c, 0, k + 1)
    ensures Ids(Deduplicated(sink)) <= OwnIds(c, 0)
  {
    hide SlotIds, Deduplicated;
    var b := SlotIds(c, 0, k);
    var j :| 0 <= j <= |b| && Ids(Deduplicated(sink)) == InputIds(c, 0, k) + b[..j];
    assert b[..j] <= b;
    if k < |c.partitions[0].messages| {
      InputIdsGrow(c, 0, k + 1, |c.partitions[0].messages|);
    } else {
      NothingBeyond(c, 0, k);
    }
  }

  /** The checkpoint names the message at offset `o`. */
  predicate StoredAt(c: Config, s: System, o: nat)
    requires Single(c)
  {
    NamedByCheckpoint(c, s, 0, o)
  }

  lemma StoredChange(env: Env, s: R.State, a: R.Action)
    requires R.Step(env, s, a).Some?
    ensures var t := R.Step(env, s, a).value;
            || t.stored == s.stored
            || (s.phase.Saving? && t.stored.Some? && t.stored.value.position == s.phase.target)
  {
    hide RecordEncoding, R.MovesBackwards, R.Flushes, R.Exhausted;
    if a.Consume? && s.phase.Idle? {
      R.ConsumeEffect(env, s, a.record);
    }
  }

  lemma SavedIsLast(c: Config, s: System)
    requires Inv(c, s) && s.link.runtime.phase.Saving?
    ensures s.link.sent != [] && !Settled(s.link)
    ensures s.link.runtime.phase.target == s.link.sent[|s.link.sent| - 1].position
  {
    hide CommittedOk, CheckpointOk, IdOk, OriginsOk, R.HistoryOk, R.FoldOk, RecordEncoding, Ordered, Signals, Encodings;
    var l, h := s.link, s.link.runtime.history;
    assert h.open != [];
    assert h.settled + h.open + l.queue == l.sent;
    assert |h.settled| < |l.sent|;
    assert h.settled == l.sent[..|l.sent| - 1];
    assert h.open == [l.sent[|l.sent| - 1]];
  }

  lemma SavedAt(c: Config, s: System)
    requires Single(c) && Once(c, s) && s.link.runtime.phase.Saving?
    ensures s.link.runtime.phase.target.Debezium?
    ensures s.link.runtime.phase.target.debezium.recordId == RecordId(c, 0, s.committed[0])
  {
    hide Inv, SinksOk, Genuine, TailOk, LastIdOk, DecodeMessage, RecordId, FromInput;
    HasInv(c, s);
    SavedIsLast(c, s);
    LastOrigin(c, s);
    DecodingIsStable(c, s.origins[|s.origins| - 1]);
  }

  /** The checkpoint never goes back to an earlier message, and offsets never shrink. */
  lemma StoredMovesOn(c: Config, s: System, a: Action, o: nat) returns (o': nat)
    requires Single(c) && Once(c, s) && Step(c, s, a).Some? && StoredAt(c, s, o)
    ensures o' >= o && StoredAt(c, Step(c, s, a).value, o')
  {
    hide Once, R.Step, DecodeMessage, RecordId;
    o' := o;
    if a.Pipe? {
      StoredChange(c.bridge.env, s.link.runtime, a.step);
      if s.link.runtime.phase.Saving? && !StoredAt(c, Step(c, s, a).value, o) {
        HasInv(c, s);
        StoredIsReached(c, s, 0, o);
        SavedAt(c, s);
        o' := s.committed[0];
      }
    } else if a.HandOver? {
      StoredChange(c.bridge.env, s.link.runtime, R.Consume(s.link.queue[0]));
      HandoverStores(c, s);
    }
  }

  lemma HandoverStores(c: Config, s: System)
    requires Hand(c.bridge.env, s.link).Some?
    ensures Hand(c.bridge.env, s.link).value.runtime.stored == s.link.runtime.stored
  {
    hide RecordEncoding, R.MovesBackwards, R.Flushes;
    R.ConsumeEffect(c.bridge.env, s.link.runtime, s.link.queue[0]);
  }

  lemma {:induction false} StoredStays(c: Config, before: seq<Action>, after: seq<Action>, o: nat) returns (o': nat)
    requires Single(c) && Injective(c.bridge.env.sha256) && MarkersNeverReturn(c)
    requires Run(c, before).Some? && StoredAt(c, Run(c, before).value, o)
    requires Run(c, before + after).Some?
    ensures o' >= o && StoredAt(c, Run(c, before + after).value, o')
  {
    hide Step, StoredAt, Once, MarkersNeverReturn, Injective;
    if after == [] {
      assert before + after == before;
      o' := o;
    } else {
      var front := after[..|after| - 1];
      assert (before + after)[..|before + after| - 1] == before + front;
      var k := StoredStays(c, before, front, o);
      RunsAreOnce(c, before + front);
      o' := StoredMovesOn(c, Run(c, before + front).value, after[|after| - 1], k);
    }
  }

  /**
   * A message that a checkpoint once named is never emitted again, whatever restarts follow: later emissions come
   * from later offsets.
   */
  lemma {:induction false} CheckpointedIsNeverEmittedAgain(c: Config, before: seq<Action>, after: seq<Action>, o: nat)
    requires Single(c) && Injective(c.bridge.env.sha256) && MarkersNeverReturn(c)
    requires Run(c, before).Some? && StoredAt(c, Run(c, before).value, o)
    requires Run(c, before + after).Some?
    requires CanReceive(c, Run(c, before + after).value, 0) && !Skips(c, Run(c, before + after).value, 0)
    ensures Run(c, before + after).value.committed[0] > o
  {
    hide Run, NamedByCheckpoint, Once, MarkersNeverReturn, Injective;
    var t := Run(c, before + after).value;
    var k := StoredStays(c, before, after, o);
    RunsAreOnce(c, before + after);
    HasInv(c, t);
    StoredIsReached(c, t, 0, k);
    if t.committed[0] == k {
      SkippedExactly(c, t, 0);
    }
  }
}
