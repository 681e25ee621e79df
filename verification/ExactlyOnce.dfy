/**
 * Exactly-once after deduplication by event identifier, partition by partition, in every run whose snapshot markers
 * do not return (rustium-debezium, source.rs, `run_kafka`; rustium-core, runtime.rs).
 */
module ExactlyOnce {
  import opened Prelude
  import opened Positions
  import opened Events
  import opened DebeziumBridge
  import opened StopAndWait
  import opened KafkaBridge
  import R = Runtime

  // ---- Deduplication ----

  function Ids(log: seq<EncodedEvent>): (ids: seq<EventId>)
    ensures |ids| == |log| && forall i | 0 <= i < |log| :: ids[i] == log[i].id
  {
    seq(|log|, i requires 0 <= i < |log| => log[i].id)
  }

  /** Keeps the first entry of each identifier. */
  function Deduplicated(log: seq<EncodedEvent>): seq<EncodedEvent> {
    if log == [] then []
    else
      var kept, e := Deduplicated(log[..|log| - 1]), log[|log| - 1];
      if e.id in Ids(kept) then kept else kept + [e]
  }

  ghost predicate Distinct(ids: seq<EventId>) {
    forall i, j | 0 <= i < j < |ids| :: ids[i] != ids[j]
  }

  function Max(a: nat, b: nat): nat { if a < b then b else a }

  /** Appending again a beginning of `b` adds at most what is new of it. */
  lemma {:induction false} DeduplicatedExtends(
      log: seq<EncodedEvent>, a: seq<EventId>, b: seq<EventId>, j: nat, more: seq<EncodedEvent>)
    requires Distinct(a + b) && j <= |b| && |more| <= |b|
    requires Ids(Deduplicated(log)) == a + b[..j] && Ids(more) == b[..|more|]
    ensures Ids(Deduplicated(log + more)) == a + b[..Max(j, |more|)]
  {
    if more == [] {
      assert log + more == log;
    } else {
      var n := |more| - 1;
      var e := more[n];
      DeduplicatedExtends(log, a, b, j, more[..n]);
      assert (log + more)[..|log + more| - 1] == log + more[..n];
      var kept := Deduplicated(log + more[..n]);
      assert e.id == Ids(more)[n] == b[n] == (a + b)[|a| + n];
      if n < j {
        assert Ids(kept)[|a| + n] == b[n];
      } else {
        assert Ids(kept) == a + b[..n];
        assert e.id !in Ids(kept) by {
          FreshId(a, b, n);
        }
        assert Ids(kept + [e]) == a + b[..n] + [b[n]];
        assert b[..n] + [b[n]] == b[..n + 1];
      }
    }
  }

  lemma FreshId(a: seq<EventId>, b: seq<EventId>, n: nat)
    requires Distinct(a + b) && n < |b|
    ensures b[n] !in a + b[..n]
  {
    var ids := a + b;
    assert ids[|a| + n] == b[n];
    forall i | 0 <= i < |a| + n
      ensures (a + b[..n])[i] != b[n]
    {
      assert (a + b[..n])[i] == ids[i];
    }
  }

  /** The entries whose identifiers are among the given ones. */
  function Of(mine: seq<EventId>, log: seq<EncodedEvent>): seq<EncodedEvent> {
    if log == [] then []
    else
      var e := log[|log| - 1];
      Of(mine, log[..|log| - 1]) + if e.id in mine then [e] else []
  }

  lemma {:induction false} OfConcat(mine: seq<EventId>, a: seq<EncodedEvent>, b: seq<EncodedEvent>)
    ensures Of(mine, a + b) == Of(mine, a) + Of(mine, b)
  {
    if b == [] {
      assert a + b == a;
    } else {
      assert (a + b)[..|a + b| - 1] == a + b[..|b| - 1];
      OfConcat(mine, a, b[..|b| - 1]);
    }
  }

  lemma {:induction false} OfAllOrNone(mine: seq<EventId>, log: seq<EncodedEvent>)
    ensures (forall e | e in log :: e.id in mine) ==> Of(mine, log) == log
    ensures (forall e | e in log :: e.id !in mine) ==> Of(mine, log) == []
  {
    if log != [] {
      OfAllOrNone(mine, log[..|log| - 1]);
    }
  }

  lemma {:induction false} OfMembers(mine: seq<EventId>, log: seq<EncodedEvent>)
    ensures forall e :: e in Of(mine, log) <==> e in log && e.id in mine
  {
    if log != [] {
      OfMembers(mine, log[..|log| - 1]);
      assert log == log[..|log| - 1] + [log[|log| - 1]];
    }
  }

  lemma OfSnoc(mine: seq<EventId>, log: seq<EncodedEvent>, e: EncodedEvent)
    ensures Of(mine, log + [e]) == if e.id in mine then Of(mine, log) + [e] else Of(mine, log)
  {
    assert (log + [e])[..|log|] == log;
    assert Of(mine, log) + [] == Of(mine, log);
  }

  lemma DeduplicatedSnoc(log: seq<EncodedEvent>, e: EncodedEvent)
    ensures Deduplicated(log + [e])
            == if e.id in Ids(Deduplicated(log)) then Deduplicated(log) else Deduplicated(log) + [e]
  {
    assert (log + [e])[..|log|] == log;
  }

  /** It does not matter whether a part of the log is picked before or after deduplication. */
  lemma {:induction false} DeduplicatedOf(mine: seq<EventId>, log: seq<EncodedEvent>)
    ensures Deduplicated(Of(mine, log)) == Of(mine, Deduplicated(log))
  {
    if log != [] {
      hide Of, Deduplicated;
      var front, e := log[..|log| - 1], log[|log| - 1];
      assert log == front + [e];
      DeduplicatedOf(mine, front);
      OfSnoc(mine, front, e);
      DeduplicatedSnoc(front, e);
      OfSnoc(mine, Deduplicated(front), e);
      if e.id in mine {
        DeduplicatedSnoc(Of(mine, front), e);
        SameIdsOf(mine, Deduplicated(front), e.id);
      }
    }
  }

  lemma SameIdsOf(mine: seq<EventId>, kept: seq<EncodedEvent>, id: EventId)
    requires id in mine
    ensures id in Ids(Of(mine, kept)) <==> id in Ids(kept)
  {
    OfMembers(mine, kept);
    var part := Of(mine, kept);
    if id in Ids(kept) {
      var i :| 0 <= i < |kept| && Ids(kept)[i] == id;
      assert kept[i] in part;
      var k :| 0 <= k < |part| && part[k] == kept[i];
      assert Ids(part)[k] == id;
    }
    if id in Ids(part) {
      var k :| 0 <= k < |part| && Ids(part)[k] == id;
      assert part[k] in kept;
      var i :| 0 <= i < |kept| && kept[i] == part[k];
      assert Ids(kept)[i] == id;
    }
  }

  // ---- The identifiers that the input stands for ----

  predicate Present(c: Config, p: nat, o: nat) { HasMessage(c, p, o) && !IsEmpty(c, p, o) }

  function Canonical(p: nat, o: nat): Origin { Origin(p, o, 0, false, 0) }

  /** What decoding a message yields apart from its serial, the snapshot flag and the clock. */
  lemma DecodingIsStable(c: Config, x: Origin)
    requires Present(c, x.partition, x.offset)
    ensures DecodeMessage(c, x).Ok? == DecodeMessage(c, Canonical(x.partition, x.offset)).Ok?
    ensures DecodeMessage(c, x).Ok? ==>
              var r := DecodeMessage(c, x).value.record;
              var r' := DecodeMessage(c, Canonical(x.partition, x.offset)).value.record;
              && r.event.Some? == r'.event.Some?
              && (r.event.Some? ==> r.event.value.id == BridgeEventId(c.bridge, RecordId(c, x.partition, x.offset)))
              && (r.event.Some? ==> r.event.value.operation == r'.event.value.operation)
              && r.position.Debezium? && r'.position.Debezium?
              && r.position.debezium.snapshot == r'.position.debezium.snapshot
              && r.position.debezium.recordId == RecordId(c, x.partition, x.offset)
  {
    hide RecordId, UnwrapPayload, SnapshotMarker, BoundaryFor, OperationOf, CompletesSnapshot, ForeignConnector;
  }

  /** The identifiers of the encodings of one message: none, the event's, or the event's and its tombstone's. */
  function SlotIds(c: Config, p: nat, o: nat): seq<EventId>
    requires p < |c.partitions|
  {
    if !Present(c, p, o) || DecodeMessage(c, Canonical(p, o)).Err? then []
    else
      var event := DecodeMessage(c, Canonical(p, o)).value.record.event;
      if event.None? then []
      else
        var id := BridgeEventId(c.bridge, RecordId(c, p, o));
        if event.value.operation == Delete && c.bridge.env.tombstonesOnDelete
        then [id, Derived(c.bridge.env, id, TOMBSTONE)]
        else [id]
  }

  /** The identifiers of the encodings of the first `n` messages of a partition, in order. */
  function InputIds(c: Config, p: nat, n: nat): seq<EventId>
    requires p < |c.partitions|
  {
    if n == 0 then [] else InputIds(c, p, n - 1) + SlotIds(c, p, n - 1)
  }

  /** All identifiers of a partition. */
  function OwnIds(c: Config, p: nat): seq<EventId>
    requires p < |c.partitions|
  {
    InputIds(c, p, |c.partitions[p].messages|)
  }

  /** The encodings of a decoded message carry its identifiers. */
  lemma EncodedIds(c: Config, x: Origin)
    requires Present(c, x.partition, x.offset)
    requires DecodeMessage(c, x).Ok? && RecordEncoding(c.bridge.env, DecodeMessage(c, x).value.record).Some?
    ensures Ids(RecordEncoding(c.bridge.env, DecodeMessage(c, x).value.record).value)
            == SlotIds(c, x.partition, x.offset)
  {
    hide DecodeMessage, RecordId, Derived, BridgeEventId, IsEmpty;
    DecodingIsStable(c, x);
  }

  /** An identifier of a slot is that of its message's record or of its tombstone. */
  lemma SlotShape(c: Config, p: nat, o: nat, i: nat)
    requires p < |c.partitions| && i < |SlotIds(c, p, o)|
    ensures var id := BridgeEventId(c.bridge, RecordId(c, p, o));
            SlotIds(c, p, o)[i] == if i == 0 then id else Derived(c.bridge.env, id, TOMBSTONE)
    ensures i < 2 && o < |c.partitions[p].messages|
  {
    hide DecodeMessage, RecordId, Derived, BridgeEventId, IsEmpty;
  }

  lemma SameRecord(c: Config, p: nat, o: nat, p': nat, o': nat)
    requires DistinctPartitions(c) && p < |c.partitions| && p' < |c.partitions|
    requires RecordId(c, p, o) == RecordId(c, p', o')
    ensures p == p' && o == o'
  {
    var a, b := c.partitions[p], c.partitions[p'];
    KafkaRecordIdInjective(a.topic, a.number, o, b.topic, b.number, o');
  }

  /** Two entries of slots are equal only if they are the same entry. */
  lemma SlotsDiffer(c: Config, p: nat, o: nat, i: nat, p': nat, o': nat, i': nat)
    requires DistinctPartitions(c) && Injective(c.bridge.env.sha256) && p < |c.partitions| && p' < |c.partitions|
    requires i < |SlotIds(c, p, o)| && i' < |SlotIds(c, p', o')| && SlotIds(c, p, o)[i] == SlotIds(c, p', o')[i']
    ensures p == p' && o == o' && i == i'
  {
    hide SlotIds, Injective, KafkaRecordId, Derived, BridgeEventId, DistinctPartitions;
    SlotShape(c, p, o, i);
    SlotShape(c, p', o', i');
    var b, a, a' := c.bridge, c.partitions[p], c.partitions[p'];
    var id, id' := BridgeEventId(b, RecordId(c, p, o)), BridgeEventId(b, RecordId(c, p', o'));
    if i == 0 && i' > 0 {
      TombstoneIsNoRecord(b, id', a.topic, a.number, o);
    } else if i > 0 && i' == 0 {
      TombstoneIsNoRecord(b, id, a'.topic, a'.number, o');
    } else {
      if i > 0 {
        TombstoneIdsDistinct(b.env, id, id');
      }
      EventIdsDistinct(b, RecordId(c, p, o), RecordId(c, p', o'));
      SameRecord(c, p, o, p', o');
    }
  }

  lemma {:induction false} InputMember(c: Config, p: nat, n: nat, k: nat) returns (o: nat, i: nat)
    requires p < |c.partitions| && k < |InputIds(c, p, n)|
    ensures o < n && i < |SlotIds(c, p, o)| && InputIds(c, p, n)[k] == SlotIds(c, p, o)[i]
  {
    hide SlotIds;
    var front := InputIds(c, p, n - 1);
    if k < |front| {
      o, i := InputMember(c, p, n - 1, k);
    } else {
      o, i := n - 1, k - |front|;
    }
  }

  lemma {:induction false} InputDistinct(c: Config, p: nat, n: nat)
    requires DistinctPartitions(c) && Injective(c.bridge.env.sha256) && p < |c.partitions|
    ensures Distinct(InputIds(c, p, n))
  {
    hide SlotIds, Injective, DistinctPartitions;
    if n > 0 {
      InputDistinct(c, p, n - 1);
      var a, b := InputIds(c, p, n - 1), SlotIds(c, p, n - 1);
      forall i, j | 0 <= i < j < |a + b|
        ensures (a + b)[i] != (a + b)[j]
      {
        if j >= |a| {
          if i >= |a| {
            if b[i - |a|] == b[j - |a|] {
              SlotsDiffer(c, p, n - 1, i - |a|, p, n - 1, j - |a|);
            }
          } else if a[i] == b[j - |a|] {
            var o, k := InputMember(c, p, n - 1, i);
            SlotsDiffer(c, p, o, k, p, n - 1, j - |a|);
          }
        }
      }
    }
  }

  lemma {:induction false} InputIdsGrow(c: Config, p: nat, k: nat, n: nat)
    requires p < |c.partitions| && k <= n
    ensures InputIds(c, p, k) <= InputIds(c, p, n)
  {
    hide SlotIds;
    if k < n {
      InputIdsGrow(c, p, k, n - 1);
    }
  }

  lemma NothingBeyond(c: Config, p: nat, o: nat)
    requires p < |c.partitions| && o >= |c.partitions[p].messages|
    ensures SlotIds(c, p, o) == []
  {
  }

  /** The identifiers of a slot belong to its partition and to no other. */
  lemma SlotBelongs(c: Config, p: nat, o: nat, i: nat, q: nat)
    requires DistinctPartitions(c) && Injective(c.bridge.env.sha256) && p < |c.partitions| && q < |c.partitions|
    requires i < |SlotIds(c, p, o)|
    ensures SlotIds(c, p, o)[i] in OwnIds(c, q) <==> p == q
  {
    hide SlotIds, Injective, DistinctPartitions;
    SlotShape(c, p, o, i);
    var n := |c.partitions[q].messages|;
    if p == q {
      InputIdsGrow(c, p, o + 1, n);
      assert InputIds(c, p, o + 1)[|InputIds(c, p, o)| + i] == SlotIds(c, p, o)[i];
    } else if SlotIds(c, p, o)[i] in OwnIds(c, q) {
      var k :| 0 <= k < |OwnIds(c, q)| && OwnIds(c, q)[k] == SlotIds(c, p, o)[i];
      var o', i' := InputMember(c, q, n, k);
      SlotsDiffer(c, p, o, i, q, o', i');
    }
  }

  // ---- What every step keeps ----

  /** A record that is not yet settled comes from the message at the committed offset. */
  ghost predicate TailOk(s: System) {
    Settled(s.link)
    || (s.origins != []
        && var x := s.origins[|s.origins| - 1]; x.partition < |s.committed| && x.offset == s.committed[x.partition])
  }

  /** Between two messages the remembered identifier is that of the position before the next emission. */
  ghost predicate LastIdOk(s: System) {
    s.source.phase.Receiving? || s.source.phase.Committing? ==>
      s.source.lastRecordId == match Prior(s.link)
                               case None => None
                               case Some(p) => if p.Debezium? then Some(p.debezium.recordId) else None
  }

  /** The position is that of an input message at or below the committed offset. */
  ghost predicate FromInput(c: Config, committed: seq<nat>, position: Option<SourcePosition>) {
    position.Some? ==> exists r, x :: EmittedFrom(c, committed, r, x) && r.position == position.value
  }

  /** The first `k` messages of the partition are in the sink once each, in order, then part of the next one. */
  ghost predicate SinkOk(c: Config, sink: seq<EncodedEvent>, p: nat, k: nat)
    requires p < |c.partitions|
  {
    exists j | 0 <= j <= |SlotIds(c, p, k)| ::
      Ids(Deduplicated(Of(OwnIds(c, p), sink))) == InputIds(c, p, k) + SlotIds(c, p, k)[..j]
  }

  ghost predicate SinksOk(c: Config, sink: seq<EncodedEvent>, committed: seq<nat>) {
    |committed| == |c.partitions| && forall p | 0 <= p < |committed| :: SinkOk(c, sink, p, committed[p])
  }

  /** An entry of the sink is an encoding of an input message. */
  ghost predicate Genuine(c: Config, e: EncodedEvent) {
    exists x: Origin :: HasMessage(c, x.partition, x.offset) && EncodesMessage(c, x, e)
  }

  ghost predicate EncodesMessage(c: Config, x: Origin, e: EncodedEvent)
    requires HasMessage(c, x.partition, x.offset)
  {
    && !IsEmpty(c, x.partition, x.offset) && DecodeMessage(c, x).Ok?
    && var encoded := RecordEncoding(c.bridge.env, DecodeMessage(c, x).value.record);
       encoded.Some? && e in encoded.value
  }

  ghost predicate Once(c: Config, s: System) {
    && Inv(c, s)
    && TailOk(s) && LastIdOk(s)
    && FromInput(c, s.committed, R.PositionOf(s.link.runtime.history.resumed))
    && SinksOk(c, s.link.runtime.sink, s.committed)
    && forall e | e in s.link.runtime.sink :: Genuine(c, e)
  }

  /** While a batch is written, it is the encoding of the last emitted record, the only one not settled. */
  lemma BatchIsLast(c: Config, s: System)
    requires Inv(c, s) && s.link.runtime.phase.Writing?
    ensures s.link.sent != [] && !Settled(s.link)
    ensures var e := RecordEncoding(c.bridge.env, s.link.sent[|s.link.sent| - 1]);
            e.Some? && s.link.runtime.phase.batch == e.value
  {
    hide CommittedOk, CheckpointOk, IdOk, OriginsOk, R.HistoryOk, R.FoldOk, RecordEncoding, Ordered, Signals;
    var l, h := s.link, s.link.runtime.history;
    var n := |l.sent|;
    assert h.open != [];
    assert h.settled + h.open + l.queue == l.sent;
    assert |h.settled| < n;
    assert h.settled == l.sent[..n - 1];
    assert h.open == [l.sent[n - 1]];
    assert R.Consumed(h)[n - 1] == l.sent[n - 1];
    assert h.open[..0] == [];
    var e := RecordEncoding(c.bridge.env, l.sent[n - 1]).value;
    assert Encodings(c.bridge.env, []) + e == e;
  }

  /** A pipeline step leaves the sink alone or appends a beginning of the batch. */
  lemma SinkChange(env: Env, s: R.State, a: R.Action)
    requires R.Step(env, s, a).Some?
    ensures var t := R.Step(env, s, a).value;
            || t.sink == s.sink
            || (s.phase.Writing? && exists n | 0 <= n <= |s.phase.batch| :: t.sink == s.sink + s.phase.batch[..n])
  {
    hide RecordEncoding, R.MovesBackwards, R.Flushes, R.Exhausted;
    if a.Consume? && s.phase.Idle? {
      R.ConsumeEffect(env, s, a.record);
    }
  }

  lemma LastOrigin(c: Config, s: System)
    requires Once(c, s) && s.link.sent != [] && !Settled(s.link)
    ensures s.origins != []
    ensures var x := s.origins[|s.origins| - 1];
            && x.partition < |s.committed| == |c.partitions| && x.offset == s.committed[x.partition]
            && Present(c, x.partition, x.offset) && DecodeMessage(c, x).Ok?
            && DecodeMessage(c, x).value.record == s.link.sent[|s.link.sent| - 1]
  {
    hide LinkInv, CommittedOk, CheckpointOk, IdOk, PhaseOk, SinkOk, Genuine, DecodeMessage, IsEmpty;
    var n := |s.link.sent|;
    assert EmittedFrom(c, s.committed, s.link.sent[n - 1], s.origins[n - 1]);
  }

  /** A beginning of a message's encodings belongs to its own partition and to no other. */
  lemma SlotsBelong(c: Config, more: seq<EncodedEvent>, q: nat, o: nat, p: nat)
    requires DistinctPartitions(c) && Injective(c.bridge.env.sha256) && p < |c.partitions| && q < |c.partitions|
    requires |more| <= |SlotIds(c, q, o)| && Ids(more) == SlotIds(c, q, o)[..|more|]
    ensures Of(OwnIds(c, p), more) == if p == q then more else []
  {
    hide SlotIds, Injective, DistinctPartitions, OwnIds;
    forall e | e in more
      ensures e.id in OwnIds(c, p) <==> p == q
    {
      var i :| 0 <= i < |more| && more[i] == e;
      assert Ids(more)[i] == SlotIds(c, q, o)[i];
      SlotBelongs(c, q, o, i, p);
    }
    OfAllOrNone(OwnIds(c, p), more);
  }

  /** Appending it keeps what is in the sink of every partition. */
  lemma SlotAppended(c: Config, sink: seq<EncodedEvent>, k: nat, more: seq<EncodedEvent>, q: nat, o: nat, p: nat)
    requires DistinctPartitions(c) && Injective(c.bridge.env.sha256) && p < |c.partitions| && q < |c.partitions|
    requires SinkOk(c, sink, p, k) && (p == q ==> k == o)
    requires |more| <= |SlotIds(c, q, o)| && Ids(more) == SlotIds(c, q, o)[..|more|]
    ensures SinkOk(c, sink + more, p, k)
  {
    hide SlotIds, Deduplicated, Distinct, Injective, DistinctPartitions, OwnIds, Of;
    var mine := OwnIds(c, p);
    SlotsBelong(c, more, q, o, p);
    OfConcat(mine, sink, more);
    var a, b := InputIds(c, p, k), SlotIds(c, p, k);
    var j :| 0 <= j <= |b| && Ids(Deduplicated(Of(mine, sink))) == a + b[..j];
    if p == q {
      InputDistinct(c, p, k + 1);
      DeduplicatedExtends(Of(mine, sink), a, b, j, more);
      assert Ids(Deduplicated(Of(mine, sink + more))) == a + b[..Max(j, |more|)];
    } else {
      assert Of(mine, sink) + [] == Of(mine, sink);
    }
  }

  /** Whatever part of the batch is appended, each partition still deduplicates to a beginning of its input. */
  lemma WriteOk(c: Config, s: System, n: nat)
    requires DistinctPartitions(c) && Injective(c.bridge.env.sha256) && Once(c, s)
    requires s.link.runtime.phase.Writing? && n <= |s.link.runtime.phase.batch|
    ensures var sink' := s.link.runtime.sink + s.link.runtime.phase.batch[..n];
            SinksOk(c, sink', s.committed) && forall e | e in sink' :: Genuine(c, e)
  {
    hide Inv, SlotIds, RecordEncoding, DecodeMessage, Injective, IsEmpty, TailOk, LastIdOk, FromInput, SinkOk;
    hide DistinctPartitions;
    var sink, batch := s.link.runtime.sink, s.link.runtime.phase.batch;
    BatchIsLast(c, s);
    LastOrigin(c, s);
    var x := s.origins[|s.origins| - 1];
    EncodedIds(c, x);
    assert Ids(batch[..n]) == SlotIds(c, x.partition, x.offset)[..n];
    forall p | 0 <= p < |s.committed|
      ensures SinkOk(c, sink + batch[..n], p, s.committed[p])
    {
      SlotAppended(c, sink, s.committed[p], batch[..n], x.partition, x.offset, p);
    }
    forall e | e in batch[..n]
      ensures Genuine(c, e)
    {
      assert EncodesMessage(c, x, e);
    }
  }

  lemma SinkMoves(c: Config, s: System, a: R.Action)
    requires DistinctPartitions(c) && Injective(c.bridge.env.sha256) && Once(c, s)
    requires R.Step(c.bridge.env, s.link.runtime, a).Some?
    ensures var sink' := R.Step(c.bridge.env, s.link.runtime, a).value.sink;
            SinksOk(c, sink', s.committed) && forall e | e in sink' :: Genuine(c, e)
  {
    hide Inv, R.Step, SlotIds, Injective, TailOk, LastIdOk, FromInput, SinksOk, Genuine, DistinctPartitions;
    SinkChange(c.bridge.env, s.link.runtime, a);
    var sink' := R.Step(c.bridge.env, s.link.runtime, a).value.sink;
    if sink' != s.link.runtime.sink {
      var batch := s.link.runtime.phase.batch;
      var n :| 0 <= n <= |batch| && sink' == s.link.runtime.sink + batch[..n];
      WriteOk(c, s, n);
    }
  }

  // ---- Each step ----

  lemma PriorFromInput(c: Config, s: System)
    requires Once(c, s)
    ensures FromInput(c, s.committed, Prior(s.link))
  {
    hide LinkInv, CommittedOk, CheckpointOk, IdOk, PhaseOk, SinksOk, Genuine, EmittedFrom;
    if s.link.sent != [] {
      var n := |s.link.sent| - 1;
      assert EmittedFrom(c, s.committed, s.link.sent[n], s.origins[n]);
    }
  }

  lemma InputGrows(c: Config, committed: seq<nat>, committed': seq<nat>, position: Option<SourcePosition>)
    requires FromInput(c, committed, position) && |committed| == |committed'|
    requires forall p | 0 <= p < |committed| :: committed[p] <= committed'[p]
    ensures FromInput(c, committed', position)
  {
    hide DecodeMessage, IsEmpty;
    if position.Some? {
      var r, x :| EmittedFrom(c, committed, r, x) && r.position == position.value;
      assert EmittedFrom(c, committed', r, x);
    }
  }

  lemma PipeOnce(c: Config, s: System, a: R.Action)
    requires DistinctPartitions(c) && Injective(c.bridge.env.sha256) && Once(c, s)
    requires Pipeline(c.bridge.env, s.link, a).Some?
    ensures Once(c, s.(link := Pipeline(c.bridge.env, s.link, a).value))
  {
    hide Inv, R.Step, Injective, DistinctPartitions, SinksOk, Genuine, FromInput;
    PipeInv(c, s, a);
    SinkMoves(c, s, a);
    PipelineGrows(c.bridge.env, s.link.runtime, a);
    StillSettled(c, s, Pipeline(c.bridge.env, s.link, a).value);
  }

  lemma HandOnce(c: Config, s: System)
    requires DistinctPartitions(c) && Injective(c.bridge.env.sha256) && Once(c, s)
    requires Hand(c.bridge.env, s.link).Some?
    ensures Once(c, s.(link := Hand(c.bridge.env, s.link).value))
  {
    hide Inv, R.Step, Injective, DistinctPartitions, SinksOk, Genuine, FromInput;
    HandInv(c, s);
    HandoverGrows(c.bridge.env, s.link.runtime, s.link.queue[0]);
    StillSettled(c, s, Hand(c.bridge.env, s.link).value);
  }

  /** What was settled before a pipeline step still is. */
  lemma StillSettled(c: Config, s: System, l: Link)
    requires Inv(c, s) && Inv(c, s.(link := l)) && l.sent == s.link.sent
    requires s.link.runtime.history.settled <= l.runtime.history.settled
    ensures Settled(s.link) ==> Settled(l)
  {
    hide R.Inv, Ordered, CommittedOk, CheckpointOk, IdOk, OriginsOk, PhaseOk;
    SettledPrefix(c.bridge.env, c.bridge.sourceType, l);
  }

  lemma ReceiveOnce(c: Config, s: System, p: nat, now: int)
    requires Once(c, s) && CanReceive(c, s, p) && Inv(c, ReceiveMessage(c, s, p, now))
    ensures Once(c, ReceiveMessage(c, s, p, now))
  {
    hide LinkInv, CommittedOk, CheckpointOk, IdOk, OriginsOk, DecodeMessage, SinksOk, Genuine;
    hide FromInput, IsEmpty, RecordId;
  }

  lemma AcknowledgeOnce(c: Config, s: System)
    requires Once(c, s) && s.source.phase.Waiting? && s.source.phase.partition < |c.partitions|
    requires Inv(c, Confirm(c, s))
    ensures Once(c, Confirm(c, s))
  {
    hide R.Inv, CommittedOk, CheckpointOk, IdOk, DecodeMessage, SinksOk, Genuine, FromInput, IsEmpty, RecordId, Ordered;
    var n := |s.origins| - 1;
    assert EmittedFrom(c, s.committed, s.link.sent[n], s.origins[n]);
    DecodingIsStable(c, s.origins[n]);
  }

  lemma CommitOnce(c: Config, s: System, outcome: CommitOutcome)
    requires DistinctPartitions(c) && Injective(c.bridge.env.sha256) && Once(c, s)
    requires s.source.phase.Committing? && s.source.phase.partition < |s.committed|
    requires Inv(c, CommitOffset(s, outcome))
    ensures Once(c, CommitOffset(s, outcome))
  {
    hide LinkInv, CommittedOk, CheckpointOk, IdOk, OriginsOk, DecodeMessage, SinkOk, Genuine, FromInput, IsEmpty;
    hide Delivered, Injective, DistinctPartitions;
    if outcome != Refused {
      var p := s.source.phase.partition;
      var k := s.committed[p];
      var committed' := s.committed[p := k + 1];
      InputGrows(c, s.committed, committed', R.PositionOf(s.link.runtime.history.resumed));
      WholeSlot(c, s.link.runtime.sink, p, k);
    }
  }

  /** A delivered or empty message is in the sink as a whole. */
  lemma WholeSlot(c: Config, sink: seq<EncodedEvent>, p: nat, k: nat)
    requires DistinctPartitions(c) && Injective(c.bridge.env.sha256) && p < |c.partitions| && SinkOk(c, sink, p, k)
    requires HasMessage(c, p, k) && (IsEmpty(c, p, k) || Delivered(c, sink, p, k))
    ensures SinkOk(c, sink, p, k + 1)
  {
    hide SlotIds, DecodeMessage, Injective, Deduplicated, IsEmpty, OwnIds, DistinctPartitions;
    var a, b, mine := InputIds(c, p, k), SlotIds(c, p, k), OwnIds(c, p);
    var j :| 0 <= j <= |b| && Ids(Deduplicated(Of(mine, sink))) == a + b[..j];
    if j < |b| {
      NonEmptySlot(c, p, k);
      var x :| DeliveredAs(c, sink, x) && x.partition == p && x.offset == k;
      var encoded := RecordEncoding(c.bridge.env, DecodeMessage(c, x).value.record).value;
      EncodedIds(c, x);
      var e := encoded[|b| - 1];
      assert e in encoded && e.id == b[|b| - 1];
      SlotBelongs(c, p, k, |b| - 1, p);
      OfMembers(mine, sink);
      KeptIds(Of(mine, sink), e);
      InputDistinct(c, p, k + 1);
      FreshLater(a, b, j, |b| - 1);
      assert false;
    }
    assert b[..|b|] == b && InputIds(c, p, k + 1) == a + b;
    assert a + b == InputIds(c, p, k + 1) + SlotIds(c, p, k + 1)[..0];
  }

  lemma NonEmptySlot(c: Config, p: nat, k: nat)
    requires p < |c.partitions| && SlotIds(c, p, k) != []
    ensures Present(c, p, k)
  {
    hide DecodeMessage, IsEmpty;
  }

  lemma FreshLater(a: seq<EventId>, b: seq<EventId>, j: nat, n: nat)
    requires Distinct(a + b) && j <= n < |b|
    ensures b[n] !in a + b[..j]
  {
    FreshId(a, b, n);
    assert forall i | 0 <= i < |a| + j :: (a + b[..j])[i] == (a + b[..n])[i];
  }

  /** Deduplication keeps every identifier. */
  lemma {:induction false} KeptIds(log: seq<EncodedEvent>, e: EncodedEvent)
    requires e in log
    ensures e.id in Ids(Deduplicated(log))
  {
    var kept, last := Deduplicated(log[..|log| - 1]), log[|log| - 1];
    if e == last {
      if e.id !in Ids(kept) {
        assert Ids(kept + [e])[|kept|] == e.id;
      }
    } else {
      assert e in log[..|log| - 1];
      KeptIds(log[..|log| - 1], e);
      var i :| 0 <= i < |kept| && Ids(kept)[i] == e.id;
      assert Ids(kept + [last])[i] == e.id;
    }
  }

  lemma RestartOnce(c: Config, s: System)
    requires Once(c, s)
    ensures Once(c, Boot(c, s.link.runtime.sink, s.link.runtime.stored, s.committed))
  {
    hide LinkInv, CommittedOk, CheckpointOk, IdOk, OriginsOk, SinksOk, Genuine, PhaseOk, FromInput;
    RestartInv(c, s);
    StoredFromInput(c, s);
  }

  lemma StoredFromInput(c: Config, s: System)
    requires Once(c, s)
    ensures FromInput(c, s.committed, R.PositionOf(s.link.runtime.stored))
    ensures s.link.runtime.stored.Some? ==> IsBridge(c.bridge.sourceType, s.link.runtime.stored.value.position)
  {
    hide R.Inv, CommittedOk, IdOk, EmittedFrom, SinksOk, Genuine, PhaseOk, Ordered, TailOk, LastIdOk;
    var l, h := s.link, s.link.runtime.history;
    StoredOk(c, s);
    StoredPosition(c.bridge.env, l.runtime);
    if h.settled != [] {
      var i := |h.settled| - 1;
      SettledPrefix(c.bridge.env, c.bridge.sourceType, l);
      assert h.settled[i] == l.sent[i];
      assert EmittedFrom(c, s.committed, l.sent[i], s.origins[i]);
    }
  }

  // ---- Whole runs ----

  lemma StepOnce(c: Config, s: System, a: Action)
    requires DistinctPartitions(c) && Injective(c.bridge.env.sha256) && !MarkerReturns(c, s, a)
    requires Once(c, s) && Step(c, s, a).Some?
    ensures Once(c, Step(c, s, a).value)
  {
    hide Once, Inv, Pipeline, Hand, ReceiveMessage, CommitOffset, Confirm, Boot, Reached, DistinctPartitions, Injective;
    hide MarkerReturns;
    HasInv(c, s);
    KafkaBridge.StepInv(c, s, a);
    match a
    case Pipe(step) => PipeOnce(c, s, step);
    case HandOver => HandOnce(c, s);
    case Receive(p, now) => ReceiveOnce(c, s, p, now);
    case Acknowledge => AcknowledgeOnce(c, s);
    case Commit(outcome) => CommitOnce(c, s, outcome);
    case StopSource => StopOnce(c, s);
    case Restart => RestartOnce(c, s);
  }

  lemma HasInv(c: Config, s: System)
    requires Once(c, s)
    ensures Inv(c, s) && |s.committed| == |c.partitions|
  {
    hide Inv, TailOk, LastIdOk, FromInput, SinkOk, Genuine;
  }

  lemma StopOnce(c: Config, s: System)
    requires Once(c, s)
    ensures Once(c, s.(source := s.source.(phase := Stopped)))
  {
    hide Inv, FromInput, SinksOk, Genuine;
    StopInv(c, s);
  }

  lemma StartOnce(c: Config)
    ensures Once(c, Init(c))
  {
    hide Inv, Genuine, SinkOk;
    InitInv(c);
    forall p | 0 <= p < |c.partitions|
      ensures SinkOk(c, [], p, 0)
    {
      NothingDelivered(c, p);
    }
  }

  lemma NothingDelivered(c: Config, p: nat)
    requires p < |c.partitions|
    ensures SinkOk(c, [], p, 0)
  {
    hide SlotIds, OwnIds;
    assert Ids(Deduplicated(Of(OwnIds(c, p), []))) == InputIds(c, p, 0) + SlotIds(c, p, 0)[..0];
  }

  lemma {:induction false} RunOnce(c: Config, actions: seq<Action>)
    requires DistinctPartitions(c) && Injective(c.bridge.env.sha256) && MonotoneMarkers(c, actions)
    requires Run(c, actions).Some?
    ensures Once(c, Run(c, actions).value)
  {
    hide Once, Step, DistinctPartitions, Injective, MarkerReturns;
    if actions == [] {
      StartOnce(c);
    } else {
      RunOnce(c, actions[..|actions| - 1]);
      StepOnce(c, Run(c, actions[..|actions| - 1]).value, actions[|actions| - 1]);
    }
  }

  lemma InputIdsEnd(c: Config, s: System, p: nat)
    requires Once(c, s) && p < |c.partitions|
    ensures |s.committed| == |c.partitions| && s.committed[p] <= |c.partitions[p].messages|
  {
    hide LinkInv, CheckpointOk, IdOk, OriginsOk, PhaseOk, Delivered, IsEmpty, SinkOk, Genuine;
    hide TailOk, LastIdOk, FromInput;
    if s.committed[p] > 0 {
      assert HasMessage(c, p, s.committed[p] - 1);
    }
  }

  /** The checkpoint names this message. */
  predicate NamedByCheckpoint(c: Config, s: System, p: nat, o: nat)
    requires p < |c.partitions|
  {
    var stored := s.link.runtime.stored;
    stored.Some? && stored.value.position.Debezium? && stored.value.position.debezium.recordId == RecordId(c, p, o)
  }

  lemma StoredIsReached(c: Config, s: System, p: nat, o: nat)
    requires DistinctPartitions(c) && Once(c, s) && p < |c.partitions| && NamedByCheckpoint(c, s, p, o)
    ensures p < |s.committed| && o <= s.committed[p]
  {
    hide Inv, SinksOk, Genuine, TailOk, LastIdOk, DecodeMessage, IsEmpty, KafkaRecordId, DistinctPartitions;
    HasInv(c, s);
    StoredFromInput(c, s);
    var r, x :| EmittedFrom(c, s.committed, r, x) && r.position == s.link.runtime.stored.value.position;
    DecodingIsStable(c, x);
    SameRecord(c, p, o, x.partition, x.offset);
  }

  /** A message that comes is passed over exactly if it is empty or the checkpoint names it. */
  lemma SkippedExactly(c: Config, s: System, p: nat)
    requires Once(c, s) && CanReceive(c, s, p)
    ensures Skips(c, s, p) <==> IsEmpty(c, p, s.committed[p]) || NamedByCheckpoint(c, s, p, s.committed[p])
  {
    hide R.Inv, Ordered, CommittedOk, CheckpointOk, IdOk, OriginsOk, SinksOk, Genuine, TailOk;
    hide RecordId, IsEmpty, FromInput;
    StoredPosition(c.bridge.env, s.link.runtime);
    assert s.link.runtime.history.settled == s.link.sent;
  }

  /** So it is in every reachable state: nothing that the present checkpoint names is emitted again. */
  lemma {:induction false} MessagesPassedOver(c: Config, actions: seq<Action>, s: System, p: nat)
    requires DistinctPartitions(c) && Injective(c.bridge.env.sha256) && MonotoneMarkers(c, actions)
    requires Run(c, actions) == Some(s) && CanReceive(c, s, p)
    ensures Skips(c, s, p) <==> IsEmpty(c, p, s.committed[p]) || NamedByCheckpoint(c, s, p, s.committed[p])
  {
    hide Once, Skips, NamedByCheckpoint, Run, MonotoneMarkers, Injective, DistinctPartitions, IsEmpty;
    RunOnce(c, actions);
    SkippedExactly(c, s, p);
  }

  /** Every entry that ever reaches the sink is an encoding of an input message. */
  lemma {:induction false} EntriesAreGenuine(c: Config, actions: seq<Action>, e: EncodedEvent)
    requires DistinctPartitions(c) && Injective(c.bridge.env.sha256) && MonotoneMarkers(c, actions)
    requires Run(c, actions).Some? && e in Run(c, actions).value.link.runtime.sink
    ensures Genuine(c, e)
  {
    hide Inv, SinksOk, TailOk, LastIdOk, FromInput, Injective, DistinctPartitions, MonotoneMarkers, Run, Genuine;
    RunOnce(c, actions);
  }

  /** An entry carries an identifier of the message that it encodes. */
  lemma GenuineSlot(c: Config, e: EncodedEvent) returns (x: Origin, i: nat)
    requires Genuine(c, e)
    ensures HasMessage(c, x.partition, x.offset) && EncodesMessage(c, x, e)
    ensures i < |SlotIds(c, x.partition, x.offset)| && e.id == SlotIds(c, x.partition, x.offset)[i]
  {
    hide SlotIds, DecodeMessage, IsEmpty, RecordEncoding;
    x :| HasMessage(c, x.partition, x.offset) && EncodesMessage(c, x, e);
    var encoded := RecordEncoding(c.bridge.env, DecodeMessage(c, x).value.record).value;
    EncodedIds(c, x);
    i :| 0 <= i < |encoded| && encoded[i] == e;
    assert Ids(encoded)[i] == e.id;
  }

  /** The entry is an encoding of the message at this offset. */
  ghost predicate EncodesAt(c: Config, e: EncodedEvent, p: nat, o: nat) {
    exists x: Origin ::
      HasMessage(c, x.partition, x.offset) && EncodesMessage(c, x, e) && x.partition == p && x.offset == o
  }

  /** Every entry with an identifier of a message is an encoding of that very message. */
  ghost predicate Truthful(c: Config, sink: seq<EncodedEvent>) {
    forall e, p: nat, o: nat | e in sink && p < |c.partitions| && e.id in SlotIds(c, p, o) :: EncodesAt(c, e, p, o)
  }

  lemma {:induction false} EntriesAreTruthful(c: Config, actions: seq<Action>, s: System)
    requires DistinctPartitions(c) && Injective(c.bridge.env.sha256) && MonotoneMarkers(c, actions)
    requires Run(c, actions) == Some(s)
    ensures Truthful(c, s.link.runtime.sink)
  {
    hide SlotIds, Injective, DistinctPartitions, MonotoneMarkers, Run, Genuine, EncodesMessage;
    forall e, p: nat, o: nat | e in s.link.runtime.sink && p < |c.partitions| && e.id in SlotIds(c, p, o)
      ensures EncodesAt(c, e, p, o)
    {
      var i :| 0 <= i < |SlotIds(c, p, o)| && SlotIds(c, p, o)[i] == e.id;
      EntriesAreGenuine(c, actions, e);
      var x, k := GenuineSlot(c, e);
      SlotsDiffer(c, p, o, i, x.partition, x.offset, k);
    }
  }

  /** The entry is made of an event decoded from this message. */
  ghost predicate MadeOf(c: Config, x: Origin, e: EncodedEvent)
    requires HasMessage(c, x.partition, x.offset)
  {
    && !IsEmpty(c, x.partition, x.offset) && DecodeMessage(c, x).Ok?
    && var event := DecodeMessage(c, x).value.record.event;
       event.Some? && EntryOf(c.bridge.env, event.value, e)
  }

  lemma EncodingIsMade(c: Config, x: Origin, e: EncodedEvent)
    requires HasMessage(c, x.partition, x.offset) && EncodesMessage(c, x, e)
    ensures MadeOf(c, x, e)
  {
    hide DecodeMessage, IsEmpty, EncodeBatch, EntryOf;
    var event := DecodeMessage(c, x).value.record.event;
    assert event.Some?;
    BatchShape(c.bridge.env, event.value);
    var batch := EncodeBatch(c.bridge.env, event.value).value;
    var i :| 0 <= i < |batch| && batch[i] == e;
  }

  /**
   * What an entry of the sink with an identifier of a message says: destination, key and payload are those that the
   * wire encoder yields for an event decoded from this message, and the payload is missing exactly in its tombstone.
   */
  lemma {:induction false} SinkEntry(c: Config, actions: seq<Action>, e: EncodedEvent, p: nat, o: nat)
    requires DistinctPartitions(c) && Injective(c.bridge.env.sha256) && MonotoneMarkers(c, actions)
    requires Run(c, actions).Some? && e in Run(c, actions).value.link.runtime.sink
    requires p < |c.partitions| && e.id in SlotIds(c, p, o)
    ensures exists x: Origin ::
              HasMessage(c, x.partition, x.offset) && MadeOf(c, x, e) && x.partition == p && x.offset == o
    ensures e.payload.None? <==> e.id == Derived(c.bridge.env, BridgeEventId(c.bridge, RecordId(c, p, o)), TOMBSTONE)
  {
    hide SlotIds, Injective, DistinctPartitions, MonotoneMarkers, Run, Genuine, EncodesMessage, MadeOf;
    EntriesAreTruthful(c, actions, Run(c, actions).value);
    var x: Origin :|
      HasMessage(c, x.partition, x.offset) && EncodesMessage(c, x, e) && x.partition == p && x.offset == o;
    EncodingIsMade(c, x, e);
    MadeIsTombstone(c, x, e);
  }

  lemma MadeIsTombstone(c: Config, x: Origin, e: EncodedEvent)
    requires Injective(c.bridge.env.sha256) && HasMessage(c, x.partition, x.offset) && MadeOf(c, x, e)
    ensures var id := BridgeEventId(c.bridge, RecordId(c, x.partition, x.offset));
            e.payload.None? <==> e.id == Derived(c.bridge.env, id, TOMBSTONE)
  {
    hide DecodeMessage, RecordId, BridgeEventId, IsEmpty, Injective, KafkaRecordId;
    DecodingIsStable(c, x);
    var id, a := BridgeEventId(c.bridge, RecordId(c, x.partition, x.offset)), c.partitions[x.partition];
    KafkaIdOf(c, x);
    TombstoneIsNoRecord(c.bridge, id, a.topic, a.number, x.offset);
    assert id + "\0" + "debezium-tombstone" == DerivedFrame(id, TOMBSTONE);
  }

  lemma KafkaIdOf(c: Config, x: Origin)
    requires x.partition < |c.partitions|
    ensures RecordId(c, x.partition, x.offset)
            == KafkaRecordId(c.partitions[x.partition].topic, c.partitions[x.partition].number, x.offset)
  {
  }

  /**
   * Over any number of partitions and any run with monotone markers, with restarts between any two steps and partial
   * sink writes: what belongs to a partition, deduplicated by identifier, is its messages below the committed offset,
   * once each and in order, followed by at most part of the next one. Every entry encodes the message whose
   * identifier it carries.
   */
  lemma {:induction false} ExactlyOncePerPartition(c: Config, actions: seq<Action>, s: System, p: nat)
    requires DistinctPartitions(c) && Injective(c.bridge.env.sha256) && MonotoneMarkers(c, actions)
    requires Run(c, actions) == Some(s) && p < |c.partitions|
    ensures |s.committed| == |c.partitions| && s.committed[p] <= |c.partitions[p].messages|
    ensures SinkOk(c, s.link.runtime.sink, p, s.committed[p])
    ensures Truthful(c, s.link.runtime.sink)
  {
    hide Inv, SinkOk, Truthful, TailOk, LastIdOk, FromInput, Injective, DistinctPartitions;
    hide MonotoneMarkers, Run, Genuine;
    RunOnce(c, actions);
    InputIdsEnd(c, s, p);
    EntriesAreTruthful(c, actions, s);
  }
}
