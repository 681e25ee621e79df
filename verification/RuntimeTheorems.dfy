/** What holds of every run of the delivery pipeline, from any durable state and under any schedule. */
module RuntimeTheorems {
  import opened Prelude
  import opened Subsequences
  import opened Positions
  import opened Events
  import opened Runtime

  // ---- The checkpoint is a fold of the consumed history ----

  /** The records handed to the pipeline by a schedule. */
  function Offered(actions: seq<Action>): seq<SourceRecord> {
    if actions == [] then []
    else
      var a := actions[|actions| - 1];
      Offered(actions[..|actions| - 1]) + if a.Consume? then [a.record] else []
  }

  ghost predicate Traced(s: State, sink: seq<EncodedEvent>, stored: Option<Checkpoint>, offered: seq<SourceRecord>) {
    && s.history.resumed == stored && s.history.base == sink
    && (|| Consumed(s.history) == offered
        || (s.phase == Halted(false) && offered != [] && Consumed(s.history) == offered[..|offered| - 1]))
  }

  lemma StepTraced(
      env: Env, s: State, a: Action, sink: seq<EncodedEvent>, stored: Option<Checkpoint>, offered: seq<SourceRecord>)
    requires Traced(s, sink, stored, offered) && Step(env, s, a).Some?
    ensures Traced(Step(env, s, a).value, sink, stored, offered + if a.Consume? then [a.record] else [])
  {
    hide Encodings, Signals, IsAfter, RecordEncoding, MovesBackwards, Flushes;
    var t := Step(env, s, a).value;
    if a.Consume? {
      assert (offered + [a.record])[..|offered|] == offered;
      assert s.history.settled + (s.history.open + [a.record]) == Consumed(s.history) + [a.record];
    } else {
      assert offered + [] == offered;
      assert Consumed(s.history) + [] == Consumed(s.history);
    }
  }

  /** The history component of a state is the true history of the run. */
  lemma {:induction false} HistoryIsFaithful(
      env: Env, sink: seq<EncodedEvent>, stored: Option<Checkpoint>, actions: seq<Action>)
    requires Run(env, Start(sink, stored), actions).Some?
    ensures Traced(Run(env, Start(sink, stored), actions).value, sink, stored, Offered(actions))
  {
    if actions != [] {
      var front := actions[..|actions| - 1];
      HistoryIsFaithful(env, sink, stored, front);
      StepTraced(env, Run(env, Start(sink, stored), front).value, actions[|actions| - 1], sink, stored, Offered(front));
    }
  }

  /** Checkpoint `c` is the fold of the first `n` offered records, whose encodings the sink holds in order. */
  ghost predicate FoldOf(
    env: Env, stored: Option<Checkpoint>, offered: seq<SourceRecord>, written: seq<EncodedEvent>, n: nat, c: Checkpoint)
  {
    && 0 < n <= |offered|
    && c == CheckpointAfter(stored, offered[..n])
    && Subseq(Encodings(env, offered[..n]), written)
  }

  lemma RunFacts(env: Env, sink: seq<EncodedEvent>, stored: Option<Checkpoint>, actions: seq<Action>, s: State)
    requires Run(env, Start(sink, stored), actions) == Some(s)
    ensures HistoryOk(env, s.history, s.sink)
    ensures s.stored == LastSaved(stored, s.history.saves)
    ensures s.acknowledged == LastAck(stored, s.history.acks)
    ensures s.history.resumed == stored && s.history.base == sink
    ensures s.history.settled <= Offered(actions)
    ensures s.history.released <= Signals(s.history.settled)
  {
    hide Subseq, Encodings, Signals, SnapshotSeen, LatestState, Run, Offered;
    StartInv(env, sink, stored);
    RunInv(env, Start(sink, stored), actions);
    HistoryIsFaithful(env, sink, stored, actions);
    var pending, released := s.pending, s.history.released;
    if s.phase.Publishing? || s.phase.Releasing? {
      assert released <= released + pending.signals;
    }
  }

  /**
   * Whatever the interleaving of records, ticks, retries, partial writes and cancellation: every checkpoint
   * saved in the run is the fold of a prefix of the offered records, and that prefix is in the sink.
   */
  lemma CheckpointIsFoldOfHistory(
      env: Env, sink: seq<EncodedEvent>, stored: Option<Checkpoint>, actions: seq<Action>, s: State, i: nat)
    requires Run(env, Start(sink, stored), actions) == Some(s) && i < |s.history.saves|
    ensures sink <= s.sink
    ensures var v := s.history.saves[i];
            FoldOf(env, stored, Offered(actions), s.sink[|sink|..], v.upTo, v.checkpoint)
    ensures i > 0 ==> s.history.saves[i - 1].upTo < s.history.saves[i].upTo
    ensures s.stored == Some(s.history.saves[|s.history.saves| - 1].checkpoint)
  {
    hide FoldOf, HistoryOk, Run, Offered;
    RunFacts(env, sink, stored, actions, s);
    SaveIsFold(env, s.history, s.sink, Offered(actions), i);
  }

  lemma SaveIsFold(env: Env, h: History, sink: seq<EncodedEvent>, offered: seq<SourceRecord>, i: nat)
    requires HistoryOk(env, h, sink) && h.settled <= offered && i < |h.saves|
    ensures h.base <= sink
    ensures FoldOf(env, h.resumed, offered, sink[|h.base|..], h.saves[i].upTo, h.saves[i].checkpoint)
    ensures i > 0 ==> h.saves[i - 1].upTo < h.saves[i].upTo
  {
    var v := h.saves[i];
    assert SaveOk(env, h.resumed, h.settled, sink[|h.base|..], v);
    assert offered[..v.upTo] == h.settled[..v.upTo];
  }

  /** Without a save the stored checkpoint is the one the run started from. */
  lemma StoredOnlyBySaving(
      env: Env, sink: seq<EncodedEvent>, stored: Option<Checkpoint>, actions: seq<Action>, s: State)
    requires Run(env, Start(sink, stored), actions) == Some(s) && s.history.saves == []
    ensures s.stored == stored && s.acknowledged == PositionOf(stored)
  {
    StartInv(env, sink, stored);
    RunInv(env, Start(sink, stored), actions);
    HistoryIsFaithful(env, sink, stored, actions);
  }

  /** The stored checkpoint of any run, in one statement. */
  lemma StoredCheckpoint(env: Env, sink: seq<EncodedEvent>, stored: Option<Checkpoint>, actions: seq<Action>, s: State)
    requires Run(env, Start(sink, stored), actions) == Some(s)
    ensures sink <= s.sink
    ensures || s.stored == stored
            || (s.stored.Some?
                && exists n :: FoldOf(env, stored, Offered(actions), s.sink[|sink|..], n, s.stored.value))
  {
    hide FoldOf, HistoryOk, Run, Offered;
    RunFacts(env, sink, stored, actions, s);
    var h := s.history;
    if h.saves == [] {
      StoredOnlyBySaving(env, sink, stored, actions, s);
      BaseKept(env, h, s.sink);
    } else {
      CheckpointIsFoldOfHistory(env, sink, stored, actions, s, |h.saves| - 1);
    }
  }

  lemma BaseKept(env: Env, h: History, sink: seq<EncodedEvent>)
    requires HistoryOk(env, h, sink)
    ensures h.base <= sink
  {
  }

  /** With nothing open, the checkpoint covers everything offered. */
  lemma CleanStop(env: Env, sink: seq<EncodedEvent>, stored: Option<Checkpoint>, actions: seq<Action>, s: State)
    requires Run(env, Start(sink, stored), actions) == Some(s)
    requires s.phase == Halted(true) && s.history.open == [] && Offered(actions) != []
    ensures sink <= s.sink
    ensures s.stored.Some?
    ensures FoldOf(env, stored, Offered(actions), s.sink[|sink|..], |Offered(actions)|, s.stored.value)
  {
    hide FoldOf, Run, Offered;
    RunFacts(env, sink, stored, actions, s);
    HistoryIsFaithful(env, sink, stored, actions);
    var h := s.history;
    assert Consumed(h) == h.settled;
    CoversAll(env, h, s.sink);
    CheckpointIsFoldOfHistory(env, sink, stored, actions, s, |h.saves| - 1);
  }

  lemma CoversAll(env: Env, h: History, sink: seq<EncodedEvent>)
    requires HistoryOk(env, h, sink) && h.settled != []
    ensures h.saves != [] && h.saves[|h.saves| - 1].upTo == |h.settled|
  {
  }

  /** A flush finds no position exactly when no record is open. */
  lemma NothingPending(env: Env, sink: seq<EncodedEvent>, stored: Option<Checkpoint>, actions: seq<Action>, s: State)
    requires Run(env, Start(sink, stored), actions) == Some(s) && s.phase.Flushing?
    ensures s.pending.highest.None? <==> s.history.open == []
  {
    hide Run, Offered, Encodings, Signals, HistoryOk, FoldOk;
    StartInv(env, sink, stored);
    RunInv(env, Start(sink, stored), actions);
  }

  // ---- The acknowledgement chain ----

  /** The acknowledged position is the initial one or one whose checkpoint has been saved. */
  lemma AcknowledgedIsCheckpointed(
      env: Env, sink: seq<EncodedEvent>, stored: Option<Checkpoint>, actions: seq<Action>, s: State)
    requires Run(env, Start(sink, stored), actions) == Some(s)
    ensures || s.acknowledged == PositionOf(stored)
            || exists i | 0 <= i < |s.history.saves| :: s.acknowledged == Some(s.history.saves[i].checkpoint.position)
  {
    RunFacts(env, sink, stored, actions, s);
    var h := s.history;
    if h.acks != [] {
      assert h.acks[|h.acks| - 1] == h.saves[|h.acks| - 1].checkpoint.position;
    }
  }

  /**
   * Signals are released in source order, and only those of records that the stored checkpoint covers: that
   * checkpoint is the fold of a prefix containing them, and carries the state of the last record in it that has one.
   */
  lemma SignalsAreDurable(env: Env, sink: seq<EncodedEvent>, stored: Option<Checkpoint>, actions: seq<Action>, s: State)
    requires Run(env, Start(sink, stored), actions) == Some(s) && s.history.released != []
    ensures s.history.saves != []
    ensures var v := s.history.saves[|s.history.saves| - 1];
            && v.upTo <= |Offered(actions)|
            && s.history.released <= Signals(Offered(actions)[..v.upTo])
            && s.stored == Some(v.checkpoint)
            && v.checkpoint.connectorState == LatestState(stored, Offered(actions)[..v.upTo])
            && forall i | 0 <= i < v.upTo && LastWithState(Offered(actions)[..v.upTo], i) ::
                 v.checkpoint.connectorState == Offered(actions)[i].connectorState
  {
    RunFacts(env, sink, stored, actions, s);
    var h := s.history;
    var last := |h.saves| - 1;
    CheckpointIsFoldOfHistory(env, sink, stored, actions, s, last);
    var covered := Offered(actions)[..h.saves[last].upTo];
    assert h.settled == covered;
    forall i | 0 <= i < |covered| && LastWithState(covered, i)
      ensures LatestState(stored, covered) == Offered(actions)[i].connectorState
    {
      LatestStateIsLatest(stored, covered, i);
    }
  }

  /** Only a save, a publication and a release touch what is durable or promised. */
  lemma OnlyTheirSteps(env: Env, s: State, a: Action)
    requires Step(env, s, a).Some?
    ensures var t := Step(env, s, a).value;
            && (!a.Save? ==> t.stored == s.stored)
            && (!a.Publish? ==> t.acknowledged == s.acknowledged)
            && (!a.Release? ==> t.history.released == s.history.released)
            && (!a.Deliver? ==> t.sink == s.sink)
  {
    hide RecordEncoding, MovesBackwards, Flushes;
  }

  /**
   * A step that ends the run without having stored a checkpoint (backwards record, encoding failure, failed or
   * cancelled write, rejected save, closed channel) changes no checkpoint, acknowledgement or signal, and nothing
   * follows it.
   */
  lemma {:induction false} FailureIsFinal(env: Env, s: State, a: Action, more: seq<Action>)
    requires Step(env, s, a).Some? && Step(env, s, a).value.phase.Halted? && a != Save(StoredButFailed)
    requires Run(env, Step(env, s, a).value, more).Some?
    ensures more == []
    ensures var t := Step(env, s, a).value;
            && t.stored == s.stored
            && t.acknowledged == s.acknowledged
            && t.history.released == s.history.released
  {
    hide Run, ConsumeRecord, BeginFlush;
    OnlyTheirSteps(env, s, a);
    HaltedIsFinal(env, Step(env, s, a).value, more);
  }

  lemma {:induction false} HaltedIsFinal(env: Env, s: State, actions: seq<Action>)
    requires s.phase.Halted? && Run(env, s, actions).Some?
    ensures actions == []
  {
    if actions != [] {
      HaltedIsFinal(env, s, actions[..|actions| - 1]);
    }
  }

  // ---- Monotone progress ----

  ghost predicate Precedes(a: Option<SourcePosition>, b: SourcePosition) {
    a.None? || IsAtOrBefore(a.value, b)
  }

  function Before(start: Option<SourcePosition>, rs: seq<SourceRecord>, k: nat): Option<SourcePosition>
    requires k <= |rs|
  {
    if k == 0 then start else Some(rs[k - 1].position)
  }

  /** The source never emits a position that is not at or after the previous one, nor the resumed one. */
  ghost predicate Ascending(start: Option<SourcePosition>, rs: seq<SourceRecord>) {
    forall k | 0 <= k < |rs| :: Precedes(Before(start, rs, k), rs[k].position)
  }

  /** Checkpoints of a run never move backwards. */
  ghost predicate Progresses(start: Option<SourcePosition>, saves: seq<Saved>) {
    && (forall i | 0 <= i < |saves| :: Precedes(start, saves[i].checkpoint.position))
    && (forall i, j | 0 <= i <= j < |saves| ::
          IsAtOrBefore(saves[i].checkpoint.position, saves[j].checkpoint.position))
  }

  lemma AscendingStep(start: Option<SourcePosition>, rs: seq<SourceRecord>, j: nat)
    requires Ascending(start, rs) && 0 < j < |rs|
    ensures IsAtOrBefore(rs[j - 1].position, rs[j].position)
  {
    hide IsAtOrBefore;
    assert Precedes(Before(start, rs, j), rs[j].position);
  }

  lemma {:induction false} AscendingOrders(start: Option<SourcePosition>, rs: seq<SourceRecord>, i: nat, j: nat)
    requires Ascending(start, rs) && i <= j < |rs|
    ensures IsAtOrBefore(rs[i].position, rs[j].position)
    decreases j
  {
    hide IsAtOrBefore, Precedes;
    IsAtOrBeforeIsPartialOrder(rs[i].position, rs[i].position, rs[i].position);
    if i < j {
      AscendingOrders(start, rs, i, j - 1);
      AscendingStep(start, rs, j);
      IsAtOrBeforeIsPartialOrder(rs[i].position, rs[j - 1].position, rs[j].position);
    }
  }

  lemma AscendingFromStart(start: Option<SourcePosition>, rs: seq<SourceRecord>, j: nat)
    requires Ascending(start, rs) && j < |rs|
    ensures Precedes(start, rs[j].position)
  {
    assert Precedes(Before(start, rs, 0), rs[0].position);
    AscendingOrders(start, rs, 0, j);
    if start.Some? {
      IsAtOrBeforeIsPartialOrder(start.value, rs[0].position, rs[j].position);
    }
  }

  /** With an ascending source, checkpoints and acknowledgements never move backwards. */
  lemma ProgressIsMonotone(
      env: Env, sink: seq<EncodedEvent>, stored: Option<Checkpoint>, actions: seq<Action>, s: State)
    requires Run(env, Start(sink, stored), actions) == Some(s)
    requires Ascending(PositionOf(stored), Offered(actions))
    ensures Progresses(PositionOf(stored), s.history.saves)
    ensures forall i, j | 0 <= i <= j < |s.history.acks| :: IsAtOrBefore(s.history.acks[i], s.history.acks[j])
  {
    hide IsAtOrBefore;
    RunFacts(env, sink, stored, actions, s);
    SavesProgress(env, s.history, s.sink, Offered(actions));
    var saves, acks := s.history.saves, s.history.acks;
    forall i, j | 0 <= i <= j < |acks|
      ensures IsAtOrBefore(acks[i], acks[j])
    {
      assert acks[i] == saves[i].checkpoint.position && acks[j] == saves[j].checkpoint.position;
    }
  }

  lemma SavedPosition(env: Env, h: History, sink: seq<EncodedEvent>, i: nat)
    requires HistoryOk(env, h, sink) && i < |h.saves|
    ensures 0 < h.saves[i].upTo <= |h.settled|
    ensures h.saves[i].checkpoint.position == h.settled[h.saves[i].upTo - 1].position
    ensures forall j | 0 <= j < i :: h.saves[j].upTo < h.saves[i].upTo
  {
    hide Subseq, Encodings, SnapshotSeen, LatestState;
    assert SaveOk(env, h.resumed, h.settled, sink[|h.base|..], h.saves[i]);
  }

  lemma SavesProgress(env: Env, h: History, sink: seq<EncodedEvent>, rs: seq<SourceRecord>)
    requires HistoryOk(env, h, sink) && h.settled <= rs && Ascending(PositionOf(h.resumed), rs)
    ensures Progresses(PositionOf(h.resumed), h.saves)
  {
    hide IsAtOrBefore, Precedes, Ascending, HistoryOk;
    var saves := h.saves;
    forall i | 0 <= i < |saves|
      ensures Precedes(PositionOf(h.resumed), saves[i].checkpoint.position)
    {
      SavedPosition(env, h, sink, i);
      AscendingFromStart(PositionOf(h.resumed), rs, saves[i].upTo - 1);
    }
    forall i, j | 0 <= i <= j < |saves|
      ensures IsAtOrBefore(saves[i].checkpoint.position, saves[j].checkpoint.position)
    {
      SavedPosition(env, h, sink, i);
      SavedPosition(env, h, sink, j);
      AscendingOrders(PositionOf(h.resumed), rs, saves[i].upTo - 1, saves[j].upTo - 1);
    }
  }

  /** Record `k` of the history starts a batch: a save covers exactly the records before it. */
  predicate StartsBatch(saves: seq<Saved>, k: nat) {
    exists i | 0 <= i < |saves| :: saves[i].upTo == k
  }

  /** Inside one batch the positions ascend, whatever the source does. */
  ghost predicate BatchesAscend(rs: seq<SourceRecord>, saves: seq<Saved>) {
    forall k | 0 < k < |rs| && !StartsBatch(saves, k) :: IsAtOrBefore(rs[k - 1].position, rs[k].position)
  }

  lemma BatchesAscendSnoc(h: History, r: SourceRecord, pending: PendingBatch)
    requires BatchesAscend(Consumed(h), h.saves)
    requires pending.highest == LastPosition(h.open) && !MovesBackwards(pending, r.position)
    requires |h.settled| == (if h.saves == [] then 0 else h.saves[|h.saves| - 1].upTo)
    ensures BatchesAscend(Consumed(h) + [r], h.saves)
  {
    var rs := Consumed(h) + [r];
    if h.open == [] && h.saves != [] {
      assert h.saves[|h.saves| - 1].upTo == |Consumed(h)|;
    }
    forall k | 0 < k < |rs| && !StartsBatch(h.saves, k)
      ensures IsAtOrBefore(rs[k - 1].position, rs[k].position)
    {
    }
  }

  lemma MoreSaves(rs: seq<SourceRecord>, saves: seq<Saved>, v: Saved)
    requires BatchesAscend(rs, saves)
    ensures BatchesAscend(rs, saves + [v])
  {
    hide IsAtOrBefore;
    forall k | StartsBatch(saves, k)
      ensures StartsBatch(saves + [v], k)
    {
      var i :| 0 <= i < |saves| && saves[i].upTo == k;
      assert (saves + [v])[i].upTo == k;
    }
  }

  /** How a step extends the history of consumed records and of saves. */
  lemma StepHistory(env: Env, s: State, a: Action)
    requires Step(env, s, a).Some?
    ensures var h, k := s.history, Step(env, s, a).value.history;
            && (k.saves == h.saves || exists v :: k.saves == h.saves + [v])
            && (|| Consumed(k) == Consumed(h)
                || (&& a.Consume? && s.phase.Idle? && !MovesBackwards(s.pending, a.record.position)
                    && k.saves == h.saves && Consumed(k) == Consumed(h) + [a.record]))
  {
    hide Encodings, Signals, IsAfter, RecordEncoding;
    var h, k := s.history, Step(env, s, a).value.history;
    if a.Consume? {
      assert h.settled + (h.open + [a.record]) == Consumed(h) + [a.record];
    } else if a.Save? {
      assert Consumed(h) + [] == Consumed(h);
    }
  }

  lemma StepBatchesAscend(env: Env, s: State, a: Action)
    requires Step(env, s, a).Some? && BatchesAscend(Consumed(s.history), s.history.saves)
    requires s.phase.Idle? ==> s.pending.highest == LastPosition(s.history.open)
    requires |s.history.settled| == (if s.history.saves == [] then 0 else s.history.saves[|s.history.saves| - 1].upTo)
    ensures var t := Step(env, s, a).value; BatchesAscend(Consumed(t.history), t.history.saves)
  {
    hide IsAtOrBefore, BatchesAscend, MovesBackwards, Step;
    StepHistory(env, s, a);
    var h, k := s.history, Step(env, s, a).value.history;
    if k.saves != h.saves {
      var v :| k.saves == h.saves + [v];
      MoreSaves(Consumed(h), h.saves, v);
    } else if Consumed(k) != Consumed(h) {
      BatchesAscendSnoc(h, a.record, s.pending);
    }
  }

  /** The guard on the unflushed batch is enough to order each single batch. */
  lemma {:induction false} EachBatchAscends(
      env: Env, sink: seq<EncodedEvent>, stored: Option<Checkpoint>, actions: seq<Action>, s: State)
    requires Run(env, Start(sink, stored), actions) == Some(s)
    ensures BatchesAscend(Consumed(s.history), s.history.saves)
  {
    if actions != [] {
      var front := actions[..|actions| - 1];
      var t := Run(env, Start(sink, stored), front).value;
      EachBatchAscends(env, sink, stored, front, t);
      StartInv(env, sink, stored);
      RunInv(env, Start(sink, stored), front);
      StepBatchesAscend(env, t, actions[|actions| - 1]);
    }
  }

  // ---- What waits for the next flush ----

  /** Between flushes only data and heartbeats wait; after data the batch is not full, after a heartbeat not empty. */
  predicate MayWait(env: Env, open: seq<SourceRecord>) {
    && (forall i | 0 <= i < |open| :: open[i].boundary in {Data, Heartbeat})
    && (open != [] && open[|open| - 1].boundary == Data ==> |Encodings(env, open)| < env.maxBatchSize)
    && (open != [] && open[|open| - 1].boundary == Heartbeat ==> |Encodings(env, open)| > 0)
  }

  lemma StepMayWait(env: Env, s: State, a: Action)
    requires Inv(env, s) && Step(env, s, a).Some? && Step(env, s, a).value.phase.Idle?
    requires s.phase.Idle? ==> MayWait(env, s.history.open)
    ensures MayWait(env, Step(env, s, a).value.history.open)
  {
    hide Encodings, Signals, IsAfter, RecordEncoding, HistoryOk, FoldOk, AllEncode;
    NothingConsumed(env);
    if a.Consume? && !MovesBackwards(s.pending, a.record.position) && RecordEncoding(env, a.record).Some? {
      EncodingsSnoc(env, s.history.open, a.record);
    }
  }

  /** In every idle state of a run: boundaries, full batches and heartbeats over nothing were flushed at once. */
  lemma {:induction false} WhatWaits(
      env: Env, sink: seq<EncodedEvent>, stored: Option<Checkpoint>, actions: seq<Action>, s: State)
    requires Run(env, Start(sink, stored), actions) == Some(s) && s.phase.Idle?
    ensures MayWait(env, s.history.open)
  {
    hide Inv, Step, MayWait;
    if actions == [] {
      assert MayWait(env, []) by {
        NothingWaits(env);
      }
    } else {
      var front := actions[..|actions| - 1];
      var t := Run(env, Start(sink, stored), front).value;
      if t.phase.Idle? {
        WhatWaits(env, sink, stored, front, t);
      }
      StartInv(env, sink, stored);
      RunInv(env, Start(sink, stored), front);
      StepMayWait(env, t, actions[|actions| - 1]);
    }
  }

  lemma NothingWaits(env: Env)
    ensures MayWait(env, [])
  {
  }

  // ---- The assumption on the source is necessary ----

  lemma {:induction false} RunConcat(env: Env, s: State, a: seq<Action>, b: seq<Action>)
    requires Run(env, s, a).Some?
    ensures Run(env, s, a + b) == Run(env, Run(env, s, a).value, b)
  {
    hide Step;
    if b == [] {
      assert a + b == a;
    } else {
      assert (a + b)[..|a + b| - 1] == a + b[..|b| - 1];
      RunConcat(env, s, a, b[..|b| - 1]);
    }
  }

  lemma {:induction false} OfferedConcat(a: seq<Action>, b: seq<Action>)
    ensures Offered(a + b) == Offered(a) + Offered(b)
  {
    if b == [] {
      assert a + b == a;
    } else {
      assert (a + b)[..|a + b| - 1] == a + b[..|b| - 1];
      OfferedConcat(a, b[..|b| - 1]);
    }
  }

  lemma Then(env: Env, s: State, acts: seq<Action>, t: State, a: Action)
    requires Run(env, s, acts) == Some(t)
    ensures Run(env, s, acts + [a]) == Step(env, t, a)
    ensures Offered(acts + [a]) == Offered(acts) + if a.Consume? then [a.record] else []
  {
    hide Step;
    assert (acts + [a])[..|acts + [a]| - 1] == acts;
  }

  lemma RunNothing(env: Env, s: State)
    ensures Run(env, s, []) == Some(s) && Offered([]) == []
  {
  }

  lemma First(env: Env, s: State, a: Action)
    ensures Run(env, s, [a]) == Step(env, s, a)
    ensures Offered([a]) == if a.Consume? then [a.record] else []
  {
    hide Step;
    assert [a][..|[a]| - 1] == [];
  }

  /** Between batches: nothing pending, ready for the next record. */
  predicate Ready(s: State) {
    s.phase.Idle? && !s.stopping && s.pending == EMPTY_BATCH && s.history.open == []
  }

  lemma {:induction false} ReleaseAll(env: Env, s: State) returns (acts: seq<Action>, t: State)
    requires s.phase.Releasing? && !s.stopping && s.history.open == []
    requires s.pending.encoded == [] && s.pending.highest.None?
    ensures Run(env, s, acts) == Some(t) && Offered(acts) == []
    ensures Ready(t) && t.history.saves == s.history.saves && t.history.settled == s.history.settled
    decreases |s.pending.signals|
  {
    hide Run, Offered;
    if s.pending.signals == [] {
      acts, t := [Finish], EndFlush(s);
      First(env, s, Finish);
    } else {
      First(env, s, Release);
      var rest, u := ReleaseAll(env, ReleaseSignal(s));
      RunConcat(env, s, [Release], rest);
      OfferedConcat([Release], rest);
      acts, t := [Release] + rest, u;
    }
  }

  /** From a state about to save, an undisturbed environment completes the flush. */
  lemma CompleteSave(env: Env, s: State) returns (acts: seq<Action>, t: State)
    requires s.phase.Saving? && !s.stopping && s.pending.encoded == [] && s.pending.highest.None?
    ensures Run(env, s, acts) == Some(t) && Offered(acts) == []
    ensures Ready(t)
    ensures t.history.settled == Consumed(s.history)
    ensures t.history.saves == s.history.saves
            + [Saved(|Consumed(s.history)|, Checkpoint(s.phase.target, s.snapshotCompleted, s.connectorState))]
  {
    hide Run, Offered;
    First(env, s, Save(Stored));
    var v := SaveCheckpoint(s, Stored);
    Then(env, s, [Save(Stored)], v, Publish(true));
    acts := [Save(Stored)] + [Publish(true)];
    var rest, w := ReleaseAll(env, PublishAck(v, true));
    RunConcat(env, s, acts, rest);
    OfferedConcat(acts, rest);
    acts, t := acts + rest, w;
  }

  /** The same from a state about to write. */
  lemma CompleteFlush(env: Env, s: State) returns (acts: seq<Action>, t: State)
    requires s.phase.Saving? || s.phase.Writing?
    requires !s.stopping && s.pending.encoded == [] && s.pending.highest.None?
    ensures Run(env, s, acts) == Some(t) && Offered(acts) == []
    ensures Ready(t)
    ensures t.history.settled == Consumed(s.history)
    ensures t.history.saves == s.history.saves
            + [Saved(|Consumed(s.history)|, Checkpoint(s.phase.target, s.snapshotCompleted, s.connectorState))]
  {
    hide Run, Offered, Ready;
    if s.phase.Saving? {
      acts, t := CompleteSave(env, s);
    } else {
      var a := Deliver(|s.phase.batch|, Accepted);
      First(env, s, a);
      var rest, u := CompleteSave(env, DeliverBatch(env, s, |s.phase.batch|, Accepted));
      RunConcat(env, s, [a], rest);
      OfferedConcat([a], rest);
      acts, t := [a] + rest, u;
    }
  }

  /** Consuming a record from a ready state, and ticking if need be, starts a flush of exactly that record. */
  lemma StartOne(env: Env, s: State, r: SourceRecord) returns (acts: seq<Action>, t: State)
    requires Ready(s) && RecordEncoding(env, r).Some?
    ensures Run(env, s, acts) == Some(t) && Offered(acts) == [r]
    ensures (t.phase.Saving? || t.phase.Writing?) && t.phase.target == r.position
    ensures !t.stopping && t.pending.encoded == [] && t.pending.highest.None?
    ensures Consumed(t.history) == s.history.settled + [r] && t.history.saves == s.history.saves
  {
    hide Run, Offered, RecordEncoding;
    First(env, s, Consume(r));
    acts, t := [Consume(r)], ConsumeRecord(env, s, r);
    if t.phase.Idle? {
      Then(env, s, acts, t, Tick);
      acts, t := acts + [Tick], t.(phase := Flushing);
    }
    Then(env, s, acts, t, Begin);
    acts, t := acts + [Begin], BeginFlush(env, t);
  }

  /** One record, flushed at once. */
  lemma FlushOne(env: Env, s: State, r: SourceRecord) returns (acts: seq<Action>, t: State)
    requires Ready(s) && RecordEncoding(env, r).Some?
    ensures Run(env, s, acts) == Some(t) && Offered(acts) == [r]
    ensures Ready(t) && t.history.settled == s.history.settled + [r]
    ensures |t.history.saves| == |s.history.saves| + 1 && s.history.saves <= t.history.saves
    ensures t.history.saves[|s.history.saves|].checkpoint.position == r.position
  {
    hide Run, Offered, Ready, RecordEncoding;
    var a, u := StartOne(env, s, r);
    var b, v := CompleteFlush(env, u);
    RunConcat(env, s, a, b);
    OfferedConcat(a, b);
    acts, t := a + b, v;
  }

  ghost predicate OneSaveEach(saves: seq<Saved>, rs: seq<SourceRecord>) {
    |saves| == |rs| && forall i | 0 <= i < |rs| :: saves[i].checkpoint.position == rs[i].position
  }

  /** A schedule that flushes after every record: each record gets a checkpoint of its own. */
  lemma {:induction false} FlushEach(env: Env, s: State, rs: seq<SourceRecord>) returns (acts: seq<Action>, t: State)
    requires Ready(s) && s.history.saves == []
    requires forall r | r in rs :: RecordEncoding(env, r).Some?
    ensures Run(env, s, acts) == Some(t) && Offered(acts) == rs
    ensures Ready(t) && OneSaveEach(t.history.saves, rs)
  {
    hide Run, Offered, RecordEncoding;
    if rs == [] {
      acts, t := [], s;
      RunNothing(env, s);
    } else {
      var front, r := rs[..|rs| - 1], rs[|rs| - 1];
      var a, u := FlushEach(env, s, front);
      var b, v := FlushOne(env, u, r);
      RunConcat(env, s, a, b);
      OfferedConcat(a, b);
      acts, t := a + b, v;
      assert front + [r] == rs;
      forall i | 0 <= i < |rs|
        ensures t.history.saves[i].checkpoint.position == rs[i].position
      {
        if i < |front| {
          assert t.history.saves[i] == u.history.saves[i];
        }
      }
    }
  }

  /** No schedule over these records lets a checkpoint move backwards. */
  ghost predicate AlwaysProgresses(env: Env, stored: Option<Checkpoint>, rs: seq<SourceRecord>) {
    forall actions, s |
      Run(env, Start([], stored), actions) == Some(s) && Offered(actions) == rs ::
      Progresses(PositionOf(stored), s.history.saves)
  }

  /**
   * Exactly the ascending sources are safe: for records that encode, checkpoints never move backwards under
   * any schedule if and only if every position is at or after its predecessor and the resumed checkpoint.
   */
  lemma ProgressNeedsAscendingSource(env: Env, stored: Option<Checkpoint>, rs: seq<SourceRecord>)
    requires forall r | r in rs :: RecordEncoding(env, r).Some?
    ensures AlwaysProgresses(env, stored, rs) <==> Ascending(PositionOf(stored), rs)
  {
    if Ascending(PositionOf(stored), rs) {
      forall actions, s | Run(env, Start([], stored), actions) == Some(s) && Offered(actions) == rs
        ensures Progresses(PositionOf(stored), s.history.saves)
      {
        ProgressIsMonotone(env, [], stored, actions, s);
      }
    }
    if AlwaysProgresses(env, stored, rs) {
      var acts, t := FlushEach(env, Start([], stored), rs);
      var saves := t.history.saves;
      assert Progresses(PositionOf(stored), saves);
      forall k | 0 <= k < |rs|
        ensures Precedes(Before(PositionOf(stored), rs, k), rs[k].position)
      {
        assert saves[k].checkpoint.position == rs[k].position;
        if k > 0 {
          assert IsAtOrBefore(saves[k - 1].checkpoint.position, saves[k].checkpoint.position);
        }
      }
    }
  }
}
