/**
 * The pipeline task of rustium-core (runtime.rs) as imperative code over its own fields. Answers of the
 * environment are nondeterministic. Every effect is also a step of the machine in module Runtime, recorded in
 * the ghost field `steps`, so what is proved of all runs of the machine holds of the fields.
 */
module ConnectorRuntimes {
  import opened Prelude
  import opened Positions
  import opened Events
  import opened Backoff
  import R = Runtime
  import T = RuntimeTheorems

  /** How a pipeline method ends; `Killed` is the death of the process at an await. */
  datatype Outcome = Done | Failed | Cancelled | Killed

  /** Completed sleeps of a delivery: one between each two calls, and one more when killed before the next call. */
  function Sleeps(r: Outcome, calls: nat): nat {
    if r == Killed || calls == 0 then calls else calls - 1
  }

  /** What the select loop receives next. */
  datatype Input = TickFired | Received(record: SourceRecord) | ReceivedError | ChannelClosed | CancelRequested

  function Records(inputs: seq<Input>): seq<SourceRecord> {
    if inputs == [] then []
    else
      var last := inputs[|inputs| - 1];
      Records(inputs[..|inputs| - 1]) + if last.Received? then [last.record] else []
  }

  /** Whether a record with this boundary is followed by a flush when the batch has this many entries. */
  predicate FlushDue(env: Env, boundary: RecordBoundary, entries: nat) {
    || boundary == SnapshotComplete || boundary == TransactionCommit
    || (boundary == Data && entries >= env.maxBatchSize)
    || (boundary == Heartbeat && entries == 0)
  }

  predicate LeavesLoop(input: Input) { input.ChannelClosed? || input.CancelRequested? }

  class ConnectorRuntime {
    const env: Env
    // Durable: the sink's log and the checkpoint store.
    var sink: seq<EncodedEvent>
    var stored: Option<Checkpoint>
    // PendingBatch.
    var encoded: seq<EncodedEvent>
    var highest: Option<SourcePosition>
    var signals: seq<nat>
    // Locals of the pipeline loop.
    var snapshotCompleted: bool
    var connectorState: Option<ConnectorState>
    // The acknowledgement watch and the signals released so far.
    var acknowledged: Option<SourcePosition>
    var released: seq<nat>

    ghost const origin: R.State
    ghost var steps: seq<R.Action>
    ghost var state: R.State

    ghost predicate Valid()
      reads this
    {
      && R.Run(env, origin, steps) == Some(state)
      && Mirrors()
    }

    /** The fields are the components of the machine state. */
    ghost predicate Mirrors()
      reads this
    {
      && sink == state.sink && stored == state.stored
      && state.pending == R.PendingBatch(encoded, highest, signals)
      && snapshotCompleted == state.snapshotCompleted && connectorState == state.connectorState
      && acknowledged == state.acknowledged && released == state.history.released
    }

    /** A process that loads the checkpoint. */
    constructor (env: Env, sink: seq<EncodedEvent>, stored: Option<Checkpoint>)
      ensures Valid() && this.env == env && this.sink == sink && this.stored == stored
      ensures state.phase.Idle? && origin == R.Start(sink, stored) && steps == []
    {
      this.env, this.sink, this.stored := env, sink, stored;
      encoded, highest, signals := [], None, [];
      snapshotCompleted := stored.Some? && stored.value.snapshotCompleted;
      connectorState := if stored.Some? then stored.value.connectorState else None;
      acknowledged := if stored.Some? then Some(stored.value.position) else None;
      released := [];
      origin, steps, state := R.Start(sink, stored), [], R.Start(sink, stored);
    }

    /** Records that the machine takes the given step; the caller then brings the fields in line. */
    ghost method Advance(a: R.Action)
      requires R.Run(env, origin, steps) == Some(state) && R.Step(env, state, a).Some?
      modifies this`steps, this`state
      ensures R.Run(env, origin, steps) == Some(state)
      ensures Some(state) == R.Step(env, old(state), a)
      ensures T.Offered(steps) == old(T.Offered(steps)) + if a.Consume? then [a.record] else []
    {
      hide R.Step, R.Run, T.Offered;
      T.Then(env, origin, steps, state, a);
      state := R.Step(env, state, a).value;
      steps := steps + [a];
    }

    /** Sleeps `retry.delay` before the next attempt, unless the retry budget is spent or cancellation interrupts. */
    method WaitForSinkRetry(retry: RetryState) returns (r: Outcome, next: RetryState)
      ensures R.Exhausted(env, retry) <==> r == Failed
      ensures r != Killed
      ensures r == Done ==> next == RetryState(retry.attempts + 1, NextDelay(retry.delay, env.maxDelay))
    {
      next := retry;
      if env.maxRetries >= 0 && retry.attempts >= env.maxRetries {
        return Failed, next;
      }
      next := RetryState(retry.attempts + 1, retry.delay);
      var interrupted: bool := *;
      if interrupted {
        return Cancelled, next;
      }
      var doubled := 2 * retry.delay;
      if doubled > MAX_DURATION {
        doubled := MAX_DURATION;
      }
      next := RetryState(next.attempts, if doubled <= env.maxDelay then doubled else env.maxDelay);
      r := Done;
    }

    /** One call of the sink: any prefix of the batch reaches its log; all of it when the call succeeds. */
    method Call(batch: seq<EncodedEvent>, n: nat, outcome: R.WriteOutcome)
      requires Valid() && state.phase.Writing? && batch == state.phase.batch && n <= |batch|
      requires outcome == R.Accepted ==> n == |batch|
      modifies this`sink, this`steps, this`state
      ensures Valid() && sink == old(sink) + batch[..n]
      ensures state.history == old(state.history) && state.stopping == old(state.stopping)
      ensures T.Offered(steps) == old(T.Offered(steps))
      ensures var busy := old(state.phase);
              state.phase ==
              match outcome
              case Accepted => R.Saving(busy.target)
              case Fatal => R.Halted(false)
              case Retryable =>
                if R.Exhausted(env, busy.retry) then R.Halted(false)
                else R.Sleeping(batch, busy.target, RetryState(busy.retry.attempts + 1, busy.retry.delay))
    {
      hide R.Step, R.Run, R.DeliverBatch, T.Offered;
      R.DeliverEffect(env, state, n, outcome);
      Advance(R.Deliver(n, outcome));
      sink := sink + batch[..n];
    }

    /** Whatever number of sleeps the budget allows, their sum is within `maxRetries` times the cap. */
    lemma SleepsWithinBudget()
      ensures env.maxRetries >= 0 && env.initialDelay <= env.maxDelay <= MAX_DURATION ==>
                forall n: nat | n <= env.maxRetries ::
                  TotalDelay(env.initialDelay, env.maxDelay, n) <= env.maxRetries * env.maxDelay
    {
      if env.maxRetries >= 0 && env.initialDelay <= env.maxDelay <= MAX_DURATION {
        forall n: nat | n <= env.maxRetries
          ensures TotalDelay(env.initialDelay, env.maxDelay, n) <= env.maxRetries * env.maxDelay
        {
          RetryBudget(env.initialDelay, env.maxDelay, n, env.maxRetries);
        }
      }
    }

    /**
     * One delivery with retries: the same batch each time, at most `maxRetries + 1` calls of the sink when the
     * budget is finite, and on success the sink log ends with the whole batch. `waited` sums the completed sleeps.
     * `lifetime` bounds the number of calls before the process is killed; `cuts` lists how much of the batch each
     * call appended.
     */
    method WriteSinkWithRetry(batch: seq<EncodedEvent>, target: SourcePosition, lifetime: nat)
      returns (r: Outcome, calls: nat, waited: nat, ghost cuts: seq<nat>)
      requires Valid() && state.phase == R.Writing(batch, target, RetryState(0, env.initialDelay))
      modifies this`sink, this`steps, this`state
      ensures Valid()
      ensures T.Offered(steps) == old(T.Offered(steps))
      ensures r == Done ==> EndsWith(sink, batch)
      ensures match r
              case Done => state.phase == R.Saving(target)
              case Failed => state.phase == R.Halted(false)
              case Cancelled => state.phase == R.Halted(true)
              case Killed => state.phase.Writing? && calls == lifetime
      ensures state.history == old(state.history) && state.stopping == old(state.stopping)
      ensures env.maxRetries >= 0 ==> calls <= env.maxRetries + 1 && Sleeps(r, calls) <= env.maxRetries
      ensures waited == TotalDelay(env.initialDelay, env.maxDelay, Sleeps(r, calls))
      ensures env.maxRetries >= 0 && env.initialDelay <= env.maxDelay <= MAX_DURATION ==>
                waited <= env.maxRetries * env.maxDelay
      ensures |cuts| == calls && (forall i | 0 <= i < calls :: cuts[i] <= |batch|)
      ensures sink == old(sink) + Attempts(batch, cuts)
      ensures r == Done ==> calls > 0 && cuts[calls - 1] == |batch|
    {
      hide Valid, R.Step, R.Run, T.Offered, NextDelay, DelayAt, TotalDelay, Attempts, EndsWith;
      DelayStep(env.initialDelay, env.maxDelay, 0);
      var retry := RetryState(0, env.initialDelay);
      calls, waited, cuts := 0, 0, [];
      AttemptsStep(sink, batch, cuts, 0);
      SleepsWithinBudget();
      while calls < lifetime
        invariant calls <= lifetime
        invariant Valid() && state.phase == R.Writing(batch, target, retry)
        invariant state.history == old(state.history) && state.stopping == old(state.stopping)
        invariant T.Offered(steps) == old(T.Offered(steps))
        invariant calls == retry.attempts && retry.delay == DelayAt(env.initialDelay, env.maxDelay, calls + 1)
        invariant waited == TotalDelay(env.initialDelay, env.maxDelay, calls)
        invariant env.maxRetries >= 0 ==> calls <= env.maxRetries
        invariant |cuts| == calls && forall i | 0 <= i < calls :: cuts[i] <= |batch|
        invariant sink == old(sink) + Attempts(batch, cuts)
      {
        var outcome: R.WriteOutcome := *;
        var n := |batch|;
        if outcome != R.Accepted {
          n :| 0 <= n <= |batch|;
        }
        AttemptsStep(old(sink), batch, cuts, n);
        ghost var before := sink;
        Call(batch, n, outcome);
        calls := calls + 1;
        cuts := cuts + [n];
        match outcome {
          case Accepted =>
            assert batch[..n] == batch;
            EndsWithAll(before, batch);
            return Done, calls, waited, cuts;
          case Fatal => return Failed, calls, waited, cuts;
          case Retryable =>
            var wait, next := WaitForSinkRetry(retry);
            if wait == Failed {
              return Failed, calls, waited, cuts;
            }
            AfterSleep(wait);
            if wait == Cancelled {
              return Cancelled, calls, waited, cuts;
            }
            DelayStep(env.initialDelay, env.maxDelay, retry.attempts);
            waited := waited + retry.delay;
            retry := next;
        }
      }
      r := Killed;
    }

    /** The sleep between attempts ends, by itself or by cancellation. */
    ghost method AfterSleep(wait: Outcome)
      requires Valid() && state.phase.Sleeping?
      modifies this`steps, this`state
      ensures Valid() && T.Offered(steps) == old(T.Offered(steps))
      ensures state.history == old(state.history) && state.stopping == old(state.stopping)
      ensures state.phase == old(
        if wait == Cancelled then R.Halted(true)
        else R.Writing(state.phase.batch, state.phase.target,
                       RetryState(state.phase.retry.attempts, NextDelay(state.phase.retry.delay, env.maxDelay))))
    {
      hide R.Run, T.Offered, R.BeginFlush, R.ConsumeRecord;
      Advance(if wait == Cancelled then R.CancelSleep else R.Wake);
    }

    /** The attached signals are released one by one, in order. */
    method ReleaseSignals()
      requires Valid() && state.phase.Releasing?
      modifies this`signals, this`released, this`steps, this`state
      ensures Valid() && state.phase.Releasing? && T.Offered(steps) == old(T.Offered(steps))
      ensures signals == [] && released == old(released) + old(signals)
      ensures state.stopping == old(state.stopping)
      ensures state.history.(released := []) == old(state.history).(released := [])
    {
      hide R.Run, T.Offered, R.Step;
      while signals != []
        invariant Valid() && state.phase.Releasing? && T.Offered(steps) == old(T.Offered(steps))
        invariant released + signals == old(released) + old(signals)
        invariant state.stopping == old(state.stopping)
        invariant state.history.(released := []) == old(state.history).(released := [])
        decreases |signals|
      {
        R.NextStep(env, state, R.Stored, true);
        Advance(R.Release);
        released := released + [signals[0]];
        signals := signals[1..];
      }
    }

    /** Saves the checkpoint for everything consumed so far. */
    method SaveCheckpoint(position: SourcePosition) returns (r: Outcome)
      requires Valid() && state.phase == R.Saving(position)
      modifies this`stored, this`steps, this`state
      ensures Valid() && T.Offered(steps) == old(T.Offered(steps))
      ensures r == Done || (r == Failed && state.phase == R.Halted(false))
      ensures stored == Some(Checkpoint(position, snapshotCompleted, connectorState))
              || (r == Failed && stored == old(stored))
      ensures r == Done ==> state.phase == R.Publishing(position) && state.stopping == old(state.stopping)
      ensures r == Done ==> state.history.settled == R.Consumed(old(state.history)) && state.history.open == []
    {
      hide R.Run, T.Offered, R.Step;
      var checkpoint := Checkpoint(position, snapshotCompleted, connectorState);
      var result: R.SaveOutcome := *;
      R.NextStep(env, state, result, true);
      Advance(R.Save(result));
      if result != R.Rejected {
        stored := Some(checkpoint);
      }
      r := if result == R.Stored then Done else Failed;
    }

    /** Publishes the saved position on the acknowledgement watch; fails when the source is gone. */
    method PublishAck(position: SourcePosition) returns (r: Outcome)
      requires Valid() && state.phase == R.Publishing(position)
      modifies this`acknowledged, this`steps, this`state
      ensures Valid() && T.Offered(steps) == old(T.Offered(steps))
      ensures r == Done || (r == Failed && state.phase == R.Halted(false))
      ensures acknowledged == if r == Done then Some(position) else old(acknowledged)
      ensures r == Done ==> state.phase.Releasing? && state.stopping == old(state.stopping)
      ensures r == Done ==> state.history.(acks := []) == old(state.history).(acks := [])
    {
      hide R.Run, T.Offered, R.Step;
      var open: bool := *;
      R.NextStep(env, state, R.Stored, open);
      Advance(R.Publish(open));
      if open {
        acknowledged := Some(position);
      }
      r := if open then Done else Failed;
    }

    /** Saves the checkpoint, publishes its position, releases the signals. */
    method SaveAndAcknowledge(position: SourcePosition) returns (r: Outcome)
      requires Valid() && state.phase == R.Saving(position)
      modifies this`stored, this`acknowledged, this`signals, this`released, this`steps, this`state
      ensures Valid() && T.Offered(steps) == old(T.Offered(steps))
      ensures r == Done || (r == Failed && state.phase == R.Halted(false))
      ensures stored == Some(Checkpoint(position, snapshotCompleted, connectorState))
              || (r == Failed && stored == old(stored))
      ensures r == Done ==> acknowledged == Some(position) && signals == [] && released == old(released) + old(signals)
      ensures r == Failed ==> acknowledged == old(acknowledged) && released == old(released)
      ensures r == Done ==> state.phase.Releasing? && state.stopping == old(state.stopping)
      ensures r == Done ==> state.history.settled == R.Consumed(old(state.history)) && state.history.open == []
    {
      hide R.Run, T.Offered, R.Step;
      r := SaveCheckpoint(position);
      if r == Done {
        r := PublishAck(position);
      }
      if r == Done {
        ReleaseSignals();
      }
    }

    /** What a completed flush of a non-empty batch has established. */
    ghost predicate Flushed(batch: seq<EncodedEvent>, target: SourcePosition)
      reads this
    {
      && EndsWith(sink, batch)
      && stored == Some(Checkpoint(target, snapshotCompleted, connectorState))
      && acknowledged == Some(target)
      && encoded == [] && highest.None? && signals == []
      && state.history.open == []
    }

    /**
     * Delivers the pending batch, saves its checkpoint and acknowledges it, in this order. A flush that does not
     * complete acknowledges nothing and releases nothing, and the run is over.
     */
    method FlushBatch(lifetime: nat) returns (r: Outcome)
      requires Valid() && state.phase.Flushing?
      modifies this
      ensures Valid() && T.Offered(steps) == old(T.Offered(steps))
      ensures r == Done && old(highest).Some? ==> Flushed(old(encoded), old(highest).value)
      ensures r == Done && old(highest).Some? ==> released == old(released) + old(signals)
      ensures r == Done && old(highest).Some? ==> state.history.settled == R.Consumed(old(state.history))
      ensures r == Done && old(highest).None? ==>
                sink == old(sink) && stored == old(stored) && acknowledged == old(acknowledged)
                && released == old(released) && state.history == old(state.history)
      ensures r != Done ==> acknowledged == old(acknowledged) && released == old(released)
      ensures r == Done ==> state.stopping == old(state.stopping)
      ensures r == Done ==> state.phase == if state.stopping then R.Halted(true) else R.Idle
      ensures r == Failed || r == Cancelled ==> state.phase.Halted?
      ensures r == Killed ==> state.phase.Writing?
      ensures snapshotCompleted == old(snapshotCompleted) && connectorState == old(connectorState)
    {
      hide R.Run, T.Offered, R.Step;
      R.NextStep(env, state, R.Stored, true);
      Advance(R.Begin);
      if highest.None? {
        return Done;
      }
      var position, batch := highest.value, encoded;
      highest, encoded := None, [];
      r := CompleteFlush(batch, position, lifetime);
    }

    /** The flush of a batch taken out of memory. */
    method CompleteFlush(batch: seq<EncodedEvent>, position: SourcePosition, lifetime: nat) returns (r: Outcome)
      requires Valid() && encoded == [] && highest.None?
      requires state.phase == if batch == [] then R.Saving(position)
                              else R.Writing(batch, position, RetryState(0, env.initialDelay))
      modifies this`sink, this`stored, this`acknowledged, this`signals, this`released, this`steps, this`state
      ensures Valid() && T.Offered(steps) == old(T.Offered(steps))
      ensures r == Done ==> Flushed(batch, position)
      ensures r == Done ==> released == old(released) + old(signals)
      ensures r == Done ==> state.history.settled == R.Consumed(old(state.history))
      ensures r != Done ==> acknowledged == old(acknowledged) && released == old(released)
      ensures r == Done ==> state.stopping == old(state.stopping)
      ensures r == Done ==> state.phase == if state.stopping then R.Halted(true) else R.Idle
      ensures r == Failed || r == Cancelled ==> state.phase.Halted?
      ensures r == Killed ==> state.phase.Writing?
    {
      hide R.Run, T.Offered, R.Step;
      r := Done;
      if batch != [] {
        var calls, waited;
        ghost var cuts;
        r, calls, waited, cuts := WriteSinkWithRetry(batch, position, lifetime);
      }
      if r == Done {
        r := SaveAndAcknowledge(position);
      }
      if r == Done {
        R.NextStep(env, state, R.Stored, true);
        Advance(R.Finish);
      }
    }

    /** Whether the batch is flushed after a record with this boundary. */
    method MustFlush(boundary: RecordBoundary) returns (flush: bool)
      ensures flush <==> FlushDue(env, boundary, |encoded|)
      ensures flush <==> R.Flushes(env, boundary, encoded)
    {
      match boundary {
        case SnapshotComplete => flush := true;
        case TransactionCommit => flush := true;
        case Data => flush := |encoded| >= env.maxBatchSize;
        case Heartbeat => flush := encoded == [];
      }
    }

    /** Takes a record with its encodings into the pending batch; decides whether to flush. */
    method Admit(record: SourceRecord, added: seq<EncodedEvent>) returns (flush: bool)
      requires Valid() && state.phase.Idle?
      requires !R.MovesBackwards(state.pending, record.position) && RecordEncoding(env, record) == Some(added)
      modifies this`encoded, this`highest, this`signals, this`snapshotCompleted, this`connectorState,
               this`steps, this`state
      ensures Valid() && T.Offered(steps) == old(T.Offered(steps)) + [record]
      ensures state.phase == (if flush then R.Flushing else R.Idle) && state.stopping == old(state.stopping)
      ensures encoded == old(encoded) + added && highest == Some(record.position)
      ensures signals == old(signals) + record.signals
      ensures flush <==> FlushDue(env, record.boundary, |encoded|)
      ensures R.Consumed(state.history) == R.Consumed(old(state.history)) + [record]
    {
      hide R.Run, T.Offered, R.Step, IsAfter, R.MovesBackwards, RecordEncoding, R.Inv, R.ConsumeRecord;
      hide FlushDue, R.Flushes;
      R.ConsumeEffect(env, state, record);
      Advance(R.Consume(record));
      encoded := encoded + added;
      highest := Some(record.position);
      if record.connectorState.Some? {
        connectorState := record.connectorState;
      }
      signals := signals + record.signals;
      if record.boundary == SnapshotComplete {
        snapshotCompleted := true;
      }
      flush := MustFlush(record.boundary);
      assert old(state.history).settled + (old(state.history).open + [record])
          == R.Consumed(old(state.history)) + [record];
    }

    /** The record ends the run. */
    ghost method Refuse(record: SourceRecord)
      requires Valid() && state.phase.Idle?
      requires R.MovesBackwards(state.pending, record.position) || RecordEncoding(env, record).None?
      modifies this`steps, this`state
      ensures Valid() && T.Offered(steps) == old(T.Offered(steps)) + [record]
      ensures state.phase == R.Halted(false)
    {
      hide R.Run, T.Offered, R.Step, R.MovesBackwards, RecordEncoding;
      R.ConsumeEffect(env, state, record);
      Advance(R.Consume(record));
    }

    /**
     * Encodes a record into the pending batch and flushes at a boundary. A record that moves backwards within the
     * batch or cannot be encoded ends the run with nothing delivered, saved or acknowledged for it.
     */
    method ConsumeRecord(record: SourceRecord, lifetime: nat) returns (r: Outcome)
      requires Valid() && state.phase.Idle? && !state.stopping
      modifies this
      ensures Valid() && T.Offered(steps) == old(T.Offered(steps)) + [record]
      ensures r == Done ==> state.phase.Idle? && !state.stopping
      ensures r == Failed || r == Cancelled ==> state.phase.Halted?
      ensures r == Killed ==> state.phase.Writing?
      ensures R.MovesBackwards(old(state.pending), record.position) || RecordEncoding(env, record).None? ==>
                r == Failed && sink == old(sink) && stored == old(stored)
                && acknowledged == old(acknowledged) && released == old(released)
      ensures r == Done ==> R.Consumed(state.history) == R.Consumed(old(state.history)) + [record]
      ensures r == Done ==>
                var batch := old(encoded) + RecordEncoding(env, record).value;
                if FlushDue(env, record.boundary, |batch|)
                then Flushed(batch, record.position)
                else
                  && encoded == batch && highest == Some(record.position) && signals == old(signals) + record.signals
                  && sink == old(sink) && stored == old(stored)
                  && acknowledged == old(acknowledged) && released == old(released)
    {
      hide R.Run, T.Offered, R.Step, R.Flushes, IsAfter, FlushDue;
      if highest.Some? && !IsAfter(record.position, highest.value) && record.position != highest.value {
        Refuse(record);
        return Failed;
      }
      var added: seq<EncodedEvent> := [];
      if record.event.Some? {
        var result := EncodeBatch(env, record.event.value);
        if result.None? {
          Refuse(record);
          return Failed;
        }
        added := result.value;
      }
      var flush := Admit(record, added);
      if flush {
        r := FlushBatch(lifetime);
      } else {
        r := Done;
      }
    }

    /** One turn of the select loop that does not leave it. */
    method Turn(input: Input, lifetime: nat) returns (r: Outcome)
      requires Valid() && state.phase.Idle? && !state.stopping
      requires !LeavesLoop(input)
      modifies this
      ensures Valid()
      ensures T.Offered(steps) == old(T.Offered(steps)) + if input.Received? then [input.record] else []
      ensures r == Done ==> state.phase.Idle? && !state.stopping
      ensures r == Failed || r == Cancelled ==> state.phase.Halted?
      ensures r == Killed ==> state.phase.Writing?
      ensures r == Done && input.TickFired? && old(highest).Some? ==> Flushed(old(encoded), old(highest).value)
      ensures r == Done && input.Received? ==>
                R.Consumed(state.history) == R.Consumed(old(state.history)) + [input.record]
      ensures input.ReceivedError? ==> r == Failed
    {
      hide R.Run, T.Offered;
      match input {
        case TickFired =>
          Advance(R.Tick);
          r := FlushBatch(lifetime);
        case Received(record) =>
          r := ConsumeRecord(record, lifetime);
        case ReceivedError =>
          Advance(R.SourceFailed);
          r := Failed;
      }
    }

    /** The final flush after the loop has been left. */
    method FinalFlush(lifetime: nat) returns (r: Outcome)
      requires Valid() && state.phase.Idle? && origin == R.Start(origin.sink, origin.stored)
      modifies this
      ensures Valid() && T.Offered(steps) == old(T.Offered(steps))
      ensures r == Done ==> state.phase == R.Halted(true) && state.history.open == []
      ensures r == Failed || r == Cancelled ==> state.phase.Halted?
      ensures r == Killed ==> state.phase.Writing?
    {
      hide R.Run, T.Offered;
      Advance(R.Break);
      T.NothingPending(env, origin.sink, origin.stored, steps, state);
      r := FlushBatch(lifetime);
    }

    /**
     * The pipeline loop over the inputs that the select statement receives. Whatever the sink, the store and the
     * clock do, the stored checkpoint is the old one or the fold of a prefix of the records received, and the sink
     * holds that prefix's encodings in order; when the loop ends in order, the prefix is everything received.
     */
    method RunPipeline(inputs: seq<Input>, lifetime: nat) returns (r: Outcome, taken: nat)
      requires Valid() && origin == R.Start(sink, stored) && steps == [] && state == origin
      modifies this
      ensures Valid() && taken <= |inputs|
      ensures old(sink) <= sink
      ensures stored == old(stored)
              || (stored.Some?
                  && exists n ::
                       T.FoldOf(env, old(stored), Records(inputs[..taken]), sink[|old(sink)|..], n, stored.value))
      ensures r == Done && Records(inputs[..taken]) != [] ==>
                var rs := Records(inputs[..taken]);
                stored.Some? && T.FoldOf(env, old(stored), rs, sink[|old(sink)|..], |rs|, stored.value)
      ensures r == Done ==>
                0 < taken && LeavesLoop(inputs[taken - 1]) && forall i | 0 <= i < taken - 1 :: !LeavesLoop(inputs[i])
      ensures r == Failed || r == Cancelled ==> state.phase.Halted?
      ensures r == Killed ==>
                state.phase.Writing? || (taken == |inputs| && forall input | input in inputs :: !LeavesLoop(input))
    {
      hide R.Run, T.Offered, R.Step, T.FoldOf;
      taken, r := 0, Done;
      T.RunNothing(env, origin);
      var looping := true;
      while looping && r == Done && taken < |inputs|
        invariant taken <= |inputs| && Valid()
        invariant T.Offered(steps) == Records(inputs[..taken])
        invariant if looping then forall i | 0 <= i < taken :: !LeavesLoop(inputs[i])
                  else
                    && 0 < taken && LeavesLoop(inputs[taken - 1])
                    && forall i | 0 <= i < taken - 1 :: !LeavesLoop(inputs[i])
        invariant r == Done ==> state.phase.Idle? && !state.stopping
        invariant r == Failed || r == Cancelled ==> state.phase.Halted?
        invariant r == Killed ==> state.phase.Writing?
      {
        var input := inputs[taken];
        assert inputs[..taken + 1][..taken] == inputs[..taken];
        taken := taken + 1;
        if LeavesLoop(input) {
          looping := false;
        } else {
          r := Turn(input, lifetime);
        }
      }
      if r == Done {
        if looping {
          r := Killed;
        } else {
          r := FinalFlush(lifetime);
        }
      }
      T.StoredCheckpoint(env, origin.sink, origin.stored, steps, state);
      if r == Done && Records(inputs[..taken]) != [] {
        T.CleanStop(env, origin.sink, origin.stored, steps, state);
      }
    }
  }

  ghost predicate EndsWith(log: seq<EncodedEvent>, batch: seq<EncodedEvent>) {
    |batch| <= |log| && log[|log| - |batch|..] == batch
  }

  /** What calls of the sink append that each take a beginning of the same batch. */
  ghost function Attempts(batch: seq<EncodedEvent>, cuts: seq<nat>): seq<EncodedEvent> {
    if cuts == [] then []
    else
      var n := cuts[|cuts| - 1];
      Attempts(batch, cuts[..|cuts| - 1]) + if n <= |batch| then batch[..n] else batch
  }

  lemma AttemptsStep(log: seq<EncodedEvent>, batch: seq<EncodedEvent>, cuts: seq<nat>, n: nat)
    requires n <= |batch|
    ensures log + Attempts(batch, []) == log
    ensures log + Attempts(batch, cuts + [n]) == log + Attempts(batch, cuts) + batch[..n]
  {
    assert (cuts + [n])[..|cuts|] == cuts;
  }

  lemma EndsWithAll(log: seq<EncodedEvent>, batch: seq<EncodedEvent>)
    ensures EndsWith(log + batch, batch)
  {
  }
}
