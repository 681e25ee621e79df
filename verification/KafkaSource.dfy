/** The loop of `run_kafka` (rustium-debezium, source.rs) over its local variables, as a run of the Kafka bridge. */
module KafkaSources {
  import opened Prelude
  import opened Positions
  import opened DebeziumBridge
  import opened Decimals
  import opened StopAndWait
  import opened KafkaBridge
  import R = Runtime

  class KafkaSource {
    const config: Config
    /** The locals of `run_kafka`. */
    var eventSerial: nat
    var lastRecordId: Option<string>
    var snapshotCompleted: bool
    /** The channel with the pipeline behind it, and the offsets the broker holds. */
    var link: Link
    var committed: seq<nat>
    /** The run so far, and what it says beyond the fields above. */
    ghost var actions: seq<Action>
    ghost var phase: Phase
    ghost var origins: seq<Origin>

    ghost function Current(): System
      reads this
    {
      System(link, Source(eventSerial, lastRecordId, snapshotCompleted, phase), committed, origins)
    }

    ghost predicate Valid()
      reads this
    {
      Run(config, actions) == Some(Current())
    }

    /** A process that starts over what an earlier run has left: the sink, the checkpoint and the offsets. */
    constructor (config: Config, durable: System, ghost before: seq<Action>)
      requires Run(config, before) == Some(durable)
      ensures Valid() && this.config == config && actions == before + [Restart]
      ensures committed == durable.committed && link.runtime.sink == durable.link.runtime.sink && link.sent == []
      ensures match durable.link.runtime.stored
              case None => phase.Receiving? && eventSerial == 0 && lastRecordId == None && !snapshotCompleted
              case Some(checkpoint) =>
                match checkpoint.position
                case Debezium(position) =>
                  if position.connector != config.bridge.sourceType then phase.Stopped?
                  else
                    && phase.Receiving? && eventSerial == position.eventSerial
                    && lastRecordId == Some(position.recordId)
                    && snapshotCompleted == checkpoint.snapshotCompleted
                case _ => phase.Stopped?
    {
      var stored := durable.link.runtime.stored;
      this.config := config;
      eventSerial, lastRecordId, snapshotCompleted, phase := 0, None, false, Receiving;
      if stored.Some? {
        if stored.value.position.Debezium? && stored.value.position.debezium.connector == config.bridge.sourceType {
          var position := stored.value.position.debezium;
          eventSerial, lastRecordId := position.eventSerial, Some(position.recordId);
          snapshotCompleted := stored.value.snapshotCompleted;
        } else {
          phase := Stopped;
        }
      }
      link := Link(R.Start(durable.link.runtime.sink, stored), [], []);
      committed := durable.committed;
      actions, origins := before + [Restart], [];
      assert (before + [Restart])[..|before|] == before;
    }

    lemma Extend(a: Action)
      requires Valid() && Step(config, Current(), a).Some?
      ensures Run(config, actions + [a]) == Step(config, Current(), a)
    {
      hide Step;
      assert (actions + [a])[..|actions|] == actions;
    }

    /** While the bridge awaits, the pipeline takes any number of steps. */
    method Others()
      requires Valid()
      modifies this`link, this`actions
      ensures Valid() && old(actions) <= actions && link.sent == old(link.sent)
    {
      hide R.Step, Run;
      var steps: nat := *;
      while steps > 0
        invariant Valid() && old(actions) <= actions && link.sent == old(link.sent)
      {
        steps := steps - 1;
        var step: Option<R.Action> := *;
        var moved := if step.Some? then Pipeline(config.bridge.env, link, step.value)
                     else Hand(config.bridge.env, link);
        if moved.Some? {
          ghost var a := if step.Some? then Pipe(step.value) else HandOver;
          Extend(a);
          actions := actions + [a];
          link := moved.value;
        }
      }
    }

    /**
     * `wait_for_ack` without a time-out: returns false on cancellation. `lifetime` is how often the bridge looks at
     * the acknowledged position before it is cancelled.
     */
    method WaitForAck(expected: SourcePosition, lifetime: nat) returns (ok: bool)
      requires Valid()
      modifies this`link, this`actions
      ensures Valid() && old(actions) <= actions && link.sent == old(link.sent)
      ensures ok ==> Reached(link.runtime.acknowledged, expected)
      ensures lifetime > 0 && old(Reached(link.runtime.acknowledged, expected)) ==> ok && link == old(link)
    {
      var patience := lifetime;
      while patience > 0
        invariant patience == lifetime ==> link == old(link)
        invariant patience < lifetime ==> !old(Reached(link.runtime.acknowledged, expected))
        invariant Valid() && old(actions) <= actions && link.sent == old(link.sent)
      {
        if Reached(link.runtime.acknowledged, expected) {
          return true;
        }
        patience := patience - 1;
        Others();
      }
      return false;
    }

    /** Every error ends the source; its locals are gone with it. */
    ghost method Stop()
      requires Valid()
      modifies this`actions, this`phase
      ensures Valid() && phase == Stopped && actions == old(actions) + [StopSource]
    {
      Extend(StopSource);
      actions := actions + [StopSource];
      phase := Stopped;
    }

    /** The identifier of the message that comes next in the partition. */
    ghost function NextId(p: nat): string
      reads this
      requires p < |committed| && HasMessage(config, p, committed[p])
    {
      var partition := config.partitions[p];
      "kafka:" + partition.topic + ":" + Decimal(partition.number) + ":" + Decimal(committed[p])
    }

    /** That message is not emitted: it is the last confirmed one, or it has no payload. */
    ghost predicate Skipped(p: nat)
      reads this
      requires p < |committed| && HasMessage(config, p, committed[p])
    {
      || lastRecordId == Some(NextId(p))
      || config.partitions[p].messages[committed[p]] in {None, Some("")}
    }

    /** What the payload of that message decodes to. */
    ghost function NextDecoded(p: nat, now: int): Result<Decoded>
      reads this
      requires p < |committed| && HasMessage(config, p, committed[p]) && !Skipped(p)
    {
      var document := (config.bridge.env.parseJson)(config.partitions[p].messages[committed[p]].value);
      if document.None? then Err("payload is not JSON")
      else DecodeDocument(config.bridge, document.value, NextId(p), eventSerial + 1, snapshotCompleted, now)
    }

    lemma SkippedIsSkipped(p: nat)
      requires p < |committed| && HasMessage(config, p, committed[p])
      ensures NextId(p) == RecordId(config, p, committed[p])
      ensures Skipped(p) <==>
              lastRecordId == Some(RecordId(config, p, committed[p])) || IsEmpty(config, p, committed[p])
    {
    }

    /** The offset is committed, or the source ends. */
    method CommitMessage(p: nat, outcome: CommitOutcome) returns (ok: bool)
      requires Valid() && p < |committed| && phase == Committing(p, committed[p])
      modifies this`committed, this`actions, this`phase
      ensures Valid() && old(actions) <= actions
      ensures (ok <==> outcome == Committed) && phase == if ok then Receiving else Stopped
      ensures committed == if outcome == Refused then old(committed) else old(committed)[p := old(committed[p]) + 1]
    {
      hide Run;
      ok := outcome == Committed;
      Extend(Commit(outcome));
      if outcome != Refused {
        committed := committed[p := committed[p] + 1];
      }
      actions := actions + [Commit(outcome)];
      phase := if ok then Receiving else Stopped;
    }

    /** Decodes the message and sends the record to the channel. */
    method Emit(p: nat, document: Json, now: int) returns (sent: Option<SourcePosition>)
      requires Valid() && phase == Receiving && p < |committed| && HasMessage(config, p, committed[p]) && !Skipped(p)
      requires (config.bridge.env.parseJson)(config.partitions[p].messages[committed[p]].value) == Some(document)
      modifies this`eventSerial, this`snapshotCompleted, this`link, this`actions, this`phase, this`origins
      ensures Valid() && actions == old(actions) + [Receive(p, now)]
      ensures sent.Some? <==> old(NextDecoded(p, now)).Ok?
      ensures sent.None? ==> phase == Stopped && link == old(link)
      ensures sent.Some? ==>
                && link.sent == old(link.sent) + [old(NextDecoded(p, now)).value.record]
                && phase == Waiting(p, committed[p], sent.value) && eventSerial == old(eventSerial) + 1
                && link.sent[..|link.sent| - 1] == old(link.sent) && |link.sent| == |old(link.sent)| + 1
                && link.sent[|link.sent| - 1].position == sent.value
                && sent.value.Debezium? && sent.value.debezium.recordId == RecordId(config, p, committed[p])
                && sent.value.debezium.eventSerial == eventSerial
    {
      hide Run, DecodeDocument, RecordId, ReceiveMessage, IsEmpty;
      hide Skipped, NextId;
      var recordId := RecordId(config, p, committed[p]);
      SkippedIsSkipped(p);
      ghost var before := Current();
      ReceiveEffect(config, before, p, document, now);
      Extend(Receive(p, now));
      var decoded := DecodeDocument(config.bridge, document, recordId, eventSerial + 1, snapshotCompleted, now);
      actions := actions + [Receive(p, now)];
      if decoded.Err? {
        phase := Stopped;
        return None;
      }
      DecodedShape(config.bridge, document, recordId, eventSerial + 1, snapshotCompleted, now);
      origins := origins + [NextOrigin(before, p, now)];
      eventSerial := eventSerial + 1;
      if decoded.value.completesSnapshot {
        snapshotCompleted := true;
      }
      var position := decoded.value.record.position;
      link := StopAndWait.Emit(link, decoded.value.record);
      phase := Waiting(p, committed[p], position);
      return Some(position);
    }

    /** The message is passed over. */
    ghost method Skip(p: nat, now: int)
      requires Valid() && phase == Receiving && p < |committed| && HasMessage(config, p, committed[p]) && Skipped(p)
      modifies this`actions, this`phase
      ensures Valid() && phase == Committing(p, committed[p]) && actions == old(actions) + [Receive(p, now)]
    {
      hide Run, IsEmpty, RecordId, Skipped, NextId;
      SkippedIsSkipped(p);
      Extend(Receive(p, now));
      assert CanReceive(config, Current(), p) && Skips(config, Current(), p);
      actions := actions + [Receive(p, now)];
      phase := Committing(p, committed[p]);
    }

    /** The wait is over. */
    method ConfirmRecord(p: nat, o: nat, expected: SourcePosition)
      requires Valid() && phase == Waiting(p, o, expected) && p < |config.partitions|
      requires Reached(link.runtime.acknowledged, expected)
      modifies this`actions, this`phase, this`lastRecordId
      ensures Valid() && phase == Committing(p, o) && lastRecordId == Some(RecordId(config, p, o))
      ensures actions == old(actions) + [Acknowledge]
    {
      hide Run, RecordId, Reached;
      Extend(Acknowledge);
      actions := actions + [Acknowledge];
      lastRecordId := Some(RecordId(config, p, o));
      phase := Committing(p, o);
    }

    /**
     * One turn of the loop, with the broker's answer to the commit. The offset is committed for a skipped message and
     * for one whose record has been confirmed, unless the broker refuses; no other offset is touched. Nothing is
     * emitted for a skipped message, and for another one exactly its record.
     */
    method HandleMessage(p: nat, now: int, lifetime: nat, outcome: CommitOutcome) returns (ok: bool)
      requires Valid() && phase == Receiving && p < |committed| && HasMessage(config, p, committed[p])
      modifies this
      ensures Valid() && old(actions) <= actions
      ensures phase == if ok then Receiving else Stopped
      ensures var due := old(Skipped(p)) || lastRecordId == Some(old(NextId(p)));
              && (ok <==> due && outcome == Committed)
              && committed == if due && outcome != Refused then old(committed)[p := old(committed[p]) + 1]
                              else old(committed)
      ensures old(Skipped(p)) ==>
                link.sent == old(link.sent) && eventSerial == old(eventSerial) && lastRecordId == old(lastRecordId)
      ensures !old(Skipped(p)) ==>
                var decoded := old(NextDecoded(p, now));
                && link.sent == old(link.sent) + (if decoded.Ok? then [decoded.value.record] else [])
                && (ok ==> decoded.Ok? && eventSerial == old(eventSerial) + 1 && lastRecordId == Some(old(NextId(p))))
    {
      hide Run, RecordId, IsEmpty, Reached, Step, NextId, DecodeDocument, Valid;
      Partitions();
      SkippedIsSkipped(p);
      var o, partition := committed[p], config.partitions[p];
      var recordId := "kafka:" + partition.topic + ":" + Decimal(partition.number) + ":" + Decimal(o);
      IdFormat(p);
      var payload := partition.messages[o];
      if lastRecordId != Some(recordId) && payload.Some? && payload.value != "" {
        var document := (config.bridge.env.parseJson)(payload.value);
        if document.None? {
          Reject(p, now);
          return false;
        }
        var sent := Emit(p, document.value, now);
        if sent.None? {
          return false;
        }
        var confirmed := WaitForAck(sent.value, lifetime);
        if !confirmed {
          Stop();
          return false;
        }
        ConfirmRecord(p, o, sent.value);
      } else {
        Skip(p, now);
      }
      ok := CommitMessage(p, outcome);
    }

    lemma IdFormat(p: nat)
      requires p < |committed| && HasMessage(config, p, committed[p])
      ensures var partition := config.partitions[p];
              NextId(p) == "kafka:" + partition.topic + ":" + Decimal(partition.number) + ":" + Decimal(committed[p])
    {
    }

    /** There is one committed offset for each partition. */
    lemma Partitions()
      requires Valid()
      ensures |committed| == |config.partitions|
    {
      OffsetsPerPartition(config, actions);
    }

    /** A payload that is not JSON ends the source. */
    ghost method Reject(p: nat, now: int)
      requires Valid() && phase == Receiving && p < |committed| && HasMessage(config, p, committed[p]) && !Skipped(p)
      requires (config.bridge.env.parseJson)(config.partitions[p].messages[committed[p]].value).None?
      modifies this`actions, this`phase
      ensures Valid() && phase == Stopped && actions == old(actions) + [Receive(p, now)]
    {
      SkippedIsSkipped(p);
      Extend(Receive(p, now));
      assert CanReceive(config, Current(), p) && !Skips(config, Current(), p);
      assert DecodeMessage(config, NextOrigin(Current(), p, now)).Err?;
      actions := actions + [Receive(p, now)];
      phase := Stopped;
    }

    /**
     * The whole loop over what each poll yields: a message of some partition, or nothing. It takes the polls in turn
     * and commits exactly the messages received, until an error or a cancellation ends it at one of them. Whatever
     * the pipeline did meanwhile, if the snapshot markers were monotone then every committed message that is not
     * empty has been delivered.
     */
    method RunKafka(polls: seq<Option<nat>>) returns (ok: bool, taken: nat)
      requires Valid() && phase == Receiving
      modifies this
      ensures Valid() && old(actions) <= actions && taken <= |polls|
      ensures ok ==> phase == Receiving && taken == |polls| && committed == Offsets(config, old(committed), polls)
      ensures !ok ==>
                && phase == Stopped && taken > 0
                && (committed == Offsets(config, old(committed), polls[..taken - 1])
                    || committed == Offsets(config, old(committed), polls[..taken]))
      ensures DistinctPartitions(config) && MonotoneMarkers(config, actions) ==>
                CommittedOk(config, link.runtime.sink, committed)
    {
      hide Run, RecordId, IsEmpty, MonotoneMarkers, CommittedOk, Skipped, NextId, NextDecoded, DecodeDocument;
      taken, ok := 0, true;
      assert polls[..0] == [];
      while taken < |polls| && ok
        invariant Valid() && old(actions) <= actions && taken <= |polls|
        invariant ok ==> phase == Receiving && committed == Offsets(config, old(committed), polls[..taken])
        invariant !ok ==>
                    && phase == Stopped && taken > 0
                    && (committed == Offsets(config, old(committed), polls[..taken - 1])
                        || committed == Offsets(config, old(committed), polls[..taken]))
        decreases |polls| - taken, ok
      {
        var polled := polls[taken];
        assert polls[..taken + 1][..taken] == polls[..taken];
        taken := taken + 1;
        Others();
        if polled.Some? && polled.value < |committed| && HasMessage(config, polled.value, committed[polled.value]) {
          var now: int, lifetime: nat := *, *;
          var outcome: CommitOutcome := *;
          ok := HandleMessage(polled.value, now, lifetime, outcome);
        }
      }
      assert ok ==> polls[..taken] == polls;
      if DistinctPartitions(config) && MonotoneMarkers(config, actions) {
        AtLeastOnce(config, actions, Current());
        DeliveredBelow(config, Current());
      }
    }

    lemma DeliveredBelow(c: Config, s: System)
      requires |s.committed| == |c.partitions|
      requires forall p, o | 0 <= p < |s.committed| && 0 <= o < s.committed[p] ::
                 && HasMessage(c, p, o)
                 && (c.partitions[p].messages[o] in {None, Some("")} || Delivered(c, s.link.runtime.sink, p, o))
      ensures CommittedOk(c, s.link.runtime.sink, s.committed)
    {
      hide Delivered;
    }
  }

  /** The offsets after committing every message that these polls yield. */
  function Offsets(c: Config, committed: seq<nat>, polls: seq<Option<nat>>): seq<nat> {
    if polls == [] then committed
    else
      var before, p := Offsets(c, committed, polls[..|polls| - 1]), polls[|polls| - 1];
      if p.Some? && p.value < |before| && HasMessage(c, p.value, before[p.value])
      then before[p.value := before[p.value] + 1]
      else before
  }

  lemma {:induction false} OffsetsPerPartition(c: Config, actions: seq<Action>)
    requires Run(c, actions).Some?
    ensures |Run(c, actions).value.committed| == |c.partitions|
  {
    hide Pipeline, Hand, DecodeMessage, Skips, Reached;
    if actions != [] {
      OffsetsPerPartition(c, actions[..|actions| - 1]);
    }
  }

  /** What receiving a message with a JSON payload does. */
  lemma ReceiveEffect(c: Config, s: System, p: nat, document: Json, now: int)
    requires CanReceive(c, s, p) && !Skips(c, s, p)
    requires (c.bridge.env.parseJson)(c.partitions[p].messages[s.committed[p]].value) == Some(document)
    ensures var o := s.committed[p];
            var decoded := DecodeDocument(
              c.bridge, document, RecordId(c, p, o), s.source.serial + 1, s.source.snapshotCompleted, now);
            ReceiveMessage(c, s, p, now)
            == if decoded.Err? then s.(source := s.source.(phase := Stopped))
               else s.(link := StopAndWait.Emit(s.link, decoded.value.record),
                       origins := s.origins + [NextOrigin(s, p, now)],
                       source := Source(s.source.serial + 1, s.source.lastRecordId,
                                        s.source.snapshotCompleted || decoded.value.completesSnapshot,
                                        Waiting(p, o, decoded.value.record.position)))
  {
    hide DecodeDocument, RecordId;
    assert DecodeMessage(c, NextOrigin(s, p, now))
        == DecodeDocument(c.bridge, document, RecordId(c, p, s.committed[p]), s.source.serial + 1,
                          s.source.snapshotCompleted, now);
  }
}
