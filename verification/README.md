# Durable delivery in Rustium, verified

Rustium moves change events from databases to sinks. Its promise is durable delivery: a source may forget a
position only after the events up to it are in the sink and a checkpoint says so. These Dafny modules model the
code that keeps this promise, and the encoders and parsers around it, and prove what they guarantee. Check them all with
`dafny verify dfyconfig.toml`.

## The delivery protocol

The pipeline of `rustium-core` batches records, writes the batch to the sink with retries, saves a checkpoint,
acknowledges the source and releases the attached signals. It appears twice. Module `Runtime` is a step machine, in
which every answer of the environment (how much of a batch reached the sink, whether the store failed, when a tick or a
cancellation came) is an action, so a theorem about its runs is a theorem about all schedules. The class
`ConnectorRuntime` is the loop as imperative code over its own fields. Each of its effects is a step of the machine, so the
theorems of `RuntimeTheorems` hold of the fields.

The Debezium bridge of `rustium-debezium` feeds the pipeline through a channel: it emits one record, waits until the
acknowledged position reaches it, and only then commits the Kafka offset or answers the HTTP request. `StopAndWait` is what
both forms share. `KafkaBridge` and `HttpBridge` put each form together with the channel and the pipeline into one step
system. Durable are the sink log, the checkpoint, the committed offsets and, for HTTP, what clients have posted. A restart is
possible between any two steps and loses everything else. `KafkaSource` and `HttpState` are the imperative forms of
`run_kafka` and `process_http`; between any two of their awaits the pipeline takes any number of steps, and each of their
contracts is about a run of the step system.

Three facts about the code shape these theorems:

- The "moved backwards" guard compares with the unflushed batch only, so checkpoints never move backwards exactly for sources
  that ascend (`ProgressNeedsAscendingSource`).
- A Debezium position sorts by (not snapshot, serial). When the snapshot marker returns after a streaming record, the old
  acknowledgement is taken for the new record. `StaleExactly`, `StaleCommit` and `StaleSuccess` say exactly when and to what effect,
  `MessageLost` and `SuccessWithoutDelivery` are runs that lose a record, and the delivery theorems assume that the marker never
  returns: of the run (`MonotoneMarkers`) for any number of partitions and for HTTP, of the input itself (`MarkersNeverReturn`) for
  a single partition.
- A flush may fall inside a transaction, so nothing is claimed about transaction boundaries.

| files | what they model |
|---|---|
| `Prelude.dfy`, `Decimals.dfy` | optional results, lexicographic order, subsequences, bytes, decimal notation |
| `Positions.dfy`, `Events.dfy` | source positions and their order; records, encodings, checkpoints and the fold they stand for |
| `Backoff.dfy`, `Runtime.dfy`, `RuntimeTheorems.dfy`, `ConnectorRuntime.dfy` | the pipeline: retry delays, steps, whole runs, the loop |
| `DebeziumBridge.dfy` | decoding of documents, record and event identifiers |
| `StopAndWait.dfy`, `KafkaBridge.dfy`, `ExactlyOnce.dfy`, `SinglePartition.dfy`, `KafkaSource.dfy` | the Kafka bridge: at-least-once, exactly-once after deduplication, the loop |
| `HttpBridge.dfy`, `HttpHandler.dfy` | the HTTP bridge: steps and whole runs, the handler |
| `StaleDelivery.dfy`, `StaleAcknowledgement.dfy`, `HttpStaleSuccess.dfy` | the exact role of the snapshot marker, and runs of both bridges that lose a record |
| `SchemaCache.dfy` | the least-recently-used schema caches of both encoders |
| `DataValues.dfy`, `Avro.dfy`, `Protobuf.dfy`, `FieldNumbers.dfy` | column values, schema-directed encoding, names and numbers of fields |
| `Properties.dfy`, `TextLists.dfy` | property files, escapes, comma lists, statement lists |
| `JavaStrings.dfy` | Java serialization of strings |

The wire encoder, the JSON parser and serializer, SHA-256, schema compilation, the renderings of floats and nested values and the
conversion of integers to floats are functions about which nothing is assumed; where identifiers must be distinct, the digest is assumed
injective in the statement itself.

## Model

| member | source | states |
|---|---|---|
| `RuntimeTheorems.CheckpointIsFoldOfHistory` | crates/rustium-core/src/runtime.rs:339-376 | over any interleaving of records, ticks, retries, partial writes and cancellation, every saved checkpoint is the fold (last position, snapshot seen, latest connector state) of exactly a consumed prefix, and the sink already holds that prefix's encodings in order |
| `RuntimeTheorems.StoredCheckpoint` | crates/rustium-core/src/runtime.rs:513-557 | the stored checkpoint of any run is the one it started from or such a fold; the sink log is only ever extended |
| `RuntimeTheorems.CleanStop` | crates/rustium-core/src/runtime.rs:367-376 | a run that ends in order with nothing open has checkpointed everything it was offered |
| `RuntimeTheorems.HistoryIsFaithful` | crates/rustium-core/src/runtime.rs:353-364 | the history that the theorems speak about is the sequence of records handed to the pipeline, less at most the one that ended the run |
| `RuntimeTheorems.StoredOnlyBySaving` | crates/rustium-core/src/runtime.rs:540-554 | without a completed save both the checkpoint and the acknowledgement are those of the start |
| `RuntimeTheorems.AcknowledgedIsCheckpointed` | crates/rustium-core/src/runtime.rs:551-554 | in every reachable state the acknowledged position is the initial one or that of a saved checkpoint |
| `RuntimeTheorems.SignalsAreDurable` | crates/rustium-core/src/runtime.rs:551-557 | released signals are, in source order, those of records that the stored checkpoint covers, and that checkpoint carries the state of the last of these records that has one |
| `Events.LatestStateIsLatest` | crates/rustium-core/src/runtime.rs:456-458 | the latest connector state is that of the last record that carries one |
| `RuntimeTheorems.OnlyTheirSteps` | crates/rustium-core/src/runtime.rs:526-557 | only a save changes the checkpoint, only a publication the acknowledgement, only a release the signals, only a delivery the sink |
| `RuntimeTheorems.FailureIsFinal` | crates/rustium-core/src/runtime.rs:526-554 | after a backwards record, an encoding failure, a failed or cancelled write, a rejected save or a closed channel nothing more is saved, acknowledged or released in the run |
| `RuntimeTheorems.ProgressIsMonotone` | crates/rustium-core/src/runtime.rs:418-426 | if each position is at or after its predecessor and the resumed checkpoint, checkpoints and acknowledgements never move backwards |
| `RuntimeTheorems.ProgressNeedsAscendingSource` | crates/rustium-core/src/runtime.rs:418-426 | the converse too: for records that encode, no schedule lets a checkpoint move backwards if and only if the source ascends; the guard alone does not give it, because it forgets the position at every flush |
| `RuntimeTheorems.EachBatchAscends` | crates/rustium-core/src/runtime.rs:418-426 | without any assumption the positions inside one batch ascend |
| `RuntimeTheorems.FlushEach` | crates/rustium-core/src/runtime.rs:342-350 | a flush can follow every single record, so checkpoints need not sit on transaction boundaries |
| `RuntimeTheorems.WhatWaits` | crates/rustium-core/src/runtime.rs:461-509 | in every idle state of a run only data and heartbeats wait for a flush: boundaries, full batches and heartbeats over an empty batch were flushed at once |
| `Runtime.StepInv` | crates/rustium-core/src/runtime.rs:339-562 | every step of the pipeline keeps the invariant that ties memory, sink, checkpoint and acknowledgement to the history |
| `Runtime.RunInv` | crates/rustium-core/src/runtime.rs:339-562 | so every run does |
| `Runtime.StartInv` | crates/rustium-core/src/runtime.rs:301-313 | a process that loads a checkpoint starts in the invariant, whatever the sink holds |
| `Runtime.DeliverInv` | crates/rustium-core/src/runtime.rs:582-602 | any prefix of the batch may reach the sink on each attempt; the invariant holds throughout |
| `ConnectorRuntimes.ConnectorRuntime.constructor` | crates/rustium-core/src/runtime.rs:301-337 | the loop's locals start from the loaded checkpoint |
| `ConnectorRuntimes.ConnectorRuntime.RunPipeline` | crates/rustium-core/src/runtime.rs:339-376 | the loop itself: it goes on until the channel closes or cancellation comes; the stored checkpoint is the old one or the fold of a prefix of the records received, with that prefix in the sink; when the loop ends in order the prefix is everything received; a killed process died inside a sink write or had taken every input without leaving the loop |
| `ConnectorRuntimes.ConnectorRuntime.ConsumeRecord` | crates/rustium-core/src/runtime.rs:409-511 | a record that moves backwards or does not encode ends the run with nothing delivered, saved or acknowledged for it; any other joins the batch, which is flushed exactly at a boundary, when full, or for a heartbeat over nothing |
| `ConnectorRuntimes.ConnectorRuntime.Turn` | crates/rustium-core/src/runtime.rs:340-364 | a tick flushes what is pending, a record is consumed, an error of the source ends the run |
| `ConnectorRuntimes.ConnectorRuntime.Admit` | crates/rustium-core/src/runtime.rs:455-511 | the pending batch grows by exactly the record's encodings, position and signals, and a flush is called for exactly at a boundary, when the batch is full, or for a heartbeat over nothing |
| `ConnectorRuntimes.ConnectorRuntime.FlushBatch` | crates/rustium-core/src/runtime.rs:513-562 | a completed flush has the batch at the end of the sink log, the checkpoint stored, the position acknowledged, the signals released and the batch empty; one that does not complete acknowledges and releases nothing |
| `ConnectorRuntimes.ConnectorRuntime.WriteSinkWithRetry` | crates/rustium-core/src/runtime.rs:582-602 | at most max_retries + 1 calls when the budget is finite; each call appends a beginning of the same batch, the whole of it on success, and the log grows by just that; the time slept is the sum of the backoff delays, and within max_retries times the cap |
| `ConnectorRuntimes.ConnectorRuntime.WaitForSinkRetry` | crates/rustium-core/src/runtime.rs:622-655 | fails exactly when the budget is spent; otherwise counts the attempt and doubles the delay up to the cap |
| `ConnectorRuntimes.ConnectorRuntime.SaveAndAcknowledge` | crates/rustium-core/src/runtime.rs:540-557 | checkpoint first, then acknowledgement, then signals |
| `ConnectorRuntimes.ConnectorRuntime.ReleaseSignals` | crates/rustium-core/src/runtime.rs:555-557 | signals are released one by one, in order, each once |
| `ConnectorRuntimes.ConnectorRuntime.FinalFlush` | crates/rustium-core/src/runtime.rs:367-374 | the flush after the loop leaves nothing open |
| `Backoff.DelayIsExponential` | crates/rustium-core/src/runtime.rs:650-654 | saturating doubling never shows: from the second on, each wait is the exact power of two, capped |
| `Backoff.CappedDelay` | crates/rustium-core/src/runtime.rs:650-654 | with an initial delay within the cap the k-th wait is min(initial * 2^(k-1), cap) |
| `Backoff.TotalDelayBound` | crates/rustium-core/src/runtime.rs:622-655 | n waits take at most n times the cap |
| `Backoff.RetryBudget` | crates/rustium-core/src/runtime.rs:629-633 | a finite budget bounds the time slept by max_retries times the cap, whatever the sink answers |
| `Backoff.MaxDuration` | crates/rustium-core/src/runtime.rs:650-654 | the longest duration is the last whose seconds fit 64 bits |
| `Positions.IsAfterIsStrictOrder` | crates/rustium-core/src/event.rs:113-127 | `is_after` is a strict order over all six variants |
| `Positions.IsAtOrBeforeIsPartialOrder` | crates/rustium-core/src/event.rs:129-132 | `is_at_or_before` is a partial order |
| `Positions.Comparable` | crates/rustium-core/src/event.rs:113-133 | two positions are comparable exactly when equal, or of one variant (and one Debezium connector) with different keys |
| `Positions.ForeignPositionsUnordered` | crates/rustium-core/src/event.rs:113-127 | positions of different kinds, or of different Debezium connectors, are never ordered |
| `Positions.PostgresOrder` | crates/rustium-core/src/event.rs:146-150 | log sequence number, then streaming after snapshot, then serial |
| `Positions.SqlServerOrder` | crates/rustium-core/src/event.rs:182-192 | database, commit and change numbers as texts, then streaming after snapshot, then serial |
| `Positions.OracleOrder` | crates/rustium-core/src/event.rs:207-216 | commit number, or change number where there is none, then streaming after snapshot, then serial |
| `Positions.MongoDbOrder` | crates/rustium-core/src/event.rs:229-238 | seconds and increment of the cluster time, absent ones as zero, then streaming after snapshot, then serial |
| `Positions.DebeziumOrder` | crates/rustium-core/src/event.rs:254-258 | a streaming position is after any snapshot position; otherwise the serial decides |
| `Positions.MySqlKeyOrder` | crates/rustium-core/src/event.rs:162-171 | the MySQL order: file name, offset, streaming after snapshot, serial |
| `Positions.MySqlOrderIsNumeric` | crates/rustium-core/src/event.rs:162-171 | for file names with one base and suffixes of equal width it is the numeric order of the binlog |
| `Positions.MySqlRolloverOrder` | crates/rustium-core/src/event.rs:162-171 | when the suffix grows in width, the later file is recognised as later exactly if the earlier suffix does not exceed the leading digits of the later one |
| `Positions.MySqlRolloverCounterexample` | crates/rustium-core/src/event.rs:162-171 | binlog.999999 to binlog.1000000 is a failing roll-over |
| `Events.BatchShape` | crates/rustium-format-avro/src/lib.rs:165-187 | an event encodes exactly if the wire encoder accepts it; its batch is the encoder's destination, key and payload under the event's identifier, followed exactly for a delete with the option set by a tombstone of the same destination and key, without payload |
| `DebeziumBridge.DecodesExactly` | crates/rustium-debezium/src/source.rs:570-701 | a document decodes exactly if a payload is found in it whose connector is the bridge's and whose operation code is known; the record then has the payload's source, marker, boundary and operation, and an event exactly for a row, statement or table change |
| `DebeziumBridge.UnwrapsExactly` | crates/rustium-debezium/src/source.rs:703-732 | the payload of a document is the bare value inside at most three layers of text, CloudEvent or Connect schema |
| `DebeziumBridge.OperationIsCoded` | crates/rustium-debezium/src/source.rs:734-746 | the operation is the one whose letter stands under `op`, any other text is refused, and without a text it is a message |
| `DebeziumBridge.MarkerIsRead` | crates/rustium-debezium/src/source.rs:807-815 | which `snapshot` entries mark a snapshot record, the last one, or an incremental one |
| `DebeziumBridge.KafkaRecordIdInjective` | crates/rustium-debezium/src/source.rs:309-314 | Kafka record identifiers tell topics, partitions and offsets apart, whatever the topic name contains |
| `DebeziumBridge.EventIdsDistinct` | crates/rustium-debezium/src/source.rs:949-955 | with an injective digest different record identifiers give different event identifiers |
| `DebeziumBridge.TombstoneIdsDistinct` | crates/rustium-core/src/event.rs:296-303 | different events have different tombstone identifiers |
| `DebeziumBridge.TombstoneIsNoRecord` | crates/rustium-core/src/event.rs:296-303 | no tombstone identifier is that of a Kafka record |
| `StopAndWait.AckSettles` | crates/rustium-debezium/src/source.rs:971-1002 | with ordered serials and markers, a wait ends only when the record waited for has itself been checkpointed |
| `StopAndWait.StaleAckExactly` | crates/rustium-debezium/src/source.rs:979-985 | an acknowledgement left over from before the emission is accepted exactly if the marker goes back from streaming to snapshot |
| `StopAndWait.SettledHeld` | crates/rustium-core/src/runtime.rs:526-552 | every encoding of a checkpointed record is in the sink |
| `StopAndWait.PipelineKeeps` | crates/rustium-core/src/runtime.rs:339-376 | pipeline steps keep the link to the bridge: consumed records followed by the channel are what was emitted, in order |
| `StopAndWait.EmitKeeps` | crates/rustium-debezium/src/source.rs:338-343 | emitting a newer record keeps it too |
| `KafkaBridge.AtLeastOnce` | crates/rustium-debezium/src/source.rs:301-354 | at-least-once end to end, over any number of partitions and with restarts between any two steps: every non-empty message below a committed offset is in the sink, and so is the message that the checkpoint names (monotone markers assumed) |
| `KafkaBridge.StepInv` | crates/rustium-debezium/src/source.rs:301-354 | every step of bridge and pipeline, restarts included, keeps the invariant |
| `KafkaBridge.StoredOk` | crates/rustium-debezium/src/source.rs:412-440 | the checkpoint names a delivered message at or below the committed offset of its partition |
| `KafkaBridge.ConfirmedIsDelivered` | crates/rustium-debezium/src/source.rs:315-317 | a message skipped as the last confirmed one has been delivered |
| `KafkaBridge.RestartInv` | crates/rustium-debezium/src/source.rs:412-440 | a bridge resumed from the checkpoint starts in the invariant |
| `KafkaSources.KafkaSource.constructor` | crates/rustium-debezium/src/source.rs:412-440 | a new process resumes serial, identifier and snapshot flag from the checkpoint, or ends at once on a foreign one |
| `KafkaSources.KafkaSource.HandleMessage` | crates/rustium-debezium/src/source.rs:309-353 | one turn of the loop: nothing is emitted for the last confirmed message or one without payload, and for any other exactly the record it decodes to; this offset alone is committed, exactly when the message is skipped or its record has been confirmed and the broker does not refuse; any failure ends the source |
| `KafkaSources.KafkaSource.WaitForAck` | crates/rustium-debezium/src/source.rs:971-1002 | success only when the acknowledged position has reached the expected one, and at once when it already has; nothing is emitted meanwhile |
| `KafkaSources.KafkaSource.RunKafka` | crates/rustium-debezium/src/source.rs:301-354 | the loop takes what the polls yield in turn and commits exactly the messages received, up to the one at which an error or cancellation ends it; and whatever the pipeline did, what is committed has been delivered (monotone markers assumed) |
| `StaleAcknowledgement.StaleExactly` | crates/rustium-debezium/src/source.rs:979-985 | in any state the invariant allows, an emission is acknowledged at once exactly if the snapshot marker returns |
| `StaleAcknowledgement.StaleCommit` | crates/rustium-debezium/src/source.rs:979-985 | its offset is then committed with the sink unchanged, and the guarantee survives exactly if an earlier process had delivered the message |
| `StaleAcknowledgement.MessageLost` | crates/rustium-debezium/src/source.rs:979-985 | a concrete run without monotone markers in which a committed message never reached the sink |
| `ExactlyOnce.ExactlyOncePerPartition` | crates/rustium-debezium/src/source.rs:301-354 | any number of partitions, any run with restarts, partial writes and monotone markers: what belongs to a partition, deduplicated by event identifier, is in order the identifiers of its messages below the committed offset, once each, and at most part of the next; every entry encodes the message whose identifier it carries |
| `ExactlyOnce.EntriesAreGenuine` | crates/rustium-core/src/runtime.rs:443-461 | every entry of the sink is an encoding of an input message |
| `ExactlyOnce.EntriesAreTruthful` | crates/rustium-debezium/src/source.rs:949-955 | an entry with an identifier of a message is an encoding of that very message |
| `ExactlyOnce.SinkEntry` | crates/rustium-format-avro/src/lib.rs:165-187 | such an entry has the destination, key and payload that the wire encoder yields for an event decoded from the message, and no payload exactly if it is its tombstone |
| `ExactlyOnce.MessagesPassedOver` | crates/rustium-debezium/src/source.rs:315-317 | in every reachable state a message that comes is passed over exactly if it is empty or the present checkpoint names it |
| `ExactlyOnce.DecodingIsStable` | crates/rustium-debezium/src/source.rs:570-701 | decoding one message again changes neither its event identifier, operation nor marker |
| `ExactlyOnce.EncodedIds` | crates/rustium-format-avro/src/lib.rs:165-187 | the encodings of a message carry its identifiers: the event's, then the tombstone's for a delete |
| `ExactlyOnce.InputDistinct` | crates/rustium-debezium/src/source.rs:949-955 | the identifiers that a partition stands for are pairwise distinct, tombstones included |
| `ExactlyOnce.SlotBelongs` | crates/rustium-debezium/src/source.rs:309-314 | an identifier of a message belongs to its partition and to no other |
| `ExactlyOnce.DeduplicatedExtends` | crates/rustium-core/src/runtime.rs:582-602 | appending again any beginning of a batch adds at most what is new of it |
| `ExactlyOnce.DeduplicatedOf` | crates/rustium-debezium/src/source.rs:949-955 | picking the entries of a partition before or after deduplication is the same |
| `SinglePartition.ExactlyOnceAfterDeduplication` | crates/rustium-debezium/src/source.rs:301-354 | single partition and markers that never return in the input, so no assumption on the run: the sink as a whole, deduplicated, is in order the identifiers of all messages below the committed offset, once each, and at most part of the next; every entry encodes the message whose identifier it carries |
| `SinglePartition.SinkIsPrefixOfInput` | crates/rustium-debezium/src/source.rs:301-354 | that is, a prefix of the identifiers of the encodings of the non-empty input messages |
| `SinglePartition.CheckpointedIsNeverEmittedAgain` | crates/rustium-debezium/src/source.rs:315-317 | once a checkpoint has named a message, every later emission, after any restarts, comes from a later offset |
| `SinglePartition.MarkersHold` | crates/rustium-debezium/src/source.rs:807-815 | if no snapshot message follows a streaming one in the topic, no step brings the marker back |
| `SinglePartition.RunsAreMonotone` | crates/rustium-debezium/src/source.rs:807-815 | so every run over such a topic has monotone markers |
| `HttpBridge.AtMostOneUnacknowledged` | crates/rustium-debezium/src/source.rs:482-563 | over any mix of requests, of any number of documents each, with retries, time-outs and abandoned handlers, at most one emitted record is not covered by a checkpoint, and `pending` names exactly it; with none pending all is covered and acknowledged (monotone markers assumed) |
| `HttpBridge.EmissionsAdvance` | crates/rustium-debezium/src/source.rs:532-551 | emitted serials strictly increase from the resumed one on, and no record is emitted twice in a row |
| `HttpBridge.RetriesEmitNothing` | crates/rustium-debezium/src/source.rs:506-531 | while only the pending or last confirmed identifier is repeated, no emission happens and the emitted records stay as they are, over any number of requests; for a confirmed one across restarts as well |
| `HttpBridge.OthersAreRefused` | crates/rustium-debezium/src/source.rs:509-520 | a different document while one is pending is refused with the rest of its request and changes nothing |
| `HttpBridge.RetriedArray` | crates/rustium-debezium/src/source.rs:495-531 | only the last identifier of a body is remembered: a body of several documents posted again while its n-th is pending comes to wait for it exactly if that is the first or second, and is refused otherwise |
| `HttpBridge.SuccessIsDurable` | crates/rustium-debezium/src/source.rs:482-563 | success means, for every document of the request, that a checkpoint covers its record and the sink holds it |
| `HttpBridge.StaleExactly` | crates/rustium-debezium/src/source.rs:979-985 | the wait for an emission ends at once exactly if the snapshot marker returns |
| `HttpBridge.StaleSuccess` | crates/rustium-debezium/src/source.rs:552-562 | the request then goes on to success with the sink unchanged, which is justified exactly if the document had been delivered before |
| `HttpStaleSuccess.SuccessWithoutDelivery` | crates/rustium-debezium/src/source.rs:979-985 | a concrete run without monotone markers that answers a request with success although its document never reached the sink |
| `HttpBridge.StepInv` | crates/rustium-debezium/src/source.rs:482-563 | every step of handler and pipeline, restarts included, keeps the invariant |
| `HttpBridge.DocumentsOfBody` | crates/rustium-debezium/src/source.rs:483-491 | a body stands for nothing when empty or null, for the elements of an array, else for its value |
| `HttpBridge.HeaderIds` | crates/rustium-debezium/src/source.rs:497-505 | the first document has the identifying header, and each later one adds a colon and its place in decimal |
| `HttpBridge.IdsOfOneBody` | crates/rustium-debezium/src/source.rs:497-505 | so the documents of one body have different identifiers |
| `HttpBridge.DigestIds` | crates/rustium-debezium/src/source.rs:944-947 | without a header equal documents have equal identifiers, and with an injective digest and printer only those |
| `HttpHandlers.HttpState.ProcessHttp` | crates/rustium-debezium/src/source.rs:482-563 | one request of any number of documents: success means all are checkpointed and delivered, and, when nothing was pending and the first is new, that each of them was emitted, in order, under its own identifier; a repeated pending or confirmed identifier emits nothing; while another record is pending it is refused; an unconfirmed emission stays pending |
| `HttpHandlers.HttpState.IdentifierOf` | crates/rustium-debezium/src/source.rs:497-505 | the identifier computed in the loop is that of the document |
| `HttpHandlers.HttpState.constructor` | crates/rustium-debezium/src/source.rs:412-440 | a new process resumes serial, identifier and snapshot flag from the checkpoint, or serves nothing on a foreign one |
| `HttpHandlers.HttpState.HandleDocument` | crates/rustium-debezium/src/source.rs:495-561 | one document: at most one emission, none when it is the last confirmed one or anything is pending, and the new emission is pending exactly while unconfirmed |
| `HttpHandlers.HttpState.WaitForAck` | crates/rustium-debezium/src/source.rs:971-1002 | success clears `pending` and remembers the identifier; failure changes neither |
| `HttpHandlers.HttpState.DecodeNext` | crates/rustium-debezium/src/source.rs:532-544 | every decoding attempt uses up a serial, also one that fails |
| `SchemaCaches.SchemaCache.GetOrParse` | crates/rustium-format-protobuf/src/lib.rs:243-275 | answers what a fresh compilation would; a failure leaves the cache as it is; a success makes the key the most recent one |
| `SchemaCaches.SchemaCache.Touch` | crates/rustium-format-avro/src/lib.rs:217-222 | moves a cached key to the end of the order and keeps the rest in place |
| `SchemaCaches.SchemaCache.OrderedKeys` | crates/rustium-format-avro/src/lib.rs:190-223 | the order lists exactly the keys of the map, without repeats |
| `SchemaCaches.ByLastUseAscends` | crates/rustium-format-avro/src/lib.rs:199-223 | the specification: exactly the successful requests, without repeats and by the time of their last use, of which the cache retains the last `capacity` |
| `SchemaCaches.Hit` | crates/rustium-format-avro/src/lib.rs:200-203 | using a retained entry |
| `SchemaCaches.Miss` | crates/rustium-format-avro/src/lib.rs:207-214 | using another entry evicts the least recently used one when full |
| `Avro.SchemaIsWellFormed` | crates/rustium-format-avro/src/lib.rs:532-562 | every generated schema obeys the Avro 1.11 specification, section "Unions" (no nested union, no two branches of one type), and has null, as first branch, exactly if nullable |
| `Avro.ConversionConforms` | crates/rustium-format-avro/src/lib.rs:941-1008 | a converted value conforms to the schema of the same kind exactly if null is admitted or not given and a value written as text is admitted or not given; with the text branch only null matters |
| `Avro.ConvertsExactly` | crates/rustium-format-avro/src/lib.rs:941-1008 | a value is converted exactly if it is null, unavailable or a text, or of the kind or a number that fits it, through arrays |
| `Avro.BranchIsUnique` | crates/rustium-format-avro/src/lib.rs:532-562 | a value conforms to at most one branch of a well-formed union |
| `Avro.ConversionRepresents` | crates/rustium-format-avro/src/lib.rs:941-1008 | conversion keeps null, flags, numbers, bytes and nested structure, and otherwise the text of the value |
| `DataValues.TextTells` | crates/rustium-format-avro/src/lib.rs:1010-1031 | the text of a value is the text itself, denotes the number, spells the bytes in hexadecimal, or names the constant |
| `Avro.RowConforms` | crates/rustium-format-avro/src/lib.rs:630-663 | a converted row conforms to the record schema exactly if no required column is null and, in a key, no value is written as text |
| `Avro.RowConvertsExactly` | crates/rustium-format-avro/src/lib.rs:630-663 | a row is converted exactly if every column has a convertible value or may be absent and is; each field then has its column's name and stands for its value |
| `Avro.NullSlipsThrough` | crates/rustium-format-avro/src/lib.rs:630-663 | such a row: a null in a required column is converted to a value its schema does not admit |
| `Protobuf.WrapperBuilt` | crates/rustium-format-protobuf/src/lib.rs:938-973 | a field is encoded exactly if its value fits the kind; the message then has, in depth, exactly one declared branch set with a value of the declared type, and reads back as what the value was meant to say |
| `Protobuf.NativeBuilt` | crates/rustium-format-protobuf/src/lib.rs:938-1026 | the same for the native branch, through nested arrays and maps |
| `Protobuf.ItemBuilt` | crates/rustium-format-protobuf/src/lib.rs:1028-1057 | the same for an array item: null, unavailable, text fallback and native stay apart |
| `Protobuf.ItemsBuilt` | crates/rustium-format-protobuf/src/lib.rs:975-1000 | items are built in order, all or none |
| `Protobuf.EntryBuilt` | crates/rustium-format-protobuf/src/lib.rs:1059-1079 | a map entry is always built, with one declared branch set |
| `Protobuf.ScalarBuilt` | crates/rustium-format-protobuf/src/lib.rs:1264-1319 | a scalar is encoded exactly if it is in range of the kind, in the declared type, with its value up to widening |
| `Protobuf.EncodingIsLossless` | crates/rustium-format-protobuf/src/lib.rs:938-973 | equal messages come from equal values, for values of the kind's own type |
| `Protobuf.BuildRowMessage` | crates/rustium-format-protobuf/src/lib.rs:900-936 | a row is encoded exactly if every column fits; absent and null optional columns are left out; the message says of each column what the row does, and nothing else |
| `Protobuf.AcceptedColumns` | crates/rustium-format-protobuf/src/lib.rs:333-360 | what `adjusted_fields` accepts has distinct names, as the row encoder needs, and distinct legal numbers, and keeps source name, optionality and kind of each field |
| `Protobuf.RowIsLossless` | crates/rustium-format-protobuf/src/lib.rs:900-936 | rows of canonical values with the same message agree on every column |
| `FieldNumbers.AdjustedFields` | crates/rustium-format-protobuf/src/lib.rs:333-360 | fails exactly if two adjusted names or two numbers are the same, and reports such a pair; otherwise lists the fields in order |
| `FieldNumbers.AdjustedFieldsAreLegal` | crates/rustium-format-protobuf/src/lib.rs:333-385 | names are distinct legal identifiers; numbers are distinct, within 1..536870911 and outside 19000..19999 (proto3 language guide, "Assigning Field Numbers") |
| `FieldNumbers.NumbersAreStable` | crates/rustium-format-protobuf/src/lib.rs:333-370 | reordering or adding fields never changes the number or name of an existing one, and dropping or reordering them never makes a clash |
| `FieldNumbers.NumbersCollideExactly` | crates/rustium-format-protobuf/src/lib.rs:362-370 | two names share a number exactly if the first four bytes of their digests agree modulo 536870911, or one number is moved onto the other out of the reserved range |
| `FieldNumbers.EveryNumberOccurs` | crates/rustium-format-protobuf/src/lib.rs:362-370 | every legal number is that of some digest |
| `FieldNumbers.NumberIsLegal` | crates/rustium-format-protobuf/src/lib.rs:362-370 | every derived number is legal |
| `FieldNumbers.AdjustedIsIdentifier` | crates/rustium-format-protobuf/src/lib.rs:372-385 | an adjusted name is legal, and a name is kept exactly if it already was |
| `FieldNumbers.AdjustProtobufName` | crates/rustium-format-protobuf/src/lib.rs:372-385 | the character loop computes the adjusted name |
| `Properties.UnescapeKey` | crates/rustium-debezium/src/source.rs:1112-1117 | `unescape` inverts `properties_key` on every text |
| `Properties.UnescapeValue` | crates/rustium-debezium/src/source.rs:1119-1124 | `unescape` inverts `properties_value` on every text |
| `Properties.UnescapeCodePoint` | crates/rustium-config/src/debezium.rs:1429-1437 | a backslash, `u` and four hexadecimal digits stand for the code point with that number, and are refused exactly for surrogates |
| `Properties.UnescapePlain` | crates/rustium-config/src/debezium.rs:1415-1442 | `unescape` also inverts a printer into plain ASCII that uses every kind of escape |
| `Properties.OtherHexForms` | crates/rustium-config/src/debezium.rs:1430-1433 | digits of either case, and a leading plus sign, are accepted |
| `Properties.HexDigitsOnly` | crates/rustium-config/src/debezium.rs:1430-1433 | and nothing but digits is |
| `Properties.ReadEscape` | crates/rustium-config/src/debezium.rs:1423-1439 | the match on the character after a backslash |
| `Properties.EscapesAreInjective` | crates/rustium-debezium/src/source.rs:1112-1124 | different texts are never escaped alike |
| `Properties.KeyStep` | crates/rustium-debezium/src/source.rs:1112-1117 | three replacement passes escape character by character |
| `Properties.ValueStep` | crates/rustium-debezium/src/source.rs:1119-1124 | so do those over a value |
| `Properties.ReadEscaped` | crates/rustium-config/src/debezium.rs:1415-1442 | the loop of `unescape` |
| `Properties.ReadProperties` | crates/rustium-config/src/debezium.rs:1374-1413 | the loops of `parse_properties` |
| `Properties.ReadEntry` | crates/rustium-config/src/debezium.rs:1395-1411 | one logical line: skipped, refused, or split at its first separator |
| `Properties.ReadLogicalLines` | crates/rustium-config/src/debezium.rs:1375-1393 | lines that end in an odd number of backslashes continue |
| `Properties.ContinuedFile` | crates/rustium-config/src/debezium.rs:1375-1393 | an unescaped backslash at the end of a line joins it with the next line that is not blank: the file reads as if they were one line |
| `Properties.EntryOfParts` | crates/rustium-config/src/debezium.rs:1395-1411 | any key, any run of equals signs, colons and white space, and any value between them are read as that key and value, whatever white space is around |
| `Properties.EntryWithoutSeparator` | crates/rustium-config/src/debezium.rs:1400-1404 | a line without a separator is refused |
| `Properties.IgnoredLine` | crates/rustium-config/src/debezium.rs:1396-1399 | a blank line or comment can be left out of a file |
| `Properties.UnterminatedFile` | crates/rustium-config/src/debezium.rs:1377-1378 | the last line need not end in a line feed |
| `Properties.FileIsReadBack` | crates/rustium-config/src/debezium.rs:1374-1413 | for keys without separators that do not look like comments, parsing the written lines gives every key its value, stripped of leading separators and trailing white space |
| `Properties.FileRoundTrip` | crates/rustium-config/src/debezium.rs:1374-1413 | so for distinct such keys the map comes back exactly if no value has a separator in front or white space behind, line breaks apart |
| `Properties.KeyComesBack` | crates/rustium-config/src/debezium.rs:1396-1405 | the reader cuts at an escaped `=` or `:` too: a key on a line of its own comes back exactly if it has no `=`, `:` or white space and does not start with `#` or `!` |
| `Properties.KeyIsCut` | crates/rustium-config/src/debezium.rs:1396-1405 | such a key: `a=b` is written escaped and read back as an `a` and a backslash, with the rest in its value |
| `Properties.EntryOfLine` | crates/rustium-config/src/debezium.rs:1395-1411 | a written line reads as its key and its value without leading separators |
| `Properties.EvenSlashes` | crates/rustium-debezium/src/source.rs:1119-1124 | a written line never continues on the next |
| `TextLists.ReadCsv` | crates/rustium-config/src/debezium.rs:1841-1868 | the character loop of `split_csv` |
| `TextLists.CsvRoundTrip` | crates/rustium-config/src/debezium.rs:1841-1868 | `split_csv` inverts joining with commas exactly for trimmed, non-empty items whose commas are escaped and which, the last one excepted, do not end in an open escape |
| `TextLists.CsvIgnoresPadding` | crates/rustium-config/src/debezium.rs:1841-1868 | white space around items and blank pieces between them make no difference |
| `TextLists.ReadInitialStatements` | crates/rustium-config/src/debezium.rs:1650-1678 | the character loop of `postgres_initial_statements` |
| `TextLists.StatementsRoundTrip` | crates/rustium-config/src/debezium.rs:1650-1678 | it inverts doubling inner semicolons and joining with single ones exactly for trimmed, non-empty statements of which only the first may start with a semicolon |
| `Whitespace.TrimShape` | crates/rustium-config/src/debezium.rs:1666-1675 | trimming shortens exactly the texts that are not trimmed |
| `Whitespace.TrimPadded` | crates/rustium-config/src/debezium.rs:1841-1868 | white space around a trimmed text is taken off, and nothing else |
| `Whitespace.SpacesListed` | crates/rustium-config/src/debezium.rs:1395-1411 | the twenty-five characters that count as white space |
| `JavaStrings.JavaSerializedString` | crates/rustium-column-transform/src/lib.rs:324-352 | the bytes written |
| `JavaStrings.EncodeUnits` | crates/rustium-column-transform/src/lib.rs:325-341 | the loop over the UTF-16 code units |
| `JavaStrings.SerializedIsReadBack` | crates/rustium-column-transform/src/lib.rs:324-352 | a reader of section 6.4 of the Java Object Serialization Specification gets every sequence of code units back, whatever follows in the stream, and consumes exactly its bytes |
| `JavaStrings.SerializationIsPrefixFree` | crates/rustium-column-transform/src/lib.rs:324-352 | no serialization begins another, so strings are uniquely decodable |
| `JavaStrings.ReadModified` | crates/rustium-column-transform/src/lib.rs:325-341 | modified UTF-8 (section 4.4.7 of the Java Virtual Machine Specification) is uniquely decodable |
| `JavaStrings.BodyShape` | crates/rustium-column-transform/src/lib.rs:325-341 | the body has no zero byte and one to three bytes per code unit |
| `JavaStrings.FormAndSize` | crates/rustium-column-transform/src/lib.rs:343-350 | the two-byte length is used exactly when the body has at most 65535 bytes |

## Left out

- Serial numbers, retry counts and offsets are unbounded; the 64-bit wrap-around of `event_serial` is not modelled.
- Scheduling fairness, wall-clock time and time-out lengths: steps are nondeterministic and the results are safety, plus the bound on retries and on time slept.
- RunKafka: a wait for an acknowledgement ends after an arbitrary time, as by cancellation, so nothing is said of how long the loop goes on.
- The flush and shutdown of the sink after the loop, and the validation of the sink before it.
- The remaining checkpoint fields (schema version, connector name, generation, fingerprint, time of update), status reporting and lag metrics.
- The loading of the checkpoint and its fingerprint check: the model starts from what was loaded.
- HTTP authorization, routing and status codes, and the choice among identifying headers: a request carries the header value that was found. The topic header, which may name the table, is not part of a request.
- That the bridge's snapshot flag and the pipeline's agree: a document with status END, or a handler abandoned before its record was sent, separates them.
- Rebalancing of Kafka partitions, seeking and consumer timeouts: within a process the next message of a partition is the one at its committed offset.
- CheckpointedIsNeverEmittedAgain: is for a single partition; for any number `MessagesPassedOver` says exactly when a message is passed over.
- Payload bytes are texts, and a change event keeps its payload as one document instead of rows, table and transaction.
- `SignalAcknowledgement`: that a second acknowledgement through a clone does nothing is immediate from taking the sender; signals are names here.
- `EventId::deterministic` and the native connectors, the SQLite store and the Kafka sink, which appear only through what they promise.
- The text of generated Protobuf definitions and its parsing: a descriptor is what the text declares. Likewise Avro schemas are trees, not JSON.
- Envelope, source, transaction, heartbeat and key messages of both encoders, which are fixed lists of fields.
- The recognition of type names (`avro_kind`, `protobuf_kind`), a long list of cases.
- The Avro `adjusted_fields`, which is the name half of the Protobuf one.
- `DataValue::to_json` and the JSON text of containers inside text fields.
- Column transformation other than the Java serialization: rule order, selectors, truncation, masking and the digests.
- The lines of a managed configuration other than `key=value`, and which keys the bridge owns.
