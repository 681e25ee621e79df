/** `process_http` (rustium-debezium, source.rs) over the fields behind its lock, as a run of the HTTP bridge. */
module HttpHandlers {
  import opened Prelude
  import opened Positions
  import opened Events
  import opened DebeziumBridge
  import opened Decimals
  import opened StopAndWait
  import opened HttpBridge
  import R = Runtime

  /** `Lost` stands for a handler abandoned at an await. */
  datatype Reply = NoContent | Rejected | Lost

  class HttpState {
    const config: Config
    /** `ProcessingState`. */
    var nextSerial: nat
    var lastRecordId: Option<string>
    var pending: Option<SourcePosition>
    var snapshotCompleted: bool
    /** The channel with the pipeline behind it. */
    var link: Link
    /** The run so far, and what it says beyond the fields above. */
    ghost var actions: seq<Action>
    ghost var handler: Handler
    ghost var origins: seq<Origin>
    ghost var posted: seq<Document>

    ghost function Current(): System
      reads this
    {
      System(link, Processing(nextSerial, lastRecordId, pending, snapshotCompleted), handler, origins, posted)
    }

    ghost predicate Valid()
      reads this
    {
      Run(config, actions) == Some(Current())
    }

    /** A process that starts over what an earlier run has left. */
    constructor (config: Config, durable: System, ghost before: seq<Action>)
      requires Run(config, before) == Some(durable)
      ensures Valid() && this.config == config && actions == before + [Restart]
      ensures link.runtime.sink == durable.link.runtime.sink && link.sent == [] && pending.None?
      ensures match durable.link.runtime.stored
              case None => handler.Free? && nextSerial == 0 && lastRecordId == None && !snapshotCompleted
              case Some(checkpoint) =>
                match checkpoint.position
                case Debezium(position) =>
                  if position.connector != config.bridge.sourceType then handler.Down?
                  else
                    && handler.Free? && nextSerial == position.eventSerial
                    && lastRecordId == Some(position.recordId)
                    && snapshotCompleted == checkpoint.snapshotCompleted
                case _ => handler.Down?
    {
      var stored := durable.link.runtime.stored;
      this.config := config;
      nextSerial, lastRecordId, pending, snapshotCompleted, handler := 0, None, None, false, Free;
      if stored.Some? {
        if stored.value.position.Debezium? && stored.value.position.debezium.connector == config.bridge.sourceType {
          var position := stored.value.position.debezium;
          nextSerial, lastRecordId := position.eventSerial, Some(position.recordId);
          snapshotCompleted := stored.value.snapshotCompleted;
        } else {
          handler := Down;
        }
      }
      link := Link(R.Start(durable.link.runtime.sink, stored), [], []);
      actions, origins, posted := before + [Restart], [], durable.posted;
      assert (before + [Restart])[..|before|] == before;
    }

    lemma Extend(a: Action)
      requires Valid() && Step(config, Current(), a).Some?
      ensures Run(config, actions + [a]) == Step(config, Current(), a)
    {
      hide Step;
      assert (actions + [a])[..|actions|] == actions;
    }

    /** While the handler awaits, the pipeline takes any number of steps. */
    method Others()
      requires Valid()
      modifies this`link, this`actions
      ensures Valid() && old(actions) <= actions && link.sent == old(link.sent)
    {
      hide R.Step, Run;
      var steps: nat := *;
      while steps > 0
        invariant Valid() && old(actions) <= actions && link.sent == old(link.sent)
      {
        steps := steps - 1;
        var step: Option<R.Action> := *;
        var moved := if step.Some? then Pipeline(config.bridge.env, link, step.value)
                     else Hand(config.bridge.env, link);
        if moved.Some? {
          ghost var a := if step.Some? then Pipe(step.value) else HandOver;
          Extend(a);
          actions := actions + [a];
          link := moved.value;
        }
      }
    }

    /** The handler ends without a confirmation. */
    ghost method GiveUp()
      requires Valid() && (handler.Sending? || handler.Waiting?)
      modifies this`actions, this`handler
      ensures Valid() && handler == Free && actions == old(actions) + [Fail]
    {
      Extend(Fail);
      actions := actions + [Fail];
      handler := Free;
    }

    /**
     * `wait_for_ack` with a time-out, and what follows it. `lifetime` is how often the handler looks at the
     * acknowledged position before it is abandoned or its time is up.
     */
    method WaitForAck(
        ghost documents: seq<Document>, ghost next: nat, recordId: string, expected: SourcePosition, lifetime: nat)
      returns (reply: Reply)
      requires Valid() && handler == Waiting(documents, next, expected) && next < |documents|
      requires documents[next].0 == recordId
      modifies this`link, this`actions, this`handler, this`lastRecordId, this`pending
      ensures Valid() && old(actions) <= actions && link.sent == old(link.sent)
      ensures reply.NoContent? ==>
                handler == Working(documents, next + 1) && lastRecordId == Some(documents[next].0) && pending == None
      ensures !reply.NoContent? ==> handler == Free && lastRecordId == old(lastRecordId) && pending == old(pending)
      ensures lifetime > 0 && old(Reached(link.runtime.acknowledged, expected)) ==>
                reply.NoContent? && link == old(link)
    {
      hide Run;
      var patience := lifetime;
      while patience > 0
        invariant patience == lifetime ==> link == old(link)
        invariant patience < lifetime ==> !old(Reached(link.runtime.acknowledged, expected))
        invariant Valid() && handler == Waiting(documents, next, expected)
        invariant old(actions) <= actions && link.sent == old(link.sent)
        invariant lastRecordId == old(lastRecordId) && pending == old(pending)
      {
        if Reached(link.runtime.acknowledged, expected) {
          Confirmed(documents, next, recordId);
          return NoContent;
        }
        patience := patience - 1;
        Others();
      }
      GiveUp();
      if * {
        return Lost;
      }
      return Rejected;
    }

    method Confirmed(ghost documents: seq<Document>, ghost next: nat, recordId: string)
      requires Valid() && handler.Waiting? && handler.documents == documents && handler.next == next < |documents|
      requires Reached(link.runtime.acknowledged, handler.expected) && documents[next].0 == recordId
      modifies this`actions, this`handler, this`lastRecordId, this`pending
      ensures Valid() && actions == old(actions) + [HttpBridge.Acknowledge]
      ensures handler == Working(documents, next + 1) && lastRecordId == Some(documents[next].0) && pending == None
    {
      hide Run, Reached;
      Extend(Acknowledge);
      actions := actions + [Acknowledge];
      lastRecordId, pending, handler := Some(recordId), None, Working(documents, next + 1);
    }

    /** The request is taken up, or refused when its body is not JSON. */
    ghost method TakeUpRequest(request: Request)
      requires Valid() && handler == Free
      modifies this`actions, this`posted, this`handler
      ensures Valid() && actions == old(actions) + [Post(request)]
      ensures handler == match Documents(config, request)
                         case None => Free
                         case Some(documents) => Working(documents, 0)
    {
      hide Run, Documents;
      Extend(Post(request));
      actions := actions + [Post(request)];
      if Documents(config, request).Some? {
        posted := posted + Documents(config, request).value;
        handler := Working(Documents(config, request).value, 0);
      }
    }

    /** The last confirmed record again. */
    ghost method Skip(documents: seq<Document>, next: nat, now: int)
      requires Valid() && handler == Working(documents, next) && next < |documents|
      requires lastRecordId == Some(documents[next].0)
      modifies this`actions, this`handler
      ensures Valid() && handler == Working(documents, next + 1) && actions == old(actions) + [Proceed(now)]
    {
      hide Run;
      Extend(Proceed(now));
      actions := actions + [Proceed(now)];
      handler := Working(documents, next + 1);
    }

    /** A record is pending: its own repetition waits for it, any other document is refused. */
    ghost method Pending(documents: seq<Document>, next: nat, now: int)
      requires Valid() && handler == Working(documents, next) && next < |documents| && pending.Some?
      requires lastRecordId != Some(documents[next].0)
      modifies this`actions, this`handler
      ensures Valid() && actions == old(actions) + [Proceed(now)]
      ensures handler == if NamedBy(pending, documents[next].0) then Waiting(documents, next, pending.value) else Free
    {
      hide Run;
      Extend(Proceed(now));
      actions := actions + [Proceed(now)];
      handler := if NamedBy(pending, documents[next].0) then Waiting(documents, next, pending.value) else Free;
    }

    /** Nothing is pending: the document gets the next serial and is decoded. */
    method DecodeNext(ghost documents: seq<Document>, ghost next: nat, item: Document, now: int)
      returns (record: Option<SourceRecord>)
      requires Valid() && handler == Working(documents, next) && next < |documents| && pending.None?
      requires lastRecordId != Some(documents[next].0) && documents[next] == item
      modifies this`nextSerial, this`snapshotCompleted, this`actions, this`handler
      ensures Valid() && actions == old(actions) + [Proceed(now)] && nextSerial == old(nextSerial) + 1
      ensures record.None? ==> handler == Free
      ensures record.Some? <==> DecodeDocument(
                config.bridge, documents[next].1, documents[next].0, nextSerial, old(snapshotCompleted), now).Ok?
      ensures record.Some? ==>
                && handler.Sending? && handler.record == record.value
                && handler.documents == documents && handler.next == next
                && Names(record.value, documents[next].0)
    {
      hide Run, DecodeDocument;
      ghost var k := Current();
      Extend(Proceed(now));
      var (id, document) := item;
      ghost var x := NextOrigin(k, now);
      nextSerial := nextSerial + 1;
      var decoded := DecodeDocument(config.bridge, document, id, nextSerial, snapshotCompleted, now);
      assert decoded == Decode(config, x);
      if decoded.Ok? {
        DecodedShape(config.bridge, document, id, nextSerial, snapshotCompleted, now);
      }
      actions := actions + [Proceed(now)];
      if decoded.Err? {
        handler := Free;
        return None;
      }
      if decoded.value.completesSnapshot {
        snapshotCompleted := true;
      }
      handler := Sending(documents, next, x, decoded.value.record);
      return Some(decoded.value.record);
    }

    /** The channel takes the record, which is pending from then on. */
    method Send(record: SourceRecord)
      requires Valid() && handler.Sending? && handler.record == record
      modifies this`link, this`pending, this`actions, this`handler, this`origins
      ensures Valid() && handler == Waiting(old(handler.documents), old(handler.next), record.position)
      ensures link.sent == old(link.sent) + [record] && pending == Some(record.position)
      ensures actions == old(actions) + [Sent]
    {
      hide Run;
      Extend(Sent);
      origins := origins + [handler.origin];
      handler := Waiting(handler.documents, handler.next, record.position);
      link := Emit(link, record);
      pending := Some(record.position);
      actions := actions + [Sent];
    }

    /** The identifier of the document at this place of the body. */
    method IdentifierOf(request: Request, items: seq<Json>, ghost documents: seq<Document>, index: nat)
      returns (recordId: string)
      requires IsBody(config, request, items, documents) && index < |documents|
      ensures |items| == |documents| && documents[index] == (recordId, items[index])
    {
      hide Documents, HttpBridge.RecordId;
      BodyLength(config, request, items, documents);
      DocumentId(config, request, items, documents, index);
      if request.header.None? {
        recordId := "sha256:" + (config.bridge.env.sha256)((config.printJson)(items[index]));
      } else if index == 0 {
        recordId := request.header.value;
      } else {
        recordId := request.header.value + ":" + Decimal(index);
      }
    }

    /**
     * One document of a request. Success takes the handler to the next one. A `lifetime` of zero is that of a handler
     * abandoned before the channel has taken the record.
     */
    method HandleDocument(
        request: Request, items: seq<Json>, ghost documents: seq<Document>, next: nat, now: int, lifetime: nat)
      returns (reply: Reply)
      requires IsBody(config, request, items, documents)
      requires Valid() && handler == Working(documents, next) && next < |documents|
      modifies this
      ensures Valid() && old(actions) <= actions
      ensures handler == if reply.NoContent? then Working(documents, next + 1) else Free
      ensures reply.NoContent? ==> lastRecordId == Some(documents[next].0)
      ensures old(link.sent) <= link.sent && |link.sent| <= |old(link.sent)| + 1
      ensures link.sent != old(link.sent) ==>
                && (reply.NoContent? <==> pending.None?)
                && (pending.Some? ==> pending == Some(link.sent[|link.sent| - 1].position))
      ensures old(lastRecordId) == Some(documents[next].0) ==>
                && reply.NoContent? && link.sent == old(link.sent)
                && nextSerial == old(nextSerial) && pending == old(pending)
      ensures old(pending).Some? ==> link.sent == old(link.sent) && nextSerial == old(nextSerial)
      ensures old(pending).None? && link.sent == old(link.sent) ==> pending.None?
      ensures old(pending).Some? ==> pending == old(pending) || (reply.NoContent? && pending.None?)
      ensures old(lastRecordId) != Some(documents[next].0) && old(pending).Some?
              && !NamedBy(old(pending), documents[next].0)
              ==> reply.Rejected? && pending == old(pending) && lastRecordId == old(lastRecordId)
      ensures old(lastRecordId) != Some(documents[next].0) && NamedBy(old(pending), documents[next].0)
              ==> (reply.NoContent? <==> pending.None?)
      ensures old(lastRecordId) != Some(documents[next].0) && old(pending).None? && reply.NoContent?
              ==> link.sent != old(link.sent)
      ensures link.sent != old(link.sent) ==> Names(link.sent[|link.sent| - 1], documents[next].0)
      ensures old(lastRecordId) != Some(documents[next].0) && old(pending).None? && lifetime > 0
              && DecodeDocument(config.bridge, documents[next].1, documents[next].0, old(nextSerial) + 1,
                                old(snapshotCompleted), now).Ok?
              ==> link.sent != old(link.sent)
    {
      hide Run, NoRepeats, DecodeDocument, IsBody, Valid, Reached;
      var recordId := IdentifierOf(request, items, documents, next);
      if lastRecordId == Some(recordId) {
        Skip(documents, next, now);
        return NoContent;
      }
      if pending.Some? {
        Pending(documents, next, now);
        if !NamedBy(pending, recordId) {
          return Rejected;
        }
        reply := WaitForAck(documents, next, recordId, pending.value, lifetime);
        return;
      }
      var record := DecodeNext(documents, next, (recordId, items[next]), now);
      if record.None? {
        return Rejected;
      }
      Others();
      if lifetime == 0 {
        GiveUp();
        return Lost;
      }
      Send(record.value);
      reply := WaitForAck(documents, next, recordId, record.value.position, lifetime);
    }

    /** Every document has been dealt with. */
    ghost method Answer(documents: seq<Document>)
      requires Valid() && handler == Working(documents, |documents|)
      modifies this`actions, this`handler
      ensures Valid() && handler == Free && actions == old(actions) + [HttpBridge.Reply]
      ensures MonotoneMarkers(config, actions) ==> AllDurable(documents)
    {
      hide Run, Checkpointed, Delivered;
      Extend(HttpBridge.Reply);
      assert (actions + [HttpBridge.Reply])[..|actions|] == actions;
      if MonotoneMarkers(config, actions + [HttpBridge.Reply]) {
        SuccessIsDurable(config, actions, Current(), HttpBridge.Reply, documents);
      }
      actions := actions + [HttpBridge.Reply];
      handler := Free;
    }

    /** Each document's record is covered by a checkpoint and held by the sink. */
    ghost predicate AllDurable(documents: seq<Document>)
      reads this
    {
      forall i | 0 <= i < |documents| ::
        Checkpointed(link, documents[i].0) && Delivered(config, posted, link.runtime.sink, documents[i].0)
    }

    /**
     * One request, of any number of documents. Success means that checkpoints cover them all and the sink holds them.
     * A request that only repeats the pending or last confirmed identifier emits nothing; while a record is pending, a
     * request that starts with another document is refused and changes nothing.
     */
    method ProcessHttp(request: Request) returns (reply: Reply)
      requires Valid() && handler == Free
      modifies this
      ensures Valid() && handler == Free && old(actions) <= actions
      ensures old(link.sent) <= link.sent
      ensures Documents(config, request).None? ==> reply.Rejected? && link.sent == old(link.sent)
      ensures Documents(config, request) == Some([]) ==> reply.NoContent? && link.sent == old(link.sent)
      ensures Documents(config, request).Some? && reply.NoContent? ==>
                var documents := Documents(config, request).value;
                DistinctIds(documents) && documents != [] && old(pending).None?
                && old(lastRecordId) != Some(documents[0].0) ==>
                  EmittedEach(link.sent[|old(link.sent)|..], documents)
      ensures Documents(config, request).Some? ==>
                var documents := Documents(config, request).value;
                && |link.sent| <= |old(link.sent)| + |documents|
                && (link.sent != old(link.sent) && pending.Some? ==>
                      !reply.NoContent? && pending == Some(link.sent[|link.sent| - 1].position))
                && (reply.NoContent? && documents != [] ==> lastRecordId == Some(documents[|documents| - 1].0))
                && (reply.NoContent? && MonotoneMarkers(config, actions) ==> AllDurable(documents))
                && (forall id | AllCarry(documents, id) && old(HttpBridge.Current(Current(), id)) ::
                      link.sent == old(link.sent) && nextSerial == old(nextSerial))
                && (documents != [] && old(lastRecordId) != Some(documents[0].0)
                    && old(pending).Some? && !NamedBy(old(pending), documents[0].0) ==>
                      reply.Rejected? && link.sent == old(link.sent) && pending == old(pending)
                      && lastRecordId == old(lastRecordId))
    {
      hide Run, Checkpointed, Delivered, MonotoneMarkers, NoRepeats, Documents, RecordId;
      hide EmittedEach, Names, DistinctIds;
      hide Valid, AllDurable, DecodeDocument;
      var body := request.body;
      TakeUpRequest(request);
      DocumentsOfBody(config, request);
      if body == "" || body == "null" {
        Answer([]);
        return NoContent;
      }
      var parsed := (config.bridge.env.parseJson)(body);
      if parsed.None? {
        return Rejected;
      }
      var items := if parsed.value.JArray? then parsed.value.items else [parsed.value];
      ghost var documents := Documents(config, request).value;
      reply := HandleBody(request, items, documents);
      assert forall id | AllCarry(documents, id) && documents != [] :: id == documents[0].0;
    }

    /** The loop over the documents of a body. */
    method HandleBody(request: Request, items: seq<Json>, ghost documents: seq<Document>) returns (reply: Reply)
      requires IsBody(config, request, items, documents)
      requires Valid() && handler == Working(documents, 0)
      modifies this
      ensures Valid() && handler == Free && old(actions) <= actions
      ensures old(link.sent) <= link.sent && |link.sent| <= |old(link.sent)| + |documents|
      ensures documents == [] ==> reply.NoContent?
      ensures link.sent != old(link.sent) && pending.Some? ==>
                !reply.NoContent? && pending == Some(link.sent[|link.sent| - 1].position)
      ensures reply.NoContent? && documents != [] ==> lastRecordId == Some(documents[|documents| - 1].0)
      ensures reply.NoContent? && MonotoneMarkers(config, actions) ==> AllDurable(documents)
      ensures documents == [] ==> link.sent == old(link.sent) && nextSerial == old(nextSerial)
      ensures documents != [] && AllCarry(documents, documents[0].0)
              && old(HttpBridge.Current(Current(), documents[0].0))
              ==> link.sent == old(link.sent) && nextSerial == old(nextSerial)
      ensures documents != [] && old(lastRecordId) != Some(documents[0].0)
              && old(pending).Some? && !NamedBy(old(pending), documents[0].0)
              ==> reply.Rejected? && link.sent == old(link.sent) && pending == old(pending)
                  && lastRecordId == old(lastRecordId)
      ensures reply.NoContent? && DistinctIds(documents) && documents != [] && old(pending).None?
              && old(lastRecordId) != Some(documents[0].0)
              ==> EmittedEach(link.sent[|old(link.sent)|..], documents)
    {
      hide Run, Checkpointed, Delivered, MonotoneMarkers, NoRepeats, Documents, RecordId;
      hide EmittedEach, Names, DistinctIds;
      hide Valid, AllDurable, DecodeDocument, IsBody;
      NothingEmitted(old(link.sent), documents);
      BodyLength(config, request, items, documents);
      var i := 0;
      ghost var repeated := documents != [] && AllCarry(documents, documents[0].0)
                            && old(HttpBridge.Current(Current(), documents[0].0));
      while i < |items|
        invariant i <= |items| == |documents| && Valid() && handler == Working(documents, i)
        invariant old(actions) <= actions
        invariant old(link.sent) <= link.sent && |link.sent| <= |old(link.sent)| + i
        invariant link.sent != old(link.sent) ==> pending.None?
        invariant i > 0 ==> lastRecordId == Some(documents[i - 1].0)
        invariant repeated ==>
                    link.sent == old(link.sent) && nextSerial == old(nextSerial)
                    && HttpBridge.Current(Current(), documents[0].0)
        invariant i == 0 ==> nextSerial == old(nextSerial)
        invariant i == 0 ==> pending == old(pending) && lastRecordId == old(lastRecordId) && link.sent == old(link.sent)
        invariant i > 0 ==> !(old(lastRecordId) != Some(documents[0].0)
                              && old(pending).Some? && !NamedBy(old(pending), documents[0].0))
        invariant old(pending).None? ==> pending.None?
        invariant DistinctIds(documents) && old(pending).None?
                  && (documents != [] ==> old(lastRecordId) != Some(documents[0].0))
                  ==> EmittedEach(link.sent[|old(link.sent)|..], documents[..i])
      {
        ghost var before := link.sent;
        NextDiffers(documents, i);
        var now: int, lifetime: nat := *, *;
        reply := HandleDocument(request, items, documents, i, now, lifetime);
        if !reply.NoContent? {
          return;
        }
        if link.sent != before {
          EmittedGrows(old(link.sent), before, link.sent, documents, i);
        }
        i := i + 1;
      }
      assert documents[..i] == documents;
      Answer(documents);
      return NoContent;
    }
  }

  /** The record's position carries the identifier. */
  predicate Names(r: SourceRecord, id: string) { r.position.Debezium? && r.position.debezium.recordId == id }

  /** One record for each document, in order, with its identifier. */
  predicate EmittedEach(records: seq<SourceRecord>, documents: seq<Document>) {
    |records| == |documents| && forall i | 0 <= i < |records| :: Names(records[i], documents[i].0)
  }

  lemma NothingEmitted(sent: seq<SourceRecord>, documents: seq<Document>)
    ensures EmittedEach(sent[|sent|..], documents[..0])
  {
  }

  /** Of documents with different identifiers, the next one is not the last confirmed. */
  lemma NextDiffers(documents: seq<Document>, i: nat)
    requires i < |documents|
    ensures DistinctIds(documents) && i > 0 ==> documents[i - 1].0 != documents[i].0
  {
  }

  lemma EmittedGrows(
      base: seq<SourceRecord>, before: seq<SourceRecord>, after: seq<SourceRecord>, documents: seq<Document>, i: nat)
    requires i < |documents| && base <= before <= after && |after| == |before| + 1
    requires Names(after[|before|], documents[i].0)
    ensures EmittedEach(before[|base|..], documents[..i]) ==> EmittedEach(after[|base|..], documents[..i + 1])
  {
    assert after[|base|..] == before[|base|..] + [after[|before|]];
  }

  /** The body holds these values, which become these documents. */
  predicate IsBody(c: Config, request: Request, items: seq<Json>, documents: seq<Document>) {
    && request.body != "" && request.body != "null"
    && Documents(c, request) == Some(documents)
    && var value := (c.bridge.env.parseJson)(request.body);
       value.Some? && items == if value.value.JArray? then value.value.items else [value.value]
  }

  lemma BodyLength(c: Config, request: Request, items: seq<Json>, documents: seq<Document>)
    requires IsBody(c, request, items, documents)
    ensures |items| == |documents|
  {
    DocumentsOfBody(c, request);
  }

  /** The place `i` of the body, with the identifier that the handler gives it. */
  lemma DocumentId(c: Config, request: Request, items: seq<Json>, documents: seq<Document>, i: nat)
    requires IsBody(c, request, items, documents) && i < |documents|
    ensures |items| == |documents|
    ensures documents[i]
            == (if request.header.None? then "sha256:" + (c.bridge.env.sha256)((c.printJson)(items[i]))
                else if i == 0 then request.header.value
                else request.header.value + ":" + Decimal(i), items[i])
  {
    DocumentsOfBody(c, request);
    assert documents[i].1 == items[i];
    assert documents[i].0 == RecordId(c, request.header, i, items[i]);
  }
}
