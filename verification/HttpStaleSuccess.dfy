/** A run of the HTTP bridge that answers a request with success although its document has not been delivered. */
module HttpStaleSuccess {
  import opened Prelude
  import opened Positions
  import opened DebeziumBridge
  import opened StopAndWait
  import opened HttpBridge
  import opened StaleDelivery
  import R = Runtime

  function HttpConfig(): Config { Config(LossyBridge(), (j: Json) => "") }

  const FIRST_REQUEST := Request(Some(FIRST_ID), "streamed")
  const SECOND_REQUEST := Request(Some(SECOND_ID), "scanned")

  const FIRST_DOCUMENTS: seq<Document> := [(FIRST_ID, STREAMED)]
  const SECOND_DOCUMENTS: seq<Document> := [(SECOND_ID, SCANNED)]

  /** A streamed document, posted, checkpointed and answered; then a snapshot document. */
  const LOSS: seq<Action> := [
    Post(FIRST_REQUEST), Proceed(0), Sent, HandOver, Pipe(R.Begin), Pipe(R.Deliver(1, R.Accepted)),
    Pipe(R.Save(R.Stored)), Pipe(R.Publish(true)), Pipe(R.Finish), Acknowledge, Reply,
    Post(SECOND_REQUEST), Proceed(0), Sent, Acknowledge]

  lemma OneDocument(c: Config, request: Request, value: Json)
    requires request.body != "" && request.body != "null" && (c.bridge.env.parseJson)(request.body) == Some(value)
    requires !value.JArray?
    ensures Documents(c, request) == Some([(RecordId(c, request.header, 0, value), value)])
  {
    hide RecordId;
    var items := [value];
    assert items[0] == value;
    var documents := seq(|items|, i requires 0 <= i < |items| => (RecordId(c, request.header, i, items[i]), items[i]));
    assert documents == [(RecordId(c, request.header, 0, value), value)];
  }

  lemma FirstBody()
    ensures Documents(HttpConfig(), FIRST_REQUEST) == Some(FIRST_DOCUMENTS)
  {
    assert |"streamed"| == 8 && |"null"| == 4;
    OneDocument(HttpConfig(), FIRST_REQUEST, STREAMED);
  }

  lemma SecondBody()
    ensures Documents(HttpConfig(), SECOND_REQUEST) == Some(SECOND_DOCUMENTS)
  {
    assert |"scanned"| == 7 && |"streamed"| == 8 && |"null"| == 4;
    OneDocument(HttpConfig(), SECOND_REQUEST, SCANNED);
  }

  const FIRST_ORIGIN := Origin(FIRST_ID, STREAMED, 1, false, 0)
  const SECOND_ORIGIN := Origin(SECOND_ID, SCANNED, 2, true, 0)

  // The states of that run.

  function Fresh(handler: Handler, posted: seq<Document>): System {
    System(Link(R.Start([], None), [], []), Processing(0, None, None, false), handler, [], posted)
  }

  function Decoded1(): System {
    Fresh(Sending(FIRST_DOCUMENTS, 0, FIRST_ORIGIN, FirstRecord()), FIRST_DOCUMENTS).(
      processing := Processing(1, None, None, true))
  }

  /** The first record is pending while the pipeline is in this state. */
  function Pending(l: Link): System {
    System(l, Processing(1, None, Some(FirstPosition()), true), Waiting(FIRST_DOCUMENTS, 0, FirstPosition()),
           [FIRST_ORIGIN], FIRST_DOCUMENTS)
  }

  function WithRuntime(t: R.State): System { Pending(Link(t, [], [FirstRecord()])) }

  function Settled(): Link { Link(Published().(phase := R.Idle), [], [FirstRecord()]) }

  function Answered(handler: Handler, posted: seq<Document>): System {
    System(Settled(), Processing(1, Some(FIRST_ID), None, true), handler, [FIRST_ORIGIN], posted)
  }

  function Decoded2(): System {
    Answered(Sending(SECOND_DOCUMENTS, 0, SECOND_ORIGIN, SecondRecord()), FIRST_DOCUMENTS + SECOND_DOCUMENTS).(
      processing := Processing(2, Some(FIRST_ID), None, true))
  }

  /** The second record waits in the channel. */
  function Lost(id: string, pending: Option<SourcePosition>, handler: Handler): System {
    System(Link(Published().(phase := R.Idle), [SecondRecord()], [FirstRecord(), SecondRecord()]),
           Processing(2, Some(id), pending, true), handler, [FIRST_ORIGIN, SECOND_ORIGIN],
           FIRST_DOCUMENTS + SECOND_DOCUMENTS)
  }

  lemma FirstSteps()
    ensures var c := HttpConfig();
            && Step(c, Fresh(Free, []), Post(FIRST_REQUEST))
               == Some(Fresh(Working(FIRST_DOCUMENTS, 0), FIRST_DOCUMENTS))
            && Step(c, Fresh(Working(FIRST_DOCUMENTS, 0), FIRST_DOCUMENTS), Proceed(0)) == Some(Decoded1())
            && Step(c, Decoded1(), Sent)
               == Some(Pending(Link(R.Start([], None), [FirstRecord()], [FirstRecord()])))
  {
    hide DecodeDocument, FirstPosition, Documents;
    FirstBody();
    FirstDocument();
    assert [] + FIRST_DOCUMENTS == FIRST_DOCUMENTS;
    assert [] + [FirstRecord()] == [FirstRecord()] && [] + [FIRST_ORIGIN] == [FIRST_ORIGIN];
    assert FirstRecord().position == FirstPosition();
  }

  lemma HandedOver()
    ensures Step(HttpConfig(), Pending(Link(R.Start([], None), [FirstRecord()], [FirstRecord()])), HandOver)
            == Some(WithRuntime(Filled()))
  {
    hide Hand, FirstRecord, Filled;
    Handing();
  }

  lemma Piped(t: R.State, a: R.Action, u: R.State)
    requires !a.Consume? && R.Step(LossyBridge().env, t, a) == Some(u)
    ensures Step(HttpConfig(), WithRuntime(t), Pipe(a)) == Some(WithRuntime(u))
  {
    hide R.Step, FirstRecord, FirstPosition;
  }

  lemma FirstAnswered()
    ensures var c, posted := HttpConfig(), FIRST_DOCUMENTS;
            && Step(c, WithRuntime(Published().(phase := R.Idle)), Acknowledge)
               == Some(Answered(Working(FIRST_DOCUMENTS, 1), posted))
            && Step(c, Answered(Working(FIRST_DOCUMENTS, 1), posted), Reply) == Some(Answered(Free, posted))
  {
    hide FirstRecord, FirstPosition, IsAfter;
  }

  lemma SecondSteps()
    ensures var c, posted := HttpConfig(), FIRST_DOCUMENTS + SECOND_DOCUMENTS;
            && Step(c, Answered(Free, FIRST_DOCUMENTS), Post(SECOND_REQUEST))
               == Some(Answered(Working(SECOND_DOCUMENTS, 0), posted))
            && Step(c, Answered(Working(SECOND_DOCUMENTS, 0), posted), Proceed(0)) == Some(Decoded2())
  {
    hide DecodeDocument, SecondRecord, FirstRecord, FirstPosition, Documents, Published;
    SecondBody();
    SecondDocument();
    IdsDiffer();
  }

  lemma IdsDiffer()
    ensures FIRST_ID != SECOND_ID
  {
    assert FIRST_ID[10] == '0' && SECOND_ID[10] == '1';
  }

  lemma SecondConfirmed()
    ensures var waiting := Lost(FIRST_ID, Some(SecondPosition()), Waiting(SECOND_DOCUMENTS, 0, SecondPosition()));
            && Step(HttpConfig(), Decoded2(), Sent) == Some(waiting)
            && Step(HttpConfig(), waiting, Acknowledge) == Some(Lost(SECOND_ID, None, Working(SECOND_DOCUMENTS, 1)))
  {
    hide FirstRecord, FirstPosition, SecondPosition;
    Stale();
    assert [] + [SecondRecord()] == [SecondRecord()];
    assert [FirstRecord()] + [SecondRecord()] == [FirstRecord(), SecondRecord()];
    assert [FIRST_ORIGIN] + [SECOND_ORIGIN] == [FIRST_ORIGIN, SECOND_ORIGIN];
    assert SecondRecord().position == SecondPosition();
  }

  lemma RunTo(c: Config, actions: seq<Action>, k: nat, s: System, t: System)
    requires k < |actions| && Run(c, actions[..k]) == Some(s) && Step(c, s, actions[k]) == Some(t)
    ensures Run(c, actions[..k + 1]) == Some(t)
  {
    assert actions[..k + 1][..k] == actions[..k];
  }

  lemma LossEmits()
    ensures Run(HttpConfig(), LOSS[..4]) == Some(WithRuntime(Filled()))
  {
    hide Step, HttpConfig, Fresh, Decoded1, Pending, WithRuntime, Filled;
    var c, working := HttpConfig(), Fresh(Working(FIRST_DOCUMENTS, 0), FIRST_DOCUMENTS);
    var held := Pending(Link(R.Start([], None), [FirstRecord()], [FirstRecord()]));
    StartsFresh();
    FirstSteps();
    RunTo(c, LOSS, 0, Fresh(Free, []), working);
    RunTo(c, LOSS, 1, working, Decoded1());
    RunTo(c, LOSS, 2, Decoded1(), held);
    HandedOver();
    RunTo(c, LOSS, 3, held, WithRuntime(Filled()));
  }

  lemma StartsFresh()
    ensures Run(HttpConfig(), LOSS[..0]) == Some(Fresh(Free, []))
  {
  }

  lemma LossSettles()
    ensures Run(HttpConfig(), LOSS[..9]) == Some(WithRuntime(Published().(phase := R.Idle)))
  {
    hide Step, R.Step, HttpConfig, LossyBridge, WithRuntime, Filled, Writing, Written, Saved, Published;
    var c, idle := HttpConfig(), Published().(phase := R.Idle);
    LossEmits();
    Delivering();
    Piped(Filled(), R.Begin, Writing());
    RunTo(c, LOSS, 4, WithRuntime(Filled()), WithRuntime(Writing()));
    Piped(Writing(), R.Deliver(1, R.Accepted), Written());
    RunTo(c, LOSS, 5, WithRuntime(Writing()), WithRuntime(Written()));
    Settling();
    Piped(Written(), R.Save(R.Stored), Saved());
    RunTo(c, LOSS, 6, WithRuntime(Written()), WithRuntime(Saved()));
    Piped(Saved(), R.Publish(true), Published());
    RunTo(c, LOSS, 7, WithRuntime(Saved()), WithRuntime(Published()));
    Piped(Published(), R.Finish, idle);
    RunTo(c, LOSS, 8, WithRuntime(Published()), WithRuntime(idle));
  }

  lemma LossAnswers()
    ensures Run(HttpConfig(), LOSS[..13]) == Some(Decoded2())
  {
    hide Step, HttpConfig, WithRuntime, Published, Answered, Decoded2;
    var c, posted := HttpConfig(), FIRST_DOCUMENTS + SECOND_DOCUMENTS;
    var first := Answered(Working(FIRST_DOCUMENTS, 1), FIRST_DOCUMENTS);
    var second := Answered(Working(SECOND_DOCUMENTS, 0), posted);
    LossSettles();
    FirstAnswered();
    RunTo(c, LOSS, 9, WithRuntime(Published().(phase := R.Idle)), first);
    RunTo(c, LOSS, 10, first, Answered(Free, FIRST_DOCUMENTS));
    SecondSteps();
    RunTo(c, LOSS, 11, Answered(Free, FIRST_DOCUMENTS), second);
    RunTo(c, LOSS, 12, second, Decoded2());
  }

  lemma LossRuns()
    ensures Run(HttpConfig(), LOSS) == Some(Lost(SECOND_ID, None, Working(SECOND_DOCUMENTS, 1)))
  {
    hide Step, HttpConfig, Lost, Decoded2;
    var waiting := Lost(FIRST_ID, Some(SecondPosition()), Waiting(SECOND_DOCUMENTS, 0, SecondPosition()));
    LossAnswers();
    SecondConfirmed();
    RunTo(HttpConfig(), LOSS, 13, Decoded2(), waiting);
    RunTo(HttpConfig(), LOSS, 14, waiting, Lost(SECOND_ID, None, Working(SECOND_DOCUMENTS, 1)));
    assert LOSS[..15] == LOSS;
  }

  lemma NeverDelivered(posted: seq<Document>)
    requires posted == FIRST_DOCUMENTS + SECOND_DOCUMENTS
    ensures !Delivered(HttpConfig(), posted, [FirstEncoding()], SECOND_ID)
  {
    hide DecodeDocument, Holds;
    IdsDiffer();
    forall x: Origin | x.recordId == SECOND_ID
      ensures !DeliveredAs(HttpConfig(), posted, [FirstEncoding()], x)
    {
      if (x.recordId, x.document) in posted {
        SecondNotHeld(x.serial, x.flag, x.now);
      }
    }
  }

  /**
   * Without monotone markers success promises nothing: this run is about to answer the second request with success,
   * and its document has not reached the sink.
   */
  lemma SuccessWithoutDelivery()
    ensures Run(HttpConfig(), LOSS).Some?
    ensures var s := Run(HttpConfig(), LOSS).value;
            && Success(s, Reply) == Some(SECOND_DOCUMENTS)
            && !Delivered(HttpConfig(), s.posted, s.link.runtime.sink, SECOND_DOCUMENTS[0].0)
            && !MonotoneMarkers(HttpConfig(), LOSS)
  {
    hide Step, MonotoneMarkers, Delivered;
    LossRuns();
    NeverDelivered(FIRST_DOCUMENTS + SECOND_DOCUMENTS);
    if MonotoneMarkers(HttpConfig(), LOSS) {
      MarkersWouldDeliver();
    }
  }

  lemma MarkersWouldDeliver()
    requires MonotoneMarkers(HttpConfig(), LOSS)
    ensures Delivered(HttpConfig(), FIRST_DOCUMENTS + SECOND_DOCUMENTS, [FirstEncoding()], SECOND_ID)
  {
    hide Step, MonotoneMarkers, Delivered;
    LossRuns();
    var s := Lost(SECOND_ID, None, Working(SECOND_DOCUMENTS, 1));
    SuccessIsDurable(HttpConfig(), LOSS, s, Reply, SECOND_DOCUMENTS);
    assert SECOND_DOCUMENTS[0].0 == SECOND_ID;
  }
}
