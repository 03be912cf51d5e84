/**
 What a client makes of the messages it dispatches. The reader is written from the Anthropic Messages and
 OpenAI Responses event shapes, and knows nothing of the events the translator had in mind.
 */
module ClientViews {
  import opened Wrappers
  import opened Bytes
  import opened Codec
  import opened EventStream
  import opened Protocol
  import opened ProtocolTrace

  // ---------------------------------------------------------------- the client

  function ObjectField(o: Object, key: Bytes): Object {
    if key in o && o[key].JObject? then o[key].fields else map[]
  }

  function NumberField(o: Object, key: Bytes): Option<real> {
    if key in o && o[key].JNumber? then Some(o[key].value) else None
  }

  /** The object of a message, when its type says the same as the event's name. */
  function ObjectOf(codec: Codec, m: Message): Object {
    match codec.decode(m.data)
    case None => map[]
    case Some(o) => if StringField(o, "type") == m.name then o else map[]
  }

  datatype ClientError = ClientError(errType: Bytes, message: Bytes)

  /** How a message ended: `end_turn` or `completed`, and its token count. */
  datatype ClientEnd = ClientEnd(reason: Bytes, tokens: Option<real>)

  /** What a client has of a stream: model, joined text, end and error; but for the text, the last one said. */
  datatype ClientState = ClientState(
    model: Option<Bytes>, text: Bytes, end: Option<ClientEnd>, error: Option<ClientError>)

  const NOTHING_READ := ClientState(None, [], None, None)

  /** One message more. */
  function Read(c: ClientState, o: Object): ClientState {
    var eventType := StringField(o, "type");
    if eventType == "content_block_delta" then
      var part := ObjectField(o, "delta");
      if StringField(part, "type") == "text_delta" then c.(text := c.text + StringField(part, "text")) else c
    else if eventType == "response.output_text.delta" then c.(text := c.text + StringField(o, "delta"))
    else if eventType == "content_block_start"
    then c.(text := c.text + StringField(ObjectField(o, "content_block"), "text"))
    else if eventType == "message_start" then c.(model := Some(StringField(ObjectField(o, "message"), "model")))
    else if eventType == "response.created" then c.(model := Some(StringField(ObjectField(o, "response"), "model")))
    else if eventType == "message_delta" then
      var reason := StringField(ObjectField(o, "delta"), "stop_reason");
      c.(end := Some(ClientEnd(reason, NumberField(ObjectField(o, "usage"), "output_tokens"))))
    else if eventType == "response.completed"
    then
      var response := ObjectField(o, "response");
      var tokens := NumberField(ObjectField(response, "usage"), "total_tokens");
      c.(end := Some(ClientEnd(StringField(response, "status"), tokens)))
    else if eventType == "error" then
      var err := ObjectField(o, "error");
      c.(error := Some(ClientError(StringField(err, "type"), StringField(err, "message"))))
    else c
  }

  function ReadAll(codec: Codec, ms: seq<Message>): ClientState {
    if ms == [] then NOTHING_READ
    else Read(ReadAll(codec, ms[..|ms| - 1]), ObjectOf(codec, ms[|ms| - 1]))
  }

  // ---------------------------------------------------------------- one event

  /** The event as its strings come through encoding and decoding. */
  function Cleaned(codec: Codec, e: Event): Event {
    match e
    case MessageStart(model) => MessageStart(codec.clean(model))
    case BlockDelta(text) => BlockDelta(codec.clean(text))
    case Created(model) => Created(codec.clean(model))
    case TextDelta(text) => TextDelta(codec.clean(text))
    case Completed(model, n) => Completed(codec.clean(model), n)
    case Failure(errType, message) => Failure(codec.clean(errType), codec.clean(message))
    case _ => e
  }

  /** JSON brings this event's object back. */
  predicate ReadsBack(codec: Codec, e: Event) {
    codec.decode(codec.encode(Payload(e))) == Some(Payload(Cleaned(codec, e)))
  }

  /** What one event tells a client. */
  function Told(codec: Codec, c: ClientState, e: Event): ClientState {
    match e
    case MessageStart(model) => c.(model := Some(codec.clean(model)))
    case Created(model) => c.(model := Some(codec.clean(model)))
    case BlockDelta(text) => c.(text := c.text + codec.clean(text))
    case TextDelta(text) => c.(text := c.text + codec.clean(text))
    case MessageDelta(n) => c.(end := Some(ClientEnd("end_turn", Some(n as real))))
    case Completed(_, n) => c.(end := Some(ClientEnd("completed", Some(n as real))))
    case Failure(errType, message) => c.(error := Some(ClientError(codec.clean(errType), codec.clean(message))))
    case _ => c
  }

  lemma ObjectIsPayload(codec: Codec, e: Event)
    requires ReadsBack(codec, e)
    ensures ObjectOf(codec, EventMessage(codec, e)) == Payload(Cleaned(codec, e))
  {
    hide Fields, EventName;
    SameName(codec, e);
  }

  lemma SameName(codec: Codec, e: Event)
    ensures EventName(Cleaned(codec, e)) == EventName(e)
  {
  }

  /** A client reads from the object of an event exactly what the event says. */
  lemma PayloadIsRead(codec: Codec, c: ClientState, e: Event)
    ensures Read(c, Payload(Cleaned(codec, e))) == Told(codec, c, e)
  {
    if e.Created? || e.TextDelta? || e.Completed? {
      ResponsesPayloadIsRead(codec, c, e);
    } else if e.BlockStart? || e.BlockDelta? || e.BlockStop? {
      BlockPayloadIsRead(codec, c, e);
    } else if e.MessageStart? || e.MessageStop? {
      StartPayloadIsRead(codec, c, e);
    } else {
      EndPayloadIsRead(codec, c, e);
    }
    hide Read, Payload, Told, Cleaned;
  }

  lemma ResponsesPayloadIsRead(codec: Codec, c: ClientState, e: Event)
    requires e.Created? || e.TextDelta? || e.Completed?
    ensures Read(c, Payload(Cleaned(codec, e))) == Told(codec, c, e)
  {
    assert StringField(Payload(Cleaned(codec, e)), "type") == EventName(Cleaned(codec, e));
  }

  lemma BlockPayloadIsRead(codec: Codec, c: ClientState, e: Event)
    requires e.BlockStart? || e.BlockDelta? || e.BlockStop?
    ensures Read(c, Payload(Cleaned(codec, e))) == Told(codec, c, e)
  {
    assert StringField(Payload(Cleaned(codec, e)), "type") == EventName(Cleaned(codec, e));
  }

  lemma StartPayloadIsRead(codec: Codec, c: ClientState, e: Event)
    requires e.MessageStart? || e.MessageStop?
    ensures Read(c, Payload(Cleaned(codec, e))) == Told(codec, c, e)
  {
    assert StringField(Payload(Cleaned(codec, e)), "type") == EventName(Cleaned(codec, e));
  }

  lemma EndPayloadIsRead(codec: Codec, c: ClientState, e: Event)
    requires e.MessageDelta? || e.Failure?
    ensures Read(c, Payload(Cleaned(codec, e))) == Told(codec, c, e)
  {
    assert StringField(Payload(Cleaned(codec, e)), "type") == EventName(Cleaned(codec, e));
  }

  // ---------------------------------------------------------------- a whole stream

  function ToldAll(codec: Codec, es: seq<Event>): ClientState {
    if es == [] then NOTHING_READ else Told(codec, ToldAll(codec, es[..|es| - 1]), es[|es| - 1])
  }

  predicate AllReadBack(codec: Codec, es: seq<Event>) {
    forall i :: 0 <= i < |es| ==> ReadsBack(codec, es[i])
  }

  lemma {:induction false} MessagesAreRead(codec: Codec, es: seq<Event>)
    requires AllReadBack(codec, es)
    ensures ReadAll(codec, EventMessages(codec, es)) == ToldAll(codec, es)
  {
    hide ReadsBack, Told, Read, ObjectOf, EventMessage, Payload;
    if es != [] {
      var n := |es| - 1;
      MessagesAreRead(codec, es[..n]);
      assert EventMessages(codec, es)[..n] == EventMessages(codec, es[..n]);
      ObjectIsPayload(codec, es[n]);
      PayloadIsRead(codec, ToldAll(codec, es[..n]), es[n]);
    }
  }

  function CleanAll(codec: Codec, texts: seq<Bytes>): seq<Bytes> {
    seq(|texts|, i requires 0 <= i < |texts| => codec.clean(texts[i]))
  }

  lemma ToldOneMore(codec: Codec, es: seq<Event>, e: Event)
    ensures ToldAll(codec, es + [e]) == Told(codec, ToldAll(codec, es), e)
  {
    assert (es + [e])[..|es|] == es;
  }

  lemma ToldNothing(codec: Codec)
    ensures ToldAll(codec, []) == NOTHING_READ
  {
  }

  lemma ToldOpening(f: Format)
    requires !f.kind.Plain?
    ensures ToldAll(f.codec, Opening(f)) == NOTHING_READ.(model := Some(f.codec.clean(f.model)))
  {
    ToldOneMore(f.codec, [], MessageStart(f.model));
    ToldOneMore(f.codec, [MessageStart(f.model)], BlockStart);
    ToldOneMore(f.codec, [], Created(f.model));
    assert [MessageStart(f.model)] + [BlockStart] == [MessageStart(f.model), BlockStart];
    assert [] + [MessageStart(f.model)] == [MessageStart(f.model)] && [] + [Created(f.model)] == [Created(f.model)];
  }

  lemma {:induction false} ToldDeltas(f: Format, head: seq<Event>, texts: seq<Bytes>)
    requires !f.kind.Plain? && ToldAll(f.codec, head).text == []
    ensures ToldAll(f.codec, head + DeltaEvents(f, texts))
         == ToldAll(f.codec, head).(text := Concat(CleanAll(f.codec, texts)))
  {
    hide ToldAll;
    if texts == [] {
      assert head + DeltaEvents(f, texts) == head && CleanAll(f.codec, texts) == [];
    } else {
      var front, last := texts[..|texts| - 1], texts[|texts| - 1];
      ToldDeltas(f, head, front);
      var e := DeltaEvent(f, last)[0];
      assert DeltaEvents(f, texts) == DeltaEvents(f, front) + [e];
      assert head + DeltaEvents(f, texts) == head + DeltaEvents(f, front) + [e];
      ToldOneMore(f.codec, head + DeltaEvents(f, front), e);
      ConcatLast(CleanAll(f.codec, front), f.codec.clean(last));
      assert CleanAll(f.codec, texts) == CleanAll(f.codec, front) + [f.codec.clean(last)];
      hide Concat, DeltaEvents;
    }
  }

  /** How a client of this protocol reads a completion. */
  function EndOf(f: Format, n: nat): ClientEnd {
    ClientEnd(if f.kind.Responses? then "completed" else "end_turn", Some(n as real))
  }

  /** The model once the message was opened, the content, and the token count or the error of the ending. */
  function ViewOf(f: Format, texts: seq<Bytes>, ending: Ending): ClientState {
    ClientState(if texts == [] && !ending.Finished? then None else Some(f.codec.clean(f.model)),
                Concat(CleanAll(f.codec, texts)),
                if ending.Finished? then Some(EndOf(f, TextLength(texts))) else None,
                match ending
                case Cut(errType, message) => Some(ClientError(f.codec.clean(errType), f.codec.clean(message)))
                case _ => None)
  }

  lemma ToldEnding(f: Format, es: seq<Event>, n: nat, ending: Ending)
    requires !f.kind.Plain?
    ensures ToldAll(f.codec, es + EndEvents(f, n, ending))
         == match ending
            case Open => ToldAll(f.codec, es)
            case Finished => ToldAll(f.codec, es).(end := Some(EndOf(f, n)))
            case Cut(errType, message) =>
              ToldAll(f.codec, es).(error := Some(ClientError(f.codec.clean(errType), f.codec.clean(message))))
  {
    hide ToldAll;
    match ending {
      case Open =>
        assert es + [] == es;
      case Finished =>
        ToldCompletion(f, es, n);
      case Cut(errType, message) =>
        ToldOneMore(f.codec, es, Failure(errType, message));
    }
  }

  lemma ToldCompletion(f: Format, es: seq<Event>, n: nat)
    requires !f.kind.Plain?
    ensures ToldAll(f.codec, es + Completion(f, n)) == ToldAll(f.codec, es).(end := Some(EndOf(f, n)))
  {
    hide ToldAll;
    if f.kind.Anthropic? {
      ToldOneMore(f.codec, es, BlockStop);
      ToldOneMore(f.codec, es + [BlockStop], MessageDelta(n));
      ToldOneMore(f.codec, es + [BlockStop] + [MessageDelta(n)], MessageStop);
      assert es + [BlockStop] + [MessageDelta(n)] + [MessageStop] == es + [BlockStop, MessageDelta(n), MessageStop];
    } else {
      ToldOneMore(f.codec, es, Completed(f.model, n));
    }
  }

  lemma ScriptIsTold(f: Format, texts: seq<Bytes>, ending: Ending)
    requires !f.kind.Plain?
    ensures ToldAll(f.codec, Script(f, texts, ending)) == ViewOf(f, texts, ending)
  {
    var head := if texts == [] && !ending.Finished? then [] else Opening(f);
    ToldOpening(f);
    ToldNothing(f.codec);
    hide ToldAll, DeltaEvents, EndEvents, Opening, TextLength, Concat, CleanAll;
    ToldDeltas(f, head, texts);
    ToldEnding(f, head + DeltaEvents(f, texts), TextLength(texts), ending);
  }

  /** A client that dispatches a script's messages has what the script says. */
  lemma ScriptIsRead(f: Format, texts: seq<Bytes>, ending: Ending)
    requires !f.kind.Plain? && AllReadBack(f.codec, Script(f, texts, ending))
    ensures ReadAll(f.codec, EventMessages(f.codec, Script(f, texts, ending))) == ViewOf(f, texts, ending)
  {
    hide AllReadBack, ReadAll, ToldAll, Script, EventMessages, ViewOf;
    MessagesAreRead(f.codec, Script(f, texts, ending));
    ScriptIsTold(f, texts, ending);
  }

  /**
   However a stream is cut into writes, its translated client reads exactly the content before the first terminal
   line; it reads that content's length as token count exactly when the stream was completed, and the upstream's
   error exactly when it was cut. It reads the model asked for once there was content or a completion.
   */
  lemma ClientSees(f: Format, chunks: seq<Bytes>)
    requires !f.kind.Plain? && f.codec.EncodesOneLine()
    requires AllReadBack(f.codec, FeedAll(f, FRESH, chunks).t.events)
    ensures var actions := StreamActions(f, Concat(chunks));
            ReadAll(f.codec, Interpret(FeedAll(f, FRESH, chunks).t.body))
            == ViewOf(f, SessionTexts(actions), SessionEnding(actions))
  {
    hide AllReadBack, Interpret, ReadAll, ToldAll, Script, EventMessages, FeedAll, StreamActions, SessionTexts;
    hide SessionEnding, ViewOf;
    var actions := StreamActions(f, Concat(chunks));
    ClientReads(f, chunks);
    ScriptIsRead(f, SessionTexts(actions), SessionEnding(actions));
  }
}
