/**
 The streaming translator: chat-completions frames in, Anthropic or Responses events out.
 `Translate` and `Feed` say on values what the class `ResponseWriter` does in place.
 */
module Protocol {
  import opened Bytes
  import opened Codec
  import opened EventStream

  /** The shape of the client's stream; Plain is the unwrapped response writer. */
  datatype Kind = Plain | Anthropic | Responses

  datatype Format = Format(kind: Kind, model: Bytes, codec: Codec)

  // ---------------------------------------------------------------- one line

  datatype Action = Ignore | Delta(text: Bytes) | Done | Broken(errType: Bytes, message: Bytes)

  predicate Terminal(a: Action) {
    a.Done? || a.Broken?
  }

  /** What one line, already without its line break, asks for. */
  function Classify(codec: Codec, line: Bytes): Action {
    if !("data:" <= line) then Ignore
    else
      var data := TrimSpace(line[5..]);
      if data == "[DONE]" then Done
      else if data == "" then Ignore
      else
        match codec.decode(data)
        case None => Ignore
        case Some(frame) =>
          if "error" in frame && frame["error"].JObject? then BrokenAction(frame["error"].fields)
          else if DeltaContent(frame) == "" then Ignore
          else Delta(DeltaContent(frame))
  }

  function BrokenAction(err: Object): Action {
    var errType := StringField(err, "type");
    Broken(if errType == "" then "stream_broken" else errType, StringField(err, "message"))
  }

  function LineAction(codec: Codec, line: Bytes): Action {
    Classify(codec, TrimRight(line, "\r"))
  }

  function LineActions(codec: Codec, lines: seq<Bytes>): seq<Action> {
    seq(|lines|, i requires 0 <= i < |lines| => LineAction(codec, lines[i]))
  }

  // ---------------------------------------------------------------- events

  datatype Event =
    | MessageStart(model: Bytes)
    | BlockStart
    | BlockDelta(text: Bytes)
    | BlockStop
    | MessageDelta(outputTokens: nat)
    | MessageStop
    | Created(model: Bytes)
    | TextDelta(text: Bytes)
    | Completed(model: Bytes, totalTokens: nat)
    | Failure(errType: Bytes, message: Bytes)

  function EventName(e: Event): (name: Bytes)
    ensures name != [] && OneLine(name)
  {
    if e.Created? || e.TextDelta? || e.Completed? then ResponsesName(e)
    else if e.MessageStart? || e.MessageDelta? || e.MessageStop? || e.Failure? then MessageName(e)
    else BlockName(e)
  }

  function MessageName(e: Event): (name: Bytes)
    requires e.MessageStart? || e.MessageDelta? || e.MessageStop? || e.Failure?
    ensures name != [] && OneLine(name)
  {
    match e
    case MessageStart(_) => "message_start"
    case MessageDelta(_) => "message_delta"
    case MessageStop => "message_stop"
    case Failure(_, _) => "error"
  }

  function BlockName(e: Event): (name: Bytes)
    requires e.BlockStart? || e.BlockDelta? || e.BlockStop?
    ensures name != [] && OneLine(name)
  {
    match e
    case BlockStart => "content_block_start"
    case BlockDelta(_) => "content_block_delta"
    case BlockStop => "content_block_stop"
  }

  function ResponsesName(e: Event): (name: Bytes)
    requires e.Created? || e.TextDelta? || e.Completed?
    ensures name != [] && OneLine(name)
  {
    match e
    case Created(_) => "response.created"
    case TextDelta(_) => "response.output_text.delta"
    case Completed(_, _) => "response.completed"
  }

  /** The JSON object sent with an event: its name under `type`, and these fields. */
  function Payload(e: Event): Object {
    Fields(e)["type" := JString(EventName(e))]
  }

  function Fields(e: Event): Object {
    match e
    case MessageStart(model) => map["message" := JObject(MessageHead(model))]
    case BlockStart => map["index" := JNumber(0.0), "content_block" := JObject(TextPart("text", ""))]
    case BlockDelta(text) => map["index" := JNumber(0.0), "delta" := JObject(TextPart("text_delta", text))]
    case BlockStop => map["index" := JNumber(0.0)]
    case MessageDelta(n) => MessageTail(n)
    case MessageStop => map[]
    case Created(model) => map["response" := JObject(ResponseHead(model, "in_progress"))]
    case TextDelta(text) => map["delta" := JString(text)]
    case Completed(model, n) =>
      var usage := JObject(map["total_tokens" := JNumber(n as real)]);
      map["response" := JObject(ResponseHead(model, "completed")["usage" := usage])]
    case Failure(errType, message) =>
      map["error" := JObject(map["type" := JString(errType), "message" := JString(message)])]
  }

  function TextPart(partType: Bytes, text: Bytes): Object {
    map["type" := JString(partType), "text" := JString(text)]
  }

  function MessageHead(model: Bytes): Object {
    map["id" := JString("msg_subport"), "type" := JString("message"), "role" := JString("assistant"),
        "model" := JString(model), "content" := JArray([]), "stop_reason" := JNull, "stop_sequence" := JNull,
        "usage" := JObject(map["input_tokens" := JNumber(0.0), "output_tokens" := JNumber(0.0)])]
  }

  function MessageTail(n: nat): Object {
    map["delta" := JObject(map["stop_reason" := JString("end_turn"), "stop_sequence" := JNull]),
        "usage" := JObject(map["output_tokens" := JNumber(n as real)])]
  }

  function ResponseHead(model: Bytes, status: Bytes): Object {
    map["id" := JString("resp_subport"), "object" := JString("response"),
        "model" := JString(model), "status" := JString(status)]
  }

  function EventMessage(codec: Codec, e: Event): Message {
    Message(EventName(e), codec.encode(Payload(e)))
  }

  function EventMessages(codec: Codec, es: seq<Event>): seq<Message> {
    seq(|es|, i requires 0 <= i < |es| => EventMessage(codec, es[i]))
  }

  /** The bytes `es` are printed as. */
  function Print(codec: Codec, es: seq<Event>): Bytes {
    Frames(EventMessages(codec, es))
  }

  // ---------------------------------------------------------------- the translator on values

  /** `events` and `body` are what was printed so far, as events and as bytes. */
  datatype Translator = Translator(started: bool, closed: bool, textLen: nat, events: seq<Event>, body: Bytes)

  datatype Session = Session(buf: Bytes, t: Translator)

  const FRESH := Session([], Translator(false, false, 0, [], []))

  /** `ensureStarted` prints these when nothing was printed yet. */
  function Opening(f: Format): seq<Event> {
    match f.kind
    case Plain => []
    case Anthropic => [MessageStart(f.model), BlockStart]
    case Responses => [Created(f.model)]
  }

  function DeltaEvent(f: Format, text: Bytes): seq<Event> {
    match f.kind
    case Plain => []
    case Anthropic => [BlockDelta(text)]
    case Responses => [TextDelta(text)]
  }

  function Completion(f: Format, textLen: nat): seq<Event> {
    match f.kind
    case Plain => []
    case Anthropic => [BlockStop, MessageDelta(textLen), MessageStop]
    case Responses => [Completed(f.model, textLen)]
  }

  function Emit(f: Format, t: Translator, es: seq<Event>): Translator {
    t.(events := t.events + es, body := t.body + Print(f.codec, es))
  }

  function Translate(f: Format, t: Translator, a: Action): Translator {
    if t.closed || a.Ignore? then t
    else
      var opening := if t.started then [] else Opening(f);
      match a
      case Delta(text) =>
        Emit(f, t.(started := true, textLen := t.textLen + |text|), opening + DeltaEvent(f, text))
      case Done =>
        Emit(f, t.(started := true, closed := true), opening + Completion(f, t.textLen))
      case Broken(errType, message) =>
        Emit(f, t.(started := true, closed := true), [Failure(errType, message)])
  }

  function TranslateAll(f: Format, t: Translator, actions: seq<Action>): Translator {
    if actions == [] then t
    else Translate(f, TranslateAll(f, t, actions[..|actions| - 1]), actions[|actions| - 1])
  }

  function TranslateLines(f: Format, t: Translator, lines: seq<Bytes>): Translator {
    TranslateAll(f, t, LineActions(f.codec, lines))
  }

  /** One `Write` of `b` to a client that accepts every byte. */
  function Feed(f: Format, s: Session, b: Bytes): Session {
    if f.kind.Plain? then s.(t := s.t.(body := s.t.body + b))
    else Session(Residue(s.buf + b), TranslateLines(f, s.t, CompleteLines(s.buf + b)))
  }

  function FeedAll(f: Format, s: Session, chunks: seq<Bytes>): Session
    decreases chunks
  {
    if chunks == [] then s else FeedAll(f, Feed(f, s, chunks[0]), chunks[1..])
  }

  // ---------------------------------------------------------------- chunking invariance

  lemma {:induction false} TranslateAllConcat(f: Format, t: Translator, a: seq<Action>, b: seq<Action>)
    ensures TranslateAll(f, t, a + b) == TranslateAll(f, TranslateAll(f, t, a), b)
  {
    if b == [] {
      assert a + b == a;
    } else {
      var front := b[..|b| - 1];
      TranslateAllConcat(f, t, a, front);
      assert (a + b)[..|a + b| - 1] == a + front;
    }
  }

  lemma LineActionsConcat(codec: Codec, a: seq<Bytes>, b: seq<Bytes>)
    ensures LineActions(codec, a + b) == LineActions(codec, a) + LineActions(codec, b)
  {
    hide LineAction;
  }

  /** Two writes do what one write of both texts does. */
  lemma FeedOfConcat(f: Format, s: Session, a: Bytes, b: Bytes)
    ensures Feed(f, s, a + b) == Feed(f, Feed(f, s, a), b)
  {
    hide TranslateAll, CompleteLines, Residue;
    assert s.buf + (a + b) == s.buf + a + b;
    if f.kind.Plain? {
      assert s.t.body + (a + b) == s.t.body + a + b;
    } else {
      SplitOfConcat(s.buf + a, b);
      var first, second := CompleteLines(s.buf + a), CompleteLines(Residue(s.buf + a) + b);
      LineActionsConcat(f.codec, first, second);
      TranslateAllConcat(f, s.t, LineActions(f.codec, first), LineActions(f.codec, second));
    }
  }

  lemma FeedNothing(f: Format, s: Session)
    requires '\n' !in s.buf
    ensures Feed(f, s, []) == s
  {
    NoNewlineIsResidue(s.buf);
    assert s.buf + [] == s.buf && s.t.body + [] == s.t.body;
  }

  /** However a stream is cut into writes, the client and the translator end up the same. */
  lemma {:induction false} ChunkingInvariance(f: Format, s: Session, chunks: seq<Bytes>)
    requires '\n' !in s.buf
    ensures FeedAll(f, s, chunks) == Feed(f, s, Concat(chunks))
    decreases chunks
  {
    hide Feed;
    if chunks == [] {
      FeedNothing(f, s);
    } else {
      FeedOfConcat(f, s, chunks[0], Concat(chunks[1..]));
      BufferIsResidue(f, s, chunks[0]);
      ChunkingInvariance(f, Feed(f, s, chunks[0]), chunks[1..]);
    }
  }

  /** After a write the translator's buffer holds exactly what follows the last newline. */
  lemma BufferIsResidue(f: Format, s: Session, b: Bytes)
    requires '\n' !in s.buf
    ensures var after := Feed(f, s, b).buf;
            && '\n' !in after
            && (!f.kind.Plain? ==>
                exists read: Bytes :: s.buf + b == read + after && (read != [] ==> read[|read| - 1] == '\n'))
  {
    var all := s.buf + b;
    SplitIsExact(all);
    var read := Unlines(CompleteLines(all));
    assert all == read + Residue(all);
  }
}
