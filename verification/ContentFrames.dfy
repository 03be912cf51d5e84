/** Which content a translator takes from the upstream's frames, and what it makes of a buffered reply. */
module ContentFrames {
  import opened Wrappers
  import opened Bytes
  import opened Codec
  import opened EventStream
  import opened Protocol
  import opened ProtocolTrace
  import opened Streaming
  import opened ClientViews
  import opened WholeRun

  // ---------------------------------------------------------------- the content of a frame

  /** The choice carries this text, in `delta.content`; one without such a string carries none. */
  predicate ChoiceSays(choice: Json, text: Bytes) {
    if choice.JObject? && "delta" in choice.fields && choice.fields["delta"].JObject?
       && "content" in choice.fields["delta"].fields && choice.fields["delta"].fields["content"].JString?
    then text == choice.fields["delta"].fields["content"].text
    else text == []
  }

  predicate ChoicesSay(choices: seq<Json>, texts: seq<Bytes>) {
    |texts| == |choices| && forall i :: 0 <= i < |choices| ==> ChoiceSays(choices[i], texts[i])
  }

  /** The content of a frame is that of all its choices, in order. */
  lemma {:induction false} ContentIsJoined(choices: seq<Json>, texts: seq<Bytes>)
    requires ChoicesSay(choices, texts)
    ensures ChoicesContent(choices) == Concat(texts)
  {
    if choices != [] {
      assert forall i :: 0 <= i < |choices| - 1 ==> choices[1..][i] == choices[i + 1] && texts[1..][i] == texts[i + 1];
      assert ChoiceSays(choices[0], texts[0]);
      ContentIsJoined(choices[1..], texts[1..]);
    }
  }

  /** A frame of content is a delta of that content; one without is swallowed. */
  lemma FrameIsDelta(codec: Codec, x: Bytes, frame: Object, choices: seq<Json>, texts: seq<Bytes>)
    requires Braced(x) && codec.decode(x) == Some(frame)
    requires !("error" in frame && frame["error"].JObject?)
    requires "choices" in frame && frame["choices"] == JArray(choices) && ChoicesSay(choices, texts)
    ensures LineAction(codec, "data: " + x) == if Concat(texts) == [] then Ignore else Delta(Concat(texts))
  {
    ContentIsJoined(choices, texts);
    FrameAction(codec, x, frame);
    hide LineAction, ChoicesContent, Concat, ChoicesSay;
  }

  lemma FrameAction(codec: Codec, x: Bytes, frame: Object)
    requires Braced(x) && codec.decode(x) == Some(frame)
    requires !("error" in frame && frame["error"].JObject?)
    ensures LineAction(codec, "data: " + x)
         == if DeltaContent(frame) == [] then Ignore else Delta(DeltaContent(frame))
  {
    hide TrimSpaceLeft, TrimSpaceRight, TrimRight, DeltaContent;
    var line: Bytes := "data: " + x;
    TrimRightKeepsText(line);
    TrimRightKeepsText(x);
    assert line[5..] == " " + x;
    SpaceInFront(x);
    assert x[0] == '{';
  }

  /** An error frame without a type is a broken stream. */
  lemma UntypedErrorIsBroken(codec: Codec, x: Bytes, frame: Object, message: Bytes)
    requires Braced(x) && codec.decode(x) == Some(frame)
    requires "error" in frame && frame["error"] == JObject(map["message" := JString(message)])
    ensures LineAction(codec, "data: " + x) == Broken("stream_broken", message)
  {
    ErrorObjectAction(codec, x, frame);
    hide LineAction, BrokenAction;
    UntypedAction(message);
  }

  lemma UntypedAction(message: Bytes)
    ensures BrokenAction(map["message" := JString(message)]) == Broken("stream_broken", message)
  {
  }

  /** One with a type keeps it. */
  lemma TypedErrorKeepsType(codec: Codec, x: Bytes, frame: Object, errType: Bytes, message: Bytes)
    requires Braced(x) && codec.decode(x) == Some(frame) && errType != []
    requires "error" in frame
    requires frame["error"] == JObject(map["message" := JString(message), "type" := JString(errType)])
    ensures LineAction(codec, "data: " + x) == Broken(errType, message)
  {
    ErrorObjectAction(codec, x, frame);
    hide LineAction, BrokenAction;
    TypedAction(errType, message);
  }

  lemma TypedAction(errType: Bytes, message: Bytes)
    requires errType != []
    ensures BrokenAction(map["message" := JString(message), "type" := JString(errType)]) == Broken(errType, message)
  {
  }

  // ---------------------------------------------------------------- a buffered reply

  /** JSON brings the reply's frame back. */
  predicate ReplyReadsBack(codec: Codec, reply: Reply) {
    codec.decode(codec.encode(ReplyObject(reply.content, reply.tokens)))
    == Some(ReplyObject(codec.clean(reply.content), reply.tokens))
  }

  /** A buffered reply is one delta of its content, if there is any, and the completion. */
  lemma ReplyIsDelivered(f: Format, reply: Reply)
    requires f.codec.EncodesOneLine() && ReplyReadsBack(f.codec, reply)
    ensures var actions := StreamActions(f, Output(f.codec, Buffered(Answered(reply))));
            var content := f.codec.clean(reply.content);
            && SessionTexts(actions) == (if content == [] then [] else [content])
            && SessionEnding(actions) == Finished
  {
    hide LineAction, CompleteLines, SessionTexts, SessionEnding, Output, ReplyLine, StreamActions, ReplyReadsBack;
    ReplyAction(f.codec, reply);
    ReplyLines(f, reply);
    SessionOfReply(LineAction(f.codec, ReplyLine(f.codec, reply)));
  }

  lemma SessionOfReply(a: Action)
    requires a.Delta? || a.Ignore?
    ensures SessionTexts([a, Ignore, Done, Ignore]) == if a.Delta? then [a.text] else []
    ensures SessionEnding([a, Ignore, Done, Ignore]) == Finished
  {
    hide SessionTexts, SessionEnding;
    EmptySession();
    SessionOfLast([], a);
    SessionOfLast([a], Ignore);
    SessionOfLast([a, Ignore], Done);
    SessionOfLast([a, Ignore, Done], Ignore);
    assert [] + [a] == [a] && [a] + [Ignore] == [a, Ignore] && [a, Ignore] + [Done] == [a, Ignore, Done];
    assert [a, Ignore, Done] + [Ignore] == [a, Ignore, Done, Ignore];
  }

  lemma EmptySession()
    ensures SessionTexts([]) == [] && SessionEnding([]).Open?
  {
  }

  lemma ReplyAction(codec: Codec, reply: Reply)
    requires codec.EncodesOneLine() && ReplyReadsBack(codec, reply)
    ensures var content := codec.clean(reply.content);
            LineAction(codec, ReplyLine(codec, reply)) == if content == [] then Ignore else Delta(content)
  {
    var x, content := codec.encode(ReplyObject(reply.content, reply.tokens)), codec.clean(reply.content);
    var frame := ReplyObject(content, reply.tokens);
    var choices := frame["choices"].items;
    assert ChoicesSay(choices, [content]);
    assert Concat([content]) == content;
    assert ReplyLine(codec, reply) == "data: " + x;
    FrameIsDelta(codec, x, frame, choices, [content]);
    hide LineAction;
  }

  lemma ReplyLines(f: Format, reply: Reply)
    requires f.codec.EncodesOneLine()
    ensures StreamActions(f, Output(f.codec, Buffered(Answered(reply))))
         == [LineAction(f.codec, ReplyLine(f.codec, reply)), Ignore, Done, Ignore]
  {
    hide LineAction, CompleteLines, IsDoneLine, ReplyLine, Output, Residue, StreamActions, NothingTerminal;
    var done: Bytes := "data: [DONE]";
    RepliesEnd(f, reply);
    DoneLineIsDone();
    FourLines(f, Output(f.codec, Buffered(Answered(reply))), ReplyLine(f.codec, reply), done);
  }

  lemma FourLines(f: Format, out: Bytes, first: Bytes, done: Bytes)
    requires CompleteLines(out) == [first, [], done, []] && '\n' !in done && IsDoneLine(done)
    ensures StreamActions(f, out) == [LineAction(f.codec, first), Ignore, Done, Ignore]
  {
    hide LineAction, CompleteLines, IsDoneLine;
    DoneLineAction(f.codec, done);
    BlankLineAction(f.codec);
  }

  /** A chat client reads the same reply as one message, and then the end mark. */
  lemma ReplyIsRead(codec: Codec, reply: Reply)
    requires codec.EncodesOneLine()
    ensures Interpret(Output(codec, Buffered(Answered(reply))))
         == [Message("message", codec.encode(ReplyObject(reply.content, reply.tokens))), Message("message", "[DONE]")]
  {
    ReplyBytes(codec, reply);
    hide Interpret, Output, ReplyObject;
    var x: Bytes, done: Bytes := codec.encode(ReplyObject(reply.content, reply.tokens)), "[DONE]";
    DoneIsOneLine();
    TwoFramesRead(x, done);
    hide OneLine, Line;
  }

  lemma DoneIsOneLine()
    ensures OneLine("[DONE]") && "[DONE]" != []
  {
  }

  lemma ReplyBytes(codec: Codec, reply: Reply)
    requires codec.EncodesOneLine()
    ensures var x, done: Bytes := codec.encode(ReplyObject(reply.content, reply.tokens)), "[DONE]";
            && OneLine(x) && x != []
            && Output(codec, Buffered(Answered(reply)))
               == Line("data: " + x) + Line([]) + (Line("data: " + done) + Line([]))
  {
    hide ReplyObject;
    var x := codec.encode(ReplyObject(reply.content, reply.tokens));
    assert Braced(x);
    FrameIsLines(x);
    FrameIsLines("[DONE]");
    hide DataFrame, Line;
  }

  lemma FrameIsLines(x: Bytes)
    ensures DataFrame(x) == Line("data: " + x) + Line([])
  {
  }

  /** The object of a reply says its content and its token count. */
  lemma ReplyObjectSays(reply: Reply)
    ensures var o := ReplyObject(reply.content, reply.tokens);
            && NumberField(ObjectField(o, "usage"), "total_tokens") == Some(reply.tokens as real)
            && "choices" in o && o["choices"].JArray? && ChoicesSay(o["choices"].items, [reply.content])
  {
  }

  lemma TwoFramesRead(x: Bytes, y: Bytes)
    requires OneLine(x) && OneLine(y) && x != [] && y != []
    ensures Interpret(Line("data: " + x) + Line([]) + (Line("data: " + y) + Line([])))
         == [Message("message", x), Message("message", y)]
  {
    hide ReadLines, StreamLines, Line, ReadLine;
    var none: Bytes := [];
    var a: Bytes, b: Bytes := "data: " + x, "data: " + y;
    LineIs(a);
    LineIs(none);
    var last := Line(b) + Line(none);
    FirstStreamLine(a, Line(none) + last);
    FirstStreamLine(none, last);
    FirstStreamLine(b, Line(none));
    FirstStreamLine(none, []);
    NoLineYet([]);
    var all := Line(a) + Line(none) + last;
    assert all == Line(a) + (Line(none) + last) && Line(none) + [] == Line(none);
    assert all[0] == 'd';
    assert WithoutMark(all) == all;
    assert StreamLines(all) == [a] + ([none] + ([b] + ([none] + [])));
    UnnamedFrameRead(x, [b] + ([none] + []));
    UnnamedFrameRead(y, []);
    NoBlankLine(Pending([], []), []);
  }

  lemma UnnamedFrameRead(x: Bytes, rest: seq<Bytes>)
    requires x != []
    ensures ReadLines(Pending([], []), ["data: " + x] + ([[]] + rest))
         == [Message("message", x)] + ReadLines(Pending([], []), rest)
  {
    hide ReadLines, ReadLine;
    var line: Bytes := "data: " + x;
    DataIsRead(x);
    var full := Pending(x + "\n", []);
    ReadCons(Pending([], []), line, [[]] + rest);
    ReadBlank(full, rest);
    assert full.data[..|full.data| - 1] == x;
  }

  lemma DataIsRead(x: Bytes)
    ensures ReadLine(Pending([], []), "data: " + x) == Pending(x + "\n", [])
  {
    hide ReadLine;
    var field: Bytes := "data";
    assert "data: " + x == field + ": " + x;
    ReadNamed(Pending([], []), field, x);
    assert [] + x + "\n" == x + "\n";
  }
}
