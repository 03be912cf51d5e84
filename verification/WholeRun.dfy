/**
 What a translated client sees of a whole streaming run, and the two places where the code reports less than it
 should.
 */
module WholeRun {
  import opened Wrappers
  import opened Bytes
  import opened Codec
  import opened EventStream
  import opened Protocol
  import opened ProtocolTrace
  import opened ClientViews
  import opened ResponseWriters
  import opened Streaming
  import opened Scheduling
  import opened Walks
  import opened Relaying

  // ---------------------------------------------------------------- trimming a frame

  lemma {:induction false} TrimLeftKeepsText(p: Bytes, q: Bytes) returns (kept: Bytes)
    requires q != [] && 'A' <= q[0] <= '~'
    ensures TrimSpaceLeft(p + q) == kept + q
    decreases |p|
  {
    var b := p + q;
    var n := SpaceAtFront(b);
    if p == [] {
      assert b == q && b[..1] == [q[0]];
      NoSpaceAtText(q);
      kept := [];
    } else if n == 0 {
      kept := p;
    } else {
      SpaceEndsBefore(p, q);
      assert b[n..] == p[n..] + q;
      kept := TrimLeftKeepsText(p[n..], q);
    }
  }

  lemma NoSpaceAtText(q: Bytes)
    requires q != [] && 'A' <= q[0] <= '~'
    ensures SpaceAtFront(q) == 0
  {
    assert q[..1][0] == q[0];
    assert |q| >= 2 ==> q[..2][0] == q[0];
    assert |q| >= 3 ==> q[..3][0] == q[0];
  }

  /** A white-space character at the front of `p + q` lies within `p`. */
  lemma SpaceEndsBefore(p: Bytes, q: Bytes)
    requires p != [] && q != [] && 'A' <= q[0] <= '~'
    ensures SpaceAtFront(p + q) <= |p|
  {
    var b := p + q;
    assert b[|p|] == q[0];
    assert |b| >= 2 ==> b[..2][1] == b[1];
    assert |b| >= 3 ==> b[..3][1] == b[1] && b[..3][2] == b[2];
  }

  predicate EndsInText(b: Bytes) {
    b != [] && 'A' <= b[|b| - 1] <= '~'
  }

  lemma NotSpaceRune(r: Bytes)
    requires EndsInText(r)
    ensures !IsSpaceRune(r)
  {
  }

  lemma NoSpaceAtEnd(b: Bytes)
    requires EndsInText(b)
    ensures SpaceAtEnd(b) == 0
  {
    hide IsSpaceRune;
    NoSpaceSuffix(b, 1);
    NoSpaceSuffix(b, 2);
    NoSpaceSuffix(b, 3);
  }

  lemma NoSpaceSuffix(b: Bytes, k: nat)
    requires EndsInText(b) && 0 < k
    ensures k <= |b| ==> !IsSpaceRune(b[|b| - k..])
  {
    hide IsSpaceRune;
    if k <= |b| {
      var r := b[|b| - k..];
      assert r[|r| - 1] == b[|b| - 1];
      NotSpaceRune(r);
    }
  }

  lemma TrimRightKeepsText(b: Bytes)
    requires EndsInText(b)
    ensures TrimSpaceRight(b) == b && TrimRight(b, "\r") == b
  {
    NoSpaceAtEnd(b);
    hide SpaceAtEnd;
    assert TrimSpaceRight(b) == b;
    assert b[|b| - 1] !in "\r";
  }

  // ---------------------------------------------------------------- the error frame as a line

  /** The error frame's line, alone, asks for the error event. */
  lemma ErrorLineAction(codec: Codec, message: Bytes)
    requires codec.EncodesOneLine() && codec.EchoesFrames()
    ensures LineAction(codec, "data: " + codec.encode(BrokenFrame(message)))
         == Broken("stream_broken", codec.clean(message))
  {
    hide BrokenFrame, BrokenAction, LineAction;
    var x := codec.encode(BrokenFrame(message));
    assert Braced(x) && codec.decode(x) == Some(BrokenFrame(codec.clean(message)));
    BrokenFrameAction(codec.clean(message));
    ErrorObjectAction(codec, x, BrokenFrame(codec.clean(message)));
  }

  lemma ErrorObjectAction(codec: Codec, x: Bytes, frame: Object)
    requires Braced(x) && codec.decode(x) == Some(frame) && "error" in frame && frame["error"].JObject?
    ensures LineAction(codec, "data: " + x) == BrokenAction(frame["error"].fields)
  {
    hide TrimSpaceLeft, TrimSpaceRight, TrimRight, BrokenAction;
    var line: Bytes := "data: " + x;
    TrimRightKeepsText(line);
    TrimRightKeepsText(x);
    assert line[5..] == " " + x;
    SpaceInFront(x);
  }

  lemma SpaceInFront(x: Bytes)
    requires x != [] && 'A' <= x[0] <= '~'
    ensures TrimSpaceLeft(" " + x) == x
  {
    var b: Bytes := " " + x;
    assert b[..1] == " " && b[1..] == x;
    NoSpaceAtText(x);
  }

  lemma BrokenFrameAction(message: Bytes)
    ensures var frame := BrokenFrame(message);
            && "error" in frame && frame["error"].JObject?
            && BrokenAction(frame["error"].fields) == Broken("stream_broken", message)
  {
  }

  /** Spliced onto an unfinished line, the same frame is ignored. */
  lemma SplicedLineAction(codec: Codec, rest: Bytes, message: Bytes)
    requires codec.EncodesOneLine() && codec.SplicesNoFrames() && rest != []
    ensures LineAction(codec, rest + ("data: " + codec.encode(BrokenFrame(message)))).Ignore?
  {
    hide TrimSpaceLeft, TrimSpaceRight, TrimRight, BrokenFrame, BrokenAction;
    var x := codec.encode(BrokenFrame(message));
    var q: Bytes := "data: " + x;
    var line := rest + q;
    assert Braced(x);
    assert q[|q| - 1] == '}' && line[|line| - 1] == '}';
    TrimRightKeepsText(line);
    if "data:" <= line {
      PrefixNeedsWholeWord(rest, q);
      assert line[5..] == rest[5..] + q;
      var kept := TrimLeftKeepsText(rest[5..], q);
      var data := kept + q;
      assert data[|data| - 1] == '}';
      TrimRightKeepsText(data);
      assert codec.decode(kept + ("data: " + codec.encode(BrokenFrame(message)))) == None;
    }
  }

  lemma PrefixNeedsWholeWord(rest: Bytes, q: Bytes)
    requires rest != [] && "data:" <= q && "data:" <= rest + q
    ensures |rest| >= 5
  {
    assert (rest + q)[|rest|] == q[0];
  }

  // ---------------------------------------------------------------- a run with its error frame

  lemma LinesWithErrorFrame(codec: Codec, out: Bytes, message: Bytes)
    requires codec.EncodesOneLine()
    ensures CompleteLines(out + ErrorFrame(codec, message))
         == CompleteLines(out) + [Residue(out) + ("data: " + codec.encode(BrokenFrame(message))), []]
  {
    hide CompleteLines, Residue, BrokenFrame;
    var r, q := Residue(out), "data: " + codec.encode(BrokenFrame(message));
    var frame := ErrorFrame(codec, message);
    var none: Bytes := [];
    SplitIsExact(out);
    SplitOfConcat(out, frame);
    LineThenRest(none, none);
    LineThenRest(r + q, none + "\n" + none);
    NoNewlineIsResidue(none);
    assert r + frame == (r + q) + "\n" + (none + "\n" + none);
    assert [r + q] + ([none] + []) == [r + q, none];
  }

  /** The ending the error frame announces. */
  function CutBy(message: Bytes): Ending {
    Cut("stream_broken", message)
  }

  /**
   After a cut, the client is told exactly when the upstream stopped at the end of a line:
   otherwise the error frame is glued to the unfinished line and lost with it.
   */
  lemma CutIsReportedIffLineEnded(f: Format, out: Bytes, message: Bytes)
    requires f.codec.Lawful()
    ensures var before, after := StreamActions(f, out), StreamActions(f, out + ErrorFrame(f.codec, message));
            && SessionTexts(after) == SessionTexts(before)
            && SessionEnding(after) ==
               if SessionEnding(before).Open? && Residue(out) == [] then CutBy(f.codec.clean(message))
               else SessionEnding(before)
  {
    hide CompleteLines, Residue, BrokenFrame, LineAction, SessionTexts, SessionEnding;
    var r, q := Residue(out), "data: " + f.codec.encode(BrokenFrame(message));
    var before := StreamActions(f, out);
    LinesWithErrorFrame(f.codec, out, message);
    LineActionsConcat(f.codec, CompleteLines(out), [r + q, []]);
    if r == [] {
      assert r + q == q;
      ErrorLineAction(f.codec, message);
    } else {
      SplicedLineAction(f.codec, r, message);
    }
    BlankLineAction(f.codec);
    var a := LineAction(f.codec, r + q);
    assert LineActions(f.codec, [r + q, []]) == [a, Ignore];
    assert before + [a, Ignore] == before + [a] + [Ignore];
    SessionOfLast(before, a);
    SessionOfLast(before + [a], Ignore);
  }

  lemma BlankLineAction(codec: Codec)
    ensures LineAction(codec, []) == Ignore
  {
  }

  /** How a translated run ends for its client. */
  function RunEnding(f: Format, outcome: Outcome, out: Bytes): Ending {
    var ending := SessionEnding(StreamActions(f, out));
    if outcome.CutShort? && ending.Open? && Residue(out) == [] then CutBy(f.codec.clean(outcome.err.text)) else ending
  }

  /** The events of a translated run, whatever the outcome. */
  function RunEvents(f: Format, outcome: Outcome, last: Attempt): seq<Event> {
    var out := Output(f.codec, last);
    if outcome.Unserved? then [] else Script(f, SessionTexts(StreamActions(f, out)), RunEnding(f, outcome, out))
  }

  /**
   What is delivered through a fresh translator: nothing when no attempt was served, else one session with
   the content of the last attempt alone. A conforming client dispatches exactly these events.
   */
  lemma TranslatedRun(f: Format, outcome: Outcome, last: Attempt)
    requires !f.kind.Plain? && f.codec.Lawful()
    ensures var s := Delivered(f, FRESH, outcome, last);
            && s.t.events == RunEvents(f, outcome, last)
            && Grammar(f, s.t.events)
            && Interpret(s.t.body) == EventMessages(f.codec, s.t.events)
  {
    hide Interpret, EventName, Payload, Feed, Output, ErrorFrame, StreamActions;
    hide SessionTexts, SessionEnding, Script, Grammar;
    match outcome {
      case Unserved(_) =>
        NothingToRead(f);
      case Served(_, _, _) =>
        StreamIsScript(f, Output(f.codec, last));
      case CutShort(_, _, _, err) =>
        StreamIsScript(f, Output(f.codec, last) + ErrorFrame(f.codec, err.text));
        CutIsReportedIffLineEnded(f, Output(f.codec, last), err.text);
    }
  }

  lemma StreamIsScript(f: Format, stream: Bytes)
    requires !f.kind.Plain? && f.codec.EncodesOneLine()
    ensures var s := Feed(f, FRESH, stream);
            && s.t.events == Script(f, SessionTexts(StreamActions(f, stream)), SessionEnding(StreamActions(f, stream)))
            && Grammar(f, s.t.events)
            && Interpret(s.t.body) == EventMessages(f.codec, s.t.events)
  {
    hide Interpret, EventName, Payload, Feed, StreamActions, SessionTexts, SessionEnding, Script, Grammar;
    ClientReads(f, [stream]);
    StreamGrammar(f, [stream]);
    ChunkingInvariance(f, FRESH, [stream]);
    assert Concat([stream]) == stream;
  }

  lemma NothingToRead(f: Format)
    ensures Grammar(f, []) && Interpret([]) == [] && EventMessages(f.codec, []) == []
  {
  }

  // ---------------------------------------------------------------- when a served stream is complete

  /** A line the forwarding loop takes for `[DONE]` is one the translator takes for it. */
  lemma DoneLineAction(codec: Codec, line: Bytes)
    requires '\n' !in line && IsDoneLine(line)
    ensures LineAction(codec, line) == Done
  {
    TrimBreaks(line);
    hide TrimRight, TrimSpace;
  }

  lemma TrimBreaks(line: Bytes)
    requires '\n' !in line
    ensures TrimRight(line, "\r\n") == TrimRight(line, "\r")
  {
  }

  /** No line asks for a terminal event. */
  predicate NothingTerminal(codec: Codec, lines: seq<Bytes>) {
    forall i :: 0 <= i < |lines| ==> !Terminal(LineAction(codec, lines[i]))
  }

  lemma OpenMeansNothingTerminal(actions: seq<Action>)
    ensures SessionEnding(actions).Open? <==> forall i :: 0 <= i < |actions| ==> !Terminal(actions[i])
  {
  }

  /** The session is left open although the stream is over: its one `[DONE]` is an unterminated last line. */
  predicate LosesDone(codec: Codec, out: Bytes) {
    IsDoneLine(Residue(out)) && NothingTerminal(codec, CompleteLines(out))
  }

  /**
   A stream reported as served reaches its completion, or an upstream error before it, except when no complete
   line is terminal and the `[DONE]` that made it a success is an unterminated last line. Then the client gets
   the opening and the deltas and nothing more.
   */
  lemma ServedIsEndedUnlessDoneIsLost(f: Format, body: Bytes, end: BodyEnd)
    requires !f.kind.Plain? && StreamResult(f.codec, body, end).1.None?
    ensures SessionEnding(StreamActions(f, body)).Open? <==> LosesDone(f.codec, body)
    ensures LosesDone(f.codec, body) ==> Feed(f, FRESH, body).t.events == OpenEvents(f, body)
  {
    hide SessionEnding, StreamActions, StreamResult, Feed, OpenEvents, NothingTerminal, CompleteLines, Residue;
    hide IsDoneLine;
    OpenUnlessTerminal(f, body);
    SomeDoneLine(f.codec, body, end);
    if NothingTerminal(f.codec, CompleteLines(body)) {
      NoCompleteDone(f.codec, body);
      OpenStream(f, body);
    }
  }

  lemma NoCompleteDone(codec: Codec, body: Bytes)
    requires NothingTerminal(codec, CompleteLines(body))
    ensures !HasDoneLine(CompleteLines(body))
  {
    hide CompleteLines, IsDoneLine, LineAction;
    var lines := CompleteLines(body);
    forall i | 0 <= i < |lines| ensures !IsDoneLine(lines[i]) {
      if IsDoneLine(lines[i]) {
        CompleteDoneIsTerminal(codec, body, i);
      }
    }
  }

  lemma OpenStream(f: Format, body: Bytes)
    requires !f.kind.Plain? && SessionEnding(StreamActions(f, body)).Open?
    ensures Feed(f, FRESH, body).t.events == OpenEvents(f, body)
  {
    TraceOfActions(f, StreamActions(f, body));
    hide CompleteLines, Residue, LineAction, SessionEnding, Script, SessionTexts;
    assert FRESH.buf + body == body;
    OpenScript(f, SessionTexts(StreamActions(f, body)));
  }

  /** The opening, if there was any content, and the deltas. */
  function OpenEvents(f: Format, out: Bytes): seq<Event> {
    var texts := SessionTexts(StreamActions(f, out));
    (if texts == [] then [] else Opening(f)) + DeltaEvents(f, texts)
  }

  lemma OpenScript(f: Format, texts: seq<Bytes>)
    ensures Script(f, texts, Open) == (if texts == [] then [] else Opening(f)) + DeltaEvents(f, texts)
  {
  }

  lemma OpenUnlessTerminal(f: Format, out: Bytes)
    ensures SessionEnding(StreamActions(f, out)).Open? <==> NothingTerminal(f.codec, CompleteLines(out))
  {
    hide SessionEnding, CompleteLines, LineAction;
    var actions, lines := StreamActions(f, out), CompleteLines(out);
    OpenMeansNothingTerminal(actions);
    assert forall i :: 0 <= i < |lines| ==> actions[i] == LineAction(f.codec, lines[i]);
  }

  lemma CompleteDoneIsTerminal(codec: Codec, body: Bytes, i: nat)
    requires i < |CompleteLines(body)| && IsDoneLine(CompleteLines(body)[i])
    ensures Terminal(LineAction(codec, CompleteLines(body)[i]))
  {
    hide CompleteLines, LineAction, IsDoneLine;
    LinesHoldNoNewline(body, i);
    DoneLineAction(codec, CompleteLines(body)[i]);
  }

  /** Success needs a `[DONE]` line, complete or not. */
  lemma SomeDoneLine(codec: Codec, body: Bytes, end: BodyEnd)
    requires StreamResult(codec, body, end).1.None?
    ensures IsDoneLine(Residue(body)) || HasDoneLine(CompleteLines(body))
  {
    hide CompleteLines, Residue, IsDoneLine, CountAll, Bill, ClosedEarly, EndedEarly, Truncated;
    var lines, all := CompleteLines(body), BodyLines(body);
    SawDoneMeansLine(codec, all);
    var i :| 0 <= i < |all| && IsDoneLine(all[i]);
    if i < |lines| {
      assert all[i] == lines[i] && IsDoneLine(lines[i]);
    } else {
      assert all[i] == Residue(body);
    }
  }

  lemma DoneLineIsDone()
    ensures IsDoneLine("data: [DONE]")
  {
    hide TrimSpaceLeft, TrimSpaceRight;
    var word: Bytes := "[DONE]";
    var line: Bytes := "data: [DONE]";
    assert line[5..] == " " + word;
    SpaceInFront(word);
    TrimRightKeepsText(word);
    assert TrimSpace(line[5..]) == word;
    TrimBreaks(line);
    TrimRightKeepsText(line);
    hide TrimRight, TrimSpace;
  }

  /** Any stream that is still open gives such a case when an unterminated `[DONE]` follows its last line. */
  lemma UnterminatedDoneIsLost(f: Format, front: Bytes)
    requires !f.kind.Plain? && Residue(front) == [] && NothingTerminal(f.codec, CompleteLines(front))
    ensures var body := front + "data: [DONE]";
            && StreamResult(f.codec, body, Eof).1.None?
            && LosesDone(f.codec, body)
            && Feed(f, FRESH, body).t.events == OpenEvents(f, front)
  {
    hide CompleteLines, Residue, IsDoneLine, StreamResult, NothingTerminal, SessionEnding, OpenEvents, LosesDone, Feed;
    DoneLineIsDone();
    var done: Bytes := "data: [DONE]";
    DoneIsLost(f, front, done);
  }

  lemma DoneIsLost(f: Format, front: Bytes, done: Bytes)
    requires !f.kind.Plain? && Residue(front) == [] && NothingTerminal(f.codec, CompleteLines(front))
    requires '\n' !in done && done != [] && IsDoneLine(done)
    ensures var body := front + done;
            && StreamResult(f.codec, body, Eof).1.None?
            && LosesDone(f.codec, body)
            && Feed(f, FRESH, body).t.events == OpenEvents(f, front)
  {
    hide CompleteLines, Residue, IsDoneLine, StreamResult, NothingTerminal, SessionEnding, OpenEvents, Feed;
    TailIsResidue(front, done);
    DoneTailIsServed(f.codec, front, done);
    ServedIsEndedUnlessDoneIsLost(f, front + done, Eof);
    SameOpenEvents(f, front + done, front);
  }

  lemma SameOpenEvents(f: Format, a: Bytes, b: Bytes)
    requires CompleteLines(a) == CompleteLines(b)
    ensures OpenEvents(f, a) == OpenEvents(f, b)
  {
  }

  lemma TailIsResidue(front: Bytes, tail: Bytes)
    requires Residue(front) == [] && '\n' !in tail
    ensures CompleteLines(front + tail) == CompleteLines(front) && Residue(front + tail) == tail
  {
    hide CompleteLines, Residue;
    SplitOfConcat(front, tail);
    NoNewlineIsResidue(tail);
    assert [] + tail == tail;
    assert CompleteLines(front) + [] == CompleteLines(front);
  }

  lemma DoneTailIsServed(codec: Codec, front: Bytes, tail: Bytes)
    requires Residue(front) == [] && '\n' !in tail && tail != [] && IsDoneLine(tail)
    ensures StreamResult(codec, front + tail, Eof).1.None?
  {
    hide CompleteLines, Residue, IsDoneLine, Bill, CountAll, ClosedEarly, EndedEarly;
    SentTail(codec, front, tail);
    var lines := CompleteLines(front) + [tail];
    SawDoneMeansLine(codec, lines);
    assert lines[|lines| - 1] == tail;
  }

  // ---------------------------------------------------------------- a whole run

  /** A buffered reply always ends with a terminated `[DONE]`. */
  lemma RepliesEnd(f: Format, reply: Reply)
    requires f.codec.EncodesOneLine()
    ensures var out := Output(f.codec, Buffered(Answered(reply)));
            && Residue(out) == [] && !NothingTerminal(f.codec, CompleteLines(out))
            && CompleteLines(out) == [ReplyLine(f.codec, reply), [], "data: [DONE]", []]
  {
    hide CompleteLines, Residue, IsDoneLine, LineAction;
    var x: Bytes, done: Bytes, none: Bytes := ReplyLine(f.codec, reply), "data: [DONE]", [];
    ReplyLineIsOne(f.codec, reply);
    DoneLineIsDone();
    DoneLineAction(f.codec, done);
    var out := Output(f.codec, Buffered(Answered(reply)));
    assert out == x + "\n" + (none + "\n" + (done + "\n" + (none + "\n" + none)));
    LineThenRest(x, none + "\n" + (done + "\n" + (none + "\n" + none)));
    LineThenRest(none, done + "\n" + (none + "\n" + none));
    LineThenRest(done, none + "\n" + none);
    LineThenRest(none, none);
    NoNewlineIsResidue(none);
    assert CompleteLines(out)[2] == done;
  }

  function ReplyLine(codec: Codec, reply: Reply): Bytes {
    var frame := ReplyFrame(codec, reply);
    frame[..|frame| - 2]
  }

  lemma ReplyLineIsOne(codec: Codec, reply: Reply)
    requires codec.EncodesOneLine()
    ensures ReplyFrame(codec, reply) == ReplyLine(codec, reply) + "\n" + "\n" && '\n' !in ReplyLine(codec, reply)
  {
  }

  /** A served attempt, whatever its adapter, leaves the client's session open exactly when its `[DONE]` is lost. */
  lemma ServedRunEnding(f: Format, a: Attempt)
    requires !f.kind.Plain? && f.codec.EncodesOneLine() && Report(f.codec, a).1.None?
    ensures var out := Output(f.codec, a); SessionEnding(StreamActions(f, out)).Open? <==> LosesDone(f.codec, out)
  {
    hide CompleteLines, Residue, SessionEnding, StreamActions, StreamResult, IsDoneLine, ReplyFrame, DataFrame;
    hide LineAction;
    match a {
      case Streamed(Opened(body, end)) =>
        ServedIsEndedUnlessDoneIsLost(f, body, end);
      case Buffered(Answered(reply)) =>
        RepliesEnd(f, reply);
        OpenUnlessTerminal(f, Output(f.codec, a));
      case _ =>
    }
  }

  /**
   `RelayStream` into a fresh translator over a connection that never fails. A run that was not served puts
   nothing out. Any other one delivers a single session, with the content of the last attempt alone: it is
   ended if it was served, unless the `[DONE]` was lost, and reports the cut if it was cut at the end of a line.
   */
  method RelayToFreshClient(s: Scheduler, f: Format, chain: seq<Bytes>, pickAt: (nat, nat) -> int,
                            noteAt: (nat, nat) -> int, upstream: nat -> Attempt)
    returns (w: ResponseWriter, outcome: Outcome, calls: seq<Call>)
    requires chain != [] && !f.kind.Plain? && f.codec.Lawful()
    modifies s`accounts
    ensures Reported(f.codec, calls, upstream)
    ensures outcome.Unserved? ==> w.body == []
    ensures !outcome.Unserved? ==>
      && calls != []
      && var out := Output(f.codec, upstream(|calls| - 1));
         var texts, reached := SessionTexts(StreamActions(f, out)), SessionEnding(StreamActions(f, out));
         var ending := RunEnding(f, outcome, out);
         && Interpret(w.body) == EventMessages(f.codec, Script(f, texts, ending))
         && (AllReadBack(f.codec, Script(f, texts, ending)) ==>
              ReadAll(f.codec, Interpret(w.body)) == ViewOf(f, texts, ending))
         && (outcome.Served? ==> (ending.Open? <==> LosesDone(f.codec, out)))
         && (outcome.CutShort? ==> Report(f.codec, upstream(|calls| - 1)).1 == Some(outcome.err))
         && (Residue(out) == [] ==>
              && !ending.Open?
              && (outcome.CutShort? ==>
                  ending == if reached.Open? then CutBy(f.codec.clean(outcome.err.text)) else reached))
  {
    hide Feed, Output, Report, Script, StreamActions, SessionTexts, SessionEnding, Interpret, EventName, Payload;
    hide Log, Over, After, LosesDone, Residue;
    w := new ResponseWriter(f, None, []);
    var model, attempt;
    outcome, calls, model, attempt := RelayStream(s, w, chain, pickAt, noteAt, upstream);
    ghost var last := upstream(if calls == [] then 0 else |calls| - 1);
    TranslatedRun(f, outcome, last);
    hide AllReadBack, ReadAll, ViewOf, EventMessages, RunEnding;
    ghost var texts := SessionTexts(StreamActions(f, Output(f.codec, last)));
    ghost var ending := RunEnding(f, outcome, Output(f.codec, last));
    if AllReadBack(f.codec, Script(f, texts, ending)) {
      ScriptIsRead(f, texts, ending);
    }
    if outcome.Served? {
      ServedRunEnding(f, last);
      NoLossAtLineEnd(f.codec, Output(f.codec, last));
    }
  }

  lemma NoLossAtLineEnd(codec: Codec, out: Bytes)
    ensures Residue(out) == [] ==> !LosesDone(codec, out)
  {
    hide Residue, CompleteLines, LineAction;
  }

  // ---------------------------------------------------------------- a client that is lost

  /** The events a whole stream is translated into. */
  function StreamEvents(f: Format, stream: Bytes): seq<Event> {
    Script(f, SessionTexts(StreamActions(f, stream)), SessionEnding(StreamActions(f, stream)))
  }

  /**
   A client that received only the front of a translated stream dispatches the front of its events, and nothing
   else.
   */
  lemma LostClientReadsPrefix(f: Format, stream: Bytes, received: Bytes)
    requires !f.kind.Plain? && f.codec.EncodesOneLine()
    requires received <= Feed(f, FRESH, stream).t.body
    ensures Interpret(received) <= EventMessages(f.codec, StreamEvents(f, stream))
  {
    hide Interpret, EventName, Payload, Script, SessionTexts, SessionEnding, CompleteLines, Residue, LineAction;
    var actions := StreamActions(f, stream);
    assert FRESH.buf + stream == stream;
    TraceOfActions(f, actions);
    BodyIsPrinted(f, actions);
    var es := Feed(f, FRESH, stream).t.events;
    assert forall e: Event :: Printable(EventMessage(f.codec, e)) by {
      EventsArePrintable(f.codec);
    }
    CutStreamIsPrefix(EventMessages(f.codec, es), received);
  }

  lemma EventsArePrintable(codec: Codec)
    requires codec.EncodesOneLine()
    ensures forall e: Event :: Printable(EventMessage(codec, e))
  {
    hide Payload;
  }

  /** So a client lost anywhere in a run has dispatched part of the events of one attempt. */
  lemma LostRunReadsPrefix(f: Format, upstream: nat -> Attempt, n: nat, received: Bytes)
    returns (k: nat, message: Bytes)
    requires !f.kind.Plain? && f.codec.EncodesOneLine() && OneAttempt(f, FRESH, upstream, n, received)
    ensures k < n
    ensures var stream := Output(f.codec, upstream(k)) + ErrorFrame(f.codec, message);
            Interpret(received) <= EventMessages(f.codec, StreamEvents(f, stream))
  {
    hide Feed, Output, ErrorFrame, Interpret, StreamEvents, EventMessages;
    k, message :| k < n && FRESH.t.body <= received
                  <= Feed(f, FRESH, Output(f.codec, upstream(k)) + ErrorFrame(f.codec, message)).t.body;
    LostClientReadsPrefix(f, Output(f.codec, upstream(k)) + ErrorFrame(f.codec, message), received);
  }
}
