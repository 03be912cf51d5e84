/** The streaming adapters: the forwarding loop, the buffered adapters, and the error frame of a cut stream. */
module Streaming {
  import opened Wrappers
  import opened Bytes
  import opened Codec
  import opened Protocol
  import opened ProtocolTrace
  import opened ResponseWriters

  /** An upstream failure: its text, whether it is a network timeout, and the fact that decides about a retry. */
  datatype UpstreamError = UpstreamError(text: Bytes, timedOut: bool, firstByteSent: bool)

  /** How an upstream body ends. */
  datatype BodyEnd = Eof | Reset(message: Bytes)

  /** What one streaming upstream call meets. */
  datatype Upstream =
    /** No connection, or a status of 300 and above. */
    | Refused(message: Bytes, timedOut: bool)
    | Opened(bytes: Bytes, end: BodyEnd)

  // ---------------------------------------------------------------- what the loop counts

  datatype Usage = Usage(tokens: int, contentLen: nat, sawDone: bool)

  /** The data of a frame line; None for any other line. */
  function FrameData(line: Bytes): Option<Bytes> {
    var trimmed := TrimRight(line, "\r\n");
    if "data:" <= trimmed then Some(TrimSpace(trimmed[5..])) else None
  }

  predicate IsDoneLine(line: Bytes) {
    FrameData(line) == Some("[DONE]")
  }

  predicate HasDoneLine(lines: seq<Bytes>) {
    exists i :: 0 <= i < |lines| && IsDoneLine(lines[i])
  }

  /** The typed frame on a line, when there is one. */
  function UsageOf(codec: Codec, line: Bytes): Option<UsageFrame> {
    match FrameData(line)
    case None => None
    case Some(data) => if data == "[DONE]" || data == "" then None else codec.decodeUsage(data)
  }

  function Count(codec: Codec, u: Usage, line: Bytes): Usage {
    if IsDoneLine(line) then u.(sawDone := true)
    else
      match UsageOf(codec, line)
      case None => u
      case Some(frame) =>
        Usage(if frame.totalTokens.Some? && frame.totalTokens.value > 0 then frame.totalTokens.value else u.tokens,
              u.contentLen + TextLength(frame.contents), u.sawDone)
  }

  function CountAll(codec: Codec, lines: seq<Bytes>): Usage {
    if lines == [] then Usage(0, 0, false)
    else Count(codec, CountAll(codec, lines[..|lines| - 1]), lines[|lines| - 1])
  }

  /** The lines `ReadString` returns for a whole body; the last may be unterminated. */
  function BodyLines(body: Bytes): seq<Bytes> {
    CompleteLines(body) + if Residue(body) == [] then [] else [Residue(body)]
  }

  function BillableTokens(usage: int, contentLen: int): int {
    if usage > 0 then usage else if contentLen > 0 then contentLen else 0
  }

  function Bill(u: Usage): int {
    BillableTokens(u.tokens, u.contentLen)
  }

  // ---------------------------------------------------------------- what the counts mean

  /** A line that reports usage or carries content. */
  predicate Billable(codec: Codec, line: Bytes) {
    match UsageOf(codec, line)
    case None => false
    case Some(frame) => (frame.totalTokens.Some? && frame.totalTokens.value > 0) || TextLength(frame.contents) > 0
  }

  /** `sawDone` says that one of the lines was `[DONE]`. */
  lemma {:induction false} SawDoneMeansLine(codec: Codec, lines: seq<Bytes>)
    ensures CountAll(codec, lines).sawDone <==> HasDoneLine(lines)
  {
    hide IsDoneLine, UsageOf, TextLength;
    if lines != [] {
      var front, last := lines[..|lines| - 1], lines[|lines| - 1];
      SawDoneMeansLine(codec, front);
      assert forall i :: 0 <= i < |front| ==> lines[i] == front[i];
    }
  }

  lemma CountStep(codec: Codec, u: Usage, line: Bytes)
    requires u.tokens >= 0
    ensures var v := Count(codec, u, line);
            v.tokens >= 0 && (Bill(v) > 0 <==> Bill(u) > 0 || Billable(codec, line))
  {
    hide FrameData, TextLength;
  }

  /** A stream bills something exactly when some frame reported usage or carried content. */
  lemma {:induction false} BilledMeansLine(codec: Codec, lines: seq<Bytes>)
    ensures CountAll(codec, lines).tokens >= 0
    ensures Bill(CountAll(codec, lines)) > 0 <==> exists i :: 0 <= i < |lines| && Billable(codec, lines[i])
  {
    hide Count, Billable;
    if lines != [] {
      var front, last := lines[..|lines| - 1], lines[|lines| - 1];
      BilledMeansLine(codec, front);
      CountStep(codec, CountAll(codec, front), last);
      assert forall i :: 0 <= i < |front| ==> lines[i] == front[i];
    }
  }

  // ---------------------------------------------------------------- the forwarding loop

  function ClosedEarly(): UpstreamError {
    UpstreamError("upstream closed before any byte", false, false)
  }

  function EndedEarly(): UpstreamError {
    UpstreamError("stream ended without [DONE]", false, true)
  }

  function Truncated(message: Bytes, firstByteSent: bool): UpstreamError {
    UpstreamError("stream truncated: " + message, false, firstByteSent)
  }

  /** What the forwarding loop returns when every write succeeds. */
  function StreamResult(codec: Codec, body: Bytes, end: BodyEnd): (int, Option<UpstreamError>) {
    var u := CountAll(codec, BodyLines(body));
    match end
    case Eof =>
      if body == [] then (0, Some(ClosedEarly()))
      else if !u.sawDone then (Bill(u), Some(EndedEarly()))
      else (Bill(u), None)
    case Reset(message) =>
      (Bill(u), Some(Truncated(message, body != [])))
  }

  lemma CountIgnoresBreak(codec: Codec, u: Usage, line: Bytes)
    ensures Count(codec, u, line + "\n") == Count(codec, u, line)
  {
    assert (line + "\n")[..|line|] == line;
  }

  /** One more complete line sent. */
  lemma SentOneMore(codec: Codec, sent: Bytes, line: Bytes)
    requires Residue(sent) == [] && '\n' !in line
    ensures var more := sent + (line + "\n");
            && Residue(more) == []
            && CompleteLines(more) == CompleteLines(sent) + [line]
            && CountAll(codec, CompleteLines(more)) == Count(codec, CountAll(codec, CompleteLines(sent)), line + "\n")
  {
    hide CompleteLines, Residue, Count;
    SplitOfConcat(sent, line + "\n");
    LineThenRest(line, []);
    assert [] + (line + "\n") == line + "\n" + [];
    NoNewlineIsResidue([]);
    CountIgnoresBreak(codec, CountAll(codec, CompleteLines(sent)), line);
    var lines := CompleteLines(sent) + [line];
    assert lines[..|lines| - 1] == CompleteLines(sent);
    assert [line] + [] == [line];
  }

  /** The last, unterminated line sent. */
  lemma SentTail(codec: Codec, sent: Bytes, tail: Bytes)
    requires Residue(sent) == [] && '\n' !in tail
    ensures BodyLines(sent + tail) == CompleteLines(sent) + if tail == [] then [] else [tail]
    ensures CountAll(codec, BodyLines(sent + tail)) ==
            if tail == [] then CountAll(codec, CompleteLines(sent))
            else Count(codec, CountAll(codec, CompleteLines(sent)), tail)
  {
    hide CompleteLines, Residue, Count;
    SplitOfConcat(sent, tail);
    NoNewlineIsResidue(tail);
    assert [] + tail == tail;
    var lines := CompleteLines(sent) + [tail];
    assert lines[..|lines| - 1] == CompleteLines(sent);
    assert CompleteLines(sent) + [] == CompleteLines(sent);
  }

  /** The loop body's bookkeeping for one line. */
  method CountLine(codec: Codec, line: Bytes, u: Usage) returns (v: Usage)
    ensures v == Count(codec, u, line)
  {
    v := u;
    var trimmed := TrimRight(line, "\r\n");
    if "data:" <= trimmed {
      var data := TrimSpace(trimmed[5..]);
      if data == "[DONE]" {
        v := v.(sawDone := true);
      } else if data != "" {
        var frame := codec.decodeUsage(data);
        if frame.Some? {
          if frame.value.totalTokens.Some? && frame.value.totalTokens.value > 0 {
            v := v.(tokens := frame.value.totalTokens.value);
          }
          var contents := frame.value.contents;
          for i := 0 to |contents|
            invariant v == Usage(v.tokens, u.contentLen + TextLength(contents[..i]), u.sawDone)
            invariant v.tokens == if frame.value.totalTokens.Some? && frame.value.totalTokens.value > 0
                                  then frame.value.totalTokens.value else u.tokens
          {
            assert contents[..i + 1][..i] == contents[..i];
            v := v.(contentLen := v.contentLen + |contents[i]|);
          }
          assert contents[..|contents|] == contents;
        }
      }
    }
  }

  /** The stream stopped because the client's connection failed under it: the client holds part of the whole. */
  ghost predicate ClientLost(f: Format, before: Session, whole: Session, after: Session, firstByteSent: bool) {
    && before.t.body <= after.t.body <= whole.t.body
    && (if f.kind.Plain? then firstByteSent <==> after != before else firstByteSent)
  }

  /** One write of the forwarding loop, after `sent` went through. */
  method ForwardLine(w: ResponseWriter, line: Bytes, u: Usage, ghost before: Session, ghost sent: Bytes,
                     ghost rest: Bytes)
    returns (n: nat, wok: bool, v: Usage)
    requires line != []
    requires '\n' !in before.buf ==> w.View() == Feed(w.f, before, sent)
    modifies w
    ensures v == if wok then Count(w.f.codec, u, line) else u
    ensures wok ==> n > 0
    ensures '\n' !in before.buf ==>
      if wok then w.View() == Feed(w.f, before, sent + line)
      else
        && w.room == Some(0)
        && ClientLost(w.f, before, Feed(w.f, before, sent + line + rest), w.View(), sent != [] || n > 0)
    ensures !wok ==> w.room == Some(0)
    ensures old(w.room).None? ==> wok && w.room.None?
    ensures old(w.room) == Some(0) ==> w.room == Some(0) && w.body == old(w.body)
  {
    hide Count;
    v := u;
    if '\n' !in before.buf {
      BufferIsResidue(w.f, before, sent);
    }
    FeedOfConcat(w.f, before, sent, line);
    FeedGrows(w.f, before, sent + line, rest);
    n, wok := w.Write(line);
    if wok {
      v := CountLine(w.f.codec, line, u);
      assert w.f.kind.Plain? ==> n == |line|;
    } else {
      FeedGrows(w.f, before, sent, line);
      if w.f.kind.Plain? { LostWrite(w.f, before, sent, line[..n]); }
      hide Feed;
    }
  }

  /** What the loop returns once the body is read to its end. */
  method Finish(body: Bytes, end: BodyEnd, u: Usage, firstByte: bool, ghost codec: Codec)
    returns (tokens: int, err: Option<UpstreamError>)
    requires u == CountAll(codec, BodyLines(body)) && (firstByte <==> body != [])
    ensures (tokens, err) == StreamResult(codec, body, end)
  {
    hide ClosedEarly, EndedEarly, Truncated, CountAll, BodyLines;
    match end {
      case Eof =>
        if !firstByte {
          return 0, Some(ClosedEarly());
        }
        if !u.sawDone {
          return Bill(u), Some(EndedEarly());
        }
        return Bill(u), None;
      case Reset(message) =>
        return Bill(u), Some(Truncated(message, firstByte));
    }
  }

  /** `ReadString('\n')`: the next line with its break, or what is left at the end. */
  method ReadString(stream: Bytes) returns (line: Bytes, rest: Bytes, atEnd: bool)
    ensures stream == line + rest
    ensures atEnd ==> rest == [] && '\n' !in line
    ensures !atEnd ==> line != [] && line == line[..|line| - 1] + "\n" && '\n' !in line[..|line| - 1]
  {
    var i := IndexOf(stream, '\n');
    atEnd := i == |stream|;
    line := if atEnd then stream else stream[..i + 1];
    rest := if atEnd then [] else stream[i + 1..];
  }

  /** `openAIProvider.Stream` from the open response on. */
  method Forward(w: ResponseWriter, body: Bytes, end: BodyEnd) returns (tokens: int, err: Option<UpstreamError>)
    modifies w
    ensures var whole := Feed(w.f, old(w.View()), body);
            '\n' !in old(w.buf) ==>
            || (w.View() == whole && (tokens, err) == StreamResult(w.f.codec, body, end))
            || (w.room == Some(0) && err.Some?
                && ClientLost(w.f, old(w.View()), whole, w.View(), err.value.firstByteSent))
    ensures old(w.room).None? ==> w.room.None?
    ensures old(w.room) == Some(0) ==> w.room == Some(0) && w.body == old(w.body)
  {
    hide Feed, CompleteLines, Residue, CountAll, Count, BodyLines, StreamResult, ClientLost;
    var firstByte, u := false, Usage(0, 0, false);
    var rest: Bytes := body;
    ghost var before, sent: Bytes := w.View(), [];
    assert [] + body == body;
    if '\n' !in w.buf { FeedNothing(w.f, before); }
    NothingSent(w.f.codec);
    while true
      invariant body == sent + rest && Residue(sent) == []
      invariant '\n' !in before.buf ==> w.View() == Feed(w.f, before, sent)
      invariant u == CountAll(w.f.codec, CompleteLines(sent))
      invariant firstByte <==> sent != []
      invariant old(w.room).None? ==> w.room.None?
      invariant old(w.room) == Some(0) ==> w.room == Some(0) && w.body == old(w.body)
      decreases |rest|
    {
      var line, atEnd;
      ghost var so := sent;
      line, rest, atEnd := ReadString(rest);
      assert body == so + line + rest;
      if |line| > 0 {
        var n, wok;
        n, wok, u := ForwardLine(w, line, u, before, so, rest);
        firstByte := firstByte || n > 0;
        sent := so + line;
        if !wok {
          return Bill(u), Some(UpstreamError(w.failure, false, firstByte));
        }
      }
      if atEnd {
        SentTail(w.f.codec, so, line);
        assert so + line == body && sent == body;
        tokens, err := Finish(body, end, u, firstByte, w.f.codec);
        return;
      }
      SentOneMore(w.f.codec, so, line[..|line| - 1]);
    }
  }

  lemma NothingSent(codec: Codec)
    ensures Residue([]) == [] && CountAll(codec, CompleteLines([])) == Usage(0, 0, false)
  {
  }

  lemma FeedGrows(f: Format, s: Session, a: Bytes, b: Bytes)
    ensures s.t.body <= Feed(f, s, a).t.body <= Feed(f, s, a + b).t.body
  {
    FeedOfConcat(f, s, a, b);
    if !f.kind.Plain? {
      var t := Feed(f, s, a);
      BodyGrows(f, s.t, LineActions(f.codec, CompleteLines(s.buf + a)));
      BodyGrows(f, t.t, LineActions(f.codec, CompleteLines(t.buf + b)));
    }
  }

  lemma LostWrite(f: Format, s: Session, sent: Bytes, part: Bytes)
    requires f.kind.Plain?
    ensures Feed(f, s, sent).t.body + part == s.t.body + (sent + part)
  {
  }

  // ---------------------------------------------------------------- the buffered adapters

  datatype Reply = Reply(content: Bytes, tokens: int)

  /** What a buffered adapter's complete upstream call came back with. */
  datatype CallResult = Answered(reply: Reply) | CallFailed(err: UpstreamError)

  function DataFrame(data: Bytes): Bytes {
    "data: " + data + "\n\n"
  }

  /** The one frame a buffered reply is sent as. */
  function ReplyObject(content: Bytes, tokens: int): Object {
    map["choices" := JArray([JObject(map["delta" := JObject(map["content" := JString(content)])])]),
        "usage" := JObject(map["total_tokens" := JNumber(tokens as real)])]
  }

  function ReplyFrame(codec: Codec, reply: Reply): Bytes {
    DataFrame(codec.encode(ReplyObject(reply.content, reply.tokens)))
  }

  /**
   The Stream methods of the Claude, Codex and Antigravity adapters. When the client is lost,
   `firstByteSent` says whether the whole first frame went out, not whether any byte did.
   */
  method SendReply(w: ResponseWriter, call: CallResult) returns (tokens: int, err: Option<UpstreamError>)
    modifies w
    ensures w.f.kind.Plain? && old(w.room).Some? ==>
      w.room.Some? && |w.body| + w.room.value == |old(w.body)| + old(w.room).value
    ensures call.CallFailed? ==>
      w.View() == old(w.View()) && w.room == old(w.room) && tokens == 0 && err == Some(call.err)
    ensures call.Answered? && '\n' !in old(w.buf) ==>
      var first := ReplyFrame(w.f.codec, call.reply);
      var whole := Feed(w.f, old(w.View()), first + DataFrame("[DONE]"));
      || (err.None? && w.View() == whole && tokens == call.reply.tokens)
      || (w.room == Some(0) && err.Some? && old(w.body) <= w.body <= whole.t.body
          && (err.value.firstByteSent <==> Feed(w.f, old(w.View()), first).t.body <= w.body))
    ensures old(w.room).None? ==> w.room.None?
    ensures old(w.room) == Some(0) ==> w.room == Some(0) && w.body == old(w.body)
  {
    hide Feed;
    match call {
      case CallFailed(e) =>
        return 0, Some(e);
      case Answered(reply) =>
        ghost var before := w.View();
        var first, done := ReplyFrame(w.f.codec, reply), DataFrame("[DONE]");
        FeedOfConcat(w.f, before, first, done);
        FeedGrows(w.f, before, first, done);
        var n, wok := w.Write(first);
        if !wok {
          return 0, Some(UpstreamError(w.failure, false, false));
        }
        if '\n' !in before.buf {
          BufferIsResidue(w.f, before, first);
          PlainFeed(w.f, before, first);
        }
        n, wok := w.Write(done);
        if !wok {
          return reply.tokens, Some(UpstreamError(w.failure, false, true));
        }
        return reply.tokens, None;
    }
  }

  lemma PlainFeed(f: Format, s: Session, b: Bytes)
    ensures f.kind.Plain? ==> Feed(f, s, b).t.body == s.t.body + b
  {
  }

  /**
   A client that takes `room` bytes: a report that no byte was sent is true, except when the client
   took some of the first frame and not all of it.
   */
  method FlagMissesPartialFrame(f: Format, room: nat, reply: Reply, failure: Bytes)
    returns (received: Bytes, err: Option<UpstreamError>)
    requires f.kind.Plain?
    ensures (err.Some? && !err.value.firstByteSent ==> received == []) <==> !(0 < room < |ReplyFrame(f.codec, reply)|)
  {
    hide ReplyFrame, DataFrame;
    var w := new ResponseWriter(f, Some(room), failure);
    ghost var before := w.View();
    ghost var first := ReplyFrame(f.codec, reply);
    PlainFeed(f, before, first);
    PlainFeed(f, before, first + DataFrame("[DONE]"));
    var tokens;
    tokens, err := SendReply(w, Answered(reply));
    received := w.body;
  }

  // ---------------------------------------------------------------- one attempt, whatever its adapter

  datatype Attempt =
    | Streamed(up: Upstream)
    | Buffered(call: CallResult)
    /** No adapter is registered for the account's provider. */
    | NoAdapter(message: Bytes)

  /** The bytes the attempt passes on to a client that accepts them all. */
  function Output(codec: Codec, a: Attempt): Bytes {
    match a
    case Streamed(Opened(body, _)) => body
    case Buffered(Answered(reply)) => ReplyFrame(codec, reply) + DataFrame("[DONE]")
    case _ => []
  }

  /** What the attempt then reports. */
  function Report(codec: Codec, a: Attempt): (int, Option<UpstreamError>) {
    match a
    case Streamed(Refused(message, timedOut)) => (0, Some(UpstreamError(message, timedOut, false)))
    case Streamed(Opened(body, end)) => StreamResult(codec, body, end)
    case Buffered(Answered(reply)) => (reply.tokens, None)
    case Buffered(CallFailed(err)) => (0, Some(err))
    case NoAdapter(message) => (0, Some(UpstreamError(message, false, false)))
  }

  /** An attempt that may be retried has put nothing out. */
  lemma RetryableIsSilent(codec: Codec, a: Attempt)
    ensures var err := Report(codec, a).1;
            err.Some? && !err.value.firstByteSent ==> Output(codec, a) == []
  {
  }

  /**
   An attempt says that output had begun although it put nothing out, exactly when a buffered adapter's own
   upstream call broke off in mid-body and says so of itself.
   */
  lemma FlagWithoutOutputIff(codec: Codec, a: Attempt)
    ensures Report(codec, a).1.Some? && Report(codec, a).1.value.firstByteSent && Output(codec, a) == []
       <==> (a.Buffered? && a.call.CallFailed? && a.call.err.firstByteSent)
  {
    hide CountAll, BodyLines, Bill;
  }

  /** `StreamUpstream`. */
  method StreamUpstream(w: ResponseWriter, a: Attempt) returns (tokens: int, err: Option<UpstreamError>)
    modifies w
    ensures var whole := Feed(w.f, old(w.View()), Output(w.f.codec, a));
            '\n' !in old(w.buf) ==>
            || (w.View() == whole && (tokens, err) == Report(w.f.codec, a))
            || (w.room == Some(0) && err.Some? && old(w.body) <= w.body <= whole.t.body)
    ensures old(w.room).None? ==> w.room.None?
    ensures old(w.room) == Some(0) ==> w.room == Some(0) && w.body == old(w.body)
  {
    hide Feed, StreamResult;
    if '\n' !in w.buf {
      FeedNothing(w.f, w.View());
    }
    match a {
      case Streamed(Refused(message, timedOut)) =>
        return 0, Some(UpstreamError(message, timedOut, false));
      case Streamed(Opened(body, end)) =>
        tokens, err := Forward(w, body, end);
      case Buffered(call) =>
        tokens, err := SendReply(w, call);
      case NoAdapter(message) =>
        return 0, Some(UpstreamError(message, false, false));
    }
  }

  function ErrorFrame(codec: Codec, message: Bytes): Bytes {
    DataFrame(codec.encode(BrokenFrame(message)))
  }

  /** `writeStreamError`: best effort, its own failure is ignored. */
  method WriteStreamError(w: ResponseWriter, message: Bytes)
    modifies w
    ensures var whole := Feed(w.f, old(w.View()), ErrorFrame(w.f.codec, message));
            '\n' !in old(w.buf) ==>
            w.View() == whole || (w.room == Some(0) && old(w.body) <= w.body <= whole.t.body)
    ensures old(w.room).None? ==> w.room.None?
    ensures old(w.room) == Some(0) ==> w.room == Some(0) && w.body == old(w.body)
  {
    var n, wok := w.Write(ErrorFrame(w.f.codec, message));
  }
}
