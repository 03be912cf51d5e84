/** What a chat client, whose stream is passed through as it is, reads of a run that was cut. */
module PlainClients {
  import opened Wrappers
  import opened Bytes
  import opened Codec
  import opened EventStream
  import opened Protocol
  import opened Streaming
  import opened Scheduling
  import opened Walks
  import opened Relaying
  import opened ResponseWriters

  // ---------------------------------------------------------------- reading on

  /** What follows the first line of a stream. */
  function Rest(b: Bytes): (r: Bytes)
    requires NextBreak(b) < |b|
    ensures |r| < |b|
  {
    b[NextBreak(b) + BreakLength(b, NextBreak(b))..]
  }

  /** What follows the last line break of a stream. */
  function Tail(b: Bytes): (r: Bytes)
    ensures OneLine(r)
    decreases |b|
  {
    if NextBreak(b) == |b| then b else Tail(Rest(b))
  }

  /** The reader's buffers after these lines. */
  function After(p: Pending, lines: seq<Bytes>): Pending
    decreases lines
  {
    if lines == [] then p
    else After(if lines[0] == [] then Pending([], []) else ReadLine(p, lines[0]), lines[1..])
  }

  lemma FirstLine(b: Bytes)
    requires NextBreak(b) < |b|
    ensures StreamLines(b) == [b[..NextBreak(b)]] + StreamLines(Rest(b))
  {
  }

  lemma RestOfMore(b: Bytes, more: Bytes)
    requires NextBreak(b) < |b| && more != [] && more[0] != '\n'
    ensures NextBreak(b + more) == NextBreak(b) && Rest(b + more) == Rest(b) + more
    ensures (b + more)[..NextBreak(b)] == b[..NextBreak(b)]
  {
    var i := NextBreak(b);
    NextBreakUnique(b + more, i);
    hide NextBreak;
    SameBreak(b, more, i);
  }

  /** How long the line break at `i` is. */
  function BreakLength(b: Bytes, i: nat): nat
    requires i < |b|
  {
    if b[i] == '\r' && i + 1 < |b| && b[i + 1] == '\n' then 2 else 1
  }

  lemma SameBreak(b: Bytes, more: Bytes, i: nat)
    requires i < |b| && more != [] && more[0] != '\n'
    ensures var n := BreakLength(b, i);
            && BreakLength(b + more, i) == n && i + n <= |b|
            && (b + more)[i + n..] == b[i + n..] + more && (b + more)[..i] == b[..i]
  {
    var all := b + more;
    assert all[i] == b[i];
    if i + 1 < |b| {
      assert all[i + 1] == b[i + 1];
    } else {
      assert all[i + 1] == more[0];
    }
  }

  lemma {:induction false} LinesOfMore(b: Bytes, more: Bytes)
    requires more != [] && more[0] != '\n'
    ensures StreamLines(b + more) == StreamLines(b) + StreamLines(Tail(b) + more)
    decreases |b|
  {
    hide NextBreak, Rest;
    if NextBreak(b) == |b| {
      assert [] + StreamLines(b + more) == StreamLines(b + more);
    } else {
      RestOfMore(b, more);
      FirstLine(b);
      FirstLine(b + more);
      LinesOfMore(Rest(b), more);
      assert Tail(b) == Tail(Rest(b));
      hide StreamLines, Tail;
      var head, rest, end := [b[..NextBreak(b)]], StreamLines(Rest(b)), StreamLines(Tail(Rest(b)) + more);
      assert head + (rest + end) == head + rest + end;
    }
  }

  lemma {:induction false} ReadOn(p: Pending, lines: seq<Bytes>, more: seq<Bytes>)
    ensures ReadLines(p, lines + more) == ReadLines(p, lines) + ReadLines(After(p, lines), more)
    decreases lines
  {
    hide ReadLine, Dispatch;
    if lines == [] {
      assert lines + more == more;
    } else {
      assert (lines + more)[1..] == lines[1..] + more;
      ReadOn(if lines[0] == [] then Pending([], []) else ReadLine(p, lines[0]), lines[1..], more);
    }
  }

  /** The data buffer is empty or ends in a line break. */
  predicate WholeLines(p: Pending) {
    p.data == [] || p.data[|p.data| - 1] == '\n'
  }

  lemma {:induction false} BufferHoldsWholeLines(p: Pending, lines: seq<Bytes>)
    requires WholeLines(p)
    ensures WholeLines(After(p, lines))
    decreases lines
  {
    if lines != [] {
      ReadKeepsWholeLines(p, lines[0]);
      hide ReadLine;
      BufferHoldsWholeLines(if lines[0] == [] then Pending([], []) else ReadLine(p, lines[0]), lines[1..]);
    }
  }

  lemma ReadKeepsWholeLines(p: Pending, line: Bytes)
    requires WholeLines(p)
    ensures WholeLines(ReadLine(p, line))
  {
  }

  // ---------------------------------------------------------------- one frame more

  /** The reader's buffers at the end of a stream. */
  function Buffers(stream: Bytes): Pending {
    After(Pending([], []), StreamLines(WithoutMark(stream)))
  }

  /** The line a stream breaks off in. */
  function BrokenLine(stream: Bytes): Bytes {
    Tail(WithoutMark(stream))
  }

  function FrameLine(x: Bytes): Bytes {
    "data: " + x
  }

  lemma TwoLines(line: Bytes)
    requires OneLine(line)
    ensures StreamLines(Line(line) + Line([])) == [line, []]
  {
    hide StreamLines, Line;
    var none: Bytes := [];
    LineIs(none);
    FirstStreamLine(line, Line(none));
    FirstStreamLine(none, []);
    NoLineYet([]);
    assert Line(none) + [] == Line(none);
    assert [line] + ([none] + []) == [line, none];
  }

  /** A frame read after `b`: its line, glued to the broken one, and then the blank line that dispatches. */
  lemma FrameIsRead(b: Bytes, q: Bytes)
    requires OneLine(q) && q != []
    ensures var p := After(Pending([], []), StreamLines(b));
            ReadLines(Pending([], []), StreamLines(b + Line(q) + Line([])))
            == ReadLines(Pending([], []), StreamLines(b)) + Dispatch(ReadLine(p, Tail(b) + q))
  {
    hide StreamLines, Tail, ReadLine, ReadLines, Dispatch;
    var none, lines := Pending([], []), StreamLines(b);
    FrameLines(b, q);
    ReadOn(none, lines, [Tail(b) + q, []]);
    ReadTwo(After(none, lines), Tail(b) + q);
  }

  lemma FrameLines(b: Bytes, q: Bytes)
    requires OneLine(q) && q != []
    ensures StreamLines(b + Line(q) + Line([])) == StreamLines(b) + [Tail(b) + q, []]
  {
    hide StreamLines, Tail;
    var r: Bytes, none: Bytes := Tail(b), [];
    LineIs(q);
    LineIs(r + q);
    hide Line;
    var frame := Line(q) + Line(none);
    assert frame[0] == q[0];
    assert b + Line(q) + Line(none) == b + frame;
    LinesOfMore(b, frame);
    assert r + Line(q) == Line(r + q);
    assert r + frame == Line(r + q) + Line(none);
    TwoLines(r + q);
  }

  lemma ReadTwo(p: Pending, line: Bytes)
    requires line != []
    ensures ReadLines(p, [line, []]) == Dispatch(ReadLine(p, line))
  {
    hide ReadLine, Dispatch;
    var none: Bytes := [];
    ReadCons(p, line, [none]);
    ReadBlank(ReadLine(p, line), []);
    assert [line] + [none] == [line, none] && [none] + [] == [none];
  }

  lemma MarkIsInFront(b: Bytes, x: Bytes)
    ensures WithoutMark(b + Line(FrameLine(x)) + Line([])) == WithoutMark(b) + Line(FrameLine(x)) + Line([])
  {
    var frame := Line(FrameLine(x)) + Line([]);
    assert b + Line(FrameLine(x)) + Line([]) == b + frame;
    assert frame[0] == 'd' && frame[1] == 'a' && frame[2] == 't';
    assert |b| >= 3 ==> (b + frame)[3..] == b[3..] + frame;
  }

  lemma FrameAfter(out: Bytes, x: Bytes)
    requires OneLine(x)
    ensures Interpret(out + Line(FrameLine(x)) + Line([]))
         == Interpret(out) + Dispatch(ReadLine(Buffers(out), BrokenLine(out) + FrameLine(x)))
  {
    hide StreamLines, ReadLines, ReadLine, Dispatch, Tail, Line, WithoutMark;
    assert FrameLine(x) != [] && OneLine(FrameLine(x));
    hide FrameLine;
    MarkIsInFront(out, x);
    FrameIsRead(WithoutMark(out), FrameLine(x));
  }

  // ---------------------------------------------------------------- what the frame amounts to

  /** The broken line is, or goes on to be, a data line. */
  predicate IsDataLine(r: Bytes) {
    IndexOf(r, ':') < |r| && r[..IndexOf(r, ':')] == "data"
  }

  /** What reading the glued line does to the data buffer. */
  lemma GluedLine(p: Pending, r: Bytes, x: Bytes)
    ensures var q := ReadLine(p, r + FrameLine(x));
            if r == [] then q.data == p.data + x + "\n"
            else if IsDataLine(r) then |q.data| > |p.data| + |x| + 1
            else q.data == p.data
  {
    var line := r + FrameLine(x);
    if r == [] {
      assert line == "data" + ": " + x;
      ReadNamed(p, "data", x);
    } else if ':' in r {
      GluedAfterColon(p, r, FrameLine(x));
    } else {
      assert line[|r| + 4] == ':';
      IndexOfUnique(line, ':', |r| + 4);
      var field := line[..|r| + 4];
      assert field[|field| - 1] == 'a' && |field| > 4;
    }
  }

  lemma GluedAfterColon(p: Pending, r: Bytes, more: Bytes)
    requires ':' in r && more != [] && more[0] == 'd'
    ensures var q := ReadLine(p, r + more);
            if IsDataLine(r) then |q.data| >= |p.data| + |more| + 1 else q.data == p.data
  {
    var i, line := IndexOf(r, ':'), r + more;
    IndexOfUnique(line, ':', i);
    assert line[..i] == r[..i] && line[i + 1..] == r[i + 1..] + more;
    var value := line[i + 1..];
    assert value[0] == ' ' ==> |r| > i + 1;
    hide IndexOf;
  }

  /** The stream ended at the end of a line, and no event had begun to collect data. */
  predicate AtEventStart(out: Bytes) {
    BrokenLine(out) == [] && Buffers(out).data == []
  }

  /** The stream broke off in a line that is lost, after an unfinished event with this very data. */
  predicate EndsInSameData(out: Bytes, x: Bytes) {
    BrokenLine(out) != [] && !IsDataLine(BrokenLine(out)) && Buffers(out).data == x + "\n"
  }

  /** After the frame, the client dispatches one more message, and its data is the frame's. */
  ghost predicate IsDispatched(out: Bytes, x: Bytes) {
    exists name: Bytes :: Interpret(out + Line(FrameLine(x)) + Line([])) == Interpret(out) + [Message(name, x)]
  }

  lemma DispatchedData(p: Pending, before: seq<Message>, x: Bytes)
    requires WholeLines(p)
    ensures (exists name: Bytes :: before + Dispatch(p) == before + [Message(name, x)]) <==> p.data == x + "\n"
  {
    if p.data == x + "\n" {
      assert p.data[..|p.data| - 1] == x;
      var name := if p.name == [] then "message" else p.name;
      assert before + Dispatch(p) == before + [Message(name, x)];
    }
    if name: Bytes :| before + Dispatch(p) == before + [Message(name, x)] {
      var whole := before + Dispatch(p);
      assert whole[|before|..] == Dispatch(p) && whole[|before|..] == [Message(name, x)];
      assert Dispatch(p) == [Message(name, x)];
      assert p.data == p.data[..|p.data| - 1] + [p.data[|p.data| - 1]];
    }
  }

  /** A frame is a message of its own exactly when it starts one, or when it adds nothing to an equal unfinished one. */
  lemma DispatchedIff(out: Bytes, x: Bytes)
    requires OneLine(x) && x != []
    ensures IsDispatched(out, x) <==> AtEventStart(out) || EndsInSameData(out, x)
  {
    hide Interpret, Buffers, BrokenLine, ReadLine, Dispatch, IsDataLine, FrameLine, Line;
    var p, r := Buffers(out), BrokenLine(out);
    var q := ReadLine(p, r + FrameLine(x));
    FrameAfter(out, x);
    BuffersAreWhole(out);
    ReadKeepsWholeLines(p, r + FrameLine(x));
    DispatchedData(q, Interpret(out), x);
    GluedLine(p, r, x);
    assert p.data + x + "\n" == x + "\n" ==> |p.data| == 0;
  }

  lemma BuffersAreWhole(out: Bytes)
    ensures WholeLines(Buffers(out))
  {
    BufferHoldsWholeLines(Pending([], []), StreamLines(WithoutMark(out)));
  }

  // ---------------------------------------------------------------- a run

  lemma ErrorFrameIs(codec: Codec, message: Bytes)
    requires codec.EncodesOneLine()
    ensures var x := codec.encode(BrokenFrame(message));
            && x != [] && OneLine(x)
            && forall out: Bytes :: out + ErrorFrame(codec, message) == out + Line(FrameLine(x)) + Line([])
  {
    var x := codec.encode(BrokenFrame(message));
    assert Braced(x);
    forall out: Bytes ensures out + ErrorFrame(codec, message) == out + Line(FrameLine(x)) + Line([]) {
      assert ErrorFrame(codec, message) == Line(FrameLine(x)) + Line([]);
    }
  }

  /** The client reads the error frame as a message of its own. */
  ghost predicate IsToldOfCut(codec: Codec, out: Bytes, message: Bytes) {
    exists name: Bytes ::
      Interpret(out + ErrorFrame(codec, message))
      == Interpret(out) + [Message(name, codec.encode(BrokenFrame(message)))]
  }

  /**
   After a cut, a chat client is told exactly when the upstream stopped at the end of a line with no event begun.
   (Or when the upstream's own unfinished event says the same and the frame is lost behind it.)
   */
  lemma PlainCutIsReportedIff(codec: Codec, out: Bytes, message: Bytes)
    requires codec.EncodesOneLine()
    ensures IsToldOfCut(codec, out, message)
       <==> AtEventStart(out) || EndsInSameData(out, codec.encode(BrokenFrame(message)))
  {
    hide Interpret, AtEventStart, EndsInSameData, ErrorFrame, BrokenFrame, FrameLine, Line;
    var x := codec.encode(BrokenFrame(message));
    ErrorFrameIs(codec, message);
    DispatchedIff(out, x);
    assert out + ErrorFrame(codec, message) == out + Line(FrameLine(x)) + Line([]);
  }

  /** At the end of a line inside an event, the error becomes one more line of that event's data. */
  lemma CutInsideEvent(codec: Codec, out: Bytes, message: Bytes)
    requires codec.EncodesOneLine() && BrokenLine(out) == [] && Buffers(out).data != []
    ensures var p, x := Buffers(out), codec.encode(BrokenFrame(message));
            && Interpret(out + ErrorFrame(codec, message))
               == Interpret(out) + [Message(if p.name == [] then "message" else p.name, p.data + x)]
            && !IsToldOfCut(codec, out, message)
  {
    hide Interpret, Buffers, BrokenLine, ErrorFrame, BrokenFrame, Line, ReadLine, FrameLine;
    var p, x := Buffers(out), codec.encode(BrokenFrame(message));
    ErrorFrameIs(codec, message);
    assert out + ErrorFrame(codec, message) == out + Line(FrameLine(x)) + Line([]);
    FrameAfter(out, x);
    assert [] + FrameLine(x) == FrameLine(x);
    GluedLine(p, [], x);
    SameName(p, x);
    WholeMessage(ReadLine(p, FrameLine(x)), p.data + x);
    PlainCutIsReportedIff(codec, out, message);
    hide IsToldOfCut;
  }

  lemma WholeMessage(p: Pending, data: Bytes)
    requires p.data == data + "\n"
    ensures Dispatch(p) == [Message(if p.name == [] then "message" else p.name, data)]
  {
    assert p.data[..|p.data| - 1] == data;
  }

  lemma SameName(p: Pending, x: Bytes)
    ensures ReadLine(p, FrameLine(x)).name == p.name
  {
    var line := FrameLine(x);
    assert line == "data" + ": " + x;
    ReadNamed(p, "data", x);
    hide ReadLine;
  }

  lemma OneLineRead(line: Bytes)
    requires OneLine(line) && line != [] && line[0] == 'd'
    ensures Buffers(Line(line)) == ReadLine(Pending([], []), line)
    ensures BrokenLine(Line(line)) == [] && Interpret(Line(line)) == []
  {
    var out := Line(line);
    NextBreakUnique(out, |line|);
    FirstStreamLine(line, []);
    NoLineYet([]);
    assert out + [] == out && [line] + [] == [line] && out[|line| + 1..] == [];
    assert WithoutMark(out) == out && Rest(out) == [] && Tail(out) == Tail([]) && Tail([]) == [];
    hide StreamLines, Line, Tail, WithoutMark, ReadLine;
    NoBlankLine(Pending([], []), [line]);
    AfterOne(Pending([], []), line);
  }

  lemma AfterOne(p: Pending, line: Bytes)
    requires line != []
    ensures After(p, [line]) == ReadLine(p, line)
  {
    hide ReadLine;
    assert [line][1..] == [];
    assert After(p, [line]) == After(ReadLine(p, line), []);
  }

  /** Such a cut exists. */
  lemma CutInsideEventIsSwallowed(codec: Codec, message: Bytes)
    requires codec.EncodesOneLine()
    ensures var out: Bytes, x := "data: a\n", codec.encode(BrokenFrame(message));
            && Interpret(out + ErrorFrame(codec, message)) == [Message("message", "a\n" + x)]
            && !IsToldOfCut(codec, out, message)
  {
    hide Interpret, Buffers, BrokenLine, ErrorFrame, BrokenFrame, ReadLine, IsToldOfCut;
    var a: Bytes, line: Bytes, out: Bytes := "a", "data: a", "data: a\n";
    LineIs(line);
    assert out == Line(line) && line == "data" + ": " + a;
    OneLineRead(line);
    ReadNamed(Pending([], []), "data", a);
    hide Line;
    assert [] + a + "\n" == "a\n";
    CutInsideEvent(codec, out, message);
  }

  /**
   `RelayStream` to a chat client over a connection that never fails: nothing when unserved, the last attempt's
   output as it is when served, and that output with the error frame when it was cut.
   */
  method RelayToPlainClient(s: Scheduler, f: Format, chain: seq<Bytes>,
                            pickAt: (nat, nat) -> int, noteAt: (nat, nat) -> int, upstream: nat -> Attempt)
    returns (w: ResponseWriter, outcome: Outcome, calls: seq<Call>)
    requires chain != [] && f.kind.Plain? && f.codec.EncodesOneLine()
    modifies s`accounts
    ensures Reported(f.codec, calls, upstream)
    ensures outcome.Unserved? ==> w.body == []
    ensures !outcome.Unserved? ==>
      && calls != []
      && var out := Output(f.codec, upstream(|calls| - 1));
         && (outcome.Served? ==> w.body == out)
         && (outcome.CutShort? ==>
             && var message := outcome.err.text;
                && w.body == out + ErrorFrame(f.codec, message)
                && (IsToldOfCut(f.codec, out, message)
                    <==> AtEventStart(out) || EndsInSameData(out, f.codec.encode(BrokenFrame(message)))))
  {
    hide Output, Report, Interpret, ErrorFrame, AtEventStart, EndsInSameData, IsToldOfCut, BrokenFrame, Log, Over;
    w := new ResponseWriter(f, None, []);
    var model, attempt;
    outcome, calls, model, attempt := RelayStream(s, w, chain, pickAt, noteAt, upstream);
    if outcome.CutShort? {
      PlainCutIsReportedIff(f.codec, Output(f.codec, upstream(|calls| - 1)), outcome.err.text);
    }
  }
}
