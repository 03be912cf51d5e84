/**
 Reading an event stream the way sections 9.2.5 and 9.2.6 of the WHATWG HTML Standard say,
 and the frames the gateway prints. The reader knows nothing of the printer.
 */
module EventStream {
  import opened Bytes

  /** One dispatched event: its type and its data. */
  datatype Message = Message(name: Bytes, data: Bytes)

  // ---------------------------------------------------------------- the reader

  predicate IsBreak(c: Byte) {
    c == '\n' || c == '\r'
  }

  /** The first line break of `b`, or `|b|`. */
  function NextBreak(b: Bytes): (i: nat)
    ensures i <= |b| && (forall k :: 0 <= k < i ==> !IsBreak(b[k]))
    ensures i < |b| ==> IsBreak(b[i])
  {
    if b == [] || IsBreak(b[0]) then 0 else 1 + NextBreak(b[1..])
  }

  /** The lines of a stream, ended by CRLF, LF or CR; an unterminated last line is dropped. */
  function StreamLines(b: Bytes): seq<Bytes> {
    var i := NextBreak(b);
    if i == |b| then []
    else
      var skip := if b[i] == '\r' && i + 1 < |b| && b[i + 1] == '\n' then 2 else 1;
      [b[..i]] + StreamLines(b[i + skip..])
  }

  /** One leading byte order mark is ignored. */
  function WithoutMark(b: Bytes): Bytes {
    if |b| >= 3 && b[0] == '\U{EF}' && b[1] == '\U{BB}' && b[2] == '\U{BF}' then b[3..] else b
  }

  /** The data and event type buffers. */
  datatype Pending = Pending(data: Bytes, name: Bytes)

  function Field(p: Pending, field: Bytes, value: Bytes): Pending {
    if field == "event" then p.(name := value)
    else if field == "data" then p.(data := p.data + value + "\n")
    else p
  }

  function ReadLine(p: Pending, line: Bytes): Pending {
    var colon := IndexOf(line, ':');
    if colon == |line| then Field(p, line, [])
    else if colon == 0 then p
    else
      var value := line[colon + 1..];
      Field(p, line[..colon], if value != [] && value[0] == ' ' then value[1..] else value)
  }

  function Dispatch(p: Pending): seq<Message> {
    if p.data == [] then []
    else
      var data := if p.data[|p.data| - 1] == '\n' then p.data[..|p.data| - 1] else p.data;
      [Message(if p.name == [] then "message" else p.name, data)]
  }

  function ReadLines(p: Pending, lines: seq<Bytes>): seq<Message>
    decreases lines
  {
    if lines == [] then []
    else if lines[0] == [] then Dispatch(p) + ReadLines(Pending([], []), lines[1..])
    else ReadLines(ReadLine(p, lines[0]), lines[1..])
  }

  /** All events a client dispatches for the stream `b`. */
  function Interpret(b: Bytes): seq<Message> {
    ReadLines(Pending([], []), StreamLines(WithoutMark(b)))
  }

  // ---------------------------------------------------------------- the printer

  /** The frame `writeAnthropicEvent` and `writeResponsesEvent` write. */
  function Frame(m: Message): Bytes {
    Line("event: " + m.name) + Line("data: " + m.data) + Line([])
  }

  function Line(b: Bytes): Bytes {
    b + "\n"
  }

  function Frames(ms: seq<Message>): Bytes {
    if ms == [] then [] else Frame(ms[0]) + Frames(ms[1..])
  }

  predicate OneLine(b: Bytes) {
    forall i :: 0 <= i < |b| ==> !IsBreak(b[i])
  }

  predicate Printable(m: Message) {
    m.name != [] && OneLine(m.name) && OneLine(m.data)
  }

  lemma FramesOfRest(ms: seq<Message>, more: seq<Message>)
    requires ms != []
    ensures Frames(ms + more) == Frame(ms[0]) + Frames(ms[1..] + more)
  {
    hide Frame;
    assert (ms + more)[1..] == ms[1..] + more;
  }

  lemma {:induction false} FramesOfConcat(a: seq<Message>, b: seq<Message>)
    ensures Frames(a + b) == Frames(a) + Frames(b)
  {
    hide Frame;
    if a == [] {
      assert a + b == b && [] + Frames(b) == Frames(b);
    } else {
      var first, rest, last := Frame(a[0]), Frames(a[1..]), Frames(b);
      FramesOfConcat(a[1..], b);
      FramesOfRest(a, b);
      assert Frames(a) == first + rest;
      hide Frames;
      assert first + (rest + last) == first + rest + last;
    }
  }

  // ---------------------------------------------------------------- round trip

  lemma NextBreakUnique(b: Bytes, i: nat)
    requires i < |b| && IsBreak(b[i]) && forall k :: 0 <= k < i ==> !IsBreak(b[k])
    ensures NextBreak(b) == i
  {
  }

  lemma FirstStreamLine(line: Bytes, rest: Bytes)
    requires OneLine(line)
    ensures StreamLines(Line(line) + rest) == [line] + StreamLines(rest)
  {
    var b := Line(line) + rest;
    NextBreakUnique(b, |line|);
    assert b[..|line|] == line && b[|line| + 1..] == rest;
  }

  lemma ThreeLines(a: Bytes, b: Bytes, c: Bytes, rest: Bytes)
    requires OneLine(a) && OneLine(b) && OneLine(c)
    ensures StreamLines(Line(a) + Line(b) + Line(c) + rest) == [a, b, c] + StreamLines(rest)
  {
    hide Line, StreamLines;
    var t1 := Line(c) + rest;
    var t2 := Line(b) + t1;
    FirstStreamLine(c, rest);
    FirstStreamLine(b, t1);
    FirstStreamLine(a, t2);
    assert Line(a) + Line(b) + Line(c) + rest == Line(a) + t2;
  }

  lemma ReadNamed(p: Pending, field: Bytes, value: Bytes)
    requires field != [] && ':' !in field
    ensures ReadLine(p, field + ": " + value) == Field(p, field, value)
  {
    hide IndexOf, Field;
    var line := field + ": " + value;
    IndexOfUnique(line, ':', |field|);
    var spaced := " " + value;
    assert line[..|field|] == field && line[|field| + 1..] == spaced;
    assert spaced[1..] == value;
  }

  /** The three lines of one frame dispatch its message and leave both buffers empty. */
  lemma ReadFrame(m: Message, rest: seq<Bytes>)
    requires m.name != []
    ensures ReadLines(Pending([], []), ["event: " + m.name, "data: " + m.data, []] + rest)
         == [m] + ReadLines(Pending([], []), rest)
  {
    hide ReadLines, ReadLine;
    var none, named, full := Pending([], []), Pending([], m.name), Pending(m.data + "\n", m.name);
    var event: Bytes, data: Bytes := "event: " + m.name, "data: " + m.data;
    assert "event" + ": " + m.name == event && "data" + ": " + m.data == data;
    ReadNamed(none, "event", m.name);
    ReadNamed(named, "data", m.data);
    var afterEvent: seq<Bytes>, afterData: seq<Bytes> := [data, []] + rest, [[]] + rest;
    ReadCons(none, event, afterEvent);
    ReadCons(named, data, afterData);
    ReadBlank(full, rest);
    assert [event, data, []] + rest == [event] + afterEvent;
    assert afterEvent == [data] + afterData;
    assert named.data + m.data + "\n" == full.data;
    assert Dispatch(full) == [m];
  }

  lemma ReadCons(p: Pending, line: Bytes, rest: seq<Bytes>)
    requires line != []
    ensures ReadLines(p, [line] + rest) == ReadLines(ReadLine(p, line), rest)
  {
    assert ([line] + rest)[1..] == rest;
  }

  lemma ReadBlank(p: Pending, rest: seq<Bytes>)
    ensures ReadLines(p, [[]] + rest) == Dispatch(p) + ReadLines(Pending([], []), rest)
  {
    var lines := [[]] + rest;
    assert lines[1..] == rest;
  }

  lemma ReadNothing()
    ensures ReadLines(Pending([], []), StreamLines([])) == []
  {
  }

  lemma {:induction false} ReadFrames(ms: seq<Message>)
    requires forall i :: 0 <= i < |ms| ==> Printable(ms[i])
    ensures ReadLines(Pending([], []), StreamLines(Frames(ms))) == ms
  {
    hide ReadLines, StreamLines, Frame;
    if ms == [] {
      ReadNothing();
    } else {
      ReadFrames(ms[1..]);
      FrameThenRest(ms[0], Frames(ms[1..]));
    }
  }

  /** A conforming client reads back exactly the events that were printed, whatever they are. */
  lemma RoundTrip(ms: seq<Message>)
    requires forall i :: 0 <= i < |ms| ==> Printable(ms[i])
    ensures Interpret(Frames(ms)) == ms
  {
    hide ReadLines, StreamLines, Frames, Printable, WithoutMark;
    ReadFrames(ms);
    StartsWithE(ms);
    NoMark(Frames(ms));
  }

  lemma NoMark(b: Bytes)
    requires b == [] || b[0] == 'e'
    ensures WithoutMark(b) == b
  {
  }

  lemma StartsWithE(ms: seq<Message>)
    ensures ms != [] ==> Frames(ms) != [] && Frames(ms)[0] == 'e'
    ensures ms == [] ==> Frames(ms) == []
  {
  }

  // ---------------------------------------------------------------- a stream cut short

  /** Without a blank line nothing is dispatched. */
  lemma {:induction false} NoBlankLine(p: Pending, lines: seq<Bytes>)
    requires forall i :: 0 <= i < |lines| ==> lines[i] != []
    ensures ReadLines(p, lines) == []
    decreases lines
  {
    hide ReadLine;
    if lines != [] {
      NoBlankLine(ReadLine(p, lines[0]), lines[1..]);
    }
  }

  lemma NoLineYet(part: Bytes)
    requires OneLine(part)
    ensures StreamLines(part) == []
  {
  }

  /** A frame cut short dispatches nothing. */
  lemma PartOfFrame(m: Message, part: Bytes)
    requires Printable(m) && part < Frame(m)
    ensures ReadLines(Pending([], []), StreamLines(part)) == []
  {
    hide ReadLines, StreamLines, Line;
    var a: Bytes, b: Bytes, none: Bytes := "event: " + m.name, "data: " + m.data, [];
    LineIs(a);
    LineIs(b);
    LineIs(none);
    assert Frame(m) == Line(a) + (Line(b) + Line(none));
    if |part| < |Line(a)| {
      assert part <= a;
      NoLineYet(part);
      NoBlankLine(Pending([], []), []);
    } else {
      var rest := part[|Line(a)|..];
      assert part == Line(a) + rest && rest < Line(b) + Line(none);
      FirstStreamLine(a, rest);
      if |rest| < |Line(b)| {
        assert rest <= b;
        NoLineYet(rest);
        NoBlankLine(Pending([], []), [a]);
        assert [a] + [] == [a];
      } else {
        assert rest == Line(b) + [];
        FirstStreamLine(b, []);
        NoLineYet([]);
        NoBlankLine(Pending([], []), [a, b]);
        assert [a] + ([b] + []) == [a, b];
      }
    }
  }

  lemma LineIs(b: Bytes)
    ensures Line(b) == b + "\n"
  {
  }

  lemma {:induction false} PartOfFrames(ms: seq<Message>, part: Bytes)
    requires forall i :: 0 <= i < |ms| ==> Printable(ms[i])
    requires part <= Frames(ms)
    ensures ReadLines(Pending([], []), StreamLines(part)) <= ms
  {
    hide ReadLines, StreamLines, Line, Frame;
    if ms == [] {
      ReadNothing();
    } else if |part| < |Frame(ms[0])| {
      assert part < Frame(ms[0]);
      PartOfFrame(ms[0], part);
    } else {
      var m, rest := ms[0], part[|Frame(ms[0])|..];
      assert part == Frame(m) + rest && rest <= Frames(ms[1..]);
      PartOfFrames(ms[1..], rest);
      FrameThenRest(m, rest);
    }
  }

  lemma FrameThenRest(m: Message, rest: Bytes)
    requires Printable(m)
    ensures ReadLines(Pending([], []), StreamLines(Frame(m) + rest))
         == [m] + ReadLines(Pending([], []), StreamLines(rest))
  {
    hide ReadLines, StreamLines, Line;
    ThreeLines("event: " + m.name, "data: " + m.data, [], rest);
    ReadFrame(m, StreamLines(rest));
  }

  /**
   A client that got only the front of the printed events dispatches the front of their sequence, and nothing else.
   */
  lemma CutStreamIsPrefix(ms: seq<Message>, part: Bytes)
    requires forall i :: 0 <= i < |ms| ==> Printable(ms[i])
    requires part <= Frames(ms)
    ensures Interpret(part) <= ms
  {
    hide ReadLines, StreamLines, Frames, Printable, WithoutMark;
    PartOfFrames(ms, part);
    StartsWithE(ms);
    NoMark(part);
  }
}
