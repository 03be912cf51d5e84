/** The response writer the relay streams into: a client connection, with the translator in front of it or not. */
module ResponseWriters {
  import opened Wrappers
  import opened Bytes
  import opened Codec
  import opened EventStream
  import opened Protocol
  import opened ProtocolTrace

  class ResponseWriter {
    const f: Format
    /** How many bytes the connection still takes before it fails for good; None for one that never fails. */
    var room: Option<nat>
    /** The text of the error its failing writes return. */
    const failure: Bytes
    /** What the client has received. */
    var body: Bytes
    var buf: Bytes
    var started: bool
    var closed: bool
    var textLen: nat
    /** The events printed so far. */
    ghost var events: seq<Event>

    ghost function View(): Session
      reads this
    {
      Session(buf, Translator(started, closed, textLen, events, body))
    }

    constructor (f: Format, room: Option<nat>, failure: Bytes)
      ensures this.f == f && this.room == room && this.failure == failure && View() == FRESH
    {
      this.f := f;
      this.room := room;
      this.failure := failure;
      body, buf, started, closed, textLen := [], [], false, false, 0;
      events := [];
    }

    /** One write on the client's connection. */
    method Send(b: Bytes) returns (n: nat, ok: bool)
      modifies this`body, this`room
      ensures n <= |b| && body == old(body) + b[..n]
      ensures ok <==> n == |b|
      ensures !ok ==> room == Some(0)
      ensures old(room).None? ==> ok && room.None?
      ensures old(room) == Some(0) ==> room == Some(0) && body == old(body)
      ensures old(room).Some? ==> room == Some(old(room).value - n)
    {
      n := match room case None => |b| case Some(left) => if |b| <= left then |b| else left;
      room := match room case None => None case Some(left) => Some(left - n);
      body := body + b[..n];
      ok := n == |b|;
    }

    /** `writeAnthropicEvent` and `writeResponsesEvent`. */
    method WriteEvent(e: Event) returns (ok: bool)
      modifies this`body, this`room, this`events
      ensures ok ==> View().t == Emit(f, old(View()).t, [e])
      ensures !ok ==> room == Some(0) && old(body) <= body < old(body) + Print(f.codec, [e])
      ensures old(room).None? ==> ok && room.None?
      ensures old(room) == Some(0) ==> room == Some(0) && body == old(body)
    {
      var frame := Frame(EventMessage(f.codec, e));
      assert Print(f.codec, [e]) == frame by { PrintOne(f.codec, e); }
      var n: nat;
      n, ok := Send(frame);
      events := events + [e];
      assert frame[..|frame|] == frame;
    }

    method EnsureStarted() returns (ok: bool)
      modifies this`body, this`room, this`events, this`started
      ensures started
      ensures ok ==> View().t == Emit(f, old(View()).t.(started := true), if old(started) then [] else Opening(f))
      ensures !ok ==>
        room == Some(0) && old(body) <= body < old(body) + Print(f.codec, if old(started) then [] else Opening(f))
      ensures old(room).None? ==> ok && room.None?
      ensures old(room) == Some(0) ==> room == Some(0) && body == old(body)
    {
      ok := true;
      if started {
        EmitNothing(f, View().t);
        return;
      }
      started := true;
      ghost var t := View().t;
      match f.kind {
        case Plain =>
          EmitNothing(f, t);
        case Anthropic =>
          EmitMore(f, t, [MessageStart(f.model)], [BlockStart]);
          assert [MessageStart(f.model)] + [BlockStart] == Opening(f);
          ok := WriteEvent(MessageStart(f.model));
          if ok {
            ok := WriteEvent(BlockStart);
          }
        case Responses =>
          ok := WriteEvent(Created(f.model));
      }
    }

    method WriteDelta(content: Bytes) returns (ok: bool)
      modifies this`body, this`room, this`events, this`started, this`textLen
      ensures var ideal := Translate(f, old(View()).t.(closed := false), Delta(content));
              && (ok ==> View().t == ideal.(closed := closed))
              && (!ok ==> room == Some(0) && old(body) <= body < ideal.body)
      ensures old(room).None? ==> ok && room.None?
      ensures old(room) == Some(0) ==> room == Some(0) && body == old(body)
    {
      hide Print, Opening;
      ghost var t := View().t.(started := true);
      ghost var opening := if started then [] else Opening(f);
      EmitMore(f, t, opening, DeltaEvent(f, content));
      ok := EnsureStarted();
      if ok {
        textLen := textLen + |content|;
        ok := WriteDeltaEvent(content);
      }
    }

    method WriteDeltaEvent(content: Bytes) returns (ok: bool)
      modifies this`body, this`room, this`events
      ensures var ideal := Emit(f, old(View()).t, DeltaEvent(f, content));
              && (ok ==> View().t == ideal)
              && (!ok ==> room == Some(0) && old(body) <= body < ideal.body)
      ensures old(room).None? ==> ok && room.None?
      ensures old(room) == Some(0) ==> room == Some(0) && body == old(body)
    {
      ok := true;
      match f.kind {
        case Plain =>
          EmitNothing(f, View().t);
        case Anthropic =>
          ok := WriteEvent(BlockDelta(content));
        case Responses =>
          ok := WriteEvent(TextDelta(content));
      }
    }

    /** The three events that complete an Anthropic message. */
    method WriteMessageEnd() returns (ok: bool)
      modifies this`body, this`room, this`events
      ensures var ideal := Emit(f, old(View()).t, [BlockStop, MessageDelta(textLen), MessageStop]);
              && (ok ==> View().t == ideal)
              && (!ok ==> room == Some(0) && old(body) <= body < ideal.body)
      ensures old(room).None? ==> ok && room.None?
      ensures old(room) == Some(0) ==> room == Some(0) && body == old(body)
    {
      hide Print;
      ghost var t := View().t;
      EmitMore(f, t, [BlockStop], [MessageDelta(textLen)]);
      EmitMore(f, t, [BlockStop] + [MessageDelta(textLen)], [MessageStop]);
      assert [BlockStop] + [MessageDelta(textLen)] + [MessageStop] == [BlockStop, MessageDelta(textLen), MessageStop];
      ok := WriteEvent(BlockStop);
      if ok {
        ok := WriteEvent(MessageDelta(textLen));
      }
      if ok {
        ok := WriteEvent(MessageStop);
      }
    }

    method WriteDone() returns (ok: bool)
      modifies this`body, this`room, this`events, this`started, this`closed
      ensures var ideal := Translate(f, old(View()).t, Done);
              && (ok ==> View().t == ideal)
              && (!ok ==> room == Some(0) && old(body) <= body < ideal.body)
      ensures old(room).None? ==> ok && room.None?
      ensures old(room) == Some(0) ==> room == Some(0) && body == old(body)
    {
      ok := true;
      if closed {
        return;
      }
      hide Print, Opening;
      ghost var t := View().t.(started := true);
      ghost var opening := if started then [] else Opening(f);
      EmitMore(f, t, opening, Completion(f, textLen));
      ok := EnsureStarted();
      if ok {
        closed := true;
        ok := WriteCompletion();
      }
    }

    method WriteCompletion() returns (ok: bool)
      modifies this`body, this`room, this`events
      ensures var ideal := Emit(f, old(View()).t, Completion(f, textLen));
              && (ok ==> View().t == ideal)
              && (!ok ==> room == Some(0) && old(body) <= body < ideal.body)
      ensures old(room).None? ==> ok && room.None?
      ensures old(room) == Some(0) ==> room == Some(0) && body == old(body)
    {
      match f.kind {
        case Plain =>
          ok := true;
          EmitNothing(f, View().t);
        case Anthropic =>
          ok := WriteMessageEnd();
        case Responses =>
          ok := WriteEvent(Completed(f.model, textLen));
      }
    }

    method WriteBroken(errObj: Object) returns (ok: bool)
      requires !f.kind.Plain? && !closed
      modifies this`body, this`room, this`events, this`started, this`closed
      ensures var ideal := Translate(f, old(View()).t, BrokenAction(errObj));
              && (ok ==> View().t == ideal)
              && (!ok ==> room == Some(0) && old(body) <= body < ideal.body)
      ensures old(room).None? ==> ok && room.None?
      ensures old(room) == Some(0) ==> room == Some(0) && body == old(body)
    {
      hide Print;
      started := true;
      closed := true;
      var message, errType := StringField(errObj, "message"), StringField(errObj, "type");
      if errType == "" {
        errType := "stream_broken";
      }
      ok := WriteEvent(Failure(errType, message));
    }

    method HandleLine(line: Bytes) returns (ok: bool)
      requires !f.kind.Plain?
      modifies this`body, this`room, this`events, this`started, this`closed, this`textLen
      ensures var ideal := Translate(f, old(View()).t, Classify(f.codec, line));
              && (ok ==> View().t == ideal)
              && (!ok ==> room == Some(0) && old(body) <= body < ideal.body)
      ensures old(room).None? ==> ok && room.None?
      ensures old(room) == Some(0) ==> room == Some(0) && body == old(body)
    {
      ok := true;
      if line == "" || closed {
        return;
      }
      if !("data:" <= line) {
        return;
      }
      var data := TrimSpace(line[5..]);
      if data == "[DONE]" {
        ok := WriteDone();
        return;
      }
      if data == "" {
        return;
      }
      var frame := f.codec.decode(data);
      if frame.None? {
        return;
      }
      if "error" in frame.value && frame.value["error"].JObject? {
        ok := WriteBroken(frame.value["error"].fields);
        return;
      }
      var content := DeltaContent(frame.value);
      if content == "" {
        return;
      }
      ok := WriteDelta(content);
    }

    /** `w.Write(b)`: straight through when plain, else through the line buffer. */
    method Write(b: Bytes) returns (n: nat, ok: bool)
      modifies this
      ensures n <= |b| && (!f.kind.Plain? ==> n == |b|)
      ensures f.kind.Plain? && old(room).Some? ==> room == Some(old(room).value - n)
      ensures f.kind.Plain? ==>
        (ok <==> n == |b|) && View() == old(View()).(t := old(View()).t.(body := old(body) + b[..n]))
      ensures '\n' !in old(buf) && ok ==> View() == Feed(f, old(View()), b)
      ensures '\n' !in old(buf) && !ok ==> body < Feed(f, old(View()), b).t.body
      ensures !ok ==> room == Some(0)
      ensures old(body) <= body
      ensures old(room).None? ==> ok && room.None?
      ensures old(room) == Some(0) ==> room == Some(0) && body == old(body)
    {
      if f.kind.Plain? {
        n, ok := Send(b);
        assert b[..|b|] == b;
        return;
      }
      n, ok := |b|, true;
      ghost var before := View();
      if b == [] {
        if '\n' !in buf { FeedNothing(f, before); }
        return;
      }
      buf := buf + b;
      assert buf + [] == before.buf + b;
      ok := DrainLines();
    }

    /** The loop of `Write`: handles the buffered lines one by one until none is complete. */
    method DrainLines() returns (ok: bool)
      requires !f.kind.Plain?
      modifies this
      ensures var ideal := Feed(f, old(View()), []);
              && (ok ==> View() == ideal)
              && (!ok ==> room == Some(0) && body < ideal.t.body)
      ensures old(body) <= body
      ensures old(room).None? ==> ok && room.None?
      ensures old(room) == Some(0) ==> room == Some(0) && body == old(body)
    {
      hide Feed, Translate;
      ok := true;
      ghost var target := Feed(f, View(), []);
      while true
        invariant target == Feed(f, View(), [])
        invariant old(body) <= body
        invariant old(room).None? ==> room.None?
        invariant old(room) == Some(0) ==> room == Some(0) && body == old(body)
        decreases |buf|
      {
        var idx := IndexOf(buf, '\n');
        if idx == |buf| {
          FeedNothing(f, View());
          break;
        }
        var line, rest := buf[..idx], buf[idx + 1..];
        assert buf == line + "\n" + rest;
        OneLineFed(f, View(), line, rest);
        buf := rest;
        ok := HandleLine(TrimRight(line, "\r"));
        if !ok {
          return;
        }
      }
    }
  }

  /** Handling the first buffered line and then the rest is handling the buffer. */
  lemma OneLineFed(f: Format, s: Session, line: Bytes, rest: Bytes)
    requires !f.kind.Plain? && '\n' !in line && s.buf == line + "\n" + rest
    ensures var t := Translate(f, s.t, LineAction(f.codec, line));
            && Feed(f, s, []) == Feed(f, Session(rest, t), [])
            && s.t.body <= t.body <= Feed(f, s, []).t.body
  {
    hide Translate, LineAction, CompleteLines, Residue;
    var lines := CompleteLines(rest);
    LineThenRest(line, rest);
    assert s.buf + [] == s.buf && rest + [] == rest;
    var first := [LineAction(f.codec, line)];
    LineActionsConcat(f.codec, [line], lines);
    assert LineActions(f.codec, [line]) == first;
    TranslateAllConcat(f, s.t, first, LineActions(f.codec, lines));
    assert first[..0] == [];
    var t := Translate(f, s.t, first[0]);
    assert TranslateAll(f, s.t, first) == Translate(f, TranslateAll(f, s.t, []), first[0]);
    BodyGrows(f, s.t, first);
    BodyGrows(f, t, LineActions(f.codec, lines));
  }

  lemma {:induction false} BodyGrows(f: Format, t: Translator, actions: seq<Action>)
    ensures t.body <= TranslateAll(f, t, actions).body
  {
    if actions != [] {
      BodyGrows(f, t, actions[..|actions| - 1]);
    }
  }

  lemma PrintOne(codec: Codec, e: Event)
    ensures Print(codec, [e]) == Frame(EventMessage(codec, e))
  {
    hide Frame, EventMessage;
    var m := EventMessage(codec, e);
    assert EventMessages(codec, [e]) == [m];
    assert Frames([m]) == Frame(m) + Frames([]);
  }

  lemma EmitNothing(f: Format, t: Translator)
    ensures Emit(f, t, []) == t
  {
    assert Print(f.codec, []) == [];
  }

  /** Printing in two steps, and what a client gets when the second is cut short. */
  lemma EmitMore(f: Format, t: Translator, a: seq<Event>, b: seq<Event>)
    ensures Emit(f, Emit(f, t, a), b) == Emit(f, t, a + b)
    ensures t.body <= Emit(f, t, a).body <= Emit(f, t, a + b).body
  {
    hide Print;
    PrintOfConcat(f.codec, a, b);
    assert t.events + a + b == t.events + (a + b);
    assert t.body + Print(f.codec, a) + Print(f.codec, b) == t.body + (Print(f.codec, a) + Print(f.codec, b));
  }
}
