/** What a whole translated stream looks like, in one closed form, and the grammar that follows from it. */
module ProtocolTrace {
  import opened Bytes
  import opened Codec
  import opened EventStream
  import opened Protocol

  /** The index of the first `[DONE]` or error line, or the number of lines. */
  function FirstTerminal(actions: seq<Action>): (k: nat)
    ensures k <= |actions|
    ensures forall i :: 0 <= i < k ==> !Terminal(actions[i])
    ensures k < |actions| ==> Terminal(actions[k])
  {
    if actions == [] then 0
    else
      var k := FirstTerminal(actions[..|actions| - 1]);
      if k < |actions| - 1 || Terminal(actions[|actions| - 1]) then k else |actions|
  }

  /** The texts of the content lines, in order. */
  function Texts(actions: seq<Action>): seq<Bytes> {
    if actions == [] then []
    else
      var last := actions[|actions| - 1];
      Texts(actions[..|actions| - 1]) + if last.Delta? then [last.text] else []
  }

  datatype Ending = Open | Finished | Cut(errType: Bytes, message: Bytes)

  /** The content that counts: everything before the first terminal line. */
  function SessionTexts(actions: seq<Action>): seq<Bytes> {
    Texts(actions[..FirstTerminal(actions)])
  }

  function EndingOf(a: Action): Ending {
    match a
    case Done => Finished
    case Broken(errType, message) => Cut(errType, message)
    case _ => Open
  }

  function SessionEnding(actions: seq<Action>): Ending {
    var k := FirstTerminal(actions);
    if k == |actions| then Open else EndingOf(actions[k])
  }

  function TextLength(texts: seq<Bytes>): nat {
    if texts == [] then 0 else TextLength(texts[..|texts| - 1]) + |texts[|texts| - 1]|
  }

  function DeltaEvents(f: Format, texts: seq<Bytes>): seq<Event> {
    if texts == [] then [] else DeltaEvents(f, texts[..|texts| - 1]) + DeltaEvent(f, texts[|texts| - 1])
  }

  function EndEvents(f: Format, textLen: nat, ending: Ending): seq<Event> {
    match ending
    case Open => []
    case Finished => Completion(f, textLen)
    case Cut(errType, message) => [Failure(errType, message)]
  }

  /** The one possible event sequence for these texts and this ending. */
  function Script(f: Format, texts: seq<Bytes>, ending: Ending): seq<Event> {
    (if texts == [] && !ending.Finished? then [] else Opening(f))
    + DeltaEvents(f, texts)
    + EndEvents(f, TextLength(texts), ending)
  }

  // ---------------------------------------------------------------- the closed form

  /** A line after a terminal one changes nothing; one on an open session counts. */
  lemma SessionOfLast(front: seq<Action>, last: Action)
    ensures var all := front + [last];
            if SessionEnding(front).Open?
            then && SessionEnding(all) == EndingOf(last)
                 && SessionTexts(all) == SessionTexts(front) + (if last.Delta? then [last.text] else [])
            else SessionEnding(all) == SessionEnding(front) && SessionTexts(all) == SessionTexts(front)
  {
    var all := front + [last];
    assert all[..|front|] == front && all[..|all|] == all;
    var k := FirstTerminal(front);
    assert front[..|front|] == front && all[..k] == front[..k];
    assert k == |front| ==> Texts(all) == Texts(front) + (if last.Delta? then [last.text] else []);
  }

  lemma {:induction false} TraceOfActions(f: Format, actions: seq<Action>)
    ensures var t := TranslateAll(f, FRESH.t, actions);
            var texts, ending := SessionTexts(actions), SessionEnding(actions);
            && t.events == Script(f, texts, ending)
            && t.textLen == TextLength(texts)
            && t.started == (texts != [] || !ending.Open?)
            && t.closed == !ending.Open?
  {
    if actions != [] {
      var front, last := actions[..|actions| - 1], actions[|actions| - 1];
      TraceOfActions(f, front);
      assert actions == front + [last];
      SessionOfLast(front, last);
      ScriptStep(f, SessionTexts(front), last);
      hide SessionTexts, SessionEnding, Script, TextLength;
    }
  }

  /** One more line on an open session. */
  lemma ScriptStep(f: Format, texts: seq<Bytes>, last: Action)
    ensures var more := texts + (if last.Delta? then [last.text] else []);
            var opening := if texts != [] then [] else Opening(f);
            && TextLength(more) == TextLength(texts) + (if last.Delta? then |last.text| else 0)
            && Script(f, more, EndingOf(last)) == Script(f, texts, Open) +
               (match last
                case Ignore => []
                case Delta(text) => opening + DeltaEvent(f, text)
                case Done => opening + Completion(f, TextLength(texts))
                case Broken(e, m) => [Failure(e, m)])
  {
    var more := texts + (if last.Delta? then [last.text] else []);
    if last.Delta? {
      assert more[..|more| - 1] == texts;
    } else {
      assert more == texts;
    }
  }

  lemma PrintOfConcat(codec: Codec, a: seq<Event>, b: seq<Event>)
    ensures Print(codec, a + b) == Print(codec, a) + Print(codec, b)
  {
    hide EventMessage, Frames;
    FramesOfConcat(EventMessages(codec, a), EventMessages(codec, b));
    assert EventMessages(codec, a + b) == EventMessages(codec, a) + EventMessages(codec, b);
  }

  lemma EmitIsPrinted(f: Format, t: Translator, a: Action)
    requires t.body == Print(f.codec, t.events)
    ensures var r := Translate(f, t, a); r.body == Print(f.codec, r.events)
  {
    hide Print;
    if !t.closed && !a.Ignore? {
      var opening := if t.started then [] else Opening(f);
      var es := match a
        case Delta(text) => opening + DeltaEvent(f, text)
        case Done => opening + Completion(f, t.textLen)
        case Broken(errType, message) => [Failure(errType, message)];
      PrintOfConcat(f.codec, t.events, es);
    }
  }

  /** The client's bytes are exactly the printed events. */
  lemma {:induction false} BodyIsPrinted(f: Format, actions: seq<Action>)
    ensures var r := TranslateAll(f, FRESH.t, actions); r.body == Print(f.codec, r.events)
  {
    hide Translate;
    if actions == [] {
      assert Print(f.codec, []) == [];
    } else {
      BodyIsPrinted(f, actions[..|actions| - 1]);
      EmitIsPrinted(f, TranslateAll(f, FRESH.t, actions[..|actions| - 1]), actions[|actions| - 1]);
    }
  }

  // ---------------------------------------------------------------- what a client receives

  /** The lines of a whole stream, as actions. */
  function StreamActions(f: Format, stream: Bytes): seq<Action> {
    LineActions(f.codec, CompleteLines(stream))
  }

  /**
   However the stream is cut into writes, a conforming client dispatches exactly the scripted events:
   the content before the first terminal line, and then what that line says.
   */
  lemma ClientReads(f: Format, chunks: seq<Bytes>)
    requires !f.kind.Plain? && f.codec.EncodesOneLine()
    ensures var actions := StreamActions(f, Concat(chunks));
            var s := FeedAll(f, FRESH, chunks);
            && s.t.events == Script(f, SessionTexts(actions), SessionEnding(actions))
            && Interpret(s.t.body) == EventMessages(f.codec, s.t.events)
  {
    hide Interpret, EventName, Payload, Script, SessionTexts, SessionEnding, LineAction;
    var stream := Concat(chunks);
    ChunkingInvariance(f, FRESH, chunks);
    assert FRESH.buf + stream == stream;
    TraceOfActions(f, StreamActions(f, stream));
    BodyIsPrinted(f, StreamActions(f, stream));
    var es := FeedAll(f, FRESH, chunks).t.events;
    RoundTrip(EventMessages(f.codec, es));
  }

  // ---------------------------------------------------------------- the grammar

  predicate AllDeltas(f: Format, es: seq<Event>) {
    forall i :: 0 <= i < |es| ==> if f.kind.Anthropic? then es[i].BlockDelta? else es[i].TextDelta?
  }

  /** The content a client assembles from the delta events. */
  function AssembledText(es: seq<Event>): Bytes {
    if es == [] then []
    else
      var last := es[|es| - 1];
      AssembledText(es[..|es| - 1]) + if last.BlockDelta? || last.TextDelta? then last.text else []
  }

  lemma {:induction false} DeltasAreDeltas(f: Format, texts: seq<Bytes>)
    requires !f.kind.Plain?
    ensures AllDeltas(f, DeltaEvents(f, texts)) && |DeltaEvents(f, texts)| == |texts|
  {
    if texts != [] {
      DeltasAreDeltas(f, texts[..|texts| - 1]);
    }
  }

  /** The deltas carry the texts, joined, and their length is the length reported. */
  lemma {:induction false} DeltasAssemble(f: Format, texts: seq<Bytes>)
    requires !f.kind.Plain?
    ensures AssembledText(DeltaEvents(f, texts)) == Concat(texts) && |Concat(texts)| == TextLength(texts)
  {
    if texts != [] {
      var front, last := texts[..|texts| - 1], texts[|texts| - 1];
      DeltasAssemble(f, front);
      ConcatLast(front, last);
      assert texts == front + [last];
      AssembleLast(DeltaEvents(f, front), DeltaEvent(f, last)[0]);
      hide Concat, AssembledText;
      assert DeltaEvent(f, last) == [DeltaEvent(f, last)[0]];
    }
  }

  lemma AssembleLast(es: seq<Event>, e: Event)
    ensures AssembledText(es + [e]) == AssembledText(es) + (if e.BlockDelta? || e.TextDelta? then e.text else [])
  {
    assert (es + [e])[..|es|] == es;
  }

  lemma {:induction false} ConcatLast(front: seq<Bytes>, last: Bytes)
    ensures Concat(front + [last]) == Concat(front) + last
  {
    if front == [] {
    } else {
      ConcatLast(front[1..], last);
      assert (front + [last])[1..] == front[1..] + [last];
    }
  }

  /** A message whose deltas are `ds`: still open, cut by one error, or complete with the length of its text. */
  predicate OneMessage(f: Format, ds: seq<Event>, es: seq<Event>) {
    var n := |AssembledText(ds)|;
    var shown := (if f.kind.Responses? then [Created(f.model)] else [MessageStart(f.model), BlockStart]) + ds;
    && AllDeltas(f, ds)
    && (|| (ds != [] && es == shown)
        || (ds != [] && |es| == |shown| + 1 && es[..|shown|] == shown && es[|shown|].Failure?)
        || es == shown + if f.kind.Responses? then [Completed(f.model, n)]
                         else [BlockStop, MessageDelta(n), MessageStop])
  }

  /** All a client can ever see: nothing, a lone error, or one message. */
  ghost predicate Grammar(f: Format, es: seq<Event>) {
    es == [] || (|es| == 1 && es[0].Failure?) || exists ds: seq<Event> :: OneMessage(f, ds, es)
  }

  lemma ScriptGrammar(f: Format, texts: seq<Bytes>, ending: Ending)
    requires !f.kind.Plain?
    ensures Grammar(f, Script(f, texts, ending))
  {
    DeltasAreDeltas(f, texts);
    DeltasAssemble(f, texts);
    var ds, n, es := DeltaEvents(f, texts), TextLength(texts), Script(f, texts, ending);
    hide DeltaEvents, AssembledText, TextLength, Concat, AllDeltas;
    if texts != [] || ending.Finished? {
      assert es == Opening(f) + ds + EndEvents(f, n, ending);
      assert OneMessage(f, ds, es);
    } else {
      assert ds == [];
    }
  }

  lemma {:induction false} AssembledOfConcat(a: seq<Event>, b: seq<Event>)
    ensures AssembledText(a + b) == AssembledText(a) + AssembledText(b)
  {
    if b == [] {
      assert a + b == a;
    } else {
      var front := b[..|b| - 1];
      AssembledOfConcat(a, front);
      assert (a + b)[..|a + b| - 1] == a + front;
    }
  }

  lemma {:induction false} NoTextWithoutDeltas(es: seq<Event>)
    requires Textless(es)
    ensures AssembledText(es) == []
  {
    if es != [] {
      NoTextWithoutDeltas(es[..|es| - 1]);
    }
  }

  predicate Textless(es: seq<Event>) {
    forall i :: 0 <= i < |es| ==> !es[i].BlockDelta? && !es[i].TextDelta?
  }

  lemma FrameCarriesNoText(head: seq<Event>, ds: seq<Event>, end: seq<Event>)
    requires Textless(head) && Textless(end)
    ensures AssembledText(head + ds + end) == AssembledText(ds)
  {
    hide AssembledText;
    NoTextWithoutDeltas(head);
    NoTextWithoutDeltas(end);
    AssembledOfConcat(head, ds);
    AssembledOfConcat(head + ds, end);
  }

  /** No content is lost or invented: the client assembles exactly the texts of the script. */
  lemma TextConserved(f: Format, texts: seq<Bytes>, ending: Ending)
    requires !f.kind.Plain?
    ensures AssembledText(Script(f, texts, ending)) == Concat(texts)
  {
    var head := if texts == [] && !ending.Finished? then [] else Opening(f);
    FrameCarriesNoText(head, DeltaEvents(f, texts), EndEvents(f, TextLength(texts), ending));
    DeltasAssemble(f, texts);
    hide Concat, DeltaEvents, TextLength, AssembledText, EndEvents;
  }

  /** Once a terminal event is out, nothing more ever reaches the client. */
  lemma {:induction false} ClosedIsFinal(f: Format, t: Translator, actions: seq<Action>)
    requires t.closed
    ensures TranslateAll(f, t, actions) == t
  {
    if actions != [] {
      ClosedIsFinal(f, t, actions[..|actions| - 1]);
    }
  }

  /** Every translated stream, cut into writes anyhow, follows the grammar and conserves the content. */
  lemma StreamGrammar(f: Format, chunks: seq<Bytes>)
    requires !f.kind.Plain?
    ensures var es := FeedAll(f, FRESH, chunks).t.events;
            && Grammar(f, es)
            && AssembledText(es) == Concat(SessionTexts(StreamActions(f, Concat(chunks))))
  {
    var stream := Concat(chunks);
    var actions := StreamActions(f, stream);
    var texts, ending := SessionTexts(actions), SessionEnding(actions);
    ChunkingInvariance(f, FRESH, chunks);
    assert FRESH.buf + stream == stream;
    TraceOfActions(f, actions);
    TextConserved(f, texts, ending);
    ScriptGrammar(f, texts, ending);
    hide Script, AssembledText, Concat;
  }
}
