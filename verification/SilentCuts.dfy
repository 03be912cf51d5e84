/** Attempts that are not failed over, and are charged as cut streams, although their client got nothing. */
module SilentCuts {
  import opened Bytes
  import opened Codec
  import opened EventStream
  import opened Protocol
  import opened ProtocolTrace
  import opened ResponseWriters
  import opened Streaming

  predicate AllIgnored(actions: seq<Action>) {
    forall i :: 0 <= i < |actions| ==> actions[i].Ignore?
  }

  /** A translated client got nothing exactly when every line was swallowed. */
  lemma {:induction false} NothingOutIff(f: Format, actions: seq<Action>)
    requires !f.kind.Plain?
    ensures TranslateAll(f, FRESH.t, actions).body == [] <==> AllIgnored(actions)
    ensures AllIgnored(actions) ==> TranslateAll(f, FRESH.t, actions) == FRESH.t
  {
    if actions != [] {
      var front, last := actions[..|actions| - 1], actions[|actions| - 1];
      NothingOutIff(f, front);
      assert actions == front + [last];
      var t := TranslateAll(f, FRESH.t, front);
      BodyGrows(f, t, [last]);
      assert TranslateAll(f, t, [last]) == Translate(f, t, last) by { OneAction(f, t, last); }
      if AllIgnored(front) {
        FirstOutput(f, last);
      }
      hide Translate;
    }
  }

  lemma OneAction(f: Format, t: Translator, a: Action)
    ensures TranslateAll(f, t, [a]) == Translate(f, t, a)
  {
    assert [a][..0] == [];
  }

  /** The first line that is not swallowed puts something out. */
  lemma FirstOutput(f: Format, a: Action)
    requires !f.kind.Plain?
    ensures Translate(f, FRESH.t, a).body == [] <==> a.Ignore?
  {
    hide Print;
    match a {
      case Ignore =>
      case Delta(text) => SomethingPrinted(f.codec, Opening(f) + DeltaEvent(f, text));
      case Done => SomethingPrinted(f.codec, Opening(f) + Completion(f, 0));
      case Broken(errType, message) => SomethingPrinted(f.codec, [Failure(errType, message)]);
    }
  }

  lemma SomethingPrinted(codec: Codec, es: seq<Event>)
    requires es != []
    ensures Print(codec, es) != []
  {
    hide EventMessage;
    StartsWithE(EventMessages(codec, es));
  }

  /**
   The attempts that say output had begun although a fresh client, plain or translated, got nothing: a buffered
   call that broke off in mid-body and says so of itself, and a stream to a translated client that was cut, or
   ended without a `[DONE]`, when it had carried only lines the translator swallows.
   */
  predicate IsSilentCut(f: Format, a: Attempt) {
    match a
    case Buffered(CallFailed(err)) => err.firstByteSent
    case Streamed(Opened(body, end)) =>
      && !f.kind.Plain? && body != [] && AllIgnored(StreamActions(f, body))
      && (end.Reset? || !HasDoneLine(BodyLines(body)))
    case _ => false
  }

  lemma SilentCutIff(f: Format, a: Attempt)
    ensures Report(f.codec, a).1.Some? && Report(f.codec, a).1.value.firstByteSent
         && Feed(f, FRESH, Output(f.codec, a)).t.body == []
       <==> IsSilentCut(f, a)
  {
    hide Feed, StreamActions, BodyLines, HasDoneLine, CountAll, Bill, AllIgnored, ReplyFrame, DataFrame;
    match a {
      case Streamed(Opened(body, end)) =>
        SawDoneMeansLine(f.codec, BodyLines(body));
        ReceivedNothingIff(f, body);
      case _ =>
        ReceivedNothingIff(f, []);
    }
  }

  lemma ReceivedNothingIff(f: Format, body: Bytes)
    ensures Feed(f, FRESH, body).t.body == []
       <==> if f.kind.Plain? then body == [] else AllIgnored(StreamActions(f, body))
    ensures body == [] ==> Feed(f, FRESH, body).t.body == []
  {
    assert FRESH.buf + body == body && FRESH.t.body + body == body;
    if !f.kind.Plain? {
      NothingOutIff(f, StreamActions(f, body));
      hide AllIgnored, LineAction;
    }
  }

  /** An ordinary one: a comment line that keeps the connection open, and then a reset. */
  lemma CommentThenCut(f: Format, message: Bytes)
    requires !f.kind.Plain?
    ensures IsSilentCut(f, Streamed(Opened(": ping\n", Reset(message))))
  {
    var line: Bytes, none: Bytes := ": ping", [];
    var body: Bytes := ": ping\n";
    LineThenRest(line, none);
    NoNewlineIsResidue(none);
    assert body == line + "\n" + none;
    assert CompleteLines(body) == [line];
    hide CompleteLines, TrimSpace;
    assert TrimRight(line, "\r") == line;
  }
}
