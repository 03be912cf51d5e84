/** What a stream without reported usage is billed, against the length a translated client is told. */
module CompletionBills {
  import opened Wrappers
  import opened Bytes
  import opened Codec
  import opened Protocol
  import opened ProtocolTrace
  import opened Streaming
  import opened WholeRun

  /** The content the forwarding loop counts on one line. */
  function ContentOf(codec: Codec, line: Bytes): nat {
    match UsageOf(codec, line)
    case None => 0
    case Some(frame) => TextLength(frame.contents)
  }

  function ContentSum(codec: Codec, lines: seq<Bytes>): nat {
    if lines == [] then 0 else ContentSum(codec, lines[..|lines| - 1]) + ContentOf(codec, lines[|lines| - 1])
  }

  lemma {:induction false} CountedContent(codec: Codec, lines: seq<Bytes>)
    ensures CountAll(codec, lines).contentLen == ContentSum(codec, lines)
  {
    hide FrameData, TextLength;
    if lines != [] {
      CountedContent(codec, lines[..|lines| - 1]);
    }
  }

  lemma {:induction false} SumOfConcat(codec: Codec, a: seq<Bytes>, b: seq<Bytes>)
    ensures ContentSum(codec, a + b) == ContentSum(codec, a) + ContentSum(codec, b)
  {
    hide ContentOf;
    if b == [] {
      assert a + b == a;
    } else {
      var front := b[..|b| - 1];
      SumOfConcat(codec, a, front);
      assert (a + b)[..|a + b| - 1] == a + front;
    }
  }

  /** The loop's typed decoding finds as much content on this line as the translator's untyped one. */
  predicate DecodesAlike(codec: Codec, line: Bytes) {
    match FrameData(line)
    case None => true
    case Some(data) =>
      data == "[DONE]" || data == "" ||
      ContentOf(codec, line) == match codec.decode(data) case None => 0 case Some(frame) => |DeltaContent(frame)|
  }

  lemma ContentIsDelta(codec: Codec, line: Bytes)
    requires '\n' !in line && DecodesAlike(codec, line) && !Terminal(LineAction(codec, line))
    ensures ContentOf(codec, line) == if LineAction(codec, line).Delta? then |LineAction(codec, line).text| else 0
  {
    TrimBreaks(line);
    hide TrimRight, TrimSpace, DeltaContent, TextLength;
  }

  lemma OneMoreText(front: seq<Action>, last: Action)
    ensures TextLength(Texts(front + [last])) == TextLength(Texts(front)) + if last.Delta? then |last.text| else 0
  {
    var all := front + [last];
    assert all[..|front|] == front;
    var texts := Texts(front);
    assert texts + [] == texts;
    if last.Delta? {
      assert (texts + [last.text])[..|texts|] == texts;
    }
  }

  /** The first `k` lines are content or nothing, decode alike, and hold no break. */
  predicate ArePlainLines(codec: Codec, lines: seq<Bytes>) {
    forall i :: 0 <= i < |lines| ==>
      '\n' !in lines[i] && DecodesAlike(codec, lines[i]) && !Terminal(LineAction(codec, lines[i]))
  }

  lemma {:induction false} ContentIsTexts(codec: Codec, lines: seq<Bytes>)
    requires ArePlainLines(codec, lines)
    ensures ContentSum(codec, lines) == TextLength(Texts(LineActions(codec, lines)))
  {
    hide LineAction, DecodesAlike, ContentOf, TextLength, Texts;
    if lines == [] {
      assert TextLength(Texts([])) == 0 by { NoTexts(); }
    } else {
      var front, last := lines[..|lines| - 1], lines[|lines| - 1];
      ContentIsTexts(codec, front);
      ContentIsDelta(codec, last);
      OneMoreText(LineActions(codec, front), LineAction(codec, last));
      assert LineActions(codec, lines) == LineActions(codec, front) + [LineAction(codec, last)];
    }
  }

  lemma NoTexts()
    ensures TextLength(Texts([])) == 0
  {
  }

  lemma FirstLinesArePlain(f: Format, body: Bytes, k: nat)
    requires k == FirstTerminal(StreamActions(f, body))
    requires forall i :: 0 <= i < k ==> DecodesAlike(f.codec, CompleteLines(body)[i])
    ensures k <= |CompleteLines(body)|
    ensures ArePlainLines(f.codec, CompleteLines(body)[..k])
    ensures LineActions(f.codec, CompleteLines(body)[..k]) == StreamActions(f, body)[..k]
  {
    hide CompleteLines, DecodesAlike, LineAction, FirstTerminal;
    var lines := CompleteLines(body);
    forall i: nat | i < k ensures '\n' !in lines[i] && !Terminal(LineAction(f.codec, lines[i])) {
      LinesHoldNoNewline(body, i);
      assert !Terminal(StreamActions(f, body)[i]);
    }
  }

  /**
   Without reported usage, a stream is billed the text length its translated client is told at the completion, and
   on top the content of the lines from the first terminal one on, the unterminated last line among them.
   */
  lemma BillIsCompletionAndRest(f: Format, body: Bytes)
    requires var lines, k := CompleteLines(body), FirstTerminal(StreamActions(f, body));
             forall i :: 0 <= i < k ==> DecodesAlike(f.codec, lines[i])
    requires CountAll(f.codec, BodyLines(body)).tokens <= 0
    ensures var actions, all := StreamActions(f, body), BodyLines(body);
            Bill(CountAll(f.codec, all))
            == TextLength(SessionTexts(actions)) + ContentSum(f.codec, all[FirstTerminal(actions)..])
  {
    hide CompleteLines, BodyLines, StreamActions, CountAll, ContentSum, TextLength, Texts, FirstTerminal;
    hide ArePlainLines, LineActions, DecodesAlike;
    var all, k := BodyLines(body), FirstTerminal(StreamActions(f, body));
    CountedContent(f.codec, all);
    FirstLinesArePlain(f, body, k);
    ContentIsTexts(f.codec, CompleteLines(body)[..k]);
    SumSplit(f.codec, body, k);
  }

  lemma SumSplit(codec: Codec, body: Bytes, k: nat)
    requires k <= |CompleteLines(body)|
    ensures |CompleteLines(body)| <= |BodyLines(body)|
    ensures ContentSum(codec, BodyLines(body))
         == ContentSum(codec, CompleteLines(body)[..k]) + ContentSum(codec, BodyLines(body)[k..])
  {
    hide CompleteLines, Residue, ContentSum;
    var all := BodyLines(body);
    assert all[..k] == CompleteLines(body)[..k] && all[..k] + all[k..] == all;
    SumOfConcat(codec, all[..k], all[k..]);
  }

  // ---------------------------------------------------------------- reported usage

  /** The line is a frame that reports this many tokens. */
  predicate ReportsTotal(codec: Codec, line: Bytes, n: int) {
    match UsageOf(codec, line)
    case None => false
    case Some(frame) => frame.totalTokens == Some(n) && n > 0
  }

  predicate ReportsNone(codec: Codec, line: Bytes) {
    match UsageOf(codec, line)
    case None => true
    case Some(frame) => frame.totalTokens.None? || frame.totalTokens.value <= 0
  }

  /** The last usage the provider reported is what is billed, whatever content there was. */
  lemma {:induction false} LastUsageIsBilled(codec: Codec, lines: seq<Bytes>, i: nat, n: int)
    requires i < |lines| && ReportsTotal(codec, lines[i], n)
    requires forall j :: i < j < |lines| ==> ReportsNone(codec, lines[j])
    ensures CountAll(codec, lines).tokens == n && Bill(CountAll(codec, lines)) == n
  {
    hide FrameData, TextLength;
    var last := |lines| - 1;
    if i < last {
      LastUsageIsBilled(codec, lines[..last], i, n);
    }
  }

  /** And a stream without any reported usage is billed the bytes of its content. */
  lemma {:induction false} ContentIsBilledOtherwise(codec: Codec, lines: seq<Bytes>)
    requires forall j :: 0 <= j < |lines| ==> ReportsNone(codec, lines[j])
    ensures CountAll(codec, lines).tokens == 0 && Bill(CountAll(codec, lines)) == ContentSum(codec, lines)
  {
    CountedContent(codec, lines);
    hide FrameData, TextLength;
    if lines != [] {
      ContentIsBilledOtherwise(codec, lines[..|lines| - 1]);
    }
  }

  /** The data of a frame is what stands after `data:`, so usage is decoded from the JSON text itself. */
  lemma FrameIsDecoded(codec: Codec, x: Bytes)
    requires Braced(x)
    ensures UsageOf(codec, "data: " + x) == codec.decodeUsage(x)
    ensures UsageOf(codec, "data: " + x + "\n") == codec.decodeUsage(x)
  {
    hide TrimSpaceLeft, TrimSpaceRight;
    var line: Bytes := "data: " + x;
    BreaksAreTrimmed(line);
    assert line[5..] == " " + x;
    SpaceInFront(x);
    TrimRightKeepsText(x);
    hide TrimRight;
    assert x[0] == '{';
  }

  lemma BreaksAreTrimmed(line: Bytes)
    requires EndsInText(line)
    ensures TrimRight(line, "\r\n") == line && TrimRight(line + "\n", "\r\n") == line
  {
    assert line[|line| - 1] !in "\r\n";
    assert (line + "\n")[..|line|] == line;
  }

  // ---------------------------------------------------------------- what a stream reports

  /**
   The forwarding loop reports success exactly when the body ended, not empty, after a `[DONE]` line, and says that
   output had begun exactly when there was any. It always reports the billed tokens.
   */
  lemma StreamSucceedsIff(codec: Codec, body: Bytes, end: BodyEnd)
    ensures var (tokens, err) := StreamResult(codec, body, end);
            && (err.None? <==> end.Eof? && HasDoneLine(BodyLines(body)))
            && (err.Some? ==> (err.value.firstByteSent <==> body != []))
            && tokens == Bill(CountAll(codec, BodyLines(body)))
  {
    SawDoneMeansLine(codec, BodyLines(body));
    if body == [] {
      NothingSent(codec);
      assert BodyLines(body) == [];
    }
    hide CountAll, CompleteLines, Residue, HasDoneLine;
  }
}
