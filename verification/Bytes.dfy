/**
 Byte strings, and the line splitting and trimming the relay does on them.
 A byte is a character below 256, so literals can be written as text.
 */
module Bytes {
  type Byte = c: char | c as int < 256 witness 'a'
  type Bytes = seq<Byte>

  // ---------------------------------------------------------------- searching

  /** The first index of `c` in `b`, or `|b|` when there is none. */
  function IndexOf(b: Bytes, c: Byte): (i: nat)
    ensures i <= |b| && (forall k :: 0 <= k < i ==> b[k] != c)
    ensures i < |b| <==> c in b
    ensures i < |b| ==> b[i] == c
  {
    if b == [] || b[0] == c then 0 else 1 + IndexOf(b[1..], c)
  }

  lemma IndexOfUnique(b: Bytes, c: Byte, i: nat)
    requires i < |b| && b[i] == c && forall k :: 0 <= k < i ==> b[k] != c
    ensures IndexOf(b, c) == i
  {
  }

  function Concat(chunks: seq<Bytes>): Bytes {
    if chunks == [] then [] else chunks[0] + Concat(chunks[1..])
  }

  // ---------------------------------------------------------------- lines

  /** What follows the last newline of `b`. */
  function Residue(b: Bytes): Bytes {
    if b == [] then []
    else if b[|b| - 1] == '\n' then []
    else Residue(b[..|b| - 1]) + [b[|b| - 1]]
  }

  /** The newline-terminated lines of `b`, without their newlines. */
  function CompleteLines(b: Bytes): seq<Bytes> {
    if b == [] then []
    else
      var front := b[..|b| - 1];
      if b[|b| - 1] == '\n' then CompleteLines(front) + [Residue(front)] else CompleteLines(front)
  }

  /** Lines put back together, each with its newline. */
  function Unlines(lines: seq<Bytes>): Bytes {
    if lines == [] then [] else Unlines(lines[..|lines| - 1]) + lines[|lines| - 1] + "\n"
  }

  /** Splitting loses nothing: the lines and the residue are exactly `b`, and the residue holds no newline. */
  lemma {:induction false} SplitIsExact(b: Bytes)
    ensures Unlines(CompleteLines(b)) + Residue(b) == b
    ensures '\n' !in Residue(b)
  {
    if b != [] {
      SplitIsExact(b[..|b| - 1]);
    }
  }

  lemma {:induction false} LinesHoldNoNewline(b: Bytes, k: nat)
    requires k < |CompleteLines(b)|
    ensures '\n' !in CompleteLines(b)[k]
  {
    var front := b[..|b| - 1];
    SplitIsExact(front);
    if k < |CompleteLines(front)| {
      LinesHoldNoNewline(front, k);
    }
  }

  /** Reading on from a residue gives the same lines as reading everything at once. */
  lemma {:induction false} SplitOfConcat(a: Bytes, b: Bytes)
    ensures CompleteLines(a + b) == CompleteLines(a) + CompleteLines(Residue(a) + b)
    ensures Residue(a + b) == Residue(Residue(a) + b)
  {
    hide CompleteLines, Residue;
    if b == [] {
      SplitIsExact(a);
      NoNewlineIsResidue(Residue(a));
      assert a + b == a && Residue(a) + b == Residue(a);
    } else {
      var front, last, r := b[..|b| - 1], b[|b| - 1], Residue(a);
      SplitOfConcat(a, front);
      SplitOfLast(a + front, last);
      SplitOfLast(r + front, last);
      assert a + b == a + front + [last] && r + b == r + front + [last];
    }
  }

  lemma SplitOfLast(front: Bytes, last: Byte)
    ensures CompleteLines(front + [last]) == CompleteLines(front) + if last == '\n' then [Residue(front)] else []
    ensures Residue(front + [last]) == if last == '\n' then [] else Residue(front) + [last]
  {
    assert (front + [last])[..|front|] == front;
  }

  /** A text without newlines is all residue. */
  lemma {:induction false} NoNewlineIsResidue(b: Bytes)
    requires '\n' !in b
    ensures CompleteLines(b) == [] && Residue(b) == b
  {
    if b != [] {
      NoNewlineIsResidue(b[..|b| - 1]);
    }
  }

  /** A line without newlines, closed by one, is read as that line. */
  lemma LineThenRest(line: Bytes, rest: Bytes)
    requires '\n' !in line
    ensures CompleteLines(line + "\n" + rest) == [line] + CompleteLines(rest)
    ensures Residue(line + "\n" + rest) == Residue(rest)
  {
    var head := line + "\n";
    assert head[..|head| - 1] == line;
    NoNewlineIsResidue(line);
    SplitOfConcat(head, rest);
    assert Residue(head) == [] && [] + rest == rest;
  }

  // ---------------------------------------------------------------- trimming

  /** `strings.TrimRight(b, cutset)`. */
  function TrimRight(b: Bytes, cutset: Bytes): (r: Bytes)
    ensures r <= b
    ensures r != [] ==> r[|r| - 1] !in cutset
  {
    if b != [] && b[|b| - 1] in cutset then TrimRight(b[..|b| - 1], cutset) else b
  }

  /** The UTF-8 encodings of the characters Go's `unicode.IsSpace` accepts. */
  predicate IsSpaceRune(r: Bytes) {
    || (|r| == 1 && r[0] in "\t\n\U{0B}\U{0C}\r ")
    || (|r| == 2 && r[0] == '\U{C2}' && (r[1] == '\U{85}' || r[1] == '\U{A0}'))
    || (|r| == 3 && r[0] == '\U{E1}' && r[1] == '\U{9A}' && r[2] == '\U{80}')
    || (|r| == 3 && r[0] == '\U{E2}' && r[1] == '\U{80}'
        && ('\U{80}' <= r[2] <= '\U{8A}' || r[2] == '\U{A8}' || r[2] == '\U{A9}' || r[2] == '\U{AF}'))
    || (|r| == 3 && r[0] == '\U{E2}' && r[1] == '\U{81}' && r[2] == '\U{9F}')
    || (|r| == 3 && r[0] == '\U{E3}' && r[1] == '\U{80}' && r[2] == '\U{80}')
  }

  /** How many bytes the white-space character at the front of `b` takes; 0 when there is none. */
  function SpaceAtFront(b: Bytes): (n: nat)
    ensures n <= |b|
  {
    if |b| >= 1 && IsSpaceRune(b[..1]) then 1
    else if |b| >= 2 && IsSpaceRune(b[..2]) then 2
    else if |b| >= 3 && IsSpaceRune(b[..3]) then 3
    else 0
  }

  function SpaceAtEnd(b: Bytes): (n: nat)
    ensures n <= |b|
  {
    if |b| >= 1 && IsSpaceRune(b[|b| - 1..]) then 1
    else if |b| >= 2 && IsSpaceRune(b[|b| - 2..]) then 2
    else if |b| >= 3 && IsSpaceRune(b[|b| - 3..]) then 3
    else 0
  }

  function TrimSpaceLeft(b: Bytes): Bytes {
    var n := SpaceAtFront(b);
    if n == 0 then b else TrimSpaceLeft(b[n..])
  }

  function TrimSpaceRight(b: Bytes): Bytes {
    var n := SpaceAtEnd(b);
    if n == 0 then b else TrimSpaceRight(b[..|b| - n])
  }

  /** `strings.TrimSpace`. */
  function TrimSpace(b: Bytes): Bytes {
    TrimSpaceRight(TrimSpaceLeft(b))
  }

  /** Trimming takes off the longest tail of these characters, and nothing else. */
  lemma {:induction false} TrimRightIsExact(b: Bytes, cutset: Bytes) returns (tail: Bytes)
    ensures b == TrimRight(b, cutset) + tail && forall k :: 0 <= k < |tail| ==> tail[k] in cutset
    ensures TrimRight(b, cutset) != [] ==> TrimRight(b, cutset)[|TrimRight(b, cutset)| - 1] !in cutset
  {
    tail := [];
    if b != [] && b[|b| - 1] in cutset {
      tail := TrimRightIsExact(b[..|b| - 1], cutset);
      tail := tail + [b[|b| - 1]];
    }
  }

  /** White-space characters and nothing else. */
  ghost predicate AllSpace(b: Bytes) {
    b == [] || exists n :: 0 < n <= |b| && IsSpaceRune(b[..n]) && AllSpace(b[n..])
  }

  lemma {:induction false} AllSpaceJoins(a: Bytes, b: Bytes)
    requires AllSpace(a) && AllSpace(b)
    ensures AllSpace(a + b)
  {
    hide IsSpaceRune;
    if a == [] {
      assert a + b == b;
    } else {
      var n :| 0 < n <= |a| && IsSpaceRune(a[..n]) && AllSpace(a[n..]);
      AllSpaceJoins(a[n..], b);
      assert (a + b)[..n] == a[..n] && (a + b)[n..] == a[n..] + b;
    }
  }

  lemma NothingIsSpace()
    ensures AllSpace([])
  {
  }

  lemma OneSpace(b: Bytes)
    requires IsSpaceRune(b)
    ensures AllSpace(b)
  {
    assert b != [];
    hide IsSpaceRune;
    assert b[..|b|] == b;
  }

  lemma {:induction false} LeftIsSpace(b: Bytes) returns (front: Bytes)
    ensures b == front + TrimSpaceLeft(b) && AllSpace(front) && SpaceAtFront(TrimSpaceLeft(b)) == 0
  {
    hide AllSpace, IsSpaceRune, SpaceAtFront;
    var n := SpaceAtFront(b);
    front := [];
    NothingIsSpace();
    if n > 0 {
      var rest := LeftIsSpace(b[n..]);
      SpaceIsThere(b, n);
      OneSpace(b[..n]);
      AllSpaceJoins(b[..n], rest);
      front := b[..n] + rest;
      assert b == b[..n] + b[n..] && front + TrimSpaceLeft(b) == b[..n] + (rest + TrimSpaceLeft(b));
    }
  }

  lemma {:induction false} RightIsSpace(b: Bytes) returns (back: Bytes)
    ensures b == TrimSpaceRight(b) + back && AllSpace(back) && SpaceAtEnd(TrimSpaceRight(b)) == 0
  {
    hide AllSpace, IsSpaceRune, SpaceAtEnd;
    var n := SpaceAtEnd(b);
    back := [];
    NothingIsSpace();
    if n > 0 {
      var front, last := b[..|b| - n], b[|b| - n..];
      var rest := RightIsSpace(front);
      SpaceIsThere(b, n);
      OneSpace(last);
      AllSpaceJoins(rest, last);
      back := rest + last;
      assert b == front + last && TrimSpaceRight(b) + back == TrimSpaceRight(b) + rest + last;
    }
  }

  lemma SpaceIsThere(b: Bytes, n: nat)
    requires 0 < n <= |b|
    ensures n == SpaceAtFront(b) ==> IsSpaceRune(b[..n])
    ensures n == SpaceAtEnd(b) ==> IsSpaceRune(b[|b| - n..])
  {
    hide IsSpaceRune;
  }

  /** Trimming takes white space off both ends, all of it, and nothing else. */
  lemma TrimSpaceIsExact(b: Bytes) returns (front: Bytes, back: Bytes)
    ensures b == front + TrimSpace(b) + back && AllSpace(front) && AllSpace(back)
    ensures forall n :: 0 < n <= |TrimSpace(b)| ==>
      !IsSpaceRune(TrimSpace(b)[..n]) && !IsSpaceRune(TrimSpace(b)[|TrimSpace(b)| - n..])
  {
    front := LeftIsSpace(b);
    back := RightIsSpace(TrimSpaceLeft(b));
    hide TrimSpaceLeft, TrimSpaceRight, AllSpace, IsSpaceRune, SpaceAtFront, SpaceAtEnd;
    var left, r := TrimSpaceLeft(b), TrimSpace(b);
    assert front + (r + back) == front + r + back;
    forall n | 0 < n <= |r| ensures !IsSpaceRune(r[..n]) && !IsSpaceRune(r[|r| - n..]) {
      assert r[..n] == left[..n];
      NoSpaceThere(left, n);
      NoSpaceThere(r, n);
    }
  }

  lemma NoSpaceThere(b: Bytes, n: nat)
    requires 0 < n <= |b|
    ensures SpaceAtFront(b) == 0 ==> !IsSpaceRune(b[..n])
    ensures SpaceAtEnd(b) == 0 ==> !IsSpaceRune(b[|b| - n..])
  {
  }
}
