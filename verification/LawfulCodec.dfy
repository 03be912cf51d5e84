/** The facts assumed of JSON texts are consistent: some codec has them all. */
module LawfulCodec {
  import opened Wrappers
  import opened Bytes
  import opened Codec

  /** Two letters for each byte. */
  function Letters(b: Bytes): (r: Bytes)
    ensures forall i :: 0 <= i < |r| ==> 'A' <= r[i] <= 'P'
  {
    if b == [] then []
    else
      var c := b[|b| - 1] as int;
      Letters(b[..|b| - 1]) + [(65 + c / 16) as char, (65 + c % 16) as char]
  }

  lemma {:induction false} LettersAreInjective(a: Bytes, b: Bytes)
    requires Letters(a) == Letters(b)
    ensures a == b
  {
    if a != [] && b != [] {
      var x, y := Letters(a), Letters(b);
      var front, other := a[..|a| - 1], b[..|b| - 1];
      assert x[..|x| - 2] == Letters(front) && y[..|y| - 2] == Letters(other);
      assert x[|x| - 2] == y[|y| - 2] && x[|x| - 1] == y[|y| - 1];
      LettersAreInjective(front, other);
      assert a == front + [a[|a| - 1]] && b == other + [b[|b| - 1]];
    }
  }

  ghost function Encode(clean: Bytes -> Bytes, o: Object): Bytes {
    if exists message: Bytes :: o == BrokenFrame(message) then
      var message: Bytes :| o == BrokenFrame(message);
      "{" + Letters(clean(message)) + "}"
    else "{}"
  }

  ghost function Decode(b: Bytes): Option<Object> {
    if exists message: Bytes :: b == "{" + Letters(message) + "}" then
      var message: Bytes :| b == "{" + Letters(message) + "}";
      Some(BrokenFrame(message))
    else None
  }

  lemma EncodedFrame(clean: Bytes -> Bytes, message: Bytes)
    ensures Encode(clean, BrokenFrame(message)) == "{" + Letters(clean(message)) + "}"
  {
    hide Letters;
    forall other: Bytes | BrokenFrame(other) == BrokenFrame(message) ensures other == message {
      FramesDiffer(other, message);
    }
    hide BrokenFrame;
  }

  lemma DecodedFrame(message: Bytes)
    ensures Decode("{" + Letters(message) + "}") == Some(BrokenFrame(message))
  {
    hide Letters, BrokenFrame;
    forall other: Bytes | "{" + Letters(other) + "}" == "{" + Letters(message) + "}" ensures other == message {
      var a, b := "{" + Letters(other) + "}", "{" + Letters(message) + "}";
      assert a[1..|a| - 1] == Letters(other) && b[1..|b| - 1] == Letters(message);
      LettersAreInjective(other, message);
    }
  }

  lemma FramesDiffer(a: Bytes, b: Bytes)
    requires BrokenFrame(a) == BrokenFrame(b)
    ensures a == b
  {
    assert BrokenFrame(a)["error"].fields["message"] == JString(a);
  }

  lemma SplicedIsNoFrame(before: Bytes, rest: Bytes)
    ensures Decode(before + ("data: " + rest)) == None
  {
    hide Letters, BrokenFrame;
    var b := before + ("data: " + rest);
    assert b[|before| + 4] == ':';
    forall message: Bytes ensures ':' !in "{" + Letters(message) + "}" {
    }
  }

  /** Whatever cleaning does to strings, also if it makes different ones alike. */
  lemma SomeCodecIsLawful(clean: Bytes -> Bytes) returns (codec: Codec)
    ensures codec.Lawful() && codec.clean == clean
  {
    codec := Codec(b => Decode(b), b => None, o => Encode(clean, o), clean);
    hide Letters, BrokenFrame, Decode;
    forall o: Object ensures Braced(Encode(clean, o)) && '\n' !in Encode(clean, o) && '\r' !in Encode(clean, o) {
    }
    forall message: Bytes ensures Decode(Encode(clean, BrokenFrame(message))) == Some(BrokenFrame(clean(message))) {
      EncodedFrame(clean, message);
      DecodedFrame(clean(message));
    }
    forall before: Bytes, message: Bytes
      ensures Decode(before + ("data: " + Encode(clean, BrokenFrame(message)))) == None
    {
      SplicedIsNoFrame(before, Encode(clean, BrokenFrame(message)));
    }
  }
}
