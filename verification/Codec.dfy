/**
 JSON as the relay sees it. Encoding and decoding themselves are a parameter, `Codec`;
 `Codec.Lawful` lists the facts about JSON texts that the results rest on.
 */
module Codec {
  import opened Wrappers
  import opened Bytes

  datatype Json =
    | JNull
    | JBool(flag: bool)
    | JNumber(value: real)
    | JString(text: Bytes)
    | JArray(items: seq<Json>)
    | JObject(fields: Object)

  type Object = map<Bytes, Json>

  /** What the forwarding loop's typed decoding of one frame yields. */
  datatype UsageFrame = UsageFrame(totalTokens: Option<int>, contents: seq<Bytes>)

  datatype Codec = Codec(
    /** Decoding into `map[string]any`; None when it fails, the empty map for `null`. */
    decode: Bytes -> Option<Object>,
    /** Decoding into the forwarding loop's frame struct; None when it fails. */
    decodeUsage: Bytes -> Option<UsageFrame>,
    encode: Object -> Bytes,
    /** What a string reads as after encoding and decoding: bytes that are not UTF-8 are replaced. */
    clean: Bytes -> Bytes)
  {
    /** An encoded object is braced and has no raw line break. */
    ghost predicate EncodesOneLine() {
      forall o: Object :: Braced(encode(o)) && '\n' !in encode(o) && '\r' !in encode(o)
    }

    /** The stream_broken frame decodes to itself, but for its cleaned message. */
    ghost predicate EchoesFrames() {
      forall message: Bytes :: decode(encode(BrokenFrame(message))) == Some(BrokenFrame(clean(message)))
    }

    /**
     No JSON text ends in a `data: ` frame: inside a string the quote after the brace closes the string
     before a bare word, and outside a string `data` is a bare word itself.
     */
    ghost predicate SplicesNoFrames() {
      forall before: Bytes, message: Bytes :: decode(before + ("data: " + encode(BrokenFrame(message)))) == None
    }

    /** The facts of JSON, true of any byte string as message. */
    ghost predicate Lawful() {
      EncodesOneLine() && EchoesFrames() && SplicesNoFrames()
    }
  }

  predicate Braced(b: Bytes) {
    |b| >= 2 && b[0] == '{' && b[|b| - 1] == '}'
  }

  /** The frame `writeStreamError` sends. */
  function BrokenFrame(message: Bytes): Object {
    map["error" := JObject(map["message" := JString(message), "type" := JString("stream_broken")])]
  }

  /** `v, _ := o[key].(string)`. */
  function StringField(o: Object, key: Bytes): Bytes {
    if key in o && o[key].JString? then o[key].text else ""
  }

  /** `extractChatDeltaContent`: the `delta.content` strings of all choices, joined. */
  function DeltaContent(frame: Object): Bytes {
    if "choices" in frame && frame["choices"].JArray? then ChoicesContent(frame["choices"].items) else ""
  }

  function ChoicesContent(choices: seq<Json>): Bytes {
    if choices == [] then "" else ChoiceContent(choices[0]) + ChoicesContent(choices[1..])
  }

  function ChoiceContent(choice: Json): Bytes {
    if choice.JObject? && "delta" in choice.fields && choice.fields["delta"].JObject?
    then StringField(choice.fields["delta"].fields, "content")
    else ""
  }
}
