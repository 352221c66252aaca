/** The length-prefixed frame protocol between host and agent service. */
module Framing {
  import opened Wrappers

  type byte = b: int | 0 <= b < 256

  const PROTOCOL_VERSION: real := 1.0
  const MAX_SAFE_INTEGER: real := 9007199254740991.0
  const DEFAULT_MAX_FRAME_BYTES: int := 1024 * 1024

  /** The values JSON text can denote. */
  datatype JsValue =
    | JsNull
    | JsBool(truth: bool)
    | JsNumber(number: real)
    | JsString(text: string)
    | JsArray(items: seq<JsValue>)
    | JsObject(fields: map<string, JsValue>)

  /** JSON text as UTF-8 bytes, in both directions. */
  datatype Codec = Codec(render: JsValue -> seq<byte>, parse: seq<byte> -> Option<JsValue>)

  datatype FrameError =
    | Oversized(declared: nat, maximum: int)
    | MalformedJson
    | NotAnObject
    | UnsupportedVersion
    | BadIdentifiers
    | BadSequence
    | MissingKind

  // -------------------------------------------------------------- frames

  predicate SafeInteger(n: real) {
    n == n.Floor as real && -MAX_SAFE_INTEGER <= n <= MAX_SAFE_INTEGER
  }

  predicate HasString(fields: map<string, JsValue>, name: string) {
    name in fields && fields[name].JsString?
  }

  function AssertProtocolFrame(v: JsValue): Result<JsValue, FrameError> {
    if !v.JsObject? && !v.JsArray? then Failure(NotAnObject)
    else
      var fields := if v.JsObject? then v.fields else map[];
      if "protocolVersion" !in fields || fields["protocolVersion"] != JsNumber(PROTOCOL_VERSION) then
        Failure(UnsupportedVersion)
      else if !HasString(fields, "requestId") || !HasString(fields, "correlationId") then Failure(BadIdentifiers)
      else if !("sequence" in fields && fields["sequence"].JsNumber? && SafeInteger(fields["sequence"].number)
                && fields["sequence"].number >= 0.0) then Failure(BadSequence)
      else if !HasString(fields, "kind") || fields["kind"].text == "" then Failure(MissingKind)
      else Success(v)
  }

  function Whole(n: nat): JsValue {
    JsNumber(n as real)
  }

  /** What the protocol asks of a frame. */
  ghost predicate ProtocolFrame(v: JsValue) {
    && v.JsObject? && v.fields.Keys >= {"protocolVersion", "requestId", "correlationId", "sequence", "kind"}
    && v.fields["protocolVersion"] == JsNumber(PROTOCOL_VERSION)
    && v.fields["requestId"].JsString? && v.fields["correlationId"].JsString?
    && (exists n: nat :: n < 0x20_0000_0000_0000 && v.fields["sequence"] == Whole(n))
    && v.fields["kind"].JsString? && v.fields["kind"].text != ""
  }

  lemma AcceptedIffProtocolFrame(v: JsValue)
    ensures AssertProtocolFrame(v).Success? <==> ProtocolFrame(v)
    ensures AssertProtocolFrame(v).Success? ==> AssertProtocolFrame(v).value == v
  {
    if AssertProtocolFrame(v).Success? {
      var n := v.fields["sequence"].number.Floor;
      assert v.fields["sequence"] == Whole(n);
    }
  }

  /** The field is there and holds this. */
  ghost predicate Carries(v: JsValue, name: string, value: JsValue) {
    v.JsObject? && name in v.fields && v.fields[name] == value
  }

  /** What is not accepted is refused for the first of these defects: no object at all, another
      version, identifiers that are not text, a sequence number that is not a whole number from 0
      to the largest safe integer, a kind that is not text or empty. */
  lemma FirstDefectDecides(v: JsValue)
    requires !ProtocolFrame(v)
    ensures AssertProtocolFrame(v)
         == Failure(if !v.JsObject? && !v.JsArray? then NotAnObject
                    else if !Carries(v, "protocolVersion", JsNumber(1.0)) then UnsupportedVersion
                    else if (forall s :: !Carries(v, "requestId", JsString(s)))
                            || (forall s :: !Carries(v, "correlationId", JsString(s))) then BadIdentifiers
                    else if (forall n: nat :: n < 0x20_0000_0000_0000 ==> !Carries(v, "sequence", Whole(n)))
                    then BadSequence
                    else MissingKind)
  {
    if v.JsObject? {
      assert HasString(v.fields, "requestId") ==> Carries(v, "requestId", JsString(v.fields["requestId"].text));
      assert HasString(v.fields, "correlationId") ==>
          Carries(v, "correlationId", JsString(v.fields["correlationId"].text));
      if "sequence" in v.fields && v.fields["sequence"].JsNumber? && SafeInteger(v.fields["sequence"].number)
          && v.fields["sequence"].number >= 0.0 {
        var n := v.fields["sequence"].number.Floor;
        assert Carries(v, "sequence", Whole(n));
      }
    }
  }

  function ParseFrame(codec: Codec, body: seq<byte>): Result<JsValue, FrameError> {
    match codec.parse(body)
    case None => Failure(MalformedJson)
    case Some(v) => AssertProtocolFrame(v)
  }

  // -------------------------------------------------------------- header

  function Header(n: nat): seq<byte>
    requires n < 0x1_0000_0000
  {
    [n / 0x100_0000, n / 0x1_0000 % 0x100, n / 0x100 % 0x100, n % 0x100]
  }

  function Size(header: seq<byte>): nat
    requires |header| >= 4
  {
    var a: int, b: int, c: int, d: int := header[0], header[1], header[2], header[3];
    a * 0x100_0000 + b * 0x1_0000 + c * 0x100 + d
  }

  lemma SizeOfHeader(n: nat)
    requires n < 0x1_0000_0000
    ensures Size(Header(n)) == n
  {
    var h, m, l := n / 0x100_0000, n / 0x1_0000, n / 0x100;
    assert m / 0x100 == h && l / 0x100 == m;
    assert m % 0x100 == m - 0x100 * h && l % 0x100 == l - 0x100 * m && n % 0x100 == n - 0x100 * l;
  }

  /** The encoder refuses a payload over its limit; a size that does not fit the header
      fails when the header is written. */
  function EncodeFrame(codec: Codec, frame: JsValue, maxBytes: int := DEFAULT_MAX_FRAME_BYTES): Result<seq<byte>, ()> {
    var payload := codec.render(frame);
    if |payload| > maxBytes then Failure(())
    else if |payload| >= 0x1_0000_0000 then Failure(())
    else Success(Header(|payload|) + payload)
  }

  /** The number that bytes denote, the most significant one first. */
  function BigEndian(bytes: seq<byte>): nat {
    if bytes == [] then 0 else var last: int := bytes[|bytes|-1]; BigEndian(bytes[..|bytes|-1]) * 256 + last
  }

  lemma BigEndianOfFour(header: seq<byte>)
    requires |header| >= 4
    ensures BigEndian(header[..4]) == Size(header)
  {
    var a: int, b: int, c: int, d: int := header[0], header[1], header[2], header[3];
    assert header[..4][..3] == header[..3] && header[..3][..2] == header[..2] && header[..2][..1] == header[..1];
    assert header[..1][..0] == [];
    assert BigEndian(header[..0]) == 0 && BigEndian(header[..1]) == a && BigEndian(header[..2]) == a * 256 + b;
    assert BigEndian(header[..3]) == (a * 256 + b) * 256 + c;
  }

  /** A frame is encoded exactly when its payload is within the limit and its length fits four
      bytes: the length, most significant byte first, and the payload. */
  lemma EncodedFrame(codec: Codec, frame: JsValue, maxBytes: int)
    ensures EncodeFrame(codec, frame, maxBytes).Success? <==>
              |codec.render(frame)| <= maxBytes && |codec.render(frame)| < 256 * 256 * 256 * 256
    ensures EncodeFrame(codec, frame, maxBytes).Success? ==>
              var bytes, payload := EncodeFrame(codec, frame, maxBytes).value, codec.render(frame);
              |bytes| == 4 + |payload| && BigEndian(bytes[..4]) == |payload| && bytes[4..] == payload
  {
    var payload := codec.render(frame);
    if |payload| < 0x1_0000_0000 {
      var header := Header(|payload|);
      SizeOfHeader(|payload|);
      BigEndianOfFour(header);
      assert (header + payload)[..4] == header[..4] == header;
    }
  }

  // -------------------------------------------------- decoding, specified

  /** Frames found before the end or the first error, the bytes left over, the error. */
  datatype Decoded = Decoded(frames: seq<JsValue>, rest: seq<byte>, error: Option<FrameError>)

  /** What the front of a buffer offers. */
  datatype Front = Incomplete | Rejected(rest: seq<byte>, error: FrameError) | Frame(frame: JsValue, rest: seq<byte>)

  function TakeFrame(codec: Codec, maxBytes: int, buffer: seq<byte>): (front: Front)
    ensures front.Frame? ==> |front.rest| < |buffer|
  {
    if |buffer| < 4 then Incomplete
    else
      var size := Size(buffer);
      if size > maxBytes then Rejected([], Oversized(size, maxBytes))
      else if |buffer| < 4 + size then Incomplete
      else
        match ParseFrame(codec, buffer[4..4+size])
        case Failure(e) => Rejected(buffer[4+size..], e)
        case Success(f) => Frame(f, buffer[4+size..])
  }

  function Decode(codec: Codec, maxBytes: int, buffer: seq<byte>): Decoded
    decreases |buffer|
  {
    match TakeFrame(codec, maxBytes, buffer)
    case Incomplete => Decoded([], buffer, None)
    case Rejected(rest, e) => Decoded([], rest, Some(e))
    case Frame(f, rest) => Prepend([f], Decode(codec, maxBytes, rest))
  }

  function Prepend(frames: seq<JsValue>, d: Decoded): Decoded {
    d.(frames := frames + d.frames)
  }

  /** One decoder: the unread bytes and the current limit. */
  class FrameDecoder {
    const codec: Codec
    var maxBytes: int
    var buffer: seq<byte>

    constructor (codec: Codec, maxBytes: int := DEFAULT_MAX_FRAME_BYTES)
      ensures this.codec == codec && this.maxBytes == maxBytes && buffer == []
    {
      this.codec := codec;
      this.maxBytes := maxBytes;
      buffer := [];
    }

    method SetMaxBytes(limit: real) returns (ok: bool)
      modifies this
      ensures ok <==> SafeInteger(limit) && limit >= 1.0
      ensures buffer == old(buffer) && maxBytes == if ok then limit.Floor else old(maxBytes)
    {
      ok := SafeInteger(limit) && limit >= 1.0;
      if ok {
        maxBytes := limit.Floor;
      }
    }

    /** Appends a chunk and takes out every complete frame. An error discards the frames
        already taken out by this call. */
    method Push(chunk: seq<byte>) returns (r: Result<seq<JsValue>, FrameError>)
      modifies this
      ensures maxBytes == old(maxBytes)
      ensures var d := Decode(codec, maxBytes, old(buffer) + chunk);
              buffer == d.rest && r == match d.error { case None => Success(d.frames) case Some(e) => Failure(e) }
    {
      hide ParseFrame, Size;
      buffer := buffer + chunk;
      ghost var whole := Decode(codec, maxBytes, buffer);
      var frames := [];
      while |buffer| >= 4
        invariant maxBytes == old(maxBytes)
        invariant Prepend(frames, Decode(codec, maxBytes, buffer)) == whole
        decreases |buffer|
      {
        var size := Size(buffer);
        if size > maxBytes {
          buffer := [];
          return Failure(Oversized(size, maxBytes));
        }
        if |buffer| < 4 + size {
          break;
        }
        var body := buffer[4..4+size];
        ghost var d := Decode(codec, maxBytes, buffer[4+size..]);
        buffer := buffer[4+size..];
        match ParseFrame(codec, body) {
          case Failure(e) => return Failure(e);
          case Success(f) =>
            assert frames + ([f] + d.frames) == (frames + [f]) + d.frames;
            frames := frames + [f];
        }
      }
      assert frames + [] == frames;
      return Success(frames);
    }
  }

  // ------------------------------------------------------- chunked pushes

  /** What a sequence of pushes returns in all, up to the first push that fails. */
  function Feed(codec: Codec, maxBytes: int, buffer: seq<byte>, chunks: seq<seq<byte>>): Decoded
    decreases |chunks|
  {
    if chunks == [] then Decoded([], buffer, None)
    else
      var d := Decode(codec, maxBytes, buffer + chunks[0]);
      if d.error.Some? then Decoded([], d.rest, d.error)
      else
        Prepend(d.frames, Feed(codec, maxBytes, d.rest, chunks[1..]))
  }

  function Flatten(chunks: seq<seq<byte>>): seq<byte> {
    if chunks == [] then [] else chunks[0] + Flatten(chunks[1..])
  }

  /** What an error leaves of a longer stream: an oversized header drops everything, other errors
      only the frame. */
  function Behind(rest: seq<byte>, error: FrameError, later: seq<byte>): seq<byte> {
    if error.Oversized? then [] else rest + later
  }

  lemma TakeAppend(codec: Codec, maxBytes: int, a: seq<byte>, b: seq<byte>)
    ensures match TakeFrame(codec, maxBytes, a)
            case Incomplete => true
            case Rejected(rest, e) => TakeFrame(codec, maxBytes, a + b) == Rejected(Behind(rest, e, b), e)
            case Frame(f, rest) => TakeFrame(codec, maxBytes, a + b) == Frame(f, rest + b)
  {
    if |a| >= 4 && Size(a) <= maxBytes && |a| >= 4 + Size(a) {
      assert (a + b)[4..4+Size(a)] == a[4..4+Size(a)];
      assert (a + b)[4+Size(a)..] == a[4+Size(a)..] + b;
    }
  }

  lemma DecodeStep(codec: Codec, maxBytes: int, buffer: seq<byte>)
    ensures var front := TakeFrame(codec, maxBytes, buffer);
            Decode(codec, maxBytes, buffer)
            == if front.Incomplete? then Decoded([], buffer, None)
               else if front.Rejected? then Decoded([], front.rest, Some(front.error))
               else Prepend([front.frame], Decode(codec, maxBytes, front.rest))
  {
  }

  /** Decoding a longer stream continues from the residue, and repeats an error, behind which the
      rest of the stream is left. */
  lemma {:induction false} DecodeAppend(codec: Codec, maxBytes: int, a: seq<byte>, b: seq<byte>)
    ensures var d := Decode(codec, maxBytes, a);
            var w := Decode(codec, maxBytes, a + b);
            if d.error.Some? then w == Decoded(d.frames, Behind(d.rest, d.error.value, b), d.error)
            else w == Prepend(d.frames, Decode(codec, maxBytes, d.rest + b))
    decreases |a|
  {
    hide TakeFrame, Decode;
    TakeAppend(codec, maxBytes, a, b);
    DecodeStep(codec, maxBytes, a);
    DecodeStep(codec, maxBytes, a + b);
    var front := TakeFrame(codec, maxBytes, a);
    if !front.Frame? {
    } else {
      DecodeAppend(codec, maxBytes, front.rest, b);
      var d := Decode(codec, maxBytes, front.rest);
      var m := Decode(codec, maxBytes, d.rest + b);
      assert [front.frame] + (d.frames + m.frames) == ([front.frame] + d.frames) + m.frames;
    }
  }

  /** Only protocol frames are ever handed out. */
  lemma {:induction false} DecodedFramesAreValid(codec: Codec, maxBytes: int, buffer: seq<byte>)
    ensures forall f :: f in Decode(codec, maxBytes, buffer).frames ==> ProtocolFrame(f)
    decreases |buffer|
  {
    hide ProtocolFrame, AssertProtocolFrame;
    var front := TakeFrame(codec, maxBytes, buffer);
    if !front.Frame? {
    } else {
      DecodedFramesAreValid(codec, maxBytes, front.rest);
      AcceptedIffProtocolFrame(front.frame);
      var size := Size(buffer);
      AcceptedIffProtocolFrame(codec.parse(buffer[4..4+size]).value);
    }
  }

  /** A residue holds no complete frame, so decoding it again yields nothing. */
  lemma {:induction false} ResidueIsInert(codec: Codec, maxBytes: int, buffer: seq<byte>)
    requires Decode(codec, maxBytes, buffer).error == None
    ensures var rest := Decode(codec, maxBytes, buffer).rest;
            Decode(codec, maxBytes, rest) == Decoded([], rest, None)
    decreases |buffer|
  {
    var front := TakeFrame(codec, maxBytes, buffer);
    if !front.Frame? {
    } else {
      ResidueIsInert(codec, maxBytes, front.rest);
    }
  }

  /** However a stream is cut, the pushes together return what one push would: all its
      frames and the same residue, or the same error after some of the frames before it. */
  lemma {:induction false} ChunkIndependence(codec: Codec, maxBytes: int, buffer: seq<byte>, chunks: seq<seq<byte>>)
    requires Decode(codec, maxBytes, buffer) == Decoded([], buffer, None)
    ensures var fed := Feed(codec, maxBytes, buffer, chunks);
            var whole := Decode(codec, maxBytes, buffer + Flatten(chunks));
            fed.error == whole.error && (if whole.error == None then fed == whole else fed.frames <= whole.frames)
    decreases |chunks|
  {
    if chunks == [] {
      assert buffer + [] == buffer;
    } else {
      var first := buffer + chunks[0];
      var rest := Flatten(chunks[1..]);
      assert buffer + Flatten(chunks) == first + rest;
      DecodeAppend(codec, maxBytes, first, rest);
      var d := Decode(codec, maxBytes, first);
      if d.error == None {
        ResidueIsInert(codec, maxBytes, first);
        ChunkIndependence(codec, maxBytes, d.rest, chunks[1..]);
      }
    }
  }

  lemma {:induction false} FlattenAppend(a: seq<seq<byte>>, b: seq<seq<byte>>)
    ensures Flatten(a + b) == Flatten(a) + Flatten(b)
  {
    if a == [] {
      assert a + b == b;
    } else {
      assert (a + b)[1..] == a[1..] + b;
      FlattenAppend(a[1..], b);
    }
  }

  /** The first k chunks decode without an error, and one more does not. */
  ghost predicate FailsIn(codec: Codec, maxBytes: int, buffer: seq<byte>, chunks: seq<seq<byte>>, k: nat) {
    && k < |chunks| && Decode(codec, maxBytes, buffer + Flatten(chunks[..k])).error == None
    && Decode(codec, maxBytes, buffer + Flatten(chunks[..k+1])).error.Some?
  }

  /** A stream with an error fails in one of its chunks. */
  lemma {:induction false} SomeChunkFails(codec: Codec, maxBytes: int, buffer: seq<byte>, chunks: seq<seq<byte>>)
    returns (k: nat)
    requires Decode(codec, maxBytes, buffer).error == None
    requires Decode(codec, maxBytes, buffer + Flatten(chunks)).error.Some?
    ensures FailsIn(codec, maxBytes, buffer, chunks, k)
  {
    assert chunks != [] by { assert buffer + [] == buffer; }
    var last := |chunks| - 1;
    assert chunks[..last+1] == chunks;
    if Decode(codec, maxBytes, buffer + Flatten(chunks[..last])).error == None {
      k := last;
    } else {
      k := SomeChunkFails(codec, maxBytes, buffer, chunks[..last]);
      assert chunks[..last][..k] == chunks[..k] && chunks[..last][..k+1] == chunks[..k+1];
    }
  }

  /** What is handed out before an error: all frames of the chunks before the failing one, and
      none of the failing one, which loses those it completes before the bad frame. */
  lemma FramesBeforeError(codec: Codec, maxBytes: int, buffer: seq<byte>, chunks: seq<seq<byte>>, k: nat)
    requires Decode(codec, maxBytes, buffer) == Decoded([], buffer, None) && FailsIn(codec, maxBytes, buffer, chunks, k)
    ensures var fed, whole := Feed(codec, maxBytes, buffer, chunks), Decode(codec, maxBytes, buffer + Flatten(chunks));
            var before := Decode(codec, maxBytes, buffer + Flatten(chunks[..k]));
            var lost := Decode(codec, maxBytes, before.rest + chunks[k]).frames;
            && fed.frames == before.frames && whole.frames == before.frames + lost && fed.error == whole.error
            && (fed.frames == whole.frames <==> lost == [])
  {
    hide Decode, Feed;
    var start, rest := buffer + Flatten(chunks[..k]), Flatten(chunks[k+1..]);
    var d := Decode(codec, maxBytes, start);
    assert chunks == chunks[..k+1] + chunks[k+1..] && chunks[..k+1] == chunks[..k] + [chunks[k]];
    FlattenAppend(chunks[..k+1], chunks[k+1..]);
    FlattenAppend(chunks[..k], [chunks[k]]);
    assert Flatten([chunks[k]]) == chunks[k] by { assert chunks[k] + [] == chunks[k]; }
    assert buffer + Flatten(chunks[..k+1]) == start + chunks[k];
    assert buffer + Flatten(chunks) == (start + chunks[k]) + rest;
    DecodeAppend(codec, maxBytes, start, chunks[k]);
    DecodeAppend(codec, maxBytes, start + chunks[k], rest);
    FeedStops(codec, maxBytes, buffer, chunks, k);
  }

  lemma {:induction false} FeedStops(codec: Codec, maxBytes: int, buffer: seq<byte>, chunks: seq<seq<byte>>, k: nat)
    requires Decode(codec, maxBytes, buffer) == Decoded([], buffer, None) && FailsIn(codec, maxBytes, buffer, chunks, k)
    ensures var fed := Feed(codec, maxBytes, buffer, chunks);
            var failed := Decode(codec, maxBytes, buffer + Flatten(chunks[..k+1]));
            && fed.frames == Decode(codec, maxBytes, buffer + Flatten(chunks[..k])).frames
            && fed.error == failed.error && fed.rest == failed.rest
    decreases |chunks|
  {
    hide Decode;
    var first, more := buffer + chunks[0], chunks[1..];
    if k == 0 {
      assert chunks[..1] == [chunks[0]] && Flatten([chunks[0]]) == chunks[0] by { assert chunks[0] + [] == chunks[0]; }
      assert chunks[..0] == [] && buffer + [] == buffer;
    } else {
      var d := Decode(codec, maxBytes, first);
      FirstChunk(buffer, chunks, k);
      FirstChunk(buffer, chunks, k + 1);
      DecodeAppend(codec, maxBytes, first, Flatten(more[..k-1]));
      DecodeAppend(codec, maxBytes, first, Flatten(more[..k]));
      ResidueIsInert(codec, maxBytes, first);
      FeedStops(codec, maxBytes, d.rest, more, k - 1);
    }
  }

  lemma FirstChunk(buffer: seq<byte>, chunks: seq<seq<byte>>, k: nat)
    requires 1 <= k <= |chunks|
    ensures buffer + Flatten(chunks[..k]) == (buffer + chunks[0]) + Flatten(chunks[1..][..k-1])
  {
    assert chunks[..k] == [chunks[0]] + chunks[1..][..k-1];
    assert chunks[..k][1..] == chunks[1..][..k-1];
  }

  // --------------------------------------------------- after an error

  /** A bad body behind good frames is skipped, and nothing behind it. */
  lemma BadBodyIsSkipped(
      codec: Codec, maxBytes: int, good: seq<byte>, frames: seq<JsValue>, body: seq<byte>, e: FrameError,
      later: seq<byte>)
    requires Decode(codec, maxBytes, good) == Decoded(frames, [], None)
    requires |body| <= maxBytes && |body| < 0x1_0000_0000 && ParseFrame(codec, body) == Failure(e)
    ensures Decode(codec, maxBytes, good + (Header(|body|) + body + later)) == Decoded(frames, later, Some(e))
  {
    var bad := Header(|body|) + body + later;
    SizeOfHeader(|body|);
    assert bad[..4] == Header(|body|) && Size(bad) == |body|;
    assert bad[4..4+|body|] == body && bad[4+|body|..] == later;
    hide Size, ParseFrame;
    assert TakeFrame(codec, maxBytes, bad) == Rejected(later, e);
    assert Decode(codec, maxBytes, bad) == Decoded([], later, Some(e));
    DecodeAppend(codec, maxBytes, good, bad);
    assert [] + bad == bad && frames + [] == frames;
  }

  /** An oversized header behind good frames empties the buffer. */
  lemma OversizedHeaderDropsAll(
      codec: Codec, maxBytes: int, good: seq<byte>, frames: seq<JsValue>, size: nat, later: seq<byte>)
    requires Decode(codec, maxBytes, good) == Decoded(frames, [], None)
    requires maxBytes < size < 0x1_0000_0000
    ensures Decode(codec, maxBytes, good + (Header(size) + later))
            == Decoded(frames, [], Some(Oversized(size, maxBytes)))
  {
    var bad := Header(size) + later;
    SizeOfHeader(size);
    assert bad[..4] == Header(size) && Size(bad) == size;
    hide Size, ParseFrame;
    assert TakeFrame(codec, maxBytes, bad) == Rejected([], Oversized(size, maxBytes));
    DecodeAppend(codec, maxBytes, good, bad);
    assert [] + bad == bad && frames + [] == frames;
  }

  /** The pushes after a failed one return what one push of all that the error left behind would:
      everything behind a bad frame, or everything behind the chunk with an oversized header. */
  lemma LaterPushesResume(codec: Codec, maxBytes: int, buffer: seq<byte>, chunks: seq<seq<byte>>, k: nat)
    requires Decode(codec, maxBytes, buffer) == Decoded([], buffer, None) && k + 1 < |chunks|
    requires FailsIn(codec, maxBytes, buffer, chunks, k)
    ensures var left, later := Feed(codec, maxBytes, buffer, chunks).rest, chunks[k+1..];
            var whole := Decode(codec, maxBytes, buffer + Flatten(chunks));
            var resumed, behind :=
              Feed(codec, maxBytes, left, later), Decode(codec, maxBytes, left + Flatten(later));
            && whole.error.Some?
            && left + Flatten(later) == (if whole.error.value.Oversized? then Flatten(later) else whole.rest)
            && resumed.error == behind.error
            && (if behind.error == None then resumed == behind else resumed.frames <= behind.frames)
  {
    hide Decode, Feed;
    var later := chunks[k+1..];
    var failed := Decode(codec, maxBytes, buffer + Flatten(chunks[..k+1]));
    FeedStops(codec, maxBytes, buffer, chunks, k);
    assert chunks == chunks[..k+1] + later;
    FlattenAppend(chunks[..k+1], later);
    assert buffer + Flatten(chunks) == (buffer + Flatten(chunks[..k+1])) + Flatten(later);
    DecodeAppend(codec, maxBytes, buffer + Flatten(chunks[..k+1]), Flatten(later));
    OversizedLeavesNothing(codec, maxBytes, buffer + Flatten(chunks[..k+1]));
    assert [] + Flatten(later) == Flatten(later);
    ResumedPushes(codec, maxBytes, failed.rest, later);
  }

  lemma {:induction false} OversizedLeavesNothing(codec: Codec, maxBytes: int, buffer: seq<byte>)
    ensures var d := Decode(codec, maxBytes, buffer); d.error.Some? && d.error.value.Oversized? ==> d.rest == []
    decreases |buffer|
  {
    hide Size;
    var front := TakeFrame(codec, maxBytes, buffer);
    if !front.Frame? {
      BodiesAreNotOversized(codec, buffer);
    } else {
      OversizedLeavesNothing(codec, maxBytes, front.rest);
    }
  }

  lemma BodiesAreNotOversized(codec: Codec, body: seq<byte>)
    ensures forall b :: ParseFrame(codec, b).Failure? ==> !ParseFrame(codec, b).error.Oversized?
  {
  }

  /** Chunk independence from any buffer, for at least one push. */
  lemma ResumedPushes(codec: Codec, maxBytes: int, buffer: seq<byte>, chunks: seq<seq<byte>>)
    requires chunks != []
    ensures var fed := Feed(codec, maxBytes, buffer, chunks);
            var whole := Decode(codec, maxBytes, buffer + Flatten(chunks));
            fed.error == whole.error && (if whole.error == None then fed == whole else fed.frames <= whole.frames)
  {
    hide Decode;
    var first, rest := buffer + chunks[0], Flatten(chunks[1..]);
    assert buffer + Flatten(chunks) == first + rest;
    DecodeAppend(codec, maxBytes, first, rest);
    var d := Decode(codec, maxBytes, first);
    if d.error == None {
      ResidueIsInert(codec, maxBytes, first);
      ChunkIndependence(codec, maxBytes, d.rest, chunks[1..]);
    }
  }

  /** A good frame followed by a bad one, whatever their bodies: pushed together both are lost,
      pushed apart the good one is handed out. */
  lemma GoodFrameIsLost(codec: Codec, maxBytes: int, g: seq<byte>, b: seq<byte>, good: JsValue)
    requires ProtocolFrame(good) && codec.parse(g) == Some(good) && codec.parse(b) == None
    requires |g| <= maxBytes && |b| <= maxBytes && |g| < 0x1_0000_0000 && |b| < 0x1_0000_0000
    ensures var first, second := Header(|g|) + g, Header(|b|) + b;
            && Decode(codec, maxBytes, first + second) == Decoded([good], [], Some(MalformedJson))
            && Feed(codec, maxBytes, [], [first + second]) == Decoded([], [], Some(MalformedJson))
            && Feed(codec, maxBytes, [], [first, second]) == Decoded([good], [], Some(MalformedJson))
  {
    var first, second := Header(|g|) + g, Header(|b|) + b;
    OneGoodFrame(codec, maxBytes, g, good);
    assert second + [] == second && [] + second == second && [] + first == first;
    assert ParseFrame(codec, b) == Failure(MalformedJson);
    assert Decode(codec, maxBytes, []) == Decoded([], [], None);
    hide Decode, ProtocolFrame, ParseFrame, Header;
    BadBodyIsSkipped(codec, maxBytes, first, [good], b, MalformedJson, []);
    BadBodyIsSkipped(codec, maxBytes, [], [], b, MalformedJson, []);
    TwoPushes(codec, maxBytes, first, second);
  }

  lemma OneGoodFrame(codec: Codec, maxBytes: int, g: seq<byte>, good: JsValue)
    requires ProtocolFrame(good) && codec.parse(g) == Some(good)
    requires |g| <= maxBytes && |g| < 0x1_0000_0000
    ensures Decode(codec, maxBytes, Header(|g|) + g) == Decoded([good], [], None)
  {
    var stream := Header(|g|) + g;
    AcceptedIffProtocolFrame(good);
    hide ProtocolFrame, AssertProtocolFrame;
    SizeOfHeader(|g|);
    assert stream[..4] == Header(|g|) && Size(stream) == |g|;
    assert stream[4..4+|g|] == g && stream[4+|g|..] == [];
    assert TakeFrame(codec, maxBytes, stream) == Frame(good, []);
    assert TakeFrame(codec, maxBytes, []) == Incomplete;
  }

  lemma TwoPushes(codec: Codec, maxBytes: int, first: seq<byte>, second: seq<byte>)
    requires Decode(codec, maxBytes, first).error == None && Decode(codec, maxBytes, first).rest == []
    requires Decode(codec, maxBytes, second).error.Some?
    ensures Feed(codec, maxBytes, [], [first + second])
            == var d := Decode(codec, maxBytes, first + second);
               if d.error.Some? then Decoded([], d.rest, d.error) else d
    ensures Feed(codec, maxBytes, [], [first, second])
            == Decode(codec, maxBytes, first).(rest := Decode(codec, maxBytes, second).rest,
                                               error := Decode(codec, maxBytes, second).error)
  {
    hide Decode;
    assert [] + (first + second) == first + second && [] + first == first && [] + second == second;
    assert [first + second][0] == first + second && [first + second][1..] == [];
    assert [first, second][1..] == [second] && [second][1..] == [];
    assert forall s: seq<JsValue> :: s + [] == s;
  }

  /** After a successful push fewer bytes wait than the largest admissible frame occupies. */
  lemma {:induction false} ResidueBound(codec: Codec, maxBytes: int, buffer: seq<byte>)
    requires Decode(codec, maxBytes, buffer).error == None
    ensures |Decode(codec, maxBytes, buffer).rest| < 4 + if maxBytes > 0 then maxBytes else 0
    decreases |buffer|
  {
    var front := TakeFrame(codec, maxBytes, buffer);
    if !front.Frame? {
    } else {
      ResidueBound(codec, maxBytes, front.rest);
    }
  }

  // ------------------------------------------------------------ round trip

  /** A frame the two sides agree on: admissible, within both limits, and exact under JSON. */
  ghost predicate Transmissible(codec: Codec, frame: JsValue, sendLimit: int, receiveLimit: int) {
    && AssertProtocolFrame(frame).Success?
    && codec.parse(codec.render(frame)) == Some(frame)
    && EncodeFrame(codec, frame, sendLimit).Success?
    && |codec.render(frame)| <= receiveLimit
  }

  /** The encodings one after the other; None when one of them is refused. */
  function EncodeAll(codec: Codec, frames: seq<JsValue>, maxBytes: int): Option<seq<byte>> {
    if frames == [] then Some([])
    else
      match EncodeFrame(codec, frames[0], maxBytes)
      case Failure(_) => None
      case Success(first) =>
        match EncodeAll(codec, frames[1..], maxBytes)
        case None => None
        case Some(later) => Some(first + later)
  }

  lemma TakeEncoded(codec: Codec, f: JsValue, later: seq<byte>, sendLimit: int, receiveLimit: int)
    requires Transmissible(codec, f, sendLimit, receiveLimit)
    ensures TakeFrame(codec, receiveLimit, EncodeFrame(codec, f, sendLimit).value + later) == Frame(f, later)
  {
    var payload := codec.render(f);
    var stream := Header(|payload|) + payload + later;
    SizeOfHeader(|payload|);
    assert stream[..4] == Header(|payload|) && Size(stream) == |payload|;
    assert stream[4..4+|payload|] == payload && stream[4+|payload|..] == later;
  }

  lemma {:induction false} DecodeEncoded(codec: Codec, frames: seq<JsValue>, sendLimit: int, receiveLimit: int)
    requires forall f :: f in frames ==> Transmissible(codec, f, sendLimit, receiveLimit)
    ensures EncodeAll(codec, frames, sendLimit).Some?
    ensures Decode(codec, receiveLimit, EncodeAll(codec, frames, sendLimit).value) == Decoded(frames, [], None)
  {
    if frames == [] {
    } else {
      assert frames == [frames[0]] + frames[1..];
      DecodeEncoded(codec, frames[1..], sendLimit, receiveLimit);
      TakeEncoded(codec, frames[0], EncodeAll(codec, frames[1..], sendLimit).value, sendLimit, receiveLimit);
    }
  }

  /** For every list of transmissible frames and every way of cutting their encodings into
      chunks, the pushes return exactly those frames in order and leave nothing behind. */
  lemma RoundTrip(codec: Codec, frames: seq<JsValue>, sendLimit: int, receiveLimit: int, chunks: seq<seq<byte>>)
    requires forall f :: f in frames ==> Transmissible(codec, f, sendLimit, receiveLimit)
    requires EncodeAll(codec, frames, sendLimit) == Some(Flatten(chunks))
    ensures Feed(codec, receiveLimit, [], chunks) == Decoded(frames, [], None)
  {
    DecodeEncoded(codec, frames, sendLimit, receiveLimit);
    assert [] + Flatten(chunks) == Flatten(chunks);
    ChunkIndependence(codec, receiveLimit, [], chunks);
  }
}
