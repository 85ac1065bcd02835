/**
 * The AMQP 0-9-1 wire envelope: the 8-byte protocol header of section 4.2.2
 * of the AMQP 0-9-1 specification and the general frame format of section
 * 4.2.3, decoded single-shot from the start of one byte slice.
 *
 * A frame on the wire is
 *   [type: 1 byte][channel: 2 bytes, big-endian][size: 4 bytes, big-endian]
 *   [payload: size bytes][frame-end: 1 byte, 0xCE]
 * and the parser reports neither how many bytes it used nor anything about
 * the bytes after the frame-end octet.
 */
module Protocol {
  import opened Bytes

  /** One constructor per error string the parser returns. */
  datatype ParseError =
    | HeaderTooShort      // "AMQP header too short"
    | HeaderInvalid       // "Invalid AMQP header"
    | FrameTooShort       // "Input too short for a valid frame"
    | HeaderParseFailed   // "Failed to parse frame header"
    | NotEnoughBytes      // "Not enough bytes for payload + frame-end"
    | BadEndMarker        // "Invalid frame-end marker, expected 0xCE"

  datatype Result<T> = Ok(value: T) | Err(error: ParseError)

  /** A decoded frame: its type octet, its channel and its payload bytes. */
  datatype AmqpFrame = AmqpFrame(frameType: byte, channel: u16, payload: seq<byte>)

  /** "AMQP" followed by 0, 0, 9, 1: protocol id 0, version 0-9-1. */
  const ProtocolHeader: seq<byte> := [0x41, 0x4D, 0x51, 0x50, 0x00, 0x00, 0x09, 0x01]

  /** The octet that must follow every frame's payload. */
  const FrameEnd: byte := 0xCE

  /** The size field of a frame: bytes 3 to 6 of the input, big-endian. */
  function PayloadLength(input: seq<byte>): nat
    requires |input| >= 7
  {
    BigEndian(input[3..7])
  }

  /** The bytes a whole frame occupies: 7 header bytes, the payload, the frame-end octet. */
  function FrameLength(input: seq<byte>): nat
    requires |input| >= 7
  {
    7 + PayloadLength(input) + 1
  }

  /** Checks the protocol header at the start of `input`. Shorter inputs are
      "too short"; longer ones are accepted when they start with the header. */
  function ParseAmqpHeader(input: seq<byte>): (r: Result<()>)
    ensures r == Ok(()) <==>
      |input| >= 8 && forall i :: 0 <= i < 8 ==> input[i] == ProtocolHeader[i]
    ensures r == Err(HeaderTooShort) <==> |input| < 8
    ensures r.Err? ==> r.error == HeaderTooShort || r.error == HeaderInvalid
  {
    if |input| < |ProtocolHeader| then Err(HeaderTooShort)
    else if input[..|ProtocolHeader|] == ProtocolHeader then Ok(())
    else Err(HeaderInvalid)
  }

  /** The 7-byte frame header (type, channel, payload size) read by the
      `nom` tuple of `be_u8`, `be_u16` and `be_u32`, with the bytes after it. */
  function ParseFrameHeader(input: seq<byte>): (r: Option<(byte, u16, u32, seq<byte>)>)
    ensures r.Some? <==> |input| >= 7
    ensures r.Some? ==>
      [r.value.0] + ToBigEndian(r.value.1 as nat, 2) + ToBigEndian(r.value.2 as nat, 4)
        + r.value.3 == input
  {
    match ReadU8(input)
    case None => None
    case Some((frameType, afterType)) =>
      match ReadBeU16(afterType)
      case None => None
      case Some((channel, afterChannel)) =>
        match ReadBeU32(afterChannel)
        case None => None
        case Some((payloadLen, remainder)) =>
          Some((frameType, channel, payloadLen, remainder))
  }

  /** Decodes one frame from the start of `input`. */
  function ParseAmqpFrame(input: seq<byte>): (r: Result<AmqpFrame>)
    ensures r == Err(FrameTooShort) <==> |input| < 8
    ensures r != Err(HeaderParseFailed)
    ensures |input| >= 8 ==>
      (r == Err(NotEnoughBytes) <==> |input| < FrameLength(input))
    ensures |input| >= 8 && |input| >= FrameLength(input) ==>
      (r == Err(BadEndMarker) <==> input[FrameLength(input) - 1] != FrameEnd)
    ensures r.Ok? <==>
      |input| >= 8 && |input| >= FrameLength(input) && input[FrameLength(input) - 1] == FrameEnd
    ensures r.Ok? ==>
      r.value.frameType == input[0]
      && r.value.channel as int == BigEndian(input[1..3])
      && r.value.payload == input[7..7 + PayloadLength(input)]
  {
    if |input| < 8 then Err(FrameTooShort)
    else
      match ParseFrameHeader(input)
      case None => Err(HeaderParseFailed)
      case Some((frameType, channel, payloadLen, remainder)) =>
        HeaderFields(input);
        if |remainder| < payloadLen as int + 1 then Err(NotEnoughBytes)
        else
          var payload, lastByte := remainder[..payloadLen], remainder[payloadLen..];
          if lastByte[0] != FrameEnd then Err(BadEndMarker)
          else Ok(AmqpFrame(frameType, channel, payload))
  }

  /** What the frame header reader takes from each position of the input. */
  lemma HeaderFields(input: seq<byte>)
    requires |input| >= 7
    ensures ParseFrameHeader(input).Some?
    ensures var (frameType, channel, payloadLen, remainder) := ParseFrameHeader(input).value;
      frameType == input[0]
      && channel as int == BigEndian(input[1..3])
      && payloadLen as int == PayloadLength(input)
      && remainder == input[7..]
  {
    var (frameType, channel, payloadLen, remainder) := ParseFrameHeader(input).value;
    var c, l := ToBigEndian(channel as nat, 2), ToBigEndian(payloadLen as nat, 4);
    assert input == [frameType] + c + l + remainder;
    assert input[1..3] == c && input[3..7] == l && input[7..] == remainder;
  }

  /** The bytes of `f` on the wire. */
  function EncodeFrame(f: AmqpFrame): (s: seq<byte>)
    requires |f.payload| < 0x1_0000_0000
    ensures |s| == 8 + |f.payload|
  {
    assert Pow256(2) == 0x1_0000 && Pow256(4) == 0x1_0000_0000;
    [f.frameType] + ToBigEndian(f.channel as nat, 2) + ToBigEndian(|f.payload|, 4)
      + f.payload + [FrameEnd]
  }

  /** Encoding a frame and parsing the result, with any bytes after it,
      gives the frame back. */
  lemma FrameRoundTrip(f: AmqpFrame, rest: seq<byte>)
    requires |f.payload| < 0x1_0000_0000
    ensures ParseAmqpFrame(EncodeFrame(f) + rest) == Ok(f)
  {
    var s := EncodeFrame(f) + rest;
    var n := |f.payload|;
    var c, l := ToBigEndian(f.channel as nat, 2), ToBigEndian(n, 4);
    assert s == [f.frameType] + c + l + f.payload + [FrameEnd] + rest;
    assert s[1..3] == c && s[3..7] == l;
    assert PayloadLength(s) == n;
    assert s[7..7 + n] == f.payload && s[7 + n] == FrameEnd;
    var r := ParseAmqpFrame(s);
    assert r.Ok?;
    assert r.value.channel == f.channel;
  }

  /** A parsed frame, encoded again, reproduces exactly the bytes it was
      parsed from, up to and including its frame-end octet. */
  lemma ParsedFrameEncodes(input: seq<byte>)
    requires ParseAmqpFrame(input).Ok?
    ensures |ParseAmqpFrame(input).value.payload| < 0x1_0000_0000
    ensures EncodeFrame(ParseAmqpFrame(input).value) == input[..FrameLength(input)]
  {
    var f := ParseAmqpFrame(input).value;
    var n := PayloadLength(input);
    assert Pow256(4) == 0x1_0000_0000;
    ToBigEndianOfBigEndian(input[1..3]);
    ToBigEndianOfBigEndian(input[3..7]);
    assert input[..FrameLength(input)]
      == [input[0]] + input[1..3] + input[3..7] + input[7..7 + n] + [input[7 + n]];
  }

  /** Once a whole frame is present, bytes after it change nothing: the
      result depends only on the first FrameLength(input) bytes. */
  lemma FramePrefixIndependent(input: seq<byte>, extra: seq<byte>)
    requires |input| >= 8 && |input| >= FrameLength(input)
    ensures ParseAmqpFrame(input + extra) == ParseAmqpFrame(input)
  {
    var s := input + extra;
    var n := PayloadLength(input);
    assert s[1..3] == input[1..3] && s[3..7] == input[3..7];
    assert PayloadLength(s) == n;
    assert s[7..7 + n] == input[7..7 + n];
  }

  /** Bytes after the first eight never change the header check. */
  lemma HeaderPrefixIndependent(input: seq<byte>, extra: seq<byte>)
    requires |input| >= 8
    ensures ParseAmqpHeader(input + extra) == ParseAmqpHeader(input)
    ensures ParseAmqpHeader(input) == ParseAmqpHeader(input[..8])
  {
    assert forall i :: 0 <= i < 8 ==> (input + extra)[i] == input[i] == input[..8][i];
  }
}
