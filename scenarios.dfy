/**
 * The unit tests of src/protocol.rs and a few more fixed inputs, stated as
 * lemmas about the parser.
 */
module ProtocolScenarios {
  import opened Bytes
  import opened Protocol

  /** The header literal itself is accepted. */
  lemma HeaderValid()
    ensures ParseAmqpHeader([0x41, 0x4D, 0x51, 0x50, 0x00, 0x00, 0x09, 0x01]) == Ok(())
  {
  }

  /** "XYZ" 0 0 9 1 is seven bytes long, so it fails as too short, not as invalid. */
  lemma HeaderInvalidIsTooShort()
    ensures ParseAmqpHeader([0x58, 0x59, 0x5A, 0x00, 0x00, 0x09, 0x01]) == Err(HeaderTooShort)
  {
  }

  /** The header with the last version octet changed to 0 is rejected as invalid,
      and so is the right header preceded by one stray byte. */
  lemma HeaderMismatch()
    ensures ParseAmqpHeader([0x41, 0x4D, 0x51, 0x50, 0x00, 0x00, 0x09, 0x00]) == Err(HeaderInvalid)
    ensures ParseAmqpHeader([0x00, 0x41, 0x4D, 0x51, 0x50, 0x00, 0x00, 0x09, 0x01]) == Err(HeaderInvalid)
  {
    var wrongVersion: seq<byte> := [0x41, 0x4D, 0x51, 0x50, 0x00, 0x00, 0x09, 0x00];
    var shifted: seq<byte> := [0x00, 0x41, 0x4D, 0x51, 0x50, 0x00, 0x00, 0x09, 0x01];
    assert wrongVersion[7] != ProtocolHeader[7];
    assert shifted[0] != ProtocolHeader[0];
  }

  /** Type 1, channel 1, payload 0A 0B 0C, frame-end 0xCE decodes to that frame. */
  lemma FrameSuccess()
    ensures ParseAmqpFrame([0x01, 0x00, 0x01, 0x00, 0x00, 0x00, 0x03, 0x0A, 0x0B, 0x0C, 0xCE])
      == Ok(AmqpFrame(1, 1, [0x0A, 0x0B, 0x0C]))
  {
    var f := AmqpFrame(1, 1, [0x0A, 0x0B, 0x0C]);
    assert ToBigEndian(1, 2) == [0x00, 0x01];
    assert ToBigEndian(3, 4) == [0x00, 0x00, 0x00, 0x03];
    assert EncodeFrame(f) == [0x01, 0x00, 0x01, 0x00, 0x00, 0x00, 0x03, 0x0A, 0x0B, 0x0C, 0xCE];
    FrameRoundTrip(f, []);
    assert EncodeFrame(f) + [] == EncodeFrame(f);
  }

  /** A one-byte payload followed by 0xAB instead of 0xCE is a bad frame-end. */
  lemma FrameInvalidEndMarker()
    ensures ParseAmqpFrame([0x01, 0x00, 0x01, 0x00, 0x00, 0x00, 0x01, 0x0A, 0xAB]) == Err(BadEndMarker)
  {
    var s: seq<byte> := [0x01, 0x00, 0x01, 0x00, 0x00, 0x00, 0x01, 0x0A, 0xAB];
    assert s[3..7] == [0x00, 0x00, 0x00, 0x01];
    assert ToBigEndian(1, 4) == [0x00, 0x00, 0x00, 0x01];
    assert PayloadLength(s) == 1;
  }

  /** The first half of a frame split across two socket reads is too short;
      the second half alone is read as a frame with size 0x00030A0B, so it
      lacks bytes. */
  lemma FrameSplitAcrossReads()
    ensures ParseAmqpFrame([0x01, 0x00]) == Err(FrameTooShort)
    ensures ParseAmqpFrame([0x01, 0x00, 0x00, 0x00, 0x03, 0x0A, 0x0B, 0x0C, 0xCE]) == Err(NotEnoughBytes)
  {
    var s: seq<byte> := [0x01, 0x00, 0x00, 0x00, 0x03, 0x0A, 0x0B, 0x0C, 0xCE];
    assert s[3..7] == [0x00, 0x03, 0x0A, 0x0B];
    assert ToBigEndian(0x030A0B, 4) == [0x00, 0x03, 0x0A, 0x0B];
    assert PayloadLength(s) == 0x030A0B;
  }
}
