# AMQP 0-9-1 wire envelope parser

This project models the framing layer of HayMQ (`src/protocol.rs`), a small AMQP 0-9-1 style broker written in Rust. The layer has two pure functions over a byte slice:

- `parse_amqp_header` checks the 8-byte protocol header `"AMQP" 0 0 9 1`. This is the header of section 4.2.2 of the AMQP 0-9-1 specification.
- `parse_amqp_frame` decodes one frame from the start of a slice. This is the general frame format of section 4.2.3 of the AMQP 0-9-1 specification. The layout is:
  - a type octet,
  - a big-endian 16-bit channel,
  - a big-endian 32-bit payload size,
  - that many payload bytes,
  - the frame-end octet `0xCE`.

Both are modelled as Dafny functions (`bytes.dfy`, `protocol.dfy`). Bytes are a `byte` newtype over `int`; `u16` and `u32` are newtypes of the matching ranges.

The `nom` parsers `be_u8`, `be_u16` and `be_u32` that the frame parser chains are modelled as reader functions. Each reader returns `None` where `nom` fails on too few bytes. Each of the three readers is proved against `BigEndian`, a reference definition of a byte run as an unsigned number, and against its inverse `ToBigEndian`. Each error string of the source is one constructor of `ParseError`. The `AmqpFrame` datatype models the `AmqpFrame` struct of src/protocol.rs:9-14: a type byte, a 16-bit channel and the payload bytes.

The main results:
- the exact conditions for each outcome of both parsers (too short, invalid header, not enough bytes, bad frame-end, success);
- the "failed to parse frame header" branch can never be taken;
- encoding a frame and parsing it yields the frame, whatever bytes follow;
- re-encoding a parsed frame reproduces the bytes it was parsed from;
- bytes after a complete frame or after the header change nothing.

The parser is single-shot, as the code is. `src/connection.rs` hands each socket read to `parse_amqp_frame` on its own. There is no decode buffer kept across reads, no extraction of several frames from one read, and no payload-size cap. Two further points of the code's behaviour:
- It accepts a header input longer than 8 bytes when it starts with the literal.
- It returns an error, rather than waiting for more data, when a frame is incomplete.

## Model

| member | source | states |
|---|---|---|
| Bytes.BigEndian | src/protocol.rs:45 | the number denoted by n big-endian bytes is below 256^n, so a 2-byte read fits a u16 and a 4-byte read a u32 |
| Bytes.ToBigEndian | src/protocol.rs:95-96 | `to_be_bytes`: writes v as exactly n big-endian bytes, and those bytes read back as v |
| Bytes.ToBigEndianOfBigEndian | src/protocol.rs:45 | reading bytes as a big-endian number and writing it back at the same width gives the same bytes (the other half of the round trip) |
| Bytes.ReadU8 | src/protocol.rs:45 | `be_u8` succeeds exactly when one byte is present; the value is the big-endian number of the first byte, and its encoding followed by the rest is the input |
| Bytes.ReadBeU16 | src/protocol.rs:45 | `be_u16` succeeds exactly when two bytes are present; the value is the big-endian number of the first two bytes, and its encoding followed by the rest is the input |
| Bytes.ReadBeU32 | src/protocol.rs:45 | `be_u32` succeeds exactly when four bytes are present; the value is the big-endian number of the first four bytes, and its encoding followed by the rest is the input |
| Protocol.ParseAmqpHeader | src/protocol.rs:19-29 | Ok exactly when there are at least 8 bytes and the first 8 equal `41 4D 51 50 00 00 09 01`; "too short" exactly when there are fewer than 8; any other outcome is "invalid" |
| Protocol.HeaderPrefixIndependent | src/protocol.rs:20-28 | bytes after the first 8 never change the header result, which depends on the first 8 bytes alone |
| Protocol.ParseFrameHeader | src/protocol.rs:45-49 | the `nom` tuple of three readers succeeds exactly when 7 bytes are present, and type, encoded channel, encoded size and remainder put together are the input |
| Protocol.HeaderFields | src/protocol.rs:45-49 | the header reader's type is byte 0, its channel the big-endian number of bytes 1-2, its size that of bytes 3-6, and its remainder everything from byte 7 |
| Protocol.ParseAmqpFrame | src/protocol.rs:39-67 | "too short" exactly when fewer than 8 bytes; never "failed to parse frame header"; with at least 8 bytes, "not enough bytes" exactly when fewer than 7 + size + 1; with enough bytes, "bad frame-end" exactly when byte 7 + size is not 0xCE; Ok exactly when it is; on Ok, the type is byte 0, the channel bytes 1-2 big-endian, and the payload bytes 7 to 7 + size |
| Protocol.EncodeFrame | src/protocol.rs:93-98 | the wire bytes of a frame (type, 2-byte channel, 4-byte size, payload, 0xCE) are 8 plus the payload length long |
| Protocol.FrameRoundTrip | src/protocol.rs:86-104 | parsing the encoding of any frame, followed by any bytes, gives back that frame |
| Protocol.ParsedFrameEncodes | src/protocol.rs:52-66 | a parsed frame's payload fits the 32-bit size field, and re-encoding the frame gives exactly the first 7 + size + 1 input bytes |
| Protocol.FramePrefixIndependent | src/protocol.rs:52-60 | once 7 + size + 1 bytes are present, appending any bytes leaves the result unchanged, whether that result is a frame or a bad frame-end |
| ProtocolScenarios.HeaderValid | src/protocol.rs:73-77 | the header literal is accepted |
| ProtocolScenarios.HeaderInvalidIsTooShort | src/protocol.rs:79-83 | the 7-byte input `"XYZ" 0 0 9 1` of the test is rejected as too short |
| ProtocolScenarios.HeaderMismatch | src/protocol.rs:24-28 | `41 4D 51 50 00 00 09 00`, and the right header shifted by one leading byte, are rejected as invalid |
| ProtocolScenarios.FrameSuccess | src/protocol.rs:85-104 | `01 00 01 00 00 00 03 0A 0B 0C CE` decodes to type 1, channel 1, payload `0A 0B 0C` |
| ProtocolScenarios.FrameInvalidEndMarker | src/protocol.rs:106-118 | a one-byte payload followed by `AB` is a bad frame-end |
| ProtocolScenarios.FrameSplitAcrossReads | src/connection.rs:34-35 | each read is parsed on its own: with the test frame split after `01 00`, the first read is too short and the second, read with size 0x00030A0B, lacks bytes |

## Left out

- `src/connection.rs`: the per-connection task is tokio socket I/O, logging and boxed errors around `parse_amqp_frame`. It reads the header with `read_exact`, then parses each read on its own and writes an ack string. It is not modelled.
- `src/main.rs`: the TCP listener, the accept loop, the spawning of one task per connection and the logger set-up are not modelled.
- The `nom` library itself is not modelled. Only the effect of its three big-endian number parsers on a complete slice is.
- Exact error message text is not modelled. Each message is one `ParseError` constructor.
- Protocol.ParseAmqpFrame: assumes a 64-bit `usize`. On a 32-bit target, `payload_len as usize + 1` at src/protocol.rs:52 could overflow for a size of 2^32 - 1, and the model does not capture that.
- An incremental decoder, several frames per read, a payload-size cap and connection state changes on error are not modelled. The code has none of them.
