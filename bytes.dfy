/**
 * Unsigned machine integers and big-endian reads over byte slices.
 *
 * The readers below model the three `nom` number parsers the frame parser
 * combines (`be_u8`, `be_u16`, `be_u32` from `nom::number::complete`): each
 * takes a number off the front of a slice and hands back the rest, and fails
 * when the slice holds fewer bytes than the number needs. `BigEndian` is the
 * reference meaning of a run of bytes as an unsigned big-endian number, and
 * `ToBigEndian` is its inverse for a fixed width.
 */
module Bytes {

  newtype byte = x: int | 0 <= x < 0x100
  newtype u16 = x: int | 0 <= x < 0x1_0000
  newtype u32 = x: int | 0 <= x < 0x1_0000_0000

  datatype Option<T> = None | Some(value: T)

  /** 256 to the power n: one more than the largest number n bytes can hold. */
  function Pow256(n: nat): (p: nat)
    ensures p >= 1
  {
    if n == 0 then 1 else 256 * Pow256(n - 1)
  }

  /** The unsigned number whose big-endian base-256 digits are `s`. */
  function BigEndian(s: seq<byte>): (v: nat)
    ensures v < Pow256(|s|)
  {
    if s == [] then 0 else BigEndian(s[..|s| - 1]) * 256 + s[|s| - 1] as int
  }

  /** The `n` big-endian bytes of `v`, most significant first. */
  function ToBigEndian(v: nat, n: nat): (s: seq<byte>)
    requires v < Pow256(n)
    ensures |s| == n && BigEndian(s) == v
  {
    if n == 0 then []
    else
      var s := ToBigEndian(v / 256, n - 1) + [(v % 256) as byte];
      assert s[..|s| - 1] == ToBigEndian(v / 256, n - 1);
      s
  }

  /** Reading a run of bytes as a number loses nothing: writing the number
      back at the same width gives the same bytes. */
  lemma {:induction false} ToBigEndianOfBigEndian(s: seq<byte>)
    ensures ToBigEndian(BigEndian(s), |s|) == s
  {
    if s != [] {
      var init := s[..|s| - 1];
      ToBigEndianOfBigEndian(init);
      var v := BigEndian(s);
      assert v / 256 == BigEndian(init) && v % 256 == s[|s| - 1] as int;
      assert s == init + [s[|s| - 1]];
    }
  }

  /** `be_u8`: one byte off the front of the slice. */
  function ReadU8(s: seq<byte>): (r: Option<(byte, seq<byte>)>)
    ensures r.Some? <==> |s| >= 1
    ensures r.Some? ==> r.value.0 as int == BigEndian(s[..1])
    ensures r.Some? ==> ToBigEndian(r.value.0 as nat, 1) + r.value.1 == s
  {
    if |s| < 1 then None
    else
      assert s[..1][..0] == [];
      ToBigEndianOfBigEndian(s[..1]);
      assert s == s[..1] + s[1..];
      Some((s[0], s[1..]))
  }

  /** `be_u16`: a big-endian 16-bit number off the front of the slice. */
  function ReadBeU16(s: seq<byte>): (r: Option<(u16, seq<byte>)>)
    ensures r.Some? <==> |s| >= 2
    ensures r.Some? ==> r.value.0 as int == BigEndian(s[..2])
    ensures r.Some? ==> ToBigEndian(r.value.0 as nat, 2) + r.value.1 == s
  {
    if |s| < 2 then None
    else
      var v := (s[0] as int * 0x100 + s[1] as int) as u16;
      assert s[..2][..1] == s[..1] && s[..1][..0] == [];
      ToBigEndianOfBigEndian(s[..2]);
      assert s == s[..2] + s[2..];
      Some((v, s[2..]))
  }

  /** `be_u32`: a big-endian 32-bit number off the front of the slice. */
  function ReadBeU32(s: seq<byte>): (r: Option<(u32, seq<byte>)>)
    ensures r.Some? <==> |s| >= 4
    ensures r.Some? ==> r.value.0 as int == BigEndian(s[..4])
    ensures r.Some? ==> ToBigEndian(r.value.0 as nat, 4) + r.value.1 == s
  {
    if |s| < 4 then None
    else
      var v := (s[0] as int * 0x100_0000 + s[1] as int * 0x1_0000
                + s[2] as int * 0x100 + s[3] as int) as u32;
      assert s[..1][..0] == [] && BigEndian(s[..1]) == s[0] as int;
      assert s[..2][..1] == s[..1] && BigEndian(s[..2]) == s[0] as int * 0x100 + s[1] as int;
      assert s[..3][..2] == s[..2];
      assert s[..4][..3] == s[..3];
      ToBigEndianOfBigEndian(s[..4]);
      assert s == s[..4] + s[4..];
      Some((v, s[4..]))
  }
}
