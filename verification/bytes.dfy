/**
  Octets and the big-endian ("network order") integer fields that the hook
  reads with ntohs. A field is read from an absolute offset of a byte
  sequence; the matching encoder is its partner, and the two round-trip.
 */
module Bytes {

  /** One octet of a packet (__u8). */
  type byte = x: int | 0 <= x < 0x100

  /** An unsigned 16-bit value (__u16). */
  type u16 = x: int | 0 <= x < 0x1_0000

  /** An unsigned 32-bit value (__u32). */
  type u32 = x: int | 0 <= x < 0x1_0000_0000

  /** The two octets of `v` in network order. */
  function EncodeBe16(v: u16): (s: seq<byte>)
    ensures |s| == 2
    ensures s[0] as int * 0x100 + s[1] == v
  {
    [v / 0x100, v % 0x100]
  }

  /** The four octets of `v` in network order. */
  function EncodeBe32(v: u32): (s: seq<byte>)
    ensures |s| == 4
    ensures ((s[0] as int * 0x100 + s[1]) * 0x100 + s[2]) * 0x100 + s[3] == v
  {
    EncodeBe16(v / 0x1_0000) + EncodeBe16(v % 0x1_0000)
  }

  /** ntohs of the 16-bit field stored at offset `at`. */
  function Be16(s: seq<byte>, at: nat): (v: u16)
    requires at + 2 <= |s|
  {
    s[at] as int * 0x100 + s[at + 1]
  }

  /** Encoding a value read from a packet gives back the two octets it was read from. */
  lemma EncodedBe16(s: seq<byte>, at: nat)
    requires at + 2 <= |s|
    ensures EncodeBe16(Be16(s, at)) == s[at..at + 2]
  {
  }

  /** Reading back an encoded 16-bit value yields the value. */
  lemma Be16OfEncoded(s: seq<byte>, at: nat, v: u16)
    requires at + 2 <= |s| && s[at..at + 2] == EncodeBe16(v)
    ensures Be16(s, at) == v
  {
    assert s[at] == s[at..at + 2][0] && s[at + 1] == s[at..at + 2][1];
  }
}
