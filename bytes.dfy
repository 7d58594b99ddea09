/** Byte-level helpers shared by the SACP codec: fixed-width integer types,
    Go's truncating conversions and the little-endian field layouts written
    with `binary.LittleEndian` and `writeSACPstring`/`writeSACPbytes`. */
module Bytes {

  type byte = x: int | 0 <= x < 0x100
  type uint16 = x: int | 0 <= x < 0x1_0000
  type uint32 = x: int | 0 <= x < 0x1_0000_0000

  /** Go's `uint16(x)`: keeps the low 16 bits (two's complement for negatives). */
  function Trunc16(x: int): (r: uint16)
    ensures 0 <= x < 0x1_0000 ==> r == x
  {
    x % 0x1_0000
  }

  /** Go's `uint32(x)`. */
  function Trunc32(x: int): (r: uint32)
    ensures 0 <= x < 0x1_0000_0000 ==> r == x
  {
    x % 0x1_0000_0000
  }

  /** `binary.LittleEndian.PutUint16`. */
  function LE16(x: uint16): (r: seq<byte>)
    ensures |r| == 2
  {
    [x % 0x100, x / 0x100]
  }

  /** `binary.LittleEndian.Uint16` on the first two bytes of `s`. */
  function ReadLE16(s: seq<byte>): (r: uint16)
    requires |s| >= 2
  {
    s[0] as int + 0x100 * (s[1] as int)
  }

  /** `binary.LittleEndian.PutUint32` (`writeLE` of a uint32). */
  function LE32(x: uint32): (r: seq<byte>)
    ensures |r| == 4
  {
    [x % 0x100, (x / 0x100) % 0x100, (x / 0x1_0000) % 0x100, x / 0x100_0000]
  }

  /** `writeSACPstring` / `writeSACPbytes`: a uint16 length, then the bytes. */
  function LenPrefixed(s: seq<byte>): (r: seq<byte>)
    ensures |r| == 2 + |s| && r[2..] == s
  {
    LE16(Trunc16(|s|)) + s
  }

  lemma LE16RoundTrip(x: uint16)
    ensures ReadLE16(LE16(x)) == x
  {
  }

  lemma ReadLE16RoundTrip(s: seq<byte>)
    requires |s| >= 2
    ensures LE16(ReadLE16(s)) == s[..2]
  {
  }

  /** The length prefix written by `LenPrefixed` reads back as the length
      whenever it fits 16 bits, so the prefixed bytes can be cut out again. */
  lemma LenPrefixedRoundTrip(s: seq<byte>, rest: seq<byte>)
    requires |s| < 0x1_0000
    ensures var w := LenPrefixed(s) + rest;
            ReadLE16(w) == |s| && w[2..2 + |s|] == s && w[2 + |s|..] == rest
  {
    var w := LenPrefixed(s) + rest;
    assert w[2..2 + |s|] == s;
    assert w[2 + |s|..] == rest;
  }

  /** `binary.LittleEndian.PutUint16(b[at:at+2], x)`. */
  method PutUint16(b: array<byte>, at: nat, x: uint16)
    requires at + 2 <= b.Length
    modifies b
    ensures b[at..at + 2] == LE16(x)
    ensures b[..at] == old(b[..at]) && b[at + 2..] == old(b[at + 2..])
  {
    var w := LE16(x);
    b[at], b[at + 1] := w[0], w[1];
  }

  /** Go's `copy(b[at:], src)` when `src` fits. */
  method CopyInto(b: array<byte>, at: nat, src: seq<byte>)
    requires at + |src| <= b.Length
    modifies b
    ensures b[at..at + |src|] == src
    ensures b[..at] == old(b[..at]) && b[at + |src|..] == old(b[at + |src|..])
  {
    var k := 0;
    while k < |src|
      invariant 0 <= k <= |src|
      invariant b[at..at + k] == src[..k]
      invariant forall i | 0 <= i < b.Length && !(at <= i < at + k) :: b[i] == old(b[i])
    {
      b[at + k] := src[k];
      k := k + 1;
      assert b[at..at + k] == b[at..at + k - 1] + [src[k - 1]];
    }
  }
}
