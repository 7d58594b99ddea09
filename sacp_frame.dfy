/** The SACP binary frame of sacp.go: `SACP_pack`, its `Encode` and `Decode`.

    Frame layout (15 + |data| bytes):
      AA 55 | LE16 |data|+8 | 01 | receiver | CRC-8 of bytes 0..5 |
      sender | attribute | LE16 sequence | command set | command id |
      data | LE16 U16Chksum of bytes 7 .. end of data */
module SacpFrame {
  import opened Bytes
  import opened Wrappers
  import opened Checksum

  /** The four error values of sacp.go:24-27. */
  datatype SacpError =
    | InvalidSize     // errInvalidSize, "SACP package is too short"
    | InvalidSacp     // errInvalidSACP, bad magic
    | InvalidVersion  // errInvalidSACPVer
    | InvalidChksum   // errInvalidChksum, header or trailing checksum

  /** The fields of `SACP_pack`. */
  datatype Pack = Pack(
    receiverId: byte,
    senderId: byte,
    attribute: byte,
    sequence: uint16,
    commandSet: byte,
    commandId: byte,
    data: seq<byte>)

  /** The largest data length whose length field `|data| + 8` fits 16 bits. */
  const MaxData: int := 0xFFFF - 8

  /** Bytes 0..5: magic, length field (truncated to 16 bits as Go's
      `uint16(len(sacp.Data)+6+2)` does), version and receiver. */
  function Head(p: Pack): (r: seq<byte>)
    ensures |r| == 6
  {
    [0xAA, 0x55] + LE16(Trunc16(|p.data| + 8)) + [1, p.receiverId]
  }

  /** Bytes 7 .. end of data: the part covered by the trailing checksum. */
  function Body(p: Pack): (r: seq<byte>)
    ensures |r| == 6 + |p.data|
  {
    [p.senderId, p.attribute] + LE16(p.sequence) + [p.commandSet, p.commandId] + p.data
  }

  /** The frame `SACP_pack.Encode` produces. */
  function EncodeFrame(p: Pack): (r: seq<byte>)
    ensures |r| == 15 + |p.data|
  {
    Head(p) + [Crc8(Head(p))] + Body(p) + LE16(U16Checksum(Body(p)))
  }

  /** The validation of `Decode` (sacp.go:71-89), in the Go code's order; `None`
      when every check passes. */
  function Check(d: seq<byte>): (r: Option<SacpError>)
  {
    if |d| < 13 then Some(InvalidSize)
    else if d[0] != 0xAA || d[1] != 0x55 then Some(InvalidSacp)
    else if ReadLE16(d[2..4]) != |d| - 7 then Some(InvalidSize)
    else if d[4] != 1 then Some(InvalidVersion)
    else if Crc8(d[..6]) != d[6] then Some(InvalidChksum)
    else if ReadLE16(d[|d| - 2..]) != U16Checksum(d[7..|d| - 2]) then Some(InvalidChksum)
    else None
  }

  /** What `Decode` needs of its input: a frame that passes every check must
      be at least 15 bytes long, or `data[13:len(data)-2]` (sacp.go:97) has
      its low bound above its high bound and Go panics. */
  predicate Decodable(d: seq<byte>)
  {
    Check(d).Some? || |d| >= 15
  }

  /** The result of `Decode`: the first failing check, or the fields. */
  function DecodeFrame(d: seq<byte>): (r: Result<Pack, SacpError>)
    requires Decodable(d)
  {
    match Check(d)
    case Some(e) => Err(e)
    case None => Ok(Pack(d[5], d[7], d[8], ReadLE16(d[9..11]), d[11], d[12], d[13..|d| - 2]))
  }

  // ---------------------------------------------------------------------------
  // The Go struct and its two methods.
  // ---------------------------------------------------------------------------

  /** `SACP_pack` as the Go code uses it: `Decode` assigns its fields. */
  class SacpPack {
    var receiverId: byte
    var senderId: byte
    var attribute: byte
    var sequence: uint16
    var commandSet: byte
    var commandId: byte
    var data: seq<byte>

    function Value(): Pack
      reads this
    {
      Pack(receiverId, senderId, attribute, sequence, commandSet, commandId, data)
    }

    /** A struct literal. */
    constructor (p: Pack)
      ensures Value() == p
    {
      receiverId, senderId, attribute := p.receiverId, p.senderId, p.attribute;
      sequence, commandSet, commandId, data := p.sequence, p.commandSet, p.commandId, p.data;
    }

    /** `Encode` (sacp.go:46-68): fills a zeroed buffer of 15 + |data| bytes
        index by index. */
    method Encode() returns (frame: seq<byte>)
      ensures frame == EncodeFrame(Value())
    {
      ghost var v := Value();
      var n := |data|;
      var result := new byte[15 + n](_ => 0);
      PutHeader(result);
      if n > 0 {
        CopyInto(result, 13, data);
      }
      FrameFront(v, result[..]);
      var sum := U16Chksum(result[7..], n + 6);
      PutUint16(result, 13 + n, sum);
      FrameWhole(v, result[..]);
      frame := result[..];
    }

    /** Bytes 0..12 of `Encode` (sacp.go:49-59), written one by one. */
    method PutHeader(result: array<byte>)
      requires result.Length == 15 + |data|
      modifies result
      ensures result[..13] == EncodeFrame(Value())[..13]
      ensures result[13..] == old(result[13..])
    {
      ghost var v := Value();
      PutPrefix(result);
      ghost var first := result[..7];
      PutRoute(result);
      assert result[..13] == first + result[7..13];
      FrameParts(v);
      HeadBytes(v);
    }

    /** Bytes 0..6: magic, length, version, receiver and the header CRC. */
    method PutPrefix(result: array<byte>)
      requires result.Length == 15 + |data|
      modifies result
      ensures result[..7] == Head(Value()) + [Crc8(Head(Value()))]
      ensures result[7..] == old(result[7..])
    {
      ghost var v := Value();
      result[0] := 0xAA;
      result[1] := 0x55;
      PutUint16(result, 2, Trunc16(|data| + 6 + 2));
      result[4] := 0x01;
      result[5] := receiverId;
      HeadBytes(v);
      assert result[..6] == Head(v);
      var crc := HeadChksum(result[..6]);
      result[6] := crc;
    }

    /** Bytes 7..12: sender, attribute, sequence, command set and id. */
    method PutRoute(result: array<byte>)
      requires result.Length == 15 + |data|
      modifies result
      ensures result[7..13] == Body(Value())[..6]
      ensures result[..7] == old(result[..7]) && result[13..] == old(result[13..])
    {
      result[7] := senderId;
      result[8] := attribute;
      PutUint16(result, 9, sequence);
      assert result[9..11] == LE16(sequence);
      result[11] := commandSet;
      result[12] := commandId;
      assert result[7..13] == [senderId, attribute] + result[9..11] + [commandSet, commandId];
    }

    /** `Decode` (sacp.go:70-100): on an error the fields keep their values. */
    method Decode(d: seq<byte>) returns (err: Option<SacpError>)
      requires Decodable(d)
      modifies this
      ensures err == Check(d)
      ensures err.None? ==> Value() == DecodeFrame(d).value
      ensures err.Some? ==> Value() == old(Value())
    {
      if |d| < 13 {
        return Some(InvalidSize);
      }
      if d[0] != 0xAA || d[1] != 0x55 {
        return Some(InvalidSacp);
      }
      var dataLen := ReadLE16(d[2..4]);
      if dataLen != |d| - 7 {
        return Some(InvalidSize);
      }
      if d[4] != 0x01 {
        return Some(InvalidVersion);
      }
      var head := HeadChksum(d[..6]);
      if head != d[6] {
        return Some(InvalidChksum);
      }
      var sum := U16Chksum(d[7..], dataLen - 2);
      assert d[7..][..dataLen - 2] == d[7..|d| - 2];
      if ReadLE16(d[|d| - 2..]) != sum {
        return Some(InvalidChksum);
      }
      receiverId := d[5];
      senderId := d[7];
      attribute := d[8];
      sequence := ReadLE16(d[9..11]);
      commandSet := d[11];
      commandId := d[12];
      data := d[13..|d| - 2];
      err := None;
    }

    /** `Decode` with the corrected size check of `DecodeChecked`. */
    method DecodeFixed(d: seq<byte>) returns (err: Option<SacpError>)
      modifies this
      ensures DecodeChecked(d).Err? ==> err == Some(DecodeChecked(d).error) && Value() == old(Value())
      ensures DecodeChecked(d).Ok? ==> err == None && Value() == DecodeChecked(d).value
    {
      if |d| < 15 {
        return Some(InvalidSize);
      }
      err := Decode(d);
    }
  }

  // ---------------------------------------------------------------------------
  // Properties of the codec.
  // ---------------------------------------------------------------------------

  lemma HeadBytes(p: Pack)
    ensures Head(p) == [0xAA, 0x55, LE16(Trunc16(|p.data| + 8))[0], LE16(Trunc16(|p.data| + 8))[1], 1, p.receiverId]
  {
  }

  /** The encoded frame cut at offsets 13 and |data| + 13. */
  lemma FrameParts(p: Pack)
    ensures var f := EncodeFrame(p);
            var len := LE16(Trunc16(|p.data| + 8));
            var sq := LE16(p.sequence);
            && f[..13] == [0xAA, 0x55, len[0], len[1], 1, p.receiverId, Crc8(Head(p)),
                           p.senderId, p.attribute, sq[0], sq[1], p.commandSet, p.commandId]
            && f[7..13] == Body(p)[..6]
            && f[13..13 + |p.data|] == p.data
            && f[13 + |p.data|..] == LE16(U16Checksum(Body(p)))
  {
    var f := EncodeFrame(p);
    assert f == (Head(p) + [Crc8(Head(p))] + Body(p)[..6]) + p.data + LE16(U16Checksum(Body(p)));
  }

  /** A buffer holding the first 13 bytes of a frame and then its data holds
      the frame up to the trailing checksum, and so the bytes it covers. */
  lemma FrameFront(p: Pack, r: seq<byte>)
    requires |r| == 15 + |p.data|
    requires r[..13] == EncodeFrame(p)[..13] && r[13..13 + |p.data|] == p.data
    ensures r[..13 + |p.data|] == EncodeFrame(p)[..13 + |p.data|]
    ensures r[7..][..|p.data| + 6] == Body(p)
  {
    var f := EncodeFrame(p);
    var n := |p.data|;
    FrameParts(p);
    assert r[..13 + n] == r[..13] + r[13..13 + n];
    assert f[..13 + n] == f[..13] + f[13..13 + n];
    assert r[7..][..n + 6] == r[7..13] + r[13..13 + n];
    assert Body(p) == Body(p)[..6] + p.data;
  }

  /** ... and once the checksum is written after the data, the whole frame. */
  lemma FrameWhole(p: Pack, r: seq<byte>)
    requires |r| == 15 + |p.data|
    requires r[..13 + |p.data|] == EncodeFrame(p)[..13 + |p.data|]
    requires r[13 + |p.data|..] == LE16(U16Checksum(Body(p)))
    ensures r == EncodeFrame(p)
  {
    var f := EncodeFrame(p);
    var n := |p.data|;
    FrameParts(p);
    assert r == r[..13 + n] + r[13 + n..];
    assert f == f[..13 + n] + f[13 + n..];
  }

  /** The fixed layout of an encoded frame: magic, version, the length field
      `|data| + 8` (when it fits 16 bits), the header CRC over bytes 0..5 and
      the trailing checksum over the |data| + 6 bytes from offset 7. */
  lemma EncodeLayout(p: Pack)
    requires |p.data| <= MaxData
    ensures var f := EncodeFrame(p);
            && f[0] == 0xAA && f[1] == 0x55 && f[4] == 1 && f[5] == p.receiverId
            && ReadLE16(f[2..4]) == |p.data| + 8 == |f| - 7
            && f[6] == Crc8(f[..6])
            && f[7..13] == [p.senderId, p.attribute] + LE16(p.sequence) + [p.commandSet, p.commandId]
            && f[13..|f| - 2] == p.data
            && ReadLE16(f[|f| - 2..]) == U16Checksum(f[7..7 + |p.data| + 6])
  {
    var f := EncodeFrame(p);
    assert f[..6] == Head(p);
    assert f[7..7 + |p.data| + 6] == Body(p);
    assert f[13..|f| - 2] == Body(p)[6..];
    assert f[|f| - 2..] == LE16(U16Checksum(Body(p)));
    LE16RoundTrip(U16Checksum(Body(p)));
  }

  /** Round trip: every frame whose length field fits decodes back to itself. */
  lemma DecodeEncode(p: Pack)
    requires |p.data| <= MaxData
    ensures Decodable(EncodeFrame(p))
    ensures DecodeFrame(EncodeFrame(p)) == Ok(p)
  {
    var f := EncodeFrame(p);
    EncodeLayout(p);
    assert f[7..|f| - 2] == f[7..7 + |p.data| + 6];
    assert Check(f) == None;
    LE16RoundTrip(p.sequence);
    assert f[9..11] == LE16(p.sequence);
  }

  /** The converse: `Decode` accepts nothing but encoded frames, so every
      accepted input is exactly the encoding of the fields it yields. */
  lemma EncodeDecode(d: seq<byte>)
    requires Decodable(d) && DecodeFrame(d).Ok?
    ensures |DecodeFrame(d).value.data| <= MaxData
    ensures EncodeFrame(DecodeFrame(d).value) == d
  {
    var p := DecodeFrame(d).value;
    ReadLE16RoundTrip(d[2..4]);
    ReadLE16RoundTrip(d[9..11]);
    ReadLE16RoundTrip(d[|d| - 2..]);
    assert Head(p) == d[..6];
    assert Body(p) == d[7..|d| - 2];
    var f := EncodeFrame(p);
    assert f == d[..6] + [d[6]] + d[7..|d| - 2] + d[|d| - 2..];
  }

  /** Length-field invariant, reject direction: an input of at least 13 bytes
      with the right magic whose length field is not `len - 7` is refused
      with `errInvalidSize` before any other check. */
  lemma DecodeRejectsBadLength(d: seq<byte>)
    requires |d| >= 13 && d[0] == 0xAA && d[1] == 0x55
    requires ReadLE16(d[2..4]) != |d| - 7
    ensures Decodable(d) && DecodeFrame(d) == Err(InvalidSize)
  {
  }

  /** Error detection at the frame level: inverting any single bit of an
      encoded frame from byte 6 on makes `Decode` refuse it with
      `errInvalidChksum`, through the header CRC for byte 6, the trailing
      checksum for the covered bytes 7 .. end of data, and the mismatch with
      the covered bytes for the two checksum bytes themselves. */
  lemma FlippedFrameRejected(p: Pack, i: nat, k: nat)
    requires |p.data| <= MaxData && 6 <= i < |EncodeFrame(p)| && k < 8
    ensures Check(Flip(EncodeFrame(p), i, k)) == Some(InvalidChksum)
    ensures DecodeFrame(Flip(EncodeFrame(p), i, k)) == Err(InvalidChksum)
  {
    var f := EncodeFrame(p);
    var g := Flip(f, i, k);
    var n := |f| - 2;
    EncodeLayout(p);
    assert g[..6] == f[..6];
    assert g[2..4] == f[2..4];
    if i > 6 {
      assert g[6] == f[6];
      assert f[7..7 + |p.data| + 6] == f[7..n];
      if i < n {
        assert g[n..] == f[n..];
        assert g[7..n] == Flip(f[7..n], i - 7, k);
        ChecksumDetectsBitFlip(f[7..n], i - 7, k);
      } else {
        assert g[7..n] == f[7..n];
        ReadLE16RoundTrip(g[n..]);
        ReadLE16RoundTrip(f[n..]);
        assert g[n..] != f[n..] by { assert g[n..][i - n] != f[n..][i - n]; }
      }
    }
  }

  /** A flipped bit in bytes 0..4 is refused by the check of that field:
      the magic (bytes 0 and 1) with `errInvalidSACP`, the length field
      (bytes 2 and 3) with `errInvalidSize`, the version (byte 4) with
      `errInvalidSACPVer`. */
  lemma FlippedHeaderRejected(p: Pack, i: nat, k: nat)
    requires |p.data| <= MaxData && i < 5 && k < 8
    ensures Check(Flip(EncodeFrame(p), i, k))
         == Some(if i < 2 then InvalidSacp else if i < 4 then InvalidSize else InvalidVersion)
  {
    var f := EncodeFrame(p);
    var g := Flip(f, i, k);
    EncodeLayout(p);
    if 2 <= i < 4 {
      assert g[0] == f[0] && g[1] == f[1];
      ReadLE16RoundTrip(g[2..4]);
      ReadLE16RoundTrip(f[2..4]);
      assert g[2..4] != f[2..4] by { assert g[2..4][i - 2] != f[2..4][i - 2]; }
    } else if i == 4 {
      assert g[0] == f[0] && g[1] == f[1] && g[2..4] == f[2..4];
    }
  }

  // ---------------------------------------------------------------------------
  // Frames of 13 and 14 bytes.
  // ---------------------------------------------------------------------------

  /** A 13-byte input: length field 6, version 1, receiver `r`, the header
      CRC-8 that matches, four zero bytes and the one's complement of their
      zero word sum, 0xFFFF. */
  function ShortFrame(r: byte): (d: seq<byte>)
    ensures |d| == 13
  {
    var head := [0xAA, 0x55, 6, 0, 1, r];
    head + [Crc8(head), 0, 0, 0, 0, 0xFF, 0xFF]
  }

  /** As written, `Decode` lets a 13-byte input through every check and then
      slices `data[13:11]`, which panics: the size check at sacp.go:71 admits
      frames too short to hold the checksum that the later checks read. */
  lemma ShortFramePassesChecks(r: byte)
    ensures Check(ShortFrame(r)) == None
    ensures !Decodable(ShortFrame(r))
  {
    ShortFrameHeader(r);
    ShortFrameTrailer(r);
  }

  lemma ShortFrameHeader(r: byte)
    ensures var d := ShortFrame(r);
            d[0] == 0xAA && d[1] == 0x55 && ReadLE16(d[2..4]) == 6 && d[4] == 1 && d[6] == Crc8(d[..6])
  {
    var d := ShortFrame(r);
    assert d[..6] == [0xAA, 0x55, 6, 0, 1, r];
  }

  lemma ShortFrameTrailer(r: byte)
    ensures var d := ShortFrame(r);
            ReadLE16(d[|d| - 2..]) == U16Checksum(d[7..|d| - 2]) == 0xFFFF
  {
    var d := ShortFrame(r);
    var body: seq<byte> := [0, 0, 0, 0];
    assert d[7..|d| - 2] == body;
    assert WordSum(body) == 0;
    ChecksumIsOnesComplement(body);
    assert d[|d| - 2..] == [0xFF, 0xFF];
  }

  /** `Decode` with the size check it evidently intends, `len(data) < 15`
      in place of `len(data) < 13`: shorter inputs are refused with
      `errInvalidSize`, longer ones are handled as before, and every input
      has an outcome. */
  function DecodeChecked(d: seq<byte>): (r: Result<Pack, SacpError>)
    ensures |d| < 15 ==> r == Err(InvalidSize)
    ensures |d| >= 15 ==> Decodable(d) && r == DecodeFrame(d)
  {
    if |d| < 15 then Err(InvalidSize)
    else match Check(d)
      case Some(e) => Err(e)
      case None => Ok(Pack(d[5], d[7], d[8], ReadLE16(d[9..11]), d[11], d[12], d[13..|d| - 2]))
  }

  /** The corrected decoder keeps both round trips: encoded frames decode to
      their fields, and whatever it accepts is an encoded frame. */
  lemma DecodeCheckedRoundTrip(p: Pack, d: seq<byte>)
    requires |p.data| <= MaxData
    ensures DecodeChecked(EncodeFrame(p)) == Ok(p)
    ensures DecodeChecked(d).Ok? ==> EncodeFrame(DecodeChecked(d).value) == d
  {
    DecodeEncode(p);
    if DecodeChecked(d).Ok? {
      EncodeDecode(d);
    }
  }
}
