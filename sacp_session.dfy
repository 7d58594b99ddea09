/** The SACP exchanges of sacp.go over a TCP connection: the handshake of
    `SACP_connect`, one `SACP_read`, and the request/response loop of
    `SACP_start_upload`.

    The socket is a `Conn` whose reads come from a script of `Reading`s and
    whose writes are appended to `outbox`; a script that has run out stands
    for the read deadline passing. MD5 is not computed: the hex digest is a
    parameter. */
module SacpSession {
  import opened Bytes
  import opened Wrappers
  import opened SacpFrame

  /** What one `SACP_read` gets from the socket. */
  datatype Reading =
    | Frame(bytes: seq<byte>)  // the 4 + dataLen + 3 bytes read, handed to Decode
    | ShortRead                // a read returned fewer bytes and no error
    | ReadError(code: nat)     // conn.Read failed

  /** The ways a session ends other than success. */
  datatype SessionError =
    | Io(code: nat)                                      // an error from conn.Read
    | TimedOut                                           // the read deadline passed
    | Malformed(cause: SacpError)                        // Decode's error, or errInvalidSize
    | UnexpectedReply(commandSet: byte, commandId: byte) // "got command set/id %d/%d but expected 1/5"
    | UnknownCommand(commandSet: byte, commandId: byte)  // "unknown command %d/%d"
    | ChunkOutOfRange(index: uint16)                     // the slice at sacp.go:281-285 panics

  /** The TCP connection: readings still to come and frames written. */
  class Conn {
    var inbox: seq<Reading>
    var outbox: seq<seq<byte>>

    constructor (script: seq<Reading>)
      ensures inbox == script && outbox == []
    {
      inbox := script;
      outbox := [];
    }

    /** `conn.Write`: every write succeeds. */
    method Write(frame: seq<byte>)
      modifies this
      ensures outbox == old(outbox) + [frame] && inbox == old(inbox)
    {
      outbox := outbox + [frame];
    }

    /** The reads of one `SACP_read`; `None` when the deadline passes. */
    method Read() returns (r: Option<Reading>)
      modifies this
      ensures old(inbox) == [] ==> r == None && inbox == []
      ensures old(inbox) != [] ==> r == Some(old(inbox)[0]) && inbox == old(inbox)[1..]
      ensures outbox == old(outbox)
    {
      if inbox == [] {
        r := None;
      } else {
        r := Some(inbox[0]);
        inbox := inbox[1..];
      }
    }
  }

  /** `conn.Write(pack.Encode())`. */
  method Send(conn: Conn, p: Pack)
    modifies conn
    ensures conn.outbox == old(conn.outbox) + [EncodeFrame(p)] && conn.inbox == old(conn.inbox)
  {
    var sp := new SacpPack(p);
    var frame := sp.Encode();
    conn.Write(frame);
  }

  // ---------------------------------------------------------------------------
  // SACP_read
  // ---------------------------------------------------------------------------

  /** What `SACP_read` returns. */
  datatype Received =
    | Packet(p: Pack)             // (&sacp, nil)
    | NoPacket                    // (nil, nil): a short read
    | Failure(e: SessionError)    // a non-nil error

  /** What `SACP_read` makes of one reading. Frames are decoded with the
      corrected size check (`DecodeChecked`). */
  function Interpret(r: Reading): Received
  {
    match r
    case ShortRead => NoPacket
    case ReadError(code) => Failure(Io(code))
    case Frame(d) =>
      match DecodeChecked(d)
      case Ok(p) => Packet(p)
      case Err(e) => Failure(Malformed(e))
  }

  /** The result of `SACP_read` on the script `inbox`. */
  function Receive(inbox: seq<Reading>): Received
  {
    if inbox == [] then Failure(TimedOut) else Interpret(inbox[0])
  }

  /** The script after one `SACP_read`. */
  function Rest(inbox: seq<Reading>): seq<Reading>
  {
    if inbox == [] then [] else inbox[1..]
  }

  /** `SACP_read` (sacp.go:198-220). */
  method SacpRead(conn: Conn) returns (r: Received)
    modifies conn
    ensures r == Receive(old(conn.inbox))
    ensures conn.inbox == Rest(old(conn.inbox)) && conn.outbox == old(conn.outbox)
  {
    var got := conn.Read();
    match got
    case None =>
      r := Failure(TimedOut);
    case Some(ShortRead) =>
      r := NoPacket;
    case Some(ReadError(code)) =>
      r := Failure(Io(code));
    case Some(Frame(d)) =>
      var sacp := new SacpPack(Pack(0, 0, 0, 0, 0, 0, []));
      var err := sacp.DecodeFixed(d);
      if err.Some? {
        r := Failure(Malformed(err.value));
      } else {
        r := Packet(sacp.Value());
      }
  }

  // ---------------------------------------------------------------------------
  // SACP_connect
  // ---------------------------------------------------------------------------

  /** The data of the hello frame: the LE16-prefixed client name
      "sm2uploader" and two zero LE16 fields. */
  const HelloData: seq<byte> :=
    [11, 0, 0x73, 0x6D, 0x32, 0x75, 0x70, 0x6C, 0x6F, 0x61, 0x64, 0x65, 0x72, 0, 0, 0, 0]

  /** "sm2uploader" */
  const ClientName: seq<byte> := [0x73, 0x6D, 0x32, 0x75, 0x70, 0x6C, 0x6F, 0x61, 0x64, 0x65, 0x72]

  /** The hello frame of `SACP_connect`: command 01/05 to receiver 2. */
  const Hello: Pack := Pack(2, 0, 0, 1, 0x01, 0x05, HelloData)

  /** How `SACP_connect` ends once the hello is written. */
  datatype Handshake =
    | Connected
    | Closed(err: Option<SessionError>)  // (nil, err); err is nil after a short read

  /** The answer of `SACP_connect`: only the first frame read is considered. */
  function HandshakeReply(inbox: seq<Reading>): Handshake
  {
    match Receive(inbox)
    case Failure(e) => Closed(Some(e))
    case NoPacket => Closed(None)
    case Packet(p) =>
      if p.commandSet == 1 && p.commandId == 5 then Connected
      else Closed(Some(UnexpectedReply(p.commandSet, p.commandId)))
  }

  /** `SACP_connect` (sacp.go:151-196) once the TCP connection is open. */
  method Connect(conn: Conn) returns (h: Handshake)
    modifies conn
    ensures conn.outbox == old(conn.outbox) + [EncodeFrame(Hello)]
    ensures h == HandshakeReply(old(conn.inbox)) && conn.inbox == Rest(old(conn.inbox))
  {
    Send(conn, Hello);
    var r := SacpRead(conn);
    match r
    case Failure(e) =>
      h := Closed(Some(e));
    case NoPacket =>
      h := Closed(None);
    case Packet(p) =>
      if !(p.commandSet == 1 && p.commandId == 5) {
        h := Closed(Some(UnexpectedReply(p.commandSet, p.commandId)));
      } else {
        h := Connected;
      }
  }

  /** The hello data is the length-prefixed client name and two zero LE16
      fields, and fits one frame. */
  lemma HelloLayout()
    ensures HelloData == LenPrefixed(ClientName) + LE16(0) + LE16(0)
    ensures |Hello.data| <= MaxData
  {
  }

  /** The handshake succeeds exactly when the first reading is a frame that
      decodes to a 01/05 packet. */
  lemma HandshakeAcceptsOnly0105(inbox: seq<Reading>)
    ensures HandshakeReply(inbox) == Connected <==>
              && inbox != [] && inbox[0].Frame?
              && DecodeChecked(inbox[0].bytes).Ok?
              && DecodeChecked(inbox[0].bytes).value.commandSet == 1
              && DecodeChecked(inbox[0].bytes).value.commandId == 5
  {
  }

  /** A 01/05 reply that comes after any other packet is not looked at: the
      handshake fails on the first one. */
  lemma HandshakeIgnoresLaterReplies(q: Pack, ok: Pack, rest: seq<Reading>)
    requires |q.data| <= MaxData && !(q.commandSet == 1 && q.commandId == 5)
    ensures HandshakeReply([Frame(EncodeFrame(q)), Frame(EncodeFrame(ok))] + rest)
         == Closed(Some(UnexpectedReply(q.commandSet, q.commandId)))
  {
    DecodeCheckedRoundTrip(q, []);
  }

  // ---------------------------------------------------------------------------
  // SACP_start_upload
  // ---------------------------------------------------------------------------

  /** `SACP_data_len`: 60 KiB per chunk. */
  const ChunkSize: nat := 61440

  /** `package_count`: `uint16(len/61440 + 1)`. */
  function PackageCount(size: nat): uint16
  {
    Trunc16(size / ChunkSize + 1)
  }

  /** The data of the begin frame: file name, size as uint32, chunk count and
      MD5 hex digest. */
  function BeginData(filename: seq<byte>, gcode: seq<byte>, md5: seq<byte>): seq<byte>
  {
    LenPrefixed(filename) + LE32(Trunc32(|gcode|)) + LE16(PackageCount(|gcode|)) + LenPrefixed(md5)
  }

  /** The begin frame: command b0/00 to receiver 2. */
  function Begin(filename: seq<byte>, gcode: seq<byte>, md5: seq<byte>): Pack
  {
    Pack(2, 0, 0, 1, 0xB0, 0x00, BeginData(filename, gcode, md5))
  }

  /** The frame that acknowledges the end of the upload: command 01/06. */
  const Finish: Pack := Pack(2, 0, 0, 1, 0x01, 0x06, [])

  /** The index a chunk request asks for: the LE16 after the LE16-prefixed
      MD5 digest, or `None` when the data is too short (`errInvalidSize`). */
  function RequestedIndex(data: seq<byte>): Option<uint16>
  {
    if |data| < 4 then None
    else
      var md5Len := ReadLE16(data[..2]);
      if |data| < 2 + md5Len + 2 then None
      else Some(ReadLE16(data[2 + md5Len..]))
  }

  /** The bytes of chunk `index` (sacp.go:281-285): the last chunk, whose
      index is `count - 1` in uint16 arithmetic, runs to the end; every other
      chunk ends where chunk `uint16(index + 1)` starts. `None` where the Go
      slice expression panics. */
  function Chunk(gcode: seq<byte>, count: uint16, index: uint16): Option<seq<byte>>
  {
    var lo := ChunkSize * index;
    if index == Trunc16(count as int - 1) then
      if lo <= |gcode| then Some(gcode[lo..]) else None
    else
      var hi := ChunkSize * Trunc16(index as int + 1);
      if lo <= hi <= |gcode| then Some(gcode[lo..hi]) else None
  }

  /** The data of a chunk response: a zero status byte, the MD5 digest, the
      index and the chunk, both LE16-prefixed. */
  function ChunkData(md5: seq<byte>, index: uint16, chunk: seq<byte>): seq<byte>
  {
    [0] + LenPrefixed(md5) + LE16(index) + LenPrefixed(chunk)
  }

  /** The answer to a b0/01 chunk request `p`. */
  function ChunkReply(p: Pack, gcode: seq<byte>, md5: seq<byte>): Result<Pack, SessionError>
  {
    match RequestedIndex(p.data)
    case None => Err(Malformed(InvalidSize))
    case Some(index) =>
      match Chunk(gcode, PackageCount(|gcode|), index)
      case None => Err(ChunkOutOfRange(index))
      case Some(chunk) => Ok(Pack(2, 0, 1, p.sequence, 0xB0, 0x01, ChunkData(md5, index, chunk)))
  }

  /** What one packet does to the upload loop: the packets it writes, and
      whether the loop goes on. */
  datatype Step =
    | Continue(sent: seq<Pack>)
    | Stop(err: Option<SessionError>, sent: seq<Pack>)

  /** The `switch` of the upload loop (sacp.go:265-341). */
  function Respond(p: Pack, gcode: seq<byte>, md5: seq<byte>): Step
  {
    if p.commandSet == 0xB0 && p.commandId == 0 then Continue([])
    else if p.commandSet == 0xB0 && p.commandId == 1 then
      match ChunkReply(p, gcode, md5)
      case Err(e) => Stop(Some(e), [])
      case Ok(q) => Continue([q])
    else if p.commandSet == 0xB0 && p.commandId == 2 then
      if p.data == [0] then Stop(None, [Finish]) else Continue([])
    else Stop(Some(UnknownCommand(p.commandSet, p.commandId)), [])
  }

  /** What one `SACP_read` result does to the upload loop: a failed or short
      read ends it (a short read as `errInvalidSize`). */
  function StepOn(r: Received, gcode: seq<byte>, md5: seq<byte>): Step
  {
    match r
    case Failure(e) => Stop(Some(e), [])
    case NoPacket => Stop(Some(Malformed(InvalidSize)), [])
    case Packet(p) => Respond(p, gcode, md5)
  }

  /** How the upload loop ends: its error, the packets it wrote after the
      begin frame, and how many readings it consumed. */
  datatype Outcome = Outcome(err: Option<SessionError>, sent: seq<Pack>, used: nat)

  /** The upload loop on the `SACP_read` results `rs`, in order; when they
      run out the read deadline has passed. */
  function RunOn(rs: seq<Received>, gcode: seq<byte>, md5: seq<byte>): (o: Outcome)
    ensures o.used <= |rs|
  {
    if rs == [] then Outcome(Some(TimedOut), [], 0)
    else
      match StepOn(rs[0], gcode, md5)
      case Stop(err, sent) => Outcome(err, sent, 1)
      case Continue(sent) =>
        var o := RunOn(rs[1..], gcode, md5);
        Outcome(o.err, sent + o.sent, o.used + 1)
  }

  /** `SACP_read` applied to each reading of the script. */
  function Interpreted(inbox: seq<Reading>): (rs: seq<Received>)
    ensures |rs| == |inbox|
  {
    if inbox == [] then [] else [Interpret(inbox[0])] + Interpreted(inbox[1..])
  }

  /** The upload loop on the script `inbox`. */
  function Run(inbox: seq<Reading>, gcode: seq<byte>, md5: seq<byte>): (o: Outcome)
    ensures o.used <= |inbox|
  {
    RunOn(Interpreted(inbox), gcode, md5)
  }

  /** The frames written for the packets `ps`, in order. */
  function Frames(ps: seq<Pack>): seq<seq<byte>>
  {
    if ps == [] then [] else [EncodeFrame(ps[0])] + Frames(ps[1..])
  }

  lemma FramesOne(p: Pack)
    ensures Frames([p]) == [EncodeFrame(p)]
  {
  }

  lemma {:induction false} FramesAppend(a: seq<Pack>, b: seq<Pack>)
    ensures Frames(a + b) == Frames(a) + Frames(b)
  {
    if a != [] {
      assert (a + b)[1..] == a[1..] + b;
      FramesAppend(a[1..], b);
    } else {
      assert a + b == b;
    }
  }

  lemma SliceOfSlice<T>(s: seq<T>, a: nat, b: nat, c: nat, t: seq<T>)
    requires c == a + b <= |s| && t == s[a..][b..]
    ensures t == s[c..]
  {
  }

  /** A turn that ends the upload loop. */
  lemma RunStops(inbox: seq<Reading>, gcode: seq<byte>, md5: seq<byte>)
    requires StepOn(Receive(inbox), gcode, md5).Stop?
    ensures var s := StepOn(Receive(inbox), gcode, md5);
            && Run(inbox, gcode, md5).err == s.err
            && Run(inbox, gcode, md5).sent == s.sent
            && inbox[Run(inbox, gcode, md5).used..] == Rest(inbox)
  {
  }

  /** A turn after which the upload loop goes on: what is written so far
      followed by what the whole loop writes is what is written after the
      turn followed by what the rest of the loop writes. */
  lemma RunContinues(inbox: seq<Reading>, gcode: seq<byte>, md5: seq<byte>, written: seq<seq<byte>>)
    requires StepOn(Receive(inbox), gcode, md5).Continue?
    ensures inbox != []
    ensures var s := StepOn(Receive(inbox), gcode, md5);
            var o := Run(inbox[1..], gcode, md5);
            && Run(inbox, gcode, md5).err == o.err
            && written + Frames(Run(inbox, gcode, md5).sent) == (written + Frames(s.sent)) + Frames(o.sent)
            && Run(inbox, gcode, md5).used == o.used + 1
  {
    var s := StepOn(Receive(inbox), gcode, md5);
    FramesAppend(s.sent, Run(inbox[1..], gcode, md5).sent);
  }

  /** `SACP_start_upload` (sacp.go:222-344) with `md5` the hex MD5 digest of
      `gcode`. */
  method StartUpload(conn: Conn, filename: seq<byte>, gcode: seq<byte>, md5: seq<byte>)
    returns (err: Option<SessionError>)
    modifies conn
    ensures var o := Run(old(conn.inbox), gcode, md5);
            && err == o.err
            && conn.outbox == old(conn.outbox) + [EncodeFrame(Begin(filename, gcode, md5))] + Frames(o.sent)
            && conn.inbox == old(conn.inbox)[o.used..]
  {
    var count := PackageCount(|gcode|);
    var data := LenPrefixed(filename) + LE32(Trunc32(|gcode|)) + LE16(count) + LenPrefixed(md5);
    Send(conn, Pack(2, 0, 0, 1, 0xB0, 0x00, data));
    assert data == BeginData(filename, gcode, md5);
    err := ServeAll(conn, gcode, md5, count);
  }

  /** The `for` loop of `SACP_start_upload` (sacp.go:251-343). */
  method ServeAll(conn: Conn, gcode: seq<byte>, md5: seq<byte>, count: uint16)
    returns (err: Option<SessionError>)
    requires count == PackageCount(|gcode|)
    modifies conn
    ensures var o := Run(old(conn.inbox), gcode, md5);
            && err == o.err
            && conn.outbox == old(conn.outbox) + Frames(o.sent)
            && conn.inbox == old(conn.inbox)[o.used..]
  {
    ghost var start := conn.inbox;
    ghost var base := conn.outbox;
    ghost var whole := Run(start, gcode, md5);
    ghost var done: nat := 0;
    while true
      invariant done <= |start| && conn.inbox == start[done..]
      invariant base + Frames(whole.sent) == conn.outbox + Frames(Run(conn.inbox, gcode, md5).sent)
      invariant whole.err == Run(conn.inbox, gcode, md5).err
      invariant whole.used == done + Run(conn.inbox, gcode, md5).used
      decreases |conn.inbox|
    {
      ghost var before := conn.inbox;
      ghost var written := conn.outbox;
      var stop;
      stop, err := Serve(conn, gcode, md5, count);
      if stop {
        RunStops(before, gcode, md5);
        SliceOfSlice(start, done, Run(before, gcode, md5).used, whole.used, conn.inbox);
        return;
      }
      RunContinues(before, gcode, md5, written);
      done := done + 1;
    }
  }

  /** One pass of the upload loop: one `SACP_read` and the `switch` on the
      packet; `stop` when the loop returns. */
  method Serve(conn: Conn, gcode: seq<byte>, md5: seq<byte>, count: uint16)
    returns (stop: bool, err: Option<SessionError>)
    requires count == PackageCount(|gcode|)
    modifies conn
    ensures var s := StepOn(Receive(old(conn.inbox)), gcode, md5);
            && conn.outbox == old(conn.outbox) + Frames(s.sent)
            && conn.inbox == Rest(old(conn.inbox))
            && stop == s.Stop?
            && (stop ==> err == s.err)
  {
    var r := SacpRead(conn);
    stop, err := true, None;
    match r {
      case Failure(e) =>
        err := Some(e);
      case NoPacket =>
        err := Some(Malformed(InvalidSize));
      case Packet(p) =>
        if p.commandSet == 0xB0 && p.commandId == 0 {
          stop := false;
        } else if p.commandSet == 0xB0 && p.commandId == 1 {
          var reply := ServeChunk(p, gcode, md5, count);
          if reply.Err? {
            err := Some(reply.error);
          } else {
            Send(conn, reply.value);
            FramesOne(reply.value);
            stop := false;
          }
        } else if p.commandSet == 0xB0 && p.commandId == 2 {
          if |p.data| == 1 && p.data[0] == 0 {
            assert p.data == [0];
            Send(conn, Pack(2, 0, 0, 1, 0x01, 0x06, []));
            FramesOne(Finish);
          } else {
            stop := false;
          }
        } else {
          err := Some(UnknownCommand(p.commandSet, p.commandId));
        }
    }
  }

  /** The b0/01 branch up to the write (sacp.go:268-310). */
  method ServeChunk(p: Pack, gcode: seq<byte>, md5: seq<byte>, count: uint16)
    returns (reply: Result<Pack, SessionError>)
    requires count == PackageCount(|gcode|)
    ensures reply == ChunkReply(p, gcode, md5)
  {
    if |p.data| < 4 {
      return Err(Malformed(InvalidSize));
    }
    var md5Len: int := ReadLE16(p.data[..2]);
    if |p.data| < 2 + md5Len + 2 {
      return Err(Malformed(InvalidSize));
    }
    var requested := ReadLE16(p.data[2 + md5Len..]);
    var chunk: seq<byte>;
    var lo := ChunkSize * requested;
    if requested == Trunc16(count as int - 1) {
      if lo > |gcode| {
        return Err(ChunkOutOfRange(requested));
      }
      chunk := gcode[lo..];
    } else {
      var hi := ChunkSize * Trunc16(requested as int + 1);
      if !(lo <= hi <= |gcode|) {
        return Err(ChunkOutOfRange(requested));
      }
      chunk := gcode[lo..hi];
    }
    var data := [0] + LenPrefixed(md5) + LE16(requested) + LenPrefixed(chunk);
    reply := Ok(Pack(2, 0, 1, p.sequence, 0xB0, 0x01, data));
  }

  // ---------------------------------------------------------------------------
  // Properties of the upload
  // ---------------------------------------------------------------------------

  /** Files below this size have a chunk count that fits uint16. */
  const MaxUpload: nat := ChunkSize * 0xFFFF

  /** Reference definition of chunk `i`: bytes `61440*i` up to the next
      multiple of 61440 or the end of the file. */
  function Piece(gcode: seq<byte>, i: nat): seq<byte>
  {
    var lo := if ChunkSize * i <= |gcode| then ChunkSize * i else |gcode|;
    var hi := if ChunkSize * (i + 1) <= |gcode| then ChunkSize * (i + 1) else |gcode|;
    gcode[lo..hi]
  }

  /** The count announced in the begin frame is one more than the number of
      whole chunks: the last chunk is the remainder, empty when the size is a
      multiple of 61440. */
  lemma PackageCountNoWrap(size: nat)
    ensures size < MaxUpload <==> PackageCount(size) == size / ChunkSize + 1
  {
    if size >= MaxUpload {
      assert size / ChunkSize >= 0xFFFF;
    } else {
      CountOf(size);
    }
  }

  lemma CountOf(size: nat)
    requires size < MaxUpload
    ensures PackageCount(size) == size / ChunkSize + 1
    ensures ChunkSize * (size / ChunkSize) <= size < ChunkSize * (size / ChunkSize + 1)
  {
  }

  /** Every index below the count names a chunk, and it is the reference
      piece: 61440 bytes except the last, which holds the remainder. */
  lemma ChunkInRange(gcode: seq<byte>, i: uint16)
    requires |gcode| < MaxUpload && i < PackageCount(|gcode|)
    ensures ChunkSize * i <= |gcode|
    ensures Chunk(gcode, PackageCount(|gcode|), i) == Some(Piece(gcode, i))
    ensures i < PackageCount(|gcode|) - 1 ==> |Piece(gcode, i)| == ChunkSize
    ensures i == PackageCount(|gcode|) - 1 ==> |Piece(gcode, i)| == |gcode| % ChunkSize
  {
    CountOf(|gcode|);
    var count := PackageCount(|gcode|);
    if i == count - 1 {
      assert gcode[ChunkSize * i..|gcode|] == gcode[ChunkSize * i..];
    } else {
      assert Trunc16(i as int + 1) == i + 1;
    }
  }

  /** An index at or above the count names no chunk: the Go slice panics. */
  lemma ChunkBeyondCount(gcode: seq<byte>, i: uint16)
    requires |gcode| < MaxUpload && i >= PackageCount(|gcode|)
    ensures Chunk(gcode, PackageCount(|gcode|), i) == None
  {
    CountOf(|gcode|);
  }

  /** Pieces 0 .. k-1, one after another. */
  function Joined(gcode: seq<byte>, k: nat): seq<byte>
  {
    if k == 0 then [] else Joined(gcode, k - 1) + Piece(gcode, k - 1)
  }

  /** The chunks below the count, in order, are exactly the file. */
  lemma {:induction false} JoinedIsPrefix(gcode: seq<byte>, k: nat)
    requires ChunkSize * k <= |gcode|
    ensures Joined(gcode, k) == gcode[..ChunkSize * k]
  {
    if k > 0 {
      JoinedIsPrefix(gcode, k - 1);
      assert gcode[..ChunkSize * k] == gcode[..ChunkSize * (k - 1)] + gcode[ChunkSize * (k - 1)..ChunkSize * k];
    }
  }

  lemma JoinedStep(gcode: seq<byte>, k: nat)
    ensures Joined(gcode, k + 1) == Joined(gcode, k) + Piece(gcode, k)
  {
  }

  lemma LastPiece(gcode: seq<byte>, last: nat)
    requires ChunkSize * last <= |gcode| < ChunkSize * (last + 1)
    ensures Piece(gcode, last) == gcode[ChunkSize * last..]
    ensures gcode[..ChunkSize * last] + gcode[ChunkSize * last..] == gcode
  {
  }

  lemma ChunksCoverFile(gcode: seq<byte>)
    requires |gcode| < MaxUpload
    ensures Joined(gcode, PackageCount(|gcode|)) == gcode
  {
    var last := |gcode| / ChunkSize;
    CountOf(|gcode|);
    JoinedIsPrefix(gcode, last);
    LastPiece(gcode, last);
    JoinedStep(gcode, last);
  }

  /** A request written as the digest and the index reads back as that
      index. */
  lemma RequestedIndexRoundTrip(md5: seq<byte>, index: uint16, extra: seq<byte>)
    requires |md5| < 0x1_0000
    ensures RequestedIndex(LenPrefixed(md5) + LE16(index) + extra) == Some(index)
  {
    var w := LenPrefixed(md5) + LE16(index) + extra;
    LenPrefixedRoundTrip(md5, LE16(index) + extra);
    assert w[..2] == LenPrefixed(md5)[..2];
    assert w[2 + |md5|..][..2] == LE16(index);
  }

  /** A request shorter than the digest it announces plus the index is
      refused with `errInvalidSize`. */
  lemma RequestedIndexTooShort(data: seq<byte>)
    requires |data| < 4 || |data| < 4 + ReadLE16(data[..2])
    ensures RequestedIndex(data) == None
  {
  }

  /** A chunk response after its status byte repeats the request (digest and
      index) and then carries the chunk, length-prefixed. */
  lemma ChunkDataLayout(md5: seq<byte>, index: uint16, chunk: seq<byte>)
    requires |md5| < 0x1_0000 && |chunk| < 0x1_0000
    ensures var d := ChunkData(md5, index, chunk);
            && d[0] == 0
            && RequestedIndex(d[1..]) == Some(index)
            && ReadLE16(d[5 + |md5|..]) == |chunk|
            && d[7 + |md5|..] == chunk
  {
    var d := ChunkData(md5, index, chunk);
    assert d[1..] == LenPrefixed(md5) + LE16(index) + LenPrefixed(chunk);
    RequestedIndexRoundTrip(md5, index, LenPrefixed(chunk));
    assert d[5 + |md5|..] == LenPrefixed(chunk);
  }

  /** The begin frame's data holds, one after the other, the length-prefixed
      file name, the size as LE32, the chunk count as LE16 and the
      length-prefixed digest, each readable back at its offset. */
  lemma BeginDataLayout(filename: seq<byte>, gcode: seq<byte>, md5: seq<byte>)
    requires |filename| < 0x1_0000 && |md5| < 0x1_0000
    ensures var d := BeginData(filename, gcode, md5);
            var n := |filename|;
            && |d| == 10 + n + |md5|
            && ReadLE16(d) == n && d[2..2 + n] == filename
            && d[2 + n..6 + n] == LE32(Trunc32(|gcode|))
            && ReadLE16(d[6 + n..]) == PackageCount(|gcode|)
            && ReadLE16(d[8 + n..]) == |md5| && d[10 + n..] == md5
  {
    var d := BeginData(filename, gcode, md5);
    var n := |filename|;
    var count := LE16(PackageCount(|gcode|));
    var tail := LE32(Trunc32(|gcode|)) + count + LenPrefixed(md5);
    assert d == LenPrefixed(filename) + tail;
    LenPrefixedRoundTrip(filename, tail);
    assert d[2 + n..6 + n] == tail[..4];
    assert d[6 + n..][..2] == count;
    LE16RoundTrip(PackageCount(|gcode|));
    assert d[8 + n..] == LenPrefixed(md5) + [];
    LenPrefixedRoundTrip(md5, []);
  }

  /** A frame that encodes a packet is read as that packet. */
  lemma InterpretEncoded(q: Pack)
    requires |q.data| <= MaxData
    ensures Interpret(Frame(EncodeFrame(q))) == Packet(q)
  {
    DecodeCheckedRoundTrip(q, []);
  }

  /** A status packet (b0/00) is skipped. */
  lemma RunSkipsStatus(q: Pack, rest: seq<Received>, gcode: seq<byte>, md5: seq<byte>)
    requires q.commandSet == 0xB0 && q.commandId == 0
    ensures var o := RunOn(rest, gcode, md5);
            RunOn([Packet(q)] + rest, gcode, md5) == Outcome(o.err, o.sent, o.used + 1)
  {
    assert ([Packet(q)] + rest)[1..] == rest;
  }

  /** A b0/02 packet ends the upload, acknowledged with 01/06, only when its
      data is the single byte 0; any other b0/02 packet is skipped. */
  lemma RunFinishes(q: Pack, rest: seq<Received>, gcode: seq<byte>, md5: seq<byte>)
    requires q.commandSet == 0xB0 && q.commandId == 2
    ensures q.data == [0] ==> RunOn([Packet(q)] + rest, gcode, md5) == Outcome(None, [Finish], 1)
    ensures q.data != [0] ==>
              var o := RunOn(rest, gcode, md5);
              RunOn([Packet(q)] + rest, gcode, md5) == Outcome(o.err, o.sent, o.used + 1)
  {
    assert ([Packet(q)] + rest)[1..] == rest;
  }

  /** Any command other than b0/00, b0/01 and b0/02 ends the upload with an
      error and nothing written. */
  lemma RunRejectsUnknown(q: Pack, rest: seq<Received>, gcode: seq<byte>, md5: seq<byte>)
    requires !(q.commandSet == 0xB0 && q.commandId in {0, 1, 2})
    ensures RunOn([Packet(q)] + rest, gcode, md5)
         == Outcome(Some(UnknownCommand(q.commandSet, q.commandId)), [], 1)
  {
  }

  /** A short read or a failed read ends the upload with nothing written. */
  lemma RunStopsOnBadRead(r: Received, rest: seq<Received>, gcode: seq<byte>, md5: seq<byte>)
    requires !r.Packet?
    ensures RunOn([r] + rest, gcode, md5)
         == Outcome(Some(if r.NoPacket? then Malformed(InvalidSize) else r.e), [], 1)
  {
  }

  /** A chunk request that cannot be served ends the upload: a request too
      short for its digest and index with `errInvalidSize`, an index at or
      past the count with an out-of-range error. */
  lemma RunRejectsBadRequest(q: Pack, rest: seq<Received>, gcode: seq<byte>, md5: seq<byte>)
    requires q.commandSet == 0xB0 && q.commandId == 1 && |gcode| < MaxUpload
    ensures RequestedIndex(q.data) == None ==>
              RunOn([Packet(q)] + rest, gcode, md5) == Outcome(Some(Malformed(InvalidSize)), [], 1)
    ensures RequestedIndex(q.data).Some? && RequestedIndex(q.data).value >= PackageCount(|gcode|) ==>
              RunOn([Packet(q)] + rest, gcode, md5)
                == Outcome(Some(ChunkOutOfRange(RequestedIndex(q.data).value)), [], 1)
  {
    if RequestedIndex(q.data).Some? && RequestedIndex(q.data).value >= PackageCount(|gcode|) {
      ChunkBeyondCount(gcode, RequestedIndex(q.data).value);
    }
  }

  /** The printer's request for chunk `index`, numbered `index`. */
  function Request(md5: seq<byte>, index: uint16): Pack
  {
    Pack(0, 2, 0, index, 0xB0, 0x01, LenPrefixed(md5) + LE16(index))
  }

  /** The printer's report that the file arrived whole. */
  const Done: Pack := Pack(0, 2, 0, 0, 0xB0, 0x02, [0])

  /** The answer to `Request(md5, index)`. */
  function Answer(md5: seq<byte>, index: uint16, chunk: seq<byte>): Pack
  {
    Pack(2, 0, 1, index, 0xB0, 0x01, ChunkData(md5, index, chunk))
  }

  /** Requests for chunks 0 .. n-1, in order. */
  function Requests(md5: seq<byte>, n: nat): (ps: seq<Pack>)
    requires n <= 0x1_0000
    ensures |ps| == n
  {
    seq(n, k requires 0 <= k < n => Request(md5, k))
  }

  /** The answers to `Requests(md5, n)`: each carries its reference piece of
      the file. */
  function Answers(gcode: seq<byte>, md5: seq<byte>, n: nat): (ps: seq<Pack>)
    requires n <= 0x1_0000
    ensures |ps| == n
  {
    seq(n, k requires 0 <= k < n => Answer(md5, k, Piece(gcode, k)))
  }

  /** The packets `ps` as `SACP_read` returns them. */
  function Packets(ps: seq<Pack>): (rs: seq<Received>)
    ensures |rs| == |ps|
  {
    if ps == [] then [] else [Packet(ps[0])] + Packets(ps[1..])
  }

  /** The packets `ps` as frames on the wire. */
  function Wire(ps: seq<Pack>): seq<Reading>
  {
    if ps == [] then [] else [Frame(EncodeFrame(ps[0]))] + Wire(ps[1..])
  }

  lemma PacketsCons(p: Pack, ps: seq<Pack>)
    ensures Packets([p] + ps) == [Packet(p)] + Packets(ps)
  {
    assert ([p] + ps)[1..] == ps;
  }

  lemma PacketsOne(p: Pack)
    ensures Packets([p]) == [Packet(p)]
  {
  }

  lemma {:induction false} PacketsAt(ps: seq<Pack>, k: nat)
    requires k < |ps|
    ensures Packets(ps)[k] == Packet(ps[k])
  {
    if k > 0 {
      PacketsAt(ps[1..], k - 1);
    }
  }

  lemma {:induction false} PacketsAppend(a: seq<Pack>, b: seq<Pack>)
    ensures Packets(a + b) == Packets(a) + Packets(b)
  {
    if a != [] {
      assert a + b == [a[0]] + (a[1..] + b);
      PacketsCons(a[0], a[1..] + b);
      PacketsAppend(a[1..], b);
    } else {
      assert a + b == b;
    }
  }

  /** Frames that encode packets are read back as those packets, in order. */
  lemma {:induction false} WireReadsAsPackets(ps: seq<Pack>)
    requires forall p | p in ps :: |p.data| <= MaxData
    ensures Interpreted(Wire(ps)) == Packets(ps)
  {
    if ps != [] {
      var w := Wire(ps);
      assert w[1..] == Wire(ps[1..]);
      InterpretEncoded(ps[0]);
      assert ps[1..] == ps[1..] && forall p | p in ps[1..] :: p in ps;
      WireReadsAsPackets(ps[1..]);
    }
  }

  /** A packet after which the loop goes on is followed by the rest of the
      loop. */
  lemma RunOnContinues(r: Received, rest: seq<Received>, gcode: seq<byte>, md5: seq<byte>, sent: seq<Pack>)
    requires StepOn(r, gcode, md5) == Continue(sent)
    ensures var o := RunOn(rest, gcode, md5);
            RunOn([r] + rest, gcode, md5) == Outcome(o.err, sent + o.sent, o.used + 1)
  {
    assert ([r] + rest)[1..] == rest;
  }

  /** A request for a chunk of the file is answered with that chunk. */
  lemma ChunkReplyToRequest(gcode: seq<byte>, md5: seq<byte>, i: uint16)
    requires |gcode| < MaxUpload && |md5| < 0x1_0000 && i < PackageCount(|gcode|)
    ensures ChunkReply(Request(md5, i), gcode, md5) == Ok(Answer(md5, i, Piece(gcode, i)))
  {
    RequestedIndexRoundTrip(md5, i, []);
    assert Request(md5, i).data == LenPrefixed(md5) + LE16(i) + [];
    ChunkInRange(gcode, i);
  }

  /** A request for a chunk of the file is answered with that chunk and the
      loop goes on. */
  lemma StepOnRequest(gcode: seq<byte>, md5: seq<byte>, i: uint16)
    requires |gcode| < MaxUpload && |md5| < 0x1_0000 && i < PackageCount(|gcode|)
    ensures StepOn(Packet(Request(md5, i)), gcode, md5) == Continue([Answer(md5, i, Piece(gcode, i))])
  {
    ChunkReplyToRequest(gcode, md5, i);
  }

  /** Packets that are each answered with one packet, the loop going on,
      are answered in order before the rest of the loop. */
  lemma {:induction false} RunOnAnswered(qs: seq<Received>, answers: seq<Pack>, rest: seq<Received>,
                                         gcode: seq<byte>, md5: seq<byte>)
    requires |qs| == |answers|
    requires forall k | 0 <= k < |qs| :: StepOn(qs[k], gcode, md5) == Continue([answers[k]])
    ensures var o := RunOn(rest, gcode, md5);
            RunOn(qs + rest, gcode, md5) == Outcome(o.err, answers + o.sent, |qs| + o.used)
  {
    if qs != [] {
      var o := RunOn(rest, gcode, md5);
      HeadSplit(qs, rest);
      RunOnContinues(qs[0], qs[1..] + rest, gcode, md5, [answers[0]]);
      RunOnAnswered(qs[1..], answers[1..], rest, gcode, md5);
      HeadSplit(answers, o.sent);
    } else {
      assert qs + rest == rest;
      assert answers + RunOn(rest, gcode, md5).sent == RunOn(rest, gcode, md5).sent;
    }
  }

  lemma HeadSplit<T>(s: seq<T>, t: seq<T>)
    requires s != []
    ensures s + t == [s[0]] + (s[1..] + t)
  {
  }

  /** The requests for every chunk followed by the report of success, as
      read: the loop answers each request and acknowledges the end. */
  lemma RunServesWholeFile(gcode: seq<byte>, md5: seq<byte>)
    requires |gcode| < MaxUpload && |md5| < 0x1_0000
    ensures var count := PackageCount(|gcode|);
            RunOn(Packets(Requests(md5, count)) + [Packet(Done)], gcode, md5)
              == Outcome(None, Answers(gcode, md5, count) + [Finish], count + 1)
  {
    var count := PackageCount(|gcode|);
    var qs := Packets(Requests(md5, count));
    var answers := Answers(gcode, md5, count);
    forall k | 0 <= k < |qs|
      ensures StepOn(qs[k], gcode, md5) == Continue([answers[k]])
    {
      PacketsAt(Requests(md5, count), k);
      StepOnRequest(gcode, md5, k);
    }
    RunFinishes(Done, [], gcode, md5);
    assert [Packet(Done)] + [] == [Packet(Done)];
    RunOnAnswered(qs, answers, [Packet(Done)], gcode, md5);
  }

  /** End to end: when the printer asks for every chunk in order and then
      reports success, the upload succeeds after reading the whole script,
      answers each request with its piece and acknowledges the end; the
      pieces together are the file. */
  lemma UploadDeliversFile(gcode: seq<byte>, md5: seq<byte>)
    requires |gcode| < MaxUpload && |md5| + 4 <= MaxData
    ensures var count := PackageCount(|gcode|);
            var script := Requests(md5, count) + [Done];
            && Run(Wire(script), gcode, md5) == Outcome(None, Answers(gcode, md5, count) + [Finish], count + 1)
            && Joined(gcode, count) == gcode
  {
    var count := PackageCount(|gcode|);
    var script := Requests(md5, count) + [Done];
    ScriptFits(md5, count);
    RunOverWire(script, gcode, md5);
    PacketsAppend(Requests(md5, count), [Done]);
    PacketsOne(Done);
    RunServesWholeFile(gcode, md5);
    ChunksCoverFile(gcode);
  }

  lemma RunOverWire(ps: seq<Pack>, gcode: seq<byte>, md5: seq<byte>)
    requires forall p | p in ps :: |p.data| <= MaxData
    ensures Run(Wire(ps), gcode, md5) == RunOn(Packets(ps), gcode, md5)
  {
    WireReadsAsPackets(ps);
  }

  lemma ScriptFits(md5: seq<byte>, count: uint16)
    requires |md5| + 4 <= MaxData
    ensures forall p | p in Requests(md5, count) + [Done] :: |p.data| <= MaxData
  {
  }
}
