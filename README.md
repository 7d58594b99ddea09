# sm2uploader core, modelled in Dafny

sm2uploader sends G-code files to Snapmaker printers. This project models the logic at its core and proves properties of it:

- **The SACP binary protocol** (`sacp.go`):
  - the `SACP_pack` frame, with its `Encode` and `Decode`;
  - the two checksums, the header CRC-8 and the trailing 16-bit one's-complement sum;
  - the handshake of `SACP_connect`;
  - one `SACP_read`;
  - the request/response loop of `SACP_start_upload`, which cuts the file into 60 KiB chunks and serves the chunks the printer asks for.
- **Discovery replies** (`printer.go`, `machine.go`): the parsers that turn `<id>@<ip>|model:<m>|status:<s>|SACP:<0|1>` into a `Printer` or a `Machine`, `Printer.String`, and the API address `URL`.
- **The catalogue of known machines** (`localstorage.go`): merge-or-append, lookups by id and by address, and the last-used machine.
- **Helpers** (`utils.go`): the file name shown to the printer, and the unit chosen when printing a size.
- **The OctoPrint-compatible server's own state** (`octoprint.go`): the post-processing switches an API key turns on, and the upload counters.
- **The HTTP connector's decisions** (`connector_http.go`):
  - `Ping`'s refusal of SACP printers;
  - the `/connect` request with its token-expiry retry;
  - the approval polling on `/status`, with its one-time notice;
  - the token-gated `/disconnect`;
  - the request timeout;
  - the API address.

## How the model is built

The model follows the form of each Go file:

- **Imperative code is written as Dafny classes and loops.**
  - The Go struct `SACP_pack` is the class `SacpFrame.SacpPack`. Its `Encode` fills an `array<byte>` index by index, and its `Decode` assigns the fields.
  - `headChksum` is a loop over a `bv64` accumulator that is shifted without masking, as Go's `int` is.
  - `U16Chksum` is a loop over an unbounded integer that is reduced modulo 2^32 after every word, as the Go code masks its `uint64` accumulator with 0xffffffff. A `uint64` never wraps here, so an unbounded integer is exact.
  - The upload is a `while` loop over a scripted connection `SacpSession.Conn`.
  - `LocalStorage` is a class whose `machines` sequence `Add` reassigns.
  - The switches and counters of `octoprint.go` are class fields.
  - `HTTPConnector` is a class holding the current printer.
- **Each method is proved against a specification function.** Examples: `Checksum.Crc8`, `Checksum.U16Checksum`, `SacpFrame.EncodeFrame`, `SacpFrame.Check`, `SacpSession.Run`, `Storage.Added`, `Storage.Found`, `HttpConnector.Poll`, `HttpConnector.Posted`. The lemmas state the protocol's properties about those functions.
- **Pure Go code is written as functions.** This covers the reply parsers, `URL`, `normalizedFilename` and the status classification.
- **The outside world is modelled as scripts:**
  - The TCP socket is a script of readings plus a log of written frames. A script that has run out stands for the read deadline passing.
  - The HTTP client is a script of replies plus a log of requests. An exhausted script answers with a transport error. A reply may carry a body that is not the expected JSON. The client decodes only 2xx bodies, and only for `/connect`, the one request that asks for a result; there such a body is the error `Connect` returns.
  - The TCP probe of `ping` is a set of reachable addresses.
- **MD5 is not computed.** Its hex digest is a parameter.
- **Go strings are byte strings.** They are modelled as `seq<char>`, one `char` per byte. The `strings` functions the parsers use (`Contains`, `Index`, `LastIndex`, `Split`, `Join`) are defined in module `Text` and proved against their meaning.

### Behaviour of the code worth knowing

- **Handshake:** `SACP_connect` reads exactly one frame after the hello and fails unless it is 01/05; a later 01/05 is never seen (sacp.go:180-191, `SacpSession.HandshakeIgnoresLaterReplies`).
- **Upload loop:** a packet with any command other than b0/00, b0/01 and b0/02 ends the upload with an "unknown command" error (sacp.go:339-340, `SacpSession.RunRejectsUnknown`).
- **Trailing checksum:** an odd trailing byte is added unshifted, as the low byte of a word (sacp.go:126-128, `Checksum.OddTail`).
- **Disconnect:** the HTTP `Disconnect` returns the transport error of its request (connector_http.go:105-110, `HttpConnector.Connector.Disconnect`).

## Model

| member | source | states |
|---|---|---|
| Bytes.LE16RoundTrip | sacp.go:51 | a uint16 written little-endian reads back as itself |
| Bytes.LenPrefixed | sacp.go:137-145 | `writeSACPstring` and `writeSACPbytes`: the length truncated to a uint16 and written little-endian, then the bytes themselves; its round trip is `Bytes.LenPrefixedRoundTrip` |
| Bytes.LenPrefixedRoundTrip | sacp.go:137-145 | the uint16 length written before a string reads back as its length when it fits 16 bits, and the string and what follows can be cut out again |
| Bytes.CopyInto | sacp.go:61-63 | `copy(result[13:], data)` writes the data at its offset and leaves every other byte as it was |
| Checksum.Crc8 | sacp.go:102-117 | the reference for `headChksum`: the CRC register fed every bit of the bytes, most significant bit first, with polynomial 0x07 and initial value 0, kept to 8 bits after every shift; `Checksum.Crc8CheckValue` pins it to CRC-8/SMBUS |
| Checksum.HeadChksum | sacp.go:102-117 | the loop over an int accumulator, masked only at the end, returns the MSB-first CRC-8 with polynomial 0x07 and initial value 0 of the bytes |
| Checksum.Crc8CheckValue | sacp.go:102-117 | the header CRC is the catalogued CRC-8/SMBUS: the ASCII digits "123456789" give its check value 0xF4 |
| Checksum.RegisterChain | sacp.go:104-116 | a table of registers that each byte advances by one step gives the register of the whole string, byte by byte |
| Checksum.UnmaskedStep | sacp.go:107-112 | shifting the wide accumulator without masking leaves the same low byte as an 8-bit register masked after every shift |
| Checksum.U16Checksum | sacp.go:119-135 | the reference for `U16Chksum`: the sum of the big-endian byte pairs kept to 32 bits, plus an odd trailing byte unshifted, its carries folded into 16 bits, complemented; its meaning is `Checksum.ChecksumIsOnesComplement` |
| Checksum.U16Chksum | sacp.go:119-135 | the loop returns the one's-complement checksum of the first `length` bytes, and of no bytes when `length` is not positive |
| Checksum.FoldCarries | sacp.go:130-132 | the fold loop terminates and yields a value that fits 16 bits |
| Checksum.WordSumFits | sacp.go:122-125 | for up to 65535 bytes the word sum stays below 2^31, so the 32-bit mask never discards a bit |
| Checksum.ChecksumIsOnesComplement | sacp.go:119-135 | the complement of the checksum is congruent to the plain word sum modulo 0xFFFF, and the checksum is 0xFFFF exactly when the sum is zero |
| Checksum.ChecksumDetectsBitFlip | sacp.go:119-135 | inverting any single bit of up to 65535 covered bytes changes the checksum |
| SacpFrame.EncodeFrame | sacp.go:46-68 | an encoded frame is 15 + len(Data) bytes long |
| SacpFrame.SacpPack.Encode | sacp.go:46-68 | the buffer filled index by index is exactly the specified frame of the struct's fields |
| SacpFrame.SacpPack.PutHeader | sacp.go:49-59 | bytes 0..12 are magic, length field, version, receiver, header CRC and the routing fields, and the rest of the buffer is untouched |
| SacpFrame.EncodeLayout | sacp.go:47-65 | frame layout: AA 55, length field len(Data)+8 = len(frame)-7 when it fits, version 1, receiver, CRC-8 of bytes 0..5, the routing fields, the data, and the trailing checksum over the len(Data)+6 bytes from offset 7 |
| SacpFrame.Check | sacp.go:71-89 | the checks of `Decode` in the Go order: shorter than 13 bytes, magic AA 55, length field equal to len-7, version 1, header CRC of bytes 0..5, trailing checksum of bytes 7..len-2; the first that fails is the error, and none when all pass |
| SacpFrame.DecodeFrame | sacp.go:70-100 | the result of `Decode` on an input the slice at sacp.go:97 can take: the first failing check, or the seven fields read from offsets 5, 7, 8, 9-10, 11, 12 and 13..len-2; both round trips are `SacpFrame.DecodeEncode` and `SacpFrame.EncodeDecode` |
| SacpFrame.SacpPack.Decode | sacp.go:70-100 | the error is the first failing check in the Go order (size < 13, magic, length field, version, header CRC, trailing checksum); the fields are assigned only when all pass and are unchanged on an error |
| SacpFrame.DecodeRejectsBadLength | sacp.go:77-80 | an input with the magic whose length field is not len-7 is refused with errInvalidSize before any later check |
| SacpFrame.FlippedFrameRejected | sacp.go:84-89 | inverting any single bit of an encoded frame from byte 6 on makes `Decode` refuse it with errInvalidChksum: byte 6 through the header CRC, bytes 7..len-3 through the trailing checksum, the last two bytes because they no longer match the covered bytes |
| SacpFrame.FlippedHeaderRejected | sacp.go:74-83 | inverting a bit of bytes 0..4 of an encoded frame is refused by that field's own check: errInvalidSACP for the magic, errInvalidSize for the length field, errInvalidSACPVer for the version |
| SacpFrame.DecodeEncode | sacp.go:46-100 | round trip: every frame with len(Data) ≤ 65527 decodes without error to the same seven fields |
| SacpFrame.EncodeDecode | sacp.go:70-100 | converse round trip: every input Decode accepts is exactly the encoding of the fields it yields |
| SacpFrame.ShortFramePassesChecks | sacp.go:71-97 | a 13-byte input passes every check of Decode, and yet it is too short for the slice `data[13:len-2]` |
| SacpFrame.DecodeChecked | sacp.go:70-100 | the decoder with the size check at 15 refuses shorter inputs with errInvalidSize and otherwise behaves as Decode |
| SacpFrame.DecodeCheckedRoundTrip | sacp.go:46-100 | the corrected decoder keeps both round trips |
| SacpFrame.SacpPack.DecodeFixed | sacp.go:70-100 | the struct method with the corrected size check returns the decoder's error or assigns the decoded fields, for every input |
| SacpSession.Interpret | sacp.go:205-219 | what `SACP_read` makes of one reading: a short read is (nil, nil), a read error is returned, a frame is decoded (with the corrected size check) into the packet or the decoding error |
| SacpSession.Receive | sacp.go:198-220 | one `SACP_read` on the script: a timeout when no reading is left, otherwise the first reading interpreted |
| SacpSession.SacpRead | sacp.go:198-220 | one read consumes one reading: a timeout, a short read giving no packet and no error, a read error, a decode error, or the decoded packet |
| SacpSession.HandshakeReply | sacp.go:180-191 | the handshake's answer from the first read alone: its error, nil after a short read, success for a 01/05 packet, and an "unexpected reply" error for any other packet |
| SacpSession.Connect | sacp.go:151-196 | the hello frame is written and the handshake's result is decided by the first reading alone |
| SacpSession.HelloLayout | sacp.go:159-171 | the hello data is the length-prefixed "sm2uploader" followed by two zero LE16 fields, in one frame |
| SacpSession.HandshakeAcceptsOnly0105 | sacp.go:180-191 | the handshake succeeds exactly when the first reading is a frame that decodes to command 01/05 |
| SacpSession.HandshakeIgnoresLaterReplies | sacp.go:187-191 | a 01/05 reply coming after any other packet is never looked at: the handshake fails on the first |
| SacpSession.PackageCount | sacp.go:224 | `uint16(len/61440 + 1)`, truncated to 16 bits; `SacpSession.PackageCountNoWrap` says when it does not wrap |
| SacpSession.BeginData | sacp.go:227-232 | the begin frame data: the length-prefixed file name, the size as uint32, the chunk count as uint16 and the length-prefixed digest, all little-endian |
| SacpSession.BeginDataLayout | sacp.go:227-232 | each field of the begin frame data reads back at its offset: the name after its length, the LE32 size, the LE16 chunk count, the digest after its length |
| SacpSession.Begin | sacp.go:237-245 | the begin frame: receiver 2, sender 0, attribute 0, sequence 1, command b0/00, carrying `BeginData` |
| SacpSession.StartUpload | sacp.go:222-344 | writes the begin frame (file name, uint32 size, chunk count, digest), then exactly the frames of the upload loop's run, returns that run's error and consumes the readings it used |
| SacpSession.RequestedIndex | sacp.go:270-278 | the index a chunk request asks for: errInvalidSize when the data is shorter than 4 bytes or than 2 + the announced digest length + 2, otherwise the LE16 after the digest |
| SacpSession.Chunk | sacp.go:281-285 | the slice of sacp.go:281-285 with `count-1` and `index+1` wrapped to 16 bits: the last index runs to the end of the file, any other ends where the next begins, and None where the Go slice panics |
| SacpSession.ChunkData | sacp.go:287-291 | the chunk response data: a zero status byte, the length-prefixed digest, the LE16 index and the length-prefixed chunk; `SacpSession.ChunkDataLayout` reads it back |
| SacpSession.ChunkReply | sacp.go:268-306 | the b0/01 answer: errInvalidSize for a malformed request, an out-of-range error where the slice panics, otherwise the chunk response with attribute 1, the request's sequence and command b0/01 |
| SacpSession.Respond | sacp.go:265-341 | the `switch` on (command set, command id): b0/00 goes on, b0/01 answers the chunk or stops with its error, b0/02 with data [0] writes 01/06 and stops with success, b0/02 with other data goes on, anything else stops with "unknown command" |
| SacpSession.StepOn | sacp.go:253-262 | a failed read stops the loop with its error and a short read with errInvalidSize; a packet goes to `Respond` |
| SacpSession.ServeAll | sacp.go:251-343 | the loop writes the frames of the specified run on the script, returns its error and consumes exactly the readings it used |
| SacpSession.Serve | sacp.go:252-341 | one pass reads one packet and writes and stops as the dispatch on (command set, command id) says |
| SacpSession.ServeChunk | sacp.go:268-292 | the b0/01 branch computes the specified chunk reply, including its errInvalidSize and out-of-range outcomes |
| SacpSession.PackageCountNoWrap | sacp.go:224 | the announced chunk count is len/61440 + 1 exactly when the file is below 61440·65535 bytes; above, the uint16 conversion truncates it |
| SacpSession.ChunkInRange | sacp.go:281-285 | every index below the count names its reference piece: 61440 bytes, except the last, which is the remainder (empty for a multiple of 61440) |
| SacpSession.ChunkBeyondCount | sacp.go:281-285 | an index at or above the count names no chunk (the Go slice panics) |
| SacpSession.ChunksCoverFile | sacp.go:224-285 | the chunks for indices 0..count-1, joined in order, are the file |
| SacpSession.RequestedIndexRoundTrip | sacp.go:273-278 | a request holding a length-prefixed digest and an LE16 index is parsed as that index |
| SacpSession.RequestedIndexTooShort | sacp.go:270-276 | request data shorter than 4, or than 2+md5_len+2, gives errInvalidSize |
| SacpSession.ChunkDataLayout | sacp.go:287-291 | the chunk response data is a zero status byte, the length-prefixed digest, the LE16 index and the length-prefixed chunk |
| SacpSession.ChunkReplyToRequest | sacp.go:268-306 | a request for a chunk of the file is answered with attribute 1, the request's sequence, command b0/01 and that chunk |
| SacpSession.RunSkipsStatus | sacp.go:266-267 | a b0/00 packet is ignored and the loop goes on |
| SacpSession.RunFinishes | sacp.go:312-338 | b0/02 with data exactly [0] sends 01/06 and ends with success; b0/02 with other data is skipped |
| SacpSession.RunRejectsUnknown | sacp.go:339-340 | any other command ends the upload with an "unknown command" error and nothing written |
| SacpSession.RunStopsOnBadRead | sacp.go:253-261 | a failed read or a short read ends the upload with nothing written |
| SacpSession.RunRejectsBadRequest | sacp.go:268-285 | a malformed chunk request or an index past the count ends the upload with the matching error |
| SacpSession.InterpretEncoded | sacp.go:216-219 | a frame that encodes a packet is read as that packet |
| SacpSession.RunOnAnswered | sacp.go:251-343 | packets each answered with one packet are answered in order before the rest of the loop |
| SacpSession.RunServesWholeFile | sacp.go:251-343 | requests for every chunk in order followed by the success report are answered with every piece and the 01/06 acknowledgement |
| SacpSession.UploadDeliversFile | sacp.go:222-344 | end to end over the wire: the upload succeeds, answers every request with its piece, acknowledges the end, and the pieces make up the file |
| Text.Index | printer.go:30 | `strings.Index`: -1 when the needle occurs nowhere, otherwise an offset where it occurs with no earlier occurrence |
| Text.Contains | printer.go:23 | `strings.Contains` holds exactly when the needle occurs at some offset |
| Text.IndexOneChar | printer.go:30 | `strings.Index` with a one-character needle is the first position of that character |
| Text.LastIndexOf | printer.go:28 | `strings.LastIndex` with a one-character needle: -1 exactly when the character is absent, otherwise its last position |
| Text.Split | printer.go:27 | `strings.Split` gives at least one piece, no piece contains the separator, and joining the pieces gives back the input |
| Text.SplitFirst | machine.go:22 | the first piece of a split is the text before the first separator, and the whole input when there is none |
| Machines.Recognised | machine.go:19-21 | the guard of both discovery parsers: the reply contains "\|model:" and an "@" |
| Machines.NewMachine | machine.go:17-30 | rejects exactly the replies without "\|model:" or "@"; otherwise the id is the text before the first "@" and has no "@", the address is the sender's, the reply is kept and the token is empty |
| Machines.Url | machine.go:34-36 | "http://", the machine's IP, ":8080/api/v1" and the path; `Machines.UrlParts` and `Machines.UrlDeterminesTarget` state what it determines |
| Machines.UrlParts | machine.go:34-36 | the address is "http://", the host, ":8080/api/v1" and the path, at those offsets |
| Machines.UrlDeterminesTarget | machine.go:34-36 | for colon-free hosts, two API addresses are equal exactly when host and path are |
| Printers.NewPrinter | printer.go:21-41 | rejects exactly the replies without "\|model:" or "@"; otherwise id+"@"+ip is the first field with no "@" in ip, the model is the second field after its first ":" (or the whole field), sacp holds exactly when "SACP:1" occurs, and the token is empty |
| Printers.SplitAddress | printer.go:28-29 | splitting at the last "@" gives back the field and leaves no "@" in the address |
| Printers.ModelOf | printer.go:30 | the model is the text after the first ":", or the whole field when it has none |
| Printers.Describe | printer.go:44-46 | `Printer.String`: id, "@", ip, " - ", model |
| Printers.DescribeShowsFirstField | printer.go:44-46 | `String()` of a parsed printer is the reply's first field, " - " and the model |
| Printers.GuardAdmitsAddresslessField | printer.go:23-28 | the reply "x\|model:@" passes the guard although its first field has no "@" |
| Printers.ParsePrinter | printer.go:21-41 | the corrected parser succeeds exactly when the guard holds and the first field has an "@", and then agrees with `NewPrinter` |
| Storage.FirstWith | localstorage.go:62-78 | finds the first entry whose field is non-empty and equal to the argument, and finds none only when no entry matches |
| Storage.Added | localstorage.go:29-53 | `Add` either keeps the length or appends the machine, and never changes an entry's id |
| Storage.AddAppendsNew | localstorage.go:33-51 | a machine with an empty id, or an id not yet known, is appended |
| Storage.AddRefreshesFirstMatch | localstorage.go:34-45 | a known id refreshes only the first entry with that id: its address becomes the new one, its token only when the new one is non-empty, and every other entry is unchanged |
| Storage.LastIsFound | localstorage.go:80-91 | after `SetLast` with a non-empty id, looking that id up finds an entry with the id and the new address, and with the new token when there is one |
| Storage.LocalStorage.Add | localstorage.go:29-53 | the search-and-update loop leaves the catalogue as specified by `Added` and the last id as it was |
| Storage.LocalStorage.Find | localstorage.go:62-78 | the linear search returns the first matching entry, or nothing |
| Storage.LocalStorage.FindById | localstorage.go:62-69 | finds an entry exactly when the id is non-empty and some entry has it, and then the first such entry |
| Storage.LocalStorage.FindByIp | localstorage.go:71-78 | finds an entry exactly when the address is non-empty and some entry has it, and then the first such entry |
| Storage.LocalStorage.SetLast | localstorage.go:80-84 | adds the machine and makes its id the last-used id |
| Storage.LocalStorage.GetLast | localstorage.go:86-91 | nothing when no last id is set, otherwise the first entry with the last id |
| Utils.NormalizedFilename | utils.go:30-34 | the regular expression `^[./\\~]+` replaced by nothing: the leading run of `.`, `/`, `\` and `~` removed; its meaning is `Utils.NormalizedMeaning` |
| Utils.NormalizedMeaning | utils.go:30-34 | the normalized name is a suffix of the name, does not start with `.`, `/`, `\` or `~`, and everything removed was one of those |
| Utils.NormalizedDropsRun | utils.go:30-34 | exactly the longest leading run of those characters is removed |
| Utils.NormalizedIdempotent | utils.go:30-34 | normalizing twice is normalizing once |
| Utils.NormalizedKeepsPlainName | utils.go:30-34 | a name not starting with a stripped character is unchanged, inner "../" included |
| Utils.DivStep | utils.go:23-26 | dividing by `div` and then by 1024 is dividing by `div`·1024 |
| Utils.HumanReadableSize | utils.go:17-28 | below 1024 the size in bytes; otherwise the divisor is 1024^(exp+1) with 1 ≤ size/div < 1024 and exp ≤ 5, so "KMGTPE"[exp] exists and the divisor fits int64 |
| OctoPrint.Switches.SetSwitches | octoprint.go:205-209 | each switch is set to exactly whether its keyword occurs in the key |
| OctoPrint.Switches.ArgumentsFromApi | octoprint.go:204-229 | every switch is overwritten from the key alone, so a repeated call with the same key changes nothing; the arguments logged are the set switches in the fixed order |
| OctoPrint.Selected | octoprint.go:210-225 | the arguments `-kw` for the keywords that occur in the key, in the keywords' order; no more arguments than keywords |
| OctoPrint.SelectedExactly | octoprint.go:210-225 | a keyword's argument is logged exactly when the keyword occurs in the key |
| OctoPrint.SelectedOnlyFrom | octoprint.go:210-225 | only the five keywords are ever logged |
| OctoPrint.SelectedUnrolled | octoprint.go:210-225 | the logged list is notrim, nopreheat, noshutoff, noreinforcetower, noreplacetool filtered by the key, in that order |
| OctoPrint.Switches.ApplyApiKey | octoprint.go:130-133 | only a key longer than 5 characters is parsed; a shorter one leaves the switches as they were and logs nothing |
| OctoPrint.Stats.AddSuccess | octoprint.go:41-48 | success grows by one with 64-bit wrap-around, the last success records the normalized name and size, and the failure side is untouched |
| OctoPrint.Stats.AddFailure | octoprint.go:50-57 | the mirror image for failures |
| HttpConnector.Timeout | connector_http.go:159-163 | the timeout is the one passed, or 5 seconds |
| HttpConnector.Classify | connector_http.go:174-193 | 200 is Approved and 204 is Waiting, exactly; a transport error or any other code is Denied |
| HttpConnector.Connector.CheckStatus | connector_http.go:174-193 | one GET of /status with the printer's token, classified |
| HttpConnector.Connector.Url | connector_http.go:198-200 | the connector's address is the same text `Machine.URL` builds |
| HttpConnector.Connector.Ping | connector_http.go:31-40 | a SACP printer is refused without a probe; otherwise the printer is taken exactly when the probe answers |
| HttpConnector.ResultError | connector_http.go:51-71 | the error the HTTP client returns for the `/connect` post, which decodes its success body into a result: a transport error, or a 2xx status whose body does not decode; no error for any other reply |
| HttpConnector.Expired | connector_http.go:60-61 | the retry condition's test: a response with status 403 while the printer still holds a token |
| HttpConnector.Posted | connector_http.go:51-69 | the `/connect` post with its retries under the corrected condition: posted twice, ending with the second reply and no token, when the first reply says the token expired; otherwise posted once, ending with the first reply and the token unchanged |
| HttpConnector.RetryAsWritten | connector_http.go:55-67 | the condition as written: it reads the status code without testing the error, so after a transport error it panics (None); otherwise a 403 with a non-empty token |
| HttpConnector.PostedAsWritten | connector_http.go:51-69 | the `/connect` post with the condition as written, consulted after each of the at most two attempts; None where it panics |
| HttpConnector.Connector.RetryCondition | connector_http.go:55-67 | the corrected condition checks for a response first: it asks for a retry exactly on a 403 while the token is non-empty, and then clears the token; after a transport error it asks for none and changes nothing |
| HttpConnector.ConditionPanicsOnTransportError | connector_http.go:55-72 | the condition as written panics exactly when the `/connect` post, first or retried, gets no response, which is where the corrected condition reports a transport error; on every other script the two agree |
| HttpConnector.Connector.PostConnect | connector_http.go:51-72 | the request built once with the token held then is posted once, or twice when the first reply says the token expired, and the printer's token is cleared in that case |
| HttpConnector.ExpiredTokenRetriedOnce | connector_http.go:53-67 | although the retry count is 3, at most one retry happens, because the retry clears the token the condition tests |
| HttpConnector.Poll | connector_http.go:77-92 | the polling loop on a script of replies: stop approved on Approved, denied on Denied, and poll again on Waiting, counting the polls and showing the notice on the first Waiting only |
| HttpConnector.PollMeaning | connector_http.go:77-92 | the polling outcome is the first status that is not Waiting, every earlier poll was Waiting, and the notice is shown at most once, exactly when some poll was Waiting |
| HttpConnector.Connector.AwaitApproval | connector_http.go:77-92 | the loop's result, notices, requests sent and replies consumed are those of the specified polling |
| HttpConnector.Connector.Connect | connector_http.go:42-103 | a transport error, a 2xx reply whose body does not decode (the decoding error, token untouched) or a status other than 200 ends with that error; then only the `/connect` posts were sent and only their replies consumed. On 200 the token becomes the returned one, every `/status` poll carries that token, the result is nil or "access denied" as the polling ends, and exactly the posts and the polls were sent and their replies consumed. The transport error is returned exactly where the condition as written panics |
| HttpConnector.Connector.Disconnect | connector_http.go:105-110 | sends /disconnect only when the printer holds a token, and reports only a transport error |

## Left out

- Dialing, deadlines and partial reads in `SACP_connect` and `SACP_read` are left out: these are socket mechanics. A read is one scripted reading, and a short read is its own reading.
- The fixed 61455-byte read buffer of `SACP_read`, and its `dataLen+7` in uint16 arithmetic, are left out. A frame is given whole.
- Write errors are left out: every write succeeds.
- MD5 and its hex encoding are left out: they are a library computation. The digest is a parameter.
- The floating-point progress logs are left out (sacp.go:294-295, connector_http.go:151). connector_http.go:151 divides the integers before converting to float, so the progress it prints is only ever 0% or 100%.
- connector_sacp.go is left out: it wraps file reads and the socket. Its `Connect` declares a new `err` inside the `if`, so it always returns nil, even when the handshake fails. Its `Disconnect` sends nothing.
- connector.go, sm2uploader.go, discover.go, main.go and doc.go are left out: they are goroutines, signals, UDP broadcast, prompts and flag parsing. discover.go:124 computes the broadcast address with the classful default mask, not the interface's own mask.
- The YAML load and save of localstorage.go (`NewLocalStorage`, `Save`) are left out: they are file I/O.
- The HTTP `Upload` of connector_http.go, the OctoPrint HTTP server and `stats.String` are left out: they are I/O, goroutines and runtime statistics.
- utils.go `postProcess` and `postProcessFile` are left out: they are file I/O and the external SMFix library.
- CRC-8 error detection is left out. The header CRC is proved equal to the CRC-8 of its bytes. Single-bit errors are proved to be refused in every byte of an encoded frame except byte 5, the receiver id, which only the header CRC covers (`SacpFrame.FlippedFrameRejected`, `SacpFrame.FlippedHeaderRejected`).
- Storage.LocalStorage.Add: Go keeps `*Machine` pointers, so `Add` appends the caller's own record and in-place updates are shared with every holder of that pointer. The model keeps values and does not capture this aliasing.
- Utils.HumanReadableSize: returns the chosen divisor and unit letter, not the formatted text (`"%d B"`, or `"%.1f %cB"` of a float quotient).
- OctoPrint.Switches.ArgumentsFromApi: returns the argument list rather than writing the log line. `OctoPrint.LogLine` is the line it would print when the list is non-empty.
- OctoPrint.Stats.AddSuccess: the time stamp of the last upload is left out; it is a clock value. The same holds for `OctoPrint.Stats.AddFailure`.
- HttpConnector.Connector.PostConnect: uses the corrected retry condition, which asks for no retry after a transport error. The condition as written dereferences a nil response there and panics (see Findings). The 1-second retry interval is left out. The request form data is built once, so a retry re-posts the token held when the request was built; the model states this.
- HttpConnector.Connector.AwaitApproval: the 2-second wait between polls and the text of the notice are left out. Only whether and how often the notice is shown is modelled.
- HttpConnector.Connector.Connect: the request cache-busting parameter (a clock value) and the debug logging are left out.
- HttpConnector.Connector.Connect: Go's connector holds a `*Printer` shared with its caller, and `Connect` and the retry condition write the token through it. The caller then saves the new token with the printer it passed in. The model keeps a copy of the printer in the connector, so the caller's own record is not updated and this aliasing is not captured.
- Printers.NewPrinter: requires that a recognised reply has an "@" in its first field. Otherwise the Go code slices at -1 and panics (see Findings). `Printers.ParsePrinter` handles every reply.
- SacpFrame.SacpPack.Decode: requires an input that fails a check or is at least 15 bytes long. A 13- or 14-byte input that passes every check makes the Go slice panic (see Findings). `SacpFrame.SacpPack.DecodeFixed` handles every input, and the session uses it.

## Findings

| source | as written | input that shows it | evidently intended | confidence | as-written member | corrected member |
|---|---|---|---|---|---|---|
| sacp.go:71 | `Decode` refuses only inputs shorter than 13 bytes, then reads a trailing checksum at len-2 and slices `data[13:len-2]` | the 13 bytes `AA 55 06 00 01 r c 00 00 00 00 FF FF`, with `c` the CRC-8 of the first six: every check passes and the slice `data[13:11]` panics | a frame needs at least 15 bytes (13 header bytes and the 2-byte checksum), so inputs below 15 are errInvalidSize | high; not executed | SacpFrame.ShortFramePassesChecks | SacpFrame.DecodeChecked |
| printer.go:23-28 | the guard asks for an "@" anywhere in the reply, but the id and address are cut from the first field at its last "@" | the reply `x\|model:@`: the guard passes and `parts[0][:-1]` panics | reject, as an invalid response, a reply whose first field has no "@" | high; not executed | Printers.GuardAdmitsAddresslessField | Printers.ParsePrinter |
| connector_http.go:55-67 | the retry condition reads `r.StatusCode` without checking `err` first | a `/connect` post that gets no response, for example because the request times out: the HTTP client consults the condition with a response that has no underlying `*http.Response`, and reading its status code dereferences nil and panics | test `err == nil` before the status code, so that a transport error is not retried and `Connect` returns it (connector_http.go:70-71) | medium: rests on the HTTP client consulting a custom condition after a failed attempt; not executed | HttpConnector.ConditionPanicsOnTransportError | HttpConnector.Connector.RetryCondition |
