# rray: verified model of its protocol core

rray is a client-side proxy: it accepts SOCKS5 connections, dials a server, completes a REALITY handshake and carries
the traffic over VLESS with the Vision flow control. This project models the parts where correctness is subtle and
proves what they promise, over every input and every run.

## What is modelled

- **The Vision switch-over protocol** (`src/outbound/vision.rs`, `src/outbound/record_gate.rs`). Application bytes are
  framed and padded inside an outer TLS stream; then, in each direction separately, the stream leaves TLS and goes on as
  raw bytes on the socket. `Framing`, `ResponseHeader` and `Decoding` are the incremental decoder; `Sniffer` is the
  traffic sniffer; `Reshaping` and `Padding` the framer; `RecordGate` the gate that releases one TLS record at a time;
  `Outgoing` and `TlsReading` say what is assumed of the TLS library. `VisionStream` is the stream itself, with the
  source's fields and methods, each method proved equal to a specification function. `PaddingRuns`, `GateRuns`,
  `Downlink`, `DownlinkRuns`, `Uplink` and `UplinkRuns` prove whole-run theorems about those functions:
  `DownlinkRuns.EndToEnd` and `EndToEndSealed`, `UplinkRuns.UplinkRun` and `RunIsSent` are the main results.
  `PaddingEnds` says exactly when a write ends padding and what it sends then; `SniffedReads` what a run of reads shows
  the sniffer; `Closing` what a shutdown puts on the wire; `Duplex` joins the two directions: a ServerHello read from
  the server is what makes the client's upload leave TLS (`Duplex.FreshHelloSwitchesUpload`).
- **The two-pass ClientHello** (`src/outbound/reality.rs`): `Keystream`, `Scripting` and `Reality`. The session id is
  sealed against a hello that contains it; the proof shows that the replay makes this well founded and that a server
  recovers the authentication data (`Reality.ServerRecovers`).
- **The relay** (`src/relay.rs`): `Relay`, a timed machine of watchdog, shared clock and two pumps.
- **Dialling** (`src/net.rs`): `Interleaving` and `Dialing`, after RFC 8305 sections 4 and 5.
- **Target translation** (`src/inbound/socks5.rs`, `src/outbound/vless.rs`): `Socks5` and `VlessRequest`, after RFC 1928
  sections 3 to 5.
- **The base64 decoder** (`src/config.rs`): `Base64`, after RFC 4648 sections 4 and 5.

`Bytes` holds shared vocabulary and facts about sequences.

## How the environment appears

- A socket is the bytes it will deliver together with a finite list of answers (give up to n bytes, not yet, fail); when
  the list is used up it answers "not yet". The outgoing side has such a list for TLS and socket together. Every
  theorem holds for all lists, so for every fragmentation, short write and pause. `Responsive` is the only assumption
  the downlink's progress theorems add, `Supplied` the uplink's.
- The TLS library is a component that turns complete records into at most 16 KiB of plaintext each, asks for more bytes
  only while it holds no plaintext, and on the way out emits what was written to it, in order. Opening a record is an
  arbitrary function of its number and bytes.
- Random numbers are parameters (`draw`, `draws`); a sequence too short counts as zeros.
- SHA-256, X25519, HKDF and AES-GCM are arbitrary functions; `Reality.Lawful` states the two laws used.
- The TLS library's ClientHello construction is an arbitrary adaptive consumer of random draws (`Scripting.Builder`);
  `Reality.Transparent` states what the construction does with the session-id draw, at the draws of the actual first
  pass only.
- Time is a parameter: nanoseconds in `Relay`, milliseconds in `Dialing`.
- Text is held as its bytes.

Each imperative method is stated against a function of the old state; the theorems are about those functions.

## Findings

- The relay's idle limit can be cut short by up to a millisecond, because the last activity is kept in whole
  milliseconds (`src/relay.rs:49-56`), while the documentation of `Timeouts.idle` (`src/relay.rs:18-21`) says a connection
  closes after more than the limit without data. `Relay.EarlyByAFraction` gives the runs, `Relay.FullLimitIff` the exact
  condition.
- Record-aligned reshaping holds for records of at most n bytes exactly when n is at most 8150 (`Reshaping.AlignedIff`).
- A first payload of exactly 8171 bytes makes two frames, because `reshape` splits from that length on
  (`src/outbound/vision.rs:327`); see `Reshaping.PiecesPartition`.
- Sniffing depends on packet boundaries. `Sniffer.SplitServerHelloMissed` gives a ServerHello that enables XTLS whole and
  not when cut; `Sniffer.SplitServerHelloIff` is the exact condition on the cut, and shows a second way to fail: a cut
  before byte 79 loses the cipher even when the announcement stays whole.
- The session-id draw is found by value. Were an earlier draw equal to it, the wrong draw would be replaced, the
  self-checks would not notice and the session id would go out unsealed (`Reality.LocatedIff`, `Reality.CollisionEscapes`).
- The VLESS header is read back exactly for flows under 128 bytes and domains under 256 (`VlessRequest.RequestReadsIff`);
  the handshake only ever produces such domains (`Socks5.TranslationIsLossless`).

## Model

| member | source | states |
|---|---|---|
| Framing.PaddingLen | src/outbound/vision.rs:55-71 | For any draw: a frame of at most 8171 content bytes plus UUID, header and padding fits 8192 bytes; content over that gets no padding; a long-padded short frame comes to 900..1399 bytes; otherwise under 256 bytes of padding. |
| Framing.XtlsPaddingInto | src/outbound/vision.rs:85-101 | Appends exactly one frame: optional UUID, command, both lengths through their `as u16` casts, content, zero padding. |
| Framing.PaddingExact | src/outbound/vision.rs:55-71 | The padding in numbers: draw mod 500 + 900 less the content for a long-padded short frame; else the smaller of draw mod 256 and the room left of 8171; none above. |
| Framing.FrameLayout | src/outbound/vision.rs:75-101 | The frame byte by byte: identifier if due, command, both lengths big-endian, content, zero padding, nothing else. |
| Framing.Unpadder.Unpad | src/outbound/vision.rs:131-169 | In place: flags, unread input, output and error are those of the recursive decoder on the old state. |
| Framing.Unpadder.TakeFrame | src/outbound/vision.rs:139-167 | One frame off the front, or nothing touched when no whole one is there. |
| Framing.UnpadSplit | src/outbound/vision.rs:131-169 | For arbitrary bytes, decoding a+b is decoding a and then, unless that failed, going on with what was left and b. |
| Framing.UnpadStuck | src/outbound/vision.rs:131-169 | A successful call leaves no whole frame behind: calling again changes nothing. |
| Framing.UnpadFrame | src/outbound/vision.rs:75-169 | Decoder after encoder: one frame of any content, padding and known command in front of any tail yields its content and continues on the tail in the state the command calls for. |
| Framing.CommandMeans | src/outbound/vision.rs:140-167 | Command 0 goes on with the next frame, 1 ends padding, 2 ends it with the switch to raw bytes; any other is an error once its content was handed over. |
| ResponseHeader.Header.Feed | src/outbound/vless.rs:80-99 | Strips one response header when it is complete, leaves a short one untouched, rejects a wrong version. |
| ResponseHeader.FeedResponse | src/outbound/vless.rs:80-99 | A well-formed header with any addons in front of any bytes is removed exactly. |
| ResponseHeader.FeedSplit | src/outbound/vless.rs:80-99 | Feeding more bytes later equals feeding them together. |
| ResponseHeader.RefusedIff | src/outbound/vless.rs:80-99 | With two bytes there, refused exactly for a nonzero first byte; complete exactly when the announced addons are there. |
| Decoding.DecodeSplit | src/outbound/vision.rs:581-595 | Header stripping composed with deframing is incremental at every cut, errors included. |
| Decoding.DecodeStuck | src/outbound/vision.rs:581-595 | After a successful step no whole header or frame is left over, and once padding is done nothing at all is. |
| Decoding.ChunkingIrrelevant | src/outbound/vision.rs:581-595 | Feeding any list of chunks up to the first error gives the output, state, left-over and error of one-shot decoding of their concatenation. |
| Decoding.AnyTwoChunkings | src/outbound/vision.rs:581-595 | Two ways of cutting the same bytes decode alike on a fresh connection. |
| Decoding.PassThrough | src/outbound/vision.rs:131-169 | Once padding has ended every chunk passes unchanged. |
| Decoding.HeaderFirst | src/outbound/vision.rs:581-595 | A wrong version in the first two bytes is the bad-header error and nothing else is; until the response header is complete everything waits. |
| Sniffer.TrafficState.Filter | src/outbound/vision.rs:202-238 | In place: the new state is the specification of one sniffed packet, with i32 arithmetic. |
| Sniffer.FilterKeepsInv | src/outbound/vision.rs:202-238 | Each packet costs budget, state is frozen at zero, TLS 1.2+ is never unlearnt, and enable_xtls keeps implying TLS 1.2+, an allowed cipher and zero budget. |
| Sniffer.SnifferRun | src/outbound/vision.rs:202-238 | The same over every sequence of packets from a fresh state, with the exact budget while no ServerHello was seen, and no change once XTLS is enabled. |
| Sniffer.Frozen | src/outbound/vision.rs:202-206 | With the budget spent no packet sequence changes anything. |
| Sniffer.SniffsClientHello | src/outbound/vision.rs:202-238 | A ClientHello of any 1.x record version sets isTls, costs one packet of budget, and changes nothing else. |
| Sniffer.SaysNothing | src/outbound/vision.rs:202-238 | Any other packet outside a ServerHello only costs budget. |
| Sniffer.TrailingIgnored | src/outbound/vision.rs:202-238 | What follows a ServerHello in its packet is not searched: the verdict is that of the record alone. |
| Sniffer.CipherRead | src/outbound/vision.rs:215-219 | Behind a session id of whatever length, the cipher is read exactly if the packet reaches that far. |
| Sniffer.ShortServerHello | src/outbound/vision.rs:208-220 | A ServerHello record under 79 bytes sets TLS 1.2+ but not the cipher, whatever follows it in the packet. |
| Sniffer.ExtensionFound | src/outbound/vision.rs:226-230 | An extension list holding supported_versions 0x0304 as RFC 8446 section 4.2.1 encodes it contains the searched pattern. |
| Sniffer.SniffsAnyServerHello | src/outbound/vision.rs:202-238 | Any ServerHello record (RFC 8446 section 4.1.3) of at least 79 bytes yields its own cipher; XTLS is set by the pattern search exactly as stated. |
| Sniffer.SniffsServerHello | src/outbound/vision.rs:202-238 | Sniffing inverts building: with supported_versions 0x0304 among the extensions, enable_xtls holds exactly for ciphers 0x1301..0x1304. |
| Sniffer.SplitServerHelloIff | src/outbound/vision.rs:202-238 | The exact condition for any ServerHello of at least 79 bytes cut in two, on any state with budget for both packets: XTLS is enabled exactly when the first packet has 6 bytes, the cipher at hand is allowed (its own only from a cut at byte 79 on), and the six announcing bytes lie whole in one packet. |
| Sniffer.SplitServerHelloMissed | src/outbound/vision.rs:226-230 | A ServerHello and a cut, on a fresh connection: whole it enables XTLS, cut it does not. |
| Reshaping.RPosition | src/outbound/vision.rs:327-333 | The last position of 17 03 03 in the window, by a backward scan. |
| Reshaping.Reshape | src/outbound/vision.rs:324-340 | The loop produces the pieces of the recursive specification, and terminates. |
| Reshaping.PiecesPartition | src/outbound/vision.rs:324-340 | For inputs of any length: the pieces concatenate to the input, none exceeds 8171 bytes, each non-final one has at least 21, and there is a single piece exactly below 8171 bytes. |
| Reshaping.FirstCut | src/outbound/vision.rs:324-340 | A write is cut at the last 17 03 03 that begins in its first 8172 bytes if that is at byte 21 or later, at byte 4096 otherwise. |
| Reshaping.IsCompleteRecord | src/outbound/vision.rs:344-357 | The loop decides the recursive predicate. |
| Reshaping.RecordsComplete | src/outbound/vision.rs:344-357 | Every concatenation of complete application_data records is accepted. |
| Reshaping.CompleteRecords | src/outbound/vision.rs:344-357 | Conversely everything accepted is such a concatenation. |
| Reshaping.PiecesAligned | src/outbound/vision.rs:324-357 | If the records are at most 8150 bytes and 17 03 03 occurs only where records start, every piece starts at a record header and is itself complete. |
| Reshaping.LimitIsTight | src/outbound/vision.rs:324-340 | A stream of records of at most 8151 bytes, markers only at their starts, whose second piece starts inside a record. |
| Reshaping.AlignedIff | src/outbound/vision.rs:324-357 | All marker-clean streams of records of at most n bytes are reshaped record by record exactly for n up to 8150. |
| Padding.Padder.PadInto | src/outbound/vision.rs:281-318 | In place: sniffs, then appends the frames and raw tail of the plan for the sniffed state, and leaves the planned framer state; what that plan is, see PaddingEnds. |
| Padding.Padder.FramePiece | src/outbound/vision.rs:295-317 | The body of the loop for one piece: its frame, the framer state it leaves, and whether the remaining pieces go out unframed. |
| Padding.Padder.Camouflage | src/outbound/vision.rs:268-271 | One long-padded Continue frame; the UUID is used up. |
| PaddingEnds.AppDataEndsPadding | src/outbound/vision.rs:281-318 | Whole application_data records in one write under 8171 bytes, with padding on and TLS seen: one long-padded frame, Direct on an XTLS connection and End otherwise, and the framer is done. |
| PaddingEnds.LongAppDataEndsPadding | src/outbound/vision.rs:281-340 | The same for a longer write cut only between records: one frame for each piece, Continue on all but the last, Direct or End on that. |
| PaddingEnds.WriteEndsIff | src/outbound/vision.rs:295-317 | A write ends padding exactly if the budget is at most 1 without TLS 1.2+, or TLS was seen and the write is whole application_data records with a piece that starts with 17 03 03 and has at least 6 bytes. |
| PaddingEnds.WriteContinues | src/outbound/vision.rs:295-318 | Otherwise it is one Continue frame for each piece, the identifier on the first alone, long-padded while TLS is going on. |
| PaddingEnds.WriteGivesUp | src/outbound/vision.rs:301-317 | Out of budget: the first piece in an End frame, the rest of the write unframed. |
| PaddingRuns.FrameFits | src/outbound/vision.rs:55-101 | No u16 length field truncates and the frame fits 8192 bytes. |
| PaddingRuns.PlanDecodes | src/outbound/vision.rs:281-318 | What one call writes decodes at the peer to exactly its input and leaves the peer knowing whether and how padding ended. |
| PaddingRuns.PlanWellEnded | src/outbound/vision.rs:281-318 | Within one call only the last frame can end padding, only the first carries the UUID, and an early End never follows Direct. |
| PaddingRuns.RunSound | src/outbound/vision.rs:268-318 | The run invariant behind the round trip survives every event. |
| PaddingRuns.RoundTrip | src/outbound/vision.rs:131-318 | For any writes, interleaved sniffed packets, optional camouflage frame, padding draws and any chunking of the wire, the peer's deframer returns the concatenated writes with nothing left and matching done and direct. |
| PaddingRuns.TerminalCommand | src/outbound/vision.rs:281-318 | At most one End or Direct frame, nothing framed after it, padding false exactly when it was sent, Direct exactly when `direct` is set, UUID on the first frame only; and no later event changes this. |
| PaddingRuns.FirstPayloadKeepsPadding | src/outbound/vision.rs:281-318 | A fresh connection's first payload never ends padding. |
| PaddingRuns.GivingUpEndsPadding | src/outbound/vision.rs:301-310 | A write on a nearly spent budget without TLS 1.2+ ends padding. |
| PaddingRuns.AtMostSixPaddedWrites | src/outbound/vision.rs:281-318 | While no ServerHello is seen, at most six writes return with padding still on. |
| RecordGate.RecordGate.PollRead | src/outbound/record_gate.rs:104-153 | In place: gate, socket and result are those of the gate's specification, and the loop terminates. |
| RecordGate.RecordGate.StartGating | src/outbound/record_gate.rs:56-61 | Gating on at a boundary, with the first record already released. |
| RecordGate.RecordGate.StopGating | src/outbound/record_gate.rs:63-67 | Gating off at any point; what is buffered stays. |
| RecordGate.RecordGate.Open | src/outbound/record_gate.rs:69-71 | Releases one more record and touches nothing else. |
| RecordGate.RecordGate.TakeBuffered | src/outbound/record_gate.rs:74-76 | Hands out the whole buffer and empties it. |
| RecordGate.RecordGate.PollFill | src/outbound/record_gate.rs:85-92 | Appends one socket read to the buffer. |
| RecordGate.RecordGate.HandOver | src/outbound/record_gate.rs:95-100 | Moves at most the limit and the caller's room from the front of the buffer. |
| RecordGate.GateRead | src/outbound/record_gate.rs:104-153 | In either mode what is handed up followed by what is buffered and unread is what was buffered and unread before. |
| GateRuns.GateReadsOneRecord | src/outbound/record_gate.rs:115-153 | In gating mode one poll stays within the current record, or within the next one if the gate was open. |
| GateRuns.GateEof | src/outbound/record_gate.rs:115-153 | An empty answer with room to read means the socket ended and nothing deliverable is buffered. |
| GateRuns.HandsUpAllItMay | src/outbound/record_gate.rs:95-153 | Inside a record with bytes buffered, a poll hands up as many as room, buffer and record allow and leaves the socket alone. |
| GateRuns.PassesAllItMay | src/outbound/record_gate.rs:111-118 | Without gating it hands up what is buffered, as much as there is room for, before the socket is asked. |
| GateRuns.StartReleasesOne | src/outbound/record_gate.rs:56-153 | Once gating starts, one record is read without another release, and its first byte uses the release up. |
| GateRuns.HeldUntilOpened | src/outbound/record_gate.rs:69-139 | At a boundary not released a read waits and touches nothing; a release lets it go on. |
| GateRuns.BytesConserved | src/outbound/record_gate.rs:56-153 | Through starting, stopping at any point, opening, reading, taking the buffer and direct reads of an emptied gate: delivered, buffered, unread always make up the wire. |
| GateRuns.TakeThenDirect | src/outbound/record_gate.rs:221-232 | Taking the buffer first makes any sequence of direct reads order-preserving. |
| GateRuns.GateConfines | src/outbound/record_gate.rs:56-153 | From a record boundary, over any polls, fills and opens: delivery is a prefix of the wire, never passes the end of record opens + 1, and the buffer starts at the next unconsumed byte. |
| GateRuns.StartConfines | src/outbound/record_gate.rs:56-61 | Starting to gate at a boundary establishes that invariant. |
| GateRuns.OneRecordPerPoll | src/outbound/record_gate.rs:115-153 | One poll never hands over bytes of two records. |
| TlsReading.TlsRead | src/outbound/record_gate.rs:104-153 | The assumed TLS layer: it asks the gate for bytes only while it holds no plaintext, never gives wire bytes back, and leaves the gate's mode alone. |
| Downlink.ReadRound | src/outbound/vision.rs:563-613 | One round of the read loop either ends the read or uses up wire bytes or plaintext, so the loop terminates. |
| Downlink.TlsReadGated | src/outbound/vision.rs:563-574 | While padding lasts, one TLS read delivers at most one record's plaintext and all of it, so a Direct command is seen before the next record is released. |
| Downlink.DigestKeeps | src/outbound/vision.rs:581-610 | Acting on a decoded chunk (sniff, stop the gate after End, take over the leftover after Direct) keeps the invariant and what is still due. |
| Downlink.ReadConserves | src/outbound/vision.rs:533-615 | Every read that does not fail hands out the front of what is due and keeps the rest in order. |
| Downlink.RawBypassesTls | src/outbound/vision.rs:552-555 | No raw byte reaches TLS: past Direct the TLS layer holds nothing, and no read gives anything to it or to the gate. |
| Downlink.EofMeansAll | src/outbound/vision.rs:533-615 | A caller with room is told the stream ended only when nothing is left to deliver. |
| DownlinkRuns.DownlinkEquivalence | src/outbound/vision.rs:533-615 | For any wire and every run of reads, with writes that move the shared sniffer in between: delivered bytes are a prefix of what the wire stands for, the rest is still due until an error, and at the reported end all of it was delivered. |
| DownlinkRuns.SealedThenRaw | src/outbound/vision.rs:581-610 | If Direct arrives in the last record, the wire stands for the decoded plaintext (with that record's trailing bytes), then the raw bytes. |
| DownlinkRuns.SealedOnly | src/outbound/vision.rs:533-615 | Without Direct it stands for the whole decoded plaintext. |
| DownlinkRuns.ServerPlaintext | src/outbound/vision.rs:131-318 | A server that frames with this framer behind a response header is decoded to exactly what it wrote. |
| DownlinkRuns.ErrorMeansBadWire | src/outbound/vision.rs:533-615 | On a responsive socket a read fails only if the wire itself is bad. |
| DownlinkRuns.ReadUsesWire | src/outbound/vision.rs:533-615 | A read pauses on a responsive socket only after using up wire bytes. |
| DownlinkRuns.EverythingArrives | src/outbound/vision.rs:533-615 | Progress: with room to read and a responsive socket, more reads than bytes left reach the end and have delivered everything, whatever is written in between. |
| DownlinkRuns.EndToEnd | src/outbound/vision.rs:131-615 | From the server's writes to the client's reads across both framers, TLS records of any size, the gate and the switch: a prefix of writes then raw bytes on every run, all of it at the end, and the end is reached on a responsive socket. |
| DownlinkRuns.EndToEndSealed | src/outbound/vision.rs:131-615 | The same when padding ended in End or has not ended: exactly the server's writes, an incomplete last record counting for nothing. |
| SniffedReads.TlsReadPlains | src/outbound/vision.rs:563-574 | A TLS read leaves the contents the wire still holds for the sniffer as they were, less the plaintext it returns. |
| SniffedReads.DigestShows | src/outbound/vision.rs:581-610 | Acting on a chunk filters exactly its decoded content, if it has any, and not the raw leftover. |
| SniffedReads.ReadShows | src/outbound/vision.rs:533-615 | One read filters the next decoded contents, in order, then what passed through after End; these, then raw bytes, are what it delivered or keeps. |
| SniffedReads.RunShows | src/outbound/vision.rs:533-615 | Over every run without an error: the sniffer saw an interleaving of the packets written and read; those read are the decoded contents of the wire's records, one packet each, then what passed through after End, and never raw bytes. |
| Outgoing.EmitKeeps | src/outbound/record_gate.rs:156-172 | The assumed TLS output: emitting moves accepted items to the socket in order, adding and losing none. |
| Uplink.SettleKeeps | src/outbound/vision.rs:428-464 | Settling loses nothing; when it completes nothing framed waits and a due switch happened, with TLS holding nothing back at that moment. |
| Uplink.WriteSafe | src/outbound/vision.rs:471-499 | Every write, error or not, keeps sealed-before-raw order, and after the switch adds raw items only. |
| Uplink.WriteCarries | src/outbound/vision.rs:471-499 | What a write reports as accepted is exactly what the peer will decode in addition. |
| Uplink.FlushKeeps | src/outbound/vision.rs:501-512 | A flush loses nothing, on completion leaves neither frames nor TLS bytes waiting, and after the switch does not call TLS. |
| Uplink.ShutdownKeeps | src/outbound/vision.rs:514-527 | A shutdown loses nothing, on completion leaves neither frames nor TLS bytes waiting, and after the switch does not call TLS. |
| Uplink.ZeroWriteFails | src/outbound/vision.rs:412-450 | A layer that takes no byte of what is offered is an error, for waiting frames and for the first write. |
| Closing.ShutdownCloses | src/outbound/vision.rs:514-527 | A completed shutdown: the last item on the socket is the end of the write half. Inside TLS everything handed down came first and one close_notify stands before it; past TLS exactly that end was added. |
| Closing.StepOneNotice | src/outbound/vision.rs:471-527 | Every call keeps: one close_notify was handed down if TLS was told to close, and none otherwise. |
| Closing.RunCloses | src/outbound/vision.rs:412-527 | The same on every run: at most one close_notify ever, and a completing shutdown ends the socket after it, or without it past TLS. |
| UplinkRuns.BeginsGood | src/outbound/vision.rs:412-425 | The first write (header and first or camouflage frame together) establishes the run invariant, with nothing waiting to be framed or held back by TLS. |
| UplinkRuns.FirstSniffs | src/outbound/vision.rs:412-421 | The first payload is sniffed before it is framed; without one the sniffer is untouched and padding stays on without identifier. |
| UplinkRuns.FirstSupplied | src/outbound/vision.rs:412-425 | The first write goes on through short writes and pauses and completes with one answer for each byte and one more. |
| UplinkRuns.CamouflageSize | src/outbound/vision.rs:268-271 | Without a payload the header is followed by 921 to 1420 bytes in the first write. |
| UplinkRuns.WriteSniffs | src/outbound/vision.rs:471-499 | Every write is sniffed at most once, a completed one exactly once and before framing. |
| UplinkRuns.StepGood | src/outbound/vision.rs:428-527 | Every call keeps it, and after the switch makes no call of the TLS layer and adds raw items only. |
| UplinkRuns.UplinkRun | src/outbound/vision.rs:428-527 | Over every run with short writes, pauses and sniffed packets: socket output is TLS up to one point and raw after it; until an error, decoding the TLS bytes and the waiting frames and appending the raw bytes gives exactly the bytes reported accepted. |
| UplinkRuns.NoTlsAfterSwitch | src/outbound/vision.rs:471-527 | After the switch no later call writes, flushes or shuts down TLS, whatever it would have answered: the count of TLS calls stands still. |
| UplinkRuns.FlushDelivers | src/outbound/vision.rs:501-512 | After a completed flush everything accepted is decodable from the socket's output alone. |
| UplinkRuns.EverythingIsSent | src/outbound/vision.rs:428-512 | Progress: with one answer for each waiting byte and two more, and any pauses, an awaited flush completes and everything accepted is decodable from the socket's output. |
| UplinkRuns.RunIsSent | src/outbound/vision.rs:428-512 | The same at the end of every run without an error. |
| UplinkRuns.WriteSupplied | src/outbound/vision.rs:471-499 | On layers that oblige a write does not fail and takes at least one byte, all of them while padding lasts, or pauses after using up answers. |
| UplinkRuns.ShutdownSupplied | src/outbound/vision.rs:514-527 | A shutdown on such layers completes, or pauses and can go on. |
| Duplex.HelloIsSeen | src/outbound/vision.rs:202-238 | After a run of reads that decoded anything, a ServerHello that is the next content on the wire has set cipher, isTls and TLS 1.2+, has spent the budget, and XTLS is on exactly for 0x1301..0x1304. |
| Duplex.UploadGoesDirect | src/outbound/vision.rs:281-318 | With XTLS on, an application_data write that completes has ended padding with Direct, and a flush that completes after it has left TLS. |
| Duplex.HelloSwitchesUpload | src/outbound/vision.rs:202-615 | Both directions: a whole ServerHello with an allowed suite read from the wire makes the client's next application_data write end in Direct and its next completed flush leave TLS. |
| Duplex.FreshHelloSwitchesUpload | src/outbound/vision.rs:202-615 | The same from the bytes of the wire: a fresh connection whose first record holds the response header and one Continue frame with that ServerHello. |
| VisionStream.VisionStream.constructor | src/outbound/vision.rs:383-396 | A stream of frames alone: nothing pending, response header taken as consumed. |
| VisionStream.VisionStream.Client | src/outbound/vision.rs:400-404 | The client's stream: the response header is still to come. |
| VisionStream.VisionStream.PollDrain | src/outbound/vision.rs:428-450 | In place; equals the drain specification (zero accepted bytes is an error). |
| VisionStream.VisionStream.PollSettle | src/outbound/vision.rs:454-464 | In place; drains, flushes TLS, then switches. |
| VisionStream.VisionStream.PollWrite | src/outbound/vision.rs:471-499 | In place; the new state and answer are the write specification's. |
| VisionStream.VisionStream.PollFlush | src/outbound/vision.rs:501-512 | In place; the flush specification. |
| VisionStream.VisionStream.PollShutdown | src/outbound/vision.rs:514-527 | In place; the shutdown specification. |
| VisionStream.VisionStream.WriteFirst | src/outbound/vision.rs:412-425 | In place; header and first frame in one write, then a flush. |
| VisionStream.VisionStream.PollRead | src/outbound/vision.rs:533-615 | In place; the whole read loop equals the read specification, and terminates. |
| VisionStream.VisionStream.Digest | src/outbound/vision.rs:581-610 | In place; one chunk stripped, deframed, sniffed and acted on. |
| VisionStream.VisionStream.SwitchOver | src/outbound/vision.rs:598-610 | In place; the gate is stopped after End, the leftover taken over after Direct. |
| VisionStream.CamouflageWire | src/outbound/vision.rs:412-421 | An empty first payload and the camouflage frame are the same plan. |
| Keystream.SliceSplit | src/outbound/reality.rs:59-74 | Consecutive fills are consecutive slices of one keystream. |
| Keystream.WholeBlock | src/outbound/reality.rs:61-67 | Each block of the keystream is the hash of seed and little-endian 64-bit counter, wrap included. |
| Keystream.BlockHashes | src/outbound/reality.rs:59-74 | Block n of the keystream is the hash of the seed and the eight little-endian bytes of n modulo 2^64. |
| Keystream.SeedStream.Fill | src/outbound/reality.rs:59-74 | In place: the buffer receives exactly the next bytes of the counter keystream, whatever the sizes of earlier fills. |
| Scripting.Script.Fill | src/outbound/reality.rs:130-150 | Keystream first, then the replacement if index and length match, then the log: a replaced draw still consumes its keystream bytes. |
| Scripting.ScriptedRandom.Fill | src/outbound/reality.rs:129-150 | With a script in the slot its answer, otherwise the system's. |
| Scripting.ScriptedRandom.WithScript | src/outbound/reality.rs:309-328 | Runs the code under a script, leaves the slot empty, and returns its records and its draw log. |
| Scripting.PlayLogs | src/outbound/reality.rs:129-150 | A run logs exactly the draws it was given, and those are the script's slices. |
| Scripting.PlayDetermined | src/outbound/reality.rs:129-150 | Conversely the script's answers determine the run. |
| Scripting.SwapOneDraw | src/outbound/reality.rs:138-146 | Replacing one draw by another of its length leaves every other answer alone. |
| Scripting.Replay | src/outbound/reality.rs:309-328 | Two passes over one seed: the second logs the first's draws with exactly the replaced one exchanged. |
| Reality.AadFromHello | src/outbound/reality.rs:425-429 | In place over a copy: bytes 39..71 zeroed, the rest kept. |
| Reality.AadIgnoresSessionId | src/outbound/reality.rs:425-429 | The authenticated data does not depend on the session id it will carry. |
| Reality.LocateFrom | src/outbound/reality.rs:349-355 | The first draw equal to the session id, or none. |
| Reality.LocatedIff | src/outbound/reality.rs:349-355 | The located draw is the true one exactly when no earlier draw equals it. |
| Reality.BuildAuthPlaintext | src/outbound/reality.rs:395-405 | In a local buffer: version, reserved byte, big-endian seconds, zero-padded short id; an error exactly above 8 bytes. |
| Reality.ReadBuilt | src/outbound/reality.rs:395-405 | Reading the built plaintext at the server's offsets gives those fields back. |
| Reality.HelloAccepted | src/outbound/reality.rs:331-346 | A hello built field by field (RFC 8446 section 4.1.2) inside a handshake record is read back exactly, with that random and session id. |
| Reality.HelloAcceptedIff | src/outbound/reality.rs:331-346 | The exact condition on the records, and which of their bytes are taken. |
| Reality.WhyRefused | src/outbound/reality.rs:331-346 | Each of the four reasons to refuse the records, as an if-and-only-if, in the source's order. |
| Reality.ServerView | src/outbound/reality.rs:378-429 | Where the client's salt, nonce, sealed id and authenticated data lie in the hello that goes out, by offset. |
| Reality.Prepare | src/outbound/reality.rs:575-612 | Pass A with the source's errors in the source's order. |
| Reality.Connect | src/outbound/reality.rs:617-671 | Both passes and both self-checks. |
| Reality.PrepareIff | src/outbound/reality.rs:575-612 | Pass A succeeds exactly for a nonzero shared secret and a short id of at most 8 bytes. |
| Reality.PassesAgree | src/outbound/reality.rs:575-670 | Pass B's draws are pass A's but for the session id, its hello is pass A's with the sealed session id, both have the same authenticated data, and the self-checks pass. |
| Reality.ServerRecovers | src/outbound/reality.rs:378-429 | Under opening-inverts-sealing and key agreement, a server written from the format with literal offsets (salt 6..26, nonce 26..38, session id 39..71, info REALITY) derives the client's key, opens pass B's session id, and reads exactly version, time and zero-padded short id. |
| Reality.CollisionEscapes | src/outbound/reality.rs:349-355 | Why draws must differ: an earlier equal draw is replaced instead, the self-checks do not notice, and the hello that goes out carries the first pass's session id, not the sealed one. |
| Reality.SelfChecksIff | src/outbound/reality.rs:660-670 | The records go out exactly when the second pass made as many draws and the one at the located position was the sealed id. |
| Reality.LazyBuildCaught | src/outbound/reality.rs:654-661 | A library that built nothing under the script is caught before anything is sent. |
| Relay.Activity.Touch | src/relay.rs:49-51 | Milliseconds since the start, truncated. |
| Relay.Activity.HalfClose | src/relay.rs:43-47 | Half-closed, touched and a notification left. |
| Relay.Activity.Deadline | src/relay.rs:53-56 | Start plus last touch plus the limit in force. |
| Relay.Watchdog.Poll | src/relay.rs:85-96 | The watchdog's loop for one poll, with the arbitrary choice of `select!`. |
| Relay.PollMeaning | src/relay.rs:85-96 | What a poll does, without the loop and whatever the choice: nothing unless woken; expires from the deadline on; otherwise sleeps until the current deadline with no notification left. |
| Relay.PumpTask.OnRead | src/relay.rs:105-111 | A chunk touches the clock, end of file half-closes it. |
| Relay.PumpTask.OnWrote | src/relay.rs:112-112 | A partial write leaves the rest of the chunk, the last one leads to the flush. |
| Relay.InvStep | src/relay.rs:43-116 | Every event keeps the clock, armed, timely and conservation invariants, and that a pump is past flushing only with everything flushed. |
| Relay.NeverEarly | src/relay.rs:43-96 | On every run the idle close comes at or after the deadline, hence more than the limit less 1 ms after the last touch. |
| Relay.FullLimitIff | src/relay.rs:49-56 | A close at the deadline waited the whole limit exactly when the last touch fell on a whole millisecond. |
| Relay.EarlyByAFraction | src/relay.rs:49-56 | For every limit of at least 1 ms and every smaller fraction there is a run that closes that much early. |
| Relay.PollClosesIff | src/relay.rs:85-96 | In every reachable state a poll closes exactly when the deadline has come: no wake-up is lost even when half-close shrinks the limit. |
| Relay.NoLostWakeup | src/relay.rs:43-96 | On every run a sleeping watchdog whose deadline has come is ready to run. |
| Relay.PumpsCarryEverything | src/relay.rs:99-116 | On every run each pump has written a prefix of what it read; while it waits for input, past its end of file and at the end everything read has been written and flushed; and the short limit is in force once a side has ended. |
| Relay.ReadsAfterFlush | src/relay.rs:103-114 | On every run a pump takes new input only when everything it read before has been written and flushed. |
| Relay.ChunkIsCarried | src/relay.rs:103-114 | Progress, from every reachable state: a chunk read, written in writes of any sizes and flushed leaves the pump reading again with all of it on the other side, and disturbs nothing else. |
| Relay.EndIsPassedOn | src/relay.rs:105-110 | End of file half-closes the clock and shuts the other side, and the relay finishes exactly when the other pump already had. |
| Interleaving.Interleave | src/net.rs:120-132 | The two queues and the loop equal the specification. |
| Interleaving.FamiliesKept | src/net.rs:120-132 | Each family keeps its addresses in the resolver's order. |
| Interleaving.Permutation | src/net.rs:120-132 | Nothing is lost, added or repeated. |
| Interleaving.StartsAndAlternates | src/net.rs:119-132 | RFC 8305 section 4: first address first, families alternate until one runs out. |
| Interleaving.InterleavedIff | src/net.rs:120-132 | The result is the only list with these properties. |
| Dialing.ConnectAny | src/net.rs:136-168 | The race under any schedule equals the specification; twice the pending plus the running attempts falls every turn. |
| Dialing.RaceIsComplete | src/net.rs:136-168 | A prefix is started, each address once; an error exactly when every completion failed, and then all were started and completed; it is the last failure, or NotFound exactly for no addresses; a connection is the first success. |
| Dialing.StaggeredStarts | src/net.rs:145-166 | RFC 8305 section 5: when the delay elapses n times before anything completes, the first n + 1 addresses run side by side, any of them may win, and no other was started. |
| Dialing.RefusalsFallThrough | src/net.rs:145-166 | After n refusals in a row the address numbered n connects, and none behind it was started. |
| Dialing.DnsCache.ResolveWith | src/net.rs:90-107 | A fresh entry without lookup; otherwise the lookup's error, an error for no addresses, or a new entry. |
| Dialing.DnsCache.Invalidate | src/net.rs:109-111 | Removes that entry and no other. |
| Dialing.ServesLastLookup | src/net.rs:90-111 | Until expiry or invalidation, whatever else happens, callers get the last lookup's addresses and no lookup is made. |
| Dialing.StaleAsksAgain | src/net.rs:90-107 | An entry as old as the limit, or none, means a lookup; its addresses are the answer and are kept, its failure leaves the cache alone. |
| Dialing.Dial | src/net.rs:40-71 | Retries over the cache, the interleaving and the race equal the specification. |
| Dialing.ResolveAndConnect | src/net.rs:44-47 | One try: a literal or the cache, the interleaving, the race. |
| Dialing.TryRacesInOrder | src/net.rs:44-47 | A try races the resolved addresses in the one order that keeps both families' orders and alternates from the first address's family. |
| Dialing.LiteralIsTried | src/net.rs:44-47 | A literal is the only address tried and leaves the cache alone. |
| Dialing.DialOutcome | src/net.rs:40-71 | The outcome is the first try that connects in time, all earlier ones having failed after 200 + 400 + .. ms of back-off; failures forget that name only. |
| VlessRequest.EncodeAddons | src/outbound/vless.rs:20-30 | Empty for no flow, else the one-field block. |
| VlessRequest.EncodeRequestHeader | src/outbound/vless.rs:32-57 | The pushes produce the header, one-byte casts included. |
| VlessRequest.RequestReads | src/outbound/vless.rs:20-57 | A decoder written from the format reads back uuid, flow, address, port and any suffix. |
| VlessRequest.RequestReadsIff | src/outbound/vless.rs:20-57 | It does so exactly for a flow under 128 and a domain under 256 bytes, for every suffix. |
| Socks5.Handshake | src/inbound/socks5.rs:9-58 | Step by step over the stream, failing reads and writes included: result or error, bytes left and bytes written are the specification's. |
| Socks5.WellFormedAccepted | src/inbound/socks5.rs:9-58 | RFC 1928 sections 3 to 5: every well-formed exchange offering no-auth, with a client that takes the two-byte answer, is accepted and consumes exactly its own bytes. |
| Socks5.AcceptedWellFormed | src/inbound/socks5.rs:9-58 | Conversely everything accepted is a greeting and a request followed by the unread bytes. |
| Socks5.ReplySaysOutcome | src/inbound/socks5.rs:17-25 | What is written back, for every input and every client, and when the handshake fails on writing. |
| Socks5.RequestRefused | src/inbound/socks5.rs:25-53 | Which of the first four bytes refuses a request, checked in the source's order, each as an if-and-only-if. |
| Socks5.GreetingRefused | src/inbound/socks5.rs:9-15 | A greeting is refused for its version exactly when its first byte is not 5, and then without an answer. |
| Socks5.TranslationIsLossless | src/inbound/socks5.rs:42-58 | Whatever the handshake accepted is read back from the VLESS header made of it; the domain length never truncates. |
| Socks5.Reply | src/inbound/socks5.rs:61-66 | The ten reply bytes, or as many as the client takes. |
| Socks5.ReplyFields | src/inbound/socks5.rs:61-66 | RFC 1928 section 6: version 5, reply 0 for success and 1 for failure, reserved 0, 0.0.0.0 and port 0. |
| Base64.Decode | src/config.rs:173-198 | With the unmasked 32-bit accumulator: fails exactly on a foreign symbol before the padding; the output is the symbols' number without its last (6 x length) mod 8 bits. |
| Base64.ShiftKeepsLow | src/config.rs:186-193 | The dropped high bits never reach the bits still to be used. |
| Base64.RoundTrip | src/config.rs:173-198 | For every byte string, alphabet (RFC 4648 sections 4 and 5) and padding choice, the byte string itself is the only output that contract allows. |

## Left out

- TLS library internals: alerts, key updates, session close on the reading side (an ended TLS stream is an empty read), and buffer limits. A record that is oversize or does not authenticate is an error of the stream.
- Wakers and the scheduler: a poll is one call; which poll comes next is the caller's or the event list's choice, so the theorems cover every order.
- A failed call ends the modelled run; what a caller could still do with the connection after an error is covered only by `Uplink.WriteSafe`, `Uplink.FlushKeeps` and `Uplink.ShutdownKeeps`.
- The distribution of padding lengths: only range and cap matter for correctness.
- Vectored writes and allocation: buffers are unbounded byte strings, moved by value.
- Relay.Watchdog.Poll: one poll happens at one instant; the clock moves between polls only. The timer's own granularity is not modelled (it can only fire later).
- Relay.InvStep: the pumps' I/O results are events; read and write errors are the single event that ends the relay.
- Dialing.Dial: socket options are one arbitrary outcome; concurrent dials sharing the cache appear only as operation lists in `Dialing.ServesLastLookup`. A try that times out is modelled as having resolved first; its cache entry is removed either way.
- Reality.Connect: the records of the second pass are the result; sending them, the rest of the TLS handshake, its timeout and the certificate check against the authentication key are not modelled.
- Scripting.ScriptedRandom.WithScript: the key-share secret and the ML-KEM share of the script are part of the arbitrary construction; the hybrid key exchange itself is not modelled. The server is given the client's public key directly.
- Sniffer.SplitServerHelloIff: the second packet must not itself pass for a ServerHello, and for a cut before byte 6 no earlier ServerHello may be under way.
- VlessRequest.RequestReads: the decoder reads an addons block that holds the flow field and nothing else.
- The stand-alone response-header reader for tests, `parse_hex`, `parse_uuid` and the TOML configuration: short conversions and library plumbing.
- Process lifecycle, logging, listening, real name resolution and error texts.
