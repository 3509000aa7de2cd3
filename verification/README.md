# F1 telemetry recorder and player, modelled in Dafny

The system listens for the UDP telemetry a racing game broadcasts, decodes
the 29-byte packet header, records packets to `.f1tr` files and plays such
files back over UDP. This project models its byte-level formats, its three
small state machines (recorder, player, receiver), the session detector
that names recordings, and the configuration checks. It proves the
properties those parts promise:

- The header decoder is total. It fails exactly on short input and reads
  every field at its fixed little-endian offset.
- A file written by the recorder reads back, entry by entry and in order,
  then ends with EOF.
- The receiver's queue is first in, first out, holds at most 100 packets,
  and drops the newest packet when full.
- Every counter equals the number of packets or bytes handled, modulo 2^64.
- Session names built into file names contain only `[A-Za-z0-9_-]`.

Modules, one per source file:

| module | file | models |
|---|---|---|
| `Bytes` | bytes.dfy | the byte type, and the little-endian reads and writes the Go code does with `encoding/binary` |
| `Wrappers` | wrappers.dfy | `Option` and `Result` |
| `Packet` | packet.dfy | `internal/telemetry/packet.go`: header decoding and packet type names |
| `Parser` | parser.dfy | `internal/telemetry/parser.go`: car-telemetry and car-status decoding, and merging |
| `Session` | extractor.dfy | `internal/session/extractor.go`: session detection, name cleaning, file names |
| `Recorder` | recorder.dfy | `internal/recorder/recorder.go`: the `.f1tr` writer |
| `Playback` | player.dfy | `internal/playback/player.go`: the `.f1tr` reader and the player |
| `UdpReceiver` | receiver.dfy | `internal/telemetry/receiver.go`: packet intake and the bounded queue |
| `Config` | config.dfy | `internal/config/config.go`: defaults and validation |

Modelling conventions:

- **Floats.** float32 fields (`SessionTime`, throttle, brake, tyre
  pressures, fuel, ERS energy) are kept as their raw IEEE-754 bit patterns.
  Only the `> 0` test on the fuel level is interpreted (`Parser.Float32Positive`).
- **Go's `uint64` counters** wrap modulo 2^64 (`Bytes.AddU64`). Timestamp
  differences wrap as `int64` (`Bytes.SubI64`).
- **Files and I/O.** A file is the byte sequence written to it. The reader
  is a cursor over those bytes. Whether `os.Create`, `os.Open`,
  `net.DialUDP`, `net.ListenUDP`, a header write, a `Close` or a UDP send succeeded is
  a boolean parameter. Clock readings are `int64` parameters (Unix nanoseconds).
- **Classes and goroutines.** The recorder, the player, the receiver and
  `SessionInfo` are classes whose methods update their fields in place.
  Each goroutine loop is modelled one iteration at a time, and each
  iteration is atomic: `Playback.Player.Step` and `UdpReceiver.Receiver.ReceiveStep`.
- **Channels.** A channel is a `seq`: a send appends to it and the consumer
  takes from its front. `stopChan` and the packets channel are made once,
  in `NewPlayer` and `NewReceiver`. Closing either a second time (a `Stop`
  after a restart) is a Go run-time panic. `Stop` reports that as `panicked`.
- **Recorder counters.** `Recorder.Start` resets only `StartTime` in the
  statistics. The packet and byte counters carry over from the previous
  file, and the model keeps the carried values as ghost state.
- **Bytes as characters.** Bytes taken from a packet into a Go string become
  characters with the same code. Every byte of 0x80 or more belongs to a
  non-ASCII rune, which the filename sanitiser removes anyway.

## Model

| member | source | states |
|---|---|---|
| Bytes.U16At | internal/telemetry/packet.go:59 | the little-endian uint16 at an offset is the low byte plus 256 times the high byte |
| Bytes.LittleEndianInverse | internal/telemetry/packet.go:59-68 | decoding bytes little-endian and encoding the value back at the same width gives the same bytes |
| Bytes.UintAtEncodes | internal/telemetry/packet.go:59-68 | the n bytes at an offset are exactly the n-byte little-endian encoding of the unsigned value read there |
| Bytes.U32AtEncodes | internal/telemetry/packet.go:67-68 | a uint32 read at an offset re-encodes to the four bytes it was read from |
| Bytes.U64AtEncodes | internal/telemetry/packet.go:65 | a uint64 read at an offset re-encodes to the eight bytes it was read from |
| Bytes.Int64FromBits | internal/playback/player.go:288-291 | an int64 read from eight bytes is negative exactly when the top bit is set, and is congruent to the unsigned value modulo 2^64 |
| Bytes.Int64ToBits | internal/recorder/recorder.go:124-125 | the two's-complement bits of an int64 decode back to it |
| Bytes.I64AtEncodes | internal/playback/player.go:288-291 | an int64 read with binary.Read re-encodes to the eight bytes it came from |
| Bytes.Int8FromByte | internal/telemetry/parser.go:60 | int8(b) is congruent to b modulo 256 and negative exactly when b is 0x80 or more |
| Bytes.EncodeU16Decodes | internal/recorder/recorder.go:181 | a uint16 written little-endian reads back unchanged |
| Bytes.EncodeU32Decodes | internal/recorder/recorder.go:130-131 | a uint32 written little-endian reads back unchanged |
| Bytes.EncodeU64Decodes | internal/recorder/recorder.go:124-125 | a uint64 written little-endian reads back unchanged |
| Bytes.EncodeI64Decodes | internal/recorder/recorder.go:186-187 | an int64 written with binary.Write reads back unchanged with binary.Read |
| Bytes.AddU64 | internal/recorder/recorder.go:142-143 | adding to a uint64 counter gives the plain sum whenever it does not overflow |
| Bytes.AddU64Carries | internal/recorder/recorder.go:142-143 | adding to a counter that holds a total modulo 2^64 gives the new total modulo 2^64 |
| Bytes.SubI64 | internal/playback/player.go:211 | the timestamp difference is the exact difference when it fits in int64 and wraps modulo 2^64 otherwise |
| Packet.ParseHeader | internal/telemetry/packet.go:53-56 | the header parse fails, with ErrInvalidPacket, exactly when the input is shorter than 29 bytes |
| Packet.Float32FromBytes | internal/telemetry/packet.go:77-80 | the float's bit pattern is the little-endian uint32 of the four bytes; re-encoding it gives those bytes |
| Packet.ParseHeaderEncodes | internal/telemetry/packet.go:58-71 | the decoded header, encoded field by field, is exactly the first 29 bytes of the input |
| Packet.HeaderRoundTrip | internal/telemetry/packet.go:53-74 | encoding any header and appending anything, then parsing, gives that header back |
| Packet.HeaderIgnoresTrailing | internal/telemetry/packet.go:58-71 | two buffers that agree on their first 29 bytes parse to the same header |
| Packet.HeaderFields | internal/telemetry/packet.go:59-70 | each header field is read from its offset: format at 0-1, year and versions and ID at 2-6, session UID at 7-14, session time bits at 15-18, frame IDs at 19-22 and 23-26, car indexes at 27 and 28 |
| Packet.GetPacketTypeName | internal/telemetry/packet.go:88-110 | the name is "Unknown" exactly for IDs above 13 |
| Packet.PacketTypeNamesDistinct | internal/telemetry/packet.go:89-104 | the 14 listed names are distinct: each maps back to its own ID, and "Unknown" maps to none |
| Parser.ParseCarTelemetryPacket | internal/telemetry/parser.go:25-102 | no record exactly when the input is short, is not packet 6, or lacks the player's 60-byte entry; otherwise speed, throttle, brake, gear, RPM, DRS, tyre temperatures, engine temperature and tyre pressures come from their offsets in that entry, and the status fields are zero |
| Parser.ParseCarStatusPacket | internal/telemetry/parser.go:105-186 | no record exactly when the input is short, is not packet 7, or lacks the player's 58-byte entry; otherwise fuel, DRS, ERS energy and deploy mode come from offsets 5, 22, 37 and 41 of that entry and every other field is zero |
| Parser.CarTelemetryReadsOnlyWindow | internal/telemetry/parser.go:32-97 | the decoded telemetry depends only on the first 56 bytes of the player's entry |
| Parser.TelemetryWindowReadsAgree | internal/telemetry/parser.go:42-97 | every read the telemetry decoder makes lies inside the 56-byte window after the entry's base |
| Parser.Float32PositiveIsIeee | internal/telemetry/parser.go:221 | the bit-level `> 0` test on a float32 holds exactly for a clear sign bit, a value that is not zero and not NaN |
| Parser.MergeTelemetryData | internal/telemetry/parser.go:189-229 | nil cases give zero, the new record or the base; otherwise speed/throttle/brake/gear/RPM move together when the new speed is positive, the engine temperature when positive, tyre temperatures when any is non-zero, fuel/ERS/DRS together when the new fuel is positive, and nothing else changes |
| Parser.MergeIdempotent | internal/telemetry/parser.go:189-229 | merging the same update twice changes nothing the first merge did not |
| Parser.MergeTelemetryKeepsStatus | internal/telemetry/parser.go:202-226 | merging a decoded car-telemetry packet leaves fuel, ERS and DRS untouched |
| Parser.MergeStatusKeepsTelemetry | internal/telemetry/parser.go:202-226 | merging a decoded car-status packet changes only fuel, ERS energy and DRS |
| Session.DecimalDigits | internal/session/extractor.go:151 | at least one character, all decimal digits, and no leading zero |
| Session.FormatInt | internal/session/extractor.go:151 | `%d`: filename-safe characters, starting with a minus sign exactly for a negative number |
| Session.DecimalRoundTrip | internal/session/extractor.go:151 | the decimal digits of a natural number read back as that number |
| Session.FormatIntRoundTrip | internal/session/extractor.go:151 | `%d` of any integer parses back to it |
| Session.WeatherName | internal/session/extractor.go:129-133 | a listed code gets its listed name and any other code "Unknown", so the name is never empty |
| Session.SessionTypeName | internal/session/extractor.go:141-145 | a listed code gets its listed name and any other code "Unknown", so the name is never empty |
| Session.TrackName | internal/session/extractor.go:148-152 | a listed ID gets its listed name; an unlisted one gets "Track" followed by more characters, which UnlistedTrackNameHoldsId pins to `%d` of the ID |
| Session.UnlistedTrackNameHoldsId | internal/session/extractor.go:150-152 | the name of an unlisted track is "Track" followed by FormatInt of its ID, and that suffix reads back to the ID |
| Session.LookupNamesAreSafe | internal/session/extractor.go:18-80 | every weather, session type and track name is filename-safe |
| Session.ExtractNullTerminatedString | internal/session/extractor.go:209-216 | the bytes before the first zero byte, or all of them when there is none |
| Session.TrimSpace | internal/session/extractor.go:197 | the result is the input with a run of white space removed from each end: a slice of the input that neither starts nor ends with white space, all of whose cut-off characters are white space |
| Session.TrimSpaceEmptyIffAllSpace | internal/session/extractor.go:197-200 | trimming gives "" exactly when the name is all white space, which is when "Player" is used |
| Session.TrimSpaceKeepsTrimmed | internal/session/extractor.go:197 | a string with no white space at either end is left as it is |
| Session.ReplaceSpaces | internal/session/extractor.go:221 | each space becomes "_" and every other character is kept |
| Session.SanitizeForFilename | internal/session/extractor.go:219-232 | the result holds only `[A-Za-z0-9_-]` and is no longer than the input |
| Session.KeepFilenameChars | internal/session/extractor.go:224-229 | the kept characters are all of `[A-Za-z0-9_-]` and no more than the input |
| Session.KeepFilenameCharsAppend | internal/session/extractor.go:224-229 | the filter works character by character: filtering a concatenation concatenates the filtered parts |
| Session.SanitizeAppend | internal/session/extractor.go:219-232 | sanitising a concatenation concatenates the sanitised parts |
| Session.SanitizeSnoc | internal/session/extractor.go:219-232 | "" stays ""; one more character adds "_" for a space, itself for a character of `[A-Za-z0-9_-]`, and nothing otherwise |
| Session.SanitizeSafeIsIdentity | internal/session/extractor.go:224-229 | a name that is already filename-safe is left unchanged |
| Session.SanitizeIdempotent | internal/session/extractor.go:219-232 | sanitising twice is the same as sanitising once |
| Session.PlayerNameFromField | internal/session/extractor.go:193-203 | the name is the field cut at its first zero byte, trimmed, replaced by "Player" when that leaves "", then sanitised; so it is filename-safe |
| Session.BlankNameBecomesDefault | internal/session/extractor.go:197-200 | a blank name becomes "Player" |
| Session.SymbolOnlyNameIsEmpty | internal/session/extractor.go:197-203 | "Player" is chosen before sanitising, so a name made only of symbols ends up "" |
| Session.PlayerNameExample | internal/session/extractor.go:193-203 | the field "Max Verstappen!!" followed by a zero byte and anything else is stored as "Max_Verstappen" |
| Session.SessionFields | internal/session/extractor.go:121-152 | a Session packet under 100 bytes sets nothing; otherwise weather is the name of byte 29, the session type that of byte 35 and the track that of byte 36 read as int8, all filename-safe |
| Session.NameField | internal/session/extractor.go:179-193 | the name field is the 32 bytes at 30 + 58 times the player index + 48 |
| Session.ParticipantsPlayerName | internal/session/extractor.go:160-206 | a name is found exactly when the packet holds the player's whole 32-byte name field, and it is the cleaned name from that field |
| Session.FirstOfKind | internal/session/extractor.go:91-107 | the index of the first packet of at least 29 bytes with a given ID; none exactly when there is no such packet |
| Session.Join | internal/session/extractor.go:258 | joining no parts gives ""; a single part is itself; otherwise the result starts with the first part |
| Session.JoinSnoc | internal/session/extractor.go:258 | joining one more part appends the separator and that part |
| Session.JoinSafe | internal/session/extractor.go:258 | joining filename-safe parts with a safe separator is filename-safe |
| Session.SessionInfo.constructor | internal/session/extractor.go:84 | a new record has every field empty and HasInfo false |
| Session.SessionInfo.FilenameParts | internal/session/extractor.go:236-252 | the track when known, the session type when known, the player when not "" or "Player", the weather when not "" or "Clear", each exactly when it qualifies and in that order; no part is empty |
| Session.SessionInfo.GenerateFilename | internal/session/extractor.go:235-259 | "session" when no part qualifies, otherwise the qualifying parts joined with "_"; never empty, and filename-safe when the fields are |
| Session.SessionInfo.TrackLeadsFilename | internal/session/extractor.go:238-240 | a known track name opens the file name |
| Session.FilenameExample | internal/session/extractor.go:235-259 | Monaco, Race, Max_Verstappen and Clear give "Monaco_Race_Max_Verstappen" |
| Session.SessionInfo.DescriptionParts | internal/session/extractor.go:268-280 | "Player: ", "Track: ", "Session: " and "Weather: " followed by the field, each exactly when the field is not empty and in that order |
| Session.SessionInfo.String | internal/session/extractor.go:262-283 | "No session info available" exactly when HasInfo is false; otherwise the labelled fields joined with a vertical bar between spaces |
| Session.ParseSessionPacket | internal/session/extractor.go:121-157 | a short packet leaves the record unchanged; otherwise weather, session type and track become the names of bytes 29, 35 and 36, and nothing else changes |
| Session.ParseParticipantsPacket | internal/session/extractor.go:160-206 | without the player's whole name field the record is unchanged; otherwise only the player's name is set |
| Session.TakePacket | internal/session/extractor.go:90-108 | only the first Session packet and the first Participants packet are decoded, and the seen flags record the kinds met so far |
| Session.ExtractSessionInfo | internal/session/extractor.go:83-118 | HasInfo is set exactly when both packet kinds occur; the scan stops right after the later first occurrence, or runs to the end; the fields are those decoded from the first packet of each kind |
| Session.DetectedFieldsAreSafe | internal/session/extractor.go:83-118 | whatever the packets hold, the detected names are filename-safe |
| Recorder.FileHeaderBytes | internal/recorder/recorder.go:168-197 | the file header is 46 bytes long |
| Recorder.FileHeaderFields | internal/recorder/recorder.go:168-197 | the 46-byte header holds "F1TR", version 1 at byte 4, the creation time at byte 6, then 32 zero bytes |
| Recorder.SizeField | internal/recorder/recorder.go:130 | uint32(len(data)) equals the length whenever that fits in 32 bits |
| Recorder.EntryBytes | internal/recorder/recorder.go:123-139 | an entry is 12 bytes plus its payload |
| Recorder.EntryFields | internal/recorder/recorder.go:123-139 | an entry holds the timestamp, then the size field at byte 8, then the payload from byte 12 |
| Recorder.AppendEntriesLength | internal/recorder/recorder.go:123-143 | a file grows by 12 bytes plus the payload for each entry |
| Recorder.AppendEntriesSnoc | internal/recorder/recorder.go:123-143 | recording one more entry appends exactly its bytes and leaves the earlier bytes untouched |
| Recorder.AppendEntriesSplit | internal/recorder/recorder.go:123-139 | the bytes of the entries do not depend on what precedes them in the file |
| Recorder.EntriesBytesFront | internal/recorder/recorder.go:123-139 | read from the front, the first entry's bytes come first |
| Recorder.RecordingFile | internal/recorder/recorder.go:168-197 | a finished recording is 46 bytes plus 12 per entry plus the payloads |
| Recorder.JoinPath | internal/recorder/recorder.go:56 | the directory, "/" and the name, or the name alone for an empty directory; the path ends with the name |
| Recorder.OutputPath | internal/recorder/recorder.go:54-56 | the output path ends with ".f1tr" |
| Recorder.OutputPathParts | internal/recorder/recorder.go:54-56 | the output path is the directory, "/", the timestamp, "_", the session name and ".f1tr" |
| Recorder.NewRecorder | internal/recorder/recorder.go:47-64 | fails exactly when the directory cannot be made; otherwise a stopped recorder with that path and zeroed statistics naming the session |
| Recorder.Recorder.constructor | internal/recorder/recorder.go:58-63 | a stopped recorder with no file and statistics holding only the session name |
| Recorder.Recorder.Start | internal/recorder/recorder.go:67-92 | refuses when running; a failed create changes nothing; otherwise running is set before the header is written, so a failed header write leaves the recorder running with a closed, empty file |
| Recorder.Recorder.Open | internal/recorder/recorder.go:81-89 | after the create: running, the start time set, and either the 46-byte header written or the file closed |
| Recorder.Recorder.Restart | internal/recorder/recorder.go:81-83 | running with a new empty file, only the start time changed in the statistics, the counters carried over |
| Recorder.Recorder.Stop | internal/recorder/recorder.go:95-112 | a no-op when not running; otherwise running is cleared and the file closed, and CloseFailed is reported exactly when there is a file and it was already closed or its close fails |
| Recorder.Recorder.RecordPacket | internal/recorder/recorder.go:115-146 | refuses when not running, fails on a closed file, and otherwise appends exactly the entry's bytes and adds 1 and 12 plus the payload size to the counters |
| Recorder.Recorder.Append | internal/recorder/recorder.go:123-143 | appends one entry's bytes and advances both counters, keeping the invariant that the counters match the file |
| Recorder.Recorder.Stats | internal/recorder/recorder.go:149-153 | returns the statistics |
| Recorder.Recorder.IsRunning | internal/recorder/recorder.go:156-160 | returns the running flag |
| Recorder.Recorder.FileMatchesCounters | internal/recorder/recorder.go:142-143 | while recording, the file is the header followed by the entries, and BytesWritten grows with the file length beyond the 46 header bytes, modulo 2^64 |
| Playback.ReadFull | internal/playback/player.go:257 | reading n bytes succeeds exactly when they are all there; otherwise EOF when nothing is left, ErrUnexpectedEOF when some bytes are |
| Playback.ReadFileHeader | internal/playback/player.go:254-283 | accepts exactly a file of at least 46 bytes starting with "F1TR", leaving the cursor at 46; a wrong magic is reported as such |
| Playback.ReadPacketSpec | internal/playback/player.go:286-306 | reading an entry succeeds exactly when its 12 bytes and the announced payload are all there, and returns the timestamp and payload; a failed read is EOF exactly when it stops at the start of the timestamp, the size or the payload, and ErrUnexpectedEOF otherwise |
| Playback.ReadPacket | internal/playback/player.go:286-306 | a successful read moves past at least the 12 entry bytes and stays inside the file; a failure is never a bad magic |
| Playback.ReadEntries | internal/playback/player.go:197-207 | reading entries until an error never stops at a bad magic, and each entry read takes at least 12 of the bytes left |
| Playback.ReadEntryAt | internal/playback/player.go:286-306 | the bytes the recorder writes for an entry read back as that entry |
| Playback.ReadEntriesFrom | internal/playback/player.go:286-306 | a run of entries' bytes reads back as those entries in order, then EOF |
| Playback.RecordingRoundTrip | internal/playback/player.go:254-306 | a file the recorder wrote passes the header check and reads back as exactly the recorded entries, in order, followed by EOF |
| Playback.ConsumedIsPrefix | internal/playback/player.go:197-207 | what a reader of a recorded file has consumed is a prefix of the recorded entries |
| Playback.RecordingReader.constructor | internal/playback/player.go:67-71 | a new reader has its cursor at 0 |
| Playback.RecordingReader.ReadHeader | internal/playback/player.go:254-283 | succeeds exactly when the header check does, leaving the cursor at 46; failing, it reports the check's error |
| Playback.RecordingReader.Next | internal/playback/player.go:286-306 | returns the next entry and moves past it, or the read error; after the error, the entries consumed are all the file holds, ended by that error |
| Playback.Forwarded | internal/playback/player.go:225-238 | a played payload reaches the packets channel exactly when its header parses and the channel holds fewer than 100 packets, with its timestamp and decoded header |
| Playback.CountersAdvance | internal/playback/player.go:243-245 | counters that match the played entries still match after one more |
| Playback.Player.constructor | internal/playback/player.go:41-50 | a stopped, unpaused player with the given speed and empty channels |
| Playback.Player.Start | internal/playback/player.go:58-99 | refuses when running; fails without change when the file cannot be opened; closes the file on a bad header or a failed dial, changing nothing else; otherwise running, unpaused, stats zeroed with the start time, cursor after the header |
| Playback.Player.Launch | internal/playback/player.go:71-99 | from an opened file: the header check, the dial and the start of playback, with the outcome of each; a failed check or dial only installs and closes the file |
| Playback.Player.Begin | internal/playback/player.go:84-96 | a failed dial changes nothing; otherwise running, unpaused, stats zeroed with the start time, the playback loop active |
| Playback.Player.Stop | internal/playback/player.go:102-131 | a no-op when not running; otherwise stopChan and the packets channel are closed, running is cleared and the file closed; a second close panics |
| Playback.Player.Pause | internal/playback/player.go:134-138 | sets paused; the file, cursor, speed, channels, sent packets, statistics and loop state are unchanged |
| Playback.Player.Resume | internal/playback/player.go:141-145 | clears paused; the file, cursor, speed, channels, sent packets, statistics and loop state are unchanged |
| Playback.Player.IsPaused | internal/playback/player.go:148-152 | reports the last Pause or Resume |
| Playback.Player.IsRunning | internal/playback/player.go:155-159 | returns the running flag |
| Playback.Player.Stats | internal/playback/player.go:162-166 | returns the statistics |
| Playback.Player.SetSpeed | internal/playback/player.go:169-175 | sets the speed when the new value is positive and keeps it otherwise; nothing else changes |
| Playback.Player.TakePacket | internal/playback/player.go:52-55 | the consumer takes the oldest queued packet, which leaves the queue; nothing else changes |
| Playback.Player.Step | internal/playback/player.go:181-248 | one loop turn: exits once stopChan is closed, changing nothing else; waits while paused without reading; on a read error or EOF stops playback, having consumed the whole recording; otherwise plays the next entry, with no delay before the first; pause state and speed are never changed |
| Playback.Player.PlayEntry | internal/playback/player.go:209-248 | plays one entry: the gap to the previous timestamp, the send, the forwarding rule, lastTimestamp, and the counters advanced by 1 and the payload size even when the send failed; the file stays open and the pause state, speed and channels are unchanged |
| Playback.Player.Deliver | internal/playback/player.go:220-240 | the payload is sent when the send succeeds, forwarded with its header by the forwarding rule, and becomes lastTimestamp; nothing else changes |
| Playback.Player.Count | internal/playback/player.go:243-248 | PacketsPlayed grows by 1 and BytesSent by the payload size, with the current and recording times set |
| Playback.Player.PlaysRecordingInOrder | internal/playback/player.go:197-248 | while a recorded file plays, the entries played so far are the first entries recorded, in order |
| UdpReceiver.Truncate | internal/telemetry/receiver.go:121-144 | the bytes read are the datagram cut to the buffer size |
| UdpReceiver.Receiver.constructor | internal/telemetry/receiver.go:39-45 | a stopped receiver with an empty queue |
| UdpReceiver.Receiver.Start | internal/telemetry/receiver.go:48-74 | refuses when running; a failed bind changes nothing; otherwise running, with the statistics reset to the start time |
| UdpReceiver.Receiver.Stop | internal/telemetry/receiver.go:77-96 | a no-op when not running; otherwise running is cleared and the loop and the packets channel end; a second close panics |
| UdpReceiver.Receiver.Stats | internal/telemetry/receiver.go:104-108 | returns the statistics |
| UdpReceiver.Receiver.IsRunning | internal/telemetry/receiver.go:111-115 | returns the running flag |
| UdpReceiver.Receiver.IncrementErrors | internal/telemetry/receiver.go:185-189 | Errors grows by 1 and nothing else changes |
| UdpReceiver.Receiver.ProcessPacket | internal/telemetry/receiver.go:151-182 | an undecodable datagram only adds an error; otherwise the counters grow by 1 and its length, and the packet, a copy with its header, joins the tail of the queue when under 100 or is dropped with an error |
| UdpReceiver.Receiver.Count | internal/telemetry/receiver.go:170-173 | PacketsReceived grows by 1 and BytesReceived by the datagram's length |
| UdpReceiver.Receiver.ReceiveStep | internal/telemetry/receiver.go:123-146 | one loop turn: returns once stopChan is closed, changing nothing; a timeout is not an error; another read error returns when stopped and counts an error otherwise; a non-empty read, cut to the buffer size, is processed exactly as ProcessPacket states |
| UdpReceiver.Receiver.TakePacket | internal/telemetry/receiver.go:98-101 | the consumer takes the oldest queued packet, which leaves the queue; nothing else changes |
| UdpReceiver.Receiver.DeliveredInOrder | internal/telemetry/receiver.go:176-181 | the packets taken and those still queued are, in order, exactly the packets accepted: nothing accepted is lost or reordered |
| Config.NewDefaultConfig | internal/config/config.go:38-49 | port 20777, address 0.0.0.0, directory ./recordings, directory creation on, the timestamp layout, buffer 65536, timeout 5000 ms, speed 1.0 |
| Config.Validate | internal/config/config.go:90-108 | accepts exactly a port in 1..65535, a non-empty directory, a buffer of at least 1024 and a positive speed; otherwise reports the first failing check, in that order |
| Config.DefaultConfigValid | internal/config/config.go:38-49 | the defaults pass validation |
| Config.ValidateReadsFourFields | internal/config/config.go:90-108 | validation looks only at the port, the directory, the buffer size and the speed |

## Left out

- Concurrency: goroutines, mutexes, the WaitGroup and the timing of channel operations are not modelled. Each method and each loop turn is atomic. In particular, the interleaving in which the receive loop's IsRunning waits for the lock that the receiver's Stop holds while it waits for the loop is not modelled.
- Sockets, files and the clock are parameters: the outcome of each open, create, dial, bind, header write, close and send, and each clock reading. Packet contents arrive as byte sequences.
- Playback timing: the speed-scaled float64 sleep, the 100 ms pause polling and the 50 ms wait in the player's Stop. The model computes the timestamp gap (`Playback.Player.PlayEntry`) but does not sleep.
- Floating point: float32 values stay bit patterns, and speed is a real number. A NaN speed is not modelled.
- Partial writes: the recorder's writes either all succeed or, once the file is closed, fail without writing. A write that fails halfway, leaving some of an entry's bytes behind, is not modelled.
- Playback.RecordingReader.Next: after a short read the cursor stays where it was, while the OS file offset would already have moved past the bytes read. Playback stops at that error, so nothing reads from the later offset.
- Playback.RecordingRoundTrip: holds for payloads under 4 GiB. A larger payload's 32-bit size field wraps, and the file does not read back.
- strings.TrimSpace: only ASCII white space is trimmed (`Session.IsSpace`). Unicode spaces such as U+0085 and U+00A0 are not.
- filepath.Join: the model inserts one separator. Join's path cleaning (removing `.` and `..`, and duplicate or trailing slashes) is not modelled.
- The packets channel after close: a send on a closed channel panics in Go. After Stop, every Step and ReceiveStep returns before sending, because the stop channel stays closed, so this panic is not modelled.
- `TimeOfDay` is never set by the source and stays "".
- Config Load and Save (JSON files) are not part of this model.
- The telemetry error values other than ErrInvalidPacket are unused by the core and not modelled.
- The menu, the graphics, `main.go` and the error sentinels file are not part of this model.
