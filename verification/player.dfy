/**
 * The player: it reads a .f1tr recording back, entry by entry, forwards
 * each payload over UDP and offers the decoded packets to a bounded queue.
 *
 * The recording is the byte sequence of the file with a read cursor.
 * Opening the file, dialling the UDP connection and sending a datagram are
 * parameters that say whether the operating-system call succeeded; clock
 * readings are parameters too. The playback goroutine is modelled one loop
 * iteration at a time (Step), each iteration atomic.
 */
module Playback {
  import opened Bytes
  import opened Wrappers
  import opened Packet
  import opened Recorder

  /** io.EOF (nothing left), io.ErrUnexpectedEOF (a short read) and the magic check. */
  datatype ReadError = EOF | UnexpectedEOF | InvalidMagic

  /** One entry read and the cursor just after it. */
  datatype Read = Read(entry: Entry, next: nat)

  /** Everything a reader gets from a cursor on: the entries in order and the error that ended it. */
  datatype Contents = Contents(entries: seq<Entry>, stop: ReadError)

  /**
   * io.ReadFull of n bytes at pos: all n bytes, or EOF when none is left,
   * or ErrUnexpectedEOF when only some are. Reading nothing always succeeds.
   */
  function ReadFull(file: seq<byte>, pos: nat, n: nat): (r: Result<nat, ReadError>)
    ensures r.Success? <==> n == 0 || pos + n <= |file|
    ensures r.Success? ==> r.value == pos + n
    ensures r.Failure? ==> (r.error == EOF <==> pos >= |file|) && r.error != InvalidMagic
  {
    if n == 0 || pos + n <= |file| then Success(pos + n)
    else if pos >= |file| then Failure(EOF)
    else Failure(UnexpectedEOF)
  }

  /**
   * readFileHeader: the magic, then the version, the creation time and the
   * reserved block, which are read but not checked. On success the cursor
   * is just after the header.
   */
  function ReadFileHeader(file: seq<byte>): (r: Result<nat, ReadError>)
    ensures r.Success? <==> |file| >= FileHeaderSize && file[..4] == Magic
    ensures r.Success? ==> r.value == FileHeaderSize
    ensures r.Failure? && |file| >= 4 && file[..4] != Magic ==> r.error == InvalidMagic
    ensures r.Failure? && r.error == InvalidMagic ==> |file| >= 4 && file[..4] != Magic
  {
    var magic := ReadFull(file, 0, 4);
    if magic.Failure? then Failure(magic.error)
    else if file[..4] != Magic then Failure(InvalidMagic)
    else
      var version := ReadFull(file, magic.value, 2);
      if version.Failure? then Failure(version.error)
      else
        var created := ReadFull(file, version.value, 8);
        if created.Failure? then Failure(created.error)
        else ReadFull(file, created.value, ReservedSize)
  }

  /** readPacket: the timestamp, the 32-bit size, then exactly that many payload bytes. */
  function ReadPacket(file: seq<byte>, pos: nat): (r: Result<Read, ReadError>)
    ensures r.Success? ==> pos + EntryOverhead <= r.value.next <= |file|
    ensures r.Failure? ==> r.error != InvalidMagic
  {
    var t := ReadFull(file, pos, 8);
    if t.Failure? then Failure(t.error)
    else
      var s := ReadFull(file, t.value, 4);
      if s.Failure? then Failure(s.error)
      else
        var d := ReadFull(file, s.value, U32At(file, t.value));
        if d.Failure? then Failure(d.error)
        else Success(Read(Entry(I64At(file, pos), file[s.value..d.value]), d.value))
  }

  /**
   * readPacket succeeds exactly when the whole entry is in the file; it then
   * returns the timestamp and the payload the size field announces. A short
   * read is EOF when it finds no byte at all, ErrUnexpectedEOF otherwise.
   */
  lemma ReadPacketSpec(file: seq<byte>, pos: nat)
    ensures var r := ReadPacket(file, pos);
      && (r.Success? <==> pos + EntryOverhead <= |file| && pos + EntryOverhead + U32At(file, pos + 8) <= |file|)
      && (r.Success? ==>
            && r.value.next == pos + EntryOverhead + |r.value.entry.payload|
            && r.value.entry.timestamp == I64At(file, pos)
            && |r.value.entry.payload| == U32At(file, pos + 8)
            && r.value.entry.payload == file[pos + EntryOverhead..r.value.next])
      && (r.Failure? ==> r.error != InvalidMagic)
      && (r.Failure? ==> (r.error == EOF <==> pos >= |file| || pos + 8 == |file| || pos + EntryOverhead == |file|))
  {
  }

  /**
   * Reads entries from pos until the first read error. The magic is not
   * checked again, and every entry takes at least its 12 bytes of overhead.
   */
  function ReadEntries(file: seq<byte>, pos: nat): (p: Contents)
    ensures p.stop != InvalidMagic
    ensures pos <= |file| ==> EntryOverhead * |p.entries| <= |file| - pos
    decreases |file| - pos
  {
    match ReadPacket(file, pos)
    case Failure(e) => Contents([], e)
    case Success(r) =>
      var rest := ReadEntries(file, r.next);
      Contents([r.entry] + rest.entries, rest.stop)
  }

  predicate PayloadsFit(es: seq<Entry>)
  {
    forall i :: 0 <= i < |es| ==> |es[i].payload| < 0x1_0000_0000
  }

  lemma SliceWithin<T>(s: seq<T>, lo: nat, hi: nat, a: nat, c: nat)
    requires lo <= hi <= |s| && a <= c <= hi - lo
    ensures s[lo..hi][a..c] == s[lo + a..lo + c]
  {
    forall i | 0 <= i < c - a
      ensures s[lo..hi][a..c][i] == s[lo + a..lo + c][i]
    {
      assert s[lo..hi][a..c][i] == s[lo..hi][a + i] == s[lo + a + i];
    }
  }

  /** An entry's bytes found at pos read back as that entry. */
  lemma ReadEntryAt(file: seq<byte>, pos: nat, e: Entry)
    requires |e.payload| < 0x1_0000_0000
    requires pos + |EntryBytes(e)| <= |file| && file[pos..pos + |EntryBytes(e)|] == EntryBytes(e)
    ensures ReadPacket(file, pos) == Success(Read(e, pos + |EntryBytes(e)|))
  {
    var b := EntryBytes(e);
    EntryFields(e);
    var w := file[pos..pos + |b|];
    SliceWithin(file, pos, pos + |b|, 0, 8);
    SliceWithin(file, pos, pos + |b|, 8, 12);
    assert I64At(file, pos) == e.timestamp;
    assert U32At(file, pos + 8) == |e.payload|;
    assert file[pos + EntryOverhead..pos + |b|] == e.payload by {
      assert b[EntryOverhead..] == e.payload;
    }
  }

  lemma SliceSplit(file: seq<byte>, pos: nat, front: seq<byte>, back: seq<byte>)
    requires pos <= |file| && file[pos..] == front + back
    ensures pos + |front| <= |file|
    ensures file[pos..pos + |front|] == front && file[pos + |front|..] == back
  {
    assert file[pos..pos + |front|] == file[pos..][..|front|];
    assert file[pos + |front|..] == file[pos..][|front|..];
  }

  lemma ReadEntriesAtEnd(file: seq<byte>)
    ensures ReadEntries(file, |file|) == Contents([], EOF)
  {
    assert ReadFull(file, |file|, 8) == Failure(EOF);
  }

  lemma ReadEntriesStep(file: seq<byte>, pos: nat, next: nat, es: seq<Entry>)
    requires es != [] && ReadPacket(file, pos) == Success(Read(es[0], next))
    requires ReadEntries(file, next) == Contents(es[1..], EOF)
    ensures ReadEntries(file, pos) == Contents(es, EOF)
  {
    assert [es[0]] + es[1..] == es;
  }

  /** Reading entries from where their bytes begin yields them in order, then EOF. */
  lemma {:induction false} ReadEntriesFrom(file: seq<byte>, pos: nat, es: seq<Entry>)
    requires PayloadsFit(es)
    requires pos <= |file| && file[pos..] == EntriesBytes(es)
    ensures ReadEntries(file, pos) == Contents(es, EOF)
    decreases |es|
  {
    if es == [] {
      assert EntriesBytes(es) == [];
      ReadEntriesAtEnd(file);
    } else {
      var next := ReadFrontEntry(file, pos, es);
      ReadEntriesFrom(file, next, es[1..]);
      ReadEntriesStep(file, pos, next, es);
    }
  }

  /** The first of the entries whose bytes start at pos is read back, and the rest start where it ends. */
  lemma ReadFrontEntry(file: seq<byte>, pos: nat, es: seq<Entry>) returns (next: nat)
    requires es != [] && PayloadsFit(es)
    requires pos <= |file| && file[pos..] == EntriesBytes(es)
    ensures ReadPacket(file, pos) == Success(Read(es[0], next))
    ensures next <= |file| && file[next..] == EntriesBytes(es[1..]) && PayloadsFit(es[1..])
  {
    var b := EntryBytes(es[0]);
    EntriesBytesFront(es);
    SliceSplit(file, pos, b, EntriesBytes(es[1..]));
    ReadEntryAt(file, pos, es[0]);
    forall i | 0 <= i < |es[1..]|
      ensures |es[1..][i].payload| < 0x1_0000_0000
    {
      assert es[1..][i] == es[i + 1];
    }
    next := pos + |b|;
  }

  /**
   * The round trip: a file the recorder wrote (the header, then one entry per
   * recorded packet) passes the header check and reads back as the same
   * timestamps and payloads, in the same order, followed by EOF.
   */
  lemma RecordingRoundTrip(created: int64, es: seq<Entry>)
    requires PayloadsFit(es)
    ensures ReadFileHeader(RecordingFile(created, es)) == Success(FileHeaderSize)
    ensures ReadEntries(RecordingFile(created, es), FileHeaderSize) == Contents(es, EOF)
  {
    var h := FileHeaderBytes(created);
    FileHeaderFields(created);
    AppendEntriesSplit(h, es);
    var f := RecordingFile(created, es);
    assert f[..4] == h[..4];
    assert f[FileHeaderSize..] == EntriesBytes(es);
    ReadEntriesFrom(f, FileHeaderSize, es);
  }

  /** Reading one entry moves it from what is left to what was read. */
  lemma ReadOneMore(file: seq<byte>, pos: nat, consumed: seq<Entry>)
    requires ReadPacket(file, pos).Success?
    ensures var r := ReadPacket(file, pos).value;
      var rest := ReadEntries(file, r.next);
      Contents(consumed + ReadEntries(file, pos).entries, ReadEntries(file, pos).stop)
        == Contents((consumed + [r.entry]) + rest.entries, rest.stop)
  {
    var r := ReadPacket(file, pos).value;
    var rest := ReadEntries(file, r.next);
    assert ReadEntries(file, pos) == Contents([r.entry] + rest.entries, rest.stop);
    assert consumed + ([r.entry] + rest.entries) == (consumed + [r.entry]) + rest.entries;
  }

  /**
   * A reader at pos has consumed the entries before pos: it is at the start
   * with nothing read, or what is left after pos completes consumed to the
   * file's whole contents.
   */
  ghost predicate ReaderAt(data: seq<byte>, pos: nat, consumed: seq<Entry>)
  {
    && pos <= |data|
    && (pos < FileHeaderSize ==> pos == 0 && consumed == [])
    && (pos >= FileHeaderSize ==>
          ReadEntries(data, FileHeaderSize)
          == Contents(consumed + ReadEntries(data, pos).entries, ReadEntries(data, pos).stop))
  }

  /**
   * An opened recording file: its bytes and the read offset. Every entry
   * read so far is remembered, so that what has been read followed by what
   * is left is always the file's whole content.
   */
  class RecordingReader {
    const data: seq<byte>
    var pos: nat
    /** Entries read after the header. */
    ghost var consumed: seq<Entry>

    ghost predicate Valid()
      reads this
    {
      ReaderAt(data, pos, consumed)
    }

    /** os.Open: the offset starts at 0. */
    constructor (data: seq<byte>)
      ensures Valid() && this.data == data && pos == 0 && consumed == []
    {
      this.data := data;
      pos := 0;
      consumed := [];
    }

    /** readFileHeader: on success the offset is just after the header. */
    method ReadHeader() returns (err: Option<ReadError>)
      requires Valid() && pos == 0
      modifies this
      ensures Valid() && consumed == []
      ensures err.None? <==> ReadFileHeader(data).Success?
      ensures err.Some? ==> err.value == ReadFileHeader(data).error && pos == 0
      ensures err.None? ==> pos == FileHeaderSize
    {
      var h := ReadFileHeader(data);
      if h.Failure? {
        return Some(h.error);
      }
      pos := h.value;
      err := None;
    }

    /** readPacket: one entry, or the read error; the offset moves past a complete entry only. */
    method Next() returns (r: Result<Entry, ReadError>)
      requires Valid() && pos >= FileHeaderSize
      modifies this
      ensures Valid() && pos >= FileHeaderSize
      ensures ReadPacket(data, old(pos)).Failure? ==>
        && r == Failure(ReadPacket(data, old(pos)).error)
        && pos == old(pos) && consumed == old(consumed)
        && ReadEntries(data, FileHeaderSize) == Contents(consumed, r.error)
      ensures ReadPacket(data, old(pos)).Success? ==>
        && r == Success(ReadPacket(data, old(pos)).value.entry)
        && pos == ReadPacket(data, old(pos)).value.next
        && consumed == old(consumed) + [r.value]
    {
      var rd := ReadPacket(data, pos);
      if rd.Failure? {
        assert ReadEntries(data, pos) == Contents([], rd.error);
        assert consumed + [] == consumed;
        return Failure(rd.error);
      }
      ReadOneMore(data, pos, consumed);
      pos := rd.value.next;
      consumed := consumed + [rd.value.entry];
      r := Success(rd.value.entry);
    }
  }

  /** Queue capacity of the packets channel. */
  const QueueCapacity: nat := 100

  /** Go's zero time.Time is represented by 0. */
  datatype PlayerStats = PlayerStats(
    packetsPlayed: uint64,
    bytesSent: uint64,
    startTime: int64,
    currentTime: int64,
    recordingTime: int64)

  datatype PlayerError =
    | AlreadyRunning
    | OpenFailed
    | InvalidRecording(cause: ReadError)
    | DialFailed

  /** What one iteration of the playback loop did. */
  datatype StepOutcome =
    | Exited                       // the stop signal was seen; the loop returns
    | Waiting                      // paused: nothing is read
    | Finished(cause: ReadError)   // a read failed; playback stops itself
    | Played(gap: Option<int64>)   // an entry was played; gap is the recorded time since the previous one

  function PayloadTotal(es: seq<Entry>): nat
  {
    if es == [] then 0 else PayloadTotal(es[..|es| - 1]) + |es[|es| - 1].payload|
  }

  lemma PayloadTotalSnoc(es: seq<Entry>, e: Entry)
    ensures PayloadTotal(es + [e]) == PayloadTotal(es) + |e.payload|
  {
    assert (es + [e])[..|es|] == es;
  }

  /** The packet put on the queue for an entry: only when its header decodes and there is room. */
  function Forwarded(e: Entry, queued: nat): (fs: seq<RecordedPacket>)
    ensures |fs| <= 1
    ensures fs != [] <==> |e.payload| >= HeaderSize && queued < QueueCapacity
    ensures fs != [] ==>
      && fs[0].data == e.payload && fs[0].timestamp == e.timestamp
      && fs[0].header == ParseHeader(e.payload).value
  {
    var header := ParseHeader(e.payload);
    if header.Success? && queued < QueueCapacity then [RecordedPacket(e.timestamp, e.payload, header.value)] else []
  }

  /** The counters count the played entries and their payload bytes, modulo 2^64. */
  ghost predicate PlayCountersCover(stats: PlayerStats, played: seq<Entry>)
  {
    && stats.packetsPlayed == |played| % U64Modulus
    && stats.bytesSent == PayloadTotal(played) % U64Modulus
  }

  /** The counters of a played sequence, advanced by one more entry with wrapping uint64 adds. */
  lemma CountersAdvance(stats: PlayerStats, played: seq<Entry>, e: Entry)
    requires PlayCountersCover(stats, played)
    ensures AddU64(stats.packetsPlayed, 1) == |played + [e]| % U64Modulus
    ensures AddU64(stats.bytesSent, |e.payload|) == PayloadTotal(played + [e]) % U64Modulus
  {
    PayloadTotalSnoc(played, e);
    AddU64Carries(0, |played|, 1);
    AddU64Carries(0, PayloadTotal(played), |e.payload|);
  }

  /** Whatever a reader of a recorder-written file has consumed is a prefix of the recorded entries. */
  lemma ConsumedIsPrefix(created: int64, es: seq<Entry>, consumed: seq<Entry>, rest: Contents)
    requires PayloadsFit(es)
    requires ReadEntries(RecordingFile(created, es), FileHeaderSize) == Contents(consumed + rest.entries, rest.stop)
    ensures |consumed| <= |es| && consumed == es[..|consumed|]
  {
    RecordingRoundTrip(created, es);
    assert es == consumed + rest.entries;
    assert es[..|consumed|] == consumed;
  }

  class Player {
    var speed: real
    var running: bool
    var paused: bool
    /** stopChan has been closed. It is made once, in NewPlayer, and never again. */
    var stopClosed: bool
    /** A playback goroutine has been started and has not returned. */
    var loopActive: bool
    /** The recording last opened, and whether it is still open. */
    var file: RecordingReader?
    var fileOpen: bool
    /** The previous entry's timestamp in the current playback loop; 0 before the first. */
    var lastTimestamp: int64
    var stats: PlayerStats
    /** The packets channel: decoded packets not yet taken by the consumer. */
    var packets: seq<RecordedPacket>
    /** The packets channel has been closed; like stopChan it is made only once. */
    var packetsClosed: bool
    /** Datagrams sent over the UDP connection. */
    var sent: seq<seq<byte>>
    /** Entries played since the last successful Start. */
    ghost var played: seq<Entry>

    ghost predicate Valid()
      reads this, file
    {
      ValidAhead([])
    }

    /** The invariant, with the reader some entries ahead of what has been played. */
    ghost predicate ValidAhead(ahead: seq<Entry>)
      reads this, file
    {
      && |packets| <= QueueCapacity
      && (loopActive && !stopClosed ==> running)
      && (running ==> fileOpen)
      && (fileOpen ==> file != null && file.Valid() && file.pos >= FileHeaderSize && file.consumed == played + ahead)
      && PlayCountersCover(stats, played)
    }

    /** NewPlayer: nothing is opened until Start. */
    constructor (speed: real)
      ensures Valid()
      ensures this.speed == speed
      ensures !running && !paused && !stopClosed && !loopActive && !fileOpen && !packetsClosed
      ensures packets == [] && sent == [] && stats == PlayerStats(0, 0, 0, 0, 0)
    {
      this.speed := speed;
      running, paused, stopClosed, loopActive, packetsClosed := false, false, false, false, false;
      file, fileOpen, lastTimestamp := null, false, 0;
      stats := PlayerStats(0, 0, 0, 0, 0);
      packets, sent, played := [], [], [];
    }

    /**
     * Opens the recording (None when it cannot be opened), checks its
     * header, dials the target and starts the playback loop with fresh
     * statistics.
     */
    method Start(contents: Option<seq<byte>>, dialOk: bool, now: int64) returns (err: Option<PlayerError>)
      requires Valid()
      modifies this
      ensures Valid()
      ensures old(running) ==> err == Some(PlayerError.AlreadyRunning) && unchanged(this)
      ensures !old(running) && contents.None? ==> err == Some(OpenFailed) && unchanged(this)
      ensures !old(running) && contents.Some? && ReadFileHeader(contents.value).Failure? ==>
        && err == Some(InvalidRecording(ReadFileHeader(contents.value).error))
        && !running && !fileOpen && fresh(file) && file.data == contents.value
        && stats == old(stats) && packets == old(packets) && sent == old(sent)
        && paused == old(paused) && speed == old(speed) && lastTimestamp == old(lastTimestamp) && played == old(played)
        && stopClosed == old(stopClosed) && packetsClosed == old(packetsClosed) && loopActive == old(loopActive)
      ensures !old(running) && contents.Some? && ReadFileHeader(contents.value).Success? && !dialOk ==>
        && err == Some(DialFailed)
        && !running && !fileOpen && fresh(file) && file.data == contents.value
        && stats == old(stats) && packets == old(packets) && sent == old(sent)
        && paused == old(paused) && speed == old(speed) && lastTimestamp == old(lastTimestamp) && played == old(played)
        && stopClosed == old(stopClosed) && packetsClosed == old(packetsClosed) && loopActive == old(loopActive)
      ensures !old(running) && contents.Some? && ReadFileHeader(contents.value).Success? && dialOk ==>
        && err == None
        && running && !paused && loopActive && fileOpen
        && fresh(file) && file.data == contents.value && file.pos == FileHeaderSize
        && lastTimestamp == 0 && stats == PlayerStats(0, 0, now, 0, 0) && played == []
        && stopClosed == old(stopClosed) && packetsClosed == old(packetsClosed) && speed == old(speed)
        && packets == old(packets) && sent == old(sent)
    {
      if running {
        return Some(PlayerError.AlreadyRunning);
      }
      if contents.None? {
        return Some(OpenFailed);
      }
      var f := new RecordingReader(contents.value);
      err := Launch(f, dialOk, now);
    }

    /** Start once the file is open: check the header, dial, reset the statistics. */
    method Launch(f: RecordingReader, dialOk: bool, now: int64) returns (err: Option<PlayerError>)
      requires Valid() && !running && f.Valid() && f.pos == 0 && f.consumed == []
      modifies this, f
      ensures Valid() && file == f
      ensures ReadFileHeader(f.data).Failure? ==>
        && err == Some(InvalidRecording(ReadFileHeader(f.data).error))
        && !running && !fileOpen
        && stats == old(stats) && packets == old(packets) && sent == old(sent)
        && paused == old(paused) && speed == old(speed) && lastTimestamp == old(lastTimestamp) && played == old(played)
        && stopClosed == old(stopClosed) && packetsClosed == old(packetsClosed) && loopActive == old(loopActive)
      ensures ReadFileHeader(f.data).Success? && !dialOk ==>
        && err == Some(DialFailed)
        && !running && !fileOpen
        && stats == old(stats) && packets == old(packets) && sent == old(sent)
        && paused == old(paused) && speed == old(speed) && lastTimestamp == old(lastTimestamp) && played == old(played)
        && stopClosed == old(stopClosed) && packetsClosed == old(packetsClosed) && loopActive == old(loopActive)
      ensures ReadFileHeader(f.data).Success? && dialOk ==>
        && err == None
        && running && !paused && loopActive && fileOpen && f.pos == FileHeaderSize
        && lastTimestamp == 0 && stats == PlayerStats(0, 0, now, 0, 0) && played == []
        && stopClosed == old(stopClosed) && packetsClosed == old(packetsClosed) && speed == old(speed)
        && packets == old(packets) && sent == old(sent)
    {
      var headerErr := f.ReadHeader();
      file, fileOpen := f, false;
      if headerErr.Some? {
        return Some(InvalidRecording(headerErr.value));
      }
      err := Begin(dialOk, now);
    }

    /** The header is valid: dial the target and start the loop with fresh statistics. */
    method Begin(dialOk: bool, now: int64) returns (err: Option<PlayerError>)
      requires Valid() && !running && !fileOpen
      requires file != null && file.Valid() && file.pos == FileHeaderSize && file.consumed == []
      modifies this
      ensures Valid() && file == old(file)
      ensures !dialOk ==> err == Some(DialFailed) && unchanged(this)
      ensures dialOk ==>
        && err == None
        && running && !paused && loopActive && fileOpen
        && lastTimestamp == 0 && stats == PlayerStats(0, 0, now, 0, 0) && played == []
        && stopClosed == old(stopClosed) && packetsClosed == old(packetsClosed) && speed == old(speed)
        && packets == old(packets) && sent == old(sent)
    {
      if !dialOk {
        return Some(DialFailed);
      }
      fileOpen := true;
      running, paused := true, false;
      stats := PlayerStats(0, 0, now, 0, 0);
      played := [];
      lastTimestamp, loopActive := 0, true;
      err := None;
    }

    /**
     * Signals the loop to stop, closes the connection and the file, and closes
     * the packets channel. A no-op when not running. Closing the stop channel
     * a second time (a Stop after a restart) is a run-time panic.
     */
    method Stop() returns (panicked: bool)
      requires Valid()
      modifies this
      ensures Valid()
      ensures !old(running) ==> !panicked && unchanged(this)
      ensures old(running) && old(stopClosed) ==> panicked && unchanged(this)
      ensures old(running) && !old(stopClosed) ==>
        && !panicked && !running && stopClosed && !fileOpen && packetsClosed
        && file == old(file) && played == old(played)
        && stats == old(stats) && packets == old(packets) && sent == old(sent)
        && paused == old(paused) && loopActive == old(loopActive) && speed == old(speed)
        && lastTimestamp == old(lastTimestamp)
    {
      if !running {
        return false;
      }
      if stopClosed {
        return true;
      }
      stopClosed, running := true, false;
      fileOpen, packetsClosed := false, true;
      panicked := false;
    }

    method Pause()
      requires Valid()
      modifies this
      ensures Valid() && paused
      ensures running == old(running) && stats == old(stats) && file == old(file) && fileOpen == old(fileOpen)
      ensures speed == old(speed) && packets == old(packets) && sent == old(sent) && played == old(played)
      ensures lastTimestamp == old(lastTimestamp) && stopClosed == old(stopClosed)
      ensures loopActive == old(loopActive) && packetsClosed == old(packetsClosed)
    {
      paused := true;
    }

    method Resume()
      requires Valid()
      modifies this
      ensures Valid() && !paused
      ensures running == old(running) && stats == old(stats) && file == old(file) && fileOpen == old(fileOpen)
      ensures speed == old(speed) && packets == old(packets) && sent == old(sent) && played == old(played)
      ensures lastTimestamp == old(lastTimestamp) && stopClosed == old(stopClosed)
      ensures loopActive == old(loopActive) && packetsClosed == old(packetsClosed)
    {
      paused := false;
    }

    method IsPaused() returns (r: bool)
      ensures r == paused
    {
      r := paused;
    }

    method IsRunning() returns (r: bool)
      ensures r == running
    {
      r := running;
    }

    method Stats() returns (s: PlayerStats)
      ensures s == stats
    {
      s := stats;
    }

    /** A new speed is taken only when it is positive. */
    method SetSpeed(newSpeed: real)
      requires Valid()
      modifies this
      ensures Valid()
      ensures newSpeed > 0.0 ==> speed == newSpeed
      ensures newSpeed <= 0.0 ==> speed == old(speed)
      ensures running == old(running) && paused == old(paused) && stats == old(stats)
      ensures file == old(file) && fileOpen == old(fileOpen) && packets == old(packets)
      ensures sent == old(sent) && played == old(played) && lastTimestamp == old(lastTimestamp)
      ensures stopClosed == old(stopClosed) && loopActive == old(loopActive) && packetsClosed == old(packetsClosed)
    {
      if newSpeed > 0.0 {
        speed := newSpeed;
      }
    }

    /** The consumer's receive on the packets channel: the oldest queued packet. */
    method TakePacket() returns (p: Option<RecordedPacket>)
      requires Valid()
      modifies this
      ensures Valid()
      ensures old(packets) == [] ==> p.None? && packets == []
      ensures old(packets) != [] ==> p == Some(old(packets)[0]) && packets == old(packets)[1..]
      ensures running == old(running) && stats == old(stats) && file == old(file) && fileOpen == old(fileOpen)
      ensures paused == old(paused) && speed == old(speed) && sent == old(sent) && played == old(played)
      ensures lastTimestamp == old(lastTimestamp) && stopClosed == old(stopClosed)
      ensures loopActive == old(loopActive) && packetsClosed == old(packetsClosed)
    {
      if packets == [] {
        return None;
      }
      p := Some(packets[0]);
      packets := packets[1..];
    }

    /**
     * One iteration of the playback loop. sendOk says whether the UDP write
     * succeeded; now is the clock reading for CurrentTime.
     */
    method Step(sendOk: bool, now: int64) returns (outcome: StepOutcome)
      requires Valid() && loopActive
      modifies this, file
      ensures Valid()
      ensures old(stopClosed) ==>
        && outcome == Exited && !loopActive
        && running == old(running) && stats == old(stats) && paused == old(paused) && speed == old(speed)
        && file == old(file) && fileOpen == old(fileOpen) && (file != null ==> unchanged(file))
        && packets == old(packets) && sent == old(sent) && played == old(played)
        && lastTimestamp == old(lastTimestamp) && stopClosed == old(stopClosed) && packetsClosed == old(packetsClosed)
      ensures !old(stopClosed) && old(paused) ==> outcome == Waiting && unchanged(this) && unchanged(file)
      ensures !old(stopClosed) && !old(paused) ==>
        file == old(file) && file.data == old(file.data) && paused == old(paused) && speed == old(speed)
      ensures !old(stopClosed) && !old(paused) && ReadPacket(old(file.data), old(file.pos)).Failure? ==>
        && outcome == Finished(ReadPacket(old(file.data), old(file.pos)).error)
        && !running && stopClosed && !fileOpen && !loopActive && packetsClosed
        && ReadEntries(file.data, FileHeaderSize) == Contents(played, outcome.cause)
        && stats == old(stats) && packets == old(packets) && sent == old(sent)
        && played == old(played) && lastTimestamp == old(lastTimestamp)
      ensures !old(stopClosed) && !old(paused) && ReadPacket(old(file.data), old(file.pos)).Success? ==>
        var e := ReadPacket(old(file.data), old(file.pos)).value.entry;
        && outcome == Played(if old(lastTimestamp) == 0 then None else Some(SubI64(e.timestamp, old(lastTimestamp))))
        && running && loopActive && fileOpen && !stopClosed && packetsClosed == old(packetsClosed)
        && file.pos == ReadPacket(old(file.data), old(file.pos)).value.next
        && played == old(played) + [e]
        && sent == old(sent) + (if sendOk then [e.payload] else [])
        && packets == old(packets) + Forwarded(e, |old(packets)|)
        && lastTimestamp == e.timestamp
        && stats == old(stats).(packetsPlayed := AddU64(old(stats.packetsPlayed), 1),
                                bytesSent := AddU64(old(stats.bytesSent), |e.payload|),
                                currentTime := now, recordingTime := e.timestamp)
    {
      if stopClosed {
        loopActive := false;
        return Exited;
      }
      if paused {
        return Waiting;
      }
      var r := file.Next();
      if r.Failure? {
        var _ := Stop();
        loopActive := false;
        return Finished(r.error);
      }
      var gap := PlayEntry(r.value, sendOk, now);
      outcome := Played(gap);
    }

    /** One entry played: sent, offered to the queue, remembered and counted. */
    method PlayEntry(e: Entry, sendOk: bool, now: int64) returns (gap: Option<int64>)
      requires ValidAhead([e]) && loopActive && !stopClosed
      modifies this
      ensures Valid()
      ensures gap == if old(lastTimestamp) == 0 then None else Some(SubI64(e.timestamp, old(lastTimestamp)))
      ensures running && loopActive && file == old(file) && played == old(played) + [e]
      ensures sent == old(sent) + (if sendOk then [e.payload] else [])
      ensures packets == old(packets) + Forwarded(e, |old(packets)|)
      ensures lastTimestamp == e.timestamp
      ensures stats == old(stats).(packetsPlayed := AddU64(old(stats.packetsPlayed), 1),
                                   bytesSent := AddU64(old(stats.bytesSent), |e.payload|),
                                   currentTime := now, recordingTime := e.timestamp)
      ensures fileOpen && paused == old(paused) && speed == old(speed)
      ensures stopClosed == old(stopClosed) && packetsClosed == old(packetsClosed)
    {
      gap := if lastTimestamp == 0 then None else Some(SubI64(e.timestamp, lastTimestamp));
      Count(e, now);
      Deliver(e, sendOk);
    }

    /** The entry's payload goes out over UDP and, decoded, onto the packets channel. */
    method Deliver(e: Entry, sendOk: bool)
      requires Valid()
      modifies this
      ensures Valid()
      ensures sent == old(sent) + (if sendOk then [e.payload] else [])
      ensures packets == old(packets) + Forwarded(e, |old(packets)|)
      ensures lastTimestamp == e.timestamp
      ensures stats == old(stats) && played == old(played) && file == old(file) && fileOpen == old(fileOpen)
      ensures running == old(running) && paused == old(paused) && speed == old(speed)
      ensures stopClosed == old(stopClosed) && loopActive == old(loopActive) && packetsClosed == old(packetsClosed)
    {
      sent := sent + (if sendOk then [e.payload] else []);
      packets := packets + Forwarded(e, |packets|);
      lastTimestamp := e.timestamp;
    }

    /** The statistics after an entry was played. */
    method Count(e: Entry, now: int64)
      requires ValidAhead([e]) && fileOpen
      modifies this
      ensures Valid()
      ensures played == old(played) + [e]
      ensures stats == old(stats).(packetsPlayed := AddU64(old(stats.packetsPlayed), 1),
                                   bytesSent := AddU64(old(stats.bytesSent), |e.payload|),
                                   currentTime := now, recordingTime := e.timestamp)
      ensures file == old(file) && fileOpen && running == old(running) && paused == old(paused)
      ensures stopClosed == old(stopClosed) && loopActive == old(loopActive)
      ensures packets == old(packets) && sent == old(sent) && lastTimestamp == old(lastTimestamp)
      ensures speed == old(speed) && packetsClosed == old(packetsClosed)
    {
      CountersAdvance(stats, played, e);
      played := played + [e];
      stats := stats.(packetsPlayed := AddU64(stats.packetsPlayed, 1),
                      bytesSent := AddU64(stats.bytesSent, |e.payload|),
                      currentTime := now, recordingTime := e.timestamp);
    }

    /**
     * While a recording the recorder wrote is being played, the entries
     * played so far are the first entries recorded, in order.
     */
    lemma PlaysRecordingInOrder(created: int64, es: seq<Entry>)
      requires Valid() && fileOpen && file.data == RecordingFile(created, es) && PayloadsFit(es)
      ensures |played| <= |es| && played == es[..|played|]
    {
      assert played + [] == played;
      assert file.pos >= FileHeaderSize && ReaderAt(file.data, file.pos, played);
      ConsumedIsPrefix(created, es, played, ReadEntries(file.data, file.pos));
    }
  }
}
