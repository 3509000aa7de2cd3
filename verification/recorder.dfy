/**
 * The recorder: it writes a .f1tr recording file, a 46-byte file header
 * followed by one entry per captured packet, and keeps running counters.
 *
 * The file is modelled as the byte sequence written to it so far. The
 * outcomes of the operating-system calls (creating the directory, creating
 * the file, writing the header) and the clock readings are parameters.
 */
module Recorder {
  import opened Bytes
  import opened Wrappers
  import opened Packet

  /** "F1TR" in ASCII. */
  const Magic: seq<byte> := [0x46, 0x31, 0x54, 0x52]
  const FormatVersion: uint16 := 1
  const ReservedSize: nat := 32
  /** Magic, version, creation time and the reserved block. */
  const FileHeaderSize: nat := 46
  /** Timestamp and size field in front of every payload. */
  const EntryOverhead: nat := 12

  /** One recorded packet: its receipt time in Unix nanoseconds and its bytes. */
  datatype Entry = Entry(timestamp: int64, payload: seq<byte>)

  datatype RecorderError =
    | MkdirFailed
    | AlreadyRunning
    | CreateFailed
    | HeaderWriteFailed
    | NotRunning
    | WriteFailed
    | CloseFailed

  /** What Stats reports. startTime is in Unix nanoseconds. */
  datatype RecorderStats = RecorderStats(
    packetsRecorded: uint64,
    bytesWritten: uint64,
    startTime: int64,
    sessionName: string)

  function Zeros(n: nat): (z: seq<byte>)
    ensures |z| == n && forall i :: 0 <= i < n ==> z[i] == 0
  {
    seq(n, _ => 0)
  }

  /** The bytes writeFileHeader puts at the start of the file. */
  function FileHeaderBytes(created: int64): (b: seq<byte>)
    ensures |b| == FileHeaderSize
  {
    Magic + EncodeU16(FormatVersion) + EncodeI64(created) + Zeros(ReservedSize)
  }

  /** The header holds the magic, the version, the creation time and zeros. */
  lemma FileHeaderFields(created: int64)
    ensures var b := FileHeaderBytes(created);
      && b[..4] == Magic
      && U16At(b, 4) == FormatVersion
      && I64At(b, 6) == created
      && forall i :: 14 <= i < FileHeaderSize ==> b[i] == 0
  {
    var v := EncodeU16(FormatVersion);
    var c := EncodeI64(created);
    var b := FileHeaderBytes(created);
    EncodeU16Decodes(FormatVersion);
    EncodeI64Decodes(created);
    assert b[4..6] == v && b[6..14] == c;
    assert U16At(b, 4) == U16At(v, 0);
    assert I64At(b, 6) == I64At(c, 0) by {
      assert b[6..14] == c[0..8];
    }
  }

  /** The size field holds uint32(len(data)), which wraps for payloads of 4 GiB and more. */
  function SizeField(n: nat): (v: uint32)
    ensures n < 0x1_0000_0000 ==> v == n
  {
    n % 0x1_0000_0000
  }

  /** The bytes RecordPacket appends for one packet. */
  function EntryBytes(e: Entry): (b: seq<byte>)
    ensures |b| == EntryOverhead + |e.payload|
  {
    EncodeI64(e.timestamp) + EncodeU32(SizeField(|e.payload|)) + e.payload
  }

  /** An entry holds the timestamp, the size field and the payload. */
  lemma EntryFields(e: Entry)
    ensures var b := EntryBytes(e);
      && I64At(b, 0) == e.timestamp
      && U32At(b, 8) == SizeField(|e.payload|)
      && b[EntryOverhead..] == e.payload
  {
    var t := EncodeI64(e.timestamp);
    var z := EncodeU32(SizeField(|e.payload|));
    EncodeI64Decodes(e.timestamp);
    EncodeU32Decodes(SizeField(|e.payload|));
    var b := EntryBytes(e);
    assert b[0..8] == t[0..8];
    assert b[8..12] == z[0..4];
  }

  /** The bytes already in a file followed by the entries, in the order they were recorded. */
  function AppendEntries(prefix: seq<byte>, es: seq<Entry>): seq<byte>
  {
    if es == [] then prefix else AppendEntries(prefix, es[..|es| - 1]) + EntryBytes(es[|es| - 1])
  }

  /** Payload bytes plus the per-entry overhead. */
  function EntriesSize(es: seq<Entry>): nat
  {
    if es == [] then 0 else EntriesSize(es[..|es| - 1]) + EntryOverhead + |es[|es| - 1].payload|
  }

  /** Counters carried over from an earlier run already lie in range, and no entries add nothing. */
  lemma CountersRestart(packets: uint64, bytes: uint64)
    ensures packets % U64Modulus == packets && bytes % U64Modulus == bytes
    ensures EntriesSize([]) == 0
  {
  }

  lemma {:induction false} AppendEntriesLength(prefix: seq<byte>, es: seq<Entry>)
    ensures |AppendEntries(prefix, es)| == |prefix| + EntriesSize(es)
  {
    if es != [] {
      AppendEntriesLength(prefix, es[..|es| - 1]);
    }
  }

  /** Recording one more packet appends its entry. */
  lemma AppendEntriesSnoc(prefix: seq<byte>, es: seq<Entry>, e: Entry)
    ensures AppendEntries(prefix, es + [e]) == AppendEntries(prefix, es) + EntryBytes(e)
    ensures EntriesSize(es + [e]) == EntriesSize(es) + EntryOverhead + |e.payload|
  {
    var es' := es + [e];
    assert es'[..|es'| - 1] == es;
  }

  /** Read from the front, the first entry follows the prefix directly. */
  lemma {:induction false} AppendEntriesFront(prefix: seq<byte>, es: seq<Entry>)
    requires es != []
    ensures AppendEntries(prefix, es) == AppendEntries(prefix + EntryBytes(es[0]), es[1..])
  {
    if |es| > 1 {
      var init := es[..|es| - 1];
      AppendEntriesFront(prefix, init);
      assert init[0] == es[0];
      assert init[1..] == es[1..][..|es[1..]| - 1];
      assert es[1..][|es[1..]| - 1] == es[|es| - 1];
    } else {
      assert es[..0] == [] && es[1..] == [];
    }
  }

  /** The entries' own bytes, without anything in front. */
  function EntriesBytes(es: seq<Entry>): seq<byte>
  {
    AppendEntries([], es)
  }

  /** What is appended does not depend on what is already there. */
  lemma {:induction false} AppendEntriesSplit(prefix: seq<byte>, es: seq<Entry>)
    ensures AppendEntries(prefix, es) == prefix + EntriesBytes(es)
  {
    if es != [] {
      var init := es[..|es| - 1];
      AppendEntriesSplit(prefix, init);
      var b := EntryBytes(es[|es| - 1]);
      assert AppendEntries(prefix, es) == AppendEntries(prefix, init) + b;
      assert EntriesBytes(es) == EntriesBytes(init) + b;
      assert (prefix + EntriesBytes(init)) + b == prefix + (EntriesBytes(init) + b);
    }
  }

  /** The entries' bytes, read from the front. */
  lemma EntriesBytesFront(es: seq<Entry>)
    requires es != []
    ensures EntriesBytes(es) == EntryBytes(es[0]) + EntriesBytes(es[1..])
  {
    AppendEntriesFront([], es);
    assert [] + EntryBytes(es[0]) == EntryBytes(es[0]);
    AppendEntriesSplit(EntryBytes(es[0]), es[1..]);
  }

  /** A complete recording file: the header and then the entries. */
  function RecordingFile(created: int64, es: seq<Entry>): (f: seq<byte>)
    ensures |f| == FileHeaderSize + EntriesSize(es)
  {
    AppendEntriesLength(FileHeaderBytes(created), es);
    AppendEntries(FileHeaderBytes(created), es)
  }

  /** filepath.Join of the directory and a name, without Join's path cleaning. */
  function JoinPath(dir: string, name: string): (path: string)
    ensures dir != "" ==> path == dir + "/" + name
    ensures dir == "" ==> path == name
    ensures |path| >= |name| && path[|path| - |name|..] == name
  {
    if dir == "" then name else dir + "/" + name
  }

  /** The file name: "<timestamp>_<sessionName>.f1tr" in the output directory. */
  function OutputPath(outputDir: string, stamp: string, sessionName: string): (path: string)
    ensures |path| >= 5 && path[|path| - 5..] == ".f1tr"
  {
    var name := stamp + "_" + sessionName + ".f1tr";
    var path := JoinPath(outputDir, name);
    assert path[|path| - 5..] == name[|name| - 5..];
    path
  }

  /** The file name can be split back into its parts. */
  lemma OutputPathParts(outputDir: string, stamp: string, sessionName: string)
    requires outputDir != ""
    ensures var path := OutputPath(outputDir, stamp, sessionName);
      var n := |outputDir| + 1 + |stamp|;
      |path| == n + 1 + |sessionName| + 5
      && path[..|outputDir|] == outputDir && path[|outputDir|] == '/'
      && path[|outputDir| + 1..n] == stamp && path[n] == '_'
      && path[n + 1..n + 1 + |sessionName|] == sessionName
      && path[n + 1 + |sessionName|..] == ".f1tr"
  {
    var path := OutputPath(outputDir, stamp, sessionName);
    var n := |outputDir| + 1 + |stamp|;
    assert path == outputDir + "/" + stamp + "_" + sessionName + ".f1tr";
    assert path[..|outputDir|] == outputDir;
    assert path[|outputDir| + 1..n] == stamp;
    assert path[n + 1..n + 1 + |sessionName|] == sessionName;
    assert path[n + 1 + |sessionName|..] == ".f1tr";
  }

  /** The file is a complete header followed by the entries. */
  ghost predicate FileHolds(header: seq<byte>, entries: seq<Entry>, file: seq<byte>)
  {
    |header| == FileHeaderSize && file == AppendEntries(header, entries)
  }

  /** The counters have grown by the entries of the current file since it was started, modulo 2^64. */
  ghost predicate CountersCover(stats: RecorderStats, carriedPackets: nat, carriedBytes: nat, entries: seq<Entry>)
  {
    && stats.packetsRecorded == (carriedPackets + |entries|) % U64Modulus
    && stats.bytesWritten == (carriedBytes + EntriesSize(entries)) % U64Modulus
  }

  class Recorder {
    const outputPath: string
    var running: bool
    /** A file has been created (the file handle is set). */
    var hasFile: bool
    /** The current file has not been closed. */
    var fileOpen: bool
    /** Bytes written to the current file. */
    var file: seq<byte>
    var stats: RecorderStats
    /** The header of the current file was written completely. */
    ghost var headerWritten: bool
    /** The header bytes of the current file. */
    ghost var header: seq<byte>
    /** Entries recorded into the current file. */
    ghost var entries: seq<Entry>
    /** Counter values when the current file was started; Start does not reset them. */
    ghost var carriedPackets: nat
    ghost var carriedBytes: nat

    ghost predicate Valid()
      reads this
    {
      && (fileOpen ==> hasFile)
      && (running && fileOpen ==> headerWritten)
      && (headerWritten ==> FileHolds(header, entries, file))
      && (!headerWritten ==> entries == [])
      && CountersCover(stats, carriedPackets, carriedBytes, entries)
    }

    /** NewRecorder after the output directory exists; the stamp is the formatted current time. */
    constructor (outputDir: string, sessionName: string, stamp: string)
      ensures Valid()
      ensures outputPath == OutputPath(outputDir, stamp, sessionName)
      ensures !running && !hasFile && !fileOpen && file == []
      ensures stats == RecorderStats(0, 0, 0, sessionName)
    {
      outputPath := OutputPath(outputDir, stamp, sessionName);
      running, hasFile, fileOpen, file := false, false, false, [];
      stats := RecorderStats(0, 0, 0, sessionName);
      headerWritten, header, entries := false, [], [];
      carriedPackets, carriedBytes := 0, 0;
    }

    /**
     * Opens a fresh file and writes the header. Fails when already running or
     * when the file cannot be created. A failed header write closes the file
     * but leaves the recorder running.
     */
    method Start(createOk: bool, startTime: int64, createdAt: int64, headerOk: bool)
      returns (err: Option<RecorderError>)
      requires Valid()
      modifies this
      ensures Valid()
      ensures old(running) ==> err == Some(AlreadyRunning) && unchanged(this)
      ensures !old(running) && !createOk ==> err == Some(CreateFailed) && unchanged(this)
      ensures !old(running) && createOk ==>
        && running && hasFile && entries == []
        && stats == old(stats).(startTime := startTime)
        && (headerOk ==> err == None && fileOpen && file == FileHeaderBytes(createdAt) && header == file)
        && (!headerOk ==> err == Some(HeaderWriteFailed) && !fileOpen && file == [])
    {
      if running {
        return Some(AlreadyRunning);
      }
      if !createOk {
        return Some(CreateFailed);
      }
      err := Open(startTime, createdAt, headerOk);
    }

    /** The part of Start after the file was created: a fresh file, running, the start time, the header. */
    method Open(startTime: int64, createdAt: int64, headerOk: bool) returns (err: Option<RecorderError>)
      requires Valid() && !running
      modifies this
      ensures Valid() && running && hasFile && entries == []
      ensures stats == old(stats).(startTime := startTime)
      ensures headerOk ==> err == None && fileOpen && file == FileHeaderBytes(createdAt) && header == file
      ensures !headerOk ==> err == Some(HeaderWriteFailed) && !fileOpen && file == []
    {
      Restart(startTime);
      if !headerOk {
        return Some(HeaderWriteFailed);
      }
      fileOpen, file := true, FileHeaderBytes(createdAt);
      header, headerWritten := file, true;
      assert file == AppendEntries(header, entries);
      err := None;
    }

    /** A new, still empty file: running, the start time set, the counters carried over. */
    method Restart(startTime: int64)
      requires Valid() && !running
      modifies this
      ensures Valid() && running && hasFile && entries == []
      ensures !fileOpen && file == [] && !headerWritten
      ensures stats == old(stats).(startTime := startTime)
    {
      hasFile, running := true, true;
      stats := stats.(startTime := startTime);
      carriedPackets, carriedBytes := stats.packetsRecorded, stats.bytesWritten;
      entries := [];
      CountersRestart(carriedPackets, carriedBytes);
      fileOpen, file, headerWritten := false, [], false;
    }

    /**
     * Stops recording and closes the file; a no-op when not running. closeOk
     * says whether closing an open file succeeds; closing a file a failed
     * header write already closed always fails.
     */
    method Stop(closeOk: bool) returns (err: Option<RecorderError>)
      requires Valid()
      modifies this
      ensures Valid()
      ensures !old(running) ==> err == None && unchanged(this)
      ensures old(running) ==>
        && !running && !fileOpen
        && file == old(file) && entries == old(entries) && header == old(header)
        && stats == old(stats) && hasFile == old(hasFile)
        && err == (if old(hasFile) && (!old(fileOpen) || !closeOk) then Some(CloseFailed) else None)
    {
      if !running {
        return None;
      }
      running := false;
      if hasFile {
        if !fileOpen {
          return Some(CloseFailed);
        }
        fileOpen := false;
        if !closeOk {
          return Some(CloseFailed);
        }
      }
      err := None;
    }

    /**
     * Appends one entry: the timestamp, the 32-bit size and the payload.
     * Fails when not running, or when the file was already closed.
     */
    method RecordPacket(packet: RecordedPacket) returns (err: Option<RecorderError>)
      requires Valid()
      modifies this
      ensures Valid()
      ensures !old(running) ==> err == Some(NotRunning) && unchanged(this)
      ensures old(running) && !old(fileOpen) ==> err == Some(WriteFailed) && unchanged(this)
      ensures old(running) && old(fileOpen) ==>
        && err == None && running && fileOpen
        && file == old(file) + EntryBytes(Entry(packet.timestamp, packet.data))
        && entries == old(entries) + [Entry(packet.timestamp, packet.data)]
        && stats == old(stats).(packetsRecorded := AddU64(old(stats.packetsRecorded), 1),
                                bytesWritten := AddU64(old(stats.bytesWritten), |packet.data| + EntryOverhead))
    {
      if !running {
        return Some(NotRunning);
      }
      if !fileOpen {
        return Some(WriteFailed);
      }
      Append(Entry(packet.timestamp, packet.data));
      err := None;
    }

    /** The successful part of RecordPacket: one entry is written and counted. */
    method Append(e: Entry)
      requires Valid() && running && fileOpen
      modifies this
      ensures Valid() && running && fileOpen && hasFile == old(hasFile) && header == old(header)
      ensures file == old(file) + EntryBytes(e) && entries == old(entries) + [e]
      ensures stats == old(stats).(packetsRecorded := AddU64(old(stats.packetsRecorded), 1),
                                   bytesWritten := AddU64(old(stats.bytesWritten), |e.payload| + EntryOverhead))
    {
      AppendEntriesSnoc(header, entries, e);
      AddU64Carries(carriedPackets, |entries|, 1);
      AddU64Carries(carriedBytes, EntriesSize(entries), |e.payload| + EntryOverhead);
      file := file + EntryBytes(e);
      entries := entries + [e];
      stats := stats.(packetsRecorded := AddU64(stats.packetsRecorded, 1),
                      bytesWritten := AddU64(stats.bytesWritten, |e.payload| + EntryOverhead));
    }

    method Stats() returns (s: RecorderStats)
      ensures s == stats
    {
      s := stats;
    }

    method IsRunning() returns (r: bool)
      ensures r == running
    {
      r := running;
    }

    /**
     * While a file is being recorded, its bytes are the header followed by
     * the recorded entries, and the bytes-written counter has grown by
     * exactly the bytes after the header.
     */
    lemma FileMatchesCounters()
      requires Valid() && running && fileOpen
      ensures file == AppendEntries(header, entries)
      ensures stats.bytesWritten == (carriedBytes + |file| - FileHeaderSize) % U64Modulus
      ensures stats.packetsRecorded == (carriedPackets + |entries|) % U64Modulus
    {
      AppendEntriesLength(header, entries);
    }
  }

  /** NewRecorder: fails when the output directory cannot be created. */
  method NewRecorder(outputDir: string, sessionName: string, stamp: string, mkdirOk: bool)
    returns (r: Result<Recorder, RecorderError>)
    ensures r.Failure? <==> !mkdirOk
    ensures r.Failure? ==> r.error == MkdirFailed
    ensures r.Success? ==>
      && fresh(r.value) && r.value.Valid() && !r.value.running
      && r.value.outputPath == OutputPath(outputDir, stamp, sessionName)
      && r.value.stats == RecorderStats(0, 0, 0, sessionName)
  {
    if !mkdirOk {
      return Failure(MkdirFailed);
    }
    var rec := new Recorder(outputDir, sessionName, stamp);
    return Success(rec);
  }
}
