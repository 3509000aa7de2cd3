/**
 * The common 29-byte header of every telemetry datagram, and the record a
 * receiver or player hands on for each packet.
 */
module Packet {
  import opened Bytes
  import opened Wrappers

  /** Minimum length of a datagram, and the size of the common header. */
  const HeaderSize: nat := 29

  /** The packet-ID codes the rest of the system acts on. */
  const SessionPacketId: byte := 1
  const ParticipantsPacketId: byte := 4
  const CarTelemetryPacketId: byte := 6
  const CarStatusPacketId: byte := 7

  datatype PacketError = ErrInvalidPacket

  /**
   * The decoded header. sessionTime is a float32 in the game's format; it is
   * kept as its raw IEEE-754 bit pattern.
   */
  datatype PacketHeader = PacketHeader(
    packetFormat: uint16,
    gameYear: byte,
    gameMajorVersion: byte,
    gameMinorVersion: byte,
    packetVersion: byte,
    packetId: byte,
    sessionUid: uint64,
    sessionTime: uint32,
    frameIdentifier: uint32,
    overallFrameIdentifier: uint32,
    playerCarIndex: byte,
    secondaryPlayerCarIndex: byte)

  /** A captured datagram: receipt time in Unix nanoseconds, the raw bytes, the decoded header. */
  datatype RecordedPacket = RecordedPacket(timestamp: int64, data: seq<byte>, header: PacketHeader)

  /** The wire image of a header: the layout the game writes and ParseHeader reads. */
  function EncodeHeader(h: PacketHeader): (s: seq<byte>)
    ensures |s| == HeaderSize
  {
    EncodeU16(h.packetFormat)
    + [h.gameYear, h.gameMajorVersion, h.gameMinorVersion, h.packetVersion, h.packetId]
    + EncodeU64(h.sessionUid)
    + EncodeU32(h.sessionTime)
    + EncodeU32(h.frameIdentifier)
    + EncodeU32(h.overallFrameIdentifier)
    + [h.playerCarIndex, h.secondaryPlayerCarIndex]
  }

  /** The raw bits of a little-endian float32; the value itself is not interpreted. */
  function Float32FromBytes(b: seq<byte>): (bits: uint32)
    requires |b| >= 4
    ensures EncodeU32(bits) == b[..4]
  {
    U32AtEncodes(b, 0);
    U32At(b, 0)
  }

  /** Decodes the header from the first 29 bytes; shorter input is rejected. */
  function ParseHeader(data: seq<byte>): (r: Result<PacketHeader, PacketError>)
    ensures r.Failure? <==> |data| < HeaderSize
    ensures r.Failure? ==> r.error == ErrInvalidPacket
  {
    if |data| < HeaderSize then Failure(ErrInvalidPacket)
    else
      Success(PacketHeader(
        U16At(data, 0),
        data[2], data[3], data[4], data[5], data[6],
        U64At(data, 7),
        Float32FromBytes(data[15..19]),
        U32At(data, 19),
        U32At(data, 23),
        data[27], data[28]))
  }

  /** On success, re-encoding the header reproduces exactly the 29 bytes it was read from. */
  lemma ParseHeaderEncodes(data: seq<byte>)
    requires |data| >= HeaderSize
    ensures EncodeHeader(ParseHeader(data).value) == data[..HeaderSize]
  {
    var h := ParseHeader(data).value;
    assert EncodeU16(h.packetFormat) == data[0..2] by {
      Pow256Widths();
      UintAtEncodes(data, 0, 2);
    }
    assert [h.gameYear, h.gameMajorVersion, h.gameMinorVersion, h.packetVersion, h.packetId] == data[2..7];
    assert EncodeU64(h.sessionUid) == data[7..15] by {
      U64AtEncodes(data, 7);
    }
    assert EncodeU32(h.sessionTime) == data[15..19] by {
      assert data[15..19][..4] == data[15..19];
    }
    assert EncodeU32(h.frameIdentifier) == data[19..23] by {
      U32AtEncodes(data, 19);
    }
    assert EncodeU32(h.overallFrameIdentifier) == data[23..27] by {
      U32AtEncodes(data, 23);
    }
    assert [h.playerCarIndex, h.secondaryPlayerCarIndex] == data[27..29];
    HeaderSlices(data);
  }

  /** The first 29 bytes cut at the field boundaries of the header. */
  lemma HeaderSlices(d: seq<byte>)
    requires |d| >= HeaderSize
    ensures d[..HeaderSize] == d[0..2] + d[2..7] + d[7..15] + d[15..19] + d[19..23] + d[23..27] + d[27..29]
  {
  }

  /** Decoding the wire image of a header gives the header back, whatever follows it. */
  lemma HeaderRoundTrip(h: PacketHeader, rest: seq<byte>)
    ensures ParseHeader(EncodeHeader(h) + rest) == Success(h)
  {
    Pow256Widths();
    var d := EncodeHeader(h) + rest;
    assert d[0..2] == ToLittleEndian(h.packetFormat, 2);
    assert d[7..15] == ToLittleEndian(h.sessionUid, 8);
    assert d[15..19][0..4] == ToLittleEndian(h.sessionTime, 4);
    assert d[19..23] == ToLittleEndian(h.frameIdentifier, 4);
    assert d[23..27] == ToLittleEndian(h.overallFrameIdentifier, 4);
  }

  /** Only the first 29 bytes matter: trailing bytes never change the decoded header. */
  lemma HeaderIgnoresTrailing(d1: seq<byte>, d2: seq<byte>)
    requires |d1| >= HeaderSize && |d2| >= HeaderSize
    requires d1[..HeaderSize] == d2[..HeaderSize]
    ensures ParseHeader(d1) == ParseHeader(d2)
  {
    var h1, h2 := ParseHeader(d1).value, ParseHeader(d2).value;
    ParseHeaderEncodes(d1);
    ParseHeaderEncodes(d2);
    HeaderRoundTrip(h1, []);
    HeaderRoundTrip(h2, []);
    assert EncodeHeader(h1) + [] == EncodeHeader(h2) + [];
  }

  /** Field offsets of the header, written out byte by byte. */
  lemma HeaderFields(data: seq<byte>)
    requires |data| >= HeaderSize
    ensures var h := ParseHeader(data).value;
      && h.packetFormat == data[0] as int + 0x100 * data[1] as int
      && h.gameYear == data[2] && h.gameMajorVersion == data[3]
      && h.gameMinorVersion == data[4] && h.packetVersion == data[5]
      && h.packetId == data[6]
      && h.sessionUid == LittleEndian(data[7..15])
      && h.sessionTime == LittleEndian(data[15..19])
      && h.frameIdentifier == LittleEndian(data[19..23])
      && h.overallFrameIdentifier == LittleEndian(data[23..27])
      && h.playerCarIndex == data[27] && h.secondaryPlayerCarIndex == data[28]
  {
    assert data[15..19][0..4] == data[15..19];
  }

  /** Human-readable name of a packet ID; IDs without a name give "Unknown". */
  function GetPacketTypeName(packetId: byte): (name: string)
    ensures name == "Unknown" <==> packetId > 13
  {
    var names := map[
      0 := "Motion", 1 := "Session", 2 := "Lap Data", 3 := "Event",
      4 := "Participants", 5 := "Car Setups", 6 := "Car Telemetry",
      7 := "Car Status", 8 := "Final Classification", 9 := "Lobby Info",
      10 := "Car Damage", 11 := "Session History", 12 := "Tyre Sets",
      13 := "Motion Ex"];
    if packetId in names then names[packetId] else "Unknown"
  }

  /** The packet ID a type name stands for: the inverse of GetPacketTypeName. */
  function PacketTypeId(name: string): (id: Option<byte>)
    ensures id.Some? ==> id.value <= 13
  {
    if name == "Motion" then Some(0)
    else if name == "Session" then Some(1)
    else if name == "Lap Data" then Some(2)
    else if name == "Event" then Some(3)
    else if name == "Participants" then Some(4)
    else if name == "Car Setups" then Some(5)
    else if name == "Car Telemetry" then Some(6)
    else if name == "Car Status" then Some(7)
    else if name == "Final Classification" then Some(8)
    else if name == "Lobby Info" then Some(9)
    else if name == "Car Damage" then Some(10)
    else if name == "Session History" then Some(11)
    else if name == "Tyre Sets" then Some(12)
    else if name == "Motion Ex" then Some(13)
    else None
  }

  /** Every listed ID has its own name, so the name determines the ID. */
  lemma PacketTypeNamesDistinct(packetId: byte)
    ensures packetId <= 13 ==> PacketTypeId(GetPacketTypeName(packetId)) == Some(packetId)
    ensures packetId > 13 ==> PacketTypeId(GetPacketTypeName(packetId)) == None
  {
  }
}
