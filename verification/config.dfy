/**
 * The recorder's configuration: its defaults and the checks Validate
 * applies before the configuration is used. PlaybackSpeed, a float64, is a
 * real number here.
 */
module Config {
  import opened Bytes
  import opened Wrappers

  const DefaultUdpPort: int64 := 20777
  const DefaultBindAddress: string := "0.0.0.0"
  const DefaultRecordingDir: string := "./recordings"
  const DefaultBufferSize: int64 := 65536
  /** In milliseconds. */
  const DefaultPacketTimeout: int64 := 5000
  const DefaultTimestampFormat: string := "2006-01-02_15-04-05"

  /** The smallest receive buffer Validate accepts. */
  const MinBufferSize: int64 := 1024

  datatype Config = Config(
    udpPort: int64,
    bindAddress: string,
    recordingDir: string,
    autoCreateDir: bool,
    timestampFormat: string,
    bufferSize: int64,
    packetTimeout: int64,
    playbackSpeed: real)

  /** Each error carries the offending value, as the message does. */
  datatype ConfigError =
    | InvalidPort(port: int64)
    | EmptyRecordingDir
    | BufferTooSmall(size: int64)
    | InvalidSpeed(speed: real)

  function NewDefaultConfig(): (c: Config)
    ensures c.udpPort == 20777 && c.bindAddress == "0.0.0.0"
    ensures c.recordingDir == "./recordings" && c.autoCreateDir
    ensures c.timestampFormat == "2006-01-02_15-04-05"
    ensures c.bufferSize == 65536 && c.packetTimeout == 5000 && c.playbackSpeed == 1.0
  {
    Config(DefaultUdpPort, DefaultBindAddress, DefaultRecordingDir, true,
           DefaultTimestampFormat, DefaultBufferSize, DefaultPacketTimeout, 1.0)
  }

  predicate PortInRange(c: Config)
  {
    1 <= c.udpPort <= 65535
  }

  /** What a usable configuration is: every field Validate looks at is in range. */
  predicate Acceptable(c: Config)
  {
    PortInRange(c) && c.recordingDir != [] && c.bufferSize >= MinBufferSize && c.playbackSpeed > 0.0
  }

  /**
   * The checks in order: the port, the recording directory, the buffer
   * size, the playback speed. The first one that fails is reported.
   */
  function Validate(c: Config): (r: Option<ConfigError>)
    ensures r.None? <==> Acceptable(c)
    ensures r == Some(InvalidPort(c.udpPort)) <==> !PortInRange(c)
    ensures r == Some(EmptyRecordingDir) <==> PortInRange(c) && c.recordingDir == []
    ensures r == Some(BufferTooSmall(c.bufferSize)) <==>
      PortInRange(c) && c.recordingDir != [] && c.bufferSize < MinBufferSize
    ensures r == Some(InvalidSpeed(c.playbackSpeed)) <==>
      PortInRange(c) && c.recordingDir != [] && c.bufferSize >= MinBufferSize && c.playbackSpeed <= 0.0
  {
    if c.udpPort < 1 || c.udpPort > 65535 then Some(InvalidPort(c.udpPort))
    else if c.recordingDir == "" then Some(EmptyRecordingDir)
    else if c.bufferSize < MinBufferSize then Some(BufferTooSmall(c.bufferSize))
    else if c.playbackSpeed <= 0.0 then Some(InvalidSpeed(c.playbackSpeed))
    else None
  }

  /** The defaults pass validation. */
  lemma DefaultConfigValid()
    ensures Validate(NewDefaultConfig()) == None
  {
    assert DefaultRecordingDir != [] by {
      assert |DefaultRecordingDir| == 12;
    }
  }

  /**
   * The bind address, the directory-creation flag, the timestamp format
   * and the packet timeout are never checked: configurations that differ
   * only there validate alike.
   */
  lemma ValidateReadsFourFields(c1: Config, c2: Config)
    requires c1.udpPort == c2.udpPort && c1.recordingDir == c2.recordingDir
    requires c1.bufferSize == c2.bufferSize && c1.playbackSpeed == c2.playbackSpeed
    ensures Validate(c1) == Validate(c2)
  {
  }
}
