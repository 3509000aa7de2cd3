/**
 * The UDP receiver: a loop reads datagrams, decodes their header, counts
 * them and offers them to a bounded queue that a consumer drains.
 *
 * The socket is abstracted: each loop iteration is given the outcome of
 * one read, and the clock reading the packet is stamped with. The queue is
 * the channel of capacity 100; the ghost sequences record everything ever
 * queued and everything the consumer has taken, so that the queue is seen
 * to be first in, first out and to lose nothing it accepted.
 */
module UdpReceiver {
  import opened Bytes
  import opened Wrappers
  import opened Packet

  /** Capacity of the packets channel. */
  const QueueCapacity: nat := 100

  /** Go's zero time.Time is represented by 0. */
  datatype ReceiverStats = ReceiverStats(
    packetsReceived: uint64,
    bytesReceived: uint64,
    errors: uint64,
    startTime: int64)

  datatype ReceiverError = AlreadyRunning | BindFailed

  /** What one ReadFromUDP returned. */
  datatype ReadOutcome =
    | Timeout                      // the 100 ms read deadline passed
    | ReadFailed                   // any other error, such as the socket having been closed
    | Received(datagram: seq<byte>)

  /** Whether the receive loop goes round again or returns. */
  datatype LoopStep = Continue | Return

  /** Total payload size of a sequence of datagrams. */
  function TotalLength(ds: seq<seq<byte>>): nat
  {
    if ds == [] then 0 else TotalLength(ds[..|ds| - 1]) + |ds[|ds| - 1]|
  }

  lemma TotalLengthSnoc(ds: seq<seq<byte>>, d: seq<byte>)
    ensures TotalLength(ds + [d]) == TotalLength(ds) + |d|
  {
    assert (ds + [d])[..|ds|] == ds;
  }

  /** The bytes a read leaves in the buffer: a longer datagram is cut to the buffer's size. */
  function Truncate(datagram: seq<byte>, bufferSize: nat): (data: seq<byte>)
    ensures |data| <= bufferSize && |data| <= |datagram|
    ensures data == datagram[..|data|]
    ensures |datagram| <= bufferSize ==> data == datagram
    ensures |datagram| > bufferSize ==> |data| == bufferSize
  {
    if |datagram| <= bufferSize then datagram else datagram[..bufferSize]
  }

  class Receiver {
    /** The configured read buffer size. */
    const bufferSize: nat
    var running: bool
    /** stopChan has been closed. It is made once, in NewReceiver. */
    var stopClosed: bool
    /** The packets channel has been closed; it too is made only once. */
    var packetsClosed: bool
    /** A receive loop has been started and has not returned. */
    var loopActive: bool
    var stats: ReceiverStats
    /** The packets channel: packets queued and not yet taken by the consumer. */
    var packets: seq<RecordedPacket>

    /** Every packet ever queued, and every packet the consumer has taken, in order. */
    ghost var queued: seq<RecordedPacket>
    ghost var taken: seq<RecordedPacket>
    /** Datagrams decoded since the last Start, and the errors counted since then. */
    ghost var decoded: seq<seq<byte>>
    ghost var errorCount: nat

    ghost predicate Valid()
      reads this
    {
      && |packets| <= QueueCapacity
      && taken + packets == queued
      && stats.packetsReceived == |decoded| % U64Modulus
      && stats.bytesReceived == TotalLength(decoded) % U64Modulus
      && stats.errors == errorCount % U64Modulus
    }

    /** NewReceiver: an empty queue, nothing running. */
    constructor (bufferSize: nat)
      ensures Valid()
      ensures this.bufferSize == bufferSize
      ensures !running && !stopClosed && !packetsClosed && !loopActive
      ensures packets == [] && queued == [] && taken == []
      ensures stats == ReceiverStats(0, 0, 0, 0)
    {
      this.bufferSize := bufferSize;
      running, stopClosed, packetsClosed, loopActive := false, false, false, false;
      stats := ReceiverStats(0, 0, 0, 0);
      packets, queued, taken := [], [], [];
      decoded, errorCount := [], 0;
    }

    /** Binds the socket (bindOk says whether it could be) and starts the loop with fresh statistics. */
    method Start(bindOk: bool, now: int64) returns (err: Option<ReceiverError>)
      requires Valid()
      modifies this
      ensures Valid()
      ensures old(running) ==> err == Some(AlreadyRunning) && unchanged(this)
      ensures !old(running) && !bindOk ==> err == Some(BindFailed) && unchanged(this)
      ensures !old(running) && bindOk ==>
        && err == None && running && loopActive
        && stats == ReceiverStats(0, 0, 0, now)
        && stopClosed == old(stopClosed) && packetsClosed == old(packetsClosed)
        && packets == old(packets) && queued == old(queued) && taken == old(taken)
    {
      if running {
        return Some(AlreadyRunning);
      }
      if !bindOk {
        return Some(BindFailed);
      }
      running, loopActive := true, true;
      stats := ReceiverStats(0, 0, 0, now);
      decoded, errorCount := [], 0;
      err := None;
    }

    /**
     * Closes stopChan, clears running, closes the socket, waits for the loop
     * to return and closes the packets channel. A no-op when not running.
     * After a restart the channels are already closed, and closing them
     * again is a run-time panic.
     */
    method Stop() returns (panicked: bool)
      requires Valid()
      modifies this
      ensures Valid()
      ensures !old(running) ==> !panicked && unchanged(this)
      ensures old(running) && old(stopClosed) ==> panicked && unchanged(this)
      ensures old(running) && !old(stopClosed) ==>
        && !panicked && !running && stopClosed && packetsClosed && !loopActive
        && stats == old(stats) && packets == old(packets)
        && queued == old(queued) && taken == old(taken)
    {
      if !running {
        return false;
      }
      if stopClosed {
        return true;
      }
      stopClosed, running := true, false;
      loopActive, packetsClosed := false, true;
      panicked := false;
    }

    method Stats() returns (s: ReceiverStats)
      ensures s == stats
    {
      s := stats;
    }

    method IsRunning() returns (r: bool)
      ensures r == running
    {
      r := running;
    }

    /** One more error; nothing else changes. */
    method IncrementErrors()
      requires Valid()
      modifies this
      ensures Valid()
      ensures stats == old(stats).(errors := AddU64(old(stats.errors), 1))
      ensures errorCount == old(errorCount) + 1 && decoded == old(decoded)
      ensures packets == old(packets) && queued == old(queued) && taken == old(taken)
      ensures running == old(running) && stopClosed == old(stopClosed)
      ensures packetsClosed == old(packetsClosed) && loopActive == old(loopActive)
    {
      AddU64Carries(0, errorCount, 1);
      errorCount := errorCount + 1;
      stats := stats.(errors := AddU64(stats.errors, 1));
    }

    /**
     * Decodes a datagram and queues it, stamped with now. A datagram too
     * short for a header is only counted as an error. A decoded one is
     * counted as received whether or not it is queued; when the queue is
     * full it is dropped and counted as an error.
     */
    method ProcessPacket(data: seq<byte>, now: int64)
      requires Valid()
      modifies this
      ensures Valid()
      ensures running == old(running) && stopClosed == old(stopClosed)
      ensures packetsClosed == old(packetsClosed) && loopActive == old(loopActive)
      ensures taken == old(taken)
      ensures |data| < HeaderSize ==>
        && stats == old(stats).(errors := AddU64(old(stats.errors), 1))
        && decoded == old(decoded) && packets == old(packets) && queued == old(queued)
      ensures |data| >= HeaderSize ==>
        var p := RecordedPacket(now, data, ParseHeader(data).value);
        && decoded == old(decoded) + [data]
        && stats.packetsReceived == AddU64(old(stats.packetsReceived), 1)
        && stats.bytesReceived == AddU64(old(stats.bytesReceived), |data|)
        && stats.startTime == old(stats.startTime)
        && (|old(packets)| < QueueCapacity ==>
              && packets == old(packets) + [p] && queued == old(queued) + [p]
              && stats.errors == old(stats.errors))
        && (|old(packets)| >= QueueCapacity ==>
              && packets == old(packets) && queued == old(queued)
              && stats.errors == AddU64(old(stats.errors), 1))
    {
      var header := ParseHeader(data);
      if header.Failure? {
        IncrementErrors();
        return;
      }
      Count(data);
      var p := RecordedPacket(now, data, header.value);
      if |packets| < QueueCapacity {
        packets, queued := packets + [p], queued + [p];
      } else {
        IncrementErrors();
      }
    }

    /** The received counters after one more decoded datagram. */
    method Count(data: seq<byte>)
      requires Valid()
      modifies this
      ensures Valid()
      ensures decoded == old(decoded) + [data]
      ensures stats == old(stats).(packetsReceived := AddU64(old(stats.packetsReceived), 1),
                                   bytesReceived := AddU64(old(stats.bytesReceived), |data|))
      ensures errorCount == old(errorCount)
      ensures packets == old(packets) && queued == old(queued) && taken == old(taken)
      ensures running == old(running) && stopClosed == old(stopClosed)
      ensures packetsClosed == old(packetsClosed) && loopActive == old(loopActive)
    {
      TotalLengthSnoc(decoded, data);
      AddU64Carries(0, |decoded|, 1);
      AddU64Carries(0, TotalLength(decoded), |data|);
      decoded := decoded + [data];
      stats := stats.(packetsReceived := AddU64(stats.packetsReceived, 1),
                      bytesReceived := AddU64(stats.bytesReceived, |data|));
    }

    /**
     * One iteration of the receive loop, given what the read returned and
     * the clock. A timeout goes round again; any other read error ends the
     * loop once the receiver is no longer running and is counted otherwise;
     * a non-empty datagram, cut to the buffer size, is processed.
     */
    method ReceiveStep(read: ReadOutcome, now: int64) returns (step: LoopStep)
      requires Valid() && loopActive
      modifies this
      ensures Valid()
      ensures taken == old(taken) && running == old(running) && stopClosed == old(stopClosed)
      ensures old(stopClosed) ==>
        && step == Return && !loopActive
        && unchanged(this`stats, this`packets, this`queued, this`decoded, this`errorCount, this`packetsClosed)
      ensures !old(stopClosed) && read.Timeout? ==> step == Continue && unchanged(this)
      ensures !old(stopClosed) && read.ReadFailed? && !old(running) ==>
        && step == Return && !loopActive
        && unchanged(this`stats, this`packets, this`queued, this`decoded, this`errorCount, this`packetsClosed)
      ensures !old(stopClosed) && read.ReadFailed? && old(running) ==>
        && step == Continue && loopActive
        && stats == old(stats).(errors := AddU64(old(stats.errors), 1))
        && packets == old(packets) && queued == old(queued)
        && decoded == old(decoded) && packetsClosed == old(packetsClosed)
      ensures !old(stopClosed) && read.Received? ==> step == Continue && loopActive
      ensures !old(stopClosed) && read.Received? && |Truncate(read.datagram, bufferSize)| == 0 ==>
        unchanged(this)
      ensures !old(stopClosed) && read.Received? && |Truncate(read.datagram, bufferSize)| > 0 ==>
        var data := Truncate(read.datagram, bufferSize);
        && packetsClosed == old(packetsClosed)
        && (|data| < HeaderSize ==>
              && stats == old(stats).(errors := AddU64(old(stats.errors), 1))
              && decoded == old(decoded) && packets == old(packets) && queued == old(queued))
        && (|data| >= HeaderSize ==>
              var p := RecordedPacket(now, data, ParseHeader(data).value);
              && decoded == old(decoded) + [data]
              && stats.packetsReceived == AddU64(old(stats.packetsReceived), 1)
              && stats.bytesReceived == AddU64(old(stats.bytesReceived), |data|)
              && stats.startTime == old(stats.startTime)
              && (|old(packets)| < QueueCapacity ==>
                    && packets == old(packets) + [p] && queued == old(queued) + [p]
                    && stats.errors == old(stats.errors))
              && (|old(packets)| >= QueueCapacity ==>
                    && packets == old(packets) && queued == old(queued)
                    && stats.errors == AddU64(old(stats.errors), 1)))
    {
      if stopClosed {
        loopActive := false;
        return Return;
      }
      match read
      case Timeout =>
        step := Continue;
      case ReadFailed =>
        if !running {
          loopActive := false;
          return Return;
        }
        IncrementErrors();
        step := Continue;
      case Received(datagram) =>
        var data := Truncate(datagram, bufferSize);
        if |data| > 0 {
          ProcessPacket(data, now);
        }
        step := Continue;
    }

    /** The consumer's receive on the packets channel: the oldest queued packet. */
    method TakePacket() returns (p: Option<RecordedPacket>)
      requires Valid()
      modifies this
      ensures Valid()
      ensures old(packets) == [] ==> p.None? && unchanged(this)
      ensures old(packets) != [] ==>
        && p == Some(old(packets)[0]) && packets == old(packets)[1..]
        && taken == old(taken) + [p.value] && queued == old(queued)
        && stats == old(stats) && running == old(running)
        && stopClosed == old(stopClosed) && packetsClosed == old(packetsClosed) && loopActive == old(loopActive)
        && decoded == old(decoded) && errorCount == old(errorCount)
    {
      if packets == [] {
        return None;
      }
      p := Some(packets[0]);
      taken := taken + [packets[0]];
      packets := packets[1..];
    }

    /**
     * The queue is first in, first out: the consumer receives exactly the
     * packets that were queued, in the order they were queued, and the ones
     * still waiting come next.
     */
    lemma DeliveredInOrder()
      requires Valid()
      ensures |taken| <= |queued| && taken == queued[..|taken|]
      ensures packets == queued[|taken|..]
    {
      assert queued[..|taken|] == (taken + packets)[..|taken|];
      assert queued[|taken|..] == (taken + packets)[|taken|..];
    }
  }
}
