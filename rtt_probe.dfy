/**
 * RTT probe: one datagram in flight at a time (ping/pong); every
 * acknowledgement logs one round-trip time sample.
 */
module RttProbe {
  import opened Unsigned
  import opened InFlight

  /** Set by the constructor and never changed. */
  const WINDOW_SIZE: nat := 1

  /** Answer of `payload_size()`, in bytes. */
  const PAYLOAD_SIZE: nat := 0
  /** Answer of `timer_period()`, in ms; 0 disables the timer. */
  const TIMER_PERIOD: nat := 0
  /** Answer of `timeout_ms()`; -1 means no timeout. */
  const TIMEOUT_MS: int := -1

  /** The answers of `payload_size()`, `timer_period()` and `timeout_ms()`. */
  lemma ContractConstants()
    ensures PAYLOAD_SIZE == 0
    ensures TIMER_PERIOD == 0 && TIMEOUT_MS == -1
  {
  }

  class Controller {
    var inFlight: seq<Entry>
    /** RTT trace: one sample per acknowledgement. */
    var rttLog: seq<u64>

    constructor ()
      ensures inFlight == [] && rttLog == []
    {
      inFlight := [];
      rttLog := [];
    }

    /** With a window of one, sending is allowed exactly when nothing is in flight. */
    predicate WindowIsOpen()
      reads this
      ensures WindowIsOpen() <==> inFlight == []
    {
      |inFlight| < WINDOW_SIZE
    }

    method DatagramWasSent(seqNum: u64, sendTs: u64)
      modifies this
      ensures inFlight == old(inFlight) + [Entry(seqNum, sendTs)]
      ensures rttLog == old(rttLog)
      ensures (old(Sorted(inFlight)) && (old(inFlight) == [] || old(inFlight[|inFlight| - 1].seqNum) < seqNum))
              ==> Sorted(inFlight)
    {
      if Sorted(inFlight) && (inFlight == [] || inFlight[|inFlight| - 1].seqNum < seqNum) {
        AppendSorted(inFlight, Entry(seqNum, sendTs));
      }
      inFlight := inFlight + [Entry(seqNum, sendTs)];
    }

    /**
     * Logs the RTT (ack time minus send time, on uint64_t) whether or not the
     * datagram is still in flight, then removes it if it is.
     */
    method AckReceived(seqAcked: u64, sendTsAcked: u64, recvTsAcked: u64, ackReceivedTs: u64)
      modifies this
      ensures rttLog == old(rttLog) + [Sub64(ackReceivedTs, sendTsAcked)]
      ensures inFlight == Acked(old(inFlight), seqAcked)
      ensures old(Sorted(inFlight)) ==> Sorted(inFlight) && !Contains(inFlight, seqAcked)
    {
      var rtt := Sub64(ackReceivedTs, sendTsAcked);
      rttLog := rttLog + [rtt];

      ghost var l0 := inFlight;
      var rest, found := Scan(inFlight, seqAcked);
      inFlight := rest;
      if Sorted(l0) {
        AckedSorted(l0, seqAcked);
        AckedRemovesKey(l0, seqAcked);
      }
    }
  }

  /**
   * One ping/pong on a fresh controller: the window closes while the probe
   * is out, reopens once its acknowledgement is processed, and the logged
   * sample is the round-trip time.
   */
  method PingPong(seqNum: u64, sendTs: u64, ackTs: u64)
    returns (openWhileOut: bool, openAfterAck: bool, sample: u64)
    requires sendTs <= ackTs
    ensures !openWhileOut && openAfterAck
    ensures sample == ackTs - sendTs
  {
    var c := new Controller();
    c.DatagramWasSent(seqNum, sendTs);
    openWhileOut := c.WindowIsOpen();
    c.AckReceived(seqNum, sendTs, sendTs, ackTs);
    openAfterAck := c.WindowIsOpen();
    sample := c.rttLog[0];
  }
}
