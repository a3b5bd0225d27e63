/**
 * Queue probe: rounds of a fixed target window, ended by the timer. Within a
 * round the sending allowance ramps from 1 up to the target, one step per
 * acknowledgement; once it is reached, acknowledgements measure the largest
 * round-trip time of the round.
 */
module QueueProbe {
  import opened Unsigned
  import opened InFlight

  const INITIAL_WINDOW: nat := 10
  /** Growth of the target window from one round to the next. */
  const WINDOW_STEP: nat := 10

  /** Answer of `payload_size()`, in bytes. */
  const PAYLOAD_SIZE: nat := 1388
  /** Answer of `timer_period()`, in ms: the round length. */
  const TIMER_PERIOD: nat := 2000
  /** Answer of `timeout_ms()`; -1 means no timeout. */
  const TIMEOUT_MS: int := -1

  /** The answers of `payload_size()`, `timer_period()` and `timeout_ms()`. */
  lemma ContractConstants()
    ensures PAYLOAD_SIZE == 1388
    ensures TIMER_PERIOD == 2000 && TIMEOUT_MS == -1
  {
  }

  /**
   * One round summary as logged by the timer: the target window, how many
   * datagrams were still unacknowledged (the numerator of the loss rate,
   * whose denominator is the window) and the round's largest RTT.
   */
  datatype RoundSummary = RoundSummary(windowSize: nat, unacked: nat, maxRtt: u64)

  function Max(a: u64, b: u64): (r: u64)
    ensures a <= r && b <= r
    ensures r == a || r == b
  {
    if b > a then b else a
  }

  class Controller {
    /** Target window of the current round. */
    var windowSize: nat
    /** Sending allowance, ramping toward windowSize within the round. */
    var interimWindowSize: nat
    var maxRtt: u64
    /** Datagrams counted against the allowance in this round. */
    var datagramNum: nat
    var inFlight: seq<Entry>
    var roundLog: seq<RoundSummary>

    /**
     * The allowance never passes the target, and every listed datagram is
     * counted, so the count never drops below zero.
     */
    ghost predicate Valid()
      reads this
    {
      && INITIAL_WINDOW <= windowSize
      && 1 <= interimWindowSize <= windowSize
      && |inFlight| <= datagramNum
    }

    /** The sender kept within the allowance. */
    ghost predicate Paced()
      reads this
    {
      datagramNum <= interimWindowSize
    }

    constructor ()
      ensures Valid() && Paced()
      ensures windowSize == INITIAL_WINDOW && interimWindowSize == 1
      ensures maxRtt == 0 && datagramNum == 0 && inFlight == [] && roundLog == []
    {
      windowSize := INITIAL_WINDOW;
      interimWindowSize := 1;
      maxRtt := 0;
      datagramNum := 0;
      inFlight := [];
      roundLog := [];
    }

    /**
     * Another datagram may be sent: the round's count is below the
     * allowance, hence below the round's target.
     */
    predicate WindowIsOpen()
      requires Valid()
      reads this
      ensures WindowIsOpen() ==> datagramNum < windowSize && |inFlight| < windowSize
    {
      datagramNum < interimWindowSize
    }

    /**
     * End of a round: log its summary, move to a target 10 larger, restart
     * the ramp and forget everything still in flight.
     */
    method TimerFires()
      requires Valid()
      modifies this
      ensures Valid() && Paced()
      ensures roundLog == old(roundLog) + [RoundSummary(old(windowSize), old(|inFlight|), old(maxRtt))]
      ensures windowSize == old(windowSize) + WINDOW_STEP
      ensures interimWindowSize == 1 && maxRtt == 0 && datagramNum == 0 && inFlight == []
    {
      roundLog := roundLog + [RoundSummary(windowSize, |inFlight|, maxRtt)];
      windowSize := windowSize + WINDOW_STEP;
      interimWindowSize := 1;
      maxRtt := 0;
      datagramNum := 0;
      inFlight := [];
    }

    method DatagramWasSent(seqNum: u64, sendTs: u64)
      requires Valid()
      modifies this
      ensures Valid()
      ensures datagramNum == old(datagramNum) + 1
      ensures inFlight == old(inFlight) + [Entry(seqNum, sendTs)]
      ensures windowSize == old(windowSize) && interimWindowSize == old(interimWindowSize)
      ensures maxRtt == old(maxRtt) && roundLog == old(roundLog)
      ensures old(WindowIsOpen()) ==> Paced()
      ensures (old(Sorted(inFlight)) && (old(inFlight) == [] || old(inFlight[|inFlight| - 1].seqNum) < seqNum))
              ==> Sorted(inFlight)
    {
      if Sorted(inFlight) && (inFlight == [] || inFlight[|inFlight| - 1].seqNum < seqNum) {
        AppendSorted(inFlight, Entry(seqNum, sendTs));
      }
      datagramNum := datagramNum + 1;
      inFlight := inFlight + [Entry(seqNum, sendTs)];
    }

    /**
     * Removes the acknowledged datagram. While ramping, the datagram stops
     * counting and the allowance grows by one; once the ramp is complete,
     * the RTT (ack time minus send time, on uint64_t) feeds the maximum.
     * An acknowledgement for a datagram not in flight changes nothing.
     */
    method AckReceived(seqAcked: u64, sendTsAcked: u64, recvTsAcked: u64, ackReceivedTs: u64)
      requires Valid()
      modifies this
      ensures Valid()
      ensures inFlight == Acked(old(inFlight), seqAcked)
      ensures windowSize == old(windowSize) && roundLog == old(roundLog)
      ensures |inFlight| == old(|inFlight|) ==>
                inFlight == old(inFlight) &&
                datagramNum == old(datagramNum) && interimWindowSize == old(interimWindowSize) && maxRtt == old(maxRtt)
      ensures |inFlight| < old(|inFlight|) && old(interimWindowSize < windowSize) ==>
                && datagramNum == old(datagramNum) - 1
                && interimWindowSize == old(interimWindowSize) + 1
                && maxRtt == old(maxRtt)
      ensures |inFlight| < old(|inFlight|) && old(interimWindowSize >= windowSize) ==>
                && datagramNum == old(datagramNum)
                && interimWindowSize == old(interimWindowSize)
                && maxRtt == Max(old(maxRtt), Sub64(ackReceivedTs, sendTsAcked))
      ensures old(Paced()) ==> Paced()
      ensures old(Sorted(inFlight)) ==> Sorted(inFlight) && !Contains(inFlight, seqAcked)
    {
      ghost var l0 := inFlight;
      var rest, found := Scan(inFlight, seqAcked);
      inFlight := rest;
      if found {
        if interimWindowSize < windowSize {
          datagramNum := datagramNum - 1;
          interimWindowSize := interimWindowSize + 1;
        } else {
          var rtt := Sub64(ackReceivedTs, sendTsAcked);
          if rtt > maxRtt {
            maxRtt := rtt;
          }
        }
      }
      if Sorted(l0) {
        AckedSorted(l0, seqAcked);
        AckedRemovesKey(l0, seqAcked);
      }
    }
  }
}

/** Client runs of the queue probe, as the sender loop drives it. */
module QueueScenarios {
  import opened Unsigned
  import opened InFlight
  import opened QueueProbe

  /**
   * One round from a fresh controller, each datagram acknowledged before the
   * next is sent: nine ramp acknowledgements take the allowance from 1 to the
   * target 10; the next acknowledgement records its RTT (40 ms) as the
   * round's maximum instead. A timer firing then opens the next round.
   */
  method OneRound() returns (interim: nat, num: nat, rtt: u64, nextWindow: nat, summary: RoundSummary)
    ensures interim == 10 && num == 1 && rtt == 40
    ensures nextWindow == 20 && summary == RoundSummary(10, 0, 40)
  {
    var c := new Controller();
    var k: u64 := 0;
    while k < 9
      invariant k <= 9
      invariant c.Valid() && c.windowSize == 10 && c.interimWindowSize == k + 1
      invariant c.datagramNum == 0 && c.maxRtt == 0 && c.inFlight == [] && c.roundLog == []
    {
      c.DatagramWasSent(k, 100 * k);
      c.AckReceived(k, 100 * k, 100 * k + 15, 100 * k + 30);
      k := k + 1;
    }
    c.DatagramWasSent(9, 1000);
    c.AckReceived(9, 1000, 1020, 1040);
    interim, num, rtt := c.interimWindowSize, c.datagramNum, c.maxRtt;
    c.TimerFires();
    nextWindow, summary := c.windowSize, c.roundLog[0];
  }
}
