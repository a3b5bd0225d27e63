/**
 * Capacity probe: additive increase per acknowledged datagram, additive
 * decrease per datagram judged lost by the reorder rule, the window held
 * within [MIN_WIN, MAX_WIN].
 */
module CapacityProbe {
  import opened Unsigned
  import opened InFlight

  /** Reorder tolerance, in ms of sender clock. */
  const REORDER: nat := 20
  const MIN_WIN: nat := 20
  const MAX_WIN: nat := 200

  /** Answer of `payload_size()`, in bytes. */
  const PAYLOAD_SIZE: nat := 1388
  /** Answer of `timer_period()`, in ms; 0 disables the timer. */
  const TIMER_PERIOD: nat := 0
  /** Answer of `timeout_ms()`; -1 means no timeout. */
  const TIMEOUT_MS: int := -1

  /** The answers of `payload_size()`, `timer_period()` and `timeout_ms()`. */
  lemma ContractConstants()
    ensures PAYLOAD_SIZE == 1388
    ensures TIMER_PERIOD == 0 && TIMEOUT_MS == -1
  {
  }

  datatype Option<T> = None | Some(value: T)

  /**
   * How many entries at the front of `l` the reorder rule judges lost for an
   * acknowledgement of a datagram sent at `ackSendTs`: the longest prefix
   * whose send times lie more than REORDER before it.
   */
  function LostPrefix(l: seq<Entry>, ackSendTs: nat): (n: nat)
    ensures n <= |l|
    ensures forall j :: 0 <= j < n ==> l[j].sendTs + REORDER < ackSendTs
    ensures n < |l| ==> ackSendTs <= l[n].sendTs + REORDER
  {
    if l != [] && l[0].sendTs + REORDER < ackSendTs then 1 + LostPrefix(l[1..], ackSendTs) else 0
  }

  /** The window after `losses` decrements, each skipped once it is down to MIN_WIN. */
  function Backoff(w: nat, losses: nat): (r: nat)
    ensures w <= MIN_WIN ==> r == w
    ensures MIN_WIN < w ==> r == if losses <= w - MIN_WIN then w - losses else MIN_WIN
  {
    if losses == 0 || w <= MIN_WIN then w else Backoff(w - 1, losses - 1)
  }

  /** The window after the ack's single increment, skipped at MAX_WIN. */
  function Raise(w: nat): (r: nat)
    ensures w <= r <= w + 1
    ensures w <= MAX_WIN ==> r <= MAX_WIN
    ensures r == w ==> MAX_WIN <= w
  {
    if w < MAX_WIN then w + 1 else w
  }

  class Controller {
    var windowSize: nat
    var inFlight: seq<Entry>
    /** Receive time of the first acknowledged datagram, by the receiver's clock. */
    var recvBase: Option<u64>
    /** Delivery-time trace: one record per acknowledgement. */
    var delayLog: seq<u64>

    ghost predicate Valid()
      reads this
    {
      MIN_WIN <= windowSize <= MAX_WIN
    }

    constructor ()
      ensures Valid()
      ensures windowSize == MIN_WIN && inFlight == []
      ensures recvBase == None && delayLog == []
    {
      windowSize := MIN_WIN;
      inFlight := [];
      recvBase := None;
      delayLog := [];
    }

    /**
     * Another datagram may be sent: fewer are in flight than the window.
     * Within the window's bounds, fewer than MIN_WIN in flight always
     * leaves it open and MAX_WIN or more always closes it.
     */
    predicate WindowIsOpen()
      requires Valid()
      reads this
      ensures |inFlight| < MIN_WIN ==> WindowIsOpen()
      ensures MAX_WIN <= |inFlight| ==> !WindowIsOpen()
    {
      |inFlight| < windowSize
    }

    method DatagramWasSent(seqNum: u64, sendTs: u64)
      requires Valid()
      modifies this
      ensures Valid()
      ensures inFlight == old(inFlight) + [Entry(seqNum, sendTs)]
      ensures windowSize == old(windowSize)
      ensures recvBase == old(recvBase) && delayLog == old(delayLog)
      ensures (old(Sorted(inFlight)) && (old(inFlight) == [] || old(inFlight[|inFlight| - 1].seqNum) < seqNum))
              ==> Sorted(inFlight)
    {
      if Sorted(inFlight) && (inFlight == [] || inFlight[|inFlight| - 1].seqNum < seqNum) {
        AppendSorted(inFlight, Entry(seqNum, sendTs));
      }
      inFlight := inFlight + [Entry(seqNum, sendTs)];
    }

    /**
     * The loss loop of an acknowledgement: pop the front while it was sent
     * more than REORDER before the acknowledged datagram, one window
     * decrement (down to MIN_WIN) per pop. `defined` is false exactly when
     * the source's loop would read the front of an empty list; the model
     * stops there instead.
     */
    method EvictLost(ackSendTs: u64) returns (defined: bool)
      requires Valid()
      modifies this`inFlight, this`windowSize
      ensures Valid()
      ensures var lost := LostPrefix(old(inFlight), ackSendTs);
              && inFlight == old(inFlight)[lost..]
              && windowSize == Backoff(old(windowSize), lost)
              && (defined <==> lost < |old(inFlight)|)
    {
      ghost var l0, w0 := inFlight, windowSize;
      ghost var n: nat := 0;
      while inFlight != [] && inFlight[0].sendTs + REORDER < ackSendTs
        invariant n <= |l0| && inFlight == l0[n..]
        invariant forall j :: 0 <= j < n ==> l0[j].sendTs + REORDER < ackSendTs
        invariant windowSize == Backoff(w0, n)
        invariant Valid()
        decreases |inFlight|
      {
        inFlight := inFlight[1..];
        if windowSize > MIN_WIN {
          windowSize := windowSize - 1;
        }
        n := n + 1;
      }
      defined := inFlight != [];
      assert LostPrefix(l0, ackSendTs) == n;
    }

    /**
     * The scan of an acknowledgement: remove the acknowledged datagram and,
     * if it was found, add one to the window (up to MAX_WIN).
     */
    method RemoveAcked(seqAcked: u64) returns (found: bool)
      requires Valid()
      modifies this`inFlight, this`windowSize
      ensures Valid()
      ensures inFlight == Acked(old(inFlight), seqAcked)
      ensures found <==> |inFlight| < |old(inFlight)|
      ensures windowSize == if found then Raise(old(windowSize)) else old(windowSize)
    {
      var rest;
      rest, found := Scan(inFlight, seqAcked);
      inFlight := rest;
      if found && windowSize < MAX_WIN {
        windowSize := windowSize + 1;
      }
    }

    /**
     * Logs the delivery time against the first one seen, drops the datagrams
     * judged lost, then removes the acknowledged one.
     */
    method AckReceived(seqAcked: u64, sendTsAcked: u64, recvTsAcked: u64, ackReceivedTs: u64)
      returns (defined: bool)
      requires Valid()
      modifies this
      ensures Valid()
      ensures defined <==> LostPrefix(old(inFlight), sendTsAcked) < |old(inFlight)|
      ensures recvBase == if old(recvBase).None? then Some(recvTsAcked) else old(recvBase)
      ensures delayLog == old(delayLog) + [Sub64(recvTsAcked, recvBase.value)]
      ensures var lost := LostPrefix(old(inFlight), sendTsAcked);
              var kept := old(inFlight)[lost..];
              && inFlight == Acked(kept, seqAcked)
              && windowSize == if |inFlight| < |kept| then Raise(Backoff(old(windowSize), lost))
                               else Backoff(old(windowSize), lost)
      ensures !old(Contains(inFlight, seqAcked)) ==> windowSize <= old(windowSize)
      ensures old(Sorted(inFlight)) ==> Sorted(inFlight) && !Contains(inFlight, seqAcked)
    {
      if recvBase.None? {
        recvBase := Some(recvTsAcked);
      }
      delayLog := delayLog + [Sub64(recvTsAcked, recvBase.value)];

      ghost var l0 := inFlight;
      defined := EvictLost(sendTsAcked);
      ghost var kept := inFlight;
      ghost var n := |l0| - |kept|;
      assert kept == l0[n..];
      var found := RemoveAcked(seqAcked);

      if !Contains(l0, seqAcked) {
        SuffixLacks(l0, n, seqAcked);
        assert !found;
      }
      if Sorted(l0) {
        DropSorted(l0, n);
        AckedSorted(kept, seqAcked);
        AckedRemovesKey(kept, seqAcked);
      }
    }
  }
}

/** Client runs of the capacity probe, as the sender loop drives it. */
module CapacityScenarios {
  import opened InFlight
  import opened CapacityProbe

  /**
   * Datagrams 1, 2, 3 sent at 0, 5 and 30 ms. The ack for 2 raises the
   * window to 21. The ack for 3, sent at 30, judges 1 lost (0 + 20 < 30):
   * one decrement, then one increment for 3 itself.
   */
  method ReorderLoss() returns (w1: nat, w2: nat, left: seq<Entry>)
    ensures w1 == 21 && w2 == 21 && left == []
  {
    var c := new Controller();
    c.DatagramWasSent(1, 0);
    c.DatagramWasSent(2, 5);
    c.DatagramWasSent(3, 30);
    var d := c.AckReceived(2, 5, 7, 9);
    assert c.inFlight == [Entry(1, 0), Entry(3, 30)];
    w1 := c.windowSize;
    assert LostPrefix([Entry(1, 0), Entry(3, 30)], 30) == 1;
    d := c.AckReceived(3, 30, 32, 34);
    w2, left := c.windowSize, c.inFlight;
  }

  /** A duplicate acknowledgement raises the window only once. */
  method DuplicateAck() returns (w1: nat, w2: nat)
    ensures w1 == 21 && w2 == 21
  {
    var c := new Controller();
    c.DatagramWasSent(1, 0);
    c.DatagramWasSent(2, 5);
    var d := c.AckReceived(1, 0, 2, 4);
    w1 := c.windowSize;
    d := c.AckReceived(1, 0, 2, 6);
    w2 := c.windowSize;
  }

  /**
   * The two acknowledgements on which the source reads the front of an empty
   * list: one with nothing in flight, and one whose loss rule drops every
   * datagram in flight.
   */
  method EmptyFront() returns (onEmpty: bool, afterLosses: bool, w: nat)
    ensures !onEmpty && !afterLosses && w == MIN_WIN
  {
    var c := new Controller();
    onEmpty := c.AckReceived(1, 0, 2, 4);
    c.DatagramWasSent(2, 10);
    afterLosses := c.AckReceived(7, 50, 52, 54);
    w := c.windowSize;
  }
}
