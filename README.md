# Congestion controllers of pantheon-stimuli, modelled in Dafny

The repository drives a datagram sender with one of three interchangeable
congestion controllers, each probing one property of a network path:

- the **capacity probe** (`capacity_stimulus/controller.cc`) keeps an
  additive-increase / additive-decrease window clamped to [20, 200]: every
  acknowledgement that finds its datagram still in flight adds one (up to
  200), every datagram judged lost by the
  reorder rule (sent more than 20 ms before the acknowledged one) takes one off;
- the **queue probe** (`queue_stimulus/controller.cc`) runs 2-second rounds;
  within a round the sending allowance ramps from 1 to the round's target
  window, one step per acknowledgement, after which acknowledgements feed the
  round's maximum RTT; the timer ends the round, logs it, raises the target
  by 10 and forgets what is still in flight;
- the **RTT probe** (`rtt_stimulus/controller.cc`) keeps one datagram in
  flight and logs one RTT sample per acknowledgement.

All three keep the in-flight datagrams as a list of (sequence number, send
time) pairs, oldest first, and remove an acknowledged datagram with the same
ordered scan, which stops early at a larger sequence number. The model
states that scan once (`InFlight.Acked`, run by the loop `InFlight.Scan`) and
each controller class calls it. The timer helper's millisecond to (seconds,
nanoseconds) split (`src/timerfd.cc`) is modelled as a pure function.

Layout: `unsigned.dfy` (32- and 64-bit unsigned operations),
`in_flight.dfy` (the shared list and scan), `capacity_probe.dfy`,
`queue_probe.dfy`, `rtt_probe.dfy` (one `Controller` class each, plus
client runs of the sender loop), `timerfd.dfy`.

Modelling choices:

- Each controller is a class whose fields the methods update in place; the
  `std::list` is a `seq<Entry>` field that the methods reassign. The
  measurement logs are `seq` fields that the methods append to, one record per
  logged line.
- The constant answers `payload_size()`, `timer_period()` and `timeout_ms()`
  are module constants (`PAYLOAD_SIZE`, `TIMER_PERIOD`, `TIMEOUT_MS`), with
  the source's values: 1388/0/-1 (capacity), 1388/2000/-1 (queue), 0/0/-1
  (RTT). The `window_size()` getter is the `windowSize` field (a constant
  `WINDOW_SIZE = 1` for the RTT probe, which never changes it).
- In the capacity probe's `ack_received`, the loss loop reads
  `datagram_list_.front()` without checking that the list is non-empty, which
  is undefined behaviour on an empty `std::list`: it happens when an
  acknowledgement arrives with nothing in flight, or when the loss rule drops
  every datagram in flight. The model tests for the empty list before reading
  the front and returns `defined == false` exactly in those cases; the scan
  that follows then finds nothing to remove.
- The capacity probe's function-local `static` baseline receive time is a
  per-controller field `recvBase: Option<u64>`, set by the first
  acknowledgement.
- The RTT `timestamp_ack_received - send_timestamp_acked` and the capacity
  probe's delivery time are `uint64_t` subtractions; the model writes out
  their wrap-around (`Unsigned.Sub64`), so no ordering of the timestamps is
  required of callers.
- Sorting: the sender hands out sequence numbers in increasing order, but no
  controller checks it. The model therefore does not make sortedness an
  invariant; every operation instead promises to keep a sorted list sorted
  (for a send, when its number is above the last one), and the "exactly the
  acknowledged entry is removed" properties are stated for sorted lists.
- The capacity probe's window cannot go below 20: a loss at window 20
  leaves it at 20 (`Backoff`: a window at or below MIN_WIN stays as it is);
  `CapacityScenarios.EmptyFront` drops a datagram at window 20 and the window
  stays 20. In the run send 1, 2, 3 / ack 2, ack 3
  (`CapacityScenarios.ReorderLoss`), the ack of 2 raises the window to 21,
  and the ack of 3 takes it from 21 to 20 for the loss of datagram 1 and back
  to 21 for datagram 3. In the queue probe, nine ramp
  acknowledgements take the allowance from 1 to the target of 10, and the
  tenth matched acknowledgement is the first to record an RTT
  (`QueueScenarios.OneRound`).

## Model

| member | source | states |
|---|---|---|
| `InFlight.Acked` | capacity_stimulus/controller.cc:114-126 | the ordered scan removes at most one entry, and only when some entry carries the acknowledged number; when it removes none the list is unchanged |
| `InFlight.AckedErasesOne` | capacity_stimulus/controller.cc:114-126 | on any list, sorted or not, the scan leaves it unchanged or erases one entry carrying the acknowledged number in place, the others keeping their order |
| `InFlight.Scan` | rtt_stimulus/controller.cc:105-115 | the iterator loop (erase the match and stop, stop at a larger number, or run off the end) leaves exactly `Acked(l, key)`; `found` holds exactly when an entry was erased |
| `InFlight.AckedAbsent` | queue_stimulus/controller.cc:115-135 | an acknowledgement for a number not in flight leaves the list unchanged, sorted or not |
| `InFlight.AckedPresent` | rtt_stimulus/controller.cc:107-109 | in a sorted list the entry carrying the acknowledged number, wherever it stands, is the one erased, and the rest keep their order |
| `InFlight.AckedSorted` | capacity_stimulus/controller.cc:114-126 | the scan keeps a sorted list sorted |
| `InFlight.AckedRemovesKey` | capacity_stimulus/controller.cc:116-120 | after the scan a sorted list no longer holds the acknowledged number |
| `InFlight.AckedIdempotent` | capacity_stimulus/controller.cc:116-122 | on a sorted list a duplicate acknowledgement removes nothing more |
| `InFlight.AppendSorted` | capacity_stimulus/controller.cc:82 | appending a datagram numbered above the back keeps the list sorted |
| `InFlight.DropSorted` | capacity_stimulus/controller.cc:108-112 | dropping datagrams from the front keeps the list sorted |
| `Unsigned.Sub64` | rtt_stimulus/controller.cc:101 | `uint64_t` subtraction: the true difference when it is non-negative, otherwise the difference plus 2^64; adding the subtrahend back modulo 2^64 gives the minuend |
| `Unsigned.Wrap32` | src/timerfd.cc:15 | reduction to `unsigned int`: identity on values that fit, otherwise congruent modulo 2^32 |
| `Unsigned.Mul32` | src/timerfd.cc:15 | `unsigned int` product equals the true product when it fits |
| `Unsigned.Sub32` | src/timerfd.cc:15 | `unsigned int` difference equals the true difference when non-negative |
| `Timerfd.Split` | src/timerfd.cc:14-15 | whole seconds are `ms / 1000`; nanoseconds are a multiple of 1,000,000 below 1,000,000,000, so the 32-bit product does not wrap; the split reads back as the same millisecond count |
| `Timerfd.SplitToMs` | src/timerfd.cc:14-15 | conversely, splitting the millisecond count of a well-formed timespec gives that timespec back |
| `Timerfd.Arm` | src/timerfd.cc:12-24 | the first expiry and the interval are both split this way and both read back as the requested millisecond counts |
| `CapacityProbe.LostPrefix` | capacity_stimulus/controller.cc:108 | the number of datagrams the loss loop pops: every popped datagram was sent more than REORDER = 20 ms before the acknowledged one, and the first one kept was not |
| `CapacityProbe.Backoff` | capacity_stimulus/controller.cc:110-111 | after k losses a window above MIN_WIN = 20 drops by k but not below 20; a window at 20 stays |
| `CapacityProbe.Raise` | capacity_stimulus/controller.cc:118-119 | an acknowledgement grows the window by at most one, never past MAX_WIN = 200, and leaves it unchanged only once it has reached 200 |
| `CapacityProbe.ContractConstants` | capacity_stimulus/controller.cc:33-134 | `payload_size()` is 1388 bytes, `timer_period()` is 0 (no timer) and `timeout_ms()` is -1 (no timeout) |
| `CapacityProbe.Controller.constructor` | capacity_stimulus/controller.cc:15-19 | a new controller has window 20, nothing in flight, no baseline and an empty log |
| `CapacityProbe.Controller.WindowIsOpen` | capacity_stimulus/controller.cc:50-53 | open when fewer datagrams are in flight than the window; so always open below 20 in flight and always closed at 200 or more |
| `CapacityProbe.Controller.DatagramWasSent` | capacity_stimulus/controller.cc:82 | the datagram is appended at the back; the window and the log are unchanged; a sorted list stays sorted when the number is above the back |
| `CapacityProbe.Controller.EvictLost` | capacity_stimulus/controller.cc:108-112 | the loop pops exactly `LostPrefix` datagrams from the front and applies `Backoff` for them; the window stays in [20, 200]; `defined` is false exactly when the source would read the front of an empty list |
| `CapacityProbe.Controller.RemoveAcked` | capacity_stimulus/controller.cc:114-126 | the scan leaves `Acked` of the list; the window is raised (up to 200) exactly when an entry was erased |
| `CapacityProbe.Controller.AckReceived` | capacity_stimulus/controller.cc:86-127 | the delivery time against the first acknowledgement's receive time is logged; the list becomes the scan of what the loss loop kept and the window `Backoff` then `Raise` if found; the window stays in [20, 200]; an acknowledgement for a number not in flight never raises it; a sorted list stays sorted and loses the acknowledged number |
| `CapacityScenarios.ReorderLoss` | capacity_stimulus/controller.cc:108-126 | sends of 1, 2, 3 at 0, 5, 30 ms; the ack of 2 raises the window to 21; the ack of 3 judges 1 lost and removes 3: window 21, nothing left in flight |
| `CapacityScenarios.DuplicateAck` | capacity_stimulus/controller.cc:114-126 | a repeated acknowledgement raises the window only once |
| `CapacityScenarios.EmptyFront` | capacity_stimulus/controller.cc:108 | an acknowledgement with nothing in flight, and one whose loss rule drops the only datagram, are the undefined cases; the window stays at 20 |
| `QueueProbe.ContractConstants` | queue_stimulus/controller.cc:32-143 | `payload_size()` is 1388 bytes, `timer_period()` is 2000 ms (the round length) and `timeout_ms()` is -1 |
| `QueueProbe.Max` | queue_stimulus/controller.cc:125-126 | the updated maximum is one of the two values and bounds both |
| `QueueProbe.Controller.constructor` | queue_stimulus/controller.cc:11-17 | target window 10, allowance 1, maximum RTT 0, count 0, nothing in flight |
| `QueueProbe.Controller.WindowIsOpen` | queue_stimulus/controller.cc:49-52 | open when the round's count is below the allowance, which implies the count and the in-flight list are below the round's target |
| `QueueProbe.Controller.TimerFires` | queue_stimulus/controller.cc:61-78 | logs (window, datagrams still in flight, maximum RTT); then the target grows by exactly 10, the allowance is 1, maximum RTT and count are 0 and nothing is in flight; allowance <= target and count >= list length hold |
| `QueueProbe.Controller.DatagramWasSent` | queue_stimulus/controller.cc:92-93 | the count grows by one and the datagram is appended; nothing else changes; a send the window allowed keeps count <= allowance |
| `QueueProbe.Controller.AckReceived` | queue_stimulus/controller.cc:115-135 | the list becomes `Acked`; when nothing was erased neither the list nor anything else changes; on a match during the ramp the count drops by one and the allowance grows by one; on a match after it the maximum RTT becomes the larger of itself and this RTT; the target never changes; allowance <= target, count >= list length and count <= allowance are preserved |
| `QueueScenarios.OneRound` | queue_stimulus/controller.cc:115-127 | nine ramp acknowledgements take the allowance to 10; the next one records an RTT of 40 as the maximum; the timer then logs (10, 0, 40) and sets the target to 20 |
| `RttProbe.ContractConstants` | rtt_stimulus/controller.cc:29-123 | `payload_size()` is 0 (the caller sizes payloads), `timer_period()` is 0 and `timeout_ms()` is -1 |
| `RttProbe.Controller.constructor` | rtt_stimulus/controller.cc:11-15 | nothing in flight and an empty log |
| `RttProbe.Controller.WindowIsOpen` | rtt_stimulus/controller.cc:46-49 | with a window of 1, sending is allowed exactly when nothing is in flight |
| `RttProbe.Controller.DatagramWasSent` | rtt_stimulus/controller.cc:78 | the datagram is appended at the back; the log is unchanged; a sorted list stays sorted when the number is above the back |
| `RttProbe.Controller.AckReceived` | rtt_stimulus/controller.cc:82-116 | exactly one RTT sample, ack time minus send time on `uint64_t`, is logged whether or not the datagram is in flight; the list becomes `Acked`; a sorted list stays sorted and loses the acknowledged number |
| `RttProbe.PingPong` | rtt_stimulus/controller.cc:46-115 | after a send on a fresh controller the window is closed; after its acknowledgement it is open again, and the logged sample is ack time minus send time (send at 100 and ack at 140 logs 40) |

## Left out

- The debug flag of every constructor and all `cerr` output (including its `timestamp_ms()` calls): diagnostics only.
- Log-file creation (`time`, `localtime`, `strftime`, `ofstream`): I/O. The logs are modelled as sequences of records, not as formatted text.
- `timer_fires` of the capacity and RTT probes: it only writes debug output and changes no state, so the model has no member for it.
- The queue probe's floating-point loss rate: the round summary records its integer numerator (datagrams still in flight) next to the window, its denominator.
- The capacity probe's baseline receive time is a function-local `static` in the source, shared by every controller of the process and set once per process; the model keeps one per controller.
- QueueProbe.Controller.TimerFires: the target window is an unbounded `nat`; the 32-bit `unsigned int` wrap after about 429 million rounds is not modelled.
- QueueProbe.Controller.DatagramWasSent: the datagram count is an unbounded `nat`; its 32-bit wrap after 2^32 sends within one round is not modelled.
- CapacityProbe.LostPrefix: `send_timestamp + REORDER` is compared as an unbounded integer; its `uint64_t` wrap for send times within 20 of 2^64 is not modelled.
- The `Timerfd` constructor, `timerfd_settime`, `is_disarmed` and `expirations`: system calls; only the arithmetic of `arm` is modelled.
- The sender loop, sockets and the wire encoding of datagrams and acknowledgements are not part of this model.
