/**
 * The arithmetic of `Timerfd::arm`: a millisecond count, held in a 32-bit
 * `unsigned int`, is split into whole seconds and the remaining nanoseconds
 * for `struct itimerspec`.
 */
module Timerfd {
  import opened Unsigned

  const MS_PER_S: nat := 1000
  const NS_PER_MS: nat := 1_000_000
  const NS_PER_S: nat := 1_000_000_000

  /** `struct timespec`: seconds and nanoseconds. */
  datatype TimeSpec = TimeSpec(sec: nat, nsec: nat)

  /** `struct itimerspec`: first expiry and repeat interval. */
  datatype ITimerSpec = ITimerSpec(value: TimeSpec, interval: TimeSpec)

  /** A well-formed timespec as `arm` produces it: whole milliseconds below one second. */
  predicate WholeMs(t: TimeSpec) {
    t.nsec < NS_PER_S && t.nsec % NS_PER_MS == 0
  }

  /** The millisecond count a timespec stands for (the reading back of `Split`). */
  function ToMs(t: TimeSpec): nat {
    t.sec * MS_PER_S + t.nsec / NS_PER_MS
  }

  /** Remainder facts about a millisecond count, kept apart from `Split`. */
  lemma MsParts(ms: nat)
    ensures ms - (ms / MS_PER_S) * MS_PER_S == ms % MS_PER_S
    ensures (ms % MS_PER_S) * NS_PER_MS < NS_PER_S
  {
  }

  /**
   * `s = ms / 1000; ns = (ms - s * 1000) * 1000000`, every operation on
   * `unsigned int`. The intermediate values never wrap: the nanoseconds stay
   * below one second and the split reads back as the same millisecond count.
   */
  function Split(ms: u32): (t: TimeSpec)
    ensures t.sec == ms / MS_PER_S
    ensures WholeMs(t)
    ensures ToMs(t) == ms
  {
    var s: u32 := ms / MS_PER_S;
    MsParts(ms);
    var rem := Sub32(ms, Mul32(s, MS_PER_S));
    var ns := Mul32(rem, NS_PER_MS);
    assert ns == (ms % MS_PER_S) * NS_PER_MS;
    assert ns / NS_PER_MS == ms % MS_PER_S;
    TimeSpec(s, ns)
  }

  /** Splitting is also the inverse of reading back, on well-formed timespecs. */
  lemma SplitToMs(t: TimeSpec)
    requires WholeMs(t) && ToMs(t) < TWO_32
    ensures Split(ToMs(t)) == t
  {
    var q := t.nsec / NS_PER_MS;
    assert t.nsec == q * NS_PER_MS;
    assert q < MS_PER_S;
    var ms := ToMs(t);
    assert ms / MS_PER_S == t.sec && ms % MS_PER_S == q;
  }

  /** The `itimerspec` that `arm(first_exp_ms, interval_ms)` hands to the kernel. */
  function Arm(firstExpMs: u32, intervalMs: u32): (ts: ITimerSpec)
    ensures WholeMs(ts.value) && ToMs(ts.value) == firstExpMs
    ensures WholeMs(ts.interval) && ToMs(ts.interval) == intervalMs
    ensures ts.value.sec == firstExpMs / MS_PER_S && ts.interval.sec == intervalMs / MS_PER_S
  {
    ITimerSpec(Split(firstExpMs), Split(intervalMs))
  }
}
