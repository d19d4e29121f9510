/**
 * The USB block's memory-mapped register window: 32-bit words at byte offsets
 * from the mapped base, accessed only through readl, writel and RMWREG32, and
 * the bounded countdown poll both programs use to wait for a hardware handshake.
 */
module RegisterFile {
  import opened Bits

  /** The window the programs map: `mmap(NULL, 0x40000, ...)`. */
  const REGION_SIZE: nat := 0x40000

  /** Every poll loop starts with `i = 1000`. */
  const POLL_LIMIT: nat := 1000

  /** Register contents by byte offset from the mapped base. */
  type RegMap = map<nat, bv32>

  /** A 32-bit register the window provides. */
  predicate Mapped(off: nat)
  {
    off < REGION_SIZE && off % 4 == 0
  }

  /** Every word of the window has a value. */
  ghost predicate Covers(m: RegMap)
  {
    forall off :: Mapped(off) ==> off in m
  }

  /** What the programs do besides register accesses that the model records. */
  datatype Event =
    | EnableClk(port: int, internal: int, enable: int)  // a clock-enable request
    | TimeoutReported(polled: nat)                      // a "read ... timeout" message

  /**
   * How a countdown poll ended: how many reads it made, whether the last read saw
   * the bit clear (the loop's `break`), and the value the counter `i` was left with.
   */
  datatype PollOutcome = PollOutcome(count: nat, cleared: bool, counter: int)

  /**
   * The value the k-th read of a polled register returns: hardware supplies the
   * values in `feed` in order; once they run out the register keeps `stored`.
   */
  function FeedRead(feed: seq<bv32>, stored: bv32, k: nat): bv32
  {
    if k < |feed| then feed[k] else stored
  }

  /**
   * The poll `i = 1000; while (i--) if ((readl(r) & (1<<bit)) == 0) break;`:
   * it stops at the first read that sees the bit clear and makes at most 1000 reads;
   * the counter is 1000 minus the reads when it broke out, and -1 when it ran out.
   */
  predicate IsPollOutcome(o: PollOutcome, feed: seq<bv32>, stored: bv32, bit: BitIndex)
  {
    && o.count <= POLL_LIMIT
    && (forall k :: 0 <= k < o.count - (if o.cleared then 1 else 0) ==> Bit(FeedRead(feed, stored, k), bit))
    && (o.cleared ==> 1 <= o.count && !Bit(FeedRead(feed, stored, o.count - 1), bit))
    && (!o.cleared ==> o.count == POLL_LIMIT)
    && o.counter == (if o.cleared then POLL_LIMIT - o.count else -1)
  }

  /** The loop itself, with the C post-decrement `while (i--)` written out. */
  method CountdownPoll(feed: seq<bv32>, stored: bv32, bit: BitIndex) returns (o: PollOutcome)
    ensures IsPollOutcome(o, feed, stored, bit)
  {
    var i: int := POLL_LIMIT;
    var count: nat := 0;
    while true
      invariant 0 <= i <= POLL_LIMIT && count == POLL_LIMIT - i
      invariant forall k :: 0 <= k < count ==> Bit(FeedRead(feed, stored, k), bit)
      decreases i
    {
      var test := i;
      i := i - 1;
      if test == 0 {
        break;
      }
      var v := FeedRead(feed, stored, count);
      count := count + 1;
      if !Bit(v, bit) {
        o := PollOutcome(count, true, i);
        return;
      }
    }
    o := PollOutcome(count, false, i);
  }

  /**
   * The message test after every poll, `if (i==0) printf("... timeout")`, as written:
   * it fires when the counter ends at 0.
   */
  predicate TimeoutMessage(o: PollOutcome)
  {
    o.counter == 0
  }

  /** What the message evidently means to report: the bit was never seen clear. */
  predicate TimedOut(o: PollOutcome)
  {
    !o.cleared
  }

  /**
   * As written, the message appears exactly when the bit is first seen clear on
   * the 1000th read, a poll that succeeded.
   */
  lemma TimeoutMessageAsWritten(o: PollOutcome, feed: seq<bv32>, stored: bv32, bit: BitIndex)
    requires IsPollOutcome(o, feed, stored, bit)
    ensures TimeoutMessage(o) <==> o.cleared && o.count == POLL_LIMIT
  {
  }

  /**
   * The feed makes a poll see the bit set on its first 999 reads and clear on the
   * 1000th: the only feed for which the message prints.
   */
  ghost predicate ClearsOnLastRead(feed: seq<bv32>, stored: bv32, bit: BitIndex)
  {
    && (forall k :: 0 <= k < POLL_LIMIT - 1 ==> Bit(FeedRead(feed, stored, k), bit))
    && !Bit(FeedRead(feed, stored, POLL_LIMIT - 1), bit)
  }

  /** What a poll of bit `bit` at `off` prints, in terms of the feed: the message, or nothing. */
  ghost function PollTrace(feed: seq<bv32>, stored: bv32, off: nat, bit: BitIndex): seq<Event>
  {
    if ClearsOnLastRead(feed, stored, bit) then [TimeoutReported(off)] else []
  }

  /** The message test as written, in terms of the feed alone. */
  lemma {:induction false} TimeoutMessageIffClearsOnLastRead(o: PollOutcome, feed: seq<bv32>, stored: bv32, bit: BitIndex)
    requires IsPollOutcome(o, feed, stored, bit)
    ensures TimeoutMessage(o) <==> ClearsOnLastRead(feed, stored, bit)
  {
    TimeoutMessageAsWritten(o, feed, stored, bit);
  }

  /** The intended reading: a poll times out exactly when none of its 1000 reads sees the bit clear. */
  lemma {:induction false} TimedOutIffNeverClear(o: PollOutcome, feed: seq<bv32>, stored: bv32, bit: BitIndex)
    requires IsPollOutcome(o, feed, stored, bit)
    ensures TimedOut(o) <==> forall k :: 0 <= k < POLL_LIMIT ==> Bit(FeedRead(feed, stored, k), bit)
  {
    if !TimedOut(o) {
      var last := o.count - 1;
      assert 0 <= last < POLL_LIMIT && !Bit(FeedRead(feed, stored, last), bit);
    }
  }

  /** The contract of a poll fixes its outcome: the feed and the stored word determine it. */
  lemma {:induction false} PollOutcomeUnique(o1: PollOutcome, o2: PollOutcome, feed: seq<bv32>, stored: bv32, bit: BitIndex)
    requires IsPollOutcome(o1, feed, stored, bit) && IsPollOutcome(o2, feed, stored, bit)
    ensures o1 == o2
  {
    // each poll's clearing read is one the other poll must also have stopped at
    if o1.cleared {
      assert !Bit(FeedRead(feed, stored, o1.count - 1), bit);
    }
    if o2.cleared {
      assert !Bit(FeedRead(feed, stored, o2.count - 1), bit);
    }
  }

  /**
   * The reads a poll makes from its k-th read on, the first k having seen the bit
   * set: up to and including the first read that sees it clear, 1000 at most.
   */
  function ReadsFrom(feed: seq<bv32>, stored: bv32, bit: BitIndex, k: nat): nat
    requires k <= POLL_LIMIT
    decreases POLL_LIMIT - k
  {
    if k == POLL_LIMIT then POLL_LIMIT
    else if !Bit(FeedRead(feed, stored, k), bit) then k + 1
    else ReadsFrom(feed, stored, bit, k + 1)
  }

  /** The number of reads a poll makes, in terms of the feed alone. */
  function PollReads(feed: seq<bv32>, stored: bv32, bit: BitIndex): nat
  {
    ReadsFrom(feed, stored, bit, 0)
  }

  /** What is left of the feed once a poll has made its reads. */
  function FeedAfterPoll(feed: seq<bv32>, stored: bv32, bit: BitIndex): (rest: seq<bv32>)
    ensures |rest| <= |feed| && rest == feed[|feed| - |rest|..]
  {
    var n := PollReads(feed, stored, bit);
    if n < |feed| then feed[n..] else []
  }

  lemma {:induction false} ReadsFromOutcome(o: PollOutcome, feed: seq<bv32>, stored: bv32, bit: BitIndex, k: nat)
    requires IsPollOutcome(o, feed, stored, bit)
    requires k <= POLL_LIMIT && (o.cleared ==> k < o.count)
    ensures ReadsFrom(feed, stored, bit, k) == o.count
    decreases POLL_LIMIT - k
  {
    if k < POLL_LIMIT && Bit(FeedRead(feed, stored, k), bit) {
      ReadsFromOutcome(o, feed, stored, bit, k + 1);
    }
  }

  /** Every outcome of a poll made exactly `PollReads` reads. */
  lemma {:induction false} PollReadsOfOutcome(o: PollOutcome, feed: seq<bv32>, stored: bv32, bit: BitIndex)
    requires IsPollOutcome(o, feed, stored, bit)
    ensures PollReads(feed, stored, bit) == o.count
  {
    ReadsFromOutcome(o, feed, stored, bit, 0);
  }

  /**
   * The register file of one USB block. `regs` holds the last word stored at each
   * offset; `pollFeed` holds the values hardware returns to polling reads, in order;
   * `events` records clock requests and timeout messages.
   */
  class UsbBlock {
    var regs: RegMap
    var pollFeed: seq<bv32>
    var events: seq<Event>

    ghost predicate Valid()
      reads this
    {
      Covers(regs)
    }

    constructor (initial: RegMap, feed: seq<bv32>)
      requires Covers(initial)
      ensures Valid()
      ensures regs == initial && pollFeed == feed && events == []
    {
      regs := initial;
      pollFeed := feed;
      events := [];
    }

    /** `readl(base + off)`. */
    method Readl(off: nat) returns (v: bv32)
      requires Valid() && Mapped(off)
      ensures v == regs[off]
    {
      v := regs[off];
    }

    /** `writel(v, base + off)`: that word becomes v, nothing else changes. */
    method Writel(v: bv32, off: nat)
      requires Valid() && Mapped(off)
      modifies this
      ensures Valid()
      ensures regs == old(regs)[off := v]
      ensures pollFeed == old(pollFeed) && events == old(events)
    {
      regs := regs[off := v];
    }

    /** `RMWREG32(base + off, start, width, val)`. */
    method Rmw32(off: nat, start: BitIndex, width: BitIndex, val: bv32)
      requires Valid() && Mapped(off)
      modifies this
      ensures Valid()
      ensures regs == old(regs)[off := RmwValue(old(regs)[off], start, width, val)]
      ensures pollFeed == old(pollFeed) && events == old(events)
    {
      var cur := Readl(off);
      Writel(RmwValue(cur, start, width, val), off);
    }

    /** Appends one event to the trace. */
    method Record(e: Event)
      modifies this
      ensures regs == old(regs) && pollFeed == old(pollFeed)
      ensures events == old(events) + [e]
    {
      events := events + [e];
    }

    /**
     * A countdown poll of bit `bit` of the register at `off`, followed by the
     * timeout message test. Reads take their values from the feed, which loses
     * the values the poll consumed; no register is written.
     */
    method PollBitClear(off: nat, bit: BitIndex) returns (o: PollOutcome)
      requires Valid() && Mapped(off)
      modifies this
      ensures Valid()
      ensures IsPollOutcome(o, old(pollFeed), regs[off], bit)
      ensures regs == old(regs)
      ensures pollFeed == old(pollFeed)[if o.count < |old(pollFeed)| then o.count else |old(pollFeed)|..]
      ensures events == old(events) + (if TimeoutMessage(o) then [TimeoutReported(off)] else [])
    {
      o := CountdownPoll(pollFeed, regs[off], bit);
      pollFeed := pollFeed[if o.count < |pollFeed| then o.count else |pollFeed|..];
      if TimeoutMessage(o) {
        Record(TimeoutReported(off));
      }
    }
  }

  /** A register stuck with the bit set: the poll gives up after 1000 reads and, as written, prints nothing. */
  lemma StuckBitGoesUnreported(o: PollOutcome, stored: bv32, bit: BitIndex)
    requires Bit(stored, bit)
    requires IsPollOutcome(o, [], stored, bit)
    ensures o.count == POLL_LIMIT && o.counter == -1
    ensures TimedOut(o) && !TimeoutMessage(o)
  {
  }

  /** A bit that clears on the 1000th read: the poll succeeded, yet the message prints. */
  lemma LateClearIsReported(o: PollOutcome, bit: BitIndex)
    requires IsPollOutcome(o, seq(POLL_LIMIT - 1, _ => 0xFFFF_FFFF) + [0], 0, bit)
    ensures o.count == POLL_LIMIT && o.cleared
    ensures !TimedOut(o) && TimeoutMessage(o)
  {
    var feed := seq(POLL_LIMIT - 1, _ => 0xFFFF_FFFF) + [0];
    assert forall k :: 0 <= k < POLL_LIMIT - 1 ==> Bit(FeedRead(feed, 0, k), bit);
    assert !Bit(FeedRead(feed, 0, POLL_LIMIT - 1), bit);
  }

  /** In trace terms: a poll of a register stuck with the bit set, and no feed, traces nothing. */
  lemma StuckBitTracesNothing(stored: bv32, off: nat, bit: BitIndex)
    requires Bit(stored, bit)
    ensures PollTrace([], stored, off, bit) == []
  {
  }

  /** In trace terms: a bit first seen clear on the 1000th read traces the timeout message. */
  lemma {:induction false} LateClearTracesMessage(off: nat, bit: BitIndex)
    ensures PollTrace(seq(POLL_LIMIT - 1, _ => 0xFFFF_FFFF) + [0], 0, off, bit) == [TimeoutReported(off)]
  {
    var feed := seq(POLL_LIMIT - 1, _ => 0xFFFF_FFFF) + [0];
    assert forall k :: 0 <= k < POLL_LIMIT - 1 ==> Bit(FeedRead(feed, 0, k), bit);
    assert !Bit(FeedRead(feed, 0, POLL_LIMIT - 1), bit);
  }
}
