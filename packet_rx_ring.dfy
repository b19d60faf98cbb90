/** The consumer side of a PACKET_RX_RING: the process reads the slot at its
    cursor `rxring_offset` once the kernel has handed it over
    (TP_STATUS_USER), and gives it back by clearing the status word. The
    kernel is an explicit environment step, KernelDeliver. */
module PacketRxRing {
  import opened CLib
  import opened Bits
  import opened Syscalls
  import opened PacketRing

  /** What one call of `process_rx` yields. NotReady: the slot is not the
      process's yet and poll() returned, so `process_rx` would poll again.
      Interrupted and PollError: poll() failed, NULL is returned. Incomplete:
      TP_STATUS_COPY is set, NULL is returned. Packet: the packet's address
      and whether TP_STATUS_LOSING warned about dropped packets. */
  datatype RxOutcome = NotReady | Interrupted | PollError | Incomplete | Packet(address: nat, dropped: bool)

  /** The result of one wait on poll() while the slot is still the kernel's. */
  function RxWait(poll: PollOutcome): (r: RxOutcome)
    ensures r != Incomplete && !r.Packet?
    ensures r == NotReady <==> poll == PollReturned
  {
    match poll
    case PollReturned => NotReady
    case PollInterrupted => Interrupted
    case PollFailed => PollError
  }

  /** The ring as a value: its slots and the cursor. */
  datatype RxState = RxState(slots: seq<Slot>, cursor: nat)

  predicate WellFormed(st: RxState)
  {
    |st.slots| == CONF_RING_FRAMES && st.cursor < CONF_RING_FRAMES
  }

  /** `process_rx_release`: the cursor slot goes back to the kernel and the
      cursor moves on. */
  function Release(st: RxState): (r: RxState)
    requires WellFormed(st)
    ensures WellFormed(r)
    ensures r.slots[st.cursor].status == TP_STATUS_KERNEL
    ensures r.slots[st.cursor] == st.slots[st.cursor].(status := TP_STATUS_KERNEL)
    ensures forall i :: 0 <= i < CONF_RING_FRAMES && i != st.cursor ==> r.slots[i] == st.slots[i]
    ensures r.cursor == (st.cursor + 1) % CONF_RING_FRAMES
  {
    RxState(st.slots[st.cursor := st.slots[st.cursor].(status := TP_STATUS_KERNEL)], NextCursor(st.cursor))
  }

  /** n releases in a row. */
  function ReleaseN(st: RxState, n: nat): (r: RxState)
    requires WellFormed(st)
    ensures WellFormed(r)
  {
    if n == 0 then st else Release(ReleaseN(st, n - 1))
  }

  /** `r` is the ring `st` after n releases: the n slots from the cursor on
      are the kernel's, every other slot is as it was, and the cursor moved
      n slots. */
  predicate Released(st: RxState, n: nat, r: RxState)
    requires WellFormed(st) && WellFormed(r)
  {
    r.cursor == (st.cursor + n) % CONF_RING_FRAMES &&
    forall i :: 0 <= i < CONF_RING_FRAMES ==>
      r.slots[i] == if Distance(st.cursor, i) < n then st.slots[i].(status := TP_STATUS_KERNEL) else st.slots[i]
  }

  /** One release more hands the next slot to the kernel. */
  lemma ReleaseStep(st: RxState, n: nat, prev: RxState)
    requires WellFormed(st) && WellFormed(prev) && 1 <= n <= CONF_RING_FRAMES
    requires Released(st, n - 1, prev)
    ensures Released(st, n, Release(prev))
  {
    var c := prev.cursor;
    var next := Release(prev);
    DistanceOfAdvance(st.cursor, n - 1);
    forall i | 0 <= i < CONF_RING_FRAMES
      ensures next.slots[i] ==
        if Distance(st.cursor, i) < n then st.slots[i].(status := TP_STATUS_KERNEL) else st.slots[i]
    {
      if Distance(st.cursor, i) == n - 1 {
        DistanceIdentifies(st.cursor, i, n - 1);
      }
    }
    NextAfter(st.cursor, n - 1);
  }

  /** After n <= CONF_RING_FRAMES releases the n slots from the cursor on are
      kernel-owned, the others are untouched, and the cursor moved n slots. */
  lemma {:induction false} ReleaseNEffect(st: RxState, n: nat)
    requires WellFormed(st) && n <= CONF_RING_FRAMES
    ensures Released(st, n, ReleaseN(st, n))
  {
    if n == 0 {
      assert (st.cursor + 0) % CONF_RING_FRAMES == st.cursor;
    } else {
      ReleaseNEffect(st, n - 1);
      ReleaseStep(st, n, ReleaseN(st, n - 1));
    }
  }

  /** CONF_RING_FRAMES releases give every slot back to the kernel and bring
      the cursor back to its start. */
  lemma ReleaseFullCircle(st: RxState)
    requires WellFormed(st)
    ensures ReleaseN(st, CONF_RING_FRAMES).cursor == st.cursor
    ensures forall i :: 0 <= i < CONF_RING_FRAMES ==>
      ReleaseN(st, CONF_RING_FRAMES).slots[i].status == TP_STATUS_KERNEL
  {
    ReleaseNEffect(st, CONF_RING_FRAMES);
    DivModUnique(st.cursor + CONF_RING_FRAMES, CONF_RING_FRAMES, 1, st.cursor);
  }

  /** The mmap()ed receive ring of one packet socket together with the
      process's cursor into it. */
  class RxRing {
    /** log2 of the page size: getpagesize() is a power of two. */
    const pageShift: nat
    const pageSize: nat
    /** Address the ring was mapped at. */
    const ringAddress: nat
    const slots: array<Slot>
    /** `rxring_offset`. */
    var cursor: nat

    ghost predicate Valid()
      reads this
    {
      slots.Length == CONF_RING_FRAMES && cursor < CONF_RING_FRAMES &&
      pageSize == Pow2(pageShift) && ringAddress % pageSize == 0
    }

    ghost function State(): RxState
      reads this, slots
    {
      RxState(slots[..], cursor)
    }

    /** A freshly mapped ring: the kernel owns every slot, the cursor is at
        slot 0. mmap() returns a page-aligned address. */
    constructor (pageShift: nat, ringAddress: nat)
      requires ringAddress % Pow2(pageShift) == 0
      ensures Valid() && fresh(slots) && cursor == 0
      ensures this.pageShift == pageShift && this.ringAddress == ringAddress
      ensures forall i :: 0 <= i < CONF_RING_FRAMES ==>
        slots[i] == Slot(TP_STATUS_KERNEL, 0, Zeros(Pow2(pageShift)))
    {
      this.pageShift := pageShift;
      this.pageSize := Pow2(pageShift);
      this.ringAddress := ringAddress;
      slots := new Slot[CONF_RING_FRAMES](_ => Slot(TP_STATUS_KERNEL, 0, Zeros(Pow2(pageShift))));
      cursor := 0;
    }

    /** `process_rx`, one pass of its loop: the slot at the cursor is handed
        out only when TP_STATUS_USER is set and TP_STATUS_COPY is clear;
        TP_STATUS_LOSING only marks the packet. Nothing is changed. */
    method ProcessRx(poll: PollOutcome) returns (r: RxOutcome)
      requires Valid()
      ensures !HasBit(slots[cursor].status, 0) ==> r == RxWait(poll)
      ensures r == Incomplete <==> HasBit(slots[cursor].status, 0) && HasBit(slots[cursor].status, 1)
      ensures r.Packet? <==> HasBit(slots[cursor].status, 0) && !HasBit(slots[cursor].status, 1)
      ensures r.Packet? ==> r.address == SlotBase(ringAddress, cursor, pageSize) + PKT_OFFSET
      ensures r.Packet? ==> (r.dropped <==> HasBit(slots[cursor].status, 2))
    {
      var header := SlotBase(ringAddress, cursor, pageSize);
      SlotAligned(ringAddress, cursor, pageShift);
      assert BitAnd(header, pageSize - 1) == 0;
      var status := slots[cursor].status;
      assert TP_STATUS_USER == Pow2(0) && TP_STATUS_COPY == Pow2(1) && TP_STATUS_LOSING == Pow2(2);
      FlagTest(status, 0);
      FlagTest(status, 1);
      FlagTest(status, 2);
      if BitAnd(status, TP_STATUS_USER) == 0 {
        r := RxWait(poll);
        return;
      }
      if BitAnd(status, TP_STATUS_COPY) != 0 {
        r := Incomplete;
        return;
      }
      var dropped := BitAnd(status, TP_STATUS_LOSING) != 0;
      r := Packet(header + PKT_OFFSET, dropped);
    }

    /** `process_rx_release`. */
    method ProcessRxRelease()
      requires Valid()
      modifies this, slots
      ensures Valid()
      ensures State() == Release(old(State()))
    {
      slots[cursor] := slots[cursor].(status := TP_STATUS_KERNEL);
      cursor := NextCursor(cursor);
    }

    /** The kernel's side: it fills a slot it owns with a frame and hands it
        over with a status word carrying TP_STATUS_USER. */
    method KernelDeliver(i: nat, status: nat, tpLen: nat, frame: seq<Byte>)
      requires Valid() && i < CONF_RING_FRAMES
      requires slots[i].status == TP_STATUS_KERNEL && HasBit(status, 0)
      modifies slots
      ensures Valid() && cursor == old(cursor)
      ensures slots[..] == old(slots[..])[i := Slot(status, tpLen, frame)]
    {
      slots[i] := Slot(status, tpLen, frame);
    }
  }
}
