/** The producer side of a PACKET_TX_RING: the process writes a packet into
    the slot at its cursor `ring_offset` once that slot is
    TP_STATUS_AVAILABLE, marks it TP_STATUS_SEND_REQUEST, moves the cursor
    and notifies the kernel with a zero-length send. The kernel is an
    explicit environment step, KernelSetStatus. */
module PacketTxRing {
  import opened CLib
  import opened Bits
  import opened Syscalls
  import opened PacketRing

  /** `memcpy(frame + off, pkt, |pkt|)`. */
  function CopyAt(frame: seq<Byte>, off: nat, pkt: seq<Byte>): (r: seq<Byte>)
    requires off + |pkt| <= |frame|
    ensures |r| == |frame|
  {
    frame[..off] + pkt + frame[off + |pkt|..]
  }

  /** The copy puts the packet at the offset byte for byte and leaves every
      other byte of the frame as it was. */
  lemma CopyAtPlaces(frame: seq<Byte>, off: nat, pkt: seq<Byte>)
    requires off + |pkt| <= |frame|
    ensures CopyAt(frame, off, pkt)[off..off + |pkt|] == pkt
    ensures forall k :: 0 <= k < |frame| && !(off <= k < off + |pkt|) ==> CopyAt(frame, off, pkt)[k] == frame[k]
  {
  }

  /** What one call of `process_tx` yields: Waiting when the cursor slot is
      not available and poll() returned (so `process_tx` would poll again),
      otherwise the value it returns. */
  datatype TxResult = Waiting | Returned(rc: int)

  /** The result of one wait on poll() while the cursor slot is pending:
      an interrupted wait returns 0, any other failure -1. */
  function TxWait(poll: PollOutcome): (r: TxResult)
    ensures r == Waiting <==> poll == PollReturned
    ensures r == Returned(0) <==> poll == PollInterrupted
    ensures r == Returned(-1) <==> poll == PollFailed
  {
    match poll
    case PollReturned => Waiting
    case PollInterrupted => Returned(0)
    case PollFailed => Returned(-1)
  }

  /** The ring as a value: its slots and the cursor. */
  datatype TxState = TxState(slots: seq<Slot>, cursor: nat)

  /** A ring of CONF_RING_FRAMES slots of `page` bytes each. */
  predicate WellFormed(st: TxState, page: nat)
  {
    |st.slots| == CONF_RING_FRAMES && st.cursor < CONF_RING_FRAMES &&
    forall i :: 0 <= i < CONF_RING_FRAMES ==> |st.slots[i].frame| == page
  }

  /** A packet that fits between the data offset and the end of a slot. */
  predicate Fits(pkt: seq<Byte>, page: nat)
  {
    TX_DATA_OFFSET + |pkt| <= page
  }

  /** The process may write into the cursor slot. */
  predicate CanSubmit(st: TxState)
    requires |st.slots| == CONF_RING_FRAMES && st.cursor < CONF_RING_FRAMES
  {
    st.slots[st.cursor].status == TP_STATUS_AVAILABLE
  }

  /** The slot `s` after `pkt` was written into it. */
  function Written(s: Slot, pkt: seq<Byte>): (r: Slot)
    requires TX_DATA_OFFSET + |pkt| <= |s.frame|
    ensures r.status == TP_STATUS_SEND_REQUEST && r.tpLen == |pkt| && |r.frame| == |s.frame|
  {
    Slot(TP_STATUS_SEND_REQUEST, |pkt|, CopyAt(s.frame, TX_DATA_OFFSET, pkt))
  }

  /** The written slot holds the packet at the data offset. */
  lemma WrittenPayload(s: Slot, pkt: seq<Byte>)
    requires TX_DATA_OFFSET + |pkt| <= |s.frame|
    ensures Written(s, pkt).frame[TX_DATA_OFFSET..TX_DATA_OFFSET + |pkt|] == pkt
  {
    CopyAtPlaces(s.frame, TX_DATA_OFFSET, pkt);
  }

  /** A successful submit: the payload goes into the cursor slot, which is
      marked for sending with `tp_len = |pkt|`, and the cursor moves on. */
  function Submit(st: TxState, page: nat, pkt: seq<Byte>): (r: TxState)
    requires WellFormed(st, page) && CanSubmit(st) && Fits(pkt, page)
    ensures WellFormed(r, page)
    ensures r.slots[st.cursor] == Written(st.slots[st.cursor], pkt)
    ensures forall i :: 0 <= i < CONF_RING_FRAMES && i != st.cursor ==> r.slots[i] == st.slots[i]
    ensures r.cursor == (st.cursor + 1) % CONF_RING_FRAMES
  {
    TxState(st.slots[st.cursor := Written(st.slots[st.cursor], pkt)], NextCursor(st.cursor))
  }

  /** Attempts to submit each packet in turn; a pending cursor slot makes the
      attempt wait without changing anything. */
  function SubmitAll(st: TxState, page: nat, pkts: seq<seq<Byte>>): (r: TxState)
    requires WellFormed(st, page) && forall k :: 0 <= k < |pkts| ==> TX_DATA_OFFSET + |pkts[k]| <= page
    ensures WellFormed(r, page)
    decreases |pkts|
  {
    if pkts == [] then st
    else
      var prev := SubmitAll(st, page, pkts[..|pkts| - 1]);
      if CanSubmit(prev) then Submit(prev, page, pkts[|pkts| - 1]) else prev
  }

  /** Every slot is available: the process owns the whole ring. */
  predicate AllAvailable(st: TxState)
    requires |st.slots| == CONF_RING_FRAMES
  {
    forall i :: 0 <= i < CONF_RING_FRAMES ==> st.slots[i].status == TP_STATUS_AVAILABLE
  }

  /** `r` is the ring `st` after the packets went, in order, into the slots
      from its cursor on: the cursor is |pkts| slots further on, the slot at
      distance d < |pkts| from the old cursor holds packet d, and every other
      slot is as it was. */
  predicate Filled(st: TxState, page: nat, pkts: seq<seq<Byte>>, r: TxState)
    requires WellFormed(st, page) && forall k :: 0 <= k < |pkts| ==> TX_DATA_OFFSET + |pkts[k]| <= page
    requires |r.slots| == CONF_RING_FRAMES
  {
    r.cursor == (st.cursor + |pkts|) % CONF_RING_FRAMES &&
    forall i :: 0 <= i < CONF_RING_FRAMES ==>
      r.slots[i] ==
        if Distance(st.cursor, i) < |pkts| then Written(st.slots[i], pkts[Distance(st.cursor, i)])
        else st.slots[i]
  }

  /** One submit more: if the first n - 1 packets went into the n - 1 slots
      from the cursor of the all-available ring `st`, the n-th goes into the
      next slot. */
  lemma FillStep(st: TxState, page: nat, pkts: seq<seq<Byte>>, prev: TxState)
    requires WellFormed(st, page) && AllAvailable(st) && 1 <= |pkts| <= CONF_RING_FRAMES
    requires forall k :: 0 <= k < |pkts| ==> TX_DATA_OFFSET + |pkts[k]| <= page
    requires WellFormed(prev, page) && Filled(st, page, pkts[..|pkts| - 1], prev)
    ensures CanSubmit(prev)
    ensures Filled(st, page, pkts, Submit(prev, page, pkts[|pkts| - 1]))
  {
    FrontFilled(st, page, pkts, prev);
    var n := |pkts|;
    var c := prev.cursor;
    DistanceOfAdvance(st.cursor, n - 1);
    assert prev.slots[c] == st.slots[c];
    var next := Submit(prev, page, pkts[n - 1]);
    forall i | 0 <= i < CONF_RING_FRAMES
      ensures next.slots[i] ==
        if Distance(st.cursor, i) < n then Written(st.slots[i], pkts[Distance(st.cursor, i)])
        else st.slots[i]
    {
      if i != c && Distance(st.cursor, i) == n - 1 {
        DistanceIdentifies(st.cursor, i, n - 1);
      }
    }
    NextAfter(st.cursor, n - 1);
  }

  /** The slots filled with all but the last packet, read against the
      whole sequence. */
  lemma FrontFilled(st: TxState, page: nat, pkts: seq<seq<Byte>>, prev: TxState)
    requires WellFormed(st, page) && WellFormed(prev, page) && 1 <= |pkts|
    requires forall k :: 0 <= k < |pkts| ==> TX_DATA_OFFSET + |pkts[k]| <= page
    requires Filled(st, page, pkts[..|pkts| - 1], prev)
    ensures forall i :: 0 <= i < CONF_RING_FRAMES ==>
      prev.slots[i] ==
        if Distance(st.cursor, i) < |pkts| - 1 then Written(st.slots[i], pkts[Distance(st.cursor, i)])
        else st.slots[i]
  {
    var front := pkts[..|pkts| - 1];
    forall i | 0 <= i < CONF_RING_FRAMES
      ensures prev.slots[i] ==
        if Distance(st.cursor, i) < |pkts| - 1 then Written(st.slots[i], pkts[Distance(st.cursor, i)])
        else st.slots[i]
    {
      if Distance(st.cursor, i) < |pkts| - 1 {
        assert front[Distance(st.cursor, i)] == pkts[Distance(st.cursor, i)];
      }
    }
  }

  /** The induction step of SubmitAllFills: what holds of all but the
      last packet holds of all of them. */
  lemma SubmitAllStep(st: TxState, page: nat, pkts: seq<seq<Byte>>)
    requires WellFormed(st, page) && AllAvailable(st) && 1 <= |pkts| <= CONF_RING_FRAMES
    requires forall k :: 0 <= k < |pkts| ==> TX_DATA_OFFSET + |pkts[k]| <= page
    requires Filled(st, page, pkts[..|pkts| - 1], SubmitAll(st, page, pkts[..|pkts| - 1]))
    ensures Filled(st, page, pkts, SubmitAll(st, page, pkts))
  {
    var prev := SubmitAll(st, page, pkts[..|pkts| - 1]);
    FillStep(st, page, pkts, prev);
    assert SubmitAll(st, page, pkts) == Submit(prev, page, pkts[|pkts| - 1]);
  }

  /** Starting from an all-available ring, n <= CONF_RING_FRAMES submits fill
      the n slots from the cursor on, in order, and touch no other slot. */
  lemma {:induction false} SubmitAllFills(st: TxState, page: nat, pkts: seq<seq<Byte>>)
    requires WellFormed(st, page) && AllAvailable(st) && |pkts| <= CONF_RING_FRAMES
    requires forall k :: 0 <= k < |pkts| ==> TX_DATA_OFFSET + |pkts[k]| <= page
    ensures Filled(st, page, pkts, SubmitAll(st, page, pkts))
    decreases |pkts|
  {
    var n := |pkts|;
    if n == 0 {
      assert (st.cursor + 0) % CONF_RING_FRAMES == st.cursor;
    } else {
      var front := pkts[..n - 1];
      assert forall k :: 0 <= k < |front| ==> front[k] == pkts[k];
      SubmitAllFills(st, page, front);
      SubmitAllStep(st, page, pkts);
    }
  }

  /** CONF_RING_FRAMES submits into an all-available ring leave every slot
      pending with its packet, bring the cursor back to its start, and the
      next submit has to wait: no pending slot is ever overwritten. */
  lemma Saturation(st: TxState, page: nat, pkts: seq<seq<Byte>>)
    requires WellFormed(st, page) && AllAvailable(st) && |pkts| == CONF_RING_FRAMES
    requires forall k :: 0 <= k < |pkts| ==> TX_DATA_OFFSET + |pkts[k]| <= page
    ensures SubmitAll(st, page, pkts).cursor == st.cursor
    ensures forall i :: 0 <= i < CONF_RING_FRAMES ==>
      SubmitAll(st, page, pkts).slots[i].status == TP_STATUS_SEND_REQUEST
    ensures !CanSubmit(SubmitAll(st, page, pkts))
  {
    SubmitAllFills(st, page, pkts);
    var r := SubmitAll(st, page, pkts);
    DivModUnique(st.cursor + CONF_RING_FRAMES, CONF_RING_FRAMES, 1, st.cursor);
    AllPending(st, page, pkts, r);
  }

  /** A ring filled with CONF_RING_FRAMES packets has every slot pending. */
  lemma AllPending(st: TxState, page: nat, pkts: seq<seq<Byte>>, r: TxState)
    requires WellFormed(st, page) && WellFormed(r, page) && |pkts| == CONF_RING_FRAMES
    requires forall k :: 0 <= k < |pkts| ==> TX_DATA_OFFSET + |pkts[k]| <= page
    requires Filled(st, page, pkts, r)
    ensures forall i :: 0 <= i < CONF_RING_FRAMES ==> r.slots[i].status == TP_STATUS_SEND_REQUEST
  {
    forall i | 0 <= i < CONF_RING_FRAMES
      ensures r.slots[i].status == TP_STATUS_SEND_REQUEST
    {
      assert r.slots[i] == Written(st.slots[i], pkts[Distance(st.cursor, i)]);
    }
  }

  /** The kernel's moves on a slot it owns: a send request is taken up
      (SENDING), completed (AVAILABLE) or refused (WRONG_FORMAT). */
  predicate KernelMay(from: nat, to: nat)
  {
    (from == TP_STATUS_SEND_REQUEST &&
      (to == TP_STATUS_SENDING || to == TP_STATUS_AVAILABLE || to == TP_STATUS_WRONG_FORMAT)) ||
    (from == TP_STATUS_SENDING && (to == TP_STATUS_AVAILABLE || to == TP_STATUS_WRONG_FORMAT))
  }

  /** The mmap()ed transmit ring of one packet socket together with the
      process's cursor into it. */
  class TxRing {
    const pageShift: nat
    const pageSize: nat
    const ringAddress: nat
    const slots: array<Slot>
    /** `ring_offset`. */
    var cursor: nat

    ghost predicate Valid()
      reads this, slots
    {
      slots.Length == CONF_RING_FRAMES && cursor < CONF_RING_FRAMES &&
      pageSize == Pow2(pageShift) && ringAddress % pageSize == 0 &&
      WellFormed(State(), pageSize)
    }

    ghost function State(): TxState
      reads this, slots
    {
      TxState(slots[..], cursor)
    }

    /** A freshly mapped ring: every slot is available and zeroed, the
        cursor is at slot 0. */
    constructor (pageShift: nat, ringAddress: nat)
      requires ringAddress % Pow2(pageShift) == 0
      ensures Valid() && fresh(slots) && cursor == 0 && AllAvailable(State())
      ensures this.pageShift == pageShift && this.ringAddress == ringAddress
      ensures forall i :: 0 <= i < CONF_RING_FRAMES ==>
        slots[i] == Slot(TP_STATUS_AVAILABLE, 0, Zeros(Pow2(pageShift)))
    {
      this.pageShift := pageShift;
      this.pageSize := Pow2(pageShift);
      this.ringAddress := ringAddress;
      slots := new Slot[CONF_RING_FRAMES](_ => Slot(TP_STATUS_AVAILABLE, 0, Zeros(Pow2(pageShift))));
      cursor := 0;
    }

    /** `process_tx`, one pass of its loop. The outcome of poll() and
        whether the notifying sendto() succeeds are parameters; `notified`
        says whether that sendto() was made, which happens only after the
        slot is marked and the cursor moved. */
    method ProcessTx(pkt: seq<Byte>, poll: PollOutcome, sendOk: bool) returns (r: TxResult, notified: bool)
      requires Valid() && Fits(pkt, pageSize)
      modifies this, slots
      ensures Valid()
      ensures old(CanSubmit(State())) ==>
        State() == Submit(old(State()), pageSize, pkt) && notified &&
        r == Returned(if sendOk then 0 else -1)
      ensures !old(CanSubmit(State())) ==>
        State() == old(State()) && !notified && r == TxWait(poll)
    {
      var header := SlotBase(ringAddress, cursor, pageSize);
      SlotAligned(ringAddress, cursor, pageShift);
      assert BitAnd(header, pageSize - 1) == 0;
      if slots[cursor].status != TP_STATUS_AVAILABLE {
        r, notified := TxWait(poll), false;
        return;
      }
      ghost var before := State();
      var frame := CopyAt(slots[cursor].frame, TX_DATA_OFFSET, pkt);
      slots[cursor] := Slot(TP_STATUS_SEND_REQUEST, |pkt|, frame);
      cursor := NextCursor(cursor);
      assert State() == Submit(before, pageSize, pkt);
      notified := true;
      r := Returned(if sendOk then 0 else -1);
    }

    /** The kernel's side: it moves a slot it owns to its next status. */
    method KernelSetStatus(i: nat, status: nat)
      requires Valid() && i < CONF_RING_FRAMES && KernelMay(slots[i].status, status)
      modifies slots
      ensures Valid() && cursor == old(cursor)
      ensures slots[..] == old(slots[..])[i := old(slots[i]).(status := status)]
    {
      slots[i] := slots[i].(status := status);
    }
  }
}
