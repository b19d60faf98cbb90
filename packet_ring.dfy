/** Geometry shared by the TPACKET_V1 receive and transmit rings: a ring of
    CONF_RING_FRAMES page-sized slots in one mmap()ed block, a cursor that
    wraps with a power-of-two mask, the status words that say who owns a
    slot, and the teardown order of the socket that owns the ring. */
module PacketRing {
  import opened CLib
  import opened Bits

  /** Number of frames (slots) in the ring. */
  const CONF_RING_FRAMES: nat := 128
  /** CONF_RING_FRAMES == 2^RING_SHIFT, so `CONF_RING_FRAMES - 1` is a mask. */
  const RING_SHIFT: nat := 7

  /** `TPACKET_ALIGN(x)`: round up to a multiple of TPACKET_ALIGNMENT (16). */
  function TpacketAlign(x: nat): (r: nat)
    ensures r % 16 == 0 && x <= r < x + 16
  {
    (x + 15) / 16 * 16
  }

  /** `sizeof(struct tpacket_hdr)` on a 64-bit host (an `unsigned long`
      status word, five 32-bit and two 16-bit fields, padded to 8). */
  const TPACKET_HDR_SIZE: nat := 32
  /** `sizeof(struct sockaddr_ll)`. */
  const SOCKADDR_LL_SIZE: nat := 20
  /** Offset of the received packet from the start of its slot. */
  const PKT_OFFSET: nat := TpacketAlign(TPACKET_HDR_SIZE) + TpacketAlign(SOCKADDR_LL_SIZE)
  /** `TPACKET_HDRLEN`. */
  const TPACKET_HDRLEN: nat := TpacketAlign(TPACKET_HDR_SIZE) + SOCKADDR_LL_SIZE
  /** Offset at which a transmitted payload is copied into its slot. */
  const TX_DATA_OFFSET: nat := TPACKET_HDRLEN - SOCKADDR_LL_SIZE

  // Receive-side status flags.
  const TP_STATUS_KERNEL: nat := 0
  const TP_STATUS_USER: nat := 1
  const TP_STATUS_COPY: nat := 2
  const TP_STATUS_LOSING: nat := 4
  // Transmit-side status values.
  const TP_STATUS_AVAILABLE: nat := 0
  const TP_STATUS_SEND_REQUEST: nat := 1
  const TP_STATUS_SENDING: nat := 2
  const TP_STATUS_WRONG_FORMAT: nat := 4

  /** One frame of the ring: its `tpacket_hdr` status word and `tp_len`, and
      the bytes of the whole page. */
  datatype Slot = Slot(status: nat, tpLen: nat, frame: seq<Byte>)

  /** The flag 2^k is set in `status`: its k-th binary digit is one. */
  predicate HasBit(status: nat, k: nat)
  {
    (status / Pow2(k)) % 2 == 1
  }

  /** The C test `status & 2^k` is non-zero exactly when bit k is set. */
  lemma FlagTest(status: nat, k: nat)
    ensures (BitAnd(status, Pow2(k)) != 0) == HasBit(status, k)
  {
    BitAndFlag(status, k);
  }

  /** The cursor step `(c + 1) & (CONF_RING_FRAMES - 1)`: the successor of c
      modulo the ring size. */
  function NextCursor(c: nat): (n: nat)
    ensures n < CONF_RING_FRAMES
    ensures n == (c + 1) % CONF_RING_FRAMES
  {
    assert Pow2(RING_SHIFT) == CONF_RING_FRAMES;
    BitAndLowMask(c + 1, RING_SHIFT);
    BitAnd(c + 1, CONF_RING_FRAMES - 1)
  }

  /** The cursor after n steps. */
  function Advance(c: nat, n: nat): nat
  {
    if n == 0 then c else NextCursor(Advance(c, n - 1))
  }

  /** Taking the remainder before or after adding one gives the same
      slot. */
  lemma ModSucc(m: nat)
    ensures (m % CONF_RING_FRAMES + 1) % CONF_RING_FRAMES == (m + 1) % CONF_RING_FRAMES
  {
    var q, r := m / CONF_RING_FRAMES, m % CONF_RING_FRAMES;
    assert m + 1 == CONF_RING_FRAMES * q + (r + 1);
    if r + 1 < CONF_RING_FRAMES {
      DivModUnique(m + 1, CONF_RING_FRAMES, q, r + 1);
      DivModUnique(r + 1, CONF_RING_FRAMES, 0, r + 1);
    } else {
      DivModUnique(m + 1, CONF_RING_FRAMES, q + 1, 0);
      DivModUnique(r + 1, CONF_RING_FRAMES, 1, 0);
    }
  }

  /** n steps move the cursor n slots around the ring. */
  lemma {:induction false} AdvanceWraps(c: nat, n: nat)
    requires c < CONF_RING_FRAMES
    ensures Advance(c, n) == (c + n) % CONF_RING_FRAMES
  {
    if n == 0 {
      DivModUnique(c, CONF_RING_FRAMES, 0, c);
    } else {
      AdvanceWraps(c, n - 1);
      var a := Advance(c, n - 1);
      assert Advance(c, n) == (a + 1) % CONF_RING_FRAMES;
      ModSucc(c + n - 1);
    }
  }

  /** One more step from the slot k after c is the slot k + 1 after c. */
  lemma NextAfter(c: nat, k: nat)
    requires c < CONF_RING_FRAMES
    ensures NextCursor((c + k) % CONF_RING_FRAMES) == (c + k + 1) % CONF_RING_FRAMES
  {
    AdvanceWraps(c, k);
    AdvanceWraps(c, k + 1);
  }

  /** After CONF_RING_FRAMES steps the cursor is back where it started. */
  lemma AdvanceFullCircle(c: nat)
    requires c < CONF_RING_FRAMES
    ensures Advance(c, CONF_RING_FRAMES) == c
  {
    AdvanceWraps(c, CONF_RING_FRAMES);
    DivModUnique(c + CONF_RING_FRAMES, CONF_RING_FRAMES, 1, c);
  }

  /** How many cursor steps lead from slot c to slot i. */
  function Distance(c: nat, i: nat): (d: nat)
    ensures d < CONF_RING_FRAMES
  {
    (i - c) % CONF_RING_FRAMES
  }

  /** The slot k steps after c is at distance k from c ... */
  lemma DistanceOfAdvance(c: nat, k: nat)
    requires c < CONF_RING_FRAMES && k < CONF_RING_FRAMES
    ensures Distance(c, (c + k) % CONF_RING_FRAMES) == k
  {
    var i := (c + k) % CONF_RING_FRAMES;
    var q := (c + k) / CONF_RING_FRAMES;
    assert c + k == CONF_RING_FRAMES * q + i;
    DivModUnique(i - c, CONF_RING_FRAMES, -q, k);
  }

  /** ... and it is the only slot at that distance. */
  lemma DistanceIdentifies(c: nat, i: nat, k: nat)
    requires c < CONF_RING_FRAMES && i < CONF_RING_FRAMES && Distance(c, i) == k
    ensures i == (c + k) % CONF_RING_FRAMES
  {
    var q := (i - c) / CONF_RING_FRAMES;
    assert i - c == CONF_RING_FRAMES * q + k;
    DivModUnique(c + k, CONF_RING_FRAMES, -q, i);
  }

  /** Address of the header of slot `offset`: `ring + offset * pagesize`. */
  function SlotBase(ring: nat, offset: nat, page: nat): nat
  {
    ring + offset * page
  }

  /** On a page-aligned ring (mmap() returns one) every slot base passes the
      snippets' assertion `(header & (pagesize - 1)) == 0`. */
  lemma SlotAligned(ring: nat, offset: nat, shift: nat)
    requires ring % Pow2(shift) == 0
    ensures BitAnd(SlotBase(ring, offset, Pow2(shift)), Pow2(shift) - 1) == 0
  {
    var page := Pow2(shift);
    assert ring == page * (ring / page);
    assert SlotBase(ring, offset, page) == page * (ring / page + offset) + 0;
    DivModUnique(SlotBase(ring, offset, page), page, ring / page + offset, 0);
    BitAndLowMask(SlotBase(ring, offset, page), shift);
  }

  /** Distinct slots are disjoint pages, in slot order, and every slot lies
      inside the `CONF_RING_FRAMES * pagesize` bytes of the mapping. */
  lemma SlotsDisjoint(ring: nat, i: nat, j: nat, page: nat)
    requires i < j < CONF_RING_FRAMES && page >= 1
    ensures ring <= SlotBase(ring, i, page)
    ensures SlotBase(ring, i, page) + page <= SlotBase(ring, j, page)
    ensures SlotBase(ring, j, page) + page <= ring + CONF_RING_FRAMES * page
  {
    MulAtLeast(page, j - i);
    assert page * (j - i) == j * page - i * page;
    MulAtLeast(page, CONF_RING_FRAMES - j);
    assert page * (CONF_RING_FRAMES - j) == CONF_RING_FRAMES * page - j * page;
  }

  /** `struct tpacket_req`: the ring layout requested from the kernel. */
  datatype TpacketReq = TpacketReq(blockSize: nat, blockNr: nat, frameSize: nat, frameNr: nat)

  /** The request for `blocks` blocks of `framesPerBlock` page-sized frames
      each; the snippets ask for one block of CONF_RING_FRAMES frames. */
  function TpacketRequest(page: nat, framesPerBlock: nat, blocks: nat): (tp: TpacketReq)
    ensures tp.frameSize == page && tp.blockNr == blocks
    ensures tp.frameNr == framesPerBlock * blocks
    ensures tp.blockSize == tp.frameSize * framesPerBlock
    ensures tp.blockSize * tp.blockNr == tp.frameSize * tp.frameNr
  {
    TpacketReq(framesPerBlock * page, blocks, page, framesPerBlock * blocks)
  }

  /** Bytes mapped for a request: `tp_block_size * tp_block_nr`. */
  function MapLength(tp: TpacketReq): nat
  {
    tp.blockSize * tp.blockNr
  }

  /** The snippets' request maps exactly the CONF_RING_FRAMES slot pages that
      `exit_packetsock` unmaps. */
  lemma SnippetRingLength(page: nat)
    ensures MapLength(TpacketRequest(page, CONF_RING_FRAMES, 1)) == CONF_RING_FRAMES * page
    ensures TpacketRequest(page, CONF_RING_FRAMES, 1).frameNr == CONF_RING_FRAMES
  {
  }

  /** The system calls that `exit_packetsock` makes, in order. */
  datatype ExitStep = Munmap(length: nat) | CloseFd

  /** `exit_packetsock`: unmap the ring, then close the socket; the first
      failure returns 1 and skips the rest. The outcomes of munmap() and
      close() are parameters; `steps` is the calls made. */
  function ExitPacketsock(page: nat, munmapOk: bool, closeOk: bool): (r: (int, seq<ExitStep>))
    ensures r.0 == 0 <==> munmapOk && closeOk
    ensures r.0 == 0 || r.0 == 1
    ensures |r.1| >= 1 && r.1[0] == Munmap(CONF_RING_FRAMES * page)
    ensures CloseFd in r.1 <==> munmapOk
  {
    if !munmapOk then (1, [Munmap(CONF_RING_FRAMES * page)])
    else if !closeOk then (1, [Munmap(CONF_RING_FRAMES * page), CloseFd])
    else (0, [Munmap(CONF_RING_FRAMES * page), CloseFd])
  }
}
