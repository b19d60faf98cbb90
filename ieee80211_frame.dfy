/** IEEE 802.11 frames as the tool builds, reads, prints and sends them.
    The header the tool lays out in its buffer holds only the destination
    and the source address (12 bytes); the data field follows it. Lengths,
    on the other hand, are computed with the full 30-byte header length
    IEEE_80211_HLEN. */
module Ieee80211Frame {
  import opened CLib
  import opened ExecutionCodes
  import opened Syscalls
  import opened LlFrame

  /** Header, body and frame lengths of an IEEE 802.11 frame. */
  const IEEE_80211_HLEN: nat := 30
  const IEEE_80211_BLEN: nat := 2313
  const IEEE_80211_FRAME_LEN: nat := 2343
  /** `sizeof(ieee80211_header_t)`: two addresses. */
  const HEADER_SIZE: nat := 2 * ETH_ALEN

  /** Payload bytes of the test frame and the length it is sent with. */
  const TEST_DATA_LEN: nat := 10
  const TEST_FRAME_LEN: nat := IEEE_80211_HLEN + TEST_DATA_LEN
  /** The fewest bytes sendto must accept for the test transmit to succeed. */
  const TEST_MIN_SENT: nat := 10

  /** A whole frame is a header and a body. */
  lemma FrameLength()
    ensures IEEE_80211_FRAME_LEN == IEEE_80211_HLEN + IEEE_80211_BLEN
    ensures HEADER_SIZE < IEEE_80211_HLEN
  {
  }

  /** `ieee80211_header_t`. */
  datatype Header = Header(dest: MacAddress, src: MacAddress)

  function EncodeHeader(h: Header): (r: seq<Byte>)
    ensures |r| == HEADER_SIZE
    ensures r[..ETH_ALEN] == h.dest && r[ETH_ALEN..] == h.src
  {
    h.dest + h.src
  }

  function DecodeHeader(b: seq<Byte>): Header
    requires |b| >= HEADER_SIZE
  {
    Header(b[..ETH_ALEN], b[ETH_ALEN..HEADER_SIZE])
  }

  /** A frame as it lies in `ieee80211_buffer_t`: header, then body. */
  function EncodeFrame(h: Header, body: seq<Byte>): (r: seq<Byte>)
    requires |body| <= IEEE_80211_FRAME_LEN - HEADER_SIZE
    ensures HEADER_SIZE <= |r| <= IEEE_80211_FRAME_LEN && r[HEADER_SIZE..] == body
  {
    EncodeHeader(h) + body
  }

  function DecodeFrame(b: seq<Byte>): (r: (Header, seq<Byte>))
    requires |b| >= HEADER_SIZE
    ensures |r.1| == |b| - HEADER_SIZE
  {
    (DecodeHeader(b), b[HEADER_SIZE..])
  }

  /** Encoding then decoding a frame recovers its addresses and its body. */
  lemma FrameRoundTrip(h: Header, body: seq<Byte>)
    requires |body| <= IEEE_80211_FRAME_LEN - HEADER_SIZE
    ensures DecodeFrame(EncodeFrame(h, body)) == (h, body)
  {
    var b := EncodeFrame(h, body);
    assert b[..ETH_ALEN] == h.dest && b[ETH_ALEN..HEADER_SIZE] == h.src;
  }

  /** Every buffer that holds a header is the encoding of what it decodes to. */
  lemma FrameBytesRoundTrip(b: seq<Byte>)
    requires HEADER_SIZE <= |b| <= IEEE_80211_FRAME_LEN
    ensures EncodeFrame(DecodeFrame(b).0, DecodeFrame(b).1) == b
  {
    assert b == b[..ETH_ALEN] + b[ETH_ALEN..HEADER_SIZE] + b[HEADER_SIZE..];
  }

  /** The values `print_ieee80211_frame` logs about the fields the header
      has. */
  datatype Report = Report(info: InfoReport, src: string, dest: string, dataLen: int, data: string)

  /** `ieee80211_frame_t`: the record about the frame and its buffer. */
  class Frame {
    const info: LlFrameInfo
    /** The buffer a read fills: IEEE_80211_FRAME_LEN bytes from the header on. */
    const buffer: array<Byte>

    ghost predicate Valid()
      reads this, info
    {
      buffer.Length == IEEE_80211_FRAME_LEN && info.frameLen <= IEEE_80211_FRAME_LEN
    }

    ghost function Addresses(): Header
      reads this, buffer
      requires buffer.Length == IEEE_80211_FRAME_LEN
    {
      DecodeHeader(buffer[..])
    }

    /** `init_ieee80211_frame` on a frame from `new_ieee80211_frame`: all
        zeros but the two addresses, recorded as TYPE_IEEE_80211 of
        ETH_FRAME_LEN bytes. */
    constructor Init(hSource: MacAddress, hDest: MacAddress, clock: Option<Timeval>)
      ensures Valid() && fresh(info) && fresh(buffer)
      ensures buffer[..] == EncodeFrame(Header(hDest, hSource), Zeros(IEEE_80211_FRAME_LEN - HEADER_SIZE))
      ensures info.frameType == TYPE_IEEE_80211 && info.frameLen == ETH_FRAME_LEN
      ensures info.timestamp == if clock.Some? then clock.value else Timeval(0, 0)
    {
      info := new LlFrameInfo();
      buffer := new Byte[IEEE_80211_FRAME_LEN](_ => 0);
      new;
      var setRc := info.Set(TYPE_IEEE_80211, ETH_FRAME_LEN, clock);
      forall k | 0 <= k < ETH_ALEN {
        buffer[k] := hDest[k];
      }
      forall k | 0 <= k < ETH_ALEN {
        buffer[ETH_ALEN + k] := hSource[k];
      }
      assert buffer[..] == EncodeFrame(Header(hDest, hSource), Zeros(IEEE_80211_FRAME_LEN - HEADER_SIZE));
    }

    /** `read_ieee80211_frame` (socket variant): read() was asked for
        IEEE_80211_FRAME_LEN bytes into the buffer and returned `r`. */
    method Read(r: ReadOutcome, clock: Option<Timeval>) returns (rc: int)
      requires Valid()
      requires r.ReadBytes? ==> |r.bytes| <= IEEE_80211_FRAME_LEN
      modifies buffer, info
      ensures Valid()
      ensures rc == (if r.Count() <= 0 then EX_ERR else EX_OK)
      ensures r.Count() <= 0 ==> unchanged(info) && buffer[..] == old(buffer[..])
      ensures r.Count() > 0 ==> buffer[..] == r.bytes + old(buffer[..])[|r.bytes|..]
      ensures r.Count() > 0 ==> info.frameType == TYPE_IEEE_80211 && info.frameLen == |r.bytes|
      ensures r.Count() > 0 ==>
        info.timestamp == if clock.Some? then clock.value else old(info.timestamp)
    {
      if r.Count() <= 0 {
        rc := EX_ERR;
        return;
      }
      forall k | 0 <= k < |r.bytes| {
        buffer[k] := r.bytes[k];
      }
      assert buffer[..] == r.bytes + old(buffer[..])[|r.bytes|..];
      var setRc := info.Set(TYPE_IEEE_80211, |r.bytes|, clock);
      rc := EX_OK;
    }

    /** `print_ieee80211_frame`: the record, the source and destination
        addresses, and a hex dump of `frame_len - IEEE_80211_HLEN` bytes taken
        from the data field, which starts right after the 12-byte header;
        EX_ERR when `frame_len` is shorter than IEEE_80211_HLEN. */
    method Print() returns (rc: int, report: Report)
      requires Valid()
      ensures rc == (if info.frameLen < IEEE_80211_HLEN then EX_ERR else EX_OK)
      ensures report.info == InfoReport(info.frameType, info.frameLen, TimestampUsecs(info.timestamp))
      ensures report.src == EthAddressText(Addresses().src) && report.dest == EthAddressText(Addresses().dest)
      ensures ParseHex(report.src) == Some(Addresses().src[..])
      ensures ParseHex(report.dest) == Some(Addresses().dest[..])
      ensures |report.src| == |report.dest| == 17
      ensures report.dataLen == info.frameLen - IEEE_80211_HLEN
      ensures rc == EX_ERR ==> report.data == ""
      ensures rc == EX_OK ==>
        report.data == HexDump(buffer[HEADER_SIZE..HEADER_SIZE + info.frameLen - IEEE_80211_HLEN])
      ensures rc == EX_OK ==>
        ParseHex(report.data) == Some(buffer[HEADER_SIZE..HEADER_SIZE + info.frameLen - IEEE_80211_HLEN])
    {
      // print_ll_frame never fails.
      var infoRc, infoReport := info.Print();
      var b := buffer[..];
      var src := EthAddressText(b[ETH_ALEN..HEADER_SIZE]);
      var dest := EthAddressText(b[..ETH_ALEN]);
      EthAddressRoundTrip(b[ETH_ALEN..HEADER_SIZE]);
      EthAddressRoundTrip(b[..ETH_ALEN]);
      var dataLen := info.frameLen - IEEE_80211_HLEN;
      var data := ToCChars(b[HEADER_SIZE..]);
      var hexRc, dump := PrintHexData(data, dataLen);
      if hexRc < 0 {
        rc := EX_ERR;
      } else {
        CharWindow(b, HEADER_SIZE, dataLen);
        rc := EX_OK;
      }
      report := Report(infoReport, src, dest, dataLen, dump);
    }
  }

  /** After a read of at least IEEE_80211_HLEN bytes, the header addresses
      are the first received bytes, and the dump shows the received bytes
      from offset HEADER_SIZE on, leaving out the last
      IEEE_80211_HLEN - HEADER_SIZE of them. */
  lemma DumpWindow(received: seq<Byte>, oldBuffer: seq<Byte>)
    requires IEEE_80211_HLEN <= |received| <= IEEE_80211_FRAME_LEN == |oldBuffer|
    ensures var b := received + oldBuffer[|received|..];
      b[..ETH_ALEN] == received[..ETH_ALEN] && b[ETH_ALEN..HEADER_SIZE] == received[ETH_ALEN..HEADER_SIZE]
    ensures var b := received + oldBuffer[|received|..];
      b[HEADER_SIZE..HEADER_SIZE + |received| - IEEE_80211_HLEN] ==
      received[HEADER_SIZE..|received| - (IEEE_80211_HLEN - HEADER_SIZE)]
  {
  }

  /** The verdict `__tx_ieee80211_test_frame` gives: a send that accepted at
      least TEST_MIN_SENT bytes succeeds, even when it cut the frame short. */
  function TestVerdict(written: int): (rc: int)
    ensures rc == EX_OK <==> written >= TEST_MIN_SENT
  {
    SendVerdict(written, TEST_MIN_SENT)
  }

  /** `__tx_ieee80211_test_frame`: a frame from `hSource` to
      ETH_ADDR_BROADCAST whose body is zero, cut to TEST_FRAME_LEN bytes,
      printed and handed to sendto, whose outcome is `send`. */
  method TxTestFrame(llSap: int, ifIndex: int, hSource: MacAddress, clock: Option<Timeval>, send: SendOutcome)
    returns (rc: int, sent: seq<Byte>, target: SendTarget, report: Report)
    requires send.SendAccepted? ==> send.count <= TEST_FRAME_LEN
    ensures sent == EncodeFrame(Header(ETH_ADDR_BROADCAST, hSource), Zeros(TEST_FRAME_LEN - HEADER_SIZE))
    ensures |sent| == TEST_FRAME_LEN
    ensures target == SendTarget(ifIndex, ETH_ALEN, ETH_ADDR_BROADCAST)
    ensures report.dataLen == TEST_DATA_LEN
    ensures rc == TestVerdict(send.Count())
    ensures rc == EX_OK <==> send.Count() >= TEST_MIN_SENT
  {
    var f := new Frame.Init(hSource, ETH_ADDR_BROADCAST, clock);
    f.info.frameLen := TEST_FRAME_LEN;
    // Printing cannot fail: frame_len is IEEE_80211_HLEN + 10.
    var printRc;
    printRc, report := f.Print();
    target := SendTarget(ifIndex, ETH_ALEN, ETH_ADDR_BROADCAST);
    sent := f.buffer[..f.info.frameLen];
    assert sent == EncodeFrame(Header(ETH_ADDR_BROADCAST, hSource), Zeros(IEEE_80211_FRAME_LEN - HEADER_SIZE))[..TEST_FRAME_LEN];
    rc := TestVerdict(send.Count());
  }

  /** `ieee80211_frame_tx_cb`: transmit the test frame, then sleep for
      `txDelay` microseconds unless the transmit failed. */
  method TxCallback(llSap: int, ifIndex: int, ifMac: MacAddress, txDelay: int, clock: Option<Timeval>, send: SendOutcome)
    returns (rc: int, sleep: Option<int>)
    requires send.SendAccepted? ==> send.count <= TEST_FRAME_LEN
    ensures rc == TestVerdict(send.Count())
    ensures sleep == (if send.Count() >= TEST_MIN_SENT then Some(txDelay) else None)
  {
    var sent, target, report;
    rc, sent, target, report := TxTestFrame(llSap, ifIndex, ifMac, clock, send);
    if rc < 0 {
      sleep := None;
      return;
    }
    sleep := Some(txDelay);
  }

  /** `ieee80211_frame_rx_cb`: read a frame into the shared buffer and print
      it; nothing is printed when the read fails. */
  method RxCallback(f: Frame, r: ReadOutcome, clock: Option<Timeval>) returns (readRc: int, report: Option<Report>)
    requires f.Valid()
    requires r.ReadBytes? ==> |r.bytes| <= IEEE_80211_FRAME_LEN
    modifies f.buffer, f.info
    ensures f.Valid()
    ensures readRc == (if r.Count() <= 0 then EX_ERR else EX_OK)
    ensures report.Some? <==> r.Count() > 0
    ensures report.Some? ==> report.value.info.frameLen == |r.bytes|
    ensures report.Some? && |r.bytes| >= IEEE_80211_HLEN ==>
      report.value.dest == EthAddressText(r.bytes[..ETH_ALEN]) &&
      report.value.src == EthAddressText(r.bytes[ETH_ALEN..HEADER_SIZE])
    ensures report.Some? && |r.bytes| >= IEEE_80211_HLEN ==>
      report.value.data == HexDump(r.bytes[HEADER_SIZE..|r.bytes| - (IEEE_80211_HLEN - HEADER_SIZE)])
    ensures report.Some? && |r.bytes| >= IEEE_80211_HLEN ==>
      ParseHex(report.value.data) == Some(r.bytes[HEADER_SIZE..|r.bytes| - (IEEE_80211_HLEN - HEADER_SIZE)])
  {
    readRc := f.Read(r, clock);
    if readRc < 0 {
      report := None;
      return;
    }
    var printRc, rep := f.Print();
    if |r.bytes| >= IEEE_80211_HLEN {
      DumpWindow(r.bytes, old(f.buffer[..]));
    }
    report := Some(rep);
  }
}
