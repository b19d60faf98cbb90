/** IEEE 802.3 (Ethernet II) frames as the tool builds, reads, prints and
    sends them: a 14-byte header (destination, source, protocol) followed by
    up to ETH_DATA_LEN bytes of payload. */
module Ieee8023Frame {
  import opened CLib
  import opened ExecutionCodes
  import opened Syscalls
  import opened Bits
  import opened LlFrame

  /** Payload bytes of the test frame and the length it is sent with. */
  const TEST_DATA_LEN: nat := 10
  const TEST_FRAME_LEN: nat := ETH_HLEN + TEST_DATA_LEN

  /** `struct ethhdr`, with `h_proto` as the 16-bit number it carries. */
  datatype EthHeader = EthHeader(dest: MacAddress, source: MacAddress, proto: nat)

  /** The header's 14 bytes: the addresses, then `h_proto` in network
      (big-endian) order, as `htons` stores it. */
  function EncodeHeader(h: EthHeader): (r: seq<Byte>)
    requires h.proto < 0x1_0000
    ensures |r| == ETH_HLEN
    ensures r[..ETH_ALEN] == h.dest && r[ETH_ALEN..2 * ETH_ALEN] == h.source
    ensures (r[12] as int) * 256 + r[13] == h.proto
  {
    h.dest + h.source + [h.proto / 256, h.proto % 256]
  }

  /** Reading a header back out of the first 14 bytes of a buffer. */
  function DecodeHeader(b: seq<Byte>): (h: EthHeader)
    requires |b| >= ETH_HLEN
    ensures h.proto < 0x1_0000
  {
    EthHeader(b[..ETH_ALEN], b[ETH_ALEN..2 * ETH_ALEN], (b[12] as int) * 256 + b[13])
  }

  lemma HeaderRoundTrip(h: EthHeader)
    requires h.proto < 0x1_0000
    ensures DecodeHeader(EncodeHeader(h)) == h
  {
  }

  /** Every 14 bytes are the encoding of the header they decode to. */
  lemma HeaderBytesRoundTrip(b: seq<Byte>)
    requires |b| == ETH_HLEN
    ensures EncodeHeader(DecodeHeader(b)) == b
  {
    var p := (b[12] as int) * 256 + b[13];
    DivModUnique(p, 256, b[12], b[13]);
    assert EncodeHeader(DecodeHeader(b)) == b[..ETH_ALEN] + b[ETH_ALEN..2 * ETH_ALEN] + [b[12], b[13]];
  }

  /** A frame as it lies in `ieee8023_frame_buffer_t`: header, then data. */
  function EncodeFrame(h: EthHeader, data: seq<Byte>): (r: seq<Byte>)
    requires h.proto < 0x1_0000 && |data| <= ETH_DATA_LEN
    ensures ETH_HLEN <= |r| <= ETH_FRAME_LEN && r[ETH_HLEN..] == data
  {
    EncodeHeader(h) + data
  }

  /** Splitting a buffer into its header and its data. */
  function DecodeFrame(b: seq<Byte>): (r: (EthHeader, seq<Byte>))
    requires |b| >= ETH_HLEN
    ensures |r.1| == |b| - ETH_HLEN
  {
    (DecodeHeader(b), b[ETH_HLEN..])
  }

  /** Encoding then decoding a frame recovers its header and its data. */
  lemma FrameRoundTrip(h: EthHeader, data: seq<Byte>)
    requires h.proto < 0x1_0000 && |data| <= ETH_DATA_LEN
    ensures DecodeFrame(EncodeFrame(h, data)) == (h, data)
  {
    var b := EncodeFrame(h, data);
    assert b[..ETH_HLEN] == EncodeHeader(h);
    assert b[..ETH_ALEN] == h.dest && b[ETH_ALEN..2 * ETH_ALEN] == h.source;
    assert b[12] == EncodeHeader(h)[12] && b[13] == EncodeHeader(h)[13];
  }

  /** Every buffer of ETH_HLEN to ETH_FRAME_LEN bytes is the encoding of
      what it decodes to. */
  lemma FrameBytesRoundTrip(b: seq<Byte>)
    requires ETH_HLEN <= |b| <= ETH_FRAME_LEN
    ensures EncodeFrame(DecodeFrame(b).0, DecodeFrame(b).1) == b
  {
    HeaderBytesRoundTrip(b[..ETH_HLEN]);
    assert DecodeHeader(b[..ETH_HLEN]) == DecodeHeader(b);
    assert b == b[..ETH_HLEN] + b[ETH_HLEN..];
  }

  /** `h_proto` as a little-endian host reads the stored bytes, which is the
      number `print_ieee8023_frame` logs as the SAP. */
  function HostProto(b: seq<Byte>): (p: nat)
    requires |b| >= ETH_HLEN
    ensures p < 0x1_0000
  {
    b[12] + 256 * (b[13] as int)
  }

  /** The values `print_ieee8023_frame` logs. */
  datatype Report = Report(info: InfoReport, dst: string, src: string, sap: nat, dataLen: int, data: string)

  /** `ieee8023_frame_t`: the record about the frame and its buffer. */
  class Frame {
    const info: LlFrameInfo
    /** `ieee8023_frame_buffer_t`: the header, then ETH_DATA_LEN data bytes. */
    const buffer: array<Byte>

    /** The buffer has its C size, and `frame_len` never claims more bytes
        than it holds. */
    ghost predicate Valid()
      reads this, info
    {
      buffer.Length == ETH_FRAME_LEN && info.frameLen <= ETH_FRAME_LEN
    }

    /** The header stored at the start of the buffer. */
    ghost function Header(): EthHeader
      reads this, buffer
      requires buffer.Length == ETH_FRAME_LEN
    {
      DecodeHeader(buffer[..])
    }

    /** `init_ieee8023_frame`: a zeroed frame whose header carries the two
        addresses and `htons(ETH_P_ALL)` whatever `ll_sap` is, recorded as
        TYPE_IEEE_8023 of ETH_FRAME_LEN bytes. `clock` is what gettimeofday()
        reads (None when it fails; the frame is still returned). */
    constructor Init(llSap: int, hSource: MacAddress, hDest: MacAddress, clock: Option<Timeval>)
      ensures Valid() && fresh(info) && fresh(buffer)
      ensures buffer[..] == EncodeFrame(EthHeader(hDest, hSource, ETH_P_ALL), Zeros(ETH_DATA_LEN))
      ensures info.frameType == TYPE_IEEE_8023 && info.frameLen == ETH_FRAME_LEN
      ensures info.timestamp == if clock.Some? then clock.value else Timeval(0, 0)
    {
      info := new LlFrameInfo();
      buffer := new Byte[ETH_FRAME_LEN](_ => 0);
      new;
      var setRc := info.Set(TYPE_IEEE_8023, ETH_FRAME_LEN, clock);
      buffer[12], buffer[13] := ETH_P_ALL / 256, ETH_P_ALL % 256;
      forall k | 0 <= k < ETH_ALEN {
        buffer[k] := hDest[k];
      }
      forall k | 0 <= k < ETH_ALEN {
        buffer[ETH_ALEN + k] := hSource[k];
      }
      assert buffer[..] == EncodeFrame(EthHeader(hDest, hSource, ETH_P_ALL), Zeros(ETH_DATA_LEN));
    }

    /** `read_ieee8023_frame` (socket variant). `r` is what read() returned
        when asked for ETH_FRAME_LEN bytes into the buffer. Nothing changes
        unless it returned a positive count; a short read is only logged. */
    method Read(r: ReadOutcome, clock: Option<Timeval>) returns (rc: int)
      requires Valid()
      requires r.ReadBytes? ==> |r.bytes| <= ETH_FRAME_LEN
      modifies buffer, info
      ensures Valid()
      ensures rc == (if r.Count() <= 0 then EX_ERR else EX_OK)
      ensures r.Count() <= 0 ==> unchanged(info) && buffer[..] == old(buffer[..])
      ensures r.Count() > 0 ==> buffer[..] == r.bytes + old(buffer[..])[|r.bytes|..]
      ensures r.Count() > 0 ==> info.frameType == TYPE_IEEE_8023 && info.frameLen == |r.bytes|
      ensures r.Count() > 0 ==>
        info.timestamp == if clock.Some? then clock.value else old(info.timestamp)
    {
      if r.Count() <= 0 {
        rc := EX_ERR;
        return;
      }
      forall k | 0 <= k < |r.bytes| {
        buffer[k] := r.bytes[k];
      }
      assert buffer[..] == r.bytes + old(buffer[..])[|r.bytes|..];
      var setRc := info.Set(TYPE_IEEE_8023, |r.bytes|, clock);
      rc := EX_OK;
    }

    /** `print_ieee8023_frame`: the record, both addresses, the SAP and a hex
        dump of the `frame_len - ETH_HLEN` data bytes; EX_ERR when
        `frame_len` is shorter than a header. Every logged text decodes back
        to the bytes it shows. */
    method Print() returns (rc: int, report: Report)
      requires Valid()
      ensures rc == (if info.frameLen < ETH_HLEN then EX_ERR else EX_OK)
      ensures report.info == InfoReport(info.frameType, info.frameLen, TimestampUsecs(info.timestamp))
      ensures report.dst == EthAddressText(Header().dest) && report.src == EthAddressText(Header().source)
      ensures ParseHex(report.dst) == Some(Header().dest[..])
      ensures ParseHex(report.src) == Some(Header().source[..])
      ensures |report.dst| == |report.src| == 17
      ensures report.sap == HostProto(buffer[..])
      ensures report.dataLen == info.frameLen - ETH_HLEN
      ensures rc == EX_ERR ==> report.data == ""
      ensures rc == EX_OK ==> report.data == HexDump(buffer[ETH_HLEN..info.frameLen])
      ensures rc == EX_OK ==> ParseHex(report.data) == Some(buffer[ETH_HLEN..info.frameLen])
      ensures rc == EX_OK ==> Count(':', report.data) == (if info.frameLen == ETH_HLEN then 0 else info.frameLen - ETH_HLEN - 1)
    {
      // print_ll_frame never fails.
      var infoRc, infoReport := info.Print();
      var b := buffer[..];
      var dst := EthAddressText(b[..ETH_ALEN]);
      var src := EthAddressText(b[ETH_ALEN..2 * ETH_ALEN]);
      EthAddressRoundTrip(b[..ETH_ALEN]);
      EthAddressRoundTrip(b[ETH_ALEN..2 * ETH_ALEN]);
      var dataLen := info.frameLen - ETH_HLEN;
      var data := ToCChars(b[ETH_HLEN..]);
      var hexRc, dump := PrintHexData(data, dataLen);
      if hexRc < 0 {
        rc := EX_ERR;
      } else {
        CharWindow(b, ETH_HLEN, dataLen);
        rc := EX_OK;
      }
      report := Report(infoReport, dst, src, HostProto(b), dataLen, dump);
    }
  }

  /** `__tx_ieee8023_test_frame` as written: anything short of ETH_FRAME_LEN
      bytes sent counts as a failure. */
  function TestVerdictAsWritten(written: int): (rc: int)
    ensures rc == EX_OK <==> written >= ETH_FRAME_LEN
  {
    SendVerdict(written, ETH_FRAME_LEN)
  }

  /** A test frame is sent whole when sendto accepts all TEST_FRAME_LEN
      bytes; this is the verdict the model uses. */
  function TestVerdict(written: int): (rc: int)
    ensures rc == EX_OK <==> written >= TEST_FRAME_LEN
  {
    SendVerdict(written, TEST_FRAME_LEN)
  }

  /** Since sendto accepts at most the TEST_FRAME_LEN bytes it is given, the
      transmit as written fails on every outcome, the full send included. */
  lemma AsWrittenNeverSucceeds(written: int)
    requires written <= TEST_FRAME_LEN
    ensures TestVerdictAsWritten(written) == EX_SYS
    ensures written == TEST_FRAME_LEN ==> TestVerdict(written) == EX_OK
  {
  }

  /** `__tx_ieee8023_test_frame`: builds a frame from `hSource` to
      ETH_ADDR_BROADCAST with ten zero data bytes, shortens it to
      TEST_FRAME_LEN, prints it and hands those bytes to sendto, whose
      outcome is `send`. */
  method TxTestFrame(llSap: int, ifIndex: int, hSource: MacAddress, clock: Option<Timeval>, send: SendOutcome)
    returns (rc: int, sent: seq<Byte>, target: SendTarget, report: Report)
    requires send.SendAccepted? ==> send.count <= TEST_FRAME_LEN
    ensures sent == EncodeFrame(EthHeader(ETH_ADDR_BROADCAST, hSource, ETH_P_ALL), Zeros(TEST_DATA_LEN))
    ensures |sent| == TEST_FRAME_LEN
    ensures target == SendTarget(ifIndex, ETH_ALEN, ETH_ADDR_BROADCAST)
    ensures report.dataLen == TEST_DATA_LEN
    ensures rc == TestVerdict(send.Count())
    ensures rc == EX_OK <==> send.Count() == |sent|
  {
    var f := new Frame.Init(llSap, hSource, ETH_ADDR_BROADCAST, clock);
    f.info.frameLen := TEST_FRAME_LEN;
    // Printing cannot fail: frame_len is at least ETH_HLEN.
    var printRc;
    printRc, report := f.Print();
    target := SendTarget(ifIndex, ETH_ALEN, ETH_ADDR_BROADCAST);
    sent := f.buffer[..f.info.frameLen];
    assert sent == EncodeFrame(EthHeader(ETH_ADDR_BROADCAST, hSource, ETH_P_ALL), Zeros(ETH_DATA_LEN))[..TEST_FRAME_LEN];
    rc := TestVerdict(send.Count());
  }

  /** `ieee8023_frame_tx_cb`: transmit the test frame, then sleep for
      `txDelay` microseconds; the sleep is skipped when the transmit fails. */
  method TxCallback(llSap: int, ifIndex: int, ifMac: MacAddress, txDelay: int, clock: Option<Timeval>, send: SendOutcome)
    returns (rc: int, sleep: Option<int>)
    requires send.SendAccepted? ==> send.count <= TEST_FRAME_LEN
    ensures rc == TestVerdict(send.Count())
    ensures sleep == (if send.Count() == TEST_FRAME_LEN then Some(txDelay) else None)
  {
    var sent, target, report;
    rc, sent, target, report := TxTestFrame(llSap, ifIndex, ifMac, clock, send);
    if rc < 0 {
      sleep := None;
      return;
    }
    sleep := Some(txDelay);
  }

  /** After a read of at least ETH_HLEN bytes, the header addresses are the
      first received bytes and the data field holds the rest of them. */
  lemma ReadWindow(received: seq<Byte>, oldBuffer: seq<Byte>)
    requires ETH_HLEN <= |received| <= ETH_FRAME_LEN == |oldBuffer|
    ensures var b := received + oldBuffer[|received|..];
      b[..ETH_ALEN] == received[..ETH_ALEN] && b[ETH_ALEN..2 * ETH_ALEN] == received[ETH_ALEN..2 * ETH_ALEN]
    ensures var b := received + oldBuffer[|received|..];
      b[ETH_HLEN..|received|] == received[ETH_HLEN..]
  {
  }

  /** `ieee8023_frame_rx_cb`: read a frame into the shared buffer and print
      it; nothing is printed when the read fails. */
  method RxCallback(f: Frame, r: ReadOutcome, clock: Option<Timeval>) returns (readRc: int, report: Option<Report>)
    requires f.Valid()
    requires r.ReadBytes? ==> |r.bytes| <= ETH_FRAME_LEN
    modifies f.buffer, f.info
    ensures f.Valid()
    ensures readRc == (if r.Count() <= 0 then EX_ERR else EX_OK)
    ensures report.Some? <==> r.Count() > 0
    ensures report.Some? ==> report.value.info.frameLen == |r.bytes| && report.value.dataLen == |r.bytes| - ETH_HLEN
    ensures report.Some? && |r.bytes| >= ETH_HLEN ==>
      report.value.dst == EthAddressText(r.bytes[..ETH_ALEN]) &&
      report.value.src == EthAddressText(r.bytes[ETH_ALEN..2 * ETH_ALEN])
    ensures report.Some? && |r.bytes| >= ETH_HLEN ==> report.value.data == HexDump(r.bytes[ETH_HLEN..])
    ensures report.Some? && |r.bytes| >= ETH_HLEN ==> ParseHex(report.value.data) == Some(r.bytes[ETH_HLEN..])
  {
    readRc := f.Read(r, clock);
    if readRc < 0 {
      report := None;
      return;
    }
    var printRc, rep := f.Print();
    if |r.bytes| >= ETH_HLEN {
      ReadWindow(r.bytes, old(f.buffer[..]));
    }
    report := Some(rep);
  }
}
