/** The frame bookkeeping shared by every frame type: the `ll_frame_t` info
    record (type, length, creation timestamp), the timestamp in
    microseconds, and the two text renderers used to print frames — the
    8-bytes-per-line hex dump and the colon-separated MAC address. */
module LlFrame {
  import opened CLib
  import opened ExecutionCodes
  import opened Bits

  const TYPE_BUFFER: int := 0
  const TYPE_IEEE_8023: int := 1
  const TYPE_IEEE_80211: int := 2
  const BYTES_PER_LINE: nat := 8

  /** The address the tool sends its test frames to. Despite its name it is
      not FF:FF:FF:FF:FF:FF. */
  const ETH_ADDR_BROADCAST: MacAddress := [0x20, 0xaa, 0x4B, 0x12, 0x35, 0x96]
  const ETH_ADDR_NULL: MacAddress := [0x00, 0x00, 0x00, 0x00, 0x00, 0x00]
  const ETH_ADDR_FAKE: MacAddress := [0x00, 0x18, 0x39, 0xAE, 0x7D, 0xD5]

  const USECS_PER_SEC: nat := 1000000
  const UINT64_MODULUS: nat := 0x1_0000_0000_0000_0000

  /** `struct timeval`, as gettimeofday() fills it. */
  datatype Timeval = Timeval(sec: int, usec: int)

  /** `get_timestamp_usecs`: `tv_sec * (uint64_t) 1000000 + tv_usec`,
      computed in 64-bit unsigned arithmetic. */
  function TimestampUsecs(t: Timeval): (r: nat)
    ensures r < UINT64_MODULUS
    ensures 0 <= t.sec * USECS_PER_SEC + t.usec < UINT64_MODULUS ==>
      r == t.sec * USECS_PER_SEC + t.usec
  {
    (t.sec * USECS_PER_SEC + t.usec) % UINT64_MODULUS
  }

  /** A timestamp that fits in 64 bits gives back its seconds and
      microseconds: the conversion loses nothing. */
  lemma TimestampRoundTrip(t: Timeval)
    requires t.sec >= 0 && 0 <= t.usec < USECS_PER_SEC
    requires t.sec * USECS_PER_SEC + t.usec < UINT64_MODULUS
    ensures TimestampUsecs(t) / USECS_PER_SEC == t.sec
    ensures TimestampUsecs(t) % USECS_PER_SEC == t.usec
  {
    DivModUnique(TimestampUsecs(t), USECS_PER_SEC, t.sec, t.usec);
  }

  /** `ll_frame_t`: what the tool records about a frame. */
  class LlFrameInfo {
    var frameType: int
    var frameLen: int
    var timestamp: Timeval

    /** `new_ll_frame`: a zeroed record. */
    constructor ()
      ensures frameType == 0 && frameLen == 0 && timestamp == Timeval(0, 0)
    {
      frameType, frameLen, timestamp := 0, 0, Timeval(0, 0);
    }

    /** `set_ll_frame`: type and length are stored as given; the timestamp
        comes from gettimeofday(), whose reading is `clock` (None when the
        call fails, which makes the result EX_ERR and leaves the old
        timestamp in place). */
    method Set(frameType: int, frameLen: int, clock: Option<Timeval>) returns (rc: int)
      modifies this
      ensures this.frameType == frameType && this.frameLen == frameLen
      ensures rc == (if clock.Some? then EX_OK else EX_ERR)
      ensures timestamp == (if clock.Some? then clock.value else old(timestamp))
    {
      this.frameType := frameType;
      this.frameLen := frameLen;
      if clock.None? {
        rc := EX_ERR;
        return;
      }
      timestamp := clock.value;
      rc := EX_OK;
    }

    /** `print_ll_frame`: logs the type, the length and the timestamp in
        microseconds, and never fails. */
    method Print() returns (rc: int, report: InfoReport)
      ensures rc == EX_OK
      ensures report == InfoReport(frameType, frameLen, TimestampUsecs(timestamp))
    {
      rc := EX_OK;
      report := InfoReport(frameType, frameLen, TimestampUsecs(timestamp));
    }
  }

  /** The values `print_ll_frame` logs, before printf renders them. */
  datatype InfoReport = InfoReport(frameType: int, frameLen: int, timestampUsecs: nat)

  /** Where a test transmit sends its frame: the `sll_ifindex`, `sll_halen`
      and first `sll_addr` bytes of the `sockaddr_ll` handed to sendto. */
  datatype SendTarget = SendTarget(ifIndex: int, halen: nat, addr: MacAddress)

  /** What a test transmit makes of sendto's result `written`: EX_SYS when
      the call failed or accepted fewer than `threshold` bytes, EX_OK
      otherwise. */
  function SendVerdict(written: int, threshold: int): (rc: int)
    ensures rc == EX_OK || rc == EX_SYS
    ensures rc == EX_OK <==> written >= 0 && written >= threshold
  {
    if written < 0 then EX_SYS
    else if written < threshold then EX_SYS
    else EX_OK
  }

  // ---------------------------------------------------------------- hex text

  /** A C `char`, signed on the tool's targets. */
  type CChar = x: int | -128 <= x < 128

  /** The `char` that holds byte b. */
  function ToCChar(b: Byte): CChar
  {
    if b < 128 then b else b - 256
  }

  /** `0xFF & (unsigned int) c`: the low 8 bits of the sign-extended char. */
  function LowByte(c: CChar): (b: Byte)
    ensures b % 256 == c % 256
  {
    c % 256
  }

  /** Bytes stored as chars read back as the same bytes. */
  lemma LowByteOfCChar(b: Byte)
    ensures LowByte(ToCChar(b)) == b
  {
    if b >= 128 {
      DivModUnique(b - 256, 256, -1, b);
    }
  }

  function LowBytes(s: seq<CChar>): (r: seq<Byte>)
    ensures |r| == |s| && forall k :: 0 <= k < |s| ==> r[k] == LowByte(s[k])
  {
    if s == [] then [] else [LowByte(s[0])] + LowBytes(s[1..])
  }

  function ToCChars(s: seq<Byte>): (r: seq<CChar>)
    ensures |r| == |s| && forall k :: 0 <= k < |s| ==> r[k] == ToCChar(s[k])
  {
    if s == [] then [] else [ToCChar(s[0])] + ToCChars(s[1..])
  }

  /** Printing a byte buffer through its `char` view shows the bytes. */
  lemma LowBytesOfCChars(s: seq<Byte>)
    ensures LowBytes(ToCChars(s)) == s
  {
    forall k | 0 <= k < |s| ensures LowBytes(ToCChars(s))[k] == s[k] {
      LowByteOfCChar(s[k]);
    }
  }

  predicate IsHexDigit(c: char)
  {
    '0' <= c <= '9' || 'A' <= c <= 'F'
  }

  /** The digit `printf("%X")` writes for d. */
  function HexDigit(d: nat): (c: char)
    requires d < 16
    ensures IsHexDigit(c)
  {
    if d < 10 then ('0' as int + d) as char else ('A' as int + d - 10) as char
  }

  /** The value of an uppercase hexadecimal digit. */
  function HexValue(c: char): (d: nat)
    requires IsHexDigit(c)
    ensures d < 16
  {
    if c <= '9' then (c - '0') as nat else (c - 'A') as nat + 10
  }

  lemma HexDigitValue(d: nat)
    requires d < 16
    ensures HexValue(HexDigit(d)) == d
  {
  }

  /** `printf("%02X", v)` for 0 <= v < 256: two digits, most significant
      first. */
  function HexPair(v: Byte): (r: string)
    ensures |r| == 2 && IsHexDigit(r[0]) && IsHexDigit(r[1])
    ensures HexValue(r[0]) * 16 + HexValue(r[1]) == v
  {
    HexDigitValue(v / 16);
    HexDigitValue(v % 16);
    [HexDigit(v / 16), HexDigit(v % 16)]
  }

  const LINE_BREAK: string := "\n\t\t\t"

  /** What `print_hex_data` writes for byte i of n: a line break before
      every BYTES_PER_LINE-th byte, the byte's two digits, and a ':' after
      every byte but the last. */
  function Piece(b: Byte, i: nat, n: nat): (r: string)
    ensures Strip(r) == HexPair(b)
    ensures Count(':', r) == if i < n - 1 then 1 else 0
    ensures Count('\n', r) == if i % BYTES_PER_LINE == 0 then 1 else 0
  {
    var head := if i % BYTES_PER_LINE == 0 then LINE_BREAK else "";
    var tail := if i < n - 1 then ":" else "";
    PieceStrip(b, head, tail);
    PieceCount(b, head, tail);
    head + HexPair(b) + tail
  }

  /** What `print_hex_data` has written after its first k iterations. */
  function HexDumpPrefix(s: seq<Byte>, k: nat): string
    requires k <= |s|
  {
    if k == 0 then "" else HexDumpPrefix(s, k - 1) + Piece(s[k - 1], k - 1, |s|)
  }

  /** The whole text `print_hex_data` writes for the bytes s. It loses
      nothing: every byte can be read back from it, in order. It holds
      n - 1 colons (none for no bytes) and one line break per started line
      of BYTES_PER_LINE bytes. */
  function HexDump(s: seq<Byte>): (r: string)
    ensures ParseHex(r) == Some(s)
    ensures Count(':', r) == if s == [] then 0 else |s| - 1
    ensures Count('\n', r) == (|s| + BYTES_PER_LINE - 1) / BYTES_PER_LINE
  {
    ParseHexDumpPrefix(s, |s|);
    HexDumpPrefixColons(s, |s|);
    HexDumpPrefixLines(s, |s|);
    assert s[..|s|] == s;
    HexDumpPrefix(s, |s|)
  }

  /** The text written for byte i extends the dump of the first i bytes
      to the dump of the first i + 1. */
  lemma DumpStep(s: seq<Byte>, i: nat, b: Byte, piece: string)
    requires i < |s| && b == s[i]
    requires piece == (if i % BYTES_PER_LINE == 0 then LINE_BREAK else "") + HexPair(b) + (if i < |s| - 1 then ":" else "")
    ensures HexDumpPrefix(s, i) + piece == HexDumpPrefix(s, i + 1)
  {
  }

  /** `print_hex_data(buffer, len)`: a negative length is refused and
      nothing is written; otherwise the low 8 bits of the first `len` chars
      are dumped. The text goes to stdout, here to `out`. */
  method PrintHexData(buffer: seq<CChar>, len: int) returns (rc: int, out: string)
    requires len <= |buffer|
    ensures len < 0 ==> rc == EX_WRONG_PARAM && out == ""
    ensures len >= 0 ==> rc == EX_OK && out == HexDump(LowBytes(buffer[..len]))
  {
    var lastByte := len - 1;
    out := "";
    if len < 0 {
      rc := EX_WRONG_PARAM;
      return;
    }
    ghost var bytes := LowBytes(buffer[..len]);
    for i := 0 to len
      invariant out == HexDumpPrefix(bytes, i)
    {
      var piece := "";
      if i % BYTES_PER_LINE == 0 {
        piece := LINE_BREAK;
      }
      piece := piece + HexPair(LowByte(buffer[i]));
      if i < lastByte {
        piece := piece + ":";
      }
      DumpStep(bytes, i, LowByte(buffer[i]), piece);
      out := out + piece;
    }
    rc := EX_OK;
  }

  predicate IsSeparator(c: char)
  {
    c == '\n' || c == '\t' || c == ':'
  }

  /** The text without its separators ('\n', '\t', ':'). */
  function Strip(t: string): (r: string)
    ensures |r| <= |t|
  {
    if t == [] then [] else (if IsSeparator(t[0]) then [] else [t[0]]) + Strip(t[1..])
  }

  /** Reads a separator-free text as consecutive pairs of hex digits, one
      byte per pair; anything else (an odd digit out, a foreign character)
      makes the whole text unreadable. */
  function Pairs(u: string): Option<seq<Byte>>
    decreases |u|
  {
    if u == [] then Some([])
    else if |u| >= 2 && IsHexDigit(u[0]) && IsHexDigit(u[1]) then
      match Pairs(u[2..])
      case None => None
      case Some(rest) => Some([HexValue(u[0]) * 16 + HexValue(u[1])] + rest)
    else None
  }

  /** Reads a hex dump back: separators are skipped and every pair of hex
      digits is one byte. */
  function ParseHex(t: string): Option<seq<Byte>>
  {
    Pairs(Strip(t))
  }

  lemma {:induction false} StripAppend(a: string, b: string)
    ensures Strip(a + b) == Strip(a) + Strip(b)
    decreases |a|
  {
    if a == [] {
      assert a + b == b;
    } else {
      var t := a + b;
      assert t[0] == a[0] && t[1..] == a[1..] + b;
      StripAppend(a[1..], b);
      var h := if IsSeparator(a[0]) then [] else [a[0]];
      assert Strip(t) == h + (Strip(a[1..]) + Strip(b));
      assert h + (Strip(a[1..]) + Strip(b)) == (h + Strip(a[1..])) + Strip(b);
    }
  }

  /** Two digits in front of a readable text read as one more byte. */
  lemma PairsCons(u: string, r: seq<Byte>)
    requires |u| >= 2 && IsHexDigit(u[0]) && IsHexDigit(u[1]) && Pairs(u[2..]) == Some(r)
    ensures Pairs(u) == Some([HexValue(u[0]) * 16 + HexValue(u[1])] + r)
  {
  }

  /** The line break consists of separators only. */
  lemma StripBreak()
    ensures Strip(LINE_BREAK) == []
  {
    var u := LINE_BREAK;
    assert u[1..][1..][1..][1..] == [];
    assert Strip(u[1..][1..][1..]) == [];
    assert Strip(u[1..][1..]) == [];
    assert Strip(u[1..]) == [];
  }

  /** Of a piece, only its two digits survive stripping. */
  lemma PieceStrip(b: Byte, head: string, tail: string)
    requires head == "" || head == LINE_BREAK
    requires tail == "" || tail == ":"
    ensures Strip(head + HexPair(b) + tail) == HexPair(b)
  {
    var pair := HexPair(b);
    StripBreak();
    assert Strip(head) == [];
    assert Strip(tail) == [] by {
      if tail != "" {
        assert tail[1..] == [];
      }
    }
    assert Strip(pair) == pair by {
      assert pair[1..][1..] == [];
      assert !IsSeparator(pair[0]) && !IsSeparator(pair[1]);
    }
    StripAppend(head, pair);
    StripAppend(head + pair, tail);
    assert [] + pair + [] == pair;
  }

  /** The digits of the bytes s, without any separator. */
  function Digits(s: seq<Byte>): (r: string)
    ensures |r| == 2 * |s|
  {
    if s == [] then [] else HexPair(s[0]) + Digits(s[1..])
  }

  lemma {:induction false} DigitsAppend(a: seq<Byte>, b: seq<Byte>)
    ensures Digits(a + b) == Digits(a) + Digits(b)
    decreases |a|
  {
    if a == [] {
      assert a + b == b;
    } else {
      var t := a + b;
      assert t[0] == a[0] && t[1..] == a[1..] + b;
      DigitsAppend(a[1..], b);
      var h := HexPair(a[0]);
      assert Digits(t) == h + (Digits(a[1..]) + Digits(b));
      assert h + (Digits(a[1..]) + Digits(b)) == (h + Digits(a[1..])) + Digits(b);
    }
  }

  /** The digits read back as the bytes. */
  lemma {:induction false} PairsOfDigits(s: seq<Byte>)
    ensures Pairs(Digits(s)) == Some(s)
  {
    if s != [] {
      var rest := Digits(s[1..]);
      PairsOfDigits(s[1..]);
      var pair := HexPair(s[0]);
      var u := pair + rest;
      assert u[0] == pair[0] && u[1] == pair[1] && u[2..] == rest;
      PairsCons(u, s[1..]);
      assert Digits(s) == u;
      assert [s[0]] + s[1..] == s;
    }
  }

  /** Stripping what print_hex_data wrote leaves the digits of the bytes
      written so far. */
  lemma {:induction false} StripDumpPrefix(s: seq<Byte>, k: nat)
    requires k <= |s|
    ensures Strip(HexDumpPrefix(s, k)) == Digits(s[..k])
  {
    if k == 0 {
      assert s[..k] == [];
    } else {
      StripDumpPrefix(s, k - 1);
      var b := s[k - 1];
      var front := s[..k - 1];
      var prefix := HexDumpPrefix(s, k - 1);
      var piece := Piece(b, k - 1, |s|);
      assert HexDumpPrefix(s, k) == prefix + piece;
      StripAppend(prefix, piece);
      assert Strip(HexDumpPrefix(s, k)) == Digits(front) + HexPair(b);
      TakeSnoc(s, k);
      DigitsAppend(front, [b]);
      assert Digits([b]) == HexPair(b) by {
        assert [b][1..] == [];
      }
    }
  }

  /** The first k elements are the first k - 1 and then element k - 1. */
  lemma TakeSnoc<T>(s: seq<T>, k: nat)
    requires 0 < k <= |s|
    ensures s[..k] == s[..k - 1] + [s[k - 1]]
  {
  }

  lemma ParseHexDumpPrefix(s: seq<Byte>, k: nat)
    requires k <= |s|
    ensures ParseHex(HexDumpPrefix(s, k)) == Some(s[..k])
  {
    StripDumpPrefix(s, k);
    PairsOfDigits(s[..k]);
  }

  /** Printing `len` bytes of a byte buffer through its `char` view, from
      any offset, shows exactly the bytes of that window. */
  lemma CharWindow(buf: seq<Byte>, from: nat, len: nat)
    requires from + len <= |buf|
    ensures LowBytes(ToCChars(buf[from..])[..len]) == buf[from..from + len]
  {
    var shown := buf[from..from + len];
    assert ToCChars(buf[from..])[..len] == ToCChars(shown);
    LowBytesOfCChars(shown);
  }

  /** Occurrences of c in t. */
  function Count(c: char, t: string): nat
  {
    if t == [] then 0 else (if t[0] == c then 1 else 0) + Count(c, t[1..])
  }

  lemma {:induction false} CountAppend(c: char, a: string, b: string)
    ensures Count(c, a + b) == Count(c, a) + Count(c, b)
    decreases |a|
  {
    if a == [] {
      assert a + b == b;
    } else {
      assert (a + b)[1..] == a[1..] + b;
      CountAppend(c, a[1..], b);
    }
  }

  /** No separator occurs among a byte's two digits. */
  lemma PairCount(c: char, b: Byte)
    requires IsSeparator(c)
    ensures Count(c, HexPair(b)) == 0
  {
    var p := HexPair(b);
    assert p[1..][1..] == [];
    assert Count(c, p[1..][1..]) == 0;
    assert Count(c, p[1..]) == 0;
  }

  lemma BreakCounts()
    ensures Count(':', LINE_BREAK) == 0 && Count('\n', LINE_BREAK) == 1
  {
    var u := LINE_BREAK;
    assert u[1..][1..][1..][1..] == [];
    assert Count(':', u[1..][1..][1..]) == 0 && Count('\n', u[1..][1..][1..]) == 0;
    assert Count(':', u[1..][1..]) == 0 && Count('\n', u[1..][1..]) == 0;
    assert Count(':', u[1..]) == 0 && Count('\n', u[1..]) == 0;
  }

  /** A piece holds as many colons as its tail and as many line breaks as
      its head. */
  lemma PieceCount(b: Byte, head: string, tail: string)
    requires head == "" || head == LINE_BREAK
    requires tail == "" || tail == ":"
    ensures Count(':', head + HexPair(b) + tail) == |tail|
    ensures Count('\n', head + HexPair(b) + tail) == if head == "" then 0 else 1
  {
    var pair := HexPair(b);
    assert Count(':', tail) == |tail| && Count('\n', tail) == 0 by {
      if tail != "" {
        assert tail[1..] == [];
      }
    }
    PairCount(':', b);
    PairCount('\n', b);
    BreakCounts();
    assert Count(':', head) == 0 && Count('\n', head) == (if head == "" then 0 else 1);
    CountAppend(':', head, pair);
    CountAppend(':', head + pair, tail);
    CountAppend('\n', head, pair);
    CountAppend('\n', head + pair, tail);
  }

  /** (k - 1 + 7) / 8 plus one more line when k - 1 starts a line. */
  lemma LinesStep(k: nat)
    requires k >= 1
    ensures (k + 7) / 8 == (k + 6) / 8 + (if (k - 1) % 8 == 0 then 1 else 0)
  {
    var q, r := (k - 1) / 8, (k - 1) % 8;
    assert k - 1 == 8 * q + r;
    if r == 0 {
      DivModUnique(k + 7, 8, q + 1, 0);
      DivModUnique(k + 6, 8, q, 7);
    } else {
      DivModUnique(k + 7, 8, q + 1, r);
      DivModUnique(k + 6, 8, q + 1, r - 1);
    }
  }

  /** One more byte adds the colons and line breaks of its piece. */
  lemma PrefixStep(s: seq<Byte>, k: nat)
    requires 0 < k <= |s|
    ensures Count(':', HexDumpPrefix(s, k)) == Count(':', HexDumpPrefix(s, k - 1)) + if k < |s| then 1 else 0
    ensures Count('\n', HexDumpPrefix(s, k)) ==
      Count('\n', HexDumpPrefix(s, k - 1)) + if (k - 1) % BYTES_PER_LINE == 0 then 1 else 0
  {
    var prefix := HexDumpPrefix(s, k - 1);
    var piece := Piece(s[k - 1], k - 1, |s|);
    assert HexDumpPrefix(s, k) == prefix + piece;
    CountAppend(':', prefix, piece);
    CountAppend('\n', prefix, piece);
  }

  lemma {:induction false} HexDumpPrefixColons(s: seq<Byte>, k: nat)
    requires k <= |s|
    ensures Count(':', HexDumpPrefix(s, k)) == if k < |s| || k == 0 then k else k - 1
  {
    if k == 0 {
      assert HexDumpPrefix(s, k) == "";
    } else {
      HexDumpPrefixColons(s, k - 1);
      PrefixStep(s, k);
      var before := Count(':', HexDumpPrefix(s, k - 1));
      assert before == k - 1;
    }
  }

  lemma {:induction false} HexDumpPrefixLines(s: seq<Byte>, k: nat)
    requires k <= |s|
    ensures Count('\n', HexDumpPrefix(s, k)) == (k + 7) / 8
  {
    if k > 0 {
      HexDumpPrefixLines(s, k - 1);
      PrefixStep(s, k);
      LinesStep(k);
    }
  }

  /** `print_eth_address`: the six bytes as two hex digits each, separated
      by ':'. */
  function EthAddressText(mac: MacAddress): (r: string)
    ensures |r| == 17
  {
    HexPair(mac[0]) + ":" + HexPair(mac[1]) + ":" + HexPair(mac[2]) + ":" +
    HexPair(mac[3]) + ":" + HexPair(mac[4]) + ":" + HexPair(mac[5])
  }

  /** The digits and colons print_eth_address has written for the first k
      bytes. */
  function AddressPrefix(mac: MacAddress, k: nat): string
    requires k <= ETH_ALEN
  {
    if k == 0 then "" else AddressPrefix(mac, k - 1) + HexPair(mac[k - 1]) + (if k < ETH_ALEN then ":" else "")
  }

  /** Position j of the address text holds ':' when j % 3 == 2 and
      otherwise digit j % 3 of byte j / 3. */
  predicate AddressShaped(mac: MacAddress, t: string)
  {
    forall j :: 0 <= j < |t| ==>
      j / 3 < ETH_ALEN && t[j] == if j % 3 == 2 then ':' else HexPair(mac[j / 3])[j % 3]
  }

  lemma {:induction false} AddressPrefixShape(mac: MacAddress, k: nat)
    requires k <= ETH_ALEN
    ensures |AddressPrefix(mac, k)| == 3 * k - (if k == ETH_ALEN then 1 else 0)
    ensures AddressShaped(mac, AddressPrefix(mac, k))
  {
    if k > 0 {
      AddressPrefixShape(mac, k - 1);
      var p := AddressPrefix(mac, k - 1);
      var t := AddressPrefix(mac, k);
      assert |p| == 3 * (k - 1);
      forall j | 0 <= j < |t|
        ensures j / 3 < ETH_ALEN && t[j] == if j % 3 == 2 then ':' else HexPair(mac[j / 3])[j % 3]
      {
        if j >= |p| {
          DivModUnique(j, 3, k - 1, j - |p|);
        }
      }
    }
  }

  /** The text is `XX:XX:XX:XX:XX:XX`: 17 characters, ':' at every third
      position and the two digits of byte i at 3i and 3i + 1. */
  lemma EthAddressShape(mac: MacAddress)
    ensures AddressShaped(mac, EthAddressText(mac))
  {
    AddressPrefixShape(mac, ETH_ALEN);
    AddressIsPrefix(mac);
  }

  lemma AddressIsPrefix(mac: MacAddress)
    ensures AddressPrefix(mac, ETH_ALEN) == EthAddressText(mac)
  {
    assert AddressPrefix(mac, 1) == HexPair(mac[0]) + ":";
    assert AddressPrefix(mac, 2) == AddressPrefix(mac, 1) + HexPair(mac[1]) + ":";
    assert AddressPrefix(mac, 3) == AddressPrefix(mac, 2) + HexPair(mac[2]) + ":";
    assert AddressPrefix(mac, 4) == AddressPrefix(mac, 3) + HexPair(mac[3]) + ":";
    assert AddressPrefix(mac, 5) == AddressPrefix(mac, 4) + HexPair(mac[4]) + ":";
    assert AddressPrefix(mac, 6) == AddressPrefix(mac, 5) + HexPair(mac[5]);
  }

  lemma {:induction false} DumpOfAddress(mac: MacAddress, k: nat)
    requires 1 <= k <= ETH_ALEN
    ensures HexDumpPrefix(mac, k) == LINE_BREAK + AddressPrefix(mac, k)
  {
    if k > 1 {
      DumpOfAddress(mac, k - 1);
      assert (k - 1) % BYTES_PER_LINE != 0;
    }
  }

  /** The address text is the hex dump of the same six bytes without the
      leading line break. */
  lemma EthAddressIsDump(mac: MacAddress)
    ensures HexDump(mac) == LINE_BREAK + EthAddressText(mac)
  {
    DumpOfAddress(mac, ETH_ALEN);
    AddressIsPrefix(mac);
  }

  /** A leading line break does not change what a text parses as. */
  lemma ParseAfterBreak(t: string)
    ensures ParseHex(LINE_BREAK + t) == ParseHex(t)
  {
    StripAppend(LINE_BREAK, t);
    StripBreak();
    assert [] + Strip(t) == Strip(t);
  }

  /** The address text reads back as the address. */
  lemma EthAddressRoundTrip(mac: MacAddress)
    ensures ParseHex(EthAddressText(mac)) == Some(mac[..])
  {
    EthAddressIsDump(mac);
    ParseAfterBreak(EthAddressText(mac));
    assert mac[..] == mac;
  }
}
