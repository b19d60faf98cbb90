/** The link-layer socket of the tool: the ring request and bind address it
    builds, the interface lookups, the frame-type dispatch of its callbacks,
    the libev shim that calls them, its life cycle and its teardown. Every
    system call is represented by its outcome, given as a parameter. */
module LlSocket {
  import opened CLib
  import opened ExecutionCodes
  import opened LlFrame
  import opened PacketRing

  // Life-cycle states of an ll_socket.
  const LL_SOCKET_STATE_UNDEF: int := -1
  const LL_SOCKET_STATE_READY: int := 0
  const LL_SOCKET_STATE_RUNNING: int := 1
  const LL_SOCKET_STATE_PAUSED: int := 2

  /** The ring each socket of the KERNEL_RING build asks for. */
  const FRAMES_PER_BLOCK: nat := 128
  const NO_BLOCKS: nat := 1

  /** The packet protocol family. */
  const PF_PACKET: int := 17

  // libev event bits.
  const EV_READ: bv32 := 0x01
  const EV_WRITE: bv32 := 0x02
  const EV_ERROR: bv32 := 0x8000_0000

  // ------------------------------------------------------------ ring request

  /** `init_ring`'s result: the length of the mapping, `tp_block_size *
      tp_block_nr` of the request `init_tpacket_req` builds, once setsockopt()
      accepted that request; EX_ERR when it refused it. */
  function InitRing(page: nat, framesPerBlock: nat, noBlocks: nat, setsockoptOk: bool): (len: int)
    ensures setsockoptOk ==> len == page * framesPerBlock * noBlocks
    ensures setsockoptOk ==>
      len == TpacketRequest(page, framesPerBlock, noBlocks).frameSize * TpacketRequest(page, framesPerBlock, noBlocks).frameNr
    ensures !setsockoptOk ==> len == EX_ERR
  {
    if !setsockoptOk then EX_ERR else MapLength(TpacketRequest(page, framesPerBlock, noBlocks))
  }

  /** The rings of the KERNEL_RING build hold CONF_RING_FRAMES slots of one
      page each, the ring the process walks with its cursor. */
  lemma RingHoldsTheSlots(page: nat)
    ensures InitRing(page, FRAMES_PER_BLOCK, NO_BLOCKS, true) == CONF_RING_FRAMES * page
    ensures TpacketRequest(page, FRAMES_PER_BLOCK, NO_BLOCKS).frameNr == CONF_RING_FRAMES
  {
  }

  // ------------------------------------------------------------ bind address

  /** `struct sockaddr_ll`, with `sll_protocol` as the 16-bit number it
      carries in network order and all eight `sll_addr` bytes. */
  datatype SockaddrLl = SockaddrLl(family: int, protocol: nat, ifIndex: int, halen: nat, addr: seq<Byte>)

  /** `init_sockaddr_ll` on a zeroed structure: a transmitter binds to its
      SAP (converted to 16 bits by `htons`), a receiver to every protocol;
      the hardware address is all ones. */
  function InitSockaddrLl(llSap: int, ifIndex: int, isTransmitter: bool): (a: SockaddrLl)
    ensures a.family == PF_PACKET && a.ifIndex == ifIndex && a.halen == ETH_ALEN
    ensures a.protocol < 0x1_0000
    ensures isTransmitter && 0 <= llSap < 0x1_0000 ==> a.protocol == llSap
    ensures !isTransmitter ==> a.protocol == ETH_P_ALL
    ensures |a.addr| == 8 && a.addr[6] == 0 && a.addr[7] == 0
    ensures forall k :: 0 <= k < ETH_ALEN ==> a.addr[k] == 0xFF
  {
    var protocol := if isTransmitter then llSap % 0x1_0000 else ETH_P_ALL;
    SockaddrLl(PF_PACKET, protocol, ifIndex, ETH_ALEN, [0xFF, 0xFF, 0xFF, 0xFF, 0xFF, 0xFF, 0, 0])
  }

  // -------------------------------------------------------- interface lookups

  /** The checks both interface lookups make on the name before asking the
      kernel: NULL, then empty, then longer than IF_NAMESIZE. */
  function NameCheck(name: CString): (rc: int)
    ensures rc == EX_OK <==> name.Chars? && 0 < StrLen(name.chars) <= IF_NAMESIZE
    ensures name.Null? ==> rc == EX_NULL_PARAM
    ensures name.Chars? && StrLen(name.chars) == 0 ==> rc == EX_EMPTY_PARAM
    ensures name.Chars? && StrLen(name.chars) > IF_NAMESIZE ==> rc == EX_WRONG_PARAM
  {
    match name
    case Null => EX_NULL_PARAM
    case Chars(s) =>
      if StrLen(s) == 0 then EX_EMPTY_PARAM
      else if StrLen(s) > IF_NAMESIZE then EX_WRONG_PARAM
      else EX_OK
  }

  /** What `if_name_2_if_index` ends with: a refused argument, the end of
      the process (a failed SIOCGIFINDEX ioctl goes to handle_sys_error), or
      the index. */
  datatype IndexLookup = Refused(rc: int) | ProcessExit | Index(ifIndex: int)

  /** `if_name_2_if_index`. `siocgifindex` is the kernel's answer to the
      SIOCGIFINDEX ioctl for the name copied into the request (None when the
      call fails); it is consulted only once the name passed its checks. */
  function IfName2IfIndex(name: CString, siocgifindex: string -> Option<int>): (r: IndexLookup)
    ensures r.Refused? <==> NameCheck(name) != EX_OK
    ensures r.Refused? ==> r.rc == NameCheck(name)
    ensures r.Index? ==> name.Chars? && siocgifindex(CStr(name.chars)) == Some(r.ifIndex)
    ensures r.ProcessExit? ==> name.Chars? && siocgifindex(CStr(name.chars)).None?
  {
    if NameCheck(name) != EX_OK then Refused(NameCheck(name))
    else match siocgifindex(CStr(name.chars))
      case None => ProcessExit
      case Some(i) => Index(i)
  }

  /** `get_mac_address`: after the checks (NULL name, NULL buffer, negative
      descriptor, then the name checks) the SIOCGIFHWADDR ioctl is asked
      about the name, and its address is copied into `mac`. `asked` is the
      name the ioctl got, None when it was not issued. */
  method GetMacAddress(socketFd: int, ifName: CString, mac: array?<Byte>, siocgifhwaddr: string -> Option<MacAddress>)
    returns (rc: int, asked: Option<string>)
    requires mac != null ==> mac.Length == ETH_ALEN
    modifies mac
    ensures ifName.Null? ==> rc == EX_NULL_PARAM
    ensures ifName.Chars? && mac == null ==> rc == EX_NULL_PARAM
    ensures ifName.Chars? && mac != null && socketFd < 0 ==> rc == EX_WRONG_PARAM
    ensures ifName.Chars? && mac != null && socketFd >= 0 && NameCheck(ifName) != EX_OK ==> rc == NameCheck(ifName)
    ensures asked.Some? <==> mac != null && socketFd >= 0 && NameCheck(ifName) == EX_OK
    ensures asked.Some? ==> ifName.Chars? && asked.value == CStr(ifName.chars)
    ensures asked.Some? ==> rc == (if siocgifhwaddr(asked.value).Some? then EX_OK else EX_SYS)
    ensures rc == EX_OK ==> asked.Some? && mac != null && mac[..] == siocgifhwaddr(asked.value).value
    ensures rc != EX_OK && mac != null ==> mac[..] == old(mac[..])
  {
    asked := None;
    if ifName.Null? {
      rc := EX_NULL_PARAM;
      return;
    }
    if mac == null {
      rc := EX_NULL_PARAM;
      return;
    }
    if socketFd < 0 {
      rc := EX_WRONG_PARAM;
      return;
    }
    var nameRc := NameCheck(ifName);
    if nameRc != EX_OK {
      rc := nameRc;
      return;
    }
    asked := Some(CStr(ifName.chars));
    var hw := siocgifhwaddr(asked.value);
    if hw.None? {
      rc := EX_SYS;
      return;
    }
    forall k | 0 <= k < ETH_ALEN {
      mac[k] := hw.value[k];
    }
    assert mac[..] == hw.value;
    rc := EX_OK;
  }

  /** The `int` that the `unsigned int` result of if_nametoindex() becomes. */
  function ToCInt(u: Uint32): (i: int)
    ensures -0x8000_0000 <= i < 0x8000_0000
    ensures i % 0x1_0000_0000 == u
  {
    if u < 0x8000_0000 then u else u - 0x1_0000_0000
  }

  /** `init_ll_socket`'s test of if_nametoindex() as written: the index,
      stored in an `int`, is negative. It fires only for results of 2^31 and
      more, never for the 0 that reports an unknown interface. */
  function IndexRejectedAsWritten(u: Uint32): (rejected: bool)
    ensures rejected <==> u >= 0x8000_0000
  {
    ToCInt(u) < 0
  }

  /** if_nametoindex() reports an unknown interface with 0: the test the
      model uses in its place. */
  function IndexRejected(u: Uint32): (rejected: bool)
    ensures rejected <==> u == 0
  {
    ToCInt(u) == 0
  }

  /** An unknown interface passes the test as written and is stopped by the
      intended one; the two agree on every real index below 2^31. */
  lemma UnknownInterfaceSlipsThrough(u: Uint32)
    ensures !IndexRejectedAsWritten(0) && IndexRejected(0)
    ensures 0 < u < 0x8000_0000 ==> !IndexRejectedAsWritten(u) && !IndexRejected(u)
  {
  }

  // ---------------------------------------------------------------- callbacks

  /** A frame callback: the rx or tx callback of the frame module for a
      frame type (`ieee8023_frame_rx_cb` is FrameRx(TYPE_IEEE_8023)). */
  datatype FrameCallback = NoCallback | FrameRx(frameType: int) | FrameTx(frameType: int)

  /** The frame types that have callbacks. */
  predicate Supported(frameType: int)
  {
    frameType == TYPE_IEEE_8023 || frameType == TYPE_IEEE_80211
  }

  /** Why `init_ll_socket` ends the process, if it does. */
  datatype InitStep = OpenSocket | InterfaceIndex | MacLookup | Events

  /** What the kernel answers during `init_ll_socket`: the descriptors the
      socket() calls return (the second one is opened in the KERNEL_RING
      build only), if_nametoindex() for a name, and the SIOCGIFHWADDR ioctl
      for a name. */
  datatype Kernel = Kernel(firstSocket: int, secondSocket: int,
                           ifNameToIndex: string -> Uint32,
                           siocgifhwaddr: string -> Option<MacAddress>)

  /** The first step at which `init_ll_socket` gives up, if any. */
  function InitExit(kernelRing: bool, llIfName: string, frameType: int, kernel: Kernel): (r: Option<InitStep>)
    ensures r.None? ==> kernel.firstSocket >= 0 && Supported(frameType)
    ensures r.None? ==> kernel.siocgifhwaddr(CStr(llIfName)).Some? && StrLen(llIfName) > 0
    ensures r.None? ==> kernel.ifNameToIndex(CStr(llIfName)) != 0
  {
    if kernel.firstSocket < 0 || (kernelRing && kernel.secondSocket < 0) then Some(OpenSocket)
    else if IndexRejected(kernel.ifNameToIndex(CStr(llIfName))) then Some(InterfaceIndex)
    else if NameCheck(Chars(llIfName)) != EX_OK || kernel.siocgifhwaddr(CStr(llIfName)).None? then Some(MacLookup)
    else if !Supported(frameType) then Some(Events)
    else None
  }

  /** Every field of an ll_socket, as a value. */
  datatype SocketView = SocketView(
    socketFd: int, txSocketFd: int, rxSocketFd: int, txRingLen: int, rxRingLen: int,
    addr: Option<SockaddrLl>, txRingAddr: Option<SockaddrLl>, rxRingAddr: Option<SockaddrLl>,
    cbFrameRx: FrameCallback, cbFrameTx: FrameCallback, rxWatcher: EvIoArg?, txWatcher: EvIoArg?,
    state: int, history: seq<int>, llSap: int, ifName: string, ifIndex: int, ifMac: seq<Byte>,
    txDelay: int, frameType: int)

  /** `ev_io_arg_t`: a libev watcher on `fd` for `events`, with the two
      callbacks and the public arguments handed to them. */
  class EvIoArg {
    const fd: int
    const events: bv32
    const cbFrameRx: FrameCallback
    const cbFrameTx: FrameCallback
    // public_ev_arg_t
    var socketFd: int
    const llSap: int
    const txDelay: int
    const ifIndex: int
    const ifMac: seq<Byte>

    /** `init_ev_io_arg` on a zeroed structure, then `ev_io_init` on `fd`. */
    constructor (s: LlSocket, fd: int, events: bv32)
      requires s.Valid()
      ensures this.fd == fd && this.events == events
      ensures cbFrameRx == s.cbFrameRx && cbFrameTx == s.cbFrameTx
      ensures socketFd == 0 && llSap == s.llSap && txDelay == s.txDelay
      ensures ifIndex == s.ifIndex && ifMac == s.ifMac[..]
    {
      this.fd := fd;
      this.events := events;
      cbFrameRx := s.cbFrameRx;
      cbFrameTx := s.cbFrameTx;
      socketFd := 0;
      llSap := s.llSap;
      txDelay := s.txDelay;
      ifIndex := s.ifIndex;
      ifMac := s.ifMac[..];
    }

    /** `cb_process_frame_rx`: an event carrying EV_ERROR is dropped;
        otherwise the public arguments get the watcher's descriptor and the
        rx callback is called once. `called` lists the callbacks called. */
    method ProcessFrameRx(revents: bv32) returns (called: seq<FrameCallback>)
      modifies this
      ensures revents & EV_ERROR != 0 ==> called == [] && socketFd == old(socketFd)
      ensures revents & EV_ERROR == 0 ==> called == [cbFrameRx] && socketFd == fd
    {
      if revents & EV_ERROR != 0 {
        called := [];
        return;
      }
      socketFd := fd;
      called := [cbFrameRx];
    }

    /** `cb_process_frame_tx`, the same shim for the tx callback. */
    method ProcessFrameTx(revents: bv32) returns (called: seq<FrameCallback>)
      modifies this
      ensures revents & EV_ERROR != 0 ==> called == [] && socketFd == old(socketFd)
      ensures revents & EV_ERROR == 0 ==> called == [cbFrameTx] && socketFd == fd
    {
      if revents & EV_ERROR != 0 {
        called := [];
        return;
      }
      socketFd := fd;
      called := [cbFrameTx];
    }
  }

  /** The system calls of the teardown. */
  datatype CloseStep = MunmapTx(txLen: int) | MunmapRx(rxLen: int)
                     | CloseTxSocket(txFd: int) | CloseRxSocket(rxFd: int) | CloseSocket(fd: int)

  /** Some call of `trace` is one of those that fail. */
  predicate AnyFails(trace: seq<CloseStep>, failing: set<CloseStep>)
  {
    exists k :: 0 <= k < |trace| && trace[k] in failing
  }

  /** `ll_socket_t`. */
  class LlSocket {
    /** Built with KERNEL_RING: two sockets with mmap()ed rings instead of
        one socket that is read and written. */
    const kernelRing: bool
    var socketFd: int
    var txSocketFd: int
    var rxSocketFd: int
    var txRingLen: int
    var rxRingLen: int
    var addr: Option<SockaddrLl>
    var txRingAddr: Option<SockaddrLl>
    var rxRingAddr: Option<SockaddrLl>
    var cbFrameRx: FrameCallback
    var cbFrameTx: FrameCallback
    var rxWatcher: EvIoArg?
    var txWatcher: EvIoArg?
    var state: int
    /** Every value `state` has been given, in order. */
    ghost var history: seq<int>
    var llSap: int
    var ifName: string
    var ifIndex: int
    const ifMac: array<Byte>
    var txDelay: int
    var frameType: int

    ghost predicate Valid()
      reads this
    {
      ifMac.Length == ETH_ALEN
    }

    ghost function View(): SocketView
      reads this, ifMac
    {
      SocketView(socketFd, txSocketFd, rxSocketFd, txRingLen, rxRingLen, addr, txRingAddr, rxRingAddr,
                 cbFrameRx, cbFrameTx, rxWatcher, txWatcher, state, history, llSap, ifName, ifIndex, ifMac[..],
                 txDelay, frameType)
    }

    /** `new_ll_socket`: every field zero, which makes `state` READY's value
        before `init_ll_socket` sets it. */
    constructor (kernelRing: bool)
      ensures Valid() && fresh(ifMac) && this.kernelRing == kernelRing && history == []
      ensures View() == SocketView(0, 0, 0, 0, 0, None, None, None, NoCallback, NoCallback, null, null,
                                   0, [], 0, "", 0, Zeros(ETH_ALEN), 0, 0)
    {
      this.kernelRing := kernelRing;
      socketFd, txSocketFd, rxSocketFd, txRingLen, rxRingLen := 0, 0, 0, 0, 0;
      addr, txRingAddr, rxRingAddr := None, None, None;
      cbFrameRx, cbFrameTx := NoCallback, NoCallback;
      rxWatcher, txWatcher := null, null;
      state := 0;
      history := [];
      llSap, ifName, ifIndex := 0, "", 0;
      ifMac := new Byte[ETH_ALEN](_ => 0);
      txDelay, frameType := 0, 0;
      new;
      assert ifMac[..] == Zeros(ETH_ALEN);
    }

    /** `set_cb_frame_rx`. */
    static method SetCbFrameRx(s: LlSocket?, cb: FrameCallback) returns (rc: int)
      requires s != null ==> s.Valid()
      modifies s
      ensures s == null ==> rc == EX_NULL_PARAM
      ensures s != null ==> rc == EX_OK && s.View() == old(s.View()).(cbFrameRx := cb)
    {
      if s == null {
        rc := EX_NULL_PARAM;
        return;
      }
      s.cbFrameRx := cb;
      rc := EX_OK;
    }

    /** `set_cb_frame_tx`. */
    static method SetCbFrameTx(s: LlSocket?, cb: FrameCallback) returns (rc: int)
      requires s != null ==> s.Valid()
      modifies s
      ensures s == null ==> rc == EX_NULL_PARAM
      ensures s != null ==> rc == EX_OK && s.View() == old(s.View()).(cbFrameTx := cb)
    {
      if s == null {
        rc := EX_NULL_PARAM;
        return;
      }
      s.cbFrameTx := cb;
      rc := EX_OK;
    }

    /** `init_events_cb`: each supported frame type gets its own rx and tx
        callbacks; any other type (TYPE_BUFFER included) is EX_UNSUPPORTED
        and leaves the socket as it was. */
    method InitEventsCb() returns (rc: int)
      requires Valid()
      modifies this
      ensures Valid()
      ensures rc == EX_OK <==> Supported(frameType)
      ensures rc != EX_OK ==> rc == EX_UNSUPPORTED && View() == old(View())
      ensures rc == EX_OK ==>
        View() == old(View()).(cbFrameRx := FrameRx(frameType), cbFrameTx := FrameTx(frameType))
    {
      var rxCb, txCb;
      if frameType == TYPE_BUFFER {
        rc := EX_UNSUPPORTED;
        return;
      } else if frameType == TYPE_IEEE_8023 {
        rxCb, txCb := FrameRx(TYPE_IEEE_8023), FrameTx(TYPE_IEEE_8023);
      } else if frameType == TYPE_IEEE_80211 {
        rxCb, txCb := FrameRx(TYPE_IEEE_80211), FrameTx(TYPE_IEEE_80211);
      } else {
        rc := EX_UNSUPPORTED;
        return;
      }
      // Neither call can fail: the socket is not NULL.
      var rxRc := SetCbFrameRx(this, rxCb);
      var txRc := SetCbFrameTx(this, txCb);
      rc := EX_OK;
    }

    /** The descriptor the watchers of one direction use. */
    function WatchedFd(transmit: bool): int
      reads this
    {
      if !kernelRing then socketFd else if transmit then txSocketFd else rxSocketFd
    }

    /** `init_events`: callbacks first; then a transmitter gets a watcher
        for EV_WRITE (`init_tx_events`) and a receiver one for EV_READ
        (`init_rx_events`), each carrying a copy of the socket's public
        arguments. */
    method InitEvents(isTransmitter: bool) returns (rc: int)
      requires Valid()
      modifies this
      ensures Valid()
      ensures rc == EX_OK <==> Supported(frameType)
      ensures rc != EX_OK ==> rc == EX_ERR && View() == old(View())
      ensures rc == EX_OK && isTransmitter ==>
        fresh(txWatcher) &&
        View() == old(View()).(cbFrameRx := FrameRx(frameType), cbFrameTx := FrameTx(frameType), txWatcher := txWatcher)
      ensures rc == EX_OK && !isTransmitter ==>
        fresh(rxWatcher) &&
        View() == old(View()).(cbFrameRx := FrameRx(frameType), cbFrameTx := FrameTx(frameType), rxWatcher := rxWatcher)
      ensures rc == EX_OK && isTransmitter ==>
        txWatcher.fd == WatchedFd(true) && txWatcher.events == EV_WRITE && txWatcher.cbFrameTx == FrameTx(frameType)
      ensures rc == EX_OK && !isTransmitter ==>
        rxWatcher.fd == WatchedFd(false) && rxWatcher.events == EV_READ && rxWatcher.cbFrameRx == FrameRx(frameType)
    {
      var cbRc := InitEventsCb();
      if cbRc < 0 {
        rc := EX_ERR;
        return;
      }
      if isTransmitter {
        var arg := new EvIoArg(this, WatchedFd(true), EV_WRITE);
        txWatcher := arg;
      } else {
        var arg := new EvIoArg(this, WatchedFd(false), EV_READ);
        rxWatcher := arg;
      }
      rc := EX_OK;
    }

    /** `set_sockaddr_ll`: the KERNEL_RING build keeps a transmitter address
        for its TX ring and a receiver address for its RX ring; the other
        build keeps one address of the requested kind. */
    method SetSockaddrLl(isTransmitter: bool) returns (rc: int)
      requires Valid()
      modifies this
      ensures Valid() && rc == EX_OK
      ensures kernelRing ==> View() == old(View()).(
        txRingAddr := Some(InitSockaddrLl(llSap, ifIndex, true)),
        rxRingAddr := Some(InitSockaddrLl(llSap, ifIndex, false)))
      ensures !kernelRing ==>
        View() == old(View()).(addr := Some(InitSockaddrLl(llSap, ifIndex, isTransmitter)))
    {
      if kernelRing {
        txRingAddr := Some(InitSockaddrLl(llSap, ifIndex, true));
        rxRingAddr := Some(InitSockaddrLl(llSap, ifIndex, false));
      } else {
        addr := Some(InitSockaddrLl(llSap, ifIndex, isTransmitter));
      }
      rc := EX_OK;
    }

    /** `init_rings` (KERNEL_RING build): the RX ring, then the TX ring,
        then the ring addresses; it stops at the first ring the kernel
        refuses. `page` is getpagesize(). */
    method InitRings(page: nat, rxSetsockoptOk: bool, txSetsockoptOk: bool) returns (rc: int)
      requires Valid() && kernelRing
      modifies this
      ensures Valid()
      ensures rc == EX_OK <==> rxSetsockoptOk && txSetsockoptOk
      ensures rc != EX_OK ==> rc == EX_ERR
      ensures !rxSetsockoptOk ==> View() == old(View()).(rxRingLen := EX_ERR)
      ensures rxSetsockoptOk && !txSetsockoptOk ==>
        View() == old(View()).(rxRingLen := CONF_RING_FRAMES * page, txRingLen := EX_ERR)
      ensures rc == EX_OK ==> View() == old(View()).(
        rxRingLen := CONF_RING_FRAMES * page, txRingLen := CONF_RING_FRAMES * page,
        txRingAddr := Some(InitSockaddrLl(llSap, ifIndex, true)),
        rxRingAddr := Some(InitSockaddrLl(llSap, ifIndex, false)))
    {
      RingHoldsTheSlots(page);
      rxRingLen := InitRing(page, FRAMES_PER_BLOCK, NO_BLOCKS, rxSetsockoptOk);
      if rxRingLen < 0 {
        rc := EX_ERR;
        return;
      }
      txRingLen := InitRing(page, FRAMES_PER_BLOCK, NO_BLOCKS, txSetsockoptOk);
      if txRingLen < 0 {
        rc := EX_ERR;
        return;
      }
      // set_sockaddr_ll always succeeds.
      rc := SetSockaddrLl(false);
    }

    /** `close_rings`: both rings are unmapped, the second even when the
        first munmap() fails; EX_ERR when either failed. `failing` is the
        set of calls the kernel refuses; `trace` is the calls made. */
    method CloseRings(failing: set<CloseStep>) returns (rc: int, trace: seq<CloseStep>)
      ensures trace == [MunmapTx(txRingLen), MunmapRx(rxRingLen)]
      ensures rc == (if AnyFails(trace, failing) then EX_ERR else EX_OK)
    {
      rc := EX_OK;
      trace := [MunmapTx(txRingLen)];
      if MunmapTx(txRingLen) in failing {
        rc := EX_ERR;
      }
      trace := trace + [MunmapRx(rxRingLen)];
      if MunmapRx(rxRingLen) in failing {
        rc := EX_ERR;
      }
      assert trace[0] == MunmapTx(txRingLen) && trace[1] == MunmapRx(rxRingLen);
    }

    /** `close_ll_socket`: the rings (KERNEL_RING build) are unmapped before
        any descriptor is closed, every call is made whatever the earlier
        ones returned, and the result is EX_ERR exactly when one of them
        failed (`close_events` always succeeds). */
    method Close(failing: set<CloseStep>) returns (rc: int, trace: seq<CloseStep>)
      ensures kernelRing ==> (trace ==
        [MunmapTx(txRingLen), MunmapRx(rxRingLen), CloseTxSocket(txSocketFd), CloseRxSocket(rxSocketFd)])
      ensures !kernelRing ==> trace == [CloseSocket(socketFd)]
      ensures rc == (if AnyFails(trace, failing) then EX_ERR else EX_OK)
    {
      rc := EX_OK;
      trace := [];
      if kernelRing {
        var ringsRc;
        ringsRc, trace := CloseRings(failing);
        if ringsRc < 0 {
          rc := EX_ERR;
        }
        trace := trace + [CloseTxSocket(txSocketFd)];
        if CloseTxSocket(txSocketFd) in failing {
          rc := EX_ERR;
        }
        trace := trace + [CloseRxSocket(rxSocketFd)];
        if CloseRxSocket(rxSocketFd) in failing {
          rc := EX_ERR;
        }
        assert trace[..2] == [MunmapTx(txRingLen), MunmapRx(rxRingLen)];
        assert AnyFails(trace, failing) <==>
          (AnyFails(trace[..2], failing) || trace[2] in failing || trace[3] in failing);
      } else {
        trace := [CloseSocket(socketFd)];
        if CloseSocket(socketFd) in failing {
          rc := EX_ERR;
        }
        assert trace[0] == CloseSocket(socketFd);
      }
    }

    /** `start_ll_socket`: runs the event loop (not modelled); once it
        returns the socket is RUNNING. */
    method Start() returns (rc: int)
      requires Valid()
      modifies this
      ensures Valid() && rc == EX_OK
      ensures View() == old(View()).(state := LL_SOCKET_STATE_RUNNING,
                                     history := old(history) + [LL_SOCKET_STATE_RUNNING])
    {
      state := LL_SOCKET_STATE_RUNNING;
      history := history + [state];
      rc := EX_OK;
    }

    /** Steps 4 and 5 of `init_ll_socket` and its last assignment: the MAC
        address of the interface, asked on the (TX) socket, then the events;
        READY when both succeed. */
    method FinishInit(isTransmitter: bool, llIfName: string, kernel: Kernel) returns (exit: Option<InitStep>)
      requires Valid() && kernel.firstSocket >= 0
      modifies this, ifMac
      ensures Valid()
      ensures exit == (if NameCheck(Chars(llIfName)) != EX_OK || kernel.siocgifhwaddr(CStr(llIfName)).None? then Some(MacLookup)
                       else if !Supported(frameType) then Some(Events) else None)
      ensures exit.None? ==> state == LL_SOCKET_STATE_READY && history == old(history) + [LL_SOCKET_STATE_READY]
      ensures exit.None? ==> ifMac[..] == kernel.siocgifhwaddr(CStr(llIfName)).value
      ensures exit.None? ==> cbFrameRx == FrameRx(frameType) && cbFrameTx == FrameTx(frameType)
      ensures exit.None? && isTransmitter ==> txWatcher != null && txWatcher.events == EV_WRITE
      ensures exit.None? && !isTransmitter ==> rxWatcher != null && rxWatcher.events == EV_READ
      ensures socketFd == old(socketFd) && txSocketFd == old(txSocketFd) && rxSocketFd == old(rxSocketFd)
      ensures llSap == old(llSap) && frameType == old(frameType) && txDelay == old(txDelay)
      ensures ifName == old(ifName) && ifIndex == old(ifIndex)
    {
      var macRc, asked := GetMacAddress(kernel.firstSocket, Chars(llIfName), ifMac, kernel.siocgifhwaddr);
      if macRc < 0 {
        exit := Some(MacLookup);
        return;
      }
      var eventsRc := InitEvents(isTransmitter);
      if eventsRc < 0 {
        exit := Some(Events);
        return;
      }
      state := LL_SOCKET_STATE_READY;
      history := history + [state];
      exit := None;
    }

    /** Steps 2 to 5 of `init_ll_socket`, once its sockets are open: the
        descriptors and parameters are stored, the interface is looked up by
        name, then FinishInit. */
    method Configure(isTransmitter: bool, txDelay: int, llIfName: string, llSap: int, frameType: int,
                     kernel: Kernel) returns (exit: Option<InitStep>)
      requires Valid() && kernel.firstSocket >= 0 && (kernelRing ==> kernel.secondSocket >= 0)
      modifies this, ifMac
      ensures Valid()
      ensures exit == InitExit(kernelRing, llIfName, frameType, kernel)
      ensures exit.None? ==> state == LL_SOCKET_STATE_READY && history == old(history) + [LL_SOCKET_STATE_READY]
      ensures exit.None? ==> this.llSap == llSap && this.frameType == frameType && this.txDelay == txDelay
      ensures exit.None? ==> ifName == CStr(llIfName) && ifIndex == ToCInt(kernel.ifNameToIndex(CStr(llIfName)))
      ensures exit.None? ==> ifMac[..] == kernel.siocgifhwaddr(CStr(llIfName)).value
      ensures exit.None? ==> cbFrameRx == FrameRx(frameType) && cbFrameTx == FrameTx(frameType)
      ensures exit.None? && kernelRing ==> txSocketFd == kernel.firstSocket && rxSocketFd == kernel.secondSocket
      ensures exit.None? && !kernelRing ==> socketFd == kernel.firstSocket
      ensures exit.None? && isTransmitter ==> txWatcher != null && txWatcher.events == EV_WRITE
      ensures exit.None? && !isTransmitter ==> rxWatcher != null && rxWatcher.events == EV_READ
    {
      // 2) the fields
      if kernelRing {
        txSocketFd, rxSocketFd := kernel.firstSocket, kernel.secondSocket;
      } else {
        socketFd := kernel.firstSocket;
      }
      this.llSap, this.frameType, this.txDelay := llSap, frameType, txDelay;
      // 3) the interface index
      var index := kernel.ifNameToIndex(CStr(llIfName));
      if IndexRejected(index) {
        exit := Some(InterfaceIndex);
        return;
      }
      ifName := CStr(llIfName);
      ifIndex := ToCInt(index);
      exit := FinishInit(isTransmitter, llIfName, kernel);
    }

    /** `init_ll_socket`, with if_nametoindex()'s failure tested as intended
        (IndexRejected). The socket is UNDEF while it is set up and READY if
        it is returned; `exit` is the step at which the process ends through
        handle_*_error instead (no socket is returned then). */
    static method InitLlSocket(kernelRing: bool, isTransmitter: bool, txDelay: int, llIfName: string,
                               llSap: int, frameType: int, kernel: Kernel)
      returns (s: LlSocket?, exit: Option<InitStep>)
      requires StrLen(llIfName) <= IF_NAMESIZE
      ensures exit == InitExit(kernelRing, llIfName, frameType, kernel)
      ensures s == null <==> exit.Some?
      ensures s != null ==> fresh(s) && s.Valid() && s.kernelRing == kernelRing
      ensures s != null ==> s.state == LL_SOCKET_STATE_READY
      ensures s != null ==> s.history == [LL_SOCKET_STATE_UNDEF, LL_SOCKET_STATE_READY]
      ensures s != null ==> s.llSap == llSap && s.frameType == frameType && s.txDelay == txDelay
      ensures s != null ==> s.ifName == CStr(llIfName) && s.ifIndex == ToCInt(kernel.ifNameToIndex(CStr(llIfName)))
      ensures s != null ==> s.ifMac[..] == kernel.siocgifhwaddr(CStr(llIfName)).value
      ensures s != null ==> s.cbFrameRx == FrameRx(frameType) && s.cbFrameTx == FrameTx(frameType)
      ensures s != null && kernelRing ==> s.txSocketFd == kernel.firstSocket && s.rxSocketFd == kernel.secondSocket
      ensures s != null && !kernelRing ==> s.socketFd == kernel.firstSocket
      ensures s != null && isTransmitter ==> s.txWatcher != null && s.txWatcher.events == EV_WRITE
      ensures s != null && !isTransmitter ==> s.rxWatcher != null && s.rxWatcher.events == EV_READ
    {
      var t := new LlSocket(kernelRing);
      t.state := LL_SOCKET_STATE_UNDEF;
      t.history := t.history + [t.state];
      // 1) the raw socket(s)
      if kernel.firstSocket < 0 || (kernelRing && kernel.secondSocket < 0) {
        s, exit := null, Some(OpenSocket);
        return;
      }
      exit := t.Configure(isTransmitter, txDelay, llIfName, llSap, frameType, kernel);
      s := if exit.None? then t else null;
    }
  }

  /** The life cycle of a socket that is set up and started: UNDEF while
      it is set up, READY on return, RUNNING once its loop has returned. */
  method Lifecycle(kernelRing: bool, isTransmitter: bool, txDelay: int, llIfName: string,
                   llSap: int, frameType: int, kernel: Kernel)
    returns (s: LlSocket?)
    requires StrLen(llIfName) <= IF_NAMESIZE
    requires InitExit(kernelRing, llIfName, frameType, kernel).None?
    ensures s != null && s.state == LL_SOCKET_STATE_RUNNING
    ensures s.history == [LL_SOCKET_STATE_UNDEF, LL_SOCKET_STATE_READY, LL_SOCKET_STATE_RUNNING]
  {
    var exit;
    s, exit := LlSocket.InitLlSocket(kernelRing, isTransmitter, txDelay, llIfName, llSap, frameType, kernel);
    var rc := s.Start();
  }
}
