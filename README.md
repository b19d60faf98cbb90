# linklayertool in Dafny

A model of the logic at the core of linklayertool, a Linux tool that sends
and receives raw IEEE 802.3 and IEEE 802.11 frames over `PF_PACKET` sockets.
The model has four parts:

- **The TPACKET_V1 packet rings** (`docs/snippets/packet-rx-ring.c`,
  `docs/snippets/packet-tx-ring.c`). The ring is 128 page-sized slots, each
  with a status word that says whether the kernel or the process owns it.
  The cursor wraps with the mask `CONF_RING_FRAMES - 1`.
  - `PacketRing` has what both sides share: the slot geometry and page
    alignment, the `tpacket_req` request, and the teardown order.
  - `PacketRxRing.RxRing` is the consumer (`process_rx`,
    `process_rx_release`).
  - `PacketTxRing.TxRing` is the producer (`process_tx`).
  - Each ring is a class over an `array` of slots. The kernel is explicit
    methods that flip slot statuses.
- **The frame codecs** (`ll_frame.c`, `ieee8023_frame.c`,
  `ieee80211_frame.c`). They cover:
  - the frame info record and its timestamp;
  - the hex dump and the MAC-address text, each with a parser that reads
    the text back;
  - the byte layout of the 802.3 frame (6 + 6 + 2 header bytes, then up to
    1500 data bytes);
  - the reduced 802.11 frame, whose header holds only the destination and
    source addresses;
  - the read, transmit, print and callback logic of both frame types.
- **The link-layer socket** (`ll_socket.c`). It covers:
  - the ring request and the bind address;
  - the checks on the interface-name argument;
  - the mapping from frame type to callbacks;
  - the event shim that drops `EV_ERROR`;
  - the teardown, which tries every step and reports whether any failed;
  - the life cycle of the `state` field: UNDEF, then READY, then RUNNING.
- **The configuration** (`configuration.c`). `read_configuration` assigns
  one field per command-line option. `check_configuration` validates the
  result and converts the delay from milliseconds to microseconds.

System calls and kernel answers are parameters:
- `read()` and `sendto()` results are `ReadOutcome` and `SendOutcome`;
- `poll()` results are `PollOutcome`;
- a `gettimeofday()` result is an `Option<Timeval>`;
- ioctl answers are functions from an interface name to its index or MAC.

`handle_app_error` ends the process. The model returns that as an outcome
instead: an `exit` value, or a null socket. The `print_*` functions return
a report of the values they log. Only the address texts and the hex dumps
are rendered as text.

Module layout:
- `CLib`: C bytes, C strings, `Option`.
- `ExecutionCodes`: the `EX_*` codes.
- `Bits`: bitwise AND on naturals, plus the arithmetic lemmas it needs.
- `Syscalls`: system-call outcomes.
- Then one module per source file.

## Model

| member | source | states |
|---|---|---|
| PacketRing.TpacketAlign | docs/snippets/packet-rx-ring.c:28-29 | `TPACKET_ALIGN` gives the smallest multiple of 16 that is at least x |
| PacketRing.FlagTest | docs/snippets/packet-rx-ring.c:126-143 | `status & 2^k` is non-zero exactly when bit k of the status word is set |
| PacketRing.NextCursor | docs/snippets/packet-rx-ring.c:161 | `(c + 1) & (CONF_RING_FRAMES - 1)` is the successor of c modulo 128, and it stays in [0, 128) |
| PacketRing.AdvanceWraps | docs/snippets/packet-rx-ring.c:161 | n cursor steps move the cursor n slots around the ring, modulo 128 |
| PacketRing.AdvanceFullCircle | docs/snippets/packet-tx-ring.c:189 | 128 cursor steps bring the cursor back to where it started |
| PacketRing.SlotBase | docs/snippets/packet-rx-ring.c:120 | slot `offset` starts `offset` pages after the ring base, as in `ring + offset * getpagesize()` (a definition; `SlotAligned` and `SlotsDisjoint` carry its properties) |
| PacketRing.SlotAligned | docs/snippets/packet-rx-ring.c:120-121 | on a page-aligned ring, every slot base `ring + offset * pagesize` passes the assertion `(header & (pagesize - 1)) == 0` |
| PacketRing.SlotsDisjoint | docs/snippets/packet-rx-ring.c:120 | distinct slots are disjoint pages, in slot order, and all lie inside the 128 * pagesize bytes of the mapping |
| PacketRing.TpacketRequest | docs/snippets/packet-rx-ring.c:49-52 | frame size is the page; block size is frames per block times the page; frame count is frames per block times block count; block size * block count == frame size * frame count |
| PacketRing.SnippetRingLength | docs/snippets/packet-rx-ring.c:49-63 | the snippets' request maps exactly 128 * pagesize bytes, the length `exit_packetsock` unmaps, in 128 frames |
| PacketRing.ExitPacketsock | docs/snippets/packet-rx-ring.c:96-109 | munmap of 128 pages comes first; close() is attempted only if munmap succeeds; the result is 0 iff both succeed, otherwise 1 |
| PacketRxRing.RxWait | docs/snippets/packet-rx-ring.c:126-138 | while the slot is the kernel's, a returning poll() means wait again; an interrupted or failed poll() yields no packet |
| PacketRxRing.Release | docs/snippets/packet-rx-ring.c:152-162 | the cursor slot's status becomes 0 (kernel-owned), every other slot is unchanged, and the cursor becomes (cursor + 1) % 128 |
| PacketRxRing.ReleaseNEffect | docs/snippets/packet-rx-ring.c:152-162 | n <= 128 releases give back exactly the n slots from the cursor on, leave the others untouched, and move the cursor n slots |
| PacketRxRing.ReleaseFullCircle | docs/snippets/packet-rx-ring.c:161 | 128 releases give every slot back to the kernel and return the cursor to its start |
| PacketRxRing.RxRing.constructor | docs/snippets/packet-rx-ring.c:43-68 | a freshly mapped, page-aligned ring: the kernel owns every slot and the cursor is at slot 0 |
| PacketRxRing.RxRing.ProcessRx | docs/snippets/packet-rx-ring.c:113-148 | a slot without `TP_STATUS_USER` is not handed out; USER with `TP_STATUS_COPY` gives no packet (Incomplete); a USER slot without COPY is delivered at slot base + `PKT_OFFSET`, with `TP_STATUS_LOSING` only flagging dropped packets; nothing changes |
| PacketRxRing.RxRing.ProcessRxRelease | docs/snippets/packet-rx-ring.c:152-162 | the new ring state is `Release` of the old one |
| PacketRxRing.RxRing.KernelDeliver | docs/snippets/packet-rx-ring.c:123-126 | the kernel fills only a slot it owns and hands it over with `TP_STATUS_USER` set; no other slot and not the cursor changes |
| PacketTxRing.CopyAtPlaces | docs/snippets/packet-tx-ring.c:181-182 | `memcpy` puts the packet at the offset byte for byte and leaves every other byte unchanged |
| PacketTxRing.TxWait | docs/snippets/packet-tx-ring.c:164-178 | while the slot is pending, a returning poll() means wait again; `EINTR` returns 0 and any other poll() error returns -1 |
| PacketTxRing.Written | docs/snippets/packet-tx-ring.c:181-186 | a written slot has status `TP_STATUS_SEND_REQUEST` and `tp_len == pktlen`, and its frame keeps its size |
| PacketTxRing.WrittenPayload | docs/snippets/packet-tx-ring.c:181-182 | the written slot holds the payload at `TPACKET_HDRLEN - sizeof(sockaddr_ll)` |
| PacketTxRing.Submit | docs/snippets/packet-tx-ring.c:180-189 | only the cursor slot is written, every other slot is unchanged, and the cursor becomes (cursor + 1) % 128 |
| PacketTxRing.SubmitAllFills | docs/snippets/packet-tx-ring.c:150-198 | starting from an all-available ring, n <= 128 submits fill the n slots from the cursor in order, each with its own packet, and touch no other slot |
| PacketTxRing.Saturation | docs/snippets/packet-tx-ring.c:164 | 128 submits leave every slot pending and the cursor back at its start; the next submit must wait, so no pending slot is overwritten |
| PacketTxRing.TxRing.constructor | docs/snippets/packet-tx-ring.c:72-100 | a freshly mapped ring: every slot is available and zeroed, and the cursor is at slot 0 |
| PacketTxRing.TxRing.ProcessTx | docs/snippets/packet-tx-ring.c:150-198 | an available cursor slot is submitted; the kernel is notified only after that, and the result is 0 or -1 by sendto(). A pending slot is left as is (nothing written, cursor unmoved, no notification), and the result follows poll() |
| PacketTxRing.TxRing.KernelSetStatus | docs/snippets/packet-tx-ring.c:184-186 | the kernel moves only a slot it owns, along SEND_REQUEST to SENDING to AVAILABLE or WRONG_FORMAT; only that status word changes |
| LlFrame.TimestampUsecs | src/ll_library/ll_frame.c:109-113 | the result is `tv_sec * 1000000 + tv_usec` whenever that fits in `uint64_t`, and is reduced modulo 2^64 otherwise |
| LlFrame.TimestampRoundTrip | src/ll_library/ll_frame.c:109-113 | seconds and microseconds are recovered from the timestamp by division and remainder |
| LlFrame.LlFrameInfo.constructor | src/ll_library/ll_frame.c:40-48 | `new_ll_frame` gives a zeroed record |
| LlFrame.LlFrameInfo.Set | src/ll_library/ll_frame.c:78-93 | type and length are stored as given; the result is EX_OK with the new timestamp when the clock is read, and EX_ERR with the timestamp unchanged when it is not |
| LlFrame.LlFrameInfo.Print | src/ll_library/ll_frame.c:96-106 | the record is reported unchanged, with the timestamp in microseconds, and the result is EX_OK |
| LlFrame.SendVerdict | src/ll_library/ieee80211_frame.c:189-202 | a transmit succeeds iff sendto() did not fail and wrote at least the threshold; otherwise the result is EX_SYS |
| LlFrame.LowByte | src/ll_library/ll_frame.c:128 | `0xFF & (unsigned int) c` is the signed char's value modulo 256 |
| LlFrame.LowBytesOfCChars | src/ll_library/ll_frame.c:128 | bytes stored as chars print as the same bytes |
| LlFrame.HexPair | src/ll_library/ll_frame.c:128 | `%02X` gives two uppercase hex digits that encode the byte exactly |
| LlFrame.PrintHexData | src/ll_library/ll_frame.c:116-134 | a negative length gives EX_WRONG_PARAM and no output; otherwise the output is the hex dump of the first len bytes (empty for 0) and the result is EX_OK |
| LlFrame.Piece | src/ll_library/ll_frame.c:126-129 | the text for byte i of n: only its two hex digits survive stripping the separators; it holds one ':' iff i is not the last byte, and one line break iff i % 8 == 0 |
| LlFrame.HexDumpPrefix | src/ll_library/ll_frame.c:124-130 | the text after k iterations of the loop: the pieces of bytes 0 to k - 1, in order (a definition; `HexDump` carries its properties) |
| LlFrame.HexDump | src/ll_library/ll_frame.c:119-130 | reading the dump back gives exactly the bytes dumped, in order; a dump of n bytes has n - 1 colons (none for n = 0) and ceil(n / 8) line breaks |
| LlFrame.CharWindow | src/ll_library/ll_frame.c:128 | the low bytes of `len` chars of a byte buffer's `char` view, from any offset, are exactly the bytes of that window |
| LlFrame.EthAddressText | src/ll_library/ll_frame.c:137-148 | an address is rendered as exactly 17 characters |
| LlFrame.EthAddressShape | src/ll_library/ll_frame.c:140-146 | the text is `XX:XX:XX:XX:XX:XX`: ':' at every third position, and byte j / 3 as two hex digits elsewhere |
| LlFrame.EthAddressIsDump | src/ll_library/ll_frame.c:137-148 | the address text is the hex dump of the same six bytes, minus its leading line break |
| LlFrame.EthAddressRoundTrip | src/ll_library/ll_frame.c:137-148 | the address text reads back as the six address bytes |
| Ieee8023Frame.EncodeHeader | src/ll_library/ieee8023_frame.h:55-61 | the header is 14 bytes: dest at 0-5, source at 6-11, protocol big-endian at 12-13 |
| Ieee8023Frame.DecodeHeader | src/ll_library/ieee8023_frame.h:55-61 | reading `ethhdr` from the front of a buffer: dest, source, then a protocol below 2^16 |
| Ieee8023Frame.HeaderRoundTrip | src/ll_library/ieee8023_frame.h:55-61 | a header with a 16-bit protocol encodes and decodes back to itself |
| Ieee8023Frame.HeaderBytesRoundTrip | src/ll_library/ieee8023_frame.h:55-61 | any 14 bytes decode to a header that encodes back to the same bytes |
| Ieee8023Frame.FrameRoundTrip | src/ll_library/ieee8023_frame.h:55-61 | encoding a header and up to 1500 data bytes, then decoding, recovers both |
| Ieee8023Frame.FrameBytesRoundTrip | src/ll_library/ieee8023_frame.h:55-61 | any 14 to 1514 bytes decode to a header and data that encode back to the same bytes |
| Ieee8023Frame.HostProto | src/ll_library/ieee8023_frame.c:206 | the printed `h_proto` is bytes 12-13 read in host (little-endian) order |
| Ieee8023Frame.Frame.Init | src/ll_library/ieee8023_frame.c:49-65 | dest and source are copied verbatim; `h_proto` is `htons(ETH_P_ALL)` and `ll_sap` is ignored; the data is zero; the info is type 802.3 with length `ETH_FRAME_LEN` |
| Ieee8023Frame.Frame.Read | src/ll_library/ieee8023_frame.c:103-127 | EX_ERR iff read() returns <= 0, and then nothing changes; otherwise the bytes read fill the front of the buffer, `frame_len` is the byte count, the type is 802.3, and the result is EX_OK even for a short read |
| Ieee8023Frame.Frame.Print | src/ll_library/ieee8023_frame.c:195-217 | EX_ERR iff `frame_len < ETH_HLEN`. The address texts are `print_eth_address` of the header's addresses, 17 characters each, and read back as them. The data text is `HexDump` of the `frame_len - 14` bytes after the header: it reads back as them and has one colon fewer than bytes |
| Ieee8023Frame.TestVerdictAsWritten | src/ll_library/ieee8023_frame.c:184 | as written: success needs at least `ETH_FRAME_LEN` (1514) bytes sent |
| Ieee8023Frame.TestVerdict | src/ll_library/ieee8023_frame.c:175-190 | corrected: success iff the whole 24-byte test frame was sent |
| Ieee8023Frame.AsWrittenNeverSucceeds | src/ll_library/ieee8023_frame.c:184 | no count a 24-byte send can return passes the test as written, while the full send passes the corrected one |
| Ieee8023Frame.TxTestFrame | src/ll_library/ieee8023_frame.c:152-192 | corrected (see Findings): the frame sent is the 24-byte encoding: destination `ETH_ADDR_BROADCAST`, the interface MAC as source, `ETH_P_ALL`, 10 zero bytes. It goes to the given interface and broadcast address; EX_OK iff all of it was sent, where the code as written never gives EX_OK |
| Ieee8023Frame.TxCallback | src/ll_library/ieee8023_frame.c:132-149 | corrected (see Findings): the delay is slept iff the test transmit succeeded, which under the corrected verdict is a full 24-byte send; as written the code never sleeps |
| Ieee8023Frame.RxCallback | src/ll_library/ieee8023_frame.c:83-100 | a frame is reported iff read() returned data; its address texts are those of the first 12 received bytes, and its dump is `HexDump` of the received bytes after the header and reads back as them |
| Ieee80211Frame.FrameLength | src/ll_library/ieee80211_frame.h:44-46 | a check on the constants, with no proof in it: `IEEE_80211_FRAME_LEN == IEEE_80211_HLEN + IEEE_80211_BLEN` (2343 = 30 + 2313), and the 12-byte header is shorter than `IEEE_80211_HLEN` |
| Ieee80211Frame.EncodeHeader | src/ll_library/ieee80211_frame.h:67-84 | the header is 12 bytes: dest at 0-5, source at 6-11 |
| Ieee80211Frame.FrameRoundTrip | src/ll_library/ieee80211_frame.h:92-99 | encoding the header and a body, then decoding, recovers both |
| Ieee80211Frame.FrameBytesRoundTrip | src/ll_library/ieee80211_frame.h:92-99 | any bytes that fit the buffer decode to a header and body that encode back to the same bytes |
| Ieee80211Frame.Frame.Init | src/ll_library/ieee80211_frame.c:26-66 | the frame starts all zero; source and dest are copied verbatim; the info is type 802.11 with length `ETH_FRAME_LEN` |
| Ieee80211Frame.Frame.Read | src/ll_library/ieee80211_frame.c:106-130 | at most 2343 bytes. EX_ERR iff read() returns <= 0, and then nothing changes. Otherwise the bytes fill the front of the buffer, `frame_len` is the count, the type is 802.11, and the result is EX_OK even for a short read |
| Ieee80211Frame.Frame.Print | src/ll_library/ieee80211_frame.c:207-244 | EX_ERR iff `frame_len < IEEE_80211_HLEN`. The address texts are `print_eth_address` of the header's addresses, 17 characters each, and read back as them. The data text is `HexDump` of the `frame_len - 30` bytes from offset 12 and reads back as them |
| Ieee80211Frame.DumpWindow | src/ll_library/ieee80211_frame.c:236-238 | after a read, the dumped window is the received bytes from offset 12, minus the last 18 |
| Ieee80211Frame.TestVerdict | src/ll_library/ieee80211_frame.c:196 | success iff sendto() did not fail and wrote at least 10 bytes |
| Ieee80211Frame.TxTestFrame | src/ll_library/ieee80211_frame.c:155-204 | 40 bytes are sent (`IEEE_80211_HLEN + 10`): dest `ETH_ADDR_BROADCAST`, the interface MAC as source, a zero body. They go to the given interface and the broadcast address; EX_OK iff at least 10 were written |
| Ieee80211Frame.TxCallback | src/ll_library/ieee80211_frame.c:135-152 | the delay is slept iff the test transmit succeeded |
| Ieee80211Frame.RxCallback | src/ll_library/ieee80211_frame.c:86-103 | a frame is reported iff read() returned data; its address texts are those of the first 12 received bytes, and its dump is `HexDump` of the received window from offset 12 and reads back as it |
| LlSocket.InitRing | src/ll_library/ll_socket.c:502-535 | on success the length is `tp_block_size * tp_block_nr` (= frame size * frame count); a refused setsockopt() gives EX_ERR |
| LlSocket.RingHoldsTheSlots | src/ll_library/ll_socket.c:109-118 | the ring each socket requests has 128 page-sized frames, and its mapping is 128 pages long |
| LlSocket.InitSockaddrLl | src/ll_library/ll_socket.c:123-138 | family `PF_PACKET`, the interface index copied, halen 6, address bytes all 0xFF with the last two zero; protocol `htons(ll_sap)` for a transmitter and `htons(ETH_P_ALL)` otherwise |
| LlSocket.NameCheck | src/ll_library/ll_socket.c:146-154 | NULL gives EX_NULL_PARAM, empty gives EX_EMPTY_PARAM, over IF_NAMESIZE gives EX_WRONG_PARAM; EX_OK iff none applies |
| LlSocket.IfName2IfIndex | src/ll_library/ll_socket.c:141-164 | a refused name never reaches the ioctl; otherwise the kernel's index is returned, and its failure ends the process |
| LlSocket.GetMacAddress | src/ll_library/ll_socket.c:167-201 | checks in order: NULL name, NULL buffer, negative fd, then the name. The ioctl is asked about the name only when all pass. EX_OK iff it answers, and then the buffer holds the MAC; otherwise the buffer is unchanged |
| LlSocket.ToCInt | src/ll_library/ll_socket.c:278 | the `unsigned int` index becomes the `int` with the same value modulo 2^32 |
| LlSocket.IndexRejectedAsWritten | src/ll_library/ll_socket.c:278 | as written: an index is rejected iff its conversion to `int` is negative |
| LlSocket.IndexRejected | src/ll_library/ll_socket.c:278-279 | corrected: an index is rejected iff it is if_nametoindex()'s failure value 0 |
| LlSocket.UnknownInterfaceSlipsThrough | src/ll_library/ll_socket.c:278-279 | the failure value 0 passes the test as written but not the corrected one; real indices pass both |
| LlSocket.InitExit | src/ll_library/ll_socket.c:217-310 | corrected (see Findings): `init_ll_socket` completes only with an open socket, an interface index other than 0, a supported frame type, a non-empty name and a MAC the kernel knows; an unknown interface ends at the index step |
| LlSocket.EvIoArg.constructor | src/ll_library/ll_socket.c:83-104 | the watcher carries the socket's callbacks, sap, delay, index and MAC |
| LlSocket.EvIoArg.ProcessFrameRx | src/ll_library/ll_socket.c:722-738 | with `EV_ERROR` the callback is not called and `socket_fd` is unchanged; otherwise `socket_fd` is the watcher fd and the rx callback is called exactly once |
| LlSocket.EvIoArg.ProcessFrameTx | src/ll_library/ll_socket.c:741-757 | the same for the tx callback |
| LlSocket.LlSocket.constructor | src/ll_library/ll_socket.c:208-214 | `new_ll_socket` zeroes every field |
| LlSocket.LlSocket.SetCbFrameRx | src/ll_library/ll_socket.c:760-770 | EX_NULL_PARAM for a NULL socket; otherwise only `cb_frame_rx` changes |
| LlSocket.LlSocket.SetCbFrameTx | src/ll_library/ll_socket.c:773-783 | EX_NULL_PARAM for a NULL socket; otherwise only `cb_frame_tx` changes |
| LlSocket.LlSocket.InitEventsCb | src/ll_library/ll_socket.c:601-649 | 802.3 and 802.11 get their own rx/tx callbacks; any other type gives EX_UNSUPPORTED with nothing changed |
| LlSocket.LlSocket.WatchedFd | src/ll_library/ll_socket.c:663-703 | the descriptor a watcher is put on: `tx_socket_fd` or `rx_socket_fd` by direction in the KERNEL_RING build, `socket_fd` otherwise (a definition; `InitEvents` carries the property) |
| LlSocket.LlSocket.InitEvents | src/ll_library/ll_socket.c:566-598 | callbacks first, then a write watcher for a transmitter or a read watcher for a receiver; on failure EX_ERR with nothing changed |
| LlSocket.LlSocket.SetSockaddrLl | src/ll_library/ll_socket.c:419-431 | the transmitter or receiver address of `init_sockaddr_ll` is stored, and nothing else changes |
| LlSocket.LlSocket.InitRings | src/ll_library/ll_socket.c:465-499 | the RX ring, then the TX ring; the first refusal stops with EX_ERR; EX_OK iff both are mapped, with their lengths stored |
| LlSocket.LlSocket.CloseRings | src/ll_library/ll_socket.c:538-557 | both rings are unmapped even if the first unmap fails; EX_ERR iff some step failed |
| LlSocket.LlSocket.Close | src/ll_library/ll_socket.c:376-416 | the rings are unmapped before the descriptors are closed; every step is tried; EX_ERR iff some step failed |
| LlSocket.LlSocket.Start | src/ll_library/ll_socket.c:790-807 | after the event loop the state is RUNNING, appended to the state history |
| LlSocket.LlSocket.FinishInit | src/ll_library/ll_socket.c:287-306 | the MAC lookup, then the events; either failure ends the process; otherwise the MAC, callbacks and watcher are set and the state becomes READY |
| LlSocket.LlSocket.Configure | src/ll_library/ll_socket.c:252-306 | corrected (see Findings): once the sockets are open, the process ends exactly when `InitExit` says; otherwise the descriptors, sap, delay, name, index, MAC, callbacks and watcher are stored and the state becomes READY |
| LlSocket.LlSocket.InitLlSocket | src/ll_library/ll_socket.c:217-310 | corrected (see Findings): the process ends exactly when `InitExit` says. Otherwise the socket holds the kernel's descriptors, the sap, delay, name, index and MAC, the callbacks of its frame type and the watcher of its direction. Its state went UNDEF then READY |
| LlSocket.Lifecycle | src/ll_library/ll_socket.c:231-306 | a socket that is set up and started has held the states UNDEF, READY, RUNNING, in that order |
| Configuration.StrNCpy | src/configuration.c:99 | `strncpy` writes the name into the first n characters, pads with NULs, and leaves the rest of the buffer alone |
| Configuration.Configuration.constructor | src/configuration.c:26-33 | the configuration starts cleared: both modes off, delay, lsap and frame type 0, the name buffer all NUL (see Left out for malloc) |
| Configuration.Configuration.CopyName | src/configuration.c:99 | the `if_name` buffer becomes the `strncpy` of the argument into its first IF_NAMESIZE characters |
| Configuration.CopiedName | src/configuration.c:99 | after `-i`, the interface name is the first min(length, IF_NAMESIZE) characters of the argument |
| Configuration.Apply | src/configuration.c:72-125 | `-t` sets `is_transmitter` and the raw delay; `-r` sets `is_receiver`; `-l` sets the lsap; `-i` copies the name; `-f` sets the frame type; anything else leaves the configuration alone |
| Configuration.FirstExit | src/configuration.c:113-124 | the first `-v`/`-h` (or unknown) option ends the process; no option before it does |
| Configuration.ModeFlags | src/configuration.c:74-83 | after the options, `is_transmitter` (`is_receiver`) is set iff it was set before or some `-t` (`-r`) was given; nothing clears it |
| Configuration.LastDelayWins | src/configuration.c:74-78 | the raw delay is the argument of the last `-t`, or unchanged if there is none |
| Configuration.Configuration.ReadConfiguration | src/configuration.c:49-131 | the options are applied in order up to the first one that ends the process; EX_OK when none does; verbose iff `-e` came before that point |
| Configuration.Check | src/configuration.c:134-180 | EX_OK iff exactly one of TX/RX is set, a transmitter's delay is in 1..1000, lsap > 0, the name is non-empty and frame type > 0. The mode error is reported iff TX == RX. On acceptance a transmitter's delay is multiplied by 1000 (so it is in 1000..1000000) and a receiver's configuration is unchanged |
| Configuration.CheckIsStable | src/configuration.c:147-158 | converting the delay back to milliseconds gives a configuration the check accepts with the same result |
| Configuration.Configuration.CheckConfiguration | src/configuration.c:134-180 | NULL ends the process; otherwise the first failing check ends it, and the fields end as `Check` says |

## Left out

- System calls are outcomes passed in, not effects: socket, bind, setsockopt, ioctl, if_nametoindex, mmap/munmap, read, sendto, close, poll, usleep and gettimeofday. The contents of the kernel's rings are written only by the explicit kernel methods.
- Kernel concurrency and memory ordering on `tp_status` are not modelled. The kernel moves one slot at a time, between calls of the process.
- `process_rx` and `process_tx` retry poll() in a loop. The model is one pass of that loop: `NotReady`/`Waiting` means the caller retries. A loop would need the kernel to act while it runs.
- libev is not part of this model (`ev_loop`, `ev_io_init`, `ev_io_start`, the `loop` field, `close_events`). `init_rx_events`/`init_tx_events` are modelled only as the watcher they install.
- `open_ll_socket`, `bind_ll_socket`, `set_promiscuous_ll_socket`, the demo `main` functions of the snippets, `sendRawEth.c`, `probas.c` and `src/main.c` are not part of this model. They are orchestration or demos with no logic of their own.
- Process control: `handle_*_error` becomes an exit outcome. `getopt_long`, `atoi`, `print_help`/`print_version` and all logging are left out. An option carries the value `atoi` made of its argument, and an option getopt_long does not know is passed as `Help`.
- printf's numeric formatting is not modelled. Reports hold the values printed, and only MAC addresses and hex dumps are rendered as text.
- The random buffer of the 802.11 test transmit is left out. It is built with floating point and never sent.
- The KERNEL_RING `read_*` stubs are left out. They always return EX_ERR.
- The 802.11 fields that `init_ieee80211_frame` and `print_ieee80211_frame` refer to (frame control, duration, bssid, sequence control, dist) are commented out of the header struct. The model keeps only dest and src. The 30-byte `IEEE_80211_HLEN` does not match that 12-byte header, and the data length printed follows the code.
- Ieee80211Frame.Frame: the buffer is modelled as 2343 bytes, the size read() asks for. The struct it is read into is 2325 bytes. The read buffer the tool passes in is `LEN__LL_FRAME + 5000` bytes, so there is no overrun.
- Ieee8023Frame.Frame.Read and Ieee80211Frame.Frame.Read require the byte count to be at most the request size. read() never returns more.
- Ieee8023Frame.TxTestFrame, Ieee8023Frame.TxCallback, Ieee80211Frame.TxTestFrame and Ieee80211Frame.TxCallback require an accepted send to report at most TEST_FRAME_LEN bytes, the length handed to sendto(). sendto() never reports more bytes than it was given.
- Ieee8023Frame.HostProto fixes a little-endian host. `h_proto` holds the protocol in network order, and the `%02X` at line 206 prints it as a host integer, so on a big-endian host the printed value would be bytes 12-13 read big-endian.
- LlSocket.LlSocket.InitLlSocket requires a name of at most IF_NAMESIZE characters. `strncpy` copies strlen bytes into the 16-byte `if_name`, so a longer name would overrun it. The name check in `get_mac_address` runs only after that copy.
- PacketTxRing.TxRing.ProcessTx requires the packet to fit between offset 32 and the end of its slot; so do `Submit` and `SubmitAll`. `process_tx` does not check this: a longer packet overruns the next slot, or the end of the mapping from slot 127.
- Ieee8023Frame.TxTestFrame uses the corrected verdict `TestVerdict`: a full 24-byte send gives EX_OK. As written, line 184 gives EX_SYS for every send (`TestVerdictAsWritten`, `AsWrittenNeverSucceeds`).
- Ieee8023Frame.TxCallback follows `TxTestFrame`'s corrected verdict, so it sleeps after a full send. As written the test transmit always fails and the callback never sleeps.
- LlSocket.InitExit uses the corrected index test `IndexRejected`. For an unknown interface, if_nametoindex gives 0. The model ends there, at the index step. As written, 0 passes line 278 and is stored, and the process ends at the MAC lookup; if SIOCGIFHWADDR answers for that name, it goes on with index 0 (`UnknownInterfaceSlipsThrough`).
- LlSocket.LlSocket.Configure ends exactly when `InitExit` says, so it inherits the corrected index test: an unknown interface ends at the index step, not at the MAC lookup.
- LlSocket.LlSocket.InitLlSocket inherits the same corrected index test through `Configure`.
- LlSocket.InitSockaddrLl: the protocol is `ll_sap` modulo 2^16, the value `htons` receives. The byte swap is not modelled, because the field is compared only as a number.
- The `sll_family`/`sll_protocol` fields of the test-transmit address are not part of `SendTarget`. It holds the index, the address length and the address.
- mmap's NULL checks, `malloc` and its failure, leaks, `new_ll_framebuffer`, and the socket's frame buffer are left out.
- Configuration.Configuration.constructor clears the configuration. `new_configuration` uses `malloc`, so its fields start undefined. If byte 16 of `if_name` is not NUL, a 16-character `-i` argument leaves the name unterminated.
- `create_configuration` and `print_configuration` are left out. The first only calls read, then check. The second only logs.

## Findings

| source | as written | input that shows it | evidently intended | confidence | as-written member | corrected member |
|---|---|---|---|---|---|---|
| src/ll_library/ieee8023_frame.c:184 | the test transmit fails unless at least `ETH_FRAME_LEN` (1514) bytes were written | any send of the 24-byte test frame, including one that writes all 24 bytes | success iff the whole test frame (`frame_len` bytes) was written | not executed | Ieee8023Frame.AsWrittenNeverSucceeds | Ieee8023Frame.TestVerdict |
| src/ll_library/ll_socket.c:278 | `if_nametoindex(...) < 0` is used to detect an unknown interface, but the result is `unsigned int` and failure is 0 | an interface name the kernel does not know: if_nametoindex returns 0, which passes the test | reject the index 0 | not executed | LlSocket.UnknownInterfaceSlipsThrough | LlSocket.IndexRejected |
