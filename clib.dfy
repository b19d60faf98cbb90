/** Plain C data as the link-layer tool sees it: bytes, MAC addresses and
    NUL-terminated strings (with the NULL pointer as a value of its own). */
module CLib {

  /** An `unsigned char`. */
  type Byte = x: int | 0 <= x < 256

  // Constants of <linux/if_ether.h>.
  /** Length of an Ethernet (EUI-48) address. */
  const ETH_ALEN: nat := 6
  /** Length of an Ethernet header, of its largest payload and of the
      largest frame without its checksum. */
  const ETH_HLEN: nat := 14
  const ETH_DATA_LEN: nat := 1500
  const ETH_FRAME_LEN: nat := 1514
  /** The protocol number that matches every protocol. */
  const ETH_P_ALL: nat := 3

  /** IF_NAMESIZE of <net/if.h>: the longest interface name the tool accepts. */
  const IF_NAMESIZE: nat := 16

  /** An `unsigned int`. */
  type Uint32 = x: int | 0 <= x < 0x1_0000_0000

  /** A buffer of exactly ETH_ALEN bytes holding a MAC address. */
  type MacAddress = s: seq<Byte> | |s| == ETH_ALEN witness [0, 0, 0, 0, 0, 0]

  datatype Option<T> = None | Some(value: T)

  /** `n` zero bytes, what `memset(p, 0, n)` leaves behind. */
  function Zeros(n: nat): (r: seq<Byte>)
    ensures |r| == n && forall k :: 0 <= k < n ==> r[k] == 0
  {
    seq(n, _ => 0)
  }

  /** A `const char *` argument: either NULL or a pointer to characters. */
  datatype CString = Null | Chars(chars: string)

  /** `strlen`: the number of characters before the first NUL (or all of them). */
  function StrLen(s: string): (n: nat)
    ensures n <= |s|
    ensures forall k :: 0 <= k < n ==> s[k] != '\0'
    ensures n < |s| ==> s[n] == '\0'
  {
    if s == [] || s[0] == '\0' then 0 else 1 + StrLen(s[1..])
  }

  /** The characters a C string denotes: everything before its first NUL. */
  function CStr(s: string): (r: string)
    ensures |r| == StrLen(s) && r == s[..StrLen(s)]
  {
    s[..StrLen(s)]
  }
}
