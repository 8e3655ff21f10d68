/** Value types shared by the user-space control plane: addresses as they are
    laid out in memory (network byte order), UDP endpoints and frame constants. */
module Net {

  type Byte = x: int | 0 <= x < 256

  type Port = x: int | 0 <= x < 0x1_0000

  type U32 = x: int | 0 <= x < 0x1_0000_0000

  /** An IPv4 address as the four bytes of an `ipaddr_t` in memory, in network
      byte order. Comparing two `ipaddr_t` with `==` compares these bytes. */
  type IpAddr = s: seq<Byte> | |s| == 4 witness [0, 0, 0, 0]

  /** A `macaddr_t`: six bytes compared with `memcmp`. */
  type MacAddr = s: seq<Byte> | |s| == 6 witness [0, 0, 0, 0, 0, 0]

  const ZeroIp: IpAddr := [0, 0, 0, 0]

  /** `sizeof(struct ethhdr)`: destination MAC, source MAC and EtherType. */
  const EthHeaderLen: nat := 14

  /** A C test `if (addr)` on an `ipaddr_t`: true unless every byte is zero. */
  predicate IsSet(a: IpAddr) {
    a != ZeroIp
  }

  /** `htonl`: the bytes of a host integer, most significant first. */
  function Htonl(x: U32): (r: IpAddr)
    ensures x == ((r[0] as int * 256 + r[1]) * 256 + r[2]) * 256 + r[3]
  {
    var y := x / 256;
    var z := y / 256;
    [z / 256, z % 256, y % 256, x % 256]
  }

  datatype Option<T> = None | Some(value: T)

  /** The character of a decimal digit. */
  function DigitChar(d: nat): (c: char)
    requires d < 10
    ensures '0' <= c <= '9' && c as int - '0' as int == d
  {
    ('0' as int + d) as char
  }

  /** The decimal representation of `n`, without leading zeros. */
  function DecimalString(n: nat): (s: string)
    ensures |s| >= 1 && forall i :: 0 <= i < |s| ==> '0' <= s[i] <= '9'
  {
    if n < 10 then [DigitChar(n)] else DecimalString(n / 10) + [DigitChar(n % 10)]
  }

  /** The text the log lines show for an address: its four bytes in decimal,
      joined by dots. */
  function IpStr(a: IpAddr): string {
    DecimalString(a[0]) + "." + DecimalString(a[1]) + "." + DecimalString(a[2]) + "." + DecimalString(a[3])
  }

  /** `struct remote_addr`: a UDP rendezvous point. */
  datatype RemoteAddr = RemoteAddr(ip: IpAddr, port: Port)

  /** One UDP datagram handed to `sendto` on the endpoint socket. */
  datatype Datagram = Datagram(to: RemoteAddr, payload: seq<Byte>)
}
