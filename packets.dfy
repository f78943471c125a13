/**
 * Decoded packets as the flow recorder sees them after Ethernet/IP decoding.
 * Decoding itself (pcap reading, dpkt) is outside the model: a frame arrives
 * already split into its network layer and a tag for the IP payload.
 */
module Packets {

  /** One byte of an IPv4 address. */
  type Octet = n: int | 0 <= n < 0x100

  /** An IPv4 address: the four bytes of the header field, most significant first. */
  datatype Address = Address(b0: Octet, b1: Octet, b2: Octet, b3: Octet)

  /** A 16-bit transport port. */
  type Port = n: int | 0 <= n < 0x1_0000

  /** The 8-bit IP protocol number of the header. */
  type ProtoNumber = n: int | 0 <= n < 0x100

  /** The 16-bit total-length field of the IP header. */
  type Length = n: int | 0 <= n < 0x1_0000

  /**
   * What the IP payload decodes to. `Segment` is any transport header that
   * carries a source and a destination port (TCP, UDP and the like);
   * `Unported` is any other payload, which has no ports to read.
   */
  datatype Payload =
    | ICMP
    | IGMP
    | PIM
    | IPv6
    | Segment(sport: Port, dport: Port)
    | Unported

  datatype IPPacket = IPPacket(src: Address, dst: Address, proto: ProtoNumber, len: Length, payload: Payload)

  /** The network layer of an Ethernet frame: an IPv4 packet or anything else. */
  datatype Network = IPv4(ip: IPPacket) | NotIPv4

  /** A captured frame with its capture time in microseconds. */
  datatype Frame = Frame(timestamp: int, network: Network)
}
