/** Socket addresses as the DHT handles them. */
module Addresses {
  import opened Bytes

  type Octets4 = b: Bytes | |b| == 4 witness [0, 0, 0, 0]
  type Octets16 = b: Bytes | |b| == 16 witness seq(16, _ => 0)
  type Port = x: int | 0 <= x < 0x1_0000

  datatype SocketAddr =
    | V4(ip4: Octets4, port: Port)
    | V6(ip6: Octets16, port: Port, flow: nat, scope: nat)
}
