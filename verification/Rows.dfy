/** The panel's database rows, with the columns the model needs. */
module Rows {

  const PORT_FORWARD: int := 1
  const TUNNEL_FORWARD: int := 2

  datatype Node = Node(portSta: int, portEnd: int)

  datatype Tunnel = Tunnel(
    id: int,
    inNodeId: int,
    outNodeId: int,
    kind: int,
    tcpListenAddr: string,
    udpListenAddr: string,
    outIp: string,
    active: bool)

  datatype Status = Active | Paused | Error

  datatype Forward = Forward(
    id: int,
    userId: int,
    tunnelId: int,
    inPort: int,
    outPort: int,
    remoteAddr: string,
    strategy: string,
    listenIp: string,
    status: Status)

  datatype UserTunnel = UserTunnel(id: int, userId: int, tunnelId: int)
}
