/** Sockets as the relay uses them: it may send, and it may start closing. */
module Sockets {
  import opened Bytes

  type SocketId = nat

  /** A data frame: its bytes and whether it was binary. */
  datatype Frame = Frame(data: seq<Byte>, isBinary: bool)

  datatype Rejection = UsernameTaken | InvalidUsername

  datatype ConnectError = ServerOffline | UnknownUsername

  datatype Reply =
    | ServerRegistered
    | ServerRejected(reason: Rejection)
    | ClientConnected
    | ClientError(error: ConnectError)

  /** What the relay puts on a socket: a reply of its own, or a piped frame. */
  datatype Sent = Control(reply: Reply) | Piped(frame: Frame)

  datatype Phase = Open | Closing | Closed

  datatype Socket = Socket(phase: Phase, outbox: seq<Sent>)

  type Net = map<SocketId, Socket>

  function PhaseOf(net: Net, ws: SocketId): Phase {
    if ws in net then net[ws].phase else Closed
  }

  /** `send`: a socket that is no longer open drops the item without an error. */
  function Send(net: Net, ws: SocketId, item: Sent): Net {
    if PhaseOf(net, ws).Open? then net[ws := net[ws].(outbox := net[ws].outbox + [item])] else net
  }

  /** `close`: only an open socket changes; its close event comes later. */
  function StartClose(net: Net, ws: SocketId): Net {
    if PhaseOf(net, ws).Open? then net[ws := net[ws].(phase := Closing)] else net
  }

  class Network {
    var sockets: Net

    constructor ()
      ensures sockets == map[]
    {
      sockets := map[];
    }

    method SendTo(ws: SocketId, item: Sent)
      modifies this
      ensures sockets == Send(old(sockets), ws, item)
    {
      if PhaseOf(sockets, ws).Open? {
        sockets := sockets[ws := sockets[ws].(outbox := sockets[ws].outbox + [item])];
      }
    }

    method Close(ws: SocketId)
      modifies this
      ensures sockets == StartClose(old(sockets), ws)
    {
      if PhaseOf(sockets, ws).Open? {
        sockets := sockets[ws := sockets[ws].(phase := Closing)];
      }
    }
  }
}
