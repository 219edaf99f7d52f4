/** The calls of the network broker interface and their answers. Addresses are opaque numbers. */
module NetCalls {
  import opened Base

  datatype Reply<T> = Good(value: T) | Bad(errno: nat)

  datatype Chunk = Data(bytes: seq<byte>) | Closed | WouldBlock

  datatype Datagram = Datagram(bytes: seq<byte>, sender: nat)

  datatype Call =
    | Connect(addr: nat)
    | Send(handle: nat, bytes: seq<byte>)
    | Recv(handle: nat, max: nat)
    | Shutdown(handle: nat)
    | OpenUdp
    | SendTo(handle: nat, addr: nat, bytes: seq<byte>)
    | RecvFrom(handle: nat, max: nat)
    | Readable(handle: nat)
    | LocalAddr(handle: nat)
    | Close(handle: nat)
    | WaitReady(handles: seq<nat>, timeout: nat)

  datatype Answer =
    | Opened(handle: Reply<nat>)
    | Sent(count: Reply<nat>)
    | Got(chunk: Reply<Chunk>)
    | GotFrom(datagram: Reply<Option<Datagram>>)
    | Shut(done: Reply<()>)
    | Told(ready: bool)
    | Local(addr: Option<nat>)
    | Gone

  /** Each call is answered in its own kind. */
  predicate Suits(call: Call, answer: Answer) {
    match call
    case Connect(_) => answer.Opened?
    case OpenUdp => answer.Opened?
    case Send(_, _) => answer.Sent?
    case SendTo(_, _, _) => answer.Sent?
    case Recv(_, _) => answer.Got?
    case RecvFrom(_, _) => answer.GotFrom?
    case Shutdown(_) => answer.Shut?
    case Readable(_) => answer.Told?
    case LocalAddr(_) => answer.Local?
    case WaitReady(_, _) => answer.Told?
    case Close(_) => answer.Gone?
  }
}
