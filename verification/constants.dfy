/** Process-wide configuration of the relay and the worker, and the
    vocabulary both sides share: bytes, endpoints, datagrams and the
    fixed audio format.  The constants are immutable model parameters. */
module Constants {

  newtype Byte = b: int | 0 <= b < 256
  type Bytes = seq<Byte>

  datatype Option<T> = None | Some(value: T)

  /** A network endpoint: the (host, port) pair a UDP socket reports. */
  datatype Endpoint = Endpoint(host: string, port: int)

  const Host: string := "localhost"
  const Port: int := 2205
  /** The relay's fixed address. */
  const Address: Endpoint := Endpoint(Host, Port)

  /** Largest datagram either side ever reads from its socket. */
  const BufferSize: nat := 2048

  /** The parameters of the output audio container. */
  datatype AudioFormat = AudioFormat(nchannels: nat, sampwidth: nat, framerate: nat)

  /** Mono, 16-bit samples, 8000 Hz. */
  const AudioFormatWrite: AudioFormat := AudioFormat(1, 2, 8000)

  /** The registration payload: the four ASCII bytes of "init". */
  const InitMessage: Bytes := [0x69, 0x6E, 0x69, 0x74]

  /** An inbound datagram together with the address it came from. */
  datatype Datagram = Datagram(payload: Bytes, origin: Endpoint)

  /** An outbound datagram together with the address it goes to. */
  datatype Send = Send(payload: Bytes, dest: Endpoint)

  /** What a receive with a BufferSize-byte buffer returns for a datagram
      that carried `wire`: the datagram itself when it fits, otherwise its
      first BufferSize bytes (the rest is discarded). */
  function RecvFrom(wire: Bytes): (payload: Bytes)
    ensures |payload| == if |wire| <= BufferSize then |wire| else BufferSize
    ensures payload <= wire
    ensures |wire| <= BufferSize <==> payload == wire
  {
    if |wire| <= BufferSize then wire else wire[..BufferSize]
  }

  /** The total number of bytes in a sequence of chunks. */
  function TotalLength(chunks: seq<Bytes>): nat
  {
    if chunks == [] then 0 else |chunks[0]| + TotalLength(chunks[1..])
  }

  /** The bytes of a sequence of chunks laid end to end. */
  function Flatten(chunks: seq<Bytes>): (r: Bytes)
    ensures |r| == TotalLength(chunks)
    ensures chunks != [] ==> r[..|chunks[0]|] == chunks[0]
    ensures |chunks| == 1 ==> r == chunks[0]
  {
    if chunks == [] then [] else chunks[0] + Flatten(chunks[1..])
  }

  lemma {:induction false} FlattenAppend(a: seq<Bytes>, b: seq<Bytes>)
    ensures Flatten(a + b) == Flatten(a) + Flatten(b)
    decreases |a|
  {
    if a == [] {
      assert a + b == b;
    } else {
      assert (a + b)[1..] == a[1..] + b;
      FlattenAppend(a[1..], b);
    }
  }
}
