/** One worker streaming a file through the relay to another worker's
    writer: the reader's datagrams arrive at the relay from one address,
    the broadcaster takes a turn after each, and the other worker appends
    what it is sent. */
module Pipeline {
  import opened Constants
  import opened Relay
  import opened Worker

  /** The relay's view of a reader's datagrams, all from `a`: each arrival
      followed by one broadcaster turn. */
  function Relayed(sends: seq<Send>, a: Endpoint): (evs: seq<Event>)
    ensures |evs| == 2 * |sends|
    decreases |sends|
  {
    if sends == [] then [] else [Arrive(sends[0].payload, a), Dispatch] + Relayed(sends[1..], a)
  }

  /** The payloads sent to `b`, in broadcast order. */
  function PayloadsTo(rounds: seq<Round>, b: Endpoint): seq<Bytes>
    decreases |rounds|
  {
    if rounds == [] then []
    else
      (if Send(rounds[0].msg.payload, b) in rounds[0].sends then [rounds[0].msg.payload] else [])
      + PayloadsTo(rounds[1..], b)
  }

  /** One data chunk reaching an idle relay, then one broadcaster turn:
      the chunk is broadcast at once and the relay is idle again. */
  lemma ChunkPair(s: State, c: Bytes, a: Endpoint)
    requires s.queue == [] && |c| <= BufferSize && c != InitMessage
    ensures Run(s, [Arrive(c, a), Dispatch])
         == Trace(s, [Round(Datagram(c, a), Fanout(s.clients, Datagram(c, a)))])
  {
    var pair := [Arrive(c, a), Dispatch];
    var d := Datagram(c, a);
    var s1 := State(s.clients, [d]);
    assert RecvFrom(c) == c;
    assert s.queue + [d] == [d];
    assert Step(s, pair[0]) == (s1, []);
    assert Step(s1, pair[1]) == (s, [Round(d, Fanout(s.clients, d))]);
    assert pair[1..][1..] == [];
    assert Run(s1, pair[1..]) == Trace(s, [Round(d, Fanout(s.clients, d))] + []);
  }

  /** An "init" reaching an idle relay, then one broadcaster turn: the
      sender is registered and nothing is broadcast. */
  lemma InitPair(s: State, a: Endpoint)
    requires s.queue == []
    ensures Run(s, [Arrive(InitMessage, a), Dispatch]) == Trace(State(s.clients + {a}, []), [])
  {
    var pair := [Arrive(InitMessage, a), Dispatch];
    var s1 := State(s.clients + {a}, []);
    assert RecvFrom(InitMessage) == InitMessage;
    assert Step(s, pair[0]) == (s1, []);
    assert Step(s1, pair[1]) == (s1, []);
    assert pair[1..][1..] == [];
    assert Run(s1, pair[1..]) == Trace(s1, []);
  }

  /** Data chunks from `a` pass through an idle relay one at a time: each is
      broadcast as it arrived, and a registered `b` is sent every one of
      them, in order; the relay ends idle with the same clients. */
  lemma {:induction false} ChunksThroughRelay(s: State, chunks: seq<Bytes>, a: Endpoint, b: Endpoint)
    requires s.queue == [] && b in s.clients && a != b
    requires forall i :: 0 <= i < |chunks| ==> |chunks[i]| <= BufferSize && chunks[i] != InitMessage
    ensures var t := Run(s, Relayed(ToRelay(chunks), a));
      && t.final == s
      && |t.rounds| == |chunks|
      && (forall i :: 0 <= i < |chunks| ==> t.rounds[i].msg == Datagram(chunks[i], a))
      && PayloadsTo(t.rounds, b) == chunks
    decreases |chunks|
  {
    if chunks != [] {
      var c, rest := chunks[0], chunks[1..];
      var d := Datagram(c, a);
      assert ToRelay(chunks)[1..] == ToRelay(rest);
      ChunkPair(s, c, a);
      RunConcat(s, [Arrive(c, a), Dispatch], Relayed(ToRelay(rest), a));
      ChunksThroughRelay(s, rest, a, b);
      var t := Run(s, Relayed(ToRelay(rest), a));
      var r0 := Round(d, Fanout(s.clients, d));
      assert Send(c, b) in r0.sends;
      assert ([r0] + t.rounds)[1..] == t.rounds;
    }
  }

  /** A worker at `a` reading the file at `path` registers with the relay,
      and an already registered client `b` is sent the file's chunks, in
      order, while `a` is sent nothing.  This needs no data chunk to be the
      bytes "init": the relay would take such a chunk for a registration
      (see InitChunkIsSwallowed). */
  lemma ReaderThroughRelay(s: State, path: string, files: map<string, Bytes>, a: Endpoint, b: Endpoint)
    requires s.queue == [] && b in s.clients && a != b && path in files
    requires forall i :: 0 <= i < |Chunks(files[path])| ==> Chunks(files[path])[i] != InitMessage
    ensures var t := Run(s, Relayed(ReaderRun(Some(path), files), a));
      && t.final.clients == s.clients + {a}
      && t.final.queue == []
      && PayloadsTo(t.rounds, b) == Chunks(files[path])
      && (forall i, x :: 0 <= i < |t.rounds| && x in t.rounds[i].sends ==> x.dest != a)
  {
    var chunks := Chunks(files[path]);
    var sends := ReaderRun(Some(path), files);
    var pair := [Arrive(InitMessage, a), Dispatch];
    assert sends[1..] == ToRelay(chunks);
    assert Relayed(sends, a) == pair + Relayed(ToRelay(chunks), a);
    var s1 := State(s.clients + {a}, []);
    InitPair(s, a);
    RunConcat(s, pair, Relayed(ToRelay(chunks), a));
    ChunksThroughRelay(s1, chunks, a, b);
    var t := Run(s1, Relayed(ToRelay(chunks), a));
    assert [] + t.rounds == t.rounds;
    RunRouting(s1, Relayed(ToRelay(chunks), a));
  }

  /** End to end: the writer of the client `b` ends up holding exactly the
      file's bytes, whether it appends plainly or re-reads its frames before
      each append as the worker does. */
  lemma ReaderToWriter(s: State, path: string, files: map<string, Bytes>, a: Endpoint, b: Endpoint,
                       previous: Option<WavFile>)
    requires s.queue == [] && b in s.clients && a != b && path in files
    requires forall i :: 0 <= i < |Chunks(files[path])| ==> Chunks(files[path])[i] != InitMessage
    ensures var t := Run(s, Relayed(ReaderRun(Some(path), files), a));
      && t.final.clients == s.clients + {a}
      && t.final.queue == []
      && PayloadsTo(t.rounds, b) == Chunks(files[path])
      && WriterRun(CreateOutput(previous), PayloadsTo(t.rounds, b)).frames == files[path]
      && WriterRunAsWritten(CreateOutput(previous), PayloadsTo(t.rounds, b)).frames == files[path]
      && (forall i, x :: 0 <= i < |t.rounds| && x in t.rounds[i].sends ==> x.dest != a)
  {
    ReaderThroughRelay(s, path, files, a, b);
    WriterRunAppends(CreateOutput(previous), Chunks(files[path]));
    ChunksAsWritten(files[path], previous);
  }

  /** A file whose bytes are exactly "init" reaches nobody: the relay takes
      its one chunk for a second registration. */
  lemma InitChunkIsSwallowed(s: State, files: map<string, Bytes>, a: Endpoint)
    requires s.queue == [] && "init.raw" in files && files["init.raw"] == InitMessage
    ensures Run(s, Relayed(ReaderRun(Some("init.raw"), files), a)).rounds == []
  {
    var sends := ReaderRun(Some("init.raw"), files);
    assert Chunks(InitMessage) == [InitMessage];
    assert sends == [Send(InitMessage, Address), Send(InitMessage, Address)];
    var evs := Relayed(sends, a);
    assert sends[1..][1..] == [];
    assert Relayed(sends[1..], a) == [Arrive(InitMessage, a), Dispatch];
    assert evs == [Arrive(InitMessage, a), Dispatch, Arrive(InitMessage, a), Dispatch];
    assert RecvFrom(InitMessage) == InitMessage;
    var s1 := State(s.clients + {a}, []);
    assert Step(s, evs[0]) == (s1, []);
    assert Step(s1, evs[1]) == (s1, []);
    assert Step(s1, evs[2]) == (s1, []);
    assert Step(s1, evs[3]) == (s1, []);
    assert evs[1..][1..][1..][1..] == [];
    assert Run(s1, evs[3..]).rounds == [] by { assert evs[3..][1..] == []; }
    assert Run(s1, evs[2..]).rounds == [] by { assert evs[2..][1..] == evs[3..]; }
    assert Run(s1, evs[1..]).rounds == [] by { assert evs[1..][1..] == evs[2..]; }
  }
}
