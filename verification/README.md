# soundstream relay, modelled in Dafny

A model of the sequential logic of the soundstream UDP fan-out relay and its worker.

- **Relay** (`server.py`, module `Relay` in `relay.dfy`). The server state is a set of client addresses plus a FIFO queue of `(payload, origin)` datagrams. One iteration of the receiver thread reads a datagram of at most `BUFFERSIZE` bytes. If the payload is exactly `init`, the sender is registered. Any other payload is queued. One iteration of the broadcaster thread pops the head of the queue and sends the payload to every client except its origin. The sends of one broadcast form a set, because the order of Python set iteration is unspecified. A run of the server is any interleaving of these two kinds of step, given as a sequence of `Event`s. A broadcaster turn on an empty queue is a blocked `queue.get()`, so it changes nothing.
- **Worker reader** (`worker.py`, module `Worker` in `worker.dfy`). It sends `init` to the relay's address. If an input file is configured and exists, it then sends the file in pieces of at most `BUFFERSIZE` bytes. The file system is a parameter: a map from path to contents.
- **Worker writer** (`worker.py`, module `Worker`). The output audio file is abstracted as `(format, frames)`. Creating the writer replaces any previous file with an empty mono, 16-bit, 8000 Hz one. Each received datagram is appended to the frames.
- **Constants** (`global_constants_and_functions.py`, module `Constants` in `constants.dfy`). This module holds the relay address (`localhost`, 2205), `BUFFERSIZE` (2048), the audio format (1 channel, 2-byte samples, 8000 Hz) and the `init` payload. It also models what a receive with a `BUFFERSIZE` buffer returns.
- **Pipeline** (`pipeline.dfy`). This composes the three: one worker's file goes through the relay to another worker's writer.

Three behaviours of the code are worth stating on their own:
- A broadcast makes no sends exactly when every client is the origin. A lone client that is not the origin is sent the payload (`Relay.Fanout`).
- The queue is unbounded, in the code and in the model.
- Registration is in-band. A data chunk whose bytes are exactly `init` is taken as a registration and is never broadcast. `Pipeline.InitChunkIsSwallowed` exhibits this. `Pipeline.ReaderToWriter` therefore assumes no chunk of the file is `init`.

## Model

| member | source | states |
|---|---|---|
| Constants.RecvFrom | server.py:116 | a receive with a 2048-byte buffer returns the whole datagram iff it is at most 2048 bytes long; otherwise it returns exactly the datagram's first 2048 bytes |
| Relay.PutMessageInQueue | server.py:44-51 | an exact `init` payload registers the sender and queues nothing; any other payload is queued unchanged with its origin and leaves the client set untouched; the client set only gains the sender |
| Relay.Fanout | server.py:70-74 | a send is made iff it carries the payload unchanged to a client other than the origin; the origin is never a destination; there are no sends iff every client is the origin |
| Relay.BroadcastMessageToClients | server.py:64-74 | the loop over the clients, in any visiting order, makes exactly the fan-out sends, one per client other than the origin |
| Relay.ReceiverStep | server.py:115-122 | one receiver iteration: an `init` datagram registers the sender and queues nothing; any other datagram that fits the buffer is queued unchanged with its sender; an over-long datagram is queued cut to its first 2048 bytes; whatever it queues fits the buffer |
| Relay.BroadcasterStep | server.py:59-62 | one broadcaster iteration blocks iff the queue is empty; otherwise it broadcasts the head, leaves the rest of the queue in order, and keeps the client set unchanged |
| Relay.Step | server.py:59-122 | one iteration of either thread (the broadcaster loop at lines 59-61 or the receiver loop at lines 115-122) makes at most one broadcast and never removes a client |
| Relay.Run | server.py:33-51 | over any interleaving of steps the client set only grows |
| Relay.RunClients | server.py:45-51 | after any run the clients are exactly the initial clients plus every address that sent `init` |
| Relay.RunFifo | server.py:51-61 | the datagrams broadcast, followed by those still queued, are the initial queue followed by every queued arrival, in arrival order |
| Relay.BroadcastOrderIsArrivalOrder | server.py:17 | the broadcast order is always a prefix of the arrival order (FIFO) |
| Relay.RunRouting | server.py:71-74 | in every broadcast of a run, each send carries the payload unchanged, never goes to the origin, and goes only to an address that is a client; every client registered before the run, other than the origin, is sent the payload |
| Relay.NeverRegisteredNeverTargeted | server.py:45-51 | an address that was never registered and never sends `init` is never a send target, even when its own payloads are broadcast |
| Relay.RegistrationIdempotent | server.py:45-46 | a repeated `init` from a registered client changes nothing; registering twice equals registering once; the client count grows by one only for a new address |
| Relay.RunKeepsQueueBounded | server.py:116 | every queued and every broadcast payload is at most 2048 bytes, throughout any run |
| Relay.HelloScenario | server.py:64-74 | two clients register and the first sends `hello`: the one broadcast sends `hello` to the second client only |
| Worker.Chunks | worker.py:47 | the chunks concatenate back to the file; each is 1 to 2048 bytes; all but the last are exactly 2048; there are ceil(n / 2048) of them |
| Worker.ReaderRun | worker.py:41-52 | the first datagram is always `init`, and every datagram goes to the relay address; with no configured or no existing input file, `init` is the only datagram; otherwise the file's chunks follow in order |
| Worker.ReaderRoundTrip | worker.py:44-52 | the data datagrams after `init` reassemble the file exactly, with the chunk bounds and the ceil(n / 2048) count |
| Worker.FiveThousandBytes | worker.py:47 | a 5000-byte file is sent as `init` plus chunks of 2048, 2048 and 904 bytes |
| Worker.CreateOutput | worker.py:76-83 | whatever was at the output path, the new file has no frames and the fixed format: 1 channel, 2-byte samples, 8000 Hz |
| Worker.WriteMessageToFile | worker.py:125-132 | appending a datagram keeps the format; the new frames are the old frames followed by the datagram |
| Worker.WriterRun | worker.py:90-114 | the writer loop never changes the file's format |
| Worker.WriterRunAppends | worker.py:114 | after any sequence of datagrams, the frames are the old frames followed by the datagrams concatenated in arrival order |
| Worker.TwoChunkFrameCount | worker.py:125-132 | a fresh file fed two chunks of whole 16-bit samples holds as many frames as the chunks hold samples, with the plain append and with the append as written |
| Worker.FrameSizeIsProduct | worker.py:80-83 | the frame size of the parameters set here, one sample per channel summed, equals the `wave` module's `nchannels * sampwidth`; it is non-zero iff both are |
| Worker.ReadFrames | worker.py:125-127 | reading the frames back returns exactly the whole frames: the longest prefix of the stored bytes whose length is a multiple of the frame size; it returns all of them iff they are a whole number of frames |
| Worker.WriteMessageAsWritten | worker.py:125-132 | the append as written keeps the format; the new frames are the old frames cut down to whole frames, followed by the datagram; it equals the plain append iff the stored frames are a whole number of frames |
| Worker.WriterRunAsWritten | worker.py:90-114 | the writer loop as written never changes the file's format |
| Worker.AsWrittenFrames | worker.py:125-132 | after any non-empty stream of datagrams, the 16-bit file as written holds its old frames cut to whole samples, then each datagram but the last cut to whole samples, then the last datagram entire |
| Worker.AsWrittenAgreesOnWholeSamples | worker.py:125-132 | the as-written writer and the plain append agree when every datagram except the last holds whole 16-bit samples, as one file's chunks do |
| Worker.ChunksAsWritten | worker.py:125-132 | a fresh file fed one file's 2048-byte chunks (worker.py:47) through the append as written holds exactly the file's bytes |
| Worker.AsWrittenDropsPartialSample | worker.py:125-132 | two one-byte datagrams leave only the second byte in the file as written, but both bytes with the plain append |
| Pipeline.ChunkPair | server.py:44-74 | a data chunk reaching an idle relay, then one broadcaster turn: the chunk is broadcast to the fan-out of the current clients, and the relay is idle again with the same clients |
| Pipeline.InitPair | server.py:44-61 | an `init` reaching an idle relay, then one broadcaster turn: the sender is registered, nothing is broadcast, and the queue stays empty |
| Pipeline.ChunksThroughRelay | server.py:50-74 | data chunks from one address pass through an idle relay in order: each is broadcast as it arrived, a registered peer is sent each one, and the relay ends idle with the same clients |
| Pipeline.ReaderThroughRelay | worker.py:41-52 | a reader's datagrams through an idle relay: the reader is registered, the queue ends empty, an already registered peer is sent exactly the file's chunks in order, and the reader is sent nothing |
| Pipeline.ReaderToWriter | worker.py:41-132 | a reader's file sent through the relay ends up byte for byte in the writer of an already registered peer, with the plain append and with the append as written; the peer is sent exactly the file's chunks; the reader is registered and is sent nothing |
| Pipeline.InitChunkIsSwallowed | server.py:45-51 | a file whose bytes are exactly `init` produces no broadcast at all |

## Left out

- Sockets, blocking `recvfrom`/`sendto` and the `while True` thread loops. Sends are returned values, and a loop is a sequence of atomic steps.
- Constants.RecvFrom: models `recvfrom` as POSIX systems do it, cutting an over-long datagram to the buffer size. On Windows the same call raises `OSError` (WSAEMSGSIZE) for a datagram longer than the buffer. `server.py` does not catch it, so the receiver thread would end and nothing would be queued. That behaviour is not modelled.
- `initialize_server`, the thread constructors, `ReceiverThread.start` and every console `print`. They do I/O only.
- Concurrency itself. The client set is shared without a lock, so iterating it while the receiver adds a client can fail at run time. Each thread iteration is modelled as atomic instead.
- The `time.sleep(SLEEPTIME)` throttle after each broadcast. It is a float delay with no effect on routing.
- The `soundfile` decode in `WriterThread.run`. It only feeds a log line. A decode failure that would stop the writer thread is not modelled.
- The WAV header inside the `wave` module. The file is `(format, frames)`. Only one header effect is modelled: the frame count is the data length rounded down to whole frames (`Worker.ReadFrames`).
- The JSON envelope codec `encode_message`/`decode_message`. Its calls are commented out on the relay path, and it depends on `json` and the wall clock.
- Argument parsing, path handling (`with_suffix`, `mkdir`) and the `main` functions.
- UDP loss, duplication and reordering between the relay and a worker. `Pipeline.PayloadsTo` assumes each send arrives, in broadcast order.
- Relay.RunRouting: only promises delivery to clients registered before the run starts. A client registered during the run is shown only to be a possible target (it is in the final client set), not one that receives every later broadcast.
- Pipeline.ReaderToWriter: covers one reader whose datagrams are broadcast one at a time, with the relay idle at the start. Interleavings with other senders are covered only by the general `Relay` lemmas.

## Findings

| source | as written | input that shows it | evidently intended | confidence | as-written member | corrected member |
|---|---|---|---|---|---|---|
| worker.py:125-132 | the frames are read back with `readframes(getnframes())`, then rewritten with the new datagram after them; the frame count is the data length divided by the 2-byte frame size, rounded down | two datagrams of one byte each, `[1]` then `[2]`: the odd byte is not read back, so the file ends holding `[2]` | every datagram's bytes are appended in arrival order (`[1, 2]`) | medium, not executed; depends on the `wave` module reporting whole frames only | Worker.WriteMessageAsWritten, Worker.AsWrittenDropsPartialSample | Worker.WriteMessageToFile, Worker.WriterRunAppends |

`Worker.AsWrittenFrames` says what the writer as written holds after any stream: every datagram except the last loses a trailing odd byte, and so does an odd-length file it starts from. One file's chunks lose nothing: every chunk except the last is 2048 bytes, so only the last can be odd, and nothing is written after it (`Worker.AsWrittenAgreesOnWholeSamples`, `Worker.ChunksAsWritten`). `Pipeline.ReaderToWriter` states the end-to-end result for both appends.
