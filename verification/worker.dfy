/** The worker: a reader that registers with the relay and streams a file
    to it in datagram-sized chunks, and a writer that appends every
    datagram it receives to a mono 16-bit audio file. */
module Worker {
  import opened Constants

  // ---------------------------------------------------------------------
  // Reader
  // ---------------------------------------------------------------------

  /** The file split into consecutive pieces of BufferSize bytes, the last
      piece holding whatever remains. */
  function Chunks(data: Bytes): (chunks: seq<Bytes>)
    ensures Flatten(chunks) == data
    ensures forall i :: 0 <= i < |chunks| ==> 0 < |chunks[i]| <= BufferSize
    ensures forall i :: 0 <= i < |chunks| - 1 ==> |chunks[i]| == BufferSize
    ensures |chunks| == (|data| + BufferSize - 1) / BufferSize
    decreases |data|
  {
    if |data| <= BufferSize then
      (if data == [] then [] else [data])
    else
      var rest := Chunks(data[BufferSize..]);
      FlattenAppend([data[..BufferSize]], rest);
      [data[..BufferSize]] + rest
  }

  /** Each chunk as one datagram to the relay, in order. */
  function ToRelay(chunks: seq<Bytes>): (sends: seq<Send>)
    ensures |sends| == |chunks|
    ensures forall i :: 0 <= i < |sends| ==> sends[i] == Send(chunks[i], Address)
  {
    seq(|chunks|, i requires 0 <= i < |chunks| => Send(chunks[i], Address))
  }

  /** The payloads of a sequence of sends, in order. */
  function Payloads(sends: seq<Send>): (r: seq<Bytes>)
    ensures |r| == |sends|
    ensures forall i :: 0 <= i < |r| ==> r[i] == sends[i].payload
  {
    seq(|sends|, i requires 0 <= i < |sends| => sends[i].payload)
  }

  /** Everything one reader run sends: "init" first; then, when an input
      file is configured and present in `files`, its chunks. */
  function ReaderRun(infile: Option<string>, files: map<string, Bytes>): (sends: seq<Send>)
    ensures |sends| >= 1 && sends[0] == Send(InitMessage, Address)
    ensures forall i :: 0 <= i < |sends| ==> sends[i].dest == Address
    ensures (infile.None? || infile.value !in files) ==> |sends| == 1
    ensures infile.Some? && infile.value in files ==> sends[1..] == ToRelay(Chunks(files[infile.value]))
  {
    var data := if infile.Some? && infile.value in files then Chunks(files[infile.value]) else [];
    [Send(InitMessage, Address)] + ToRelay(data)
  }

  /** The datagrams after "init" put the file back together exactly, each
      holding between 1 and BufferSize bytes, all but the last full. */
  lemma ReaderRoundTrip(path: string, files: map<string, Bytes>)
    requires path in files
    ensures var data := Payloads(ReaderRun(Some(path), files)[1..]);
      && Flatten(data) == files[path]
      && (forall i :: 0 <= i < |data| ==> 0 < |data[i]| <= BufferSize)
      && (forall i :: 0 <= i < |data| - 1 ==> |data[i]| == BufferSize)
      && |data| == (|files[path]| + BufferSize - 1) / BufferSize
  {
    assert Payloads(ReaderRun(Some(path), files)[1..]) == Chunks(files[path]);
  }

  /** A 5000-byte file goes out as three chunks of 2048, 2048 and 904
      bytes, after the "init". */
  lemma FiveThousandBytes(data: Bytes)
    requires |data| == 5000
    ensures |Chunks(data)| == 3
    ensures |Chunks(data)[0]| == 2048 && |Chunks(data)[1]| == 2048 && |Chunks(data)[2]| == 904
    ensures |ReaderRun(Some("source.raw"), map["source.raw" := data])| == 4
  {
  }

  // ---------------------------------------------------------------------
  // Writer
  // ---------------------------------------------------------------------

  /** The output audio file: its format parameters and its sample bytes. */
  datatype WavFile = WavFile(format: AudioFormat, frames: Bytes)

  /** The bytes of one frame of `channels` channels: one `sampwidth`-byte
      sample for each channel. */
  function FrameBytes(channels: nat, sampwidth: nat): nat
    decreases channels
  {
    if channels == 0 then 0 else sampwidth + FrameBytes(channels - 1, sampwidth)
  }

  /** Bytes per frame. */
  function FrameSize(format: AudioFormat): nat {
    FrameBytes(format.nchannels, format.sampwidth)
  }

  /** `FrameBytes` is the frame size the `wave` module uses, the number of
      channels times the sample width. */
  lemma {:induction false} FrameSizeIsProduct(channels: nat, sampwidth: nat)
    ensures FrameBytes(channels, sampwidth) == channels * sampwidth
    ensures FrameBytes(channels, sampwidth) > 0 <==> channels > 0 && sampwidth > 0
    decreases channels
  {
    if channels > 0 {
      FrameSizeIsProduct(channels - 1, sampwidth);
    }
  }

  /** The number of whole frames in a file. */
  function FrameCount(f: WavFile): nat
    requires FrameSize(f.format) > 0
  {
    |f.frames| / FrameSize(f.format)
  }

  /** Creating the writer: whatever file was at the output path is
      discarded and an empty mono 16-bit 8000 Hz file takes its place. */
  function CreateOutput(previous: Option<WavFile>): (f: WavFile)
    ensures f.format == AudioFormatWrite && f.frames == []
    ensures FrameSize(f.format) == 2
  {
    WavFile(AudioFormatWrite, [])
  }

  /** Appending one received datagram: the format is kept and the datagram's
      bytes follow the existing frames. */
  function WriteMessageToFile(f: WavFile, msg: Bytes): (g: WavFile)
    ensures g.format == f.format
    ensures |g.frames| == |f.frames| + |msg|
    ensures g.frames[..|f.frames|] == f.frames && g.frames[|f.frames|..] == msg
  {
    WavFile(f.format, f.frames + msg)
  }

  /** The writer after receiving `msgs` in arrival order. */
  function WriterRun(f: WavFile, msgs: seq<Bytes>): (g: WavFile)
    ensures g.format == f.format
    decreases |msgs|
  {
    if msgs == [] then f else WriterRun(WriteMessageToFile(f, msgs[0]), msgs[1..])
  }

  /** After any sequence of datagrams the frames are the old frames followed
      by the datagrams in arrival order, and the format is unchanged. */
  lemma {:induction false} WriterRunAppends(f: WavFile, msgs: seq<Bytes>)
    ensures WriterRun(f, msgs).frames == f.frames + Flatten(msgs)
    decreases |msgs|
  {
    if msgs != [] {
      WriterRunAppends(WriteMessageToFile(f, msgs[0]), msgs[1..]);
      assert f.frames + msgs[0] + Flatten(msgs[1..]) == f.frames + (msgs[0] + Flatten(msgs[1..]));
    }
  }

  /** A fresh writer fed two chunks of 16-bit samples holds as many frames as
      the two chunks hold samples. */
  lemma TwoChunkFrameCount(previous: Option<WavFile>, c1: Bytes, c2: Bytes)
    requires |c1| % 2 == 0 && |c2| % 2 == 0
    ensures FrameCount(WriterRun(CreateOutput(previous), [c1, c2])) == |c1| / 2 + |c2| / 2
    ensures FrameCount(WriterRunAsWritten(CreateOutput(previous), [c1, c2])) == |c1| / 2 + |c2| / 2
  {
    AsWrittenAgreesOnWholeSamples(CreateOutput(previous), [c1, c2]);
    WriterRunAppends(CreateOutput(previous), [c1, c2]);
    assert Flatten([c1, c2]) == c1 + Flatten([c2]);
  }

  // ---------------------------------------------------------------------
  // The append as the file round trip performs it
  // ---------------------------------------------------------------------

  /** `n` bytes make up a whole number of `k`-byte frames. */
  predicate WholeFrames(n: nat, k: nat)
    requires k > 0
    decreases n
  {
    if n < k then n == 0 else WholeFrames(n - k, k)
  }

  lemma {:induction false} MultipleIsWholeFrames(q: nat, k: nat)
    requires k > 0
    ensures WholeFrames(k * q, k)
  {
    if q > 0 {
      assert k * q == k * (q - 1) + k;
      MultipleIsWholeFrames(q - 1, k);
    }
  }

  /** What reading every frame back from a file yields: the audio container
      records the data length in bytes but reports it in whole frames, so a
      trailing partial frame is not read back. */
  function ReadFrames(f: WavFile): (r: Bytes)
    requires FrameSize(f.format) > 0
    ensures r <= f.frames
    ensures |r| == |f.frames| - |f.frames| % FrameSize(f.format)
    ensures WholeFrames(|r|, FrameSize(f.format))
    ensures r == f.frames <==> |f.frames| % FrameSize(f.format) == 0
  {
    var n, k := |f.frames|, FrameSize(f.format);
    assert n - n % k == k * (n / k);
    MultipleIsWholeFrames(n / k, k);
    f.frames[..n - n % k]
  }

  /** The append as written: read the frames back, then rewrite them with
      the datagram after them, so a partial frame left by an earlier
      datagram is dropped. */
  function WriteMessageAsWritten(f: WavFile, msg: Bytes): (g: WavFile)
    requires FrameSize(f.format) > 0
    ensures g.format == f.format
    ensures |g.frames| == |f.frames| - |f.frames| % FrameSize(f.format) + |msg|
    ensures g.frames[..|g.frames| - |msg|] == f.frames[..|g.frames| - |msg|]
    ensures g.frames[|g.frames| - |msg|..] == msg
    ensures g == WriteMessageToFile(f, msg) <==> |f.frames| % FrameSize(f.format) == 0
  {
    var kept := ReadFrames(f);
    SameAppendIffSameKept(f.frames, kept, msg);
    WavFile(f.format, kept + msg)
  }

  /** Appending to a prefix of the stored frames gives the plain append iff
      the prefix is all of them. */
  lemma SameAppendIffSameKept(frames: Bytes, kept: Bytes, msg: Bytes)
    requires kept <= frames
    ensures |kept + msg| - |msg| == |kept|
    ensures (kept + msg)[..|kept|] == frames[..|kept|] && (kept + msg)[|kept|..] == msg
    ensures kept + msg == frames + msg <==> kept == frames
  {
    if kept + msg == frames + msg {
      assert |kept| == |frames|;
    }
  }

  function WriterRunAsWritten(f: WavFile, msgs: seq<Bytes>): (g: WavFile)
    requires FrameSize(f.format) > 0
    ensures g.format == f.format
    decreases |msgs|
  {
    if msgs == [] then f else WriterRunAsWritten(WriteMessageAsWritten(f, msgs[0]), msgs[1..])
  }

  /** The two appends agree on every stream of whole-sample datagrams (only
      the last may end in a partial sample), such as one file's chunks. */
  lemma {:induction false} AsWrittenAgreesOnWholeSamples(f: WavFile, msgs: seq<Bytes>)
    requires f.format == AudioFormatWrite && |f.frames| % 2 == 0
    requires forall i :: 0 <= i < |msgs| - 1 ==> |msgs[i]| % 2 == 0
    ensures WriterRunAsWritten(f, msgs) == WriterRun(f, msgs)
    decreases |msgs|
  {
    if msgs != [] {
      var g := WriteMessageToFile(f, msgs[0]);
      assert WriteMessageAsWritten(f, msgs[0]) == g;
      if |msgs| > 1 {
        assert |msgs[0]| % 2 == 0;
        assert |g.frames| % 2 == 0;
        AsWrittenAgreesOnWholeSamples(g, msgs[1..]);
      } else {
        assert msgs[1..] == [];
      }
    }
  }

  /** One file's chunks, fed to a fresh writer that re-reads its frames
      before each append, still rebuild the file byte for byte: every chunk
      but the last is 2048 bytes, a whole number of 16-bit samples. */
  lemma ChunksAsWritten(data: Bytes, previous: Option<WavFile>)
    ensures WriterRunAsWritten(CreateOutput(previous), Chunks(data)).frames == data
  {
    var f := CreateOutput(previous);
    AsWrittenAgreesOnWholeSamples(f, Chunks(data));
    WriterRunAppends(f, Chunks(data));
  }

  /** The bytes of `m` up to its last whole 16-bit sample. */
  function Whole(m: Bytes): (w: Bytes)
    ensures w <= m && |w| == |m| - |m| % 2
    ensures |w| % 2 == 0
  {
    m[..|m| - |m| % 2]
  }

  /** The whole-sample part of each datagram, laid end to end. */
  function FlattenWhole(msgs: seq<Bytes>): Bytes
    decreases |msgs|
  {
    if msgs == [] then [] else Whole(msgs[0]) + FlattenWhole(msgs[1..])
  }

  /** At two bytes per frame, reading the frames back keeps the whole
      samples. */
  lemma ReadFramesIsWhole(f: WavFile)
    requires FrameSize(f.format) == 2
    ensures ReadFrames(f) == Whole(f.frames)
  {
  }

  /** Whole samples in front do not shift the sample boundary. */
  lemma WholeAfterWholeSamples(k: Bytes, m: Bytes)
    requires |k| % 2 == 0
    ensures Whole(k + m) == k + Whole(m)
  {
    assert |k + m| - |k + m| % 2 == |k| + (|m| - |m| % 2);
  }

  /** One append as written to a 16-bit file: the whole samples stored,
      then the datagram. */
  lemma AsWrittenStep(f: WavFile, msgs: seq<Bytes>)
    requires f.format == AudioFormatWrite && msgs != []
    ensures WriteMessageAsWritten(f, msgs[0]) == WavFile(f.format, Whole(f.frames) + msgs[0])
    ensures WriterRunAsWritten(f, msgs)
         == WriterRunAsWritten(WavFile(f.format, Whole(f.frames) + msgs[0]), msgs[1..])
  {
    ReadFramesIsWhole(f);
  }

  lemma {:induction false} FlattenWholeFront(msgs: seq<Bytes>)
    requires |msgs| >= 2
    ensures FlattenWhole(msgs[..|msgs| - 1]) == Whole(msgs[0]) + FlattenWhole(msgs[1..][..|msgs| - 2])
  {
    assert msgs[..|msgs| - 1][1..] == msgs[1..][..|msgs| - 2];
  }

  lemma Regroup(a: Bytes, b: Bytes, c: Bytes, d: Bytes)
    ensures (a + b) + c + d == a + (b + c) + d
  {
  }

  /** What the writer as written holds after any non-empty stream: the old
      frames cut to whole samples, then every datagram but the last cut to
      whole samples, then the last datagram entire.  A datagram of odd
      length loses its last byte unless nothing is written after it. */
  lemma {:induction false} AsWrittenFrames(f: WavFile, msgs: seq<Bytes>)
    requires f.format == AudioFormatWrite && msgs != []
    ensures WriterRunAsWritten(f, msgs).frames
         == Whole(f.frames) + FlattenWhole(msgs[..|msgs| - 1]) + msgs[|msgs| - 1]
    decreases |msgs|
  {
    var g := WavFile(f.format, Whole(f.frames) + msgs[0]);
    AsWrittenStep(f, msgs);
    if |msgs| == 1 {
      assert msgs[..0] == [];
    } else {
      var rest := msgs[1..];
      AsWrittenFrames(g, rest);
      WholeAfterWholeSamples(Whole(f.frames), msgs[0]);
      FlattenWholeFront(msgs);
      Regroup(Whole(f.frames), Whole(msgs[0]), FlattenWhole(rest[..|rest| - 1]), msgs[|msgs| - 1]);
    }
  }

  /** The byte lost: a one-byte datagram followed by another leaves only the
      second byte in the file. */
  lemma AsWrittenDropsPartialSample()
    ensures WriterRunAsWritten(CreateOutput(None), [[1], [2]]).frames == [2]
    ensures WriterRun(CreateOutput(None), [[1], [2]]).frames == [1, 2]
  {
  }
}
