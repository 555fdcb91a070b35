/**
  How a mailbox carries messages: each message is framed with its length and written to a pipe,
  a copier moves the bytes to a second pipe, and a reader loop glues 4096-byte reads back into
  chunks, one message being taken from the head of each chunk.

  A pipe is a rendezvous: a Read takes bytes of one Write only, so what a pipe holds is the list
  of its Writes that are not yet consumed.
*/
module MailboxFraming {
  import opened Bytes
  import opened Runs
  import BigSize

  /** The size of the reader's buffer (DefaultBufSize). */
  const BLOCK: nat := 4096

  /** The size of the copier's buffer: Go's io.Copy allocates 32 KiB. */
  const COPY_BUFFER: nat := 8 * BLOCK

  const MAX_INT64: nat := 0x7FFF_FFFF_FFFF_FFFF

  /** A message is a byte slice, so its length is a Go int. */
  type Msg = m: Bytes | |m| <= MAX_INT64

  function Frame(m: Msg): (f: Bytes)
    ensures f != []
  {
    BigSize.Write(|m|) + m
  }

  datatype Unframed = Message(msg: Bytes) | BadLength

  /** What ReadNextMsg makes of a chunk. A length beyond int64 is a negative limit: no bytes. */
  function Unframe(chunk: Bytes): Unframed {
    match BigSize.Read(chunk)
    case Value(n, rest) => Message(rest[..if n <= MAX_INT64 then Min(n, |rest|) else 0])
    case _ => BadLength
  }

  /** The message at the head of a chunk comes back whole, whatever follows its frame. */
  lemma UnframeAfterFrame(m: Msg, rest: Bytes)
    ensures Unframe(Frame(m) + rest) == Message(m)
  {
    BigSize.ReadAfterWrite(|m|, m + rest);
    assert Frame(m) + rest == BigSize.Write(|m|) + (m + rest);
    assert (m + rest)[..|m|] == m;
  }

  lemma BytesOfTwo(a: Byte, b: Byte)
    ensures GetBigEndian([a, b]) == 256 * a + b
  {
    var s := [a, b];
    assert s[..1] == [a] && [a][..0] == [];
    assert GetBigEndian([a]) == a;
  }

  /** A length is a limit only: fewer bytes are taken as they are. What is no length is an error. */
  lemma UnframeIsLenient(n: nat, rest: Bytes)
    requires |rest| <= n <= MAX_INT64
    ensures Unframe(BigSize.Write(n) + rest) == Message(rest)
    ensures Unframe([]) == BadLength && Unframe([0xfd]) == BadLength && Unframe([0xfd, 0, 1]) == BadLength
  {
    BigSize.ReadAfterWrite(n, rest);
    assert rest[..|rest|] == rest;
    var short: Bytes := [0xfd, 0, 1];
    assert short[1..3] == [0, 1];
    BytesOfTwo(0, 1);
  }

  /** A whole number of full reads. */
  predicate WholeBlocks(n: nat) {
    n == 0 || (n >= BLOCK && WholeBlocks(n - BLOCK))
  }

  lemma {:induction false} WholeBlocksAreMultiples(n: nat)
    ensures WholeBlocks(n) <==> n % BLOCK == 0
  {
    if n >= BLOCK {
      WholeBlocksAreMultiples(n - BLOCK);
    }
  }

  lemma {:induction false} WholeBlocksAdd(a: nat, b: nat)
    requires WholeBlocks(a)
    ensures WholeBlocks(a + b) <==> WholeBlocks(b)
  {
    if a > 0 {
      WholeBlocksAdd(a - BLOCK, b);
      assert a + b - BLOCK == a - BLOCK + b;
    }
  }

  /** A frame of whole blocks does not end the chunk: the reader's last read of it is full. */
  predicate FillsBlocks(m: Msg) {
    WholeBlocks(|Frame(m)|)
  }

  /** The smallest such message has 4093 bytes: with its three bytes of length it is one block. */
  lemma SmallestFullFrame(m: Msg)
    ensures |m| < BLOCK - 3 ==> !FillsBlocks(m)
    ensures |m| == BLOCK - 3 ==> FillsBlocks(m)
  {
    assert |m| == BLOCK - 3 ==> WholeBlocks(|Frame(m)| - BLOCK);
  }

  /** The runs the reader loop sees: a chunk goes on past every frame that fills its blocks. */
  function Cut(msgs: seq<Msg>): Runs<Msg> {
    RunsOf(msgs, (m: Msg) => FillsBlocks(m))
  }

  /** A message behind a frame that fills its blocks is swallowed. */
  lemma FullFrameSwallows(a: Msg, b: Msg)
    requires FillsBlocks(a) && !FillsBlocks(b)
    ensures Cut([a, b]).done == [[a, b]]
  {
    RunOfTwo(a, b, (m: Msg) => FillsBlocks(m));
  }

  lemma {:induction false} FlattenStart(parts: seq<Bytes>)
    requires parts != []
    ensures parts[0] <= Flatten(parts)
  {
    if |parts| > 1 {
      FlattenStart(parts[..|parts| - 1]);
    } else {
      assert Flatten(parts[..0]) == [];
    }
  }

  function FramesOf(msgs: seq<Msg>): (frames: seq<Bytes>)
    ensures |frames| == |msgs|
    ensures forall i :: 0 <= i < |frames| ==> frames[i] == Frame(msgs[i])
  {
    seq(|msgs|, i requires 0 <= i < |msgs| => Frame(msgs[i]))
  }

  function FrameBytes(msgs: seq<Msg>): Bytes {
    Flatten(FramesOf(msgs))
  }

  lemma FrameBytesSnoc(msgs: seq<Msg>, m: Msg)
    ensures FrameBytes(msgs + [m]) == FrameBytes(msgs) + Frame(m)
  {
    FlattenOneMore(FramesOf(msgs), Frame(m));
    assert FramesOf(msgs + [m]) == FramesOf(msgs) + [Frame(m)];
  }

  function ChunkBytes(groups: seq<seq<Msg>>): seq<Bytes> {
    seq(|groups|, i requires 0 <= i < |groups| => FrameBytes(groups[i]))
  }

  /** A chunk yields the first message of its run, whole. */
  lemma ChunkYieldsHead(group: seq<Msg>)
    requires group != []
    ensures Unframe(FrameBytes(group)) == Message(group[0])
  {
    var frame, chunk := Frame(group[0]), FrameBytes(group);
    FlattenStart(FramesOf(group));
    assert chunk == frame + chunk[|frame|..];
    UnframeAfterFrame(group[0], chunk[|frame|..]);
  }

  // The reader loop as a function of the Reads it makes.

  /** The chunks handed over so far and the bytes gathered for the next one. */
  datatype Reading = Reading(chunks: seq<Bytes>, acc: Bytes)

  /** One Read: a full one leaves the chunk open, a short one ends it. */
  function FeedRead(r: Reading, piece: Bytes): Reading {
    if |piece| == BLOCK then Reading(r.chunks, r.acc + piece)
    else Reading(r.chunks + [r.acc + piece], [])
  }

  function FeedWrite(r: Reading, w: Bytes): Reading
    decreases |w|
  {
    if |w| <= BLOCK then FeedRead(r, w) else FeedWrite(FeedRead(r, w[..BLOCK]), w[BLOCK..])
  }

  function FeedAll(r: Reading, writes: seq<Bytes>): Reading
    decreases |writes|
  {
    if writes == [] then r else FeedAll(FeedWrite(r, writes[0]), writes[1..])
  }

  /** Reading a whole Write in blocks depends only on whether its length fills them. */
  lemma {:induction false} FeedWriteWhole(r: Reading, w: Bytes)
    requires w != []
    ensures FeedWrite(r, w) ==
            if WholeBlocks(|w|) then Reading(r.chunks, r.acc + w) else Reading(r.chunks + [r.acc + w], [])
    decreases |w|
  {
    if |w| > BLOCK {
      FeedWriteWhole(FeedRead(r, w[..BLOCK]), w[BLOCK..]);
      assert r.acc + w[..BLOCK] + w[BLOCK..] == r.acc + w;
    }
  }

  /** The Writes the copier makes of one Write it reads. */
  function CopyPieces(w: Bytes): (pieces: seq<Bytes>)
    decreases |w|
  {
    if |w| <= COPY_BUFFER then [w] else [w[..COPY_BUFFER]] + CopyPieces(w[COPY_BUFFER..])
  }

  function CopyAll(writes: seq<Bytes>): seq<Bytes>
    decreases |writes|
  {
    if writes == [] then [] else CopyPieces(writes[0]) + CopyAll(writes[1..])
  }

  /** The copier is invisible to the reader: its buffer is a whole number of blocks. */
  lemma {:induction false} CopyPiecesInvisible(r: Reading, w: Bytes, rest: seq<Bytes>)
    requires w != []
    ensures FeedAll(r, CopyPieces(w) + rest) == FeedAll(FeedWrite(r, w), rest)
    decreases |w|
  {
    var pieces := CopyPieces(w) + rest;
    if |w| <= COPY_BUFFER {
      assert pieces[1..] == rest;
    } else {
      var head, tail := w[..COPY_BUFFER], w[COPY_BUFFER..];
      assert pieces[1..] == CopyPieces(tail) + rest;
      CopyPiecesInvisible(FeedWrite(r, head), tail, rest);
      FeedWriteWhole(r, head);
      FeedWriteWhole(FeedWrite(r, head), tail);
      FeedWriteWhole(r, w);
      WholeBlocksAreMultiples(COPY_BUFFER);
      WholeBlocksAdd(COPY_BUFFER, |tail|);
      assert r.acc + head + tail == r.acc + w;
    }
  }

  lemma {:induction false} CopyInvisible(r: Reading, writes: seq<Bytes>)
    requires forall i :: 0 <= i < |writes| ==> writes[i] != []
    ensures FeedAll(r, CopyAll(writes)) == FeedAll(r, writes)
    decreases |writes|
  {
    if writes != [] {
      CopyPiecesInvisible(r, writes[0], CopyAll(writes[1..]));
      CopyInvisible(FeedWrite(r, writes[0]), writes[1..]);
    }
  }

  lemma {:induction false} FeedAllSnoc(r: Reading, writes: seq<Bytes>, w: Bytes)
    ensures FeedAll(r, writes + [w]) == FeedWrite(FeedAll(r, writes), w)
    decreases |writes|
  {
    var all := writes + [w];
    if writes != [] {
      assert all[1..] == writes[1..] + [w];
      FeedAllSnoc(FeedWrite(r, writes[0]), writes[1..], w);
    } else {
      assert FeedAll(FeedWrite(r, w), all[1..]) == FeedWrite(r, w);
    }
  }

  /** The reader's state when it has read exactly the messages of `r`. */
  function ReadingOf(r: Runs<Msg>): Reading {
    Reading(ChunkBytes(r.done), FrameBytes(r.open))
  }

  /** Reading one more frame extends the open run or completes it. */
  lemma ReadingNextFrame(r: Runs<Msg>, m: Msg)
    ensures FeedWrite(ReadingOf(r), Frame(m)) ==
            ReadingOf(if FillsBlocks(m) then Runs(r.done, r.open + [m]) else Runs(r.done + [r.open + [m]], []))
  {
    FeedWriteWhole(ReadingOf(r), Frame(m));
    FrameBytesSnoc(r.open, m);
    var g := r.open + [m];
    assert ChunkBytes(r.done + [g]) == ChunkBytes(r.done) + [FrameBytes(g)];
  }

  /**
    The reader loop cuts any sequence of frames exactly at the ends of its runs; the frames of an
    unfinished run stay in the reader.
  */
  lemma {:induction false} ReaderCutsAtRuns(msgs: seq<Msg>)
    ensures FeedAll(Reading([], []), FramesOf(msgs)) == ReadingOf(Cut(msgs))
  {
    if msgs == [] {
      assert ChunkBytes([]) == [];
    } else {
      var n := |msgs| - 1;
      ReaderCutsAtRuns(msgs[..n]);
      assert FramesOf(msgs) == FramesOf(msgs[..n]) + [Frame(msgs[n])];
      FeedAllSnoc(Reading([], []), FramesOf(msgs[..n]), Frame(msgs[n]));
      ReadingNextFrame(Cut(msgs[..n]), msgs[n]);
    }
  }

  // The loops themselves.

  /** The Writes that are left once `n` bytes of the first one have been read. */
  function Remaining(writes: seq<Bytes>, n: nat): seq<Bytes>
    requires writes != [] && n <= |writes[0]|
  {
    if n == |writes[0]| then writes[1..] else [writes[0][n..]] + writes[1..]
  }

  /** An in-memory pipe, already closed for writing once `writes` is drained. */
  class Pipe {
    var writes: seq<Bytes>

    constructor ()
      ensures writes == []
    {
      writes := [];
    }

    method Write(w: Bytes)
      modifies this
      ensures writes == old(writes) + [w]
    {
      writes := writes + [w];
    }

    /** Fills `buf` from the first Write that is left, never crossing into the next one. */
    method Read(buf: array<Byte>) returns (n: nat, eof: bool)
      requires buf.Length > 0
      modifies this, buf
      ensures eof <==> old(writes) == []
      ensures eof ==> writes == old(writes)
      ensures !eof ==> n == Min(buf.Length, |old(writes)[0]|) && buf[..n] == old(writes)[0][..n]
      ensures !eof ==> writes == Remaining(old(writes), n)
    {
      if writes == [] {
        return 0, true;
      }
      var w := writes[0];
      n, eof := Min(buf.Length, |w|), false;
      forall i | 0 <= i < n {
        buf[i] := w[i];
      }
      writes := Remaining(writes, n);
    }
  }

  function TotalBytes(writes: seq<Bytes>): nat {
    if writes == [] then 0 else 1 + |writes[0]| + TotalBytes(writes[1..])
  }

  lemma RemainingIsLess(writes: seq<Bytes>, n: nat)
    requires writes != [] && n <= |writes[0]| && (n == 0 ==> writes[0] == [])
    ensures TotalBytes(Remaining(writes, n)) < TotalBytes(writes)
  {
    assert Remaining(writes, n) != [] && n < |writes[0]| ==> Remaining(writes, n)[1..] == writes[1..];
  }

  lemma FeedAllOneRead(r: Reading, writes: seq<Bytes>, n: nat)
    requires writes != [] && n == Min(BLOCK, |writes[0]|)
    ensures FeedAll(r, writes) == FeedAll(FeedRead(r, writes[0][..n]), Remaining(writes, n))
  {
    var w := writes[0];
    if |w| <= BLOCK {
      assert w[..n] == w;
    } else {
      assert Remaining(writes, n)[1..] == writes[1..];
    }
  }

  lemma CopyAllFirst(w: Bytes, rest: seq<Bytes>)
    ensures CopyAll([w] + rest) == CopyPieces(w) + CopyAll(rest)
  {
    assert ([w] + rest)[1..] == rest;
  }

  lemma CopyAllLong(w: Bytes, rest: seq<Bytes>)
    requires |w| > COPY_BUFFER
    ensures CopyAll([w] + rest) == [w[..COPY_BUFFER]] + CopyAll([w[COPY_BUFFER..]] + rest)
  {
    CopyAllFirst(w, rest);
    CopyAllFirst(w[COPY_BUFFER..], rest);
    Concatenation([w[..COPY_BUFFER]], CopyPieces(w[COPY_BUFFER..]), CopyAll(rest));
  }

  lemma CopyAllOneRead(writes: seq<Bytes>, n: nat)
    requires writes != [] && n == Min(COPY_BUFFER, |writes[0]|)
    ensures CopyAll(writes) == [writes[0][..n]] + CopyAll(Remaining(writes, n))
  {
    var w, rest := writes[0], writes[1..];
    assert writes == [w] + rest;
    if |w| <= COPY_BUFFER {
      CopyAllFirst(w, rest);
      assert w[..n] == w;
    } else {
      CopyAllLong(w, rest);
    }
  }

  /** The copier's loop (io.Copy), run until the first pipe is drained. */
  method Copy(src: Pipe, dst: Pipe)
    requires src != dst
    modifies src, dst
    ensures dst.writes == old(dst.writes) + CopyAll(old(src.writes))
    ensures src.writes == []
  {
    var buf := new Byte[COPY_BUFFER];
    while true
      invariant dst.writes + CopyAll(src.writes) == old(dst.writes) + CopyAll(old(src.writes))
      decreases TotalBytes(src.writes)
    {
      ghost var left := src.writes;
      var n, eof := src.Read(buf);
      if eof {
        return;
      }
      CopyAllOneRead(left, n);
      RemainingIsLess(left, n);
      dst.Write(buf[..n]);
      assert dst.writes + CopyAll(src.writes) == dst.writes[..|dst.writes| - 1] + CopyAll(left);
    }
  }

  /** The reader loop, run until the second pipe is drained; the unfinished chunk is lost. */
  method ReadChunks(pipe: Pipe) returns (chunks: seq<Bytes>)
    modifies pipe
    ensures chunks == FeedAll(Reading([], []), old(pipe.writes)).chunks
    ensures pipe.writes == []
  {
    var buf := new Byte[BLOCK];
    chunks := [];
    while true
      invariant FeedAll(Reading(chunks, []), pipe.writes) == FeedAll(Reading([], []), old(pipe.writes))
      decreases TotalBytes(pipe.writes)
    {
      ghost var left := pipe.writes;
      var n, eof := pipe.Read(buf);
      if eof {
        return;
      }
      FeedAllOneRead(Reading(chunks, []), left, n);
      RemainingIsLess(left, n);
      var c := buf[..n];
      assert [] + c == c;
      while n == BLOCK
        invariant FeedAll(Reading([], []), old(pipe.writes)) ==
                  FeedAll(if n == BLOCK then Reading(chunks, c) else Reading(chunks + [c], []), pipe.writes)
        invariant TotalBytes(pipe.writes) < TotalBytes(left)
        decreases TotalBytes(pipe.writes)
      {
        ghost var rest := pipe.writes;
        n, eof := pipe.Read(buf);
        if eof {
          return;
        }
        FeedAllOneRead(Reading(chunks, c), rest, n);
        RemainingIsLess(rest, n);
        c := c + buf[..n];
      }
      chunks := chunks + [c];
    }
  }

  ghost predicate NonEmpty(groups: seq<seq<Msg>>) {
    forall i :: 0 <= i < |groups| ==> groups[i] != []
  }

  lemma CutIsPartition(msgs: seq<Msg>)
    ensures IsPartition(msgs, (m: Msg) => FillsBlocks(m), Cut(msgs))
    ensures NonEmpty(Cut(msgs).done)
  {
    RunsPartition(msgs, (m: Msg) => FillsBlocks(m));
  }

  /** ReadNextMsg on each chunk in turn. */
  method ReadMessages(chunks: seq<Bytes>, ghost groups: seq<seq<Msg>>) returns (received: seq<Bytes>)
    requires NonEmpty(groups) && chunks == ChunkBytes(groups)
    ensures received == Heads(groups)
  {
    received := [];
    for i := 0 to |chunks|
      invariant received == Heads(groups)[..i]
    {
      ChunkYieldsHead(groups[i]);
      received := received + [Unframe(chunks[i]).msg];
    }
  }

  /** The writer's frames, through the copier and the reader loop. */
  lemma ReaderSeesRuns(msgs: seq<Msg>)
    ensures FeedAll(Reading([], []), CopyAll(FramesOf(msgs))).chunks == ChunkBytes(Cut(msgs).done)
    ensures NonEmpty(Cut(msgs).done)
  {
    CopyInvisible(Reading([], []), FramesOf(msgs));
    ReaderCutsAtRuns(msgs);
    CutIsPartition(msgs);
  }

  /** Nothing is swallowed exactly when no frame fills its blocks. */
  lemma SingleRuns(msgs: seq<Msg>)
    requires NonEmpty(Cut(msgs).done)
    ensures Heads(Cut(msgs).done) == msgs <==> forall i :: 0 <= i < |msgs| ==> !FillsBlocks(msgs[i])
  {
    RunsAreFewer(msgs, (m: Msg) => FillsBlocks(m));
    if forall i :: 0 <= i < |msgs| ==> !FillsBlocks(msgs[i]) {
      RunsAreSingle(msgs, (m: Msg) => FillsBlocks(m));
    }
  }

  /** WriteMsg for each message in turn. */
  method WriteAll(pipe: Pipe, msgs: seq<Msg>)
    requires pipe.writes == []
    modifies pipe
    ensures pipe.writes == FramesOf(msgs)
  {
    for i := 0 to |msgs|
      invariant pipe.writes == FramesOf(msgs)[..i]
    {
      pipe.Write(Frame(msgs[i]));
    }
  }

  /**
    Writer, copier, reader loop and ReadNextMsg one after the other: what is received is the first
    message of each run of the messages sent. That is all of them, in order, exactly when no frame is
    made of whole blocks.
  */
  method Transfer(msgs: seq<Msg>) returns (received: seq<Bytes>)
    ensures NonEmpty(Cut(msgs).done) && received == Heads(Cut(msgs).done)
    ensures received == msgs <==> forall i :: 0 <= i < |msgs| ==> !FillsBlocks(msgs[i])
  {
    var first := new Pipe();
    var second := new Pipe();
    WriteAll(first, msgs);
    Copy(first, second);
    assert second.writes == CopyAll(FramesOf(msgs));
    ReaderSeesRuns(msgs);
    var chunks := ReadChunks(second);
    received := ReadMessages(chunks, Cut(msgs).done);
    SingleRuns(msgs);
  }
}
