/**
  A mailbox stream as concurrent parts: a writer, the copier goroutine, the reader goroutine, the
  handlers that call ReadNextMsg, and a tear-down that may start at any point, in the middle of a
  message included. Every interleaving of their atomic steps is a run.
*/
module MailboxRun {
  import opened Bytes
  import opened Runs
  import opened MailboxFraming

  /** Where the reader goroutine is: gathering bytes, offering a chunk, or returned after EOF. */
  datatype Reader = Filling(acc: Bytes) | Handing(chunk: Bytes) | Ended

  datatype Mailbox = Mailbox(
    written: seq<Msg>,           // every message whose Write to the first pipe has begun
    pending: Bytes,              // what is unread of the Write in progress
    copier: Bytes,               // what the copier has read and not yet passed on
    reader: Reader,
    closed: bool,                // the first pipe is closed
    drained: bool,               // the copier has closed the second pipe
    quit: bool,                  // the quit channel is closed
    received: seq<(nat, Bytes)>, // messages returned by ReadNextMsg, with the handler that got each
    fates: seq<bool>)            // of each chunk the reader has let go: did a handler get a message?

  datatype Event =
    | Write(m: Msg)
    | CopierRead
    | ReaderRead
    | ReadNextMsg(handler: nat)
    | Discard
    | ClosePipe
    | CloseQuit
    | CopierEof
    | ReaderEof

  function Init(): Mailbox {
    Mailbox([], [], [], Filling([]), false, false, false, [], [])
  }

  predicate Enabled(s: Mailbox, e: Event) {
    match e
    case Write(_) => !s.closed && s.pending == []
    case CopierRead => !s.closed && s.copier == [] && s.pending != []
    case ReaderRead => s.reader.Filling? && s.copier != []
    case ReadNextMsg(_) => s.reader.Handing?
    case Discard => s.reader.Handing? && s.quit
    case ClosePipe => !s.closed
    case CloseQuit => s.closed && !s.quit
    case CopierEof => s.closed && !s.drained && s.copier == []
    case ReaderEof => s.drained && s.reader.Filling?
  }

  function Apply(s: Mailbox, e: Event): Mailbox
    requires Enabled(s, e)
  {
    match e
    case Write(m) => s.(written := s.written + [m], pending := Frame(m))
    case CopierRead =>
      var n := Min(COPY_BUFFER, |s.pending|);
      s.(copier := s.pending[..n], pending := s.pending[n..])
    case ReaderRead =>
      var n := Min(BLOCK, |s.copier|);
      var acc := s.reader.acc + s.copier[..n];
      s.(copier := s.copier[n..], reader := if n == BLOCK then Filling(acc) else Handing(acc))
    case ReadNextMsg(h) =>
      (match Unframe(s.reader.chunk)
       case Message(msg) => s.(reader := Filling([]), received := s.received + [(h, msg)], fates := s.fates + [true])
       case BadLength => s.(reader := Filling([]), fates := s.fates + [false]))
    case Discard => s.(reader := Filling([]), fates := s.fates + [false])
    case ClosePipe => s.(closed := true, pending := [])
    case CloseQuit => s.(quit := true)
    case CopierEof => s.(drained := true)
    case ReaderEof => s.(reader := Ended)
  }

  predicate Valid(s: Mailbox, es: seq<Event>)
    decreases |es|
  {
    es == [] || (Enabled(s, es[0]) && Valid(Apply(s, es[0]), es[1..]))
  }

  function After(s: Mailbox, es: seq<Event>): Mailbox
    requires Valid(s, es)
    decreases |es|
  {
    if es == [] then s else After(Apply(s, es[0]), es[1..])
  }

  function Messages(received: seq<(nat, Bytes)>): (msgs: seq<Bytes>)
    ensures |msgs| == |received|
  {
    seq(|received|, i requires 0 <= i < |received| => received[i].1)
  }

  // Subsequences.

  /** The elements of `xs` whose flag is set. */
  function Select<T>(xs: seq<T>, keep: seq<bool>): seq<T>
    requires |keep| <= |xs|
  {
    if keep == [] then []
    else
      var k := |keep| - 1;
      Select(xs, keep[..k]) + if keep[k] then [xs[k]] else []
  }

  ghost predicate Embeds<T>(part: seq<T>, whole: seq<T>, at: seq<nat>) {
    && |at| == |part|
    && (forall i :: 0 <= i < |at| ==> at[i] < |whole| && part[i] == whole[at[i]])
    && (forall i, j :: 0 <= i < j < |at| ==> at[i] < at[j])
  }

  ghost predicate IsSubsequence<T>(part: seq<T>, whole: seq<T>) {
    exists at :: Embeds(part, whole, at)
  }

  lemma EmbedsOneMore<T>(part: seq<T>, whole: seq<T>, at: seq<nat>, k: nat)
    requires Embeds(part, whole, at) && k < |whole| && forall i :: 0 <= i < |at| ==> at[i] < k
    ensures Embeds(part + [whole[k]], whole, at + [k])
  {
  }

  lemma EmbedsInLonger<T>(part: seq<T>, whole: seq<T>, n: nat, at: seq<nat>)
    requires n <= |whole| && Embeds(part, whole[..n], at)
    ensures Embeds(part, whole, at)
  {
  }

  lemma {:induction false} SelectEmbeds<T>(xs: seq<T>, keep: seq<bool>) returns (at: seq<nat>)
    requires |keep| <= |xs|
    ensures Embeds(Select(xs, keep), xs, at)
    ensures forall i :: 0 <= i < |at| ==> at[i] < |keep|
  {
    if keep == [] {
      at := [];
    } else {
      var k := |keep| - 1;
      at := SelectEmbeds(xs, keep[..k]);
      if keep[k] {
        EmbedsOneMore(Select(xs, keep[..k]), xs, at, k);
        at := at + [k];
      } else {
        assert Select(xs, keep) == Select(xs, keep[..k]);
      }
    }
  }

  lemma HeadOfRun<T>(xs: seq<T>, n: nat, done: seq<seq<T>>, open: seq<T>)
    requires n < |xs| && xs[..n] == Flatten(done) + open && forall i :: 0 <= i < |done| ==> done[i] != []
    ensures |open| <= n && Heads(done + [open + [xs[n]]]) == Heads(done) + [xs[n - |open|]]
  {
    assert open != [] ==> open[0] == xs[..n][n - |open|];
  }

  ghost predicate HeadsAt<T>(r: Runs<T>, xs: seq<T>, at: seq<nat>)
    requires forall i :: 0 <= i < |r.done| ==> r.done[i] != []
  {
    Embeds(Heads(r.done), xs, at) && forall i :: 0 <= i < |at| ==> at[i] < |xs| - |r.open|
  }

  lemma HeadsEmbedNext<T>(xs: seq<T>, n: nat, r: Runs<T>, at: seq<nat>)
    requires n < |xs| && xs[..n] == Flatten(r.done) + r.open && forall i :: 0 <= i < |r.done| ==> r.done[i] != []
    requires HeadsAt(r, xs[..n], at)
    ensures HeadsAt(Runs(r.done, r.open + [xs[n]]), xs[..n + 1], at)
    ensures HeadsAt(Runs(r.done + [r.open + [xs[n]]], []), xs[..n + 1], at + [n - |r.open|])
  {
    var longer := xs[..n + 1];
    assert longer[..n] == xs[..n];
    EmbedsInLonger(Heads(r.done), longer, n, at);
    HeadOfRun(longer, n, r.done, r.open);
    EmbedsOneMore(Heads(r.done), longer, at, n - |r.open|);
  }

  lemma {:induction false} HeadsEmbed<T>(xs: seq<T>, joins: T -> bool) returns (at: seq<nat>)
    ensures IsPartition(xs, joins, RunsOf(xs, joins))
    ensures HeadsAt(RunsOf(xs, joins), xs, at)
  {
    RunsPartition(xs, joins);
    if xs == [] {
      at := [];
    } else {
      var n := |xs| - 1;
      at := HeadsEmbed(xs[..n], joins);
      var r := RunsOf(xs[..n], joins);
      HeadsEmbedNext(xs, n, r, at);
      assert xs[..n + 1] == xs;
      if !joins(xs[n]) {
        at := at + [n - |r.open|];
      }
    }
  }

  lemma EmbedsCompose<T>(a: seq<T>, b: seq<T>, c: seq<T>, ab: seq<nat>, bc: seq<nat>)
    requires Embeds(a, b, ab) && Embeds(b, c, bc)
    ensures IsSubsequence(a, c)
  {
    var ac := seq(|ab|, i requires 0 <= i < |ab| => bc[ab[i]]);
    assert Embeds(a, c, ac);
  }

  lemma {:induction false} SelectAll<T>(xs: seq<T>, keep: seq<bool>)
    requires |keep| <= |xs|
    requires forall i :: 0 <= i < |keep| ==> keep[i]
    ensures Select(xs, keep) == xs[..|keep|]
  {
    if keep != [] {
      SelectAll(xs, keep[..|keep| - 1]);
    }
  }

  lemma {:induction false} SelectExtends<T>(xs: seq<T>, ys: seq<T>, keep: seq<bool>)
    requires |keep| <= |xs| && xs <= ys
    ensures Select(xs, keep) == Select(ys, keep)
  {
    if keep != [] {
      SelectExtends(xs, ys, keep[..|keep| - 1]);
    }
  }

  // The invariant. `n` messages have been read to their last byte, and `off` bytes of the next.

  ghost predicate ReaderAt(s: Mailbox, n: nat, off: nat)
    requires n <= |s.written|
    requires off > 0 ==> n < |s.written| && off <= |Frame(s.written[n])|
  {
    var runs := Cut(s.written[..n]);
    match s.reader
    case Filling(acc) =>
      && |s.fates| == |runs.done|
      && acc == FrameBytes(runs.open) + if off == 0 then [] else Frame(s.written[n])[..off]
    case Handing(chunk) =>
      && off == 0 && runs.open == [] && runs.done != []
      && |s.fates| == |runs.done| - 1
      && chunk == FrameBytes(runs.done[|runs.done| - 1])
    case Ended => |s.fates| == |runs.done|
  }

  /** The copier holds part of one frame: its end, or whole blocks from the middle. */
  ghost predicate CopierAt(s: Mailbox, n: nat, off: nat)
    requires n <= |s.written|
  {
    s.copier != [] ==>
      && n < |s.written|
      && off + |s.copier| <= |Frame(s.written[n])|
      && s.copier == Frame(s.written[n])[off..off + |s.copier|]
      && (off + |s.copier| == |Frame(s.written[n])| || WholeBlocks(|s.copier|))
  }

  /** What follows the copier's bytes is waiting in the first pipe, unless it was closed. */
  ghost predicate PendingAt(s: Mailbox, n: nat, off: nat)
    requires n <= |s.written|
    requires off + |s.copier| > 0 ==> n < |s.written| && off + |s.copier| <= |Frame(s.written[n])|
  {
    var upto := off + |s.copier|;
    if s.closed then s.pending == []
    else if upto == 0 then
      || (n == |s.written| && s.pending == [])
      || (n + 1 == |s.written| && s.pending == Frame(s.written[n]))
    else if upto < |Frame(s.written[n])| then
      n + 1 == |s.written| && s.pending == Frame(s.written[n])[upto..]
    else
      || (n + 1 == |s.written| && s.pending == [])
      || (n + 2 == |s.written| && s.pending == Frame(s.written[n + 1]))
  }

  ghost predicate PipesAt(s: Mailbox, n: nat, off: nat) {
    && n <= |s.written|
    && WholeBlocks(off)
    && (off > 0 ==> n < |s.written| && off < |Frame(s.written[n])|)
    && CopierAt(s, n, off)
    && PendingAt(s, n, off)
    && (s.quit ==> s.closed)
    && (s.drained ==> s.closed && s.copier == [])
  }

  /** The messages returned are the heads of the runs whose chunk a handler got. */
  ghost predicate Ledger(s: Mailbox, done: seq<seq<Msg>>) {
    && NonEmpty(done)
    && |s.fates| <= |done|
    && Messages(s.received) == Select(Heads(done), s.fates)
    && (!s.quit ==> forall i :: 0 <= i < |s.fates| ==> s.fates[i])
  }

  ghost predicate InvAt(s: Mailbox, n: nat, off: nat) {
    && PipesAt(s, n, off)
    && ReaderAt(s, n, off)
    && Ledger(s, Cut(s.written[..n]).done)
  }

  lemma StepWrite(s: Mailbox, n: nat, off: nat, m: Msg)
    requires InvAt(s, n, off) && Enabled(s, Write(m))
    ensures InvAt(Apply(s, Write(m)), n, off)
  {
    var s' := Apply(s, Write(m));
    assert s'.written[..n] == s.written[..n];
    assert forall i :: 0 <= i < |s.written| ==> s'.written[i] == s.written[i];
  }

  lemma StepCopierRead(s: Mailbox, n: nat, off: nat)
    requires InvAt(s, n, off) && Enabled(s, CopierRead)
    ensures InvAt(Apply(s, CopierRead), n, off)
  {
    var s' := Apply(s, CopierRead);
    var f := Frame(s.written[n]);
    WholeBlocksAreMultiples(COPY_BUFFER);
    assert s.pending == f[off..];
    assert s'.copier == f[off..off + |s'.copier|];
    assert off + |s'.copier| < |f| ==> s'.pending == f[off + |s'.copier|..];
  }

  /** Taking `k` bytes out of the middle of a frame. */
  lemma Slices(f: Bytes, off: nat, k: nat, len: nat)
    requires k <= len && off + len <= |f|
    ensures f[off..off + len][..k] == f[off..off + k]
    ensures f[off..off + len][k..] == f[off + k..off + len]
    ensures f[..off] + f[off..off + k] == f[..off + k]
  {
  }

  lemma Glue(a: Bytes, f: Bytes, off: nat, k: nat)
    requires off + k <= |f|
    ensures a + (if off == 0 then [] else f[..off]) + f[off..off + k] == a + f[..off + k]
  {
  }

  lemma GlueEnd(a: Bytes, f: Bytes, off: nat, k: nat)
    requires off + k == |f|
    ensures a + (if off == 0 then [] else f[..off]) + f[off..off + k] == a + f
  {
  }

  lemma ReadMiddleIsFull(s: Mailbox, n: nat, off: nat)
    requires PipesAt(s, n, off) && Enabled(s, ReaderRead)
    requires off + Min(BLOCK, |s.copier|) < |Frame(s.written[n])|
    ensures |s.copier| >= BLOCK && WholeBlocks(off + BLOCK)
    ensures |s.copier| > BLOCK ==> off + |s.copier| == |Frame(s.written[n])| || WholeBlocks(|s.copier| - BLOCK)
  {
  }

  lemma ReadMiddlePipes(s: Mailbox, n: nat, off: nat)
    requires PipesAt(s, n, off) && Enabled(s, ReaderRead)
    requires off + Min(BLOCK, |s.copier|) < |Frame(s.written[n])|
    ensures |s.copier| >= BLOCK
    ensures s.copier[..BLOCK] == Frame(s.written[n])[off..off + BLOCK]
    ensures PipesAt(Apply(s, ReaderRead), n, off + BLOCK)
  {
    ReadMiddleIsFull(s, n, off);
    Slices(Frame(s.written[n]), off, BLOCK, |s.copier|);
    var s' := Apply(s, ReaderRead);
    assert s'.copier == s.copier[BLOCK..] && off + BLOCK + |s'.copier| == off + |s.copier|;
    assert CopierAt(s', n, off + BLOCK);
    assert PendingAt(s', n, off + BLOCK);
  }

  lemma ReadMiddleReader(s: Mailbox, n: nat, off: nat)
    requires n < |s.written| && off + BLOCK <= |Frame(s.written[n])|
    requires ReaderAt(s, n, off) && Enabled(s, ReaderRead)
    requires |s.copier| >= BLOCK && s.copier[..BLOCK] == Frame(s.written[n])[off..off + BLOCK]
    ensures ReaderAt(Apply(s, ReaderRead), n, off + BLOCK)
  {
    Glue(FrameBytes(Cut(s.written[..n]).open), Frame(s.written[n]), off, BLOCK);
  }

  /** A read that does not reach the end of the frame is a full one. */
  lemma StepReadMiddle(s: Mailbox, n: nat, off: nat)
    requires InvAt(s, n, off) && Enabled(s, ReaderRead)
    requires off + Min(BLOCK, |s.copier|) < |Frame(s.written[n])|
    ensures InvAt(Apply(s, ReaderRead), n, off + BLOCK)
  {
    ReadMiddlePipes(s, n, off);
    ReadMiddleReader(s, n, off);
  }

  /** The bytes gathered when the end of a frame is read. */
  lemma FrameEndRead(s: Mailbox, n: nat, off: nat)
    requires InvAt(s, n, off) && Enabled(s, ReaderRead)
    requires off + Min(BLOCK, |s.copier|) == |Frame(s.written[n])|
    ensures s.reader.acc + s.copier == FrameBytes(Cut(s.written[..n]).open + [s.written[n]])
  {
    var open := Cut(s.written[..n]).open;
    FrameBytesSnoc(open, s.written[n]);
    GlueEnd(FrameBytes(open), Frame(s.written[n]), off, |s.copier|);
  }

  lemma ReadEndPipes(s: Mailbox, n: nat, off: nat)
    requires PipesAt(s, n, off) && Enabled(s, ReaderRead)
    requires off + Min(BLOCK, |s.copier|) == |Frame(s.written[n])|
    ensures |s.copier| <= BLOCK && (|s.copier| == BLOCK <==> FillsBlocks(s.written[n]))
    ensures PipesAt(Apply(s, ReaderRead), n + 1, 0)
  {
    WholeBlocksAdd(off, |s.copier|);
    assert Apply(s, ReaderRead).copier == [];
  }

  lemma CutNext(msgs: seq<Msg>, n: nat)
    requires n < |msgs|
    ensures var runs := Cut(msgs[..n]);
            Cut(msgs[..n + 1]) ==
            if FillsBlocks(msgs[n]) then Runs(runs.done, runs.open + [msgs[n]])
            else Runs(runs.done + [runs.open + [msgs[n]]], [])
  {
    assert msgs[..n + 1][..n] == msgs[..n];
  }

  lemma ReadEndExtends(s: Mailbox, n: nat, off: nat)
    requires InvAt(s, n, off) && Enabled(s, ReaderRead) && FillsBlocks(s.written[n])
    requires off + Min(BLOCK, |s.copier|) == |Frame(s.written[n])| && |s.copier| == BLOCK
    ensures ReaderAt(Apply(s, ReaderRead), n + 1, 0)
    ensures Ledger(Apply(s, ReaderRead), Cut(s.written[..n + 1]).done)
  {
    FrameEndRead(s, n, off);
    CutNext(s.written, n);
    assert s.copier[..|s.copier|] == s.copier;
    var open := Cut(s.written[..n + 1]).open;
    assert FrameBytes(open) + [] == FrameBytes(open);
  }

  lemma ReadEndCompletes(s: Mailbox, n: nat, off: nat)
    requires InvAt(s, n, off) && Enabled(s, ReaderRead) && !FillsBlocks(s.written[n])
    requires off + Min(BLOCK, |s.copier|) == |Frame(s.written[n])| && |s.copier| < BLOCK
    ensures ReaderAt(Apply(s, ReaderRead), n + 1, 0)
    ensures Ledger(Apply(s, ReaderRead), Cut(s.written[..n + 1]).done)
  {
    FrameEndRead(s, n, off);
    CutNext(s.written, n);
    assert s.copier[..|s.copier|] == s.copier;
    SelectExtends(Heads(Cut(s.written[..n]).done), Heads(Cut(s.written[..n + 1]).done), s.fates);
  }

  /** The read that reaches the end of the frame extends the open run or completes it. */
  lemma StepReadEnd(s: Mailbox, n: nat, off: nat)
    requires InvAt(s, n, off) && Enabled(s, ReaderRead)
    requires off + Min(BLOCK, |s.copier|) == |Frame(s.written[n])|
    ensures InvAt(Apply(s, ReaderRead), n + 1, 0)
  {
    ReadEndPipes(s, n, off);
    if FillsBlocks(s.written[n]) {
      ReadEndExtends(s, n, off);
    } else {
      ReadEndCompletes(s, n, off);
    }
  }

  lemma FateRecorded(s: Mailbox, done: seq<seq<Msg>>, got: bool, h: nat, s': Mailbox)
    requires Ledger(s, done) && |s.fates| < |done|
    requires got || s.quit
    requires s'.quit == s.quit && s'.fates == s.fates + [got]
    requires s'.received == if got then s.received + [(h, done[|s.fates|][0])] else s.received
    ensures Ledger(s', done)
  {
    var k := |s.fates|;
    assert s'.fates[..k] == s.fates && s'.fates[k] == got;
    assert Messages(s'.received) == Messages(s.received) + if got then [done[k][0]] else [];
  }

  lemma HandOverLedger(s: Mailbox, n: nat, off: nat, h: nat)
    requires n <= |s.written| && (off > 0 ==> n < |s.written| && off <= |Frame(s.written[n])|)
    requires ReaderAt(s, n, off) && Ledger(s, Cut(s.written[..n]).done) && s.reader.Handing?
    ensures Ledger(Apply(s, ReadNextMsg(h)), Cut(s.written[..n]).done)
    ensures Apply(s, ReadNextMsg(h)).fates == s.fates + [true]
  {
    var done := Cut(s.written[..n]).done;
    ChunkYieldsHead(done[|done| - 1]);
    FateRecorded(s, done, true, h, Apply(s, ReadNextMsg(h)));
  }

  /** Handing over a chunk returns the first message of its run; it can not fail. */
  lemma StepReadNextMsg(s: Mailbox, n: nat, off: nat, h: nat)
    requires InvAt(s, n, off) && Enabled(s, ReadNextMsg(h))
    ensures InvAt(Apply(s, ReadNextMsg(h)), n, off)
    ensures Apply(s, ReadNextMsg(h)).fates == s.fates + [true]
  {
    HandOverLedger(s, n, off, h);
    assert FrameBytes([]) + [] == [];
  }

  lemma StepDiscard(s: Mailbox, n: nat, off: nat)
    requires InvAt(s, n, off) && Enabled(s, Discard)
    ensures InvAt(Apply(s, Discard), n, off)
  {
    FateRecorded(s, Cut(s.written[..n]).done, false, 0, Apply(s, Discard));
    assert FrameBytes([]) + [] == [];
  }

  lemma ReadStaysInFrame(s: Mailbox, n: nat, off: nat)
    requires PipesAt(s, n, off) && Enabled(s, ReaderRead)
    ensures n < |s.written| && off + Min(BLOCK, |s.copier|) <= |Frame(s.written[n])|
  {
  }

  lemma StepRead(s: Mailbox, n: nat, off: nat) returns (n': nat, off': nat)
    requires InvAt(s, n, off) && Enabled(s, ReaderRead)
    ensures InvAt(Apply(s, ReaderRead), n', off')
  {
    ReadStaysInFrame(s, n, off);
    if off + Min(BLOCK, |s.copier|) < |Frame(s.written[n])| {
      n', off' := n, off + BLOCK;
      StepReadMiddle(s, n, off);
    } else {
      n', off' := n + 1, 0;
      StepReadEnd(s, n, off);
    }
  }

  /** Closing either pipe or the quit channel loses bytes in flight but breaks nothing. */
  lemma StepShutDown(s: Mailbox, n: nat, off: nat, e: Event)
    requires InvAt(s, n, off) && Enabled(s, e)
    requires e in {ClosePipe, CloseQuit, CopierEof, ReaderEof}
    ensures InvAt(Apply(s, e), n, off)
  {
    var s' := Apply(s, e);
    assert CopierAt(s', n, off) && PendingAt(s', n, off) && ReaderAt(s', n, off);
  }

  lemma StepKeepsInv(s: Mailbox, e: Event, n: nat, off: nat) returns (n': nat, off': nat)
    requires InvAt(s, n, off) && Enabled(s, e)
    ensures InvAt(Apply(s, e), n', off')
  {
    n', off' := n, off;
    match e {
      case Write(m) => StepWrite(s, n, off, m);
      case CopierRead => StepCopierRead(s, n, off);
      case ReaderRead => n', off' := StepRead(s, n, off);
      case ReadNextMsg(h) => StepReadNextMsg(s, n, off, h);
      case Discard => StepDiscard(s, n, off);
      case ClosePipe => StepShutDown(s, n, off, e);
      case CloseQuit => StepShutDown(s, n, off, e);
      case CopierEof => StepShutDown(s, n, off, e);
      case ReaderEof => StepShutDown(s, n, off, e);
    }
  }

  lemma {:induction false} RunKeepsInv(s: Mailbox, es: seq<Event>, n: nat, off: nat) returns (n': nat, off': nat)
    requires InvAt(s, n, off) && Valid(s, es)
    ensures InvAt(After(s, es), n', off')
    decreases |es|
  {
    n', off' := n, off;
    if es != [] {
      n', off' := StepKeepsInv(s, es[0], n, off);
      n', off' := RunKeepsInv(Apply(s, es[0]), es[1..], n', off');
    }
  }

  lemma InitInv()
    ensures InvAt(Init(), 0, 0)
  {
    assert Cut([]) == Runs([], []);
    assert FrameBytes([]) + [] == [];
  }

  // The theorems.

  ghost predicate Reachable(s: Mailbox) {
    exists es :: Valid(Init(), es) && After(Init(), es) == s
  }

  lemma ReachableInv(s: Mailbox) returns (n: nat, off: nat)
    requires Reachable(s)
    ensures InvAt(s, n, off)
  {
    var es :| Valid(Init(), es) && After(Init(), es) == s;
    InitInv();
    n, off := RunKeepsInv(Init(), es, 0, 0);
  }

  /** The runs of what has been read are runs of all that was written. */
  lemma RunsOfWritten(s: Mailbox, n: nat)
    requires n <= |s.written|
    ensures Cut(s.written[..n]).done <= Cut(s.written).done
    ensures NonEmpty(Cut(s.written).done)
  {
    RunsGrow(s.written[..n], s.written[n..], (m: Msg) => FillsBlocks(m));
    assert s.written[..n] + s.written[n..] == s.written;
    CutIsPartition(s.written);
  }

  /**
    Whatever the interleaving and wherever the tear-down falls, the messages returned to all
    successive readers are a subsequence of the messages written: none is truncated, duplicated,
    reordered or made up.
  */
  lemma ReceivedIsSubsequence(s: Mailbox)
    requires Reachable(s)
    ensures IsSubsequence(Messages(s.received), s.written)
  {
    var n, off := ReachableInv(s);
    var heads := Heads(Cut(s.written[..n]).done);
    var ab := SelectEmbeds(heads, s.fates);
    var bc := HeadsEmbed(s.written[..n], (m: Msg) => FillsBlocks(m));
    assert Embeds(heads, s.written, bc);
    EmbedsCompose(Messages(s.received), heads, s.written, ab, bc);
  }

  /** Until the quit channel closes, exactly the heads of the runs are returned, one after the other. */
  lemma ReceivedBeforeQuit(s: Mailbox)
    requires Reachable(s) && !s.quit
    ensures NonEmpty(Cut(s.written).done)
    ensures Messages(s.received) <= Heads(Cut(s.written).done)
  {
    var n, off := ReachableInv(s);
    RunsOfWritten(s, n);
    SelectAll(Heads(Cut(s.written[..n]).done), s.fates);
  }

  ghost predicate NoFullFrames(s: Mailbox) {
    forall i :: 0 <= i < |s.written| ==> !FillsBlocks(s.written[i])
  }

  /** With no frame made of whole blocks, that is a prefix of the messages written. */
  lemma ReceivedIsPrefixBeforeQuit(s: Mailbox)
    requires Reachable(s) && !s.quit && NoFullFrames(s)
    ensures Messages(s.received) <= s.written
  {
    ReceivedBeforeQuit(s);
    RunsAreSingle(s.written, (m: Msg) => FillsBlocks(m));
    assert Heads(Cut(s.written).done) == s.written;
  }

  /** Once nothing is in flight, every completed run has been delivered. */
  lemma NothingIsLostBeforeClose(s: Mailbox)
    requires Reachable(s) && !s.closed
    requires s.pending == [] && s.copier == [] && s.reader.Filling?
    ensures NonEmpty(Cut(s.written).done)
    ensures Messages(s.received) == Heads(Cut(s.written).done)
  {
    var n, off := ReachableInv(s);
    assert off == 0 && n == |s.written|;
    assert s.written[..n] == s.written;
    SelectAll(Heads(Cut(s.written).done), s.fates);
  }

  function Backlog(s: Mailbox): nat {
    3 * |s.pending| + 2 * |s.copier| + if s.reader.Handing? then 1 else 0
  }

  /** As long as somebody reads, the goroutines work off whatever is in flight. */
  lemma {:induction false} Drain(s: Mailbox) returns (es: seq<Event>)
    requires !s.closed && !s.reader.Ended?
    ensures Valid(s, es)
    ensures var s' := After(s, es);
            !s'.closed && s'.written == s.written && s'.pending == [] && s'.copier == [] && s'.reader.Filling?
    decreases Backlog(s)
  {
    if s.reader.Filling? && s.copier == [] && s.pending == [] {
      es := [];
    } else {
      var e := if s.reader.Handing? then ReadNextMsg(0) else if s.copier != [] then ReaderRead else CopierRead;
      var rest := Drain(Apply(s, e));
      es := [e] + rest;
      assert es[1..] == rest;
    }
  }

  lemma {:induction false} RunsConcatenate(s: Mailbox, a: seq<Event>, b: seq<Event>)
    requires Valid(s, a) && Valid(After(s, a), b)
    ensures Valid(s, a + b) && After(s, a + b) == After(After(s, a), b)
    decreases |a|
  {
    if a == [] {
      assert a + b == b;
    } else {
      RunsConcatenate(Apply(s, a[0]), a[1..], b);
      assert (a + b)[1..] == a[1..] + b;
    }
  }

  lemma ReachableExtends(s: Mailbox, es: seq<Event>)
    requires Reachable(s) && Valid(s, es)
    ensures Reachable(After(s, es))
  {
    var before :| Valid(Init(), before) && After(Init(), before) == s;
    RunsConcatenate(Init(), before, es);
  }

  /** So before the tear-down every completed run can still be delivered, wherever the run stands. */
  lemma DeliveryIsPossible(s: Mailbox) returns (es: seq<Event>)
    requires Reachable(s) && !s.closed && !s.reader.Ended?
    ensures Valid(s, es) && After(s, es).written == s.written
    ensures NonEmpty(Cut(s.written).done)
    ensures Messages(After(s, es).received) == Heads(Cut(s.written).done)
  {
    es := Drain(s);
    ReachableExtends(s, es);
    NothingIsLostBeforeClose(After(s, es));
  }

  // After the quit channel closes: chunks may be discarded. When can a message be skipped?

  /** The chunks that can still be let go once nothing more enters the copier. */
  function ChunksLeft(s: Mailbox): nat {
    (if s.reader.Handing? then 1 else 0) + if WholeBlocks(|s.copier|) then 0 else 1
  }

  lemma StepAfterClose(s: Mailbox, e: Event)
    requires s.closed && Enabled(s, e)
    ensures var s' := Apply(s, e);
            && s'.closed && s'.written == s.written
            && s.fates <= s'.fates
            && |s'.fates| + ChunksLeft(s') <= |s.fates| + ChunksLeft(s)
  {
  }

  lemma {:induction false} RunAfterClose(s: Mailbox, es: seq<Event>)
    requires s.closed && Valid(s, es)
    ensures var s' := After(s, es);
            && s'.written == s.written
            && s.fates <= s'.fates
            && |s'.fates| <= |s.fates| + ChunksLeft(s)
    decreases |es|
  {
    if es != [] {
      StepAfterClose(s, es[0]);
      RunAfterClose(Apply(s, es[0]), es[1..]);
    }
  }

  /** With no frame made of whole blocks, the fates decide message by message. */
  lemma ReceivedByFate(s: Mailbox)
    requires Reachable(s) && NoFullFrames(s)
    ensures |s.fates| <= |s.written|
    ensures Messages(s.received) == Select(s.written, s.fates)
  {
    var n, off := ReachableInv(s);
    RunsAreSingle(s.written[..n], (m: Msg) => FillsBlocks(m));
    assert Heads(Cut(s.written[..n]).done) == s.written[..n];
    SelectExtends(s.written[..n], s.written, s.fates);
  }

  ghost predicate AllKept(s: Mailbox) {
    forall i :: 0 <= i < |s.fates| ==> s.fates[i]
  }

  /**
    The reader offers one message while the copier holds the end of the next, different one:
    the first may be discarded and the second still be returned.
  */
  ghost predicate MaySkip(s: Mailbox) {
    var j := |s.received|;
    && s.reader.Handing?
    && !WholeBlocks(|s.copier|)
    && j + 1 < |s.written|
    && s.written[j] != s.written[j + 1]
  }

  lemma SelectOneMore<T>(xs: seq<T>, keep: seq<bool>, more: bool)
    requires |keep| < |xs|
    ensures Select(xs, keep + [more]) == Select(xs, keep) + if more then [xs[|keep|]] else []
  {
    assert (keep + [more])[..|keep|] == keep;
  }

  lemma SnocPrefix<T>(xs: seq<T>, j: nat, more: bool)
    requires j < |xs|
    ensures xs[..j] + (if more then [xs[j]] else []) == xs[..if more then j + 1 else j]
  {
  }

  lemma SelectFirst<T>(xs: seq<T>, kept: seq<bool>, more: bool)
    requires |kept| < |xs| && forall i :: 0 <= i < |kept| ==> kept[i]
    ensures Select(xs, kept + [more]) == xs[..if more then |kept| + 1 else |kept|]
  {
    SelectAll(xs, kept);
    SelectOneMore(xs, kept, more);
    SnocPrefix(xs, |kept|, more);
  }

  lemma LastFlags(kept: seq<bool>, keep: seq<bool>)
    requires kept <= keep
    ensures |keep| == |kept| ==> keep == kept
    ensures |keep| == |kept| + 1 ==> keep == kept + [keep[|kept|]]
    ensures |keep| == |kept| + 2 ==> keep == kept + [keep[|kept|]] + [keep[|kept| + 1]]
  {
  }

  lemma SelectSecond<T>(xs: seq<T>, kept: seq<bool>, a: bool, b: bool)
    requires |kept| + 1 < |xs| && xs[|kept|] == xs[|kept| + 1] && forall i :: 0 <= i < |kept| ==> kept[i]
    ensures Select(xs, kept + [a] + [b]) == xs[..|kept| + (if a then 1 else 0) + (if b then 1 else 0)]
  {
    SelectFirst(xs, kept, a);
    SelectOneMore(xs, kept + [a], b);
    SnocPrefix(xs, if a then |kept| + 1 else |kept|, b);
  }

  /** Of at most two further chunks, a gap needs the first lost and the second kept. */
  lemma SelectTwoMore<T>(xs: seq<T>, kept: seq<bool>, keep: seq<bool>)
    requires kept <= keep && |keep| <= |xs| && |keep| <= |kept| + 2
    requires forall i :: 0 <= i < |kept| ==> kept[i]
    requires |keep| == |kept| + 2 ==> xs[|kept|] == xs[|kept| + 1]
    ensures Select(xs, keep) <= xs
  {
    var j := |kept|;
    LastFlags(kept, keep);
    if |keep| == j {
      SelectAll(xs, kept);
    } else if |keep| == j + 1 {
      SelectFirst(xs, kept, keep[j]);
    } else {
      SelectSecond(xs, kept, keep[j], keep[j + 1]);
    }
  }

  lemma QuitIsClosed(s: Mailbox)
    requires Reachable(s) && s.quit
    ensures s.closed
  {
    var n, off := ReachableInv(s);
  }

  lemma NoSkip(s: Mailbox, es: seq<Event>)
    requires Reachable(s) && s.quit && NoFullFrames(s) && AllKept(s) && !MaySkip(s)
    requires Valid(s, es)
    ensures Messages(After(s, es).received) <= s.written
  {
    QuitIsClosed(s);
    RunAfterClose(s, es);
    ReachableExtends(s, es);
    ReceivedByFate(s);
    ReceivedByFate(After(s, es));
    SelectAll(s.written, s.fates);
    SelectTwoMore(s.written, s.fates, After(s, es).fates);
  }

  /** The reader works through the copier's bytes up to the end of the frame. */
  lemma {:induction false} ReadOut(s: Mailbox) returns (es: seq<Event>)
    requires s.reader.Filling? && !WholeBlocks(|s.copier|)
    ensures Valid(s, es)
    ensures After(s, es).reader.Handing? && After(s, es).fates == s.fates && After(s, es).written == s.written
    decreases |s.copier|
  {
    var s' := Apply(s, ReaderRead);
    if s'.reader.Handing? {
      es := [ReaderRead];
      assert After(s', es[1..]) == s';
    } else {
      var rest := ReadOut(s');
      es := [ReaderRead] + rest;
      assert es[1..] == rest;
    }
  }

  lemma RunThenStep(s: Mailbox, es: seq<Event>, e: Event)
    requires Valid(s, es) && Enabled(After(s, es), e)
    ensures Valid(s, es + [e]) && After(s, es + [e]) == Apply(After(s, es), e)
  {
    var s' := Apply(After(s, es), e);
    assert Valid(s', [e][1..]) && After(s', [e][1..]) == s';
    RunsConcatenate(s, es, [e]);
  }

  lemma HandOver(s: Mailbox)
    requires Reachable(s) && s.reader.Handing?
    ensures Apply(s, ReadNextMsg(0)).fates == s.fates + [true]
  {
    var n, off := ReachableInv(s);
    StepReadNextMsg(s, n, off, 0);
  }

  /** The run that skips: discard what is offered, read on, hand over the next message. */
  lemma SkippingRun(s: Mailbox) returns (es: seq<Event>)
    requires Reachable(s) && s.quit
    requires s.reader.Handing? && !WholeBlocks(|s.copier|)
    ensures Valid(s, es)
    ensures After(s, es).fates == s.fates + [false] + [true] && After(s, es).written == s.written
  {
    RunThenStep(s, [], Discard);
    var reading := ReadOut(Apply(s, Discard));
    RunsConcatenate(s, [] + [Discard], reading);
    es := [] + [Discard] + reading;
    ReachableExtends(s, es);
    HandOver(After(s, es));
    RunThenStep(s, es, ReadNextMsg(0));
    es := es + [ReadNextMsg(0)];
  }

  lemma SkippedIsNoPrefix(s: Mailbox, es: seq<Event>)
    requires Reachable(s) && NoFullFrames(s) && AllKept(s) && MaySkip(s)
    requires Valid(s, es) && After(s, es).written == s.written
    requires After(s, es).fates == s.fates + [false] + [true]
    ensures !(Messages(After(s, es).received) <= s.written)
  {
    ReachableExtends(s, es);
    ReceivedByFate(s);
    ReceivedByFate(After(s, es));
    SelectAll(s.written, s.fates);
    SelectOneMore(s.written, s.fates, false);
    SelectOneMore(s.written, s.fates + [false], true);
    var j := |s.fates|;
    assert Messages(After(s, es).received) == s.written[..j] + [s.written[j + 1]];
  }

  lemma InitIsReachable()
    ensures Reachable(Init())
  {
    assert Valid(Init(), []) && After(Init(), []) == Init();
  }

  lemma ReachableNext(s: Mailbox, e: Event)
    requires Reachable(s) && Enabled(s, e)
    ensures Reachable(Apply(s, e))
  {
    RunThenStep(s, [], e);
    ReachableExtends(s, [] + [e]);
  }

  /** The next message, written and taken over by the copier. */
  lemma Sent(s: Mailbox, m: Msg) returns (s': Mailbox)
    requires Reachable(s) && !s.closed && s.pending == [] && s.copier == [] && |m| == 1
    ensures Reachable(s')
    ensures s' == s.(written := s.written + [m], copier := Frame(m))
  {
    ReachableNext(s, Write(m));
    ReachableNext(Apply(s, Write(m)), CopierRead);
    s' := Apply(Apply(s, Write(m)), CopierRead);
    assert Frame(m)[..|Frame(m)|] == Frame(m);
  }

  /** Such a moment can come: two messages of one byte are enough. */
  lemma SkipIsReachable(a: Byte, b: Byte) returns (s: Mailbox)
    requires a != b
    ensures Reachable(s) && s.quit && NoFullFrames(s) && AllKept(s) && MaySkip(s)
  {
    InitIsReachable();
    var first := Sent(Init(), [a]);
    ReachableNext(first, ReaderRead);
    var second := Sent(Apply(first, ReaderRead), [b]);
    ReachableNext(second, ClosePipe);
    ReachableNext(Apply(second, ClosePipe), CloseQuit);
    s := Apply(Apply(second, ClosePipe), CloseQuit);
    SmallestFullFrame([a]);
    SmallestFullFrame([b]);
    assert s.written == [[a], [b]];
  }

  /**
    From the moment the quit channel closes, the messages received stay a prefix of the messages
    written in every continuation if and only if, at that moment, the reader is not offering a
    message while the copier holds the end of the next one.
  */
  lemma PrefixAfterQuit(s: Mailbox)
    requires Reachable(s) && s.quit && NoFullFrames(s) && AllKept(s)
    ensures (forall es :: Valid(s, es) ==> Messages(After(s, es).received) <= s.written) <==> !MaySkip(s)
  {
    if MaySkip(s) {
      var es := SkippingRun(s);
      SkippedIsNoPrefix(s, es);
    } else {
      forall es | Valid(s, es) ensures Messages(After(s, es).received) <= s.written {
        NoSkip(s, es);
      }
    }
  }

  // The end of the tear-down.

  function WorkLeft(s: Mailbox): nat {
    2 * |s.copier| + (if s.reader.Handing? then 1 else 0) + (if s.drained then 0 else 1)
    + if s.reader.Ended? then 0 else 1
  }

  lemma TearDownAdvances(s: Mailbox, e: Event)
    requires s.closed && s.quit && Enabled(s, e)
    ensures var s' := Apply(s, e); s'.closed && s'.quit && WorkLeft(s') < WorkLeft(s)
  {
  }

  lemma {:induction false} TearDownAdvancesAll(s: Mailbox, es: seq<Event>)
    requires s.closed && s.quit && Valid(s, es)
    ensures |es| <= WorkLeft(s) && After(s, es).closed && After(s, es).quit
    decreases |es|
  {
    if es != [] {
      TearDownAdvances(s, es[0]);
      TearDownAdvancesAll(Apply(s, es[0]), es[1..]);
    }
  }

  lemma {:induction false} EndedIsDrained(s: Mailbox, es: seq<Event>)
    requires (s.reader.Ended? ==> s.drained) && Valid(s, es)
    ensures After(s, es).reader.Ended? ==> After(s, es).drained
    decreases |es|
  {
    if es != [] {
      EndedIsDrained(Apply(s, es[0]), es[1..]);
    }
  }

  /** A step of the copier or of the reader goroutine by itself. */
  predicate OwnStep(e: Event) {
    e in {CopierRead, ReaderRead, Discard, CopierEof, ReaderEof}
  }

  /**
    The tear-down waits for both goroutines, and that wait ends although nobody may be reading: after
    the quit channel closes every run is finite, and it stops only when both have returned.
  */
  lemma TearDownTerminates(s: Mailbox, es: seq<Event>)
    requires Reachable(s) && s.quit && Valid(s, es)
    ensures |es| <= WorkLeft(s)
    ensures (forall e :: OwnStep(e) ==> !Enabled(After(s, es), e)) ==>
              After(s, es).drained && After(s, es).reader.Ended?
  {
    QuitIsClosed(s);
    TearDownAdvancesAll(s, es);
    var before :| Valid(Init(), before) && After(Init(), before) == s;
    EndedIsDrained(Init(), before);
    EndedIsDrained(s, es);
    var end := After(s, es);
    if forall e :: OwnStep(e) ==> !Enabled(end, e) {
      assert OwnStep(ReaderRead) && OwnStep(Discard) && OwnStep(CopierEof) && OwnStep(ReaderEof);
    }
  }
}
