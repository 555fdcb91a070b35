/**
  The mailbox server around the pipes: the registry of streams, the single read token and the
  single write token of each stream, and the timer that tears down a stream nobody holds.

  One Request or Return call, with its update of the stream's status, is one step; so is a timer
  firing together with the tear-down it causes.
*/
module MailboxServer {
  import opened Bytes

  const ID_SIZE: nat := 64

  type StreamId = s: Bytes | |s| == ID_SIZE witness Zeros(ID_SIZE)

  /** A stream ID is cut or padded with zeros to its size. */
  function NewStreamId(id: Bytes): (sid: StreamId)
    ensures forall i :: 0 <= i < ID_SIZE ==> sid[i] == if i < |id| then id[i] else 0
  {
    if |id| >= ID_SIZE then id[..ID_SIZE] else id + Zeros(ID_SIZE - |id|)
  }

  /** One RPC call that takes at most one token. */
  type Handler = nat

  datatype Stream = Stream(
    id: StreamId,
    readParked: nat,       // tokens in readStreamChan, of capacity one
    writeParked: nat,      // tokens in writeStreamChan, of capacity one
    readers: set<Handler>, // handlers that took the read token and have not returned it
    writers: set<Handler>,
    readOccupied: bool,    // the flags kept by streamStatus
    writeOccupied: bool,
    armed: bool,           // the stale timer will fire
    quitCloses: nat,       // how often the quit channel was closed; a second time panics
    tornBusy: bool)        // history: some handler held a token at the tear-down
  {
    predicate Idle() {
      readers == {} && writers == {}
    }

    predicate Torn() {
      quitCloses > 0
    }
  }

  datatype Server = Server(streams: seq<Stream>, registry: map<StreamId, nat>, staleness: bool)

  datatype Event =
    | InitStream(id: StreamId)
    | TakeRead(id: StreamId, h: Handler)
    | TakeWrite(id: StreamId, h: Handler)
    | ReturnRead(k: nat, h: Handler)
    | ReturnWrite(k: nat, h: Handler)
    | TearDown(id: StreamId)
    | TimerFires(k: nat)
    | Stop

  function Start(staleness: bool): Server {
    Server([], map[], staleness)
  }

  function FreshStream(id: StreamId, staleness: bool): Stream {
    Stream(id, 1, 1, {}, {}, false, false, staleness, 0, false)
  }

  function Taken(t: Stream, read: bool, h: Handler, staleness: bool): Stream
    requires if read then t.readParked > 0 else t.writeParked > 0
  {
    var t' := if read then t.(readParked := t.readParked - 1, readers := t.readers + {h})
              else t.(writeParked := t.writeParked - 1, writers := t.writers + {h});
    if !staleness then t'
    else if read then t'.(readOccupied := true, armed := false)
    else t'.(writeOccupied := true, armed := false)
  }

  function Returned(t: Stream, read: bool, h: Handler, staleness: bool): Stream {
    var t' := if read then t.(readParked := t.readParked + 1, readers := t.readers - {h})
              else t.(writeParked := t.writeParked + 1, writers := t.writers - {h});
    if !staleness then t'
    else
      var t'' := if read then t'.(readOccupied := false) else t'.(writeOccupied := false);
      t''.(armed := t''.armed || (!t''.readOccupied && !t''.writeOccupied))
  }

  function Closed(t: Stream): Stream {
    t.(armed := false, quitCloses := t.quitCloses + 1, tornBusy := t.tornBusy || !t.Idle())
  }

  /** A Return waits while its channel is full; a timer fires only when armed. */
  predicate Enabled(s: Server, e: Event) {
    match e
    case ReturnRead(k, h) => k < |s.streams| && h in s.streams[k].readers && s.streams[k].readParked == 0
    case ReturnWrite(k, h) => k < |s.streams| && h in s.streams[k].writers && s.streams[k].writeParked == 0
    case TimerFires(k) => k < |s.streams| && s.streams[k].armed
    case _ => true
  }

  predicate RegistryInRange(s: Server) {
    forall id :: id in s.registry ==> s.registry[id] < |s.streams|
  }

  /** Tearing down what is registered under `id`; an unknown ID is an error without effect. */
  function TornDown(s: Server, id: StreamId): Server
    requires RegistryInRange(s)
  {
    if id !in s.registry then s
    else
      var k := s.registry[id];
      s.(streams := s.streams[k := Closed(s.streams[k])], registry := s.registry - {id})
  }

  function Apply(s: Server, e: Event): Server
    requires RegistryInRange(s) && Enabled(s, e)
  {
    match e
    case InitStream(id) =>
      if id in s.registry then s
      else s.(streams := s.streams + [FreshStream(id, s.staleness)], registry := s.registry[id := |s.streams|])
    case TakeRead(id, h) =>
      if id !in s.registry || s.streams[s.registry[id]].readParked == 0 then s
      else
        var k := s.registry[id];
        s.(streams := s.streams[k := Taken(s.streams[k], true, h, s.staleness)])
    case TakeWrite(id, h) =>
      if id !in s.registry || s.streams[s.registry[id]].writeParked == 0 then s
      else
        var k := s.registry[id];
        s.(streams := s.streams[k := Taken(s.streams[k], false, h, s.staleness)])
    case ReturnRead(k, h) => s.(streams := s.streams[k := Returned(s.streams[k], true, h, s.staleness)])
    case ReturnWrite(k, h) => s.(streams := s.streams[k := Returned(s.streams[k], false, h, s.staleness)])
    case TearDown(id) => TornDown(s, id)
    case TimerFires(k) =>
      TornDown(s.(streams := s.streams[k := s.streams[k].(armed := false)]), s.streams[k].id)
    case Stop =>
      s.(streams := seq(|s.streams|, k requires 0 <= k < |s.streams| =>
           if s.streams[k].id in s.registry && s.registry[s.streams[k].id] == k then Closed(s.streams[k])
           else s.streams[k]))
  }

  // The invariant.

  /** Each token is either in its channel or with one handler, and the status mirrors that. */
  ghost predicate TokensOk(t: Stream, staleness: bool) {
    && t.readParked + |t.readers| == 1
    && t.writeParked + |t.writers| == 1
    && (staleness ==> (t.readOccupied <==> t.readers != {}) && (t.writeOccupied <==> t.writers != {}))
    && (!staleness ==> !t.armed)
  }

  /** Of a stream not torn down the timer runs exactly while nobody holds it. */
  ghost predicate TimerOk(t: Stream, staleness: bool) {
    && (!t.Torn() && staleness ==> (t.armed <==> t.Idle()))
    && (t.Torn() && t.armed ==> t.tornBusy)
    && t.quitCloses <= 1
  }

  ghost predicate Good(s: Server) {
    && (forall k :: 0 <= k < |s.streams| ==> TokensOk(s.streams[k], s.staleness) && TimerOk(s.streams[k], s.staleness))
    && (forall id :: id in s.registry ==>
          s.registry[id] < |s.streams| && s.streams[s.registry[id]].id == id && !s.streams[s.registry[id]].Torn())
    && (forall k :: 0 <= k < |s.streams| && !s.streams[k].Torn() ==>
          s.streams[k].id in s.registry && s.registry[s.streams[k].id] == k)
  }

  lemma TakenOk(t: Stream, read: bool, h: Handler, staleness: bool)
    requires TokensOk(t, staleness) && TimerOk(t, staleness)
    requires if read then t.readParked > 0 else t.writeParked > 0
    ensures var t' := Taken(t, read, h, staleness);
            TokensOk(t', staleness) && TimerOk(t', staleness) && t'.id == t.id && t'.quitCloses == t.quitCloses
  {
    assert read ==> t.readers == {} && t.readers + {h} == {h};
    assert !read ==> t.writers == {} && t.writers + {h} == {h};
  }

  lemma HolderIsUnique(hs: set<Handler>, h: Handler)
    requires |hs| <= 1 && h in hs
    ensures hs == {h}
  {
    assert |hs - {h}| == |hs| - 1;
  }

  lemma ReturnedOk(t: Stream, read: bool, h: Handler, staleness: bool)
    requires TokensOk(t, staleness) && TimerOk(t, staleness)
    requires h in if read then t.readers else t.writers
    ensures var t' := Returned(t, read, h, staleness);
            TokensOk(t', staleness) && t'.id == t.id && t'.quitCloses == t.quitCloses
    ensures !t.Torn() || t.tornBusy ==> TimerOk(Returned(t, read, h, staleness), staleness)
  {
    HolderIsUnique(if read then t.readers else t.writers, h);
  }

  lemma StreamReplaced(s: Server, k: nat, t: Stream)
    requires Good(s) && k < |s.streams|
    requires TokensOk(t, s.staleness) && TimerOk(t, s.staleness)
    requires t.id == s.streams[k].id && t.quitCloses == s.streams[k].quitCloses
    ensures Good(s.(streams := s.streams[k := t]))
  {
  }

  lemma TearDownKeepsGood(s: Server, id: StreamId)
    requires Good(s)
    ensures Good(TornDown(s, id))
  {
    if id in s.registry {
      var k, s' := s.registry[id], TornDown(s, id);
      assert TokensOk(s'.streams[k], s.staleness) && TimerOk(s'.streams[k], s.staleness);
      assert forall j :: 0 <= j < |s.streams| && j != k ==> s'.streams[j] == s.streams[j];
    }
  }

  /** A torn stream with a token still out was torn while that token was out. */
  ghost predicate LateReturnsKnown(s: Server) {
    forall k :: 0 <= k < |s.streams| && s.streams[k].Torn() && !s.streams[k].Idle() ==> s.streams[k].tornBusy
  }

  ghost predicate Inv(s: Server) {
    Good(s) && LateReturnsKnown(s)
  }

  lemma TimerDisarmed(s: Server, k: nat)
    requires Inv(s) && Enabled(s, TimerFires(k))
    ensures Inv(Apply(s, TimerFires(k)))
  {
    var t := s.streams[k];
    var off := s.(streams := s.streams[k := t.(armed := false)]);
    if t.Torn() {
      StreamReplaced(s, k, t.(armed := false));
      TearDownKeepsGood(off, t.id);
    } else {
      var s' := Apply(s, TimerFires(k));
      assert s'.streams == s.streams[k := Closed(t.(armed := false))];
      assert Closed(t.(armed := false)) == Closed(t);
      TearDownKeepsGood(s, t.id);
      assert s' == TornDown(s, t.id);
    }
  }

  lemma TakeKeepsInv(s: Server, k: nat, read: bool, h: Handler)
    requires Inv(s) && k < |s.streams|
    requires if read then s.streams[k].readParked > 0 else s.streams[k].writeParked > 0
    requires !s.streams[k].Torn()
    ensures Inv(s.(streams := s.streams[k := Taken(s.streams[k], read, h, s.staleness)]))
  {
    TakenOk(s.streams[k], read, h, s.staleness);
    StreamReplaced(s, k, Taken(s.streams[k], read, h, s.staleness));
  }

  lemma ReturnKeepsInv(s: Server, k: nat, read: bool, h: Handler)
    requires Inv(s) && k < |s.streams|
    requires h in if read then s.streams[k].readers else s.streams[k].writers
    ensures Inv(s.(streams := s.streams[k := Returned(s.streams[k], read, h, s.staleness)]))
  {
    ReturnedOk(s.streams[k], read, h, s.staleness);
    StreamReplaced(s, k, Returned(s.streams[k], read, h, s.staleness));
  }

  lemma InitKeepsInv(s: Server, id: StreamId)
    requires Inv(s) && id !in s.registry
    ensures Inv(Apply(s, InitStream(id)))
  {
    var s' := Apply(s, InitStream(id));
    assert forall k :: 0 <= k < |s.streams| ==> s'.streams[k] == s.streams[k];
    assert s'.streams[|s.streams|] == FreshStream(id, s.staleness);
  }

  /** Every step but Stop keeps the invariant. */
  lemma StepKeepsInv(s: Server, e: Event)
    requires Inv(s) && Enabled(s, e) && !e.Stop?
    ensures Inv(Apply(s, e))
  {
    match e {
      case InitStream(id) => if id !in s.registry { InitKeepsInv(s, id); }
      case TakeRead(id, h) =>
        if id in s.registry && s.streams[s.registry[id]].readParked > 0 { TakeKeepsInv(s, s.registry[id], true, h); }
      case TakeWrite(id, h) =>
        if id in s.registry && s.streams[s.registry[id]].writeParked > 0 { TakeKeepsInv(s, s.registry[id], false, h); }
      case ReturnRead(k, h) => ReturnKeepsInv(s, k, true, h);
      case ReturnWrite(k, h) => ReturnKeepsInv(s, k, false, h);
      case TearDown(id) => TearDownKeepsGood(s, id);
      case TimerFires(k) => TimerDisarmed(s, k);
    }
  }

  // Runs.

  ghost predicate Valid(s: Server, es: seq<Event>)
    decreases |es|
  {
    es == [] || (RegistryInRange(s) && Enabled(s, es[0]) && !es[0].Stop? && Valid(Apply(s, es[0]), es[1..]))
  }

  ghost function After(s: Server, es: seq<Event>): Server
    requires Valid(s, es)
    decreases |es|
  {
    if es == [] then s else After(Apply(s, es[0]), es[1..])
  }

  lemma {:induction false} RunKeepsInv(s: Server, es: seq<Event>)
    requires Inv(s) && Valid(s, es)
    ensures Inv(After(s, es))
    decreases |es|
  {
    if es != [] {
      StepKeepsInv(s, es[0]);
      RunKeepsInv(Apply(s, es[0]), es[1..]);
    }
  }

  /** A state some run of a server that was not stopped ends in. */
  ghost predicate Reachable(s: Server) {
    exists es :: Valid(Start(s.staleness), es) && After(Start(s.staleness), es) == s
  }

  lemma ReachableInv(s: Server)
    requires Reachable(s)
    ensures Inv(s)
  {
    var es :| Valid(Start(s.staleness), es) && After(Start(s.staleness), es) == s;
    RunKeepsInv(Start(s.staleness), es);
  }

  /** The read token is in its channel or with exactly one handler, and so is the write token. */
  lemma OneReaderOneWriter(s: Server, k: nat)
    requires Reachable(s) && k < |s.streams|
    ensures var t := s.streams[k];
            && ((t.readParked == 1 && t.readers == {}) || (t.readParked == 0 && exists h :: t.readers == {h}))
            && ((t.writeParked == 1 && t.writers == {}) || (t.writeParked == 0 && exists h :: t.writers == {h}))
  {
    ReachableInv(s);
    var t := s.streams[k];
    if t.readers != {} {
      var h :| h in t.readers;
      HolderIsUnique(t.readers, h);
    }
    if t.writers != {} {
      var h :| h in t.writers;
      HolderIsUnique(t.writers, h);
    }
  }

  /** A handler that holds a token can always return it at once. */
  lemma ReturnNeverBlocks(s: Server, k: nat, h: Handler)
    requires Reachable(s) && k < |s.streams|
    ensures h in s.streams[k].readers ==> Enabled(s, ReturnRead(k, h))
    ensures h in s.streams[k].writers ==> Enabled(s, ReturnWrite(k, h))
  {
    OneReaderOneWriter(s, k);
  }

  /** The registry holds exactly the streams that are not torn down, and none is torn down twice. */
  lemma RegistryIsExact(s: Server, k: nat)
    requires Reachable(s) && k < |s.streams|
    ensures s.streams[k].quitCloses <= 1
    ensures !s.streams[k].Torn() <==> s.streams[k].id in s.registry && s.registry[s.streams[k].id] == k
  {
    ReachableInv(s);
  }

  /** The stale timer of a stream that is not torn down runs exactly while both tokens are parked. */
  lemma TimerRunsWhileIdle(s: Server, k: nat)
    requires Reachable(s) && s.staleness && k < |s.streams| && !s.streams[k].Torn()
    ensures s.streams[k].armed <==> s.streams[k].readParked == 1 && s.streams[k].writeParked == 1
  {
    ReachableInv(s);
    OneReaderOneWriter(s, k);
  }

  /** Stop leaves the streams registered: the next tear-down of one of them closes quit again. */
  lemma TearDownAfterStopPanics(s: Server, id: StreamId)
    requires Reachable(s) && id in s.registry
    ensures RegistryInRange(s) && RegistryInRange(Apply(s, Stop))
    ensures Apply(Apply(s, Stop), TearDown(id)).streams[s.registry[id]].quitCloses == 2
  {
    ReachableInv(s);
  }

  // What the steps achieve.

  /** Only the stream at `k` may have changed. */
  predicate OthersStay(s: Server, s': Server, k: nat) {
    |s'.streams| == |s.streams| && forall j :: 0 <= j < |s.streams| && j != k ==> s'.streams[j] == s.streams[j]
  }

  /** A new ID gets a stream with both tokens parked; an active one stays as it is. */
  lemma InitMakesStream(s: Server, id: StreamId)
    requires Reachable(s)
    ensures RegistryInRange(s)
    ensures var s' := Apply(s, InitStream(id));
            && id in s'.registry && s'.registry[id] < |s'.streams| && s.streams <= s'.streams
            && (id in s.registry ==> s' == s)
            && (id !in s.registry ==>
                  var t := s'.streams[s'.registry[id]];
                  && t.id == id && t.readParked == 1 && t.writeParked == 1 && t.Idle() && !t.Torn()
                  && s'.registry == s.registry[id := |s.streams|] && |s'.streams| == |s.streams| + 1)
  {
    ReachableInv(s);
  }

  /** A registered stream without a reader is handed to whoever asks, and nobody else gets it. */
  lemma TakeReadIff(s: Server, id: StreamId, h: Handler)
    requires Reachable(s)
    ensures RegistryInRange(s)
    ensures var s' := Apply(s, TakeRead(id, h));
            if id in s.registry && s.streams[s.registry[id]].readers == {} then
              && s'.registry == s.registry && OthersStay(s, s', s.registry[id])
              && s'.streams[s.registry[id]].readers == {h} && s'.streams[s.registry[id]].readParked == 0
              && s'.streams[s.registry[id]].writers == s.streams[s.registry[id]].writers
            else s' == s
  {
    ReachableInv(s);
    if id in s.registry { OneReaderOneWriter(s, s.registry[id]); }
  }

  lemma TakeWriteIff(s: Server, id: StreamId, h: Handler)
    requires Reachable(s)
    ensures RegistryInRange(s)
    ensures var s' := Apply(s, TakeWrite(id, h));
            if id in s.registry && s.streams[s.registry[id]].writers == {} then
              && s'.registry == s.registry && OthersStay(s, s', s.registry[id])
              && s'.streams[s.registry[id]].writers == {h} && s'.streams[s.registry[id]].writeParked == 0
              && s'.streams[s.registry[id]].readers == s.streams[s.registry[id]].readers
            else s' == s
  {
    ReachableInv(s);
    if id in s.registry { OneReaderOneWriter(s, s.registry[id]); }
  }

  /** A returned token is parked again, for the next one to take. */
  lemma ReturnFrees(s: Server, k: nat, h: Handler)
    requires Reachable(s) && k < |s.streams|
    ensures RegistryInRange(s)
    ensures h in s.streams[k].readers ==>
              && Enabled(s, ReturnRead(k, h))
              && var s' := Apply(s, ReturnRead(k, h));
                 && s'.registry == s.registry && OthersStay(s, s', k)
                 && s'.streams[k].readers == {} && s'.streams[k].readParked == 1
                 && s'.streams[k].writers == s.streams[k].writers
    ensures h in s.streams[k].writers ==>
              && Enabled(s, ReturnWrite(k, h))
              && var s' := Apply(s, ReturnWrite(k, h));
                 && s'.registry == s.registry && OthersStay(s, s', k)
                 && s'.streams[k].writers == {} && s'.streams[k].writeParked == 1
                 && s'.streams[k].readers == s.streams[k].readers
  {
    ReachableInv(s);
    ReturnNeverBlocks(s, k, h);
    if h in s.streams[k].readers { HolderIsUnique(s.streams[k].readers, h); }
    if h in s.streams[k].writers { HolderIsUnique(s.streams[k].writers, h); }
  }

  /** A stream that is torn down leaves the registry and closes its quit channel, and no other stream does. */
  lemma TearDownCloses(s: Server, id: StreamId)
    requires Reachable(s) && id in s.registry
    ensures RegistryInRange(s)
    ensures var s' := Apply(s, TearDown(id));
            && s'.registry == s.registry - {id} && OthersStay(s, s', s.registry[id])
            && s'.streams[s.registry[id]].Torn() && !s'.streams[s.registry[id]].armed
  {
    ReachableInv(s);
  }

  /** The timer of an idle stream tears it down: it fires only while both tokens are parked. */
  lemma StaleStreamIsTornDown(s: Server, k: nat)
    requires Reachable(s) && s.staleness && k < |s.streams| && !s.streams[k].Torn()
    ensures RegistryInRange(s)
    ensures Enabled(s, TimerFires(k)) <==> s.streams[k].Idle()
    ensures s.streams[k].Idle() ==>
              var s' := Apply(s, TimerFires(k));
              && s'.registry == s.registry - {s.streams[k].id} && OthersStay(s, s', k)
              && s'.streams[k].Torn() && !s'.streams[k].armed
  {
    ReachableInv(s);
  }

  // The stale timer of a stream already torn down.

  /** The timer of stream `k` would tear down a stream that some handler holds. */
  ghost predicate HitsBusyStream(s: Server, k: nat)
    requires k < |s.streams|
  {
    var id := s.streams[k].id;
    && s.streams[k].armed
    && id in s.registry && s.registry[id] < |s.streams|
    && !s.streams[s.registry[id]].Idle()
  }

  /** Only the timer of a stream that was torn down while held can do that. */
  lemma BusyHitNeedsBusyTearDown(s: Server, k: nat)
    requires Reachable(s) && k < |s.streams| && HitsBusyStream(s, k)
    ensures s.staleness && s.streams[k].Torn() && s.streams[k].tornBusy
  {
    ReachableInv(s);
  }

  lemma {:induction false} RunsConcatenate(s: Server, a: seq<Event>, b: seq<Event>)
    requires Valid(s, a) && Valid(After(s, a), b)
    ensures Valid(s, a + b) && After(s, a + b) == After(After(s, a), b)
    decreases |a|
  {
    if a == [] {
      assert a + b == b;
    } else {
      RunsConcatenate(Apply(s, a[0]), a[1..], b);
      assert (a + b)[1..] == a[1..] + b;
    }
  }

  lemma RunThenStep(s: Server, es: seq<Event>, e: Event)
    requires Inv(s) && Valid(s, es) && Enabled(After(s, es), e) && !e.Stop?
    ensures Inv(After(s, es))
    ensures Valid(s, es + [e]) && After(s, es + [e]) == Apply(After(s, es), e) && Inv(After(s, es + [e]))
  {
    RunKeepsInv(s, es);
    var s' := Apply(After(s, es), e);
    assert Valid(s', [e][1..]) && After(s', [e][1..]) == s';
    RunsConcatenate(s, es, [e]);
    StepKeepsInv(After(s, es), e);
  }

  /** The handlers of a torn stream return what they hold, which arms its timer again. */
  lemma HandlersLeave(s: Server, k: nat) returns (es: seq<Event>)
    requires Inv(s) && s.staleness && k < |s.streams|
    requires s.streams[k].Torn() && !s.streams[k].Idle()
    ensures Valid(s, es) && Inv(After(s, es))
    ensures After(s, es).registry == s.registry && |After(s, es).streams| == |s.streams| && After(s, es).staleness
    ensures After(s, es).streams[k].armed && After(s, es).streams[k].id == s.streams[k].id
  {
    es := [];
    if h :| h in s.streams[k].readers {
      HolderIsUnique(s.streams[k].readers, h);
      RunThenStep(s, [], ReturnRead(k, h));
      es := [] + [ReturnRead(k, h)];
    }
    var mid := After(s, es);
    if h :| h in mid.streams[k].writers {
      HolderIsUnique(mid.streams[k].writers, h);
      RunThenStep(s, es, ReturnWrite(k, h));
      es := es + [ReturnWrite(k, h)];
    }
  }

  /** The ID is used again and a reader arrives while the old timer runs. */
  lemma SuccessorUnderOldTimer(s: Server, k: nat, h: Handler) returns (es: seq<Event>)
    requires Inv(s) && k < |s.streams| && s.streams[k].armed && s.streams[k].id !in s.registry
    ensures Valid(s, es) && k < |After(s, es).streams| && HitsBusyStream(After(s, es), k)
  {
    var id := s.streams[k].id;
    RunThenStep(s, [], InitStream(id));
    RunThenStep(s, [] + [InitStream(id)], TakeRead(id, h));
    es := [] + [InitStream(id)] + [TakeRead(id, h)];
  }

  /**
    And whenever a stream is torn down while held, it can: its handlers leave, the ID is used
    again, a reader arrives, and the old timer tears the new stream down under that reader.
  */
  lemma BusyTearDownLeadsToBusyHit(s: Server, id: StreamId, h: Handler) returns (es: seq<Event>)
    requires Reachable(s) && s.staleness && id in s.registry
    requires s.registry[id] < |s.streams| && !s.streams[s.registry[id]].Idle()
    ensures Valid(s, [TearDown(id)] + es)
    ensures var s' := After(s, [TearDown(id)] + es);
            s.registry[id] < |s'.streams| && HitsBusyStream(s', s.registry[id])
  {
    ReachableInv(s);
    var k := s.registry[id];
    StepKeepsInv(s, TearDown(id));
    var torn := Apply(s, TearDown(id));
    var leave := HandlersLeave(torn, k);
    var reuse := SuccessorUnderOldTimer(After(torn, leave), k, h);
    RunsConcatenate(torn, leave, reuse);
    es := leave + reuse;
    assert ([TearDown(id)] + es)[1..] == es;
  }

  // The server object.

  class HashMailServer {
    var streams: seq<Stream>
    var registry: map<StreamId, nat>
    const staleness: bool

    ghost function State(): Server
      reads this
    {
      Server(streams, registry, staleness)
    }

    constructor (staleTimeout: int)
      ensures State() == Start(staleTimeout >= 0) && Inv(State())
    {
      streams, registry, staleness := [], map[], staleTimeout >= 0;
    }

    method InitStream(rawId: Bytes) returns (created: bool)
      requires Inv(State())
      modifies this
      ensures State() == Apply(old(State()), Event.InitStream(NewStreamId(rawId))) && Inv(State())
      ensures created <==> NewStreamId(rawId) !in old(registry)
      ensures NewStreamId(rawId) in registry && registry[NewStreamId(rawId)] < |streams|
      ensures created ==> var t := streams[registry[NewStreamId(rawId)]]; t.readParked == 1 && t.writeParked == 1
      ensures !created ==> State() == old(State())
    {
      StepKeepsInv(State(), Event.InitStream(NewStreamId(rawId)));
      var id := NewStreamId(rawId);
      if id in registry {
        return false;
      }
      registry := registry[id := |streams|];
      streams := streams + [FreshStream(id, staleness)];
      return true;
    }

    /** Some(k): the caller now holds the read token of stream k. */
    method LookUpReadStream(rawId: Bytes, h: Handler) returns (k: Option<nat>)
      requires Inv(State())
      modifies this
      ensures State() == Apply(old(State()), TakeRead(NewStreamId(rawId), h)) && Inv(State())
      ensures k.Some? <==> NewStreamId(rawId) in old(registry)
                           && old(streams[registry[NewStreamId(rawId)]]).readers == {}
      ensures k.Some? ==> k.value == old(registry)[NewStreamId(rawId)] && OthersStay(old(State()), State(), k.value)
      ensures k.Some? ==> k.value < |streams| && streams[k.value].readers == {h} && !streams[k.value].armed
      ensures k.None? ==> State() == old(State())
    {
      var id := NewStreamId(rawId);
      StepKeepsInv(State(), TakeRead(id, h));
      if id !in registry {
        return None;
      }
      var n := registry[id];
      var t := streams[n];
      if t.readParked == 0 {
        return None;
      }
      streams := streams[n := Taken(t, true, h, staleness)];
      return Some(n);
    }

    method LookUpWriteStream(rawId: Bytes, h: Handler) returns (k: Option<nat>)
      requires Inv(State())
      modifies this
      ensures State() == Apply(old(State()), TakeWrite(NewStreamId(rawId), h)) && Inv(State())
      ensures k.Some? <==> NewStreamId(rawId) in old(registry)
                           && old(streams[registry[NewStreamId(rawId)]]).writers == {}
      ensures k.Some? ==> k.value == old(registry)[NewStreamId(rawId)] && OthersStay(old(State()), State(), k.value)
      ensures k.Some? ==> k.value < |streams| && streams[k.value].writers == {h} && !streams[k.value].armed
      ensures k.None? ==> State() == old(State())
    {
      var id := NewStreamId(rawId);
      StepKeepsInv(State(), TakeWrite(id, h));
      if id !in registry {
        return None;
      }
      var n := registry[id];
      var t := streams[n];
      if t.writeParked == 0 {
        return None;
      }
      streams := streams[n := Taken(t, false, h, staleness)];
      return Some(n);
    }

    method ReturnReadStream(k: nat, h: Handler)
      requires Inv(State()) && k < |streams| && h in streams[k].readers
      modifies this
      ensures old(Enabled(State(), ReturnRead(k, h)))
      ensures State() == Apply(old(State()), ReturnRead(k, h)) && Inv(State())
      ensures OthersStay(old(State()), State(), k) && streams[k].readers == {} && streams[k].readParked == 1
    {
      HolderIsUnique(streams[k].readers, h);
      StepKeepsInv(State(), ReturnRead(k, h));
      streams := streams[k := Returned(streams[k], true, h, staleness)];
    }

    method ReturnWriteStream(k: nat, h: Handler)
      requires Inv(State()) && k < |streams| && h in streams[k].writers
      modifies this
      ensures old(Enabled(State(), ReturnWrite(k, h)))
      ensures State() == Apply(old(State()), ReturnWrite(k, h)) && Inv(State())
      ensures OthersStay(old(State()), State(), k) && streams[k].writers == {} && streams[k].writeParked == 1
    {
      HolderIsUnique(streams[k].writers, h);
      StepKeepsInv(State(), ReturnWrite(k, h));
      streams := streams[k := Returned(streams[k], false, h, staleness)];
    }

    method TearDownStream(rawId: Bytes) returns (found: bool)
      requires Inv(State())
      modifies this
      ensures State() == Apply(old(State()), TearDown(NewStreamId(rawId))) && Inv(State())
      ensures found <==> NewStreamId(rawId) in old(registry)
      ensures NewStreamId(rawId) !in registry
      ensures found ==> var k := old(registry)[NewStreamId(rawId)];
                OthersStay(old(State()), State(), k) && streams[k].Torn()
    {
      var id := NewStreamId(rawId);
      StepKeepsInv(State(), TearDown(id));
      if id !in registry {
        return false;
      }
      var k := registry[id];
      streams := streams[k := Closed(streams[k])];
      registry := registry - {id};
      return true;
    }
  }
}
