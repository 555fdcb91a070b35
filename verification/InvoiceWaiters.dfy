/**
  VerifyInvoiceStatus with any number of callers: each has a goroutine that waits on the condition
  variable and one that fires at its timeout; the invoice stream updates the cache. All of them
  share one mutex, and every statement between taking and leaving it is a step of its own.
*/
module InvoiceWaiters {
  import opened Bytes
  import opened TokenCodec
  import opened Challenger

  /** The waiting goroutine. It holds the mutex while Reading, Checking and GoingToSleep. */
  datatype Main = WantsLock | Reading | Checking | GoingToSleep | Asleep | Finished

  /** The timeout goroutine. It holds the mutex while Setting, Broadcasting and Leaving. */
  datatype Timer = Waiting | TimerWantsLock | Setting | Broadcasting | Leaving | Fired

  datatype Waiter = Waiter(
    hash: Hash, wanted: InvoiceState,
    main: Main, timer: Timer,
    timeoutReached: bool,
    hasRead: bool, seen: Option<InvoiceState>,
    readAt: nat) // history: which version of the cache was read last

  /** The stream goroutine. It holds the mutex while Updating, Announcing and Releasing. */
  datatype Stream = Receiving | StreamWantsLock(e: Entry) | Updating(e: Entry) | Announcing | Releasing

  datatype Lock = Free | OfMain(i: nat) | OfTimer(i: nat) | OfStream

  datatype System = System(
    cache: Cache,
    versions: seq<Cache>, // history: every value the cache has had
    lock: Lock,
    notify: set<nat>,     // waiters on the condition variable that no broadcast has reached
    waiters: seq<Waiter>,
    stream: Stream)

  datatype Event =
    | Arrive(hash: Hash, wanted: InvoiceState)
    | MainStep(i: nat)
    | TimerStep(i: nat)
    | Receive(e: Entry)
    | StreamStep

  function Lookup(cache: Cache, hash: Hash): Option<InvoiceState> {
    if hash in cache then Some(cache[hash]) else None
  }

  function Start(cache: Cache): System {
    System(cache, [cache], Free, {}, [], Receiving)
  }

  predicate Enabled(s: System, e: Event) {
    match e
    case Arrive(_, _) => true
    case MainStep(i) =>
      && i < |s.waiters|
      && (match s.waiters[i].main
          case WantsLock => s.lock == Free
          case Asleep => i !in s.notify
          case Finished => false
          case _ => true)
    case TimerStep(i) =>
      && i < |s.waiters|
      && (match s.waiters[i].timer
          case TimerWantsLock => s.lock == Free
          case Fired => false
          case _ => true)
    case Receive(_) => s.stream == Receiving
    case StreamStep =>
      match s.stream
      case Receiving => false
      case StreamWantsLock(_) => s.lock == Free
      case _ => true
  }

  function MainNext(s: System, i: nat): System
    requires Enabled(s, MainStep(i))
  {
    var w := s.waiters[i];
    match w.main
    case WantsLock => s.(lock := OfMain(i), waiters := s.waiters[i := w.(main := Reading)])
    case Reading =>
      s.(waiters := s.waiters[i := w.(main := Checking, hasRead := true, seen := Lookup(s.cache, w.hash),
                                      readAt := if |s.versions| > 0 then |s.versions| - 1 else 0)])
    case Checking =>
      if w.seen == Some(w.wanted) || w.timeoutReached
      then s.(lock := Free, waiters := s.waiters[i := w.(main := Finished)])
      else s.(notify := s.notify + {i}, waiters := s.waiters[i := w.(main := GoingToSleep)])
    case GoingToSleep => s.(lock := Free, waiters := s.waiters[i := w.(main := Asleep)])
    case _ => s.(waiters := s.waiters[i := w.(main := WantsLock)])
  }

  function TimerNext(s: System, i: nat): System
    requires Enabled(s, TimerStep(i))
  {
    var w := s.waiters[i];
    match w.timer
    case Waiting => s.(waiters := s.waiters[i := w.(timer := TimerWantsLock)])
    case TimerWantsLock => s.(lock := OfTimer(i), waiters := s.waiters[i := w.(timer := Setting)])
    case Setting => s.(waiters := s.waiters[i := w.(timer := Broadcasting, timeoutReached := true)])
    case Broadcasting => s.(notify := {}, waiters := s.waiters[i := w.(timer := Leaving)])
    case _ => s.(lock := Free, waiters := s.waiters[i := w.(timer := Fired)])
  }

  function StreamNext(s: System): System
    requires Enabled(s, StreamStep)
  {
    match s.stream
    case StreamWantsLock(e) => s.(lock := OfStream, stream := Updating(e))
    case Updating(e) =>
      s.(cache := Updated(s.cache, e), versions := s.versions + [Updated(s.cache, e)], stream := Announcing)
    case Announcing => s.(notify := {}, stream := Releasing)
    case _ => s.(lock := Free, stream := Receiving)
  }

  function Apply(s: System, e: Event): System
    requires Enabled(s, e)
  {
    match e
    case Arrive(hash, wanted) =>
      s.(waiters := s.waiters + [Waiter(hash, wanted, WantsLock, Waiting, false, false, None, 0)])
    case MainStep(i) => MainNext(s, i)
    case TimerStep(i) => TimerNext(s, i)
    case Receive(e) => s.(stream := StreamWantsLock(e))
    case StreamStep => StreamNext(s)
  }

  // The invariant.

  predicate MainHolds(w: Waiter) {
    w.main == Reading || w.main == Checking || w.main == GoingToSleep
  }

  predicate TimerHolds(w: Waiter) {
    w.timer == Setting || w.timer == Broadcasting || w.timer == Leaving
  }

  predicate StreamHolds(st: Stream) {
    st.Updating? || st.Announcing? || st.Releasing?
  }

  /** The mutex belongs to the one goroutine that is inside. */
  ghost predicate LockOk(s: System) {
    && (s.lock.OfMain? ==> s.lock.i < |s.waiters|)
    && (s.lock.OfTimer? ==> s.lock.i < |s.waiters|)
    && (StreamHolds(s.stream) <==> s.lock == OfStream)
    && (forall i :: 0 <= i < |s.waiters| ==> (MainHolds(s.waiters[i]) <==> s.lock == OfMain(i)))
    && (forall i :: 0 <= i < |s.waiters| ==> (TimerHolds(s.waiters[i]) <==> s.lock == OfTimer(i)))
  }

  /** Somebody inside the mutex has made a change and is about to broadcast it. */
  predicate BroadcastDue(s: System) {
    || (s.lock == OfStream && s.stream == Announcing)
    || (s.lock.OfTimer? && s.lock.i < |s.waiters| && s.waiters[s.lock.i].timer == Broadcasting)
  }

  predicate Satisfied(cache: Cache, w: Waiter) {
    Lookup(cache, w.hash) == Some(w.wanted)
  }

  ghost predicate WaiterOk(s: System, i: nat)
    requires i < |s.waiters|
  {
    var w := s.waiters[i];
    && (i in s.notify ==> w.main == GoingToSleep || w.main == Asleep)
    && (i in s.notify ==> BroadcastDue(s) || (!Satisfied(s.cache, w) && !w.timeoutReached))
    && (w.main == GoingToSleep ==> i in s.notify)
    && (w.timeoutReached <==> w.timer == Broadcasting || w.timer == Leaving || w.timer == Fired)
    && (w.main == Checking ==> w.hasRead && w.seen == Lookup(s.cache, w.hash))
    && (w.hasRead ==> w.readAt < |s.versions| && w.seen == Lookup(s.versions[w.readAt], w.hash))
    && (w.main == Finished ==> w.hasRead && (w.seen == Some(w.wanted) || w.timeoutReached))
  }

  ghost predicate Inv(s: System) {
    && LockOk(s)
    && s.versions != [] && s.versions[|s.versions| - 1] == s.cache
    && (forall i :: 0 <= i < |s.waiters| ==> WaiterOk(s, i))
    && (forall i :: i in s.notify ==> i < |s.waiters|)
  }

  lemma MainKeepsLock(s: System, i: nat)
    requires LockOk(s) && Enabled(s, MainStep(i))
    ensures LockOk(MainNext(s, i))
  {
  }

  lemma MainKeepsWaiter(s: System, i: nat, j: nat)
    requires Inv(s) && Enabled(s, MainStep(i)) && j < |s.waiters|
    ensures WaiterOk(MainNext(s, i), j)
  {
    assert WaiterOk(s, j) && WaiterOk(s, i);
  }

  lemma MainKeepsInv(s: System, i: nat)
    requires Inv(s) && Enabled(s, MainStep(i))
    ensures Inv(MainNext(s, i))
  {
    MainKeepsLock(s, i);
    forall j | 0 <= j < |s.waiters| ensures WaiterOk(MainNext(s, i), j) {
      MainKeepsWaiter(s, i, j);
    }
  }

  lemma TimerKeepsLock(s: System, i: nat)
    requires LockOk(s) && Enabled(s, TimerStep(i))
    ensures LockOk(TimerNext(s, i))
  {
  }

  lemma TimerKeepsWaiter(s: System, i: nat, j: nat)
    requires Inv(s) && Enabled(s, TimerStep(i)) && j < |s.waiters|
    ensures WaiterOk(TimerNext(s, i), j)
  {
    assert WaiterOk(s, j) && WaiterOk(s, i);
  }

  lemma TimerKeepsInv(s: System, i: nat)
    requires Inv(s) && Enabled(s, TimerStep(i))
    ensures Inv(TimerNext(s, i))
  {
    TimerKeepsLock(s, i);
    forall j | 0 <= j < |s.waiters| ensures WaiterOk(TimerNext(s, i), j) {
      TimerKeepsWaiter(s, i, j);
    }
  }

  lemma StreamKeepsInv(s: System)
    requires Inv(s) && Enabled(s, StreamStep)
    ensures Inv(StreamNext(s))
  {
    var s' := StreamNext(s);
    forall j | 0 <= j < |s'.waiters| ensures WaiterOk(s', j) {
      assert WaiterOk(s, j);
    }
  }

  lemma StepKeepsInv(s: System, e: Event)
    requires Inv(s) && Enabled(s, e)
    ensures Inv(Apply(s, e))
  {
    match e {
      case Arrive(_, _) =>
        var s' := Apply(s, e);
        forall j | 0 <= j < |s'.waiters| ensures WaiterOk(s', j) {
          if j < |s.waiters| { assert WaiterOk(s, j); }
        }
      case MainStep(i) => MainKeepsInv(s, i);
      case TimerStep(i) => TimerKeepsInv(s, i);
      case Receive(_) =>
        var s' := Apply(s, e);
        forall j | 0 <= j < |s'.waiters| ensures WaiterOk(s', j) { assert WaiterOk(s, j); }
      case StreamStep => StreamKeepsInv(s);
    }
  }

  // Runs.

  predicate Valid(s: System, es: seq<Event>)
    decreases |es|
  {
    es == [] || (Enabled(s, es[0]) && Valid(Apply(s, es[0]), es[1..]))
  }

  function After(s: System, es: seq<Event>): System
    requires Valid(s, es)
    decreases |es|
  {
    if es == [] then s else After(Apply(s, es[0]), es[1..])
  }

  lemma {:induction false} RunKeepsInv(s: System, es: seq<Event>)
    requires Inv(s) && Valid(s, es)
    ensures Inv(After(s, es))
    decreases |es|
  {
    if es != [] {
      StepKeepsInv(s, es[0]);
      RunKeepsInv(Apply(s, es[0]), es[1..]);
    }
  }

  ghost predicate Reachable(s: System) {
    exists cache, es :: Valid(Start(cache), es) && After(Start(cache), es) == s
  }

  lemma ReachableInv(s: System)
    requires Reachable(s)
    ensures Inv(s)
  {
    var cache, es :| Valid(Start(cache), es) && After(Start(cache), es) == s;
    RunKeepsInv(Start(cache), es);
  }

  /**
    No wake-up is lost: whenever the mutex is free, a waiter that sleeps without having been
    signalled has neither its invoice in the wanted state nor its timeout reached.
  */
  lemma NoLostWakeUp(s: System, i: nat)
    requires Reachable(s) && i < |s.waiters|
    requires s.lock == Free && s.waiters[i].main == Asleep && i in s.notify
    ensures var w := s.waiters[i];
            !(w.hash in s.cache && s.cache[w.hash] == w.wanted) && !w.timeoutReached
  {
    ReachableInv(s);
    assert WaiterOk(s, i);
  }

  /** What a finished call returns: nil exactly when the last value read was the wanted one. */
  predicate Succeeds(w: Waiter)
    requires w.main == Finished
  {
    w.seen == Some(w.wanted)
  }

  /** A success is a state the cache really had; a failure needs the timeout, quit or done signal. */
  lemma ResultIsTruthful(s: System, i: nat)
    requires Reachable(s) && i < |s.waiters| && s.waiters[i].main == Finished
    ensures var w := s.waiters[i];
            && w.readAt < |s.versions|
            && (Succeeds(w) <==> w.hash in s.versions[w.readAt] && s.versions[w.readAt][w.hash] == w.wanted)
            && (Succeeds(w) || w.timeoutReached)
  {
    ReachableInv(s);
    assert WaiterOk(s, i);
  }

  // Termination.

  /** How many steps of its own a waiter is from its end once its timer has broadcast. */
  function StepsLeft(m: Main): nat {
    match m
    case Finished => 0
    case Checking => 1
    case Reading => 2
    case WantsLock => 3
    case Asleep => 4
    case GoingToSleep => 5
  }

  ghost predicate TimedOut(w: Waiter) {
    w.timer == Leaving || w.timer == Fired
  }

  /** After its broadcast the waiter can not sleep: it can move whenever the mutex is free or its own. */
  lemma TimedOutCanMove(s: System, i: nat)
    requires Reachable(s) && i < |s.waiters| && TimedOut(s.waiters[i]) && s.waiters[i].main != Finished
    requires s.lock == Free || s.lock == OfMain(i)
    ensures Enabled(s, MainStep(i))
    ensures StepsLeft(Apply(s, MainStep(i)).waiters[i].main) < StepsLeft(s.waiters[i].main)
    ensures TimedOut(Apply(s, MainStep(i)).waiters[i])
    ensures Apply(s, MainStep(i)).lock == Free || Apply(s, MainStep(i)).lock == OfMain(i)
  {
    ReachableInv(s);
    assert WaiterOk(s, i);
  }

  /** Nobody else can undo this progress. */
  lemma OthersDoNotDelay(s: System, e: Event, i: nat)
    requires i < |s.waiters| && Enabled(s, e) && e != MainStep(i)
    ensures Apply(s, e).waiters[i].main == s.waiters[i].main
    ensures TimedOut(s.waiters[i]) ==> TimedOut(Apply(s, e).waiters[i])
  {
  }

  /** How many of the steps are the waiter's own. */
  function OwnSteps(es: seq<Event>, i: nat): nat {
    if es == [] then 0 else (if es[0] == MainStep(i) then 1 else 0) + OwnSteps(es[1..], i)
  }

  lemma OwnStepAdvances(s: System, i: nat)
    requires Inv(s) && Enabled(s, MainStep(i)) && TimedOut(s.waiters[i])
    ensures var w := MainNext(s, i).waiters[i];
            TimedOut(w) && StepsLeft(w.main) < StepsLeft(s.waiters[i].main)
  {
    assert WaiterOk(s, i);
  }

  /**
    In every run, with any number of other callers and updates, a waiter whose timeout has been
    broadcast takes at most as many steps of its own as it is from its end, and never goes back.
  */
  lemma {:induction false} TimedOutNeverTurnsBack(s: System, es: seq<Event>, i: nat)
    requires Inv(s) && Valid(s, es) && i < |s.waiters| && TimedOut(s.waiters[i])
    ensures i < |After(s, es).waiters| && TimedOut(After(s, es).waiters[i])
    ensures OwnSteps(es, i) + StepsLeft(After(s, es).waiters[i].main) <= StepsLeft(s.waiters[i].main)
    decreases |es|
  {
    if es != [] {
      var e := es[0];
      if e == MainStep(i) {
        OwnStepAdvances(s, i);
      } else {
        OthersDoNotDelay(s, e, i);
      }
      StepKeepsInv(s, e);
      TimedOutNeverTurnsBack(Apply(s, e), es[1..], i);
    }
  }

  // No run goes on for ever by itself: every wake-up costs a broadcast, and every broadcast a timer or an update.

  const CYCLE: nat := 5

  /** What a waiting goroutine has still to do if no broadcast reaches it any more. */
  function MainWork(w: Waiter, sleeps: bool): nat {
    match w.main
    case Finished => 0
    case GoingToSleep => 1
    case Checking => 2
    case Reading => 3
    case WantsLock => 4
    case Asleep => if sleeps then 0 else CYCLE
  }

  /** The steps of a timer; its broadcast can make every one of `n` waiters go round once more. */
  function TimerWork(t: Timer, n: nat): nat {
    match t
    case Waiting => CYCLE * n + 5
    case TimerWantsLock => CYCLE * n + 4
    case Setting => CYCLE * n + 3
    case Broadcasting => CYCLE * n + 2
    case Leaving => 1
    case Fired => 0
  }

  function StreamWork(st: Stream, n: nat): nat {
    match st
    case Receiving => 0
    case StreamWantsLock(_) => CYCLE * n + 4
    case Updating(_) => CYCLE * n + 3
    case Announcing => CYCLE * n + 2
    case Releasing => 1
  }

  function Work(s: System, i: nat): nat
    requires i < |s.waiters|
  {
    MainWork(s.waiters[i], i in s.notify) + TimerWork(s.waiters[i].timer, |s.waiters|)
  }

  function Works(s: System): (works: seq<nat>)
    ensures |works| == |s.waiters|
    ensures forall i :: 0 <= i < |works| ==> works[i] == Work(s, i)
  {
    seq(|s.waiters|, i requires 0 <= i < |s.waiters| => Work(s, i))
  }

  function Sum(xs: seq<nat>): nat {
    if xs == [] then 0 else Sum(xs[..|xs| - 1]) + xs[|xs| - 1]
  }

  function WorkLeft(s: System): nat {
    Sum(Works(s)) + StreamWork(s.stream, |s.waiters|)
  }

  lemma {:induction false} SumRises(a: seq<nat>, b: seq<nat>, c: nat)
    requires |a| == |b| && c in {0, CYCLE}
    requires forall j :: 0 <= j < |a| ==> b[j] <= a[j] + c
    ensures Sum(b) <= Sum(a) + c * |a|
  {
    if a != [] {
      SumRises(a[..|a| - 1], b[..|a| - 1], c);
    }
  }

  /** One element falls by `d`, and none of the others rises. */
  lemma {:induction false} SumFalls(a: seq<nat>, b: seq<nat>, i: nat, d: nat)
    requires |a| == |b| && i < |a| && b[i] + d <= a[i]
    requires forall j :: 0 <= j < |a| && j != i ==> b[j] <= a[j]
    ensures Sum(b) + d <= Sum(a)
  {
    var n := |a| - 1;
    if i < n {
      SumFalls(a[..n], b[..n], i, d);
    } else {
      SumRises(a[..n], b[..n], 0);
    }
  }

  /** The effect of a broadcast: everybody may go round once more, but the one who made it pays for that. */
  lemma SumBroadcast(a: seq<nat>, b: seq<nat>, i: nat)
    requires |a| == |b| && i < |a| && b[i] + CYCLE * |a| + 1 <= a[i] + CYCLE
    requires forall j :: 0 <= j < |a| && j != i ==> b[j] <= a[j] + CYCLE
    ensures Sum(b) < Sum(a)
  {
    var d := CYCLE * |a| + 1;
    var mid: seq<nat> := b[i := b[i] + d];
    SumFalls(mid, b, i, d);
    SumRises(a, mid, CYCLE);
  }

  /** The work of two systems whose waiters' work is related like that. */
  lemma WorkFalls(s: System, s': System, i: nat)
    requires |s'.waiters| == |s.waiters| && s'.stream == s.stream && i < |s.waiters|
    requires Work(s', i) < Work(s, i)
    requires forall j :: 0 <= j < |s.waiters| && j != i ==> Work(s', j) <= Work(s, j)
    ensures WorkLeft(s') < WorkLeft(s)
  {
    SumFalls(Works(s), Works(s'), i, 1);
  }

  lemma WorkBroadcast(s: System, s': System, i: nat)
    requires |s'.waiters| == |s.waiters| && s'.stream == s.stream && i < |s.waiters|
    requires Work(s', i) + CYCLE * |s.waiters| < Work(s, i) + CYCLE
    requires forall j :: 0 <= j < |s.waiters| && j != i ==> Work(s', j) <= Work(s, j) + CYCLE
    ensures WorkLeft(s') < WorkLeft(s)
  {
    SumBroadcast(Works(s), Works(s'), i);
  }

  lemma WorkAnnounced(s: System, s': System)
    requires |s'.waiters| == |s.waiters|
    requires StreamWork(s'.stream, |s.waiters|) + CYCLE * |s.waiters| < StreamWork(s.stream, |s.waiters|)
    requires forall j :: 0 <= j < |s.waiters| ==> Work(s', j) <= Work(s, j) + CYCLE
    ensures WorkLeft(s') < WorkLeft(s)
  {
    SumRises(Works(s), Works(s'), CYCLE);
  }

  lemma MainStepWork(s: System, i: nat, j: nat)
    requires Inv(s) && Enabled(s, MainStep(i)) && j < |s.waiters|
    ensures if j == i then Work(MainNext(s, i), i) < Work(s, i) else Work(MainNext(s, i), j) <= Work(s, j)
  {
    assert WaiterOk(s, i);
  }

  lemma MainWorks(s: System, i: nat)
    requires Inv(s) && Enabled(s, MainStep(i))
    ensures WorkLeft(MainNext(s, i)) < WorkLeft(s)
  {
    var s' := MainNext(s, i);
    MainStepWork(s, i, i);
    forall j | 0 <= j < |s.waiters| && j != i ensures Work(s', j) <= Work(s, j) { MainStepWork(s, i, j); }
    WorkFalls(s, s', i);
  }

  /** Waking everybody adds at most one round to each. */
  lemma WakingAdds(w: Waiter, sleeps: bool)
    ensures MainWork(w, false) <= MainWork(w, sleeps) + CYCLE
  {
  }

  lemma TimerBroadcastWorks(s: System, i: nat)
    requires Enabled(s, TimerStep(i)) && s.waiters[i].timer == Broadcasting
    ensures WorkLeft(TimerNext(s, i)) < WorkLeft(s)
  {
    var s' := TimerNext(s, i);
    forall j | 0 <= j < |s.waiters| && j != i ensures Work(s', j) <= Work(s, j) + CYCLE {
      WakingAdds(s.waiters[j], j in s.notify);
    }
    WakingAdds(s.waiters[i], i in s.notify);
    WorkBroadcast(s, s', i);
  }

  lemma TimerWorks(s: System, i: nat)
    requires Enabled(s, TimerStep(i))
    ensures WorkLeft(TimerNext(s, i)) < WorkLeft(s)
  {
    if s.waiters[i].timer == Broadcasting {
      TimerBroadcastWorks(s, i);
    } else {
      WorkFalls(s, TimerNext(s, i), i);
    }
  }

  lemma StreamWorks(s: System)
    requires Enabled(s, StreamStep)
    ensures WorkLeft(StreamNext(s)) < WorkLeft(s)
  {
    var s' := StreamNext(s);
    if s.stream == Announcing {
      forall j | 0 <= j < |s.waiters| ensures Work(s', j) <= Work(s, j) + CYCLE {
        WakingAdds(s.waiters[j], j in s.notify);
      }
      WorkAnnounced(s, s');
    } else {
      assert Works(s') == Works(s);
    }
  }

  /** A step of the goroutines themselves: no new call, no new update. */
  predicate Internal(e: Event) {
    !e.Arrive? && !e.Receive?
  }

  lemma InternalStepWorks(s: System, e: Event)
    requires Inv(s) && Enabled(s, e) && Internal(e)
    ensures WorkLeft(Apply(s, e)) < WorkLeft(s)
  {
    match e {
      case MainStep(i) => MainWorks(s, i);
      case TimerStep(i) => TimerWorks(s, i);
      case StreamStep => StreamWorks(s);
    }
  }

  /** What brings waiter `i` nearer to its end: first empty the mutex, then let its timer fire. */
  function Helpful(s: System, i: nat): Event
    requires i < |s.waiters|
  {
    match s.lock
    case OfMain(j) => MainStep(j)
    case OfTimer(j) => TimerStep(j)
    case OfStream => StreamStep
    case Free => if s.waiters[i].timer != Fired then TimerStep(i) else MainStep(i)
  }

  /** Such a step is always possible, even if nobody else ever moves again. */
  lemma HelpfulIsEnabled(s: System, i: nat)
    requires Inv(s) && i < |s.waiters| && s.waiters[i].main != Finished
    ensures Enabled(s, Helpful(s, i)) && Internal(Helpful(s, i))
  {
    assert WaiterOk(s, i);
  }

  ghost predicate Stuck(s: System) {
    forall e :: Internal(e) ==> !Enabled(s, e)
  }

  /** Whoever waits is not stuck. */
  lemma StuckIsFinished(s: System)
    requires Inv(s) && Stuck(s)
    ensures forall i :: 0 <= i < |s.waiters| ==> s.waiters[i].main == Finished
  {
    forall i | 0 <= i < |s.waiters| ensures s.waiters[i].main == Finished {
      if s.waiters[i].main != Finished {
        HelpfulIsEnabled(s, i);
      }
    }
  }

  /**
    Every call ends: from every state with the invariant, so from every reachable one, a run without new
    calls and updates has bounded length in whatever order the goroutines move, and it stops only when
    all waiters have finished.
  */
  lemma {:induction false} EveryRunFinishes(s: System, es: seq<Event>)
    requires Inv(s) && Valid(s, es) && forall j :: 0 <= j < |es| ==> Internal(es[j])
    ensures |es| + WorkLeft(After(s, es)) <= WorkLeft(s)
    ensures var end := After(s, es);
            |end.waiters| == |s.waiters|
            && (Stuck(end) ==> forall i :: 0 <= i < |end.waiters| ==> end.waiters[i].main == Finished)
    decreases |es|
  {
    if es == [] {
      if Stuck(s) { StuckIsFinished(s); }
    } else {
      InternalStepWorks(s, es[0]);
      StepKeepsInv(s, es[0]);
      EveryRunFinishes(Apply(s, es[0]), es[1..]);
    }
  }

  /** So there is such a run to the end of any waiter. */
  lemma {:induction false} EveryWaiterCanFinish(s: System, i: nat) returns (es: seq<Event>)
    requires Inv(s) && i < |s.waiters|
    ensures Valid(s, es) && i < |After(s, es).waiters| && After(s, es).waiters[i].main == Finished
    ensures forall j :: 0 <= j < |es| ==> Internal(es[j])
    decreases WorkLeft(s)
  {
    if s.waiters[i].main == Finished {
      es := [];
    } else {
      var e := Helpful(s, i);
      HelpfulIsEnabled(s, i);
      InternalStepWorks(s, e);
      StepKeepsInv(s, e);
      var rest := EveryWaiterCanFinish(Apply(s, e), i);
      es := [e] + rest;
      assert es[1..] == rest;
    }
  }

  // When a call must succeed.

  predicate Confirms(e: Entry, hash: Hash, wanted: InvoiceState) {
    e.hash == hash ==> e.state == wanted && e.relevant
  }

  /** The cache has the state and no update on its way or in the run takes it away. */
  ghost predicate StaysWanted(s: System, es: seq<Event>, hash: Hash, wanted: InvoiceState) {
    && hash in s.cache && s.cache[hash] == wanted
    && (s.stream.StreamWantsLock? || s.stream.Updating? ==> Confirms(s.stream.e, hash, wanted))
    && forall j :: 0 <= j < |es| && es[j].Receive? ==> Confirms(es[j].e, hash, wanted)
  }

  lemma StaysWantedNext(s: System, es: seq<Event>, hash: Hash, wanted: InvoiceState)
    requires es != [] && Enabled(s, es[0]) && StaysWanted(s, es, hash, wanted)
    ensures StaysWanted(Apply(s, es[0]), es[1..], hash, wanted)
  {
    assert forall j :: 0 <= j < |es| - 1 ==> es[1..][j] == es[j + 1];
    assert es[0].Receive? ==> Confirms(es[0].e, hash, wanted);
  }

  /** Whatever this waiter has read, it read the wanted state. */
  predicate SawWanted(w: Waiter) {
    && w.main != GoingToSleep
    && (w.main == Checking || w.main == Finished ==> w.seen == Some(w.wanted))
  }

  lemma SawWantedNext(s: System, e: Event, i: nat)
    requires Enabled(s, e) && i < |s.waiters| && SawWanted(s.waiters[i])
    requires s.waiters[i].hash in s.cache && s.cache[s.waiters[i].hash] == s.waiters[i].wanted
    ensures var w := Apply(s, e).waiters[i];
            SawWanted(w) && w.hash == s.waiters[i].hash && w.wanted == s.waiters[i].wanted
  {
  }

  /**
    A call that is made while its invoice has the wanted state, and keeps it, succeeds: however the run
    goes, once it has finished it has not failed.
  */
  lemma {:induction false} SatisfiedCallSucceeds(s: System, es: seq<Event>, i: nat)
    requires Valid(s, es) && i < |s.waiters| && SawWanted(s.waiters[i])
    requires StaysWanted(s, es, s.waiters[i].hash, s.waiters[i].wanted)
    ensures i < |After(s, es).waiters| && SawWanted(After(s, es).waiters[i])
    ensures After(s, es).waiters[i].main == Finished ==> Succeeds(After(s, es).waiters[i])
    decreases |es|
  {
    if es != [] {
      SawWantedNext(s, es[0], i);
      StaysWantedNext(s, es, s.waiters[i].hash, s.waiters[i].wanted);
      SatisfiedCallSucceeds(Apply(s, es[0]), es[1..], i);
    }
  }

  /** In particular a call that arrives then, for the hash and the state it was called with. */
  lemma ArrivalSucceeds(s: System, hash: Hash, wanted: InvoiceState, es: seq<Event>)
    requires Valid(Apply(s, Arrive(hash, wanted)), es) && StaysWanted(s, es, hash, wanted)
    ensures var i, end := |s.waiters|, After(Apply(s, Arrive(hash, wanted)), es);
            && i < |end.waiters| && (end.waiters[i].main == Finished ==> Succeeds(end.waiters[i]))
  {
    SatisfiedCallSucceeds(Apply(s, Arrive(hash, wanted)), es, |s.waiters|);
  }

  // What a success means for the stream of updates.

  function Entries(e: Event): seq<Entry> {
    if e.Receive? then [e.e] else []
  }

  /** The entries received during a run. */
  function Received(es: seq<Event>): seq<Entry> {
    if es == [] then [] else Entries(es[0]) + Received(es[1..])
  }

  predicate Pending(st: Stream) {
    st.StreamWantsLock? || st.Updating?
  }

  /** The versions of the cache are the replays of all prefixes of the log, but for one pending entry. */
  ghost predicate Tracks(cache: Cache, s: System, log: seq<Entry>) {
    && s.versions != [] && s.versions[|s.versions| - 1] == s.cache
    && |log| == |s.versions| - (if Pending(s.stream) then 0 else 1)
    && (forall k :: 0 <= k < |s.versions| ==> s.versions[k] == Replay(cache, log[..k]))
    && (Pending(s.stream) ==> log[|log| - 1] == s.stream.e)
  }

  lemma ReceiveTracks(cache: Cache, s: System, log: seq<Entry>, e: Entry)
    requires Tracks(cache, s, log) && s.stream == Receiving
    ensures Tracks(cache, s.(stream := StreamWantsLock(e)), log + [e])
  {
    assert forall k :: 0 <= k <= |log| ==> (log + [e])[..k] == log[..k];
  }

  lemma UpdateTracks(cache: Cache, s: System, log: seq<Entry>)
    requires Tracks(cache, s, log) && s.stream.Updating?
    ensures Tracks(cache, StreamNext(s), log)
  {
    var n := |log| - 1;
    assert log[..n + 1] == log;
    assert s.versions[n] == Replay(cache, log[..n]);
  }

  /** Every other step leaves the versions alone. */
  lemma OthersTrack(s: System, e: Event)
    requires Enabled(s, e) && !e.Receive? && !(e == StreamStep && s.stream.Updating?)
    ensures var s' := Apply(s, e);
            && s'.versions == s.versions && s'.cache == s.cache
            && Pending(s'.stream) == Pending(s.stream) && (Pending(s.stream) ==> s'.stream.e == s.stream.e)
  {
  }

  lemma StepTracks(cache: Cache, s: System, log: seq<Entry>, e: Event)
    requires Tracks(cache, s, log) && Enabled(s, e)
    ensures Tracks(cache, Apply(s, e), log + Entries(e))
  {
    assert log + [] == log;
    if e.Receive? {
      ReceiveTracks(cache, s, log, e.e);
    } else if e == StreamStep && s.stream.Updating? {
      UpdateTracks(cache, s, log);
    } else {
      OthersTrack(s, e);
    }
  }

  lemma ReceivedFirst(log: seq<Entry>, es: seq<Event>)
    requires es != []
    ensures log + Received(es) == log + Entries(es[0]) + Received(es[1..])
  {
  }

  lemma {:induction false} RunTracks(cache: Cache, s: System, log: seq<Entry>, es: seq<Event>, all: seq<Entry>)
    requires Tracks(cache, s, log) && Valid(s, es) && all == log + Received(es)
    ensures Tracks(cache, After(s, es), all)
    decreases |es|
  {
    if es == [] {
      assert all == log;
    } else {
      ReceivedFirst(log, es);
      StepTracks(cache, s, log, es[0]);
      RunTracks(cache, Apply(s, es[0]), log + Entries(es[0]), es[1..], all);
    }
  }

  /** Every value the cache ever has is the replay of what was received up to some point. */
  lemma VersionsAreReplays(cache: Cache, es: seq<Event>, k: nat)
    requires Valid(Start(cache), es) && k < |After(Start(cache), es).versions|
    ensures k <= |Received(es)| && After(Start(cache), es).versions[k] == Replay(cache, Received(es)[..k])
  {
    var none: seq<Entry> := [];
    assert none[..0] == none && none + Received(es) == Received(es);
    RunTracks(cache, Start(cache), none, es, Received(es));
  }

  lemma {:induction false} ReplayHasSource(cache: Cache, log: seq<Entry>, hash: Hash, state: InvoiceState)
    requires Lookup(Replay(cache, log), hash) == Some(state)
    ensures Lookup(cache, hash) == Some(state) || Entry(hash, state, true) in log
  {
    if log != [] {
      var e := log[|log| - 1];
      if e.hash != hash {
        ReplayHasSource(cache, log[..|log| - 1], hash, state);
      } else {
        assert e == Entry(hash, state, true);
      }
    }
  }

  /** A call succeeds only if lnd reported the wanted state of that very hash, at the load or later. */
  lemma SuccessWasObserved(cache: Cache, es: seq<Event>, i: nat)
    requires Valid(Start(cache), es) && i < |After(Start(cache), es).waiters|
    requires var w := After(Start(cache), es).waiters[i]; w.main == Finished && Succeeds(w)
    ensures var w := After(Start(cache), es).waiters[i];
            Lookup(cache, w.hash) == Some(w.wanted) || Entry(w.hash, w.wanted, true) in Received(es)
  {
    var s := After(Start(cache), es);
    ResultIsTruthful(s, i);
    VersionsAreReplays(cache, es, s.waiters[i].readAt);
    ReplayHasSource(cache, Received(es)[..s.waiters[i].readAt], s.waiters[i].hash, s.waiters[i].wanted);
  }
}
