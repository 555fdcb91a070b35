/**
  How a client pays for a token. Calls are serialised by the interceptor's lock; the process may
  crash between any two steps and inside a file write; lnd works on payments all the time.
*/
module Payment {
  import opened Bytes
  import opened TokenCodec
  import opened TokenStore

  /** Satoshis to millisatoshis in uint64 arithmetic. */
  function ToMsat(sat: Int64): Uint64 {
    (sat * 1000) % 0x1_0000_0000_0000_0000
  }

  /** The conversion is exact for the limits a user means; a negative limit becomes a huge one. */
  lemma ToMsatExact(sat: Int64)
    ensures ToMsat(sat) == 1000 * sat <==> 0 <= sat <= 0xFFFF_FFFF_FFFF_FFFF / 1000
    ensures sat == -1 ==> ToMsat(sat) == 0xFFFF_FFFF_FFFF_FFFF - 999
  {
  }

  /** What lnd takes as the most it may spend on routing, in millisatoshis. */
  function FeeLimit(maxFee: Int64): nat {
    if maxFee > 0 then 1000 * maxFee else 0
  }

  /** The challenge of the server; an invoice may leave its amount open. */
  datatype Invoice = Invoice(hash: Hash, amount: Option<Uint64>)

  datatype Status = InFlight | Succeeded(fee: nat) | Failed

  /** A payment that lnd has accepted; it may still fail or succeed until it is resolved. */
  datatype Attempt = Attempt(hash: Hash, amount: nat, status: Status)

  /** Where the client is inside a call. */
  datatype Point =
    | Down
    | Idle
    | Called(token: File)
    | Tracking(hash: Hash, challenge: Option<Invoice>)
    | Removing(challenge: Option<Invoice>)
    | ReadyToPay(challenge: Option<Invoice>)
    | StoredPending(invoice: Invoice)
    | Paying(invoice: Invoice)
    | StoringPaid(hash: Hash)

  datatype System = System(disk: Disk, attempts: seq<Attempt>, at: Point, maxCost: Int64, maxFee: Int64)

  datatype Tracked = TrackSucceeded | TrackFailed | TrackError

  datatype Event =
    | CrashWhileOpening
    | OpenStore
    | Begin
    | CallReturns
    | PaymentRequired(challenge: Option<Invoice>)
    | Track(result: Tracked)
    | RemoveToken(works: bool)
    | StorePending(fault: Fault)
    | PayInvoice(accepted: bool)
    | PayResult(success: bool)
    | StorePaid(fault: Fault, removed: bool)
    | Crash
    | Resolve(i: nat, status: Status)

  /** lnd reports a payment as failed when it knows the hash and no attempt for it can succeed. */
  predicate KnownFailed(attempts: seq<Attempt>, hash: Hash) {
    && (exists i :: 0 <= i < |attempts| && attempts[i].hash == hash)
    && (forall i :: 0 <= i < |attempts| && attempts[i].hash == hash ==> attempts[i].status == Failed)
  }

  predicate KnownSucceeded(attempts: seq<Attempt>, hash: Hash) {
    exists i :: 0 <= i < |attempts| && attempts[i].hash == hash && attempts[i].status.Succeeded?
  }

  /** What the environment can answer: lnd is honest, needs an amount and keeps to the fee limit. */
  predicate Enabled(s: System, e: Event) {
    match e
    case CrashWhileOpening => s.at.Down?
    case OpenStore => s.at.Down?
    case Begin => s.at.Idle?
    case CallReturns => s.at.Called?
    case PaymentRequired(_) => s.at.Called?
    case Track(r) =>
      && s.at.Tracking?
      && (r.TrackSucceeded? ==> KnownSucceeded(s.attempts, s.at.hash))
      && (r.TrackFailed? ==> KnownFailed(s.attempts, s.at.hash))
    case RemoveToken(_) => s.at.Removing?
    case StorePending(_) => s.at.ReadyToPay?
    case PayInvoice(accepted) => s.at.StoredPending? && (accepted ==> s.at.invoice.amount.Some?)
    case PayResult(success) => s.at.Paying? && (success ==> KnownSucceeded(s.attempts, s.at.invoice.hash))
    case StorePaid(_, _) => s.at.StoringPaid?
    case Crash => true
    case Resolve(i, status) =>
      && i < |s.attempts| && s.attempts[i].status.InFlight?
      && (status.Succeeded? ==> status.fee <= FeeLimit(s.maxFee))
  }

  /** The check of payL402Token: an invoice with an amount must not cost more than the limit. */
  predicate TooExpensive(invoice: Invoice, maxCost: Int64) {
    invoice.amount.Some? && invoice.amount.value > ToMsat(maxCost)
  }

  function Apply(s: System, e: Event): System
    requires Enabled(s, e)
  {
    match e
    case CrashWhileOpening => s.(disk := RenamePaid(s.disk))
    case OpenStore => s.(disk := Open(s.disk), at := Idle)
    case Begin => s.(at := if Current(s.disk).Unreadable? then Idle else Called(Current(s.disk)))
    case CallReturns => s.(at := Idle)
    case PaymentRequired(challenge) =>
      (match s.at.token
       case Holds(hash, pending) => s.(at := if pending then Tracking(hash, challenge) else Idle)
       case _ => s.(at := ReadyToPay(challenge)))
    case Track(r) =>
      (match r
       case TrackSucceeded => s.(at := StoringPaid(s.at.hash))
       case TrackFailed => s.(at := Removing(s.at.challenge))
       case TrackError => s.(at := Idle))
    case RemoveToken(works) =>
      var o := AfterRemove(s.disk, works);
      s.(disk := o.disk, at := if o.ok then ReadyToPay(s.at.challenge) else Idle)
    case StorePending(fault) =>
      if s.at.challenge.None? || TooExpensive(s.at.challenge.value, s.maxCost) then s.(at := Idle)
      else
        var o := AfterStore(s.disk, s.at.challenge.value.hash, true, fault, false);
        s.(disk := o.disk, at := if o.ok then StoredPending(s.at.challenge.value) else Idle)
    case PayInvoice(accepted) =>
      s.(at := Paying(s.at.invoice),
         attempts := if accepted then s.attempts + [Attempt(s.at.invoice.hash, s.at.invoice.amount.value, InFlight)]
                     else s.attempts)
    case PayResult(success) => s.(at := if success then StoringPaid(s.at.invoice.hash) else Idle)
    case StorePaid(fault, removed) =>
      s.(disk := AfterStore(s.disk, s.at.hash, false, fault, removed).disk, at := Idle)
    case Crash => s.(at := Down)
    case Resolve(i, status) => s.(attempts := s.attempts[i := s.attempts[i].(status := status)])
  }

  // The invariant.

  /** An attempt that has not failed for good: money may have moved or may still move. */
  predicate Live(a: Attempt) {
    !a.status.Failed?
  }

  predicate NoneLive(attempts: seq<Attempt>) {
    forall i :: 0 <= i < |attempts| ==> !Live(attempts[i])
  }

  /** The store holds the hash of the payment, or a torn paid file makes it refuse every token. */
  predicate Guards(d: Disk, hash: Hash) {
    || d.paid == Unreadable
    || d.paid == Holds(hash, false)
    || (d.paid == Absent && d.oldPaid == Absent && d.pending == Holds(hash, true))
  }

  ghost predicate AtOk(s: System) {
    match s.at
    case Down => true
    case Idle => true
    case Called(token) => token == Current(s.disk) && !token.Unreadable?
    case Tracking(hash, _) => Current(s.disk) == Holds(hash, true)
    case Removing(_) => NoneLive(s.attempts)
    case ReadyToPay(_) => NoneLive(s.attempts)
    case StoredPending(invoice) =>
      && NoneLive(s.attempts) && !TooExpensive(invoice, s.maxCost)
      && s.disk.paid == Absent && s.disk.pending == Holds(invoice.hash, true)
    case Paying(invoice) => s.disk.paid == Absent && s.disk.pending == Holds(invoice.hash, true)
    case StoringPaid(hash) => Current(s.disk) == Holds(hash, true)
  }

  ghost predicate WithinLimits(s: System) {
    forall i :: 0 <= i < |s.attempts| ==>
      && s.attempts[i].amount <= ToMsat(s.maxCost)
      && (s.attempts[i].status.Succeeded? ==> s.attempts[i].status.fee <= FeeLimit(s.maxFee))
  }

  ghost predicate AtMostOneLive(attempts: seq<Attempt>) {
    forall i, j :: 0 <= i < |attempts| && 0 <= j < |attempts| && Live(attempts[i]) && Live(attempts[j]) ==> i == j
  }

  ghost predicate Inv(s: System) {
    && AtMostOneLive(s.attempts)
    && (forall i :: 0 <= i < |s.attempts| && Live(s.attempts[i]) ==> Guards(s.disk, s.attempts[i].hash))
    && (!s.at.Down? && s.disk.paid == Absent ==> s.disk.oldPaid == Absent)
    && AtOk(s)
    && WithinLimits(s)
  }

  /** A failed payment of the stored hash leaves no payment that could still succeed. */
  lemma FailureLeavesNoneLive(s: System)
    requires Inv(s) && s.at.Tracking? && KnownFailed(s.attempts, s.at.hash)
    ensures NoneLive(s.attempts)
  {
  }

  /** lnd accepts a payment only while the pending token is on disk and no other payment is live. */
  lemma PayKeepsInv(s: System, accepted: bool)
    requires Inv(s) && Enabled(s, PayInvoice(accepted))
    ensures Inv(Apply(s, PayInvoice(accepted)))
  {
    if accepted {
      var s' := Apply(s, PayInvoice(accepted));
      var n := |s.attempts|;
      assert forall i :: 0 <= i < n ==> s'.attempts[i] == s.attempts[i];
      assert forall i :: 0 <= i < |s'.attempts| && Live(s'.attempts[i]) ==> i == n;
    }
  }

  lemma ResolveKeepsInv(s: System, i: nat, status: Status)
    requires Inv(s) && Enabled(s, Resolve(i, status))
    ensures Inv(Apply(s, Resolve(i, status)))
  {
    var s' := Apply(s, Resolve(i, status));
    assert forall j :: 0 <= j < |s.attempts| && Live(s'.attempts[j]) ==> Live(s.attempts[j]);
    assert forall j :: 0 <= j < |s.attempts| ==> s'.attempts[j].hash == s.attempts[j].hash;
  }

  /** Storing a token never drops the hash of a live payment. */
  lemma StoringKeepsInv(s: System, e: Event)
    requires Inv(s) && Enabled(s, e) && (e.StorePending? || e.StorePaid? || e.RemoveToken?)
    ensures Inv(Apply(s, e))
  {
  }

  lemma OpeningKeepsInv(s: System, e: Event)
    requires Inv(s) && Enabled(s, e) && (e.OpenStore? || e.CrashWhileOpening?)
    ensures Inv(Apply(s, e))
  {
  }

  lemma StepKeepsInv(s: System, e: Event)
    requires Inv(s) && Enabled(s, e)
    ensures Inv(Apply(s, e))
  {
    match e {
      case Track(r) => if r.TrackFailed? { FailureLeavesNoneLive(s); }
      case PayInvoice(accepted) => PayKeepsInv(s, accepted);
      case Resolve(i, status) => ResolveKeepsInv(s, i, status);
      case StorePending(_) => StoringKeepsInv(s, e);
      case StorePaid(_, _) => StoringKeepsInv(s, e);
      case RemoveToken(_) => StoringKeepsInv(s, e);
      case OpenStore => OpeningKeepsInv(s, e);
      case CrashWhileOpening => OpeningKeepsInv(s, e);
      case _ =>
    }
  }

  // Runs.

  predicate Valid(s: System, es: seq<Event>)
    decreases |es|
  {
    es == [] || (Enabled(s, es[0]) && Valid(Apply(s, es[0]), es[1..]))
  }

  function After(s: System, es: seq<Event>): System
    requires Valid(s, es)
    decreases |es|
  {
    if es == [] then s else After(Apply(s, es[0]), es[1..])
  }

  lemma {:induction false} RunKeepsInv(s: System, es: seq<Event>)
    requires Inv(s) && Valid(s, es)
    ensures Inv(After(s, es))
    decreases |es|
  {
    if es != [] {
      StepKeepsInv(s, es[0]);
      RunKeepsInv(Apply(s, es[0]), es[1..]);
    }
  }

  /** Any directory at all, no payment made yet, the process not started. */
  predicate Initial(s: System) {
    s.attempts == [] && s.at == Down
  }

  ghost predicate Reachable(s: System) {
    exists s0, es :: Initial(s0) && Valid(s0, es) && After(s0, es) == s
  }

  lemma ReachableInv(s: System)
    requires Reachable(s)
    ensures Inv(s)
  {
    var s0, es :| Initial(s0) && Valid(s0, es) && After(s0, es) == s;
    RunKeepsInv(s0, es);
  }

  /**
    Over every run of calls, crashes, torn writes and reopenings: at most one payment has not
    failed for good, and if there is one the store has its hash or refuses to yield any token.
  */
  lemma NoDoublePayment(s: System, i: nat, j: nat)
    requires Reachable(s) && i < |s.attempts| && Live(s.attempts[i])
    ensures Guards(s.disk, s.attempts[i].hash)
    ensures j < |s.attempts| && Live(s.attempts[j]) ==> i == j
    ensures Abstract(s.disk) in {Pending(s.attempts[i].hash), Paid(s.attempts[i].hash), Refusing}
  {
    ReachableInv(s);
  }

  /** In particular no payment is ever started while another one is not settled as failed. */
  lemma PaymentStartsAlone(s: System, accepted: bool)
    requires Reachable(s) && Enabled(s, PayInvoice(accepted))
    ensures NoneLive(s.attempts)
    ensures Abstract(s.disk) == Pending(s.at.invoice.hash)
  {
    ReachableInv(s);
  }

  function TotalPaid(attempts: seq<Attempt>): nat {
    if attempts == [] then 0
    else
      var a := attempts[|attempts| - 1];
      TotalPaid(attempts[..|attempts| - 1]) + if a.status.Succeeded? then a.amount + a.status.fee else 0
  }

  lemma {:induction false} NothingPaid(attempts: seq<Attempt>)
    requires NoneLive(attempts)
    ensures TotalPaid(attempts) == 0
  {
    if attempts != [] {
      NothingPaid(attempts[..|attempts| - 1]);
    }
  }

  lemma {:induction false} PaidAtMostOnce(attempts: seq<Attempt>, limit: nat)
    requires AtMostOneLive(attempts)
    requires forall i :: 0 <= i < |attempts| && attempts[i].status.Succeeded? ==>
               attempts[i].amount + attempts[i].status.fee <= limit
    ensures TotalPaid(attempts) <= limit
  {
    if attempts != [] {
      var n := |attempts| - 1;
      if Live(attempts[n]) {
        NothingPaid(attempts[..n]);
      } else {
        PaidAtMostOnce(attempts[..n], limit);
      }
    }
  }

  /** All successful payments together stay within the cost limit plus the fee limit. */
  lemma SpendingIsBounded(s: System)
    requires Reachable(s)
    ensures TotalPaid(s.attempts) <= ToMsat(s.maxCost) + FeeLimit(s.maxFee)
    ensures 0 <= s.maxCost <= 0xFFFF_FFFF_FFFF_FFFF / 1000 && s.maxFee >= 0 ==>
              TotalPaid(s.attempts) <= 1000 * (s.maxCost + s.maxFee)
  {
    ReachableInv(s);
    ToMsatExact(s.maxCost);
    PaidAtMostOnce(s.attempts, ToMsat(s.maxCost) + FeeLimit(s.maxFee));
  }

  lemma TwoSteps(s: System, a: Event, b: Event, rest: seq<Event>)
    requires Enabled(s, a) && Enabled(Apply(s, a), b)
    ensures Valid(s, [a, b] + rest) <==> Valid(Apply(Apply(s, a), b), rest)
    ensures Valid(s, [a, b] + rest) ==> After(s, [a, b] + rest) == After(Apply(Apply(s, a), b), rest)
  {
    var es := [a, b] + rest;
    assert es[1..] == [b] + rest && es[1..][1..] == rest;
  }

  lemma FourSteps(s: System, a: Event, b: Event, c: Event, d: Event)
    requires Enabled(s, a) && Enabled(Apply(s, a), b)
    requires var s' := Apply(Apply(s, a), b); Enabled(s', c) && Enabled(Apply(s', c), d)
    ensures Valid(s, [a, b, c, d])
    ensures After(s, [a, b, c, d]) == Apply(Apply(Apply(Apply(s, a), b), c), d)
  {
    TwoSteps(s, a, b, [c, d]);
    TwoSteps(Apply(Apply(s, a), b), c, d, []);
    assert [a, b, c, d] == [a, b] + [c, d] && [c, d] == [c, d] + [];
  }

  /** A successful payment is not lost: while no write was torn, the next call collects the token. */
  lemma PaymentIsCollected(s: System, i: nat, challenge: Option<Invoice>)
    requires Reachable(s) && s.at == Idle
    requires i < |s.attempts| && s.attempts[i].status.Succeeded? && s.disk.paid != Unreadable
    ensures Abstract(s.disk) == Paid(s.attempts[i].hash)
         || var es := [Begin, PaymentRequired(challenge), Track(TrackSucceeded), StorePaid(Clean, true)];
            Valid(s, es) && Abstract(After(s, es).disk) == Paid(s.attempts[i].hash)
  {
    ReachableInv(s);
    assert Guards(s.disk, s.attempts[i].hash) by { assert Live(s.attempts[i]); }
    if s.disk.paid == Absent {
      var es := [Begin, PaymentRequired(challenge), Track(TrackSucceeded), StorePaid(Clean, true)];
      FourSteps(s, es[0], es[1], es[2], es[3]);
    }
  }

  // What a call achieves when nothing stands in its way.

  /** An invoice within the limit, in whole millisatoshis; one without an amount is left to lnd to refuse. */
  predicate Affordable(invoice: Invoice, maxCost: Int64) {
    invoice.amount.Some? ==> invoice.amount.value <= 1000 * maxCost
  }

  /** After a crash at any point the client starts again, with the files it finds. */
  lemma RestartAfterCrash(s: System)
    ensures var es := [Crash, OpenStore]; Valid(s, es) && After(s, es) == s.(disk := Open(s.disk), at := Idle)
  {
    var es := [Crash, OpenStore];
    TwoSteps(s, es[0], es[1], []);
    assert es + [] == es;
  }

  lemma ReadyFromEmpty(s: System, challenge: Option<Invoice>)
    requires s.at == Idle && Abstract(s.disk) == Empty
    ensures var es := [Begin, PaymentRequired(challenge)];
            Valid(s, es) && After(s, es) == s.(at := ReadyToPay(challenge))
  {
    var es := [Begin, PaymentRequired(challenge)];
    TwoSteps(s, es[0], es[1], []);
    assert es + [] == es;
  }

  /** A terminal failure makes room for a new payment. */
  lemma ReadyAfterFailure(s: System, challenge: Option<Invoice>)
    requires s.at == Idle && Abstract(s.disk).Pending?
    requires KnownFailed(s.attempts, Abstract(s.disk).hash) && s.disk.paid == Absent
    ensures var es := [Begin, PaymentRequired(challenge), Track(TrackFailed), RemoveToken(true)];
            && Valid(s, es) && Abstract(After(s, es).disk) == Empty
            && After(s, es) == s.(disk := After(s, es).disk, at := ReadyToPay(challenge))
  {
    var es := [Begin, PaymentRequired(challenge), Track(TrackFailed), RemoveToken(true)];
    FourSteps(s, es[0], es[1], es[2], es[3]);
  }

  /** A paid token is used as it is: the call asks lnd for nothing. */
  lemma PaidIsUsed(s: System, challenge: Option<Invoice>)
    requires s.at == Idle && Abstract(s.disk).Paid?
    ensures var es := [Begin, PaymentRequired(challenge)]; Valid(s, es) && After(s, es) == s
  {
    var es := [Begin, PaymentRequired(challenge)];
    TwoSteps(s, es[0], es[1], []);
    assert es + [] == es;
  }

  /** With an empty store a challenge is taken up exactly when it is affordable. */
  lemma TakenUpIff(s: System, invoice: Invoice)
    requires s.at == ReadyToPay(Some(invoice)) && Abstract(s.disk) == Empty
    requires 0 <= s.maxCost <= 0xFFFF_FFFF_FFFF_FFFF / 1000
    ensures Apply(s, StorePending(Clean)).at == StoredPending(invoice) <==> Affordable(invoice, s.maxCost)
    ensures Affordable(invoice, s.maxCost) ==> Abstract(Apply(s, StorePending(Clean)).disk) == Pending(invoice.hash)
    ensures !Affordable(invoice, s.maxCost) ==> Apply(s, StorePending(Clean)) == s.(at := Idle)
  {
    ToMsatExact(s.maxCost);
  }

  function PayingRun(n: nat, fee: nat): seq<Event> {
    [StorePending(Clean), PayInvoice(true), Resolve(n, Succeeded(fee)), PayResult(true), StorePaid(Clean, true)]
  }

  lemma FirstStep(s: System, e: Event, rest: seq<Event>)
    requires Enabled(s, e) && Valid(Apply(s, e), rest)
    ensures Valid(s, [e] + rest) && After(s, [e] + rest) == After(Apply(s, e), rest)
  {
    assert ([e] + rest)[1..] == rest;
  }

  lemma StoredIsPaid(s: System, invoice: Invoice, fee: nat)
    requires s.at == StoredPending(invoice) && Abstract(s.disk) == Pending(invoice.hash)
    requires invoice.amount.Some? && fee <= FeeLimit(s.maxFee)
    ensures var es := PayingRun(|s.attempts|, fee)[1..];
            && Valid(s, es) && After(s, es).at == Idle && Abstract(After(s, es).disk) == Paid(invoice.hash)
            && After(s, es).attempts == s.attempts + [Attempt(invoice.hash, invoice.amount.value, Succeeded(fee))]
  {
    var n := |s.attempts|;
    var es := PayingRun(n, fee)[1..];
    var s2 := Apply(Apply(s, es[0]), es[1]);
    assert s2.attempts[n] == Attempt(invoice.hash, invoice.amount.value, Succeeded(fee));
    FourSteps(s, es[0], es[1], es[2], es[3]);
    assert es == [es[0], es[1], es[2], es[3]];
  }

  /** An affordable invoice with an amount is paid, and the store ends up with the paid token. */
  lemma AffordableIsPaid(s: System, invoice: Invoice, fee: nat)
    requires s.at == ReadyToPay(Some(invoice)) && Abstract(s.disk) == Empty
    requires 0 <= s.maxCost <= 0xFFFF_FFFF_FFFF_FFFF / 1000 && invoice.amount.Some?
    requires Affordable(invoice, s.maxCost) && fee <= 1000 * s.maxFee
    ensures var es := PayingRun(|s.attempts|, fee);
            && Valid(s, es) && After(s, es).at == Idle && Abstract(After(s, es).disk) == Paid(invoice.hash)
            && After(s, es).attempts == s.attempts + [Attempt(invoice.hash, invoice.amount.value, Succeeded(fee))]
  {
    var es := PayingRun(|s.attempts|, fee);
    TakenUpIff(s, invoice);
    StoredIsPaid(Apply(s, es[0]), invoice, fee);
    FirstStep(s, es[0], es[1..]);
    assert es == [es[0]] + es[1..];
  }

  lemma {:induction false} RunsConcatenate(s: System, a: seq<Event>, b: seq<Event>)
    requires Valid(s, a) && Valid(After(s, a), b)
    ensures Valid(s, a + b) && After(s, a + b) == After(After(s, a), b)
    decreases |a|
  {
    if a == [] {
      assert a + b == b;
    } else {
      RunsConcatenate(Apply(s, a[0]), a[1..], b);
      assert (a + b)[1..] == a[1..] + b;
    }
  }

  /**
    A whole call: with nothing in the store, or after the payment of what is there failed for good, an
    affordable challenge is paid within the limits and its token is in the store at the end.
  */
  lemma CallPays(s: System, invoice: Invoice, fee: nat) returns (es: seq<Event>)
    requires s.at == Idle && s.disk.paid == Absent
    requires Abstract(s.disk) == Empty || (Abstract(s.disk).Pending? && KnownFailed(s.attempts, Abstract(s.disk).hash))
    requires 0 <= s.maxCost <= 0xFFFF_FFFF_FFFF_FFFF / 1000 && invoice.amount.Some?
    requires Affordable(invoice, s.maxCost) && fee <= 1000 * s.maxFee
    ensures [Begin, PaymentRequired(Some(invoice))] <= es && PayInvoice(true) in es
    ensures Valid(s, es) && After(s, es).at == Idle && Abstract(After(s, es).disk) == Paid(invoice.hash)
    ensures After(s, es).attempts == s.attempts + [Attempt(invoice.hash, invoice.amount.value, Succeeded(fee))]
  {
    var first := [Begin, PaymentRequired(Some(invoice))];
    if Abstract(s.disk) == Empty {
      ReadyFromEmpty(s, Some(invoice));
    } else {
      ReadyAfterFailure(s, Some(invoice));
      first := [Begin, PaymentRequired(Some(invoice)), Track(TrackFailed), RemoveToken(true)];
    }
    var pay := PayingRun(|s.attempts|, fee);
    AffordableIsPaid(After(s, first), invoice, fee);
    RunsConcatenate(s, first, pay);
    es := first + pay;
    assert es[|first| + 1] == pay[1];
  }

  // The interceptor's code as one of these runs.

  lemma {:induction false} RunThenStep(s: System, es: seq<Event>, e: Event)
    requires Valid(s, es) && Enabled(After(s, es), e)
    ensures Valid(s, es + [e]) && After(s, es + [e]) == Apply(After(s, es), e)
    decreases |es|
  {
    var more := es + [e];
    if es == [] {
      assert Valid(Apply(s, e), more[1..]) && After(Apply(s, e), more[1..]) == Apply(s, e);
    } else {
      RunThenStep(Apply(s, es[0]), es[1..], e);
      assert more[1..] == es[1..] + [e];
    }
  }

  datatype Update = InTransit | Success | TerminalFailure | OtherState

  /** The first update that is not in flight. */
  predicate FirstConclusion(updates: seq<Update>, k: int) {
    0 <= k < |updates| && updates[k] != InTransit && forall i :: 0 <= i < k ==> updates[i] == InTransit
  }

  ghost predicate Concludes(updates: seq<Update>, u: Update) {
    exists k :: FirstConclusion(updates, k) && updates[k] == u
  }

  /** When paying for a challenge works: it is within the limit, both files get written, and lnd pays in time. */
  predicate PaySucceeds(challenge: Option<Invoice>, maxCost: Int64, pendingFault: Fault, accepted: bool,
                        settled: Status, timedOut: bool, paidFault: Fault)
  {
    && challenge.Some?
    && (challenge.value.amount.Some? ==> challenge.value.amount.value <= ToMsat(maxCost))
    && pendingFault == Clean && accepted && settled.Succeeded? && !timedOut && paidFault == Clean
  }

  /** The loop of trackPayment: wait through in-flight updates; running out of them is the timeout. */
  method AwaitConclusion(updates: seq<Update>) returns (r: Tracked)
    ensures r == TrackSucceeded <==> Concludes(updates, Success)
    ensures r == TrackFailed <==> Concludes(updates, TerminalFailure)
  {
    var k := 0;
    while k < |updates|
      invariant 0 <= k <= |updates|
      invariant forall i :: 0 <= i < k ==> updates[i] == InTransit
    {
      match updates[k] {
        case InTransit =>
        case Success => return TrackSucceeded;
        case TerminalFailure => return TrackFailed;
        case OtherState => return TrackError;
      }
      k := k + 1;
    }
    return TrackError;
  }

  /**
    The interceptor's methods, with the run they follow kept as a ghost: `history` leads from
    `start` to the present state, and `at` is the point the code has reached.
  */
  class ClientInterceptor {
    var disk: Disk
    var attempts: seq<Attempt>
    const maxCost: Int64
    const maxFee: Int64
    ghost var at: Point
    ghost var start: System
    ghost var history: seq<Event>

    ghost function Now(): System
      reads this
    {
      System(disk, attempts, at, maxCost, maxFee)
    }

    ghost predicate Follows()
      reads this
    {
      Valid(start, history) && After(start, history) == Now()
    }

    /** Records the step that led from `before` to the present state. */
    ghost method Record(before: System, e: Event)
      requires Valid(start, history) && After(start, history) == before
      requires Enabled(before, e) && before.maxCost == maxCost && before.maxFee == maxFee
      requires disk == Apply(before, e).disk && attempts == Apply(before, e).attempts
      modifies this`at, this`history
      ensures Follows() && at == Apply(before, e).at && history == old(history) + [e]
    {
      RunThenStep(start, history, e);
      history := history + [e];
      at := Apply(before, e).at;
    }

    /** payL402Token up to the stored pending token. */
    method StorePendingToken(challenge: Option<Invoice>, fault: Fault) returns (ok: bool)
      requires Follows() && at == ReadyToPay(challenge)
      modifies this
      ensures Follows() && start == old(start) && old(history) < history && attempts == old(attempts)
      ensures ok ==> challenge.Some? && at == StoredPending(challenge.value)
                     && Abstract(disk) == Pending(challenge.value.hash)
      ensures !ok ==> at == Idle
      ensures ok <==> fault == Clean && old(Abstract(disk)) == Empty && challenge.Some?
                      && (challenge.value.amount.Some? ==> challenge.value.amount.value <= ToMsat(maxCost))
    {
      ghost var before := Now();
      if challenge.None? || TooExpensive(challenge.value, maxCost) {
        Record(before, StorePending(fault));
        return false;
      }
      var o := AfterStore(disk, challenge.value.hash, true, fault, false);
      disk, ok := o.disk, o.ok;
      Record(before, StorePending(fault));
    }

    /**
      lnd settles the payment with `settled`, or leaves it in flight; `timedOut`: the client gives up
      waiting before it hears of that, also when the payment succeeds.
    */
    method SendPayment(invoice: Invoice, accepted: bool, settled: Status, timedOut: bool) returns (paid: bool)
      requires Follows() && at == StoredPending(invoice)
      requires accepted ==> invoice.amount.Some?
      requires settled.Succeeded? ==> settled.fee <= FeeLimit(maxFee)
      modifies this
      ensures Follows() && start == old(start) && old(history) < history && disk == old(disk)
      ensures paid <==> accepted && settled.Succeeded? && !timedOut
      ensures attempts ==
              old(attempts) + if accepted then [Attempt(invoice.hash, invoice.amount.value, settled)] else []
      ensures at == if paid then StoringPaid(invoice.hash) else Idle
    {
      ghost var before := Now();
      if accepted {
        attempts := attempts + [Attempt(invoice.hash, invoice.amount.value, InFlight)];
      }
      Record(before, PayInvoice(accepted));
      if !accepted {
        Record(Now(), PayResult(false));
        return false;
      }
      var n := |attempts| - 1;
      before := Now();
      attempts := attempts[n := attempts[n].(status := settled)];
      Record(before, Resolve(n, settled));
      paid := settled.Succeeded? && !timedOut;
      assert attempts[n].hash == invoice.hash;
      Record(Now(), PayResult(paid));
    }

    method StorePaidToken(hash: Hash, fault: Fault, removed: bool) returns (ok: bool)
      requires Follows() && at == StoringPaid(hash)
      modifies this
      ensures Follows() && start == old(start) && old(history) < history && at == Idle && attempts == old(attempts)
      ensures ok ==> Abstract(disk) == Paid(hash)
      ensures ok <==> fault == Clean && old(Abstract(disk)) in {Empty, Pending(hash)}
    {
      ghost var before := Now();
      var o := AfterStore(disk, hash, false, fault, removed);
      disk, ok := o.disk, o.ok;
      Record(before, StorePaid(fault, removed));
    }

    /** payL402Token: success means that the paid token is in the store. */
    method PayL402Token(challenge: Option<Invoice>, pendingFault: Fault, accepted: bool, settled: Status,
                        timedOut: bool, paidFault: Fault, removed: bool) returns (ok: bool)
      requires Follows() && at == ReadyToPay(challenge)
      requires accepted ==> challenge.Some? && challenge.value.amount.Some?
      requires settled.Succeeded? ==> settled.fee <= FeeLimit(maxFee)
      modifies this
      ensures Follows() && start == old(start) && old(history) < history && at == Idle
      ensures ok ==> challenge.Some? && Abstract(disk) == Paid(challenge.value.hash)
      ensures ok <==> old(Abstract(disk)) == Empty
                      && PaySucceeds(challenge, maxCost, pendingFault, accepted, settled, timedOut, paidFault)
    {
      ok := StorePendingToken(challenge, pendingFault);
      if !ok { return; }
      ok := SendPayment(challenge.value, accepted, settled, timedOut);
      if !ok { return; }
      ok := StorePaidToken(challenge.value.hash, paidFault, removed);
    }

    /** trackPayment, with the removal of the token when the payment failed for good. */
    method TrackPayment(hash: Hash, challenge: Option<Invoice>, updates: seq<Update>, fault: Fault, removed: bool,
                        works: bool)
      returns (ok: bool, retry: bool)
      requires Follows() && at == Tracking(hash, challenge)
      requires Success in updates ==> KnownSucceeded(attempts, hash)
      requires TerminalFailure in updates ==> KnownFailed(attempts, hash)
      modifies this
      ensures Follows() && start == old(start) && old(history) < history && attempts == old(attempts)
      ensures at == if retry then ReadyToPay(challenge) else Idle
      ensures ok ==> !retry && Abstract(disk) == Paid(hash)
      ensures ok <==> Concludes(updates, Success) && fault == Clean && old(Abstract(disk)) in {Empty, Pending(hash)}
      ensures retry <==> Concludes(updates, TerminalFailure) && works && old(disk.pending) != Absent
      ensures retry ==> disk == old(disk).(pending := Absent)
      ensures !retry && !Concludes(updates, Success) ==> disk == old(disk)
    {
      ok, retry := false, false;
      var r := AwaitConclusion(updates);
      Record(Now(), Track(r));
      match r {
        case TrackError =>
        case TrackSucceeded => ok := StorePaidToken(hash, fault, removed);
        case TrackFailed =>
          ghost var before := Now();
          var o := AfterRemove(disk, works);
          disk, retry := o.disk, o.ok;
          Record(before, RemoveToken(works));
      }
    }

    /** handlePayment: resume a pending payment, pay anew, or use the paid token there is. */
    method HandlePayment(token: File, challenge: Option<Invoice>, updates: seq<Update>, works: bool,
                         pendingFault: Fault, accepted: bool, settled: Status, timedOut: bool,
                         paidFault: Fault, removed: bool) returns (ok: bool)
      requires Follows() && at == Called(token) && !token.Unreadable? && token == Current(disk)
      requires accepted ==> challenge.Some? && challenge.value.amount.Some?
      requires settled.Succeeded? ==> settled.fee <= FeeLimit(maxFee)
      requires token.Holds? && Success in updates ==> KnownSucceeded(attempts, token.hash)
      requires token.Holds? && TerminalFailure in updates ==> KnownFailed(attempts, token.hash)
      modifies this
      ensures Follows() && start == old(start) && old(history) < history && at == Idle
      ensures ok ==> Abstract(disk).Paid?
      ensures token == Absent ==>
                (ok <==> PaySucceeds(challenge, maxCost, pendingFault, accepted, settled, timedOut, paidFault))
      ensures token.Holds? && !token.pending ==> ok && disk == old(disk) && attempts == old(attempts)
      ensures token.Holds? && token.pending && old(disk.paid) == Absent ==>
                (ok <==>
                   || (Concludes(updates, Success) && paidFault == Clean)
                   || (Concludes(updates, TerminalFailure) && works
                       && PaySucceeds(challenge, maxCost, pendingFault, accepted, settled, timedOut, paidFault)))
    {
      Record(Now(), PaymentRequired(challenge));
      if token.Holds? && !token.pending {
        return true;
      }
      if token.Holds? {
        var retry;
        ok, retry := TrackPayment(token.hash, challenge, updates, paidFault, removed, works);
        if !retry { return; }
      }
      ok := PayL402Token(challenge, pendingFault, accepted, settled, timedOut, paidFault, removed);
    }
  }
}
