/** The challenger's cache of invoice states: loaded page by page, then kept up to date by a stream. */
module Challenger {
  import opened Bytes
  import opened TokenCodec

  datatype InvoiceState = Open | Accepted | Settled | Canceled

  /** An invoice as lnd reports it; some, like AMP invoices, have no payment hash. */
  datatype Invoice = Invoice(
    rHash: Option<Bytes>, state: InvoiceState, addIndex: nat, settleIndex: nat, created: Int64, expiry: Int64)

  /** Canceled, or expired (times in nanoseconds, the expiry wrapping around) without being settled. */
  predicate Irrelevant(inv: Invoice, now: int) {
    || inv.state == Canceled
    || (inv.state != Settled && now > inv.created * 1_000_000_000 + Wrap64(inv.expiry * 1_000_000_000))
  }

  /** Canceled, or neither settled nor still in time; for expiries that fit in 64 bits of nanoseconds. */
  lemma IrrelevantIff(inv: Invoice, now: int)
    requires -0x8000_0000_0000_0000 <= inv.expiry * 1_000_000_000 < 0x8000_0000_0000_0000
    ensures Irrelevant(inv, now) <==>
            || inv.state == Canceled
            || ((inv.state == Open || inv.state == Accepted) && (inv.created + inv.expiry) * 1_000_000_000 < now)
  {
    WrapExact(inv.expiry * 1_000_000_000, 0);
  }

  /** A longer expiry wraps around: such an invoice can count as expired before it was made. */
  lemma LongExpiryWraps(inv: Invoice, now: int)
    requires inv.state == Open && inv.expiry == 10_000_000_000 && now == inv.created * 1_000_000_000
    ensures Irrelevant(inv, now)
  {
    WrapExact(inv.expiry * 1_000_000_000, 1);
  }

  type Cache = map<Hash, InvoiceState>

  // The load at start-up.

  datatype Load = Load(cache: Cache, addIndex: nat, settleIndex: nat)

  function Max(a: nat, b: nat): nat {
    if a >= b then a else b
  }

  /** None: the hash has the wrong size. */
  function LoadInvoice(l: Load, inv: Invoice, now: int): Option<Load> {
    if inv.rHash.None? then Some(l)
    else if |inv.rHash.value| != HASH_SIZE then None
    else
      Some(Load(if Irrelevant(inv, now) then l.cache else l.cache[inv.rHash.value := inv.state],
                Max(l.addIndex, inv.addIndex), Max(l.settleIndex, inv.settleIndex)))
  }

  /** One pass over a whole list, with the time read for each invoice. */
  function LoadAll(invoices: seq<Invoice>, clock: seq<int>): Option<Load>
    requires |clock| == |invoices|
  {
    if invoices == [] then Some(Load(map[], 0, 0))
    else
      var n := |invoices| - 1;
      match LoadAll(invoices[..n], clock[..n])
      case None => None
      case Some(l) => LoadInvoice(l, invoices[n], clock[n])
  }

  lemma {:induction false} LoadFails(invoices: seq<Invoice>, clock: seq<int>, n: nat)
    requires |clock| == |invoices| && n <= |invoices|
    requires LoadAll(invoices[..n], clock[..n]) == None
    ensures LoadAll(invoices, clock) == None
  {
    if n < |invoices| {
      var m := |invoices| - 1;
      assert invoices[..m][..n] == invoices[..n] && clock[..m][..n] == clock[..n];
      LoadFails(invoices[..m], clock[..m], n);
    } else {
      assert invoices[..n] == invoices && clock[..n] == clock;
    }
  }

  /** The load fails exactly on a hash of the wrong size. */
  lemma {:induction false} LoadFailsIff(invoices: seq<Invoice>, clock: seq<int>)
    requires |clock| == |invoices|
    ensures LoadAll(invoices, clock) == None <==>
            exists i :: 0 <= i < |invoices| && invoices[i].rHash.Some? && |invoices[i].rHash.value| != HASH_SIZE
  {
    if invoices != [] {
      var n := |invoices| - 1;
      LoadFailsIff(invoices[..n], clock[..n]);
      assert forall i :: 0 <= i < n ==> invoices[..n][i] == invoices[i];
    }
  }

  /** The index offset of a subscription covers every invoice of the list that has a hash. */
  lemma {:induction false} LoadIndicesAreMaxima(invoices: seq<Invoice>, clock: seq<int>, i: nat)
    requires |clock| == |invoices| && LoadAll(invoices, clock).Some?
    requires i < |invoices| && invoices[i].rHash.Some?
    ensures invoices[i].addIndex <= LoadAll(invoices, clock).value.addIndex
    ensures invoices[i].settleIndex <= LoadAll(invoices, clock).value.settleIndex
  {
    if i < |invoices| - 1 {
      LoadIndicesAreMaxima(invoices[..|invoices| - 1], clock[..|invoices| - 1], i);
    }
  }

  /** And it is no larger than that: each index is zero or that of a listed invoice with a hash. */
  lemma {:induction false} LoadIndicesAreAttained(invoices: seq<Invoice>, clock: seq<int>)
    requires |clock| == |invoices| && LoadAll(invoices, clock).Some?
    ensures var l := LoadAll(invoices, clock).value;
            && (l.addIndex == 0
                || exists i :: 0 <= i < |invoices| && invoices[i].rHash.Some? && invoices[i].addIndex == l.addIndex)
            && (l.settleIndex == 0
                || exists i :: 0 <= i < |invoices| && invoices[i].rHash.Some?
                               && invoices[i].settleIndex == l.settleIndex)
  {
    if invoices != [] {
      var n := |invoices| - 1;
      LoadIndicesAreAttained(invoices[..n], clock[..n]);
      assert forall i :: 0 <= i < n ==> invoices[..n][i] == invoices[i];
    }
  }

  /** The last relevant invoice of a hash in the list. */
  ghost predicate LastRelevant(invoices: seq<Invoice>, clock: seq<int>, hash: Hash, i: nat)
    requires |clock| == |invoices|
  {
    && i < |invoices| && invoices[i].rHash == Some(hash) && !Irrelevant(invoices[i], clock[i])
    && forall j :: i < j < |invoices| && invoices[j].rHash == Some(hash) ==> Irrelevant(invoices[j], clock[j])
  }

  /** The load keeps the state of the last relevant invoice of a hash. */
  lemma {:induction false} LoadIsLastWord(invoices: seq<Invoice>, clock: seq<int>, hash: Hash, i: nat)
    requires |clock| == |invoices| && LoadAll(invoices, clock).Some?
    requires LastRelevant(invoices, clock, hash, i)
    ensures var cache := LoadAll(invoices, clock).value.cache; hash in cache && cache[hash] == invoices[i].state
  {
    var n := |invoices| - 1;
    if i < n {
      assert LastRelevant(invoices[..n], clock[..n], hash, i);
      LoadIsLastWord(invoices[..n], clock[..n], hash, i);
    }
  }

  /** And nothing else: every entry comes from a listed invoice that is relevant. */
  lemma {:induction false} LoadedIsListed(invoices: seq<Invoice>, clock: seq<int>, hash: Hash) returns (i: nat)
    requires |clock| == |invoices| && LoadAll(invoices, clock).Some?
    requires hash in LoadAll(invoices, clock).value.cache
    ensures LastRelevant(invoices, clock, hash, i)
    ensures LoadAll(invoices, clock).value.cache[hash] == invoices[i].state
  {
    var n := |invoices| - 1;
    if invoices[n].rHash == Some(hash) && !Irrelevant(invoices[n], clock[n]) {
      i := n;
    } else {
      i := LoadedIsListed(invoices[..n], clock[..n], hash);
    }
  }

  lemma SettledIsRelevant(inv: Invoice, now: int)
    requires inv.state == Settled
    ensures !Irrelevant(inv, now)
  {
  }

  /** In particular a settled invoice with no later one of its hash is loaded as settled. */
  lemma SettledIsLoaded(invoices: seq<Invoice>, clock: seq<int>, hash: Hash, i: nat)
    requires |clock| == |invoices| && LoadAll(invoices, clock).Some?
    requires i < |invoices| && invoices[i].rHash == Some(hash) && invoices[i].state == Settled
    requires forall j :: i < j < |invoices| ==> invoices[j].rHash != Some(hash)
    ensures var cache := LoadAll(invoices, clock).value.cache; hash in cache && cache[hash] == Settled
  {
    SettledIsRelevant(invoices[i], clock[i]);
    LoadIsLastWord(invoices, clock, hash, i);
  }

  /** lnd numbers invoices from one, in the order it lists them. */
  predicate Numbered(invoices: seq<Invoice>) {
    && (forall i :: 0 <= i < |invoices| ==> invoices[i].addIndex > 0)
    && (forall i, j :: 0 <= i < j < |invoices| ==> invoices[i].addIndex < invoices[j].addIndex)
  }

  /** How many invoices of the list have an index up to `offset`. */
  function Skipped(invoices: seq<Invoice>, offset: nat): (n: nat)
    ensures n <= |invoices|
  {
    if invoices == [] || invoices[0].addIndex > offset then 0
    else 1 + Skipped(invoices[1..], offset)
  }

  /** ListInvoices: the next invoices behind the offset, at most `max` of them. */
  function Page(invoices: seq<Invoice>, offset: nat, max: nat): seq<Invoice> {
    var from := Skipped(invoices, offset);
    invoices[from..Min(|invoices|, from + max)]
  }

  lemma {:induction false} SkippedUpTo(invoices: seq<Invoice>, i: nat)
    requires Numbered(invoices) && i < |invoices|
    ensures Skipped(invoices, invoices[i].addIndex) == i + 1
    decreases i
  {
    if i > 0 {
      SkippedUpTo(invoices[1..], i - 1);
    } else if |invoices| > 1 {
      assert invoices[1..][0].addIndex > invoices[0].addIndex;
    }
  }

  lemma NothingSkipped(invoices: seq<Invoice>)
    requires Numbered(invoices)
    ensures Skipped(invoices, 0) == 0
  {
  }

  lemma SliceJoin<T>(s: seq<T>, from: nat, to: nat)
    requires from <= to <= |s|
    ensures s[..from] + s[from..to] == s[..to]
  {
  }

  lemma EmptyPageIsEnd(invoices: seq<Invoice>, offset: nat, max: nat)
    requires max > 0 && Page(invoices, offset, max) == []
    ensures Skipped(invoices, offset) == |invoices|
  {
  }

  lemma PageEnd(invoices: seq<Invoice>, from: nat, page: seq<Invoice>)
    requires Numbered(invoices) && page != [] && from + |page| <= |invoices| && page == invoices[from..from + |page|]
    ensures Skipped(invoices, page[|page| - 1].addIndex) == from + |page|
  {
    SkippedUpTo(invoices, from + |page| - 1);
  }

  /** A page starts where the offset points and moves it behind its last invoice. */
  lemma PageIsNext(invoices: seq<Invoice>, clock: seq<int>, offset: nat, max: nat)
    requires Numbered(invoices) && |clock| == |invoices| && Page(invoices, offset, max) != []
    ensures var page, from := Page(invoices, offset, max), Skipped(invoices, offset);
            var to := from + |page|;
            && to <= |invoices|
            && invoices[..from] + page == invoices[..to]
            && clock[..from] + clock[from..to] == clock[..to]
            && Skipped(invoices, page[|page| - 1].addIndex) == to
  {
    var from, page := Skipped(invoices, offset), Page(invoices, offset, max);
    var to := from + |page|;
    SliceJoin(invoices, from, to);
    SliceJoin(clock, from, to);
    PageEnd(invoices, from, page);
  }

  /** What a subscription message says about a hash. */
  datatype Entry = Entry(hash: Hash, state: InvoiceState, relevant: bool)

  /** A stream update: relevant ones are recorded, others erase the hash. */
  function Updated(cache: Cache, e: Entry): Cache {
    if e.relevant then cache[e.hash := e.state] else cache - {e.hash}
  }

  function Replay(cache: Cache, log: seq<Entry>): Cache {
    if log == [] then cache else Updated(Replay(cache, log[..|log| - 1]), log[|log| - 1])
  }

  /** The position of the last entry about a hash. */
  ghost predicate LastAbout(log: seq<Entry>, hash: Hash, i: nat) {
    && i < |log| && log[i].hash == hash
    && forall j :: i < j < |log| ==> log[j].hash != hash
  }

  /** The cache is what the last entry about a hash says. */
  lemma {:induction false} CacheIsLastWord(cache: Cache, log: seq<Entry>, hash: Hash, i: nat)
    requires LastAbout(log, hash, i)
    ensures hash in Replay(cache, log) <==> log[i].relevant
    ensures log[i].relevant ==> Replay(cache, log)[hash] == log[i].state
  {
    var n := |log| - 1;
    if i < n {
      assert LastAbout(log[..n], hash, i);
      CacheIsLastWord(cache, log[..n], hash, i);
    }
  }

  /** And where no entry is about it, what the load left. */
  lemma {:induction false} CacheKeepsLoad(cache: Cache, log: seq<Entry>, hash: Hash)
    requires forall j :: 0 <= j < |log| ==> log[j].hash != hash
    ensures hash in Replay(cache, log) <==> hash in cache
    ensures hash in cache ==> Replay(cache, log)[hash] == cache[hash]
  {
    if log != [] {
      CacheKeepsLoad(cache, log[..|log| - 1], hash);
    }
  }

  /** One message of the subscription; a failed receive ends the loop. */
  datatype Received = Update(inv: Invoice, now: int) | StreamError

  /** The entries an update stream writes until it ends: at an error or a malformed hash. */
  function EntriesOf(stream: seq<Received>): seq<Entry> {
    if stream == [] || stream[0].StreamError? then []
    else
      var inv := stream[0].inv;
      if inv.rHash.None? then EntriesOf(stream[1..])
      else if |inv.rHash.value| != HASH_SIZE then []
      else [Entry(inv.rHash.value, inv.state, !Irrelevant(inv, stream[0].now))] + EntriesOf(stream[1..])
  }

  /** Every entry is what some message of the stream says. */
  lemma {:induction false} EntryHasSource(stream: seq<Received>, e: Entry) returns (i: nat)
    requires e in EntriesOf(stream)
    ensures i < |stream| && stream[i].Update? && stream[i].inv.rHash == Some(e.hash) && stream[i].inv.state == e.state
    ensures e.relevant <==> !Irrelevant(stream[i].inv, stream[i].now)
  {
    var inv := stream[0].inv;
    if inv.rHash.Some? && e == Entry(inv.rHash.value, inv.state, !Irrelevant(inv, stream[0].now)) {
      i := 0;
    } else {
      i := EntryHasSource(stream[1..], e);
      i := i + 1;
    }
  }

  lemma {:induction false} ReplayCons(cache: Cache, e: Entry, log: seq<Entry>)
    ensures Replay(Updated(cache, e), log) == Replay(cache, [e] + log)
  {
    var all := [e] + log;
    if log == [] {
      assert all[..0] == [];
    } else {
      ReplayCons(cache, e, log[..|log| - 1]);
      assert all[..|all| - 1] == [e] + log[..|log| - 1];
    }
  }

  // What a stream of messages does to the cache, message by message.

  /** A message after which the loop goes on: no error, and no hash of the wrong size. */
  predicate Regular(m: Received) {
    m.Update? && (m.inv.rHash.Some? ==> |m.inv.rHash.value| == HASH_SIZE)
  }

  /** The loop gets as far as this message, and over it. */
  ghost predicate Reached(stream: seq<Received>, i: nat) {
    i < |stream| && forall j :: 0 <= j <= i ==> Regular(stream[j])
  }

  predicate About(m: Received, hash: Hash) {
    m.Update? && m.inv.rHash == Some(hash)
  }

  ghost predicate LastMessage(stream: seq<Received>, hash: Hash, i: nat) {
    && Reached(stream, i) && About(stream[i], hash)
    && forall j :: i < j && Reached(stream, j) ==> !About(stream[j], hash)
  }

  lemma ReachedNext(stream: seq<Received>, i: nat)
    requires stream != [] && Regular(stream[0])
    ensures Reached(stream[1..], i) <==> Reached(stream, i + 1)
  {
    var rest := stream[1..];
    assert forall j :: 0 <= j < |rest| ==> rest[j] == stream[j + 1];
    if Reached(rest, i) {
      forall j | 0 <= j <= i + 1 ensures Regular(stream[j]) {
        if j > 0 { assert Regular(rest[j - 1]); }
      }
    }
    if Reached(stream, i + 1) {
      forall j | 0 <= j <= i ensures Regular(rest[j]) { assert Regular(stream[j + 1]); }
    }
  }

  function EntryOf(m: Received): Entry
    requires Regular(m) && m.inv.rHash.Some?
  {
    Entry(m.inv.rHash.value, m.inv.state, !Irrelevant(m.inv, m.now))
  }

  lemma MessageOf(m: Received, rest: seq<Received>, cache: Cache)
    requires Regular(m)
    ensures Replay(cache, EntriesOf([m] + rest)) ==
            if m.inv.rHash.None? then Replay(cache, EntriesOf(rest))
            else Replay(Updated(cache, EntryOf(m)), EntriesOf(rest))
  {
    assert ([m] + rest)[1..] == rest;
    if m.inv.rHash.Some? {
      ReplayCons(cache, EntryOf(m), EntriesOf(rest));
    }
  }

  /** A regular message that is reached is logged, behind what was logged before it and before all else. */
  lemma {:induction false} MessageIsLogged(stream: seq<Received>, i: nat)
    requires Reached(stream, i) && stream[i].inv.rHash.Some?
    ensures var m := stream[i];
            EntriesOf(stream[..i]) + [Entry(m.inv.rHash.value, m.inv.state, !Irrelevant(m.inv, m.now))]
            <= EntriesOf(stream)
  {
    if i > 0 {
      assert Regular(stream[0]);
      ReachedNext(stream, i - 1);
      MessageIsLogged(stream[1..], i - 1);
      assert stream[..i][1..] == stream[1..][..i - 1];
    } else {
      assert Regular(stream[0]);
    }
  }

  /** A hash that no message reached is about keeps its state. */
  lemma {:induction false} CacheKeepsStream(cache: Cache, stream: seq<Received>, hash: Hash)
    requires forall j: nat :: Reached(stream, j) ==> !About(stream[j], hash)
    ensures var after := Replay(cache, EntriesOf(stream));
            (hash in after <==> hash in cache) && (hash in cache ==> after[hash] == cache[hash])
    decreases |stream|
  {
    if stream != [] && Regular(stream[0]) {
      var m, rest := stream[0], stream[1..];
      assert Reached(stream, 0);
      forall j: nat | Reached(rest, j) ensures !About(rest[j], hash) { ReachedNext(stream, j); }
      assert stream == [m] + rest;
      MessageOf(m, rest, cache);
      CacheKeepsStream(cache, rest, hash);
      if m.inv.rHash.Some? {
        CacheKeepsStream(Updated(cache, EntryOf(m)), rest, hash);
      }
    }
  }

  /** The last message reached about a hash decides: recorded with its state if relevant, else erased. */
  lemma {:induction false} StreamIsLastWord(cache: Cache, stream: seq<Received>, hash: Hash, i: nat)
    requires LastMessage(stream, hash, i)
    ensures var after := Replay(cache, EntriesOf(stream));
            && (hash in after <==> !Irrelevant(stream[i].inv, stream[i].now))
            && (hash in after ==> after[hash] == stream[i].inv.state)
    decreases |stream|
  {
    var m, rest := stream[0], stream[1..];
    assert Regular(m) && stream == [m] + rest;
    MessageOf(m, rest, cache);
    var cache' := if m.inv.rHash.None? then cache
                  else Updated(cache, EntryOf(m));
    forall j: nat | Reached(rest, j) && j >= i ensures !About(rest[j], hash) { ReachedNext(stream, j); }
    if i == 0 {
      CacheKeepsStream(cache', rest, hash);
    } else {
      ReachedNext(stream, i - 1);
      StreamIsLastWord(cache', rest, hash, i - 1);
    }
  }

  lemma {:induction false} LastMessageExists(stream: seq<Received>, hash: Hash, i: nat) returns (k: nat)
    requires Reached(stream, i) && About(stream[i], hash)
    ensures LastMessage(stream, hash, k) && i <= k
    decreases |stream| - i
  {
    if j :| i < j && Reached(stream, j) && About(stream[j], hash) {
      k := LastMessageExists(stream, hash, j);
    } else {
      k := i;
    }
  }

  /** Settled is final: lnd never reports another state of the invoice afterwards. */
  ghost predicate SettledIsFinal(cache: Cache, stream: seq<Received>) {
    && (forall hash, i: nat, j: nat ::
          i < j && Reached(stream, j) && About(stream[i], hash) && About(stream[j], hash) ==>
            stream[i].inv.state == Settled ==> stream[j].inv.state == Settled)
    && (forall hash, j: nat ::
          Reached(stream, j) && About(stream[j], hash) && hash in cache && cache[hash] == Settled ==>
            stream[j].inv.state == Settled)
  }

  ghost predicate SettledKnown(cache: Cache, stream: seq<Received>, hash: Hash) {
    || (hash in cache && cache[hash] == Settled)
    || exists i: nat :: Reached(stream, i) && About(stream[i], hash) && stream[i].inv.state == Settled
  }

  lemma SettledMessageStays(cache: Cache, stream: seq<Received>, hash: Hash, i: nat)
    requires SettledIsFinal(cache, stream)
    requires Reached(stream, i) && About(stream[i], hash) && stream[i].inv.state == Settled
    ensures var after := Replay(cache, EntriesOf(stream)); hash in after && after[hash] == Settled
  {
    var k := LastMessageExists(stream, hash, i);
    assert stream[k].inv.state == Settled;
    SettledIsRelevant(stream[k].inv, stream[k].now);
    StreamIsLastWord(cache, stream, hash, k);
  }

  /** A settled invoice, loaded or reported by a message of the stream, is settled in the cache from then on. */
  lemma SettledIsNeverLost(cache: Cache, stream: seq<Received>, hash: Hash)
    requires SettledIsFinal(cache, stream) && SettledKnown(cache, stream, hash)
    ensures var after := Replay(cache, EntriesOf(stream)); hash in after && after[hash] == Settled
  {
    if hash in cache && cache[hash] == Settled {
      if j: nat :| Reached(stream, j) && About(stream[j], hash) {
        SettledMessageStays(cache, stream, hash, j);
      } else {
        CacheKeepsStream(cache, stream, hash);
      }
    } else {
      var i: nat :| Reached(stream, i) && About(stream[i], hash) && stream[i].inv.state == Settled;
      SettledMessageStays(cache, stream, hash, i);
    }
  }

  // The loops.

  class LndChallenger {
    var invoiceStates: Cache

    constructor ()
      ensures invoiceStates == map[]
    {
      invoiceStates := map[];
    }

    /** One page of the load; Some gives the new maxima. */
    method LoadPage(page: seq<Invoice>, times: seq<int>, ghost before: seq<Invoice>, ghost timesBefore: seq<int>,
                    addIndex: nat, settleIndex: nat) returns (r: Option<(nat, nat)>)
      requires |times| == |page| && |timesBefore| == |before|
      requires LoadAll(before, timesBefore) == Some(Load(invoiceStates, addIndex, settleIndex))
      modifies this
      ensures r.None? <==> LoadAll(before + page, timesBefore + times) == None
      ensures r.Some? ==> LoadAll(before + page, timesBefore + times) == Some(Load(invoiceStates, r.value.0, r.value.1))
    {
      var add, settle := addIndex, settleIndex;
      assert before + page[..0] == before && timesBefore + times[..0] == timesBefore;
      for i := 0 to |page|
        invariant LoadAll(before + page[..i], timesBefore + times[..i]) == Some(Load(invoiceStates, add, settle))
      {
        ghost var invs, clk := before + page[..i + 1], timesBefore + times[..i + 1];
        assert invs[..|invs| - 1] == before + page[..i] && clk[..|invs| - 1] == timesBefore + times[..i];
        var inv := page[i];
        if inv.rHash.Some? {
          if inv.addIndex > add { add := inv.addIndex; }
          if inv.settleIndex > settle { settle := inv.settleIndex; }
          if |inv.rHash.value| != HASH_SIZE {
            assert (before + page)[..|invs|] == invs && (timesBefore + times)[..|invs|] == clk;
            LoadFails(before + page, timesBefore + times, |invs|);
            return None;
          }
          if !Irrelevant(inv, times[i]) {
            invoiceStates := invoiceStates[inv.rHash.value := inv.state];
          }
        }
      }
      assert page[..|page|] == page && times[..|page|] == times;
      return Some((add, settle));
    }

    /** One round of the loop: None at the end of the list or at a malformed hash. */
    method LoadNext(invoices: seq<Invoice>, batchSize: nat, clock: seq<int>, offset: nat,
                    addIndex: nat, settleIndex: nat)
      returns (more: bool, r: Option<(nat, nat)>, next: nat)
      requires Numbered(invoices) && batchSize > 0 && |clock| == |invoices|
      requires var n := Skipped(invoices, offset);
               LoadAll(invoices[..n], clock[..n]) == Some(Load(invoiceStates, addIndex, settleIndex))
      modifies this
      ensures more ==> r.Some? && Skipped(invoices, offset) < Skipped(invoices, next)
      ensures r.Some? ==> var n := Skipped(invoices, next);
                LoadAll(invoices[..n], clock[..n]) == Some(Load(invoiceStates, r.value.0, r.value.1))
      ensures r.Some? && !more ==> Skipped(invoices, next) == |invoices|
      ensures r.None? ==> LoadAll(invoices, clock) == None
    {
      var page := Page(invoices, offset, batchSize);
      if page == [] {
        EmptyPageIsEnd(invoices, offset, batchSize);
        return false, Some((addIndex, settleIndex)), offset;
      }
      var from := Skipped(invoices, offset);
      var to := from + |page|;
      PageIsNext(invoices, clock, offset, batchSize);
      r := LoadPage(page, clock[from..to], invoices[..from], clock[..from], addIndex, settleIndex);
      more, next := r.Some?, page[|page| - 1].addIndex;
      if r.None? {
        LoadFails(invoices, clock, to);
      }
    }

    /** Start: whatever the batch size, the result is that of one pass over the list. */
    method Start(invoices: seq<Invoice>, batchSize: nat, clock: seq<int>) returns (r: Option<(nat, nat)>)
      requires Numbered(invoices) && batchSize > 0 && |clock| == |invoices|
      requires invoiceStates == map[]
      modifies this
      ensures r.None? <==> LoadAll(invoices, clock) == None
      ensures r.Some? ==> LoadAll(invoices, clock) == Some(Load(invoiceStates, r.value.0, r.value.1))
    {
      var more, offset := true, 0;
      r := Some((0, 0));
      NothingSkipped(invoices);
      while more
        invariant r.None? ==> !more && LoadAll(invoices, clock) == None
        invariant r.Some? ==> var n := Skipped(invoices, offset);
                    LoadAll(invoices[..n], clock[..n]) == Some(Load(invoiceStates, r.value.0, r.value.1))
        invariant r.Some? && !more ==> Skipped(invoices, offset) == |invoices|
        decreases if more then 1 + |invoices| - Skipped(invoices, offset) else 0
      {
        more, r, offset := LoadNext(invoices, batchSize, clock, offset, r.value.0, r.value.1);
      }
      assert invoices[..|invoices|] == invoices && clock[..|invoices|] == clock;
    }

    /** readInvoiceStream: the cache becomes the replay of what the stream reported. */
    method ReadInvoiceStream(stream: seq<Received>)
      modifies this
      ensures invoiceStates == Replay(old(invoiceStates), EntriesOf(stream))
      ensures forall hash, i: nat :: LastMessage(stream, hash, i) ==>
                && (hash in invoiceStates <==> !Irrelevant(stream[i].inv, stream[i].now))
                && (hash in invoiceStates ==> invoiceStates[hash] == stream[i].inv.state)
    {
      forall hash, i: nat | LastMessage(stream, hash, i)
        ensures var after := Replay(invoiceStates, EntriesOf(stream));
                && (hash in after <==> !Irrelevant(stream[i].inv, stream[i].now))
                && (hash in after ==> after[hash] == stream[i].inv.state)
      {
        StreamIsLastWord(invoiceStates, stream, hash, i);
      }
      var i := 0;
      while i < |stream|
        invariant 0 <= i <= |stream|
        invariant Replay(invoiceStates, EntriesOf(stream[i..])) == Replay(old(invoiceStates), EntriesOf(stream))
      {
        assert stream[i..][1..] == stream[i + 1..];
        if stream[i].StreamError? {
          return;
        }
        var inv := stream[i].inv;
        if inv.rHash.Some? {
          if |inv.rHash.value| != HASH_SIZE {
            return;
          }
          var e := Entry(inv.rHash.value, inv.state, !Irrelevant(inv, stream[i].now));
          ReplayCons(invoiceStates, e, EntriesOf(stream[i + 1..]));
          if e.relevant {
            invoiceStates := invoiceStates[e.hash := e.state];
          } else {
            invoiceStates := invoiceStates - {e.hash};
          }
        }
        i := i + 1;
      }
    }
  }
}
