/** Free requests per network, and how the proxy hands them out. */
module Freebie {
  import opened Bytes
  import opened Text

  const MAX_COUNT: nat := 0xffff

  type Count = n: int | 0 <= n <= MAX_COUNT

  // Keys.

  const V4_IN_V6: Bytes := [0, 0, 0, 0, 0, 0, 0, 0, 0, 0, 0xff, 0xff]

  /** The IPv4 address in a net.IP, which may be written in 16 bytes. */
  function Ipv4(ip: Bytes): Option<Bytes> {
    if |ip| == 4 then Some(ip)
    else if |ip| == 16 && ip[..12] == V4_IN_V6 then Some(ip[12..])
    else None
  }

  /** The network of an address, its last byte dropped; all other addresses have none. */
  function Network(ip: Bytes): Option<Bytes> {
    match Ipv4(ip)
    case None => None
    case Some(v4) => Some(v4[..3])
  }

  /** Two IPv4 addresses are in one network exactly when they agree in their first three bytes. */
  lemma NetworkIsThreeBytes(a: Bytes, b: Bytes)
    requires |a| == 4 && |b| == 4
    ensures Network(a) == Network(b) <==> a[0] == b[0] && a[1] == b[1] && a[2] == b[2]
  {
    assert a[..3] == [a[0], a[1], a[2]] && b[..3] == [b[0], b[1], b[2]];
  }

  /** It does not matter in which form an IPv4 address is written, and no other address has a network. */
  lemma NetworkOfForms(ip: Bytes)
    ensures |ip| == 4 ==> Network(V4_IN_V6 + ip) == Network(ip) && Network(ip).Some?
    ensures |ip| == 16 && ip[..12] != [0, 0, 0, 0, 0, 0, 0, 0, 0, 0, 255, 255] ==> Network(ip) == None
    ensures |ip| != 4 && |ip| != 16 ==> Network(ip) == None
  {
    if |ip| == 4 {
      assert (V4_IN_V6 + ip)[..12] == V4_IN_V6 && (V4_IN_V6 + ip)[12..] == ip;
    }
  }

  function Dotted(net: Bytes): seq<string> {
    if |net| == 0 then ["0"] else [FormatNat(net[0])] + Dotted(net[1..])
  }

  /** The mask has four bytes: every address that is not IPv4 is masked to nil. */
  function Key(ip: Bytes): string {
    match Network(ip)
    case None => "<nil>"
    case Some(net) => Join(Dotted(net), '.')
  }

  lemma {:induction false} DottedIsDigits(net: Bytes)
    ensures |Dotted(net)| == |net| + 1
    ensures forall i :: 0 <= i < |Dotted(net)| ==> '.' !in Dotted(net)[i] && '<' !in Dotted(net)[i]
  {
    if |net| > 0 {
      DottedIsDigits(net[1..]);
    }
  }

  lemma {:induction false} DottedIsInjective(a: Bytes, b: Bytes)
    requires Dotted(a) == Dotted(b)
    ensures a == b
    decreases |a|
  {
    DottedIsDigits(a);
    DottedIsDigits(b);
    if |a| > 0 {
      assert Dotted(a)[0] == FormatNat(a[0]) && Dotted(b)[0] == FormatNat(b[0]);
      ParseAfterFormatNat(a[0]);
      ParseAfterFormatNat(b[0]);
      assert Dotted(a)[1..] == Dotted(a[1..]) && Dotted(b)[1..] == Dotted(b[1..]);
      DottedIsInjective(a[1..], b[1..]);
      assert a == [a[0]] + a[1..] && b == [b[0]] + b[1..];
    }
  }

  lemma JoinedIsNotNil(net: Bytes)
    ensures Join(Dotted(net), '.') != "<nil>"
    ensures Split(Join(Dotted(net), '.'), '.') == Dotted(net)
  {
    DottedIsDigits(net);
    SplitAfterJoin(Dotted(net), '.');
    assert '.' !in "<nil>";
    assert Split("<nil>", '.') == ["<nil>"];
    assert "<nil>"[0] == '<';
  }

  /**
    Two addresses share a counter exactly when they are in the same network; addresses that are not
    IPv4, all of IPv6 among them, share one.
  */
  lemma KeysAreNetworks(a: Bytes, b: Bytes)
    ensures Key(a) == Key(b) <==> Network(a) == Network(b)
  {
    match (Network(a), Network(b)) {
      case (Some(m), Some(n)) =>
        JoinedIsNotNil(m);
        JoinedIsNotNil(n);
        if Key(a) == Key(b) { DottedIsInjective(m, n); }
      case (Some(m), None) => JoinedIsNotNil(m);
      case (None, Some(n)) => JoinedIsNotNil(n);
      case (None, None) =>
    }
  }

  // The proxy's branch for a service with free requests.

  /** A request with what the authenticator says of it and the price (None: the pricer fails). */
  datatype Request = Request(ip: Bytes, accepted: bool, price: Option<int>)

  datatype Response = Authenticated | Freebie | FreeOfCharge | PaymentRequired | PriceFailure

  type Counters = map<string, Count>

  function Current(counters: Counters, key: string): Count {
    if key in counters then counters[key] else 0
  }

  /** What happens to those who have no free request left. */
  function WithoutFreebie(r: Request): Response {
    match r.price
    case None => PriceFailure
    case Some(price) => if price == 0 then FreeOfCharge else PaymentRequired
  }

  function Respond(limit: Count, counters: Counters, r: Request): Response {
    if r.accepted then Authenticated
    else if Current(counters, Key(r.ip)) < limit then Freebie
    else WithoutFreebie(r)
  }

  /** The counter has sixteen bits. */
  function Tallied(counters: Counters, key: string): Counters {
    var n: int := Current(counters, key);
    counters[key := (n + 1) % 0x1_0000]
  }

  function Next(limit: Count, counters: Counters, r: Request): Counters {
    if Respond(limit, counters, r).Freebie? then Tallied(counters, Key(r.ip)) else counters
  }

  /** The counters after these requests, one after the other. */
  function After(limit: Count, requests: seq<Request>): Counters {
    if requests == [] then map[]
    else
      var n := |requests| - 1;
      Next(limit, After(limit, requests[..n]), requests[n])
  }

  /** How many of the requests come from a network without authentication. */
  function Asked(requests: seq<Request>, ip: Bytes): nat {
    if requests == [] then 0
    else
      var n := |requests| - 1;
      Asked(requests[..n], ip) + if !requests[n].accepted && Network(requests[n].ip) == Network(ip) then 1 else 0
  }

  lemma TallyCounts(limit: Count, counters: Counters, key: string)
    requires Current(counters, key) < limit
    ensures Current(Tallied(counters, key), key) == Current(counters, key) + 1
    ensures forall other :: other != key ==> Current(Tallied(counters, key), other) == Current(counters, other)
  {
  }

  /** Every counter is the number of requests from its network, up to the limit; so it never wraps. */
  lemma {:induction false} CounterIsExact(limit: Count, requests: seq<Request>, ip: Bytes)
    ensures Current(After(limit, requests), Key(ip)) == Min(limit, Asked(requests, ip))
  {
    if requests != [] {
      var n := |requests| - 1;
      var r, counters := requests[n], After(limit, requests[..n]);
      CounterIsExact(limit, requests[..n], ip);
      KeysAreNetworks(r.ip, ip);
      if Respond(limit, counters, r).Freebie? {
        TallyCounts(limit, counters, Key(r.ip));
      }
    }
  }

  /**
    Over every sequence of requests: one without authentication is free exactly when fewer than
    `limit` came from its network before it, whatever came from elsewhere.
  */
  lemma FirstOnesAreFree(limit: Count, requests: seq<Request>, i: nat)
    requires i < |requests|
    ensures Respond(limit, After(limit, requests[..i]), requests[i]) ==
            if requests[i].accepted then Authenticated
            else if Asked(requests[..i], requests[i].ip) < limit then Freebie
            else if requests[i].price == None then PriceFailure
            else if requests[i].price == Some(0) then FreeOfCharge
            else PaymentRequired
  {
    CounterIsExact(limit, requests[..i], requests[i].ip);
  }

  /** How many free requests a network got. */
  function Granted(limit: Count, requests: seq<Request>, ip: Bytes): nat {
    if requests == [] then 0
    else
      var n := |requests| - 1;
      Granted(limit, requests[..n], ip) +
      if Respond(limit, After(limit, requests[..n]), requests[n]).Freebie? && Network(requests[n].ip) == Network(ip)
      then 1 else 0
  }

  lemma SameNetworkSameCount(requests: seq<Request>, a: Bytes, b: Bytes)
    requires Network(a) == Network(b)
    ensures Asked(requests, a) == Asked(requests, b)
  {
  }

  /** No network ever gets more than the limit, and it gets all of it if it asks often enough. */
  lemma {:induction false} GrantedIsBounded(limit: Count, requests: seq<Request>, ip: Bytes)
    ensures Granted(limit, requests, ip) == Min(limit, Asked(requests, ip)) <= limit
  {
    if requests != [] {
      var n := |requests| - 1;
      GrantedIsBounded(limit, requests[..n], ip);
      CounterIsExact(limit, requests[..n], requests[n].ip);
      if Network(requests[n].ip) == Network(ip) {
        SameNetworkSameCount(requests[..n], requests[n].ip, ip);
      }
    }
  }

  class MemStore {
    const numFreebies: Count
    var freebieCounter: Counters

    constructor (numFreebies: Count)
      ensures this.numFreebies == numFreebies && freebieCounter == After(numFreebies, [])
    {
      this.numFreebies, freebieCounter := numFreebies, map[];
    }

    method CanPass(ip: Bytes) returns (ok: bool)
      ensures ok <==> Current(freebieCounter, Key(ip)) < numFreebies
    {
      ok := Current(freebieCounter, Key(ip)) < numFreebies;
    }

    method TallyFreebie(ip: Bytes)
      modifies this`freebieCounter
      ensures freebieCounter == Tallied(old(freebieCounter), Key(ip))
    {
      var counter: int := Current(freebieCounter, Key(ip));
      freebieCounter := freebieCounter[Key(ip) := (counter + 1) % 0x1_0000];
    }

    /** The branch of ServeHTTP; `past` are the requests served so far. */
    method ServeFreebie(r: Request, ghost past: seq<Request>) returns (response: Response)
      requires freebieCounter == After(numFreebies, past)
      modifies this`freebieCounter
      ensures freebieCounter == After(numFreebies, past + [r])
      ensures response == if r.accepted then Authenticated
                          else if Asked(past, r.ip) < numFreebies then Freebie
                          else if r.price == None then PriceFailure
                          else if r.price == Some(0) then FreeOfCharge
                          else PaymentRequired
    {
      assert (past + [r])[..|past|] == past;
      FirstOnesAreFree(numFreebies, past + [r], |past|);
      if r.accepted {
        return Authenticated;
      }
      var ok := CanPass(r.ip);
      if !ok {
        if r.price.None? {
          return PriceFailure;
        }
        return if r.price.value == 0 then FreeOfCharge else PaymentRequired;
      }
      TallyFreebie(r.ip);
      return Freebie;
    }
  }
}
