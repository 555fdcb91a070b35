/** The static restrictions per service that are put into every L402 minted for it. */
module Limiter {
  import opened Bytes
  import opened Text
  import opened Caveats
  import opened Services

  /** What the configuration says of a backend service. */
  datatype ProxyService = ProxyService(
    name: string, price: int, timeout: Int64, capabilities: string, constraints: seq<Caveat>)

  datatype Limits = Limits(
    capabilities: map<Service, Caveat>,
    constraints: map<Service, seq<Caveat>>,
    timeouts: map<Service, Caveat>)

  /** Wall clock in nanoseconds since 1970. */
  type Clock = n: int | 0 <= n < 0x8000_0000_0000_0000

  /** The expiry in Unix seconds; the duration in nanoseconds wraps around at 64 bits. */
  function Expiry(seconds: Int64, now: Clock): Int64 {
    (now + Wrap64(seconds * 1_000_000_000)) / 1_000_000_000
  }

  const SECOND: int := 1_000_000_000

  /** The expiry is the configured number of seconds away, unless their nanoseconds do not fit in 64 bits. */
  lemma ExpiryExact(seconds: Int64, now: Clock)
    ensures Expiry(seconds, now) == now / SECOND + seconds <==>
            -0x8000_0000_0000_0000 <= seconds * SECOND < 0x8000_0000_0000_0000
  {
    if -0x8000_0000_0000_0000 <= seconds * SECOND < 0x8000_0000_0000_0000 {
      WrapExact(seconds * SECOND, 0);
    } else {
      assert Wrap64(seconds * SECOND) != seconds * SECOND;
    }
  }

  function TimeoutCaveat(name: string, expiry: Int64): Caveat {
    Caveat(name + TIMEOUT_SUFFIX, FormatInt(expiry))
  }

  function CapabilitiesCaveat(name: string, capabilities: string): Caveat {
    Caveat(name + CAPABILITIES_SUFFIX, capabilities)
  }

  /** The key under which limits are found again: the price is the one at construction. */
  function KeyOf(p: ProxyService): Service {
    Service(p.name, 0, p.price)
  }

  function WithService(l: Limits, p: ProxyService, now: Clock): Limits {
    var s := KeyOf(p);
    Limits(
      l.capabilities[s := CapabilitiesCaveat(p.name, p.capabilities)],
      if p.constraints == [] then l.constraints
      else l.constraints[s := (if s in l.constraints then l.constraints[s] else []) + p.constraints],
      if p.timeout > 0 then l.timeouts[s := TimeoutCaveat(p.name, Expiry(p.timeout, now))] else l.timeouts)
  }

  function LimitsOf(services: seq<ProxyService>, clock: seq<Clock>): Limits
    requires |clock| == |services|
  {
    if services == [] then Limits(map[], map[], map[])
    else
      var n := |services| - 1;
      WithService(LimitsOf(services[..n], clock[..n]), services[n], clock[n])
  }

  /** Every limit is a caveat about the service it is kept for. */
  ghost predicate WellFormed(l: Limits) {
    && (forall s :: s in l.capabilities ==> l.capabilities[s].condition == s.name + CAPABILITIES_SUFFIX)
    && (forall s :: s in l.timeouts ==> exists v: Int64 :: l.timeouts[s] == TimeoutCaveat(s.name, v))
  }

  lemma {:induction false} LimitsWellFormed(services: seq<ProxyService>, clock: seq<Clock>)
    requires |clock| == |services|
    ensures WellFormed(LimitsOf(services, clock))
  {
    if services != [] {
      var n := |services| - 1;
      LimitsWellFormed(services[..n], clock[..n]);
    }
  }

  ghost predicate DistinctlyNamed(services: seq<ProxyService>) {
    forall i, j :: 0 <= i < j < |services| ==> services[i].name != services[j].name
  }

  lemma {:induction false} NoTimeoutOf(services: seq<ProxyService>, clock: seq<Clock>, s: Service)
    requires |clock| == |services| && forall i :: 0 <= i < |services| ==> services[i].name != s.name
    ensures s !in LimitsOf(services, clock).timeouts
  {
    if services != [] {
      NoTimeoutOf(services[..|services| - 1], clock[..|services| - 1], s);
    }
  }

  /** A timeout is found again exactly for the price that was configured. */
  lemma {:induction false} TimeoutFoundIff(services: seq<ProxyService>, clock: seq<Clock>, i: nat, price: int)
    requires |clock| == |services| && i < |services| && DistinctlyNamed(services)
    ensures var p, l := services[i], LimitsOf(services, clock);
            && (Service(p.name, 0, price) in l.timeouts <==> p.timeout > 0 && price == p.price)
            && (Service(p.name, 0, price) in l.timeouts ==>
                  l.timeouts[Service(p.name, 0, price)] == TimeoutCaveat(p.name, Expiry(p.timeout, clock[i])))
  {
    var n := |services| - 1;
    if i < n {
      TimeoutFoundIff(services[..n], clock[..n], i, price);
    } else {
      NoTimeoutOf(services[..n], clock[..n], Service(services[i].name, 0, price));
    }
  }

  lemma {:induction false} NoLimitsOf(services: seq<ProxyService>, clock: seq<Clock>, s: Service)
    requires |clock| == |services| && forall i :: 0 <= i < |services| ==> services[i].name != s.name
    ensures s !in LimitsOf(services, clock).capabilities && s !in LimitsOf(services, clock).constraints
  {
    if services != [] {
      NoLimitsOf(services[..|services| - 1], clock[..|services| - 1], s);
    }
  }

  /** The capabilities of a service are the configured ones, found for the configured price. */
  lemma {:induction false} CapabilitiesFoundIff(services: seq<ProxyService>, clock: seq<Clock>, i: nat, price: int)
    requires |clock| == |services| && i < |services| && DistinctlyNamed(services)
    ensures var p, l := services[i], LimitsOf(services, clock).capabilities;
            && (Service(p.name, 0, price) in l <==> price == p.price)
            && Service(p.name, 0, p.price) in l
            && l[Service(p.name, 0, p.price)] == Caveat(p.name + "_capabilities", p.capabilities)
  {
    var n := |services| - 1;
    if i < n {
      CapabilitiesFoundIff(services[..n], clock[..n], i, price);
    } else {
      NoLimitsOf(services[..n], clock[..n], Service(services[i].name, 0, price));
    }
  }

  /** And so are its constraints. */
  lemma {:induction false} ConstraintsFoundIff(services: seq<ProxyService>, clock: seq<Clock>, i: nat, price: int)
    requires |clock| == |services| && i < |services| && DistinctlyNamed(services)
    ensures var p, l := services[i], LimitsOf(services, clock).constraints;
            && (Service(p.name, 0, price) in l <==> price == p.price && p.constraints != [])
            && (Service(p.name, 0, price) in l ==> l[Service(p.name, 0, price)] == p.constraints)
  {
    var n := |services| - 1;
    if i < n {
      ConstraintsFoundIff(services[..n], clock[..n], i, price);
    } else {
      NoLimitsOf(services[..n], clock[..n], Service(services[i].name, 0, price));
      assert [] + services[i].constraints == services[i].constraints;
    }
  }

  const DEFAULT_PRICE: int := 1

  /** The price asked for: zero is replaced when the proxy prepares its services, after the limits were made. */
  function PriceAsked(p: ProxyService): int {
    if p.price == 0 then DEFAULT_PRICE else p.price
  }

  /** The limits of those of the services that have one, in order. */
  function Collect<T>(limits: map<Service, T>, services: seq<Service>): seq<T> {
    if services == [] then []
    else
      var s := services[|services| - 1];
      Collect(limits, services[..|services| - 1]) + if s in limits then [limits[s]] else []
  }

  class StaticServiceLimiter {
    var capabilities: map<Service, Caveat>
    var constraints: map<Service, seq<Caveat>>
    var timeouts: map<Service, Caveat>

    ghost function View(): Limits
      reads this
    {
      Limits(capabilities, constraints, timeouts)
    }

    /** `clock` is the time read for each service in turn. */
    constructor (services: seq<ProxyService>, clock: seq<Clock>)
      requires |clock| == |services|
      ensures View() == LimitsOf(services, clock) && WellFormed(View())
    {
      capabilities, constraints, timeouts := map[], map[], map[];
      new;
      for i := 0 to |services|
        invariant View() == LimitsOf(services[..i], clock[..i])
      {
        assert services[..i + 1][..i] == services[..i] && clock[..i + 1][..i] == clock[..i];
        var p := services[i];
        var s := KeyOf(p);
        if p.timeout > 0 {
          timeouts := timeouts[s := TimeoutCaveat(p.name, Expiry(p.timeout, clock[i]))];
        }
        capabilities := capabilities[s := CapabilitiesCaveat(p.name, p.capabilities)];
        if p.constraints != [] {
          constraints := constraints[s := (if s in constraints then constraints[s] else []) + p.constraints];
        }
      }
      assert services[..|services|] == services && clock[..|clock|] == clock;
      LimitsWellFormed(services, clock);
    }

    method ServiceCapabilities(services: seq<Service>) returns (caveats: seq<Caveat>)
      ensures caveats == Collect(capabilities, services)
    {
      caveats := [];
      for i := 0 to |services|
        invariant caveats == Collect(capabilities, services[..i])
      {
        assert services[..i + 1][..i] == services[..i];
        if services[i] in capabilities {
          caveats := caveats + [capabilities[services[i]]];
        }
      }
      assert services[..|services|] == services;
    }

    method ServiceConstraints(services: seq<Service>) returns (caveats: seq<Caveat>)
      ensures caveats == Flatten(Collect(constraints, services))
    {
      caveats := [];
      for i := 0 to |services|
        invariant caveats == Flatten(Collect(constraints, services[..i]))
      {
        assert services[..i + 1][..i] == services[..i];
        assert services[i] !in constraints ==>
          Collect(constraints, services[..i + 1]) == Collect(constraints, services[..i]);
        if services[i] in constraints {
          FlattenOneMore(Collect(constraints, services[..i]), constraints[services[i]]);
          caveats := caveats + constraints[services[i]];
        }
      }
      assert services[..|services|] == services;
    }

    method ServiceTimeouts(services: seq<Service>) returns (caveats: seq<Caveat>)
      ensures caveats == Collect(timeouts, services)
    {
      caveats := [];
      for i := 0 to |services|
        invariant caveats == Collect(timeouts, services[..i])
      {
        assert services[..i + 1][..i] == services[..i];
        if services[i] in timeouts {
          caveats := caveats + [timeouts[services[i]]];
        }
      }
      assert services[..|services|] == services;
    }
  }
}
