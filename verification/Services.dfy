/** The services an L402 is good for, as caveats, and the satisfiers that check such caveats. */
module Services {
  import opened Bytes
  import opened Text
  import opened Caveats

  const COND_SERVICES := "services"
  const CAPABILITIES_SUFFIX := "_capabilities"
  const TIMEOUT_SUFFIX := "_valid_until"

  datatype Service = Service(name: string, tier: Byte, price: int)

  // The services caveat.

  function EncodeService(s: Service): string {
    s.name + [':'] + FormatNat(s.tier)
  }

  function EncodedParts(services: seq<Service>): (parts: seq<string>)
    ensures |parts| == |services|
    ensures forall i :: 0 <= i < |parts| ==> parts[i] == EncodeService(services[i])
  {
    seq(|services|, i requires 0 <= i < |services| => EncodeService(services[i]))
  }

  predicate Named(services: seq<Service>) {
    services != [] && forall i :: 0 <= i < |services| ==> services[i].name != ""
  }

  function EncodeServices(services: seq<Service>): Option<string> {
    if Named(services) then Some(Join(EncodedParts(services), ',')) else None
  }

  lemma {:induction false} JoinSnoc(parts: seq<string>, last: string, sep: char)
    requires parts != []
    ensures Join(parts + [last], sep) == Join(parts, sep) + [sep] + last
    decreases |parts|
  {
    var all := parts + [last];
    if |parts| == 1 {
      assert all[1..] == [last];
    } else {
      assert all[1..] == parts[1..] + [last];
      JoinSnoc(parts[1..], last, sep);
    }
  }

  method EncodeServicesCaveatValue(services: seq<Service>) returns (value: Option<string>)
    ensures value == EncodeServices(services)
  {
    if services == [] {
      return None;
    }
    var s := "";
    ghost var parts := EncodedParts(services);
    for i := 0 to |services|
      invariant forall j :: 0 <= j < i ==> services[j].name != ""
      invariant s == if i == 0 then "" else Join(parts[..i], ',') + if i < |services| then [','] else []
    {
      if services[i].name == "" {
        return None;
      }
      if i > 0 {
        JoinSnoc(parts[..i], parts[i], ',');
        assert parts[..i + 1] == parts[..i] + [parts[i]];
      }
      s := s + EncodeService(services[i]) + if i < |services| - 1 then [','] else [];
    }
    assert parts[..|services|] == parts;
    assert s == Join(parts, ',');
    return Some(s);
  }

  /** The tier is truncated to eight bits, as the conversion to ServiceTier does. */
  function DecodeService(raw: string): Option<Service> {
    var info := Split(raw, ':');
    if |info| != 2 || info[0] == "" then None
    else
      match ParseInt64(info[1])
      case None => None
      case Some(tier) => Some(Service(info[0], tier % 256, 0))
  }

  function DecodeParts(parts: seq<string>): Option<seq<Service>> {
    if parts == [] then Some([])
    else
      match (DecodeParts(parts[..|parts| - 1]), DecodeService(parts[|parts| - 1]))
      case (Some(services), Some(s)) => Some(services + [s])
      case _ => None
  }

  function DecodeServices(value: string): Option<seq<Service>> {
    if value == "" then None else DecodeParts(Split(value, ','))
  }

  lemma {:induction false} OneBadPartFails(parts: seq<string>, i: nat)
    requires i < |parts| && DecodeService(parts[i]) == None
    ensures DecodeParts(parts) == None
  {
    if i < |parts| - 1 {
      OneBadPartFails(parts[..|parts| - 1], i);
    }
  }

  method DecodeServicesCaveatValue(value: string) returns (services: Option<seq<Service>>)
    ensures services == DecodeServices(value)
  {
    if value == "" {
      return None;
    }
    var parts := Split(value, ',');
    var found: seq<Service> := [];
    for i := 0 to |parts|
      invariant DecodeParts(parts[..i]) == Some(found)
    {
      var s := DecodeService(parts[i]);
      if s.None? {
        OneBadPartFails(parts, i);
        return None;
      }
      found := found + [s.value];
      assert parts[..i + 1][..i] == parts[..i];
    }
    assert parts[..|parts|] == parts;
    return Some(found);
  }

  predicate ValidName(name: string) {
    name != "" && ',' !in name && ':' !in name
  }

  predicate ValidNames(services: seq<Service>) {
    forall i :: 0 <= i < |services| ==> ValidName(services[i].name)
  }

  /** What the caveat says of a service: name and tier, not the price. */
  function Unpriced(services: seq<Service>): seq<Service> {
    seq(|services|, i requires 0 <= i < |services| => services[i].(price := 0))
  }

  lemma DecodeAfterEncodeService(s: Service)
    requires ValidName(s.name)
    ensures DecodeService(EncodeService(s)) == Some(s.(price := 0))
    ensures ',' !in EncodeService(s)
  {
    var tier: int := s.tier;
    FormatIntHasNo(tier, ':');
    FormatIntHasNo(tier, ',');
    SplitAtFirst(s.name, ':', FormatNat(s.tier));
    ParseAfterFormat(tier);
    assert FormatInt(tier) == FormatNat(s.tier);
  }

  /** A tier beyond eight bits, or a negative one, is read modulo 256. */
  lemma TierIsTruncated(name: string, n: Int64)
    requires ValidName(name)
    ensures DecodeService(name + ":" + FormatInt(n)) == Some(Service(name, n % 256, 0))
  {
    FormatIntHasNo(n, ':');
    SplitAtFirst(name, ':', FormatInt(n));
    ParseAfterFormat(n);
  }

  lemma PartsOneMore(services: seq<Service>, n: nat)
    requires |services| == n + 1
    ensures EncodedParts(services) == EncodedParts(services[..n]) + [EncodeService(services[n])]
    ensures Unpriced(services) == Unpriced(services[..n]) + [services[n].(price := 0)]
  {
  }

  lemma DecodePartsOneMore(parts: seq<string>, part: string, found: seq<Service>, s: Service)
    requires DecodeParts(parts) == Some(found) && DecodeService(part) == Some(s)
    ensures DecodeParts(parts + [part]) == Some(found + [s])
  {
    assert (parts + [part])[..|parts|] == parts;
  }

  lemma {:induction false} DecodePartsAfterEncode(services: seq<Service>)
    requires ValidNames(services)
    ensures DecodeParts(EncodedParts(services)) == Some(Unpriced(services))
  {
    if services == [] {
      assert EncodedParts(services) == [] && Unpriced(services) == [];
    } else {
      var n := |services| - 1;
      DecodePartsAfterEncode(services[..n]);
      DecodeAfterEncodeService(services[n]);
      PartsOneMore(services, n);
      DecodePartsOneMore(EncodedParts(services[..n]), EncodeService(services[n]),
                         Unpriced(services[..n]), services[n].(price := 0));
    }
  }

  /** A services caveat gives back the names and tiers it was made of. */
  lemma DecodeAfterEncodeServices(services: seq<Service>)
    requires services != [] && ValidNames(services)
    ensures EncodeServices(services).Some?
    ensures DecodeServices(EncodeServices(services).value) == Some(Unpriced(services))
  {
    var parts := EncodedParts(services);
    forall i | 0 <= i < |parts| ensures ',' !in parts[i] {
      DecodeAfterEncodeService(services[i]);
    }
    SplitAfterJoin(parts, ',');
    DecodePartsAfterEncode(services);
    assert parts[0] <= Join(parts, ',');
  }

  lemma {:induction false} DecodePartsLength(parts: seq<string>)
    requires DecodeParts(parts).Some?
    ensures |DecodeParts(parts).value| == |parts|
  {
    if parts != [] {
      DecodePartsLength(parts[..|parts| - 1]);
    }
  }

  lemma SecondColonFails(name: string, tier: string)
    requires ':' in name
    ensures DecodeService(name + [':'] + tier) == None
  {
    SplitConcat(name, ':', tier);
    assert |Split(name, ':')| >= 2;
  }

  lemma SurvivorsAreValid(services: seq<Service>)
    requires Named(services) && DecodeServices(EncodeServices(services).value) == Some(Unpriced(services))
    ensures ValidNames(services)
  {
    var parts := EncodedParts(services);
    DecodePartsLength(Split(Join(parts, ','), ','));
    SplitJoinLength(parts, ',');
    SplitAfterJoin(parts, ',');
    forall i | 0 <= i < |services| ensures ValidName(services[i].name) {
      assert forall x :: x in services[i].name ==> x in parts[i];
      if ':' in services[i].name {
        SecondColonFails(services[i].name, FormatNat(services[i].tier));
        OneBadPartFails(parts, i);
      }
    }
  }

  /** And for every list of services that is so exactly when all names avoid both separators. */
  lemma NamesMustAvoidSeparators(services: seq<Service>)
    requires Named(services)
    ensures DecodeServices(EncodeServices(services).value) == Some(Unpriced(services)) <==> ValidNames(services)
  {
    if ValidNames(services) {
      DecodeAfterEncodeServices(services);
    }
    if DecodeServices(EncodeServices(services).value) == Some(Unpriced(services)) {
      SurvivorsAreValid(services);
    }
  }

  /** A name with separators in it can stand for any second service. */
  lemma NamesCanSmuggle(s: Service, t: Service)
    requires ValidName(s.name) && ValidName(t.name)
    ensures var smuggler := t.(name := EncodeService(s) + [','] + t.name);
            DecodeServices(EncodeServices([smuggler]).value) == Some([s.(price := 0), t.(price := 0)])
  {
    var smuggler := t.(name := EncodeService(s) + [','] + t.name);
    assert EncodedParts([smuggler]) == [EncodeService(smuggler)];
    var parts := EncodedParts([s, t]);
    assert parts[1..] == [EncodeService(t)];
    assert Join(parts, ',') == EncodeService(s) + [','] + EncodeService(t);
    assert EncodeService(smuggler) == Join(parts, ',');
    DecodeAfterEncodeServices([s, t]);
    assert Unpriced([s, t]) == [s.(price := 0), t.(price := 0)];
  }

  // Satisfiers.

  function Names(services: seq<Service>): set<string> {
    set i | 0 <= i < |services| :: services[i].name
  }

  function ServicesSatisfier(target: string): Satisfier {
    Satisfier(
      COND_SERVICES,
      (prev: Caveat, cur: Caveat) =>
        && DecodeServices(prev.value).Some? && DecodeServices(cur.value).Some?
        && Names(DecodeServices(cur.value).value) <= Names(DecodeServices(prev.value).value),
      (c: Caveat) => DecodeServices(c.value).Some? && target in Names(DecodeServices(c.value).value))
  }

  function Parts(value: string): set<string> {
    var parts := Split(value, ',');
    set i | 0 <= i < |parts| :: parts[i]
  }

  function CapabilitiesSatisfier(service: string, target: string): Satisfier {
    Satisfier(
      service + CAPABILITIES_SUFFIX,
      (prev: Caveat, cur: Caveat) => Parts(cur.value) <= Parts(prev.value),
      (c: Caveat) => target in Parts(c.value))
  }

  /** Seconds since year 1, as time.Time counts them: the addition wraps around at 64 bits. */
  function WallSeconds(unix: Int64): Int64 {
    Wrap64(unix + 62135596800)
  }

  /** `now` is the wall clock in the seconds of WallSeconds. */
  function TimeoutSatisfier(service: string, now: int): Satisfier {
    Satisfier(
      service + TIMEOUT_SUFFIX,
      (prev: Caveat, cur: Caveat) =>
        && ParseInt64(prev.value).Some? && ParseInt64(cur.value).Some?
        && !(WallSeconds(ParseInt64(prev.value).value) < WallSeconds(ParseInt64(cur.value).value)),
      (c: Caveat) => ParseInt64(c.value).Some? && now < WallSeconds(ParseInt64(c.value).value))
  }

  /** The satisfiers VerifyL402 uses. */
  function L402Satisfiers(target: string, now: int): seq<Satisfier> {
    [ServicesSatisfier(target), TimeoutSatisfier(target, now)]
  }

  lemma SatisfiersMonotone(service: string, target: string, now: int)
    ensures Monotone(ServicesSatisfier(target))
    ensures Monotone(CapabilitiesSatisfier(service, target))
    ensures Monotone(TimeoutSatisfier(service, now))
  {
  }

  /** No wrap-around for any time that can be meant: the seconds from year 1 to 1970 are added. */
  lemma WallSecondsExact(unix: Int64)
    ensures WallSeconds(unix) == unix + 62135596800 <==> unix < 0x8000_0000_0000_0000 - 62135596800
  {
    if unix < 0x8000_0000_0000_0000 - 62135596800 {
      WrapExact(unix + 62135596800, 0);
    }
  }

  /** What a chain of services caveats says: the lists only shrink, and the last one has the target. */
  lemma ServicesChainMeans(target: string, chain: seq<Caveat>)
    requires chain != []
    ensures ChainHolds(ServicesSatisfier(target), chain) <==>
            && (forall i :: 0 <= i < |chain| ==> DecodeServices(chain[i].value).Some?)
            && (forall i :: 0 <= i < |chain| - 1 ==>
                  Names(DecodeServices(chain[i + 1].value).value) <= Names(DecodeServices(chain[i].value).value))
            && target in Names(DecodeServices(chain[|chain| - 1].value).value)
  {
    var s := ServicesSatisfier(target);
    if ChainHolds(s, chain) {
      forall i | 0 <= i < |chain| ensures DecodeServices(chain[i].value).Some? {
        assert i < |chain| - 1 ==> s.previous(chain[i], chain[i + 1]);
      }
    }
  }

  /** Every part of one value between commas is a part of another. */
  ghost predicate PartsWithin(value: string, of: string) {
    forall p :: p in Split(value, ',') ==> p in Split(of, ',')
  }

  lemma InParts(value: string, p: string)
    ensures p in Parts(value) <==> p in Split(value, ',')
  {
  }

  lemma PartsWithinIff(value: string, of: string)
    ensures Parts(value) <= Parts(of) <==> PartsWithin(value, of)
  {
    forall p: string ensures p in Parts(value) <==> p in Split(value, ',') { InParts(value, p); }
    forall p: string ensures p in Parts(of) <==> p in Split(of, ',') { InParts(of, p); }
  }

  /** The same for capabilities, which are the parts of the value between commas. */
  lemma CapabilitiesChainMeans(service: string, target: string, chain: seq<Caveat>)
    requires chain != []
    ensures ChainHolds(CapabilitiesSatisfier(service, target), chain) <==>
            && (forall i :: 0 <= i < |chain| - 1 ==> PartsWithin(chain[i + 1].value, chain[i].value))
            && target in Split(chain[|chain| - 1].value, ',')
  {
    forall i | 0 <= i < |chain| - 1
      ensures Parts(chain[i + 1].value) <= Parts(chain[i].value) <==> PartsWithin(chain[i + 1].value, chain[i].value)
    {
      PartsWithinIff(chain[i + 1].value, chain[i].value);
    }
    InParts(chain[|chain| - 1].value, target);
  }

  /** A caveat with a time that stays clear of the end of 64 bits. */
  predicate PlainTime(c: Caveat) {
    ParseInt64(c.value).Some? && ParseInt64(c.value).value < 0x8000_0000_0000_0000 - 62135596800
  }

  function TimeOf(c: Caveat): Int64 {
    match ParseInt64(c.value)
    case Some(v) => v
    case None => 0
  }

  /** What a chain of timeouts says: the times never grow, and the last one is ahead. */
  lemma TimeoutChainMeans(service: string, now: int, chain: seq<Caveat>)
    requires chain != [] && forall i :: 0 <= i < |chain| && ParseInt64(chain[i].value).Some? ==> PlainTime(chain[i])
    ensures ChainHolds(TimeoutSatisfier(service, now), chain) <==>
            && (forall i :: 0 <= i < |chain| ==> ParseInt64(chain[i].value).Some?)
            && (forall i :: 0 <= i < |chain| - 1 ==> TimeOf(chain[i + 1]) <= TimeOf(chain[i]))
            && now < TimeOf(chain[|chain| - 1]) + 62135596800
  {
    var s := TimeoutSatisfier(service, now);
    forall i | 0 <= i < |chain|
      ensures PlainTime(chain[i]) ==> WallSeconds(TimeOf(chain[i])) == TimeOf(chain[i]) + 62135596800
    {
      WallSecondsExact(TimeOf(chain[i]));
    }
    if ChainHolds(s, chain) {
      forall i | 0 <= i < |chain| ensures ParseInt64(chain[i].value).Some? {
        assert i < |chain| - 1 ==> s.previous(chain[i], chain[i + 1]);
      }
    }
  }

  lemma TimeoutIsNotServices(name: string)
    ensures name + TIMEOUT_SUFFIX != COND_SERVICES
    ensures |name + CAPABILITIES_SUFFIX| > |COND_SERVICES|
  {
    var cond := name + TIMEOUT_SUFFIX;
    assert cond[|cond| - 1] == 'l' && COND_SERVICES[|COND_SERVICES| - 1] == 's';
  }

  /** The table VerifyL402 builds: one satisfier for the services, one for the target's timeout. */
  lemma L402Table(target: string, now: int)
    ensures Table(L402Satisfiers(target, now)) ==
            map[COND_SERVICES := ServicesSatisfier(target), target + TIMEOUT_SUFFIX := TimeoutSatisfier(target, now)]
    ensures AllMonotone(Table(L402Satisfiers(target, now)))
  {
    TimeoutIsNotServices(target);
    SatisfiersMonotone(target, target, now);
    var ss := L402Satisfiers(target, now);
    assert ss[..1] == [ServicesSatisfier(target)];
    assert ss[..1][..0] == [];
    assert Table(ss[..1]) == map[COND_SERVICES := ServicesSatisfier(target)];
  }

  /** Attenuation as VerifyL402 has it: raw caveats added at the end never permit more. */
  lemma L402Attenuation(base: seq<string>, extra: seq<string>, target: string, now: int)
    requires CaveatsHold(DecodeAll(base + extra), Table(L402Satisfiers(target, now)))
    ensures CaveatsHold(DecodeAll(base), Table(L402Satisfiers(target, now)))
  {
    DecodeAllAppend(base, extra);
    L402Table(target, now);
    Attenuation(DecodeAll(base), DecodeAll(extra), Table(L402Satisfiers(target, now)));
  }

  /** And each raw caveat of an accepted list, taken alone, is accepted. */
  lemma L402EachCaveatPermits(raw: seq<string>, i: nat, target: string, now: int)
    requires i < |raw| && CaveatsHold(DecodeAll(raw), Table(L402Satisfiers(target, now)))
    ensures CaveatsHold(DecodeAll([raw[i]]), Table(L402Satisfiers(target, now)))
  {
    L402Table(target, now);
    EachRawCaveatPermits(raw, i, Table(L402Satisfiers(target, now)));
  }
}
