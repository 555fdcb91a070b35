/** Minting and verifying L402s: macaroons whose caveats limit them to services. */
module Mint {
  import opened Bytes
  import opened Text
  import opened TokenCodec
  import opened Caveats
  import opened Services
  import opened Limiter
  import opened Identifier

  // Macaroons. The keyed hash is any function; caveats are chained into the signature.

  datatype Crypto = Crypto(
    sign: (Bytes, Bytes) -> Bytes,   // root signature from secret and identifier
    chain: (Bytes, string) -> Bytes, // next signature from the last one and a caveat
    sha: Bytes -> Hash)

  datatype Macaroon = Macaroon(id: Bytes, caveats: seq<string>, sig: Bytes)

  function Signature(k: Crypto, secret: Bytes, id: Bytes, caveats: seq<string>): Bytes {
    if caveats == [] then k.sign(secret, id)
    else k.chain(Signature(k, secret, id, caveats[..|caveats| - 1]), caveats[|caveats| - 1])
  }

  /** Anybody who has a macaroon can add caveats to it. */
  function AddCaveats(k: Crypto, m: Macaroon, raw: seq<string>): Macaroon {
    if raw == [] then m
    else
      var m' := AddCaveats(k, m, raw[..|raw| - 1]);
      Macaroon(m'.id, m'.caveats + [raw[|raw| - 1]], k.chain(m'.sig, raw[|raw| - 1]))
  }

  predicate Signed(k: Crypto, secret: Bytes, m: Macaroon) {
    m.sig == Signature(k, secret, m.id, m.caveats)
  }

  /** Adding caveats keeps the signature valid and nothing but appends. */
  lemma {:induction false} AddedCaveatsAreSigned(k: Crypto, secret: Bytes, m: Macaroon, raw: seq<string>)
    requires Signed(k, secret, m)
    ensures var m' := AddCaveats(k, m, raw); m'.id == m.id && m'.caveats == m.caveats + raw && Signed(k, secret, m')
  {
    if raw != [] {
      var n := |raw| - 1;
      AddedCaveatsAreSigned(k, secret, m, raw[..n]);
      var m' := AddCaveats(k, m, raw);
      assert m'.caveats[..|m'.caveats| - 1] == m.caveats + raw[..n];
      assert m'.caveats == m.caveats + raw;
    }
  }

  /** A keyed hash without collisions, whose outputs do not pass for root signatures. */
  ghost predicate CollisionFree(k: Crypto) {
    && (forall a, b, c, d :: k.chain(a, b) == k.chain(c, d) ==> a == c && b == d)
    && (forall s, id, a, b :: k.sign(s, id) != k.chain(a, b))
  }

  /** Then a signature fits one list of caveats only: none can be taken away, changed or moved. */
  lemma {:induction false} SignatureBindsCaveats(k: Crypto, secret: Bytes, id: Bytes, a: seq<string>, b: seq<string>)
    requires CollisionFree(k) && Signature(k, secret, id, a) == Signature(k, secret, id, b)
    ensures a == b
    decreases |a|
  {
    if a != [] && b != [] {
      var m, n := |a| - 1, |b| - 1;
      SignatureBindsCaveats(k, secret, id, a[..m], b[..n]);
      LastApart(a, m);
      LastApart(b, n);
    }
  }

  function EncodeAll(caveats: seq<Caveat>): (raw: seq<string>)
    ensures |raw| == |caveats|
    ensures forall i :: 0 <= i < |raw| ==> raw[i] == EncodeCaveat(caveats[i])
  {
    seq(|caveats|, i requires 0 <= i < |caveats| => EncodeCaveat(caveats[i]))
  }

  /** A caveat as it is read from the macaroon again. */
  function ReadBack(c: Caveat): Caveat {
    assert EncodeCaveat(c)[|c.condition|] == '=';
    DecodeCaveat(EncodeCaveat(c)).value
  }

  function ReadBackAll(caveats: seq<Caveat>): (back: seq<Caveat>)
    ensures |back| == |caveats|
    ensures forall i :: 0 <= i < |back| ==> back[i] == ReadBack(caveats[i])
  {
    seq(|caveats|, i requires 0 <= i < |caveats| => ReadBack(caveats[i]))
  }

  lemma EncodeAllOneMore(caveats: seq<Caveat>, n: nat)
    requires |caveats| == n + 1
    ensures EncodeAll(caveats) == EncodeAll(caveats[..n]) + [EncodeCaveat(caveats[n])]
    ensures ReadBackAll(caveats) == ReadBackAll(caveats[..n]) + [ReadBack(caveats[n])]
  {
  }

  lemma EncodedDecodes(c: Caveat)
    ensures Decoded(EncodeCaveat(c)) == [ReadBack(c)]
  {
    assert EncodeCaveat(c)[|c.condition|] == '=';
  }

  lemma {:induction false} DecodeAllAfterEncodeAll(caveats: seq<Caveat>)
    ensures DecodeAll(EncodeAll(caveats)) == ReadBackAll(caveats)
  {
    if caveats != [] {
      var n := |caveats| - 1;
      DecodeAllAfterEncodeAll(caveats[..n]);
      EncodeAllOneMore(caveats, n);
      DecodeAllOneMore(EncodeAll(caveats[..n]), EncodeCaveat(caveats[n]));
      EncodedDecodes(caveats[n]);
    }
  }

  // Minting.

  /** The caveats put into a new L402, or None when a service has no name. */
  function MintedCaveats(l: Limits, services: seq<Service>): Option<seq<Caveat>> {
    if services == [] then Some([])
    else
      match EncodeServices(services)
      case None => None
      case Some(value) =>
        Some([Caveat(COND_SERVICES, value)] + Collect(l.capabilities, services)
             + Flatten(Collect(l.constraints, services)) + Collect(l.timeouts, services))
  }

  /** Minting fails exactly on a service without a name. */
  lemma MintFailsIff(l: Limits, services: seq<Service>)
    ensures MintedCaveats(l, services).None? <==> exists i :: 0 <= i < |services| && services[i].name == ""
  {
  }

  lemma {:induction false} CollectedIff<T>(limits: map<Service, T>, services: seq<Service>, x: T)
    ensures x in Collect(limits, services) <==> exists s :: s in services && s in limits && limits[s] == x
  {
    if services != [] {
      var n := |services| - 1;
      CollectedIff(limits, services[..n], x);
      LastApart(services, n);
    }
  }

  lemma {:induction false} FlattenedIff<T>(groups: seq<seq<T>>, x: T)
    ensures x in Flatten(groups) <==> exists g :: g in groups && x in g
  {
    if groups != [] {
      var n := |groups| - 1;
      FlattenedIff(groups[..n], x);
      LastApart(groups, n);
    }
  }

  lemma ConstraintsIff(l: Limits, services: seq<Service>, c: Caveat)
    ensures c in Flatten(Collect(l.constraints, services)) <==>
            exists s :: s in services && s in l.constraints && c in l.constraints[s]
  {
    var groups := Collect(l.constraints, services);
    FlattenedIff(groups, c);
    if g :| g in groups && c in g {
      CollectedIff(l.constraints, services, g);
    }
    if s :| s in services && s in l.constraints && c in l.constraints[s] {
      CollectedIff(l.constraints, services, l.constraints[s]);
    }
  }

  /** What is in a new L402: its services, and every limit recorded for one of them. */
  lemma MintedContents(l: Limits, services: seq<Service>, c: Caveat)
    requires services != [] && MintedCaveats(l, services).Some?
    ensures EncodeServices(services).Some?
    ensures MintedCaveats(l, services).value[0] == Caveat("services", EncodeServices(services).value)
    ensures c in MintedCaveats(l, services).value <==>
            || c == Caveat("services", EncodeServices(services).value)
            || (exists s :: s in services && s in l.capabilities && l.capabilities[s] == c)
            || (exists s :: s in services && s in l.constraints && c in l.constraints[s])
            || (exists s :: s in services && s in l.timeouts && l.timeouts[s] == c)
  {
    CollectedIff(l.capabilities, services, c);
    CollectedIff(l.timeouts, services, c);
    ConstraintsIff(l, services, c);
  }

  function NewId(paymentHash: Hash, tokenId: Hash): Bytes {
    EncodeIdentifier(Identifier(LATEST_VERSION, paymentHash, tokenId)).value
  }

  function MintedMacaroon(k: Crypto, secret: Bytes, id: Bytes, caveats: seq<Caveat>): Macaroon {
    AddCaveats(k, Macaroon(id, [], k.sign(secret, id)), EncodeAll(caveats))
  }

  /** What VerifyL402 demands. */
  predicate Verifies(k: Crypto, secrets: map<Hash, Bytes>, m: Macaroon, preimage: Hash, target: string, now: int) {
    && DecodeIdentifier(m.id).Some?
    && k.sha(preimage) == DecodeIdentifier(m.id).value.paymentHash
    && k.sha(m.id) in secrets
    && Signed(k, secrets[k.sha(m.id)], m)
    && CaveatsHold(DecodeAll(m.caveats), Table(L402Satisfiers(target, now)))
  }

  lemma PlainCaveatReadsBack(c: Caveat)
    requires '=' !in c.condition
    ensures ReadBack(c) == c
  {
    Caveats.DecodeAfterEncode(c);
  }

  lemma NamesUnpriced(services: seq<Service>)
    ensures Names(Unpriced(services)) == Names(services)
  {
    var u := Unpriced(services);
    assert forall i :: 0 <= i < |u| ==> u[i].name == services[i].name;
    forall n | n in Names(services) ensures n in Names(u) {
      var i :| 0 <= i < |services| && services[i].name == n;
      assert u[i].name == n;
    }
  }

  /** A services caveat alone admits a target exactly when it lists it. */
  lemma ServicesCaveatAdmits(services: seq<Service>, target: string)
    requires services != [] && ValidNames(services)
    ensures EncodeServices(services).Some?
    ensures ServicesSatisfier(target).final(Caveat(COND_SERVICES, EncodeServices(services).value))
            <==> target in Names(services)
  {
    DecodeAfterEncodeServices(services);
    NamesUnpriced(services);
  }

  lemma OnlyServicesCaveat(c: Caveat, target: string, now: int)
    requires c.condition == COND_SERVICES && CaveatsHold([c], Table(L402Satisfiers(target, now)))
    ensures ServicesSatisfier(target).final(c)
  {
    L402Table(target, now);
    TimeoutIsNotServices(target);
    assert Chain([c][..0], COND_SERVICES) == [];
    assert ChainHolds(Table(L402Satisfiers(target, now))[COND_SERVICES], Chain([c], COND_SERVICES));
  }

  lemma RawServicesCaveat(c: Caveat, target: string, now: int)
    requires c.condition == COND_SERVICES
    requires CaveatsHold(DecodeAll([EncodeCaveat(c)]), Table(L402Satisfiers(target, now)))
    ensures ServicesSatisfier(target).final(c)
  {
    DecodeOne(EncodeCaveat(c));
    EncodedDecodes(c);
    PlainCaveatReadsBack(c);
    OnlyServicesCaveat(c, target, now);
  }

  /**
    Whatever caveats are added to the minted ones, known or unknown, well formed or not: the
    caveats never hold for a service that is not on the list.
  */
  lemma MintedCaveatsConfine(l: Limits, services: seq<Service>, extra: seq<string>, target: string, now: int)
    requires services != [] && ValidNames(services)
    requires MintedCaveats(l, services).Some?
    requires CaveatsHold(DecodeAll(EncodeAll(MintedCaveats(l, services).value) + extra),
                         Table(L402Satisfiers(target, now)))
    ensures target in Names(services)
  {
    var minted := MintedCaveats(l, services).value;
    var raw := EncodeAll(minted) + extra;
    assert raw[0] == EncodeCaveat(minted[0]);
    L402EachCaveatPermits(raw, 0, target, now);
    RawServicesCaveat(minted[0], target, now);
    ServicesCaveatAdmits(services, target);
  }

  /** Soundness: no extension of a minted L402 verifies for a service it was not minted for. */
  lemma MintedNeverWidens(k: Crypto, secrets: map<Hash, Bytes>, secret: Bytes, id: Bytes, l: Limits,
                          services: seq<Service>, extra: seq<string>, preimage: Hash, target: string, now: int)
    requires services != [] && ValidNames(services) && MintedCaveats(l, services).Some?
    requires Verifies(k, secrets,
                      AddCaveats(k, MintedMacaroon(k, secret, id, MintedCaveats(l, services).value), extra),
                      preimage, target, now)
    ensures target in Names(services)
  {
    var minted := EncodeAll(MintedCaveats(l, services).value);
    var root := Macaroon(id, [], k.sign(secret, id));
    AddedCaveatsAreSigned(k, secret, root, minted);
    AddedCaveatsAreSigned(k, secret, AddCaveats(k, root, minted), extra);
    assert [] + minted == minted;
    MintedCaveatsConfine(l, services, extra, target, now);
  }

  /** Whoever adds caveats to a macaroon only restricts it: what the result permits, it permits. */
  lemma ExtensionOnlyRestricts(k: Crypto, secrets: map<Hash, Bytes>, m: Macaroon, extra: seq<string>,
                               preimage: Hash, target: string, now: int)
    requires k.sha(m.id) in secrets && Signed(k, secrets[k.sha(m.id)], m)
    requires Verifies(k, secrets, AddCaveats(k, m, extra), preimage, target, now)
    ensures Verifies(k, secrets, m, preimage, target, now)
  {
    AddedCaveatsAreSigned(k, secrets[k.sha(m.id)], m, extra);
    L402Attenuation(m.caveats, extra, target, now);
  }

  /** A token for no service at all carries no restriction: it verifies for every target. */
  lemma NoServicesNoLimits(l: Limits, target: string, now: int)
    ensures MintedCaveats(l, []) == Some([])
    ensures CaveatsHold(DecodeAll(EncodeAll([])), Table(L402Satisfiers(target, now)))
  {
  }

  // Completeness.

  ghost predicate DistinctNames(services: seq<Service>) {
    forall i, j :: 0 <= i < j < |services| ==> services[i].name != services[j].name
  }

  predicate PlainNames(services: seq<Service>) {
    ValidNames(services) && forall i :: 0 <= i < |services| ==> '=' !in services[i].name
  }

  /** No configured constraint is taken for a services caveat or the target's timeout. */
  ghost predicate NoClash(constraints: seq<Caveat>, target: string) {
    forall i :: 0 <= i < |constraints| ==>
      && ReadBack(constraints[i]).condition != COND_SERVICES
      && ReadBack(constraints[i]).condition != target + TIMEOUT_SUFFIX
  }

  lemma {:induction false} NothingInChain(caveats: seq<Caveat>, cond: string)
    requires forall i :: 0 <= i < |caveats| ==> caveats[i].condition != cond
    ensures Chain(caveats, cond) == []
  {
    if caveats != [] {
      NothingInChain(caveats[..|caveats| - 1], cond);
    }
  }

  lemma CapabilitiesReadBack(l: Limits, s: Service)
    requires WellFormed(l) && s in l.capabilities && '=' !in s.name
    ensures ReadBack(l.capabilities[s]) == l.capabilities[s]
  {
    PlainCaveatReadsBack(l.capabilities[s]);
  }

  lemma TimeoutReadsBack(l: Limits, s: Service)
    requires WellFormed(l) && s in l.timeouts && '=' !in s.name
    ensures ReadBack(l.timeouts[s]) == l.timeouts[s]
    ensures l.timeouts[s].condition == s.name + TIMEOUT_SUFFIX
  {
    PlainCaveatReadsBack(l.timeouts[s]);
  }

  lemma SuffixesDiffer(name: string, target: string)
    ensures name + CAPABILITIES_SUFFIX != target + TIMEOUT_SUFFIX
    ensures name + CAPABILITIES_SUFFIX != COND_SERVICES
    ensures name + TIMEOUT_SUFFIX != COND_SERVICES
    ensures name + TIMEOUT_SUFFIX == target + TIMEOUT_SUFFIX <==> name == target
  {
    TimeoutIsNotServices(name);
    var a, b, c := name + CAPABILITIES_SUFFIX, target + TIMEOUT_SUFFIX, name + TIMEOUT_SUFFIX;
    assert a[|a| - 1] == 's' && b[|b| - 1] == 'l';
    assert b[..|b| - |TIMEOUT_SUFFIX|] == target && c[..|c| - |TIMEOUT_SUFFIX|] == name;
  }

  lemma ChainOneMore(caveats: seq<Caveat>, c: Caveat, cond: string)
    requires ReadBack(c) == c
    ensures Chain(ReadBackAll(caveats + [c]), cond) ==
            Chain(ReadBackAll(caveats), cond) + if c.condition == cond then [c] else []
  {
    assert ReadBackAll(caveats + [c])[..|caveats|] == ReadBackAll(caveats);
  }

  lemma {:induction false} CapabilitiesDoNotClash(l: Limits, services: seq<Service>, target: string)
    requires WellFormed(l) && PlainNames(services)
    ensures var cs := ReadBackAll(Collect(l.capabilities, services));
            Chain(cs, COND_SERVICES) == [] && Chain(cs, target + TIMEOUT_SUFFIX) == []
  {
    if services != [] {
      var n := |services| - 1;
      CapabilitiesDoNotClash(l, services[..n], target);
      var rest := Collect(l.capabilities, services[..n]);
      if services[n] in l.capabilities {
        var c := l.capabilities[services[n]];
        CapabilitiesReadBack(l, services[n]);
        SuffixesDiffer(services[n].name, target);
        ChainOneMore(rest, c, COND_SERVICES);
        ChainOneMore(rest, c, target + TIMEOUT_SUFFIX);
      } else {
        assert Collect(l.capabilities, services) == rest;
      }
    }
  }

  /** The timeouts recorded for services of this name. */
  function Recorded(l: Limits, services: seq<Service>, target: string): seq<Caveat> {
    if services == [] then []
    else
      var s := services[|services| - 1];
      Recorded(l, services[..|services| - 1], target)
      + if s in l.timeouts && s.name == target then [l.timeouts[s]] else []
  }

  lemma {:induction false} TimeoutChain(l: Limits, services: seq<Service>, target: string)
    requires WellFormed(l) && PlainNames(services)
    ensures var cs := ReadBackAll(Collect(l.timeouts, services));
            Chain(cs, COND_SERVICES) == [] && Chain(cs, target + TIMEOUT_SUFFIX) == Recorded(l, services, target)
  {
    if services != [] {
      var n := |services| - 1;
      TimeoutChain(l, services[..n], target);
      var rest := Collect(l.timeouts, services[..n]);
      if services[n] in l.timeouts {
        var c := l.timeouts[services[n]];
        TimeoutReadsBack(l, services[n]);
        SuffixesDiffer(services[n].name, target);
        ChainOneMore(rest, c, COND_SERVICES);
        ChainOneMore(rest, c, target + TIMEOUT_SUFFIX);
      } else {
        assert Collect(l.timeouts, services) == rest;
      }
    }
  }

  lemma {:induction false} NothingRecorded(l: Limits, services: seq<Service>, target: string)
    requires target !in Names(services)
    ensures Recorded(l, services, target) == []
  {
    if services != [] {
      var n := |services| - 1;
      assert services[n].name in Names(services);
      assert Names(services[..n]) <= Names(services) by {
        assert forall i :: 0 <= i < n ==> services[..n][i].name == services[i].name;
      }
      NothingRecorded(l, services[..n], target);
    }
  }

  /** With distinct names at most the one service named `target` can have a timeout recorded. */
  lemma {:induction false} RecordedIsUnique(l: Limits, services: seq<Service>, i: nat)
    requires DistinctNames(services) && i < |services|
    ensures Recorded(l, services, services[i].name) ==
            if services[i] in l.timeouts then [l.timeouts[services[i]]] else []
  {
    var n := |services| - 1;
    if i < n {
      RecordedIsUnique(l, services[..n], i);
    } else {
      assert services[i].name !in Names(services[..n]);
      NothingRecorded(l, services[..n], services[i].name);
    }
  }

  lemma ReadBackFour(a: seq<Caveat>, b: seq<Caveat>, c: seq<Caveat>, d: seq<Caveat>)
    ensures ReadBackAll(a + b + c + d) == ReadBackAll(a) + ReadBackAll(b) + ReadBackAll(c) + ReadBackAll(d)
  {
  }

  /** Only the first of four lists has one condition, only the last has the other. */
  lemma ChainsOfFour(a: seq<Caveat>, b: seq<Caveat>, c: seq<Caveat>, d: seq<Caveat>, first: string, last: string)
    requires Chain(b, first) == [] && Chain(c, first) == [] && Chain(d, first) == []
    requires Chain(a, last) == [] && Chain(b, last) == [] && Chain(c, last) == []
    ensures Chain(a + b + c + d, first) == Chain(a, first)
    ensures Chain(a + b + c + d, last) == Chain(d, last)
  {
    ChainAppend(a, b, first);
    ChainAppend(a + b, c, first);
    ChainAppend(a + b + c, d, first);
    ChainAppend(a, b, last);
    ChainAppend(a + b, c, last);
    ChainAppend(a + b + c, d, last);
  }

  lemma ServicesCaveatChains(c: Caveat, target: string)
    requires c.condition == COND_SERVICES
    ensures Chain(ReadBackAll([c]), COND_SERVICES) == [c]
    ensures Chain(ReadBackAll([c]), target + TIMEOUT_SUFFIX) == []
  {
    PlainCaveatReadsBack(c);
    SuffixesDiffer(target, target);
    ChainOneMore([], c, COND_SERVICES);
    ChainOneMore([], c, target + TIMEOUT_SUFFIX);
    assert [] + [c] == [c];
  }

  lemma ConstraintsDoNotClash(constraints: seq<Caveat>, target: string)
    requires NoClash(constraints, target)
    ensures Chain(ReadBackAll(constraints), COND_SERVICES) == []
    ensures Chain(ReadBackAll(constraints), target + TIMEOUT_SUFFIX) == []
  {
    NothingInChain(ReadBackAll(constraints), COND_SERVICES);
    NothingInChain(ReadBackAll(constraints), target + TIMEOUT_SUFFIX);
  }

  /** The two chains that count in an unextended L402. */
  lemma MintedChains(l: Limits, services: seq<Service>, target: string)
    requires WellFormed(l) && services != [] && PlainNames(services)
    requires NoClash(Flatten(Collect(l.constraints, services)), target)
    ensures MintedCaveats(l, services).Some? && EncodeServices(services).Some?
    ensures var cs := ReadBackAll(MintedCaveats(l, services).value);
            && Chain(cs, COND_SERVICES) == [Caveat(COND_SERVICES, EncodeServices(services).value)]
            && Chain(cs, target + TIMEOUT_SUFFIX) == Recorded(l, services, target)
  {
    DecodeAfterEncodeServices(services);
    var sc := Caveat(COND_SERVICES, EncodeServices(services).value);
    var a, c := Collect(l.capabilities, services), Collect(l.timeouts, services);
    var b := Flatten(Collect(l.constraints, services));
    ServicesCaveatChains(sc, target);
    CapabilitiesDoNotClash(l, services, target);
    ConstraintsDoNotClash(b, target);
    TimeoutChain(l, services, target);
    ReadBackFour([sc], a, b, c);
    ChainsOfFour(ReadBackAll([sc]), ReadBackAll(a), ReadBackAll(b), ReadBackAll(c),
                 COND_SERVICES, target + TIMEOUT_SUFFIX);
  }

  /** The expiry recorded for the service, if there is one, is still ahead. */
  ghost predicate Unexpired(l: Limits, s: Service, now: int) {
    s in l.timeouts ==> forall v: Int64 :: l.timeouts[s] == TimeoutCaveat(s.name, v) ==> now < WallSeconds(v)
  }

  ghost predicate Entitled(l: Limits, services: seq<Service>, target: string, now: int) {
    exists i :: 0 <= i < |services| && services[i].name == target && Unexpired(l, services[i], now)
  }

  lemma TimeoutHolds(l: Limits, s: Service, now: int)
    requires WellFormed(l) && s in l.timeouts
    ensures TimeoutSatisfier(s.name, now).final(l.timeouts[s]) <==> Unexpired(l, s, now)
  {
    var v: Int64 :| l.timeouts[s] == TimeoutCaveat(s.name, v);
    ParseAfterFormat(v);
    forall w: Int64 | l.timeouts[s] == TimeoutCaveat(s.name, w) ensures w == v {
      ParseAfterFormat(w);
    }
  }

  /** Verification of an L402 comes down to two chains. */
  lemma TwoChainsDecide(cs: seq<Caveat>, target: string, now: int)
    ensures CaveatsHold(cs, Table(L402Satisfiers(target, now))) <==>
            && ChainHolds(ServicesSatisfier(target), Chain(cs, COND_SERVICES))
            && ChainHolds(TimeoutSatisfier(target, now), Chain(cs, target + TIMEOUT_SUFFIX))
  {
    L402Table(target, now);
    SuffixesDiffer(target, target);
    var table := Table(L402Satisfiers(target, now));
    assert table.Keys == {COND_SERVICES, target + TIMEOUT_SUFFIX};
  }

  lemma OneCaveatAndTimeoutDecide(cs: seq<Caveat>, c: Caveat, target: string, now: int)
    requires Chain(cs, COND_SERVICES) == [c]
    ensures CaveatsHold(cs, Table(L402Satisfiers(target, now))) <==>
            && ServicesSatisfier(target).final(c)
            && ChainHolds(TimeoutSatisfier(target, now), Chain(cs, target + TIMEOUT_SUFFIX))
  {
    TwoChainsDecide(cs, target, now);
  }

  lemma RecordedDecidesAt(l: Limits, services: seq<Service>, i: nat, now: int)
    requires WellFormed(l) && DistinctNames(services) && i < |services|
    ensures ChainHolds(TimeoutSatisfier(services[i].name, now), Recorded(l, services, services[i].name))
            <==> Unexpired(l, services[i], now)
  {
    RecordedIsUnique(l, services, i);
    if services[i] in l.timeouts {
      TimeoutHolds(l, services[i], now);
    }
  }

  lemma RecordedDecides(l: Limits, services: seq<Service>, target: string, now: int)
    requires WellFormed(l) && DistinctNames(services)
    ensures target in Names(services) && ChainHolds(TimeoutSatisfier(target, now), Recorded(l, services, target))
            <==> Entitled(l, services, target, now)
  {
    forall i | 0 <= i < |services| && services[i].name == target
      ensures ChainHolds(TimeoutSatisfier(target, now), Recorded(l, services, target))
              <==> Unexpired(l, services[i], now)
    {
      RecordedDecidesAt(l, services, i, now);
    }
  }

  /** Completeness: the minted caveats hold for a target exactly when the token entitles to it. */
  lemma MintedCaveatsHoldIff(l: Limits, services: seq<Service>, target: string, now: int)
    requires WellFormed(l) && services != [] && PlainNames(services) && DistinctNames(services)
    requires NoClash(Flatten(Collect(l.constraints, services)), target)
    ensures MintedCaveats(l, services).Some?
    ensures CaveatsHold(DecodeAll(EncodeAll(MintedCaveats(l, services).value)), Table(L402Satisfiers(target, now)))
            <==> Entitled(l, services, target, now)
  {
    MintedChains(l, services, target);
    DecodeAllAfterEncodeAll(MintedCaveats(l, services).value);
    ServicesCaveatAdmits(services, target);
    OneCaveatAndTimeoutDecide(ReadBackAll(MintedCaveats(l, services).value),
                              Caveat(COND_SERVICES, EncodeServices(services).value), target, now);
    RecordedDecides(l, services, target, now);
  }

  lemma NewIdDecodes(paymentHash: Hash, tokenId: Hash)
    ensures DecodeIdentifier(NewId(paymentHash, tokenId)) == Some(Identifier(LATEST_VERSION, paymentHash, tokenId))
  {
    DecodeAfterEncodeIdentifier(Identifier(LATEST_VERSION, paymentHash, tokenId), []);
    assert NewId(paymentHash, tokenId) + [] == NewId(paymentHash, tokenId);
  }

  /** So an unextended L402 with the right preimage verifies exactly where it entitles to access. */
  lemma MintedVerifiesIff(k: Crypto, secrets: map<Hash, Bytes>, paymentHash: Hash, tokenId: Hash, l: Limits,
                          services: seq<Service>, preimage: Hash, target: string, now: int)
    requires WellFormed(l) && services != [] && PlainNames(services) && DistinctNames(services)
    requires NoClash(Flatten(Collect(l.constraints, services)), target)
    requires k.sha(NewId(paymentHash, tokenId)) in secrets && k.sha(preimage) == paymentHash
    ensures MintedCaveats(l, services).Some?
    ensures var id := NewId(paymentHash, tokenId);
            var m := MintedMacaroon(k, secrets[k.sha(id)], id, MintedCaveats(l, services).value);
            Verifies(k, secrets, m, preimage, target, now) <==> Entitled(l, services, target, now)
  {
    MintedCaveatsHoldIff(l, services, target, now);
    var id := NewId(paymentHash, tokenId);
    NewIdDecodes(paymentHash, tokenId);
    var secret, raw := secrets[k.sha(id)], EncodeAll(MintedCaveats(l, services).value);
    AddedCaveatsAreSigned(k, secret, Macaroon(id, [], k.sign(secret, id)), raw);
    assert [] + raw == raw;
  }

  // What verification means, for every macaroon.

  /** Lists of services that only shrink, down to one with the target. */
  ghost predicate ListsShrinkTo(chain: seq<Caveat>, target: string) {
    && (forall i :: 0 <= i < |chain| ==> DecodeServices(chain[i].value).Some?)
    && (forall i :: 0 <= i < |chain| - 1 ==>
          Names(DecodeServices(chain[i + 1].value).value) <= Names(DecodeServices(chain[i].value).value))
    && (chain != [] ==> target in Names(DecodeServices(chain[|chain| - 1].value).value))
  }

  /** Times that never grow, down to one that is ahead. */
  ghost predicate TimesShrinkTo(chain: seq<Caveat>, now: int) {
    && (forall i :: 0 <= i < |chain| ==> ParseInt64(chain[i].value).Some?)
    && (forall i :: 0 <= i < |chain| - 1 ==> TimeOf(chain[i + 1]) <= TimeOf(chain[i]))
    && (chain != [] ==> now < TimeOf(chain[|chain| - 1]) + 62135596800)
  }

  ghost predicate PlainTimes(chain: seq<Caveat>) {
    forall i :: 0 <= i < |chain| && ParseInt64(chain[i].value).Some? ==> PlainTime(chain[i])
  }

  lemma ListsDecide(chain: seq<Caveat>, target: string)
    ensures ChainHolds(ServicesSatisfier(target), chain) <==> ListsShrinkTo(chain, target)
  {
    if chain != [] { ServicesChainMeans(target, chain); }
  }

  lemma TimesDecide(chain: seq<Caveat>, target: string, now: int)
    requires PlainTimes(chain)
    ensures ChainHolds(TimeoutSatisfier(target, now), chain) <==> TimesShrinkTo(chain, now)
  {
    if chain != [] { TimeoutChainMeans(target, now, chain); }
  }

  /**
    The verdict on any macaroon with any caveats: the preimage opens its payment hash, it is signed with
    the secret kept for it, its services only shrink down to the target and its expiries down to the future.
  */
  lemma VerifiesMeans(k: Crypto, secrets: map<Hash, Bytes>, m: Macaroon, preimage: Hash, target: string, now: int)
    requires PlainTimes(Chain(DecodeAll(m.caveats), target + "_valid_until"))
    ensures Verifies(k, secrets, m, preimage, target, now) <==>
            && DecodeIdentifier(m.id).Some? && k.sha(preimage) == DecodeIdentifier(m.id).value.paymentHash
            && k.sha(m.id) in secrets && m.sig == Signature(k, secrets[k.sha(m.id)], m.id, m.caveats)
            && ListsShrinkTo(Chain(DecodeAll(m.caveats), "services"), target)
            && TimesShrinkTo(Chain(DecodeAll(m.caveats), target + "_valid_until"), now)
  {
    var cs := DecodeAll(m.caveats);
    TwoChainsDecide(cs, target, now);
    ListsDecide(Chain(cs, COND_SERVICES), target);
    TimesDecide(Chain(cs, target + TIMEOUT_SUFFIX), target, now);
  }

  // Caveats added by the holder.

  /** An L402 extended by one caveat is checked on the minted caveats followed by that one. */
  lemma ExtendedVerifiesIff(k: Crypto, secrets: map<Hash, Bytes>, paymentHash: Hash, tokenId: Hash,
                            minted: seq<Caveat>, c: Caveat, preimage: Hash, target: string, now: int)
    requires k.sha(NewId(paymentHash, tokenId)) in secrets && k.sha(preimage) == paymentHash && '=' !in c.condition
    ensures var id := NewId(paymentHash, tokenId);
            var m := MintedMacaroon(k, secrets[k.sha(id)], id, minted);
            Verifies(k, secrets, AddCaveats(k, m, [EncodeCaveat(c)]), preimage, target, now)
            <==> CaveatsHold(ReadBackAll(minted) + [c], Table(L402Satisfiers(target, now)))
  {
    var id := NewId(paymentHash, tokenId);
    var secret, raw := secrets[k.sha(id)], EncodeAll(minted);
    NewIdDecodes(paymentHash, tokenId);
    AddedCaveatsAreSigned(k, secret, Macaroon(id, [], k.sign(secret, id)), raw);
    assert [] + raw == raw;
    AddedCaveatsAreSigned(k, secret, MintedMacaroon(k, secret, id, minted), [EncodeCaveat(c)]);
    DecodeAllAfterEncodeAll(minted);
    DecodeAllOneMore(raw, EncodeCaveat(c));
    EncodedDecodes(c);
    PlainCaveatReadsBack(c);
  }

  lemma TwoListsMean(services: seq<Service>, sub: seq<Service>, target: string)
    requires services != [] && ValidNames(services) && sub != [] && ValidNames(sub)
    ensures EncodeServices(services).Some? && EncodeServices(sub).Some?
    ensures ChainHolds(ServicesSatisfier(target), [Caveat(COND_SERVICES, EncodeServices(services).value),
                                                   Caveat(COND_SERVICES, EncodeServices(sub).value)])
            <==> Names(sub) <= Names(services) && target in Names(sub)
  {
    DecodeAfterEncodeServices(services);
    DecodeAfterEncodeServices(sub);
    NamesUnpriced(services);
    NamesUnpriced(sub);
    ChainOfTwoHolds(ServicesSatisfier(target), Caveat(COND_SERVICES, EncodeServices(services).value),
                    Caveat(COND_SERVICES, EncodeServices(sub).value));
  }

  lemma ChainsDecide(cs: seq<Caveat>, a: seq<Caveat>, b: seq<Caveat>, target: string, now: int)
    requires Chain(cs, COND_SERVICES) == a && Chain(cs, target + TIMEOUT_SUFFIX) == b
    ensures CaveatsHold(cs, Table(L402Satisfiers(target, now))) <==>
            ChainHolds(ServicesSatisfier(target), a) && ChainHolds(TimeoutSatisfier(target, now), b)
  {
    TwoChainsDecide(cs, target, now);
  }

  lemma NarrowedChains(cs: seq<Caveat>, a: Caveat, c: Caveat, target: string)
    requires c.condition == COND_SERVICES && Chain(cs, COND_SERVICES) == [a]
    ensures Chain(cs + [c], COND_SERVICES) == [a, c]
    ensures Chain(cs + [c], target + TIMEOUT_SUFFIX) == Chain(cs, target + TIMEOUT_SUFFIX)
  {
    ChainsWithOneMore(cs, c, COND_SERVICES);
    ChainsWithOneMore(cs, c, target + TIMEOUT_SUFFIX);
    SuffixesDiffer(target, target);
    assert [a] + [c] == [a, c];
  }

  /** The caveats of a minted L402 narrowed to `sub`. */
  lemma NarrowedHoldIff(l: Limits, services: seq<Service>, sub: seq<Service>, target: string, now: int)
    requires WellFormed(l) && services != [] && PlainNames(services) && DistinctNames(services)
    requires NoClash(Flatten(Collect(l.constraints, services)), target) && sub != [] && ValidNames(sub)
    ensures MintedCaveats(l, services).Some? && EncodeServices(sub).Some?
    ensures var minted, c := MintedCaveats(l, services).value, Caveat(COND_SERVICES, EncodeServices(sub).value);
            CaveatsHold(ReadBackAll(minted) + [c], Table(L402Satisfiers(target, now)))
            <==> Names(sub) <= Names(services) && target in Names(sub) && Entitled(l, services, target, now)
  {
    TwoListsMean(services, sub, target);
    MintedChains(l, services, target);
    var cs := ReadBackAll(MintedCaveats(l, services).value);
    var a, c := Caveat(COND_SERVICES, EncodeServices(services).value), Caveat(COND_SERVICES, EncodeServices(sub).value);
    NarrowedChains(cs, a, c, target);
    ChainsDecide(cs + [c], [a, c], Recorded(l, services, target), target, now);
    RecordedDecides(l, services, target, now);
  }

  lemma WithServicesVerifiesIff(k: Crypto, secrets: map<Hash, Bytes>, paymentHash: Hash, tokenId: Hash,
                                minted: seq<Caveat>, value: string, preimage: Hash, target: string, now: int)
    requires k.sha(NewId(paymentHash, tokenId)) in secrets && k.sha(preimage) == paymentHash
    ensures var id := NewId(paymentHash, tokenId);
            var m := MintedMacaroon(k, secrets[k.sha(id)], id, minted);
            Verifies(k, secrets, AddCaveats(k, m, [EncodeCaveat(Caveat("services", value))]), preimage, target, now)
            <==> CaveatsHold(ReadBackAll(minted) + [Caveat(COND_SERVICES, value)], Table(L402Satisfiers(target, now)))
  {
    var c := Caveat(COND_SERVICES, value);
    assert c == Caveat("services", value) && '=' !in c.condition;
    ExtendedVerifiesIff(k, secrets, paymentHash, tokenId, minted, c, preimage, target, now);
  }

  /** The holder narrows an L402 to some of its services: it verifies for exactly those it still entitles to. */
  lemma NarrowedVerifiesIff(k: Crypto, secrets: map<Hash, Bytes>, paymentHash: Hash, tokenId: Hash, l: Limits,
                            services: seq<Service>, sub: seq<Service>, preimage: Hash, target: string, now: int)
    requires WellFormed(l) && services != [] && PlainNames(services) && DistinctNames(services)
    requires NoClash(Flatten(Collect(l.constraints, services)), target) && sub != [] && ValidNames(sub)
    requires k.sha(NewId(paymentHash, tokenId)) in secrets && k.sha(preimage) == paymentHash
    ensures MintedCaveats(l, services).Some? && EncodeServices(sub).Some?
    ensures var id := NewId(paymentHash, tokenId);
            var m := MintedMacaroon(k, secrets[k.sha(id)], id, MintedCaveats(l, services).value);
            Verifies(k, secrets, AddCaveats(k, m, [EncodeCaveat(Caveat("services", EncodeServices(sub).value))]),
                     preimage, target, now)
            <==> Names(sub) <= Names(services) && target in Names(sub) && Entitled(l, services, target, now)
  {
    NarrowedHoldIff(l, services, sub, target, now);
    WithServicesVerifiesIff(k, secrets, paymentHash, tokenId, MintedCaveats(l, services).value,
                            EncodeServices(sub).value, preimage, target, now);
  }

  lemma ShortenedChains(cs: seq<Caveat>, c: Caveat, target: string)
    requires c.condition == target + TIMEOUT_SUFFIX
    ensures Chain(cs + [c], COND_SERVICES) == Chain(cs, COND_SERVICES)
    ensures Chain(cs + [c], target + TIMEOUT_SUFFIX) == Chain(cs, target + TIMEOUT_SUFFIX) + [c]
  {
    ChainsWithOneMore(cs, c, COND_SERVICES);
    ChainsWithOneMore(cs, c, target + TIMEOUT_SUFFIX);
    SuffixesDiffer(target, target);
  }

  /** Every recorded timeout is clear of the end of 64 bits; those the limiter records always are. */
  ghost predicate PlainTimeouts(l: Limits) {
    forall s :: s in l.timeouts ==> PlainTime(l.timeouts[s])
  }

  lemma ExpiryIsPlain(name: string, seconds: Int64, now: Clock)
    ensures PlainTime(TimeoutCaveat(name, Expiry(seconds, now)))
  {
    ParseAfterFormat(Expiry(seconds, now));
  }

  lemma {:induction false} LimiterTimeoutsArePlain(services: seq<ProxyService>, clock: seq<Clock>)
    requires |clock| == |services|
    ensures PlainTimeouts(LimitsOf(services, clock))
  {
    if services != [] {
      var n := |services| - 1;
      LimiterTimeoutsArePlain(services[..n], clock[..n]);
      ExpiryIsPlain(services[n].name, services[n].timeout, clock[n]);
    }
  }

  /** The time is not later than the one recorded for the service, if there is one. */
  ghost predicate NotLater(l: Limits, s: Service, v: Int64) {
    s in l.timeouts ==> v <= TimeOf(l.timeouts[s])
  }

  lemma LastTimeMeans(target: string, now: int, v: Int64)
    requires v < 0x8000_0000_0000_0000 - 62135596800
    ensures TimeoutSatisfier(target, now).final(TimeoutCaveat(target, v)) <==> now < v + 62135596800
  {
    ParseAfterFormat(v);
    WallSecondsExact(v);
  }

  lemma NextTimeMeans(target: string, now: int, c: Caveat, v: Int64)
    requires PlainTime(c) && v < 0x8000_0000_0000_0000 - 62135596800
    ensures TimeoutSatisfier(target, now).previous(c, TimeoutCaveat(target, v)) <==> v <= TimeOf(c)
  {
    ParseAfterFormat(v);
    WallSecondsExact(v);
    WallSecondsExact(TimeOf(c));
  }

  lemma TwoTimesMean(l: Limits, services: seq<Service>, i: nat, v: Int64, now: int)
    requires PlainTimeouts(l) && DistinctNames(services) && i < |services| && v < 0x8000_0000_0000_0000 - 62135596800
    ensures var target := services[i].name;
            ChainHolds(TimeoutSatisfier(target, now), Recorded(l, services, target) + [TimeoutCaveat(target, v)])
            <==> NotLater(l, services[i], v) && now < v + 62135596800
  {
    var target := services[i].name;
    var s, c := TimeoutSatisfier(target, now), TimeoutCaveat(target, v);
    RecordedIsUnique(l, services, i);
    LastTimeMeans(target, now, v);
    if services[i] in l.timeouts {
      var t := l.timeouts[services[i]];
      NextTimeMeans(target, now, t, v);
      ChainOfTwoHolds(s, t, c);
      assert [t] + [c] == [t, c];
    } else {
      ChainOfOneHolds(s, c);
      assert [] + [c] == [c];
    }
  }

  lemma ShortenedHoldIff(l: Limits, services: seq<Service>, i: nat, v: Int64, now: int)
    requires WellFormed(l) && PlainTimeouts(l) && PlainNames(services) && DistinctNames(services) && i < |services|
    requires NoClash(Flatten(Collect(l.constraints, services)), services[i].name)
    requires v < 0x8000_0000_0000_0000 - 62135596800
    ensures MintedCaveats(l, services).Some?
    ensures var target := services[i].name;
            CaveatsHold(ReadBackAll(MintedCaveats(l, services).value) + [TimeoutCaveat(target, v)],
                        Table(L402Satisfiers(target, now)))
            <==> NotLater(l, services[i], v) && now < v + 62135596800
  {
    var target := services[i].name;
    MintedChains(l, services, target);
    var cs, c := ReadBackAll(MintedCaveats(l, services).value), TimeoutCaveat(target, v);
    var a := Caveat(COND_SERVICES, EncodeServices(services).value);
    ShortenedChains(cs, c, target);
    ChainsDecide(cs + [c], [a], Recorded(l, services, target) + [c], target, now);
    assert target in Names(services);
    ServicesCaveatAdmits(services, target);
    ChainOfOneHolds(ServicesSatisfier(target), a);
    TwoTimesMean(l, services, i, v, now);
  }

  lemma PlainTimeoutCondition(target: string)
    requires '=' !in target
    ensures '=' !in target + TIMEOUT_SUFFIX
  {
  }

  /** The holder sets an earlier expiry: it counts exactly when it is not later than the recorded one. */
  lemma ShortenedVerifiesIff(k: Crypto, secrets: map<Hash, Bytes>, paymentHash: Hash, tokenId: Hash, l: Limits,
                             services: seq<Service>, i: nat, v: Int64, preimage: Hash, now: int)
    requires WellFormed(l) && PlainTimeouts(l) && PlainNames(services) && DistinctNames(services) && i < |services|
    requires NoClash(Flatten(Collect(l.constraints, services)), services[i].name)
    requires k.sha(NewId(paymentHash, tokenId)) in secrets && k.sha(preimage) == paymentHash
    requires v < 0x8000_0000_0000_0000 - 62135596800
    ensures MintedCaveats(l, services).Some?
    ensures var id, target := NewId(paymentHash, tokenId), services[i].name;
            var m := MintedMacaroon(k, secrets[k.sha(id)], id, MintedCaveats(l, services).value);
            Verifies(k, secrets, AddCaveats(k, m, [EncodeCaveat(Caveat(target + "_valid_until", FormatInt(v)))]),
                     preimage, target, now)
            <==> NotLater(l, services[i], v) && now < v + 62135596800
  {
    var target := services[i].name;
    var c := TimeoutCaveat(target, v);
    assert c == Caveat(target + "_valid_until", FormatInt(v));
    PlainTimeoutCondition(target);
    ShortenedHoldIff(l, services, i, v, now);
    ExtendedVerifiesIff(k, secrets, paymentHash, tokenId, MintedCaveats(l, services).value, c, preimage, target, now);
  }

  lemma SoleServiceEntitles(l: Limits, s: Service, now: int)
    ensures Entitled(l, [s], s.name, now) <==> Unexpired(l, s, now)
  {
    assert [s][0] == s;
  }

  lemma SameExpiry(name: string, v: Int64, w: Int64)
    requires TimeoutCaveat(name, v) == TimeoutCaveat(name, w)
    ensures v == w
  {
    ParseAfterFormat(v);
    ParseAfterFormat(w);
  }

  /** The expiry recorded for a configured service counts only when the price asked is the one configured. */
  predicate StillGood(p: ProxyService, price: int, made: Clock, now: int) {
    price != p.price || p.timeout <= 0 || now < WallSeconds(Expiry(p.timeout, made))
  }

  lemma ChallengeEntitlesIff(services: seq<ProxyService>, clock: seq<Clock>, i: nat, price: int, now: int)
    requires |clock| == |services| && i < |services| && DistinctlyNamed(services)
    ensures var p := services[i];
            Entitled(LimitsOf(services, clock), [Service(p.name, 0, price)], p.name, now)
            <==> StillGood(p, price, clock[i], now)
  {
    var p, l := services[i], LimitsOf(services, clock);
    var s, v := Service(p.name, 0, price), Expiry(p.timeout, clock[i]);
    TimeoutFoundIff(services, clock, i, price);
    SoleServiceEntitles(l, s, now);
    forall w: Int64 | TimeoutCaveat(p.name, v) == TimeoutCaveat(p.name, w) ensures v == w {
      SameExpiry(p.name, v, w);
    }
  }

  /**
    The token of a challenge for one configured service, at whatever price was asked, fixed or dynamic:
    with its preimage it verifies for that service until the recorded expiry, and for ever when the
    price is not the configured one. So it is when zero was configured, since zero is never asked.
  */
  lemma ChallengeVerifiesIff(k: Crypto, secrets: map<Hash, Bytes>, paymentHash: Hash, tokenId: Hash, preimage: Hash,
                             services: seq<ProxyService>, clock: seq<Clock>, i: nat, price: int, now: int)
    requires |clock| == |services| && i < |services| && DistinctlyNamed(services)
    requires k.sha(NewId(paymentHash, tokenId)) in secrets && k.sha(preimage) == paymentHash
    requires PlainNames([Service(services[i].name, 0, price)])
    requires var asked := [Service(services[i].name, 0, price)];
             NoClash(Flatten(Collect(LimitsOf(services, clock).constraints, asked)), services[i].name)
    ensures var p, id, asked := services[i], NewId(paymentHash, tokenId), [Service(services[i].name, 0, price)];
            var caveats := MintedCaveats(LimitsOf(services, clock), asked);
            && caveats.Some?
            && (Verifies(k, secrets, MintedMacaroon(k, secrets[k.sha(id)], id, caveats.value), preimage, p.name, now)
                <==> StillGood(p, price, clock[i], now))
    ensures services[i].price == 0 && price == PriceAsked(services[i]) ==> StillGood(services[i], price, clock[i], now)
  {
    var l := LimitsOf(services, clock);
    LimitsWellFormed(services, clock);
    MintedVerifiesIff(k, secrets, paymentHash, tokenId, l, [Service(services[i].name, 0, price)], preimage,
                      services[i].name, now);
    ChallengeEntitlesIff(services, clock, i, price, now);
  }

  /** In numbers: good until the configured seconds after the limits were made, counted from year 1. */
  lemma ChallengeVerifiesUntil(k: Crypto, secrets: map<Hash, Bytes>, paymentHash: Hash, tokenId: Hash, preimage: Hash,
                               services: seq<ProxyService>, clock: seq<Clock>, i: nat, price: int, now: int)
    requires |clock| == |services| && i < |services| && DistinctlyNamed(services)
    requires k.sha(NewId(paymentHash, tokenId)) in secrets && k.sha(preimage) == paymentHash
    requires PlainNames([Service(services[i].name, 0, price)])
    requires var asked := [Service(services[i].name, 0, price)];
             NoClash(Flatten(Collect(LimitsOf(services, clock).constraints, asked)), services[i].name)
    requires services[i].timeout * 1_000_000_000 < 0x8000_0000_0000_0000
    ensures var p, id, asked := services[i], NewId(paymentHash, tokenId), [Service(services[i].name, 0, price)];
            var caveats := MintedCaveats(LimitsOf(services, clock), asked);
            && caveats.Some?
            && (Verifies(k, secrets, MintedMacaroon(k, secrets[k.sha(id)], id, caveats.value), preimage, p.name, now)
                <==> price != p.price || p.timeout <= 0 || now < 62135596800 + clock[i] / 1_000_000_000 + p.timeout)
  {
    var p := services[i];
    ChallengeVerifiesIff(k, secrets, paymentHash, tokenId, preimage, services, clock, i, price, now);
    if p.timeout > 0 {
      ExpiryExact(p.timeout, clock[i]);
      WallSecondsExact(Expiry(p.timeout, clock[i]));
    }
  }

  // The mint object.

  /** The price of the dearest service, or zero. */
  method MaximumPrice(services: seq<Service>) returns (max: int)
    ensures max >= 0 && forall i :: 0 <= i < |services| ==> services[i].price <= max
    ensures max == 0 || exists i :: 0 <= i < |services| && services[i].price == max
  {
    max := 0;
    for i := 0 to |services|
      invariant max >= 0 && forall j :: 0 <= j < i ==> services[j].price <= max
      invariant max == 0 || exists j :: 0 <= j < i && services[j].price == max
    {
      if services[i].price > max {
        max := services[i].price;
      }
    }
  }

  /** Each L402 gets a secret of its own, stored under the hash of its identifier. */
  function SecretsAfterMint(secrets: map<Hash, Bytes>, idHash: Hash, secret: Bytes, kept: bool): map<Hash, Bytes> {
    if kept then secrets[idHash := secret] else secrets - {idHash}
  }

  /** The loop over the macaroon's caveats that skips what it can not decode. */
  method DecodeCaveats(raw: seq<string>) returns (caveats: seq<Caveat>)
    ensures caveats == DecodeAll(raw)
  {
    caveats := [];
    for i := 0 to |raw|
      invariant caveats == DecodeAll(raw[..i])
    {
      DecodeAllOneMore(raw[..i], raw[i]);
      assert raw[..i + 1] == raw[..i] + [raw[i]];
      var c := DecodeCaveat(raw[i]);
      if c.Some? {
        caveats := caveats + [c.value];
      }
    }
    assert raw[..|raw|] == raw;
  }

  class Minter {
    const k: Crypto
    var secrets: map<Hash, Bytes>

    constructor (k: Crypto)
      ensures this.k == k && secrets == map[]
    {
      this.k, secrets := k, map[];
    }

    /**
      MintL402 for the challenge `paymentHash`, with the random token ID and secret as arguments.
      When the caveats can not be made the new secret is removed again, if that works.
    */
    method MintL402(limiter: StaticServiceLimiter, services: seq<Service>, paymentHash: Hash, tokenId: Hash,
                    secret: Bytes, revokeWorks: bool) returns (m: Option<Macaroon>)
      modifies this`secrets
      ensures var id := NewId(paymentHash, tokenId);
              var caveats := MintedCaveats(limiter.View(), services);
              && m == (if caveats.None? then None else Some(MintedMacaroon(k, secret, id, caveats.value)))
              && secrets == SecretsAfterMint(old(secrets), k.sha(id), secret, caveats.Some? || !revokeWorks)
    {
      var id := NewId(paymentHash, tokenId);
      secrets := secrets[k.sha(id) := secret];
      var caveats: seq<Caveat> := [];
      if services != [] {
        var value := EncodeServicesCaveatValue(services);
        if value.None? {
          if revokeWorks {
            secrets := secrets - {k.sha(id)};
          }
          return None;
        }
        var capabilities := limiter.ServiceCapabilities(services);
        var constraints := limiter.ServiceConstraints(services);
        var timeouts := limiter.ServiceTimeouts(services);
        caveats := [Caveat(COND_SERVICES, value.value)] + capabilities + constraints + timeouts;
      }
      return Some(MintedMacaroon(k, secret, id, caveats));
    }

    method RevokeSecret(idHash: Hash)
      modifies this`secrets
      ensures secrets == old(secrets) - {idHash}
    {
      secrets := secrets - {idHash};
    }

    method VerifyL402(m: Macaroon, preimage: Hash, target: string, now: int) returns (ok: bool)
      ensures ok <==> Verifies(k, secrets, m, preimage, target, now)
    {
      var id := ReadIdentifier(m.id);
      if id.None? || k.sha(preimage) != id.value.paymentHash {
        return false;
      }
      if k.sha(m.id) !in secrets || m.sig != Signature(k, secrets[k.sha(m.id)], m.id, m.caveats) {
        return false;
      }
      var caveats := DecodeCaveats(m.caveats);
      ok := VerifyCaveats(caveats, L402Satisfiers(target, now));
    }
  }
}
