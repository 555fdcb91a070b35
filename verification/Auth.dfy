/** The authenticator: header, mint and challenger together, over whole runs of the mint. */
module Auth {
  import opened Bytes
  import opened TokenCodec
  import opened Caveats
  import opened Services
  import opened Limiter
  import opened Identifier
  import opened Mint
  import opened Encodings
  import opened Header
  import opened Challenger
  import InvoiceWaiters

  // The life of the secrets.

  /** What an identifier was made for; without a macaroon when minting failed half-way. */
  datatype Issue = Issue(paymentHash: Hash, services: seq<Service>, macaroon: Option<Macaroon>)

  datatype World = World(
    secrets: map<Hash, Bytes>,
    issued: map<Bytes, Issue>, // history: every identifier ever made
    revoked: set<Hash>)        // history: the hashes whose secret was taken away

  datatype Event =
    | MintStep(l: Limits, services: seq<Service>, paymentHash: Hash, tokenId: Hash, secret: Bytes, revokeWorks: bool)
    | RevokeStep(idHash: Hash)

  function HashesOf(k: Crypto, w: World): set<Hash> {
    set id | id in w.issued :: k.sha(id)
  }

  /** The token ID is random: the new identifier has a hash that no earlier one had. */
  predicate Enabled(k: Crypto, w: World, e: Event) {
    e.MintStep? ==> k.sha(NewId(e.paymentHash, e.tokenId)) !in HashesOf(k, w)
  }

  function Apply(k: Crypto, w: World, e: Event): World {
    match e
    case MintStep(l, services, paymentHash, tokenId, secret, revokeWorks) =>
      var id := NewId(paymentHash, tokenId);
      var caveats := MintedCaveats(l, services);
      var m := if caveats.None? then None else Some(MintedMacaroon(k, secret, id, caveats.value));
      World(SecretsAfterMint(w.secrets, k.sha(id), secret, caveats.Some? || !revokeWorks),
            w.issued[id := Issue(paymentHash, services, m)],
            if caveats.None? && revokeWorks then w.revoked + {k.sha(id)} else w.revoked)
    case RevokeStep(idHash) =>
      World(w.secrets - {idHash}, w.issued, if idHash in w.secrets then w.revoked + {idHash} else w.revoked)
  }

  predicate Valid(k: Crypto, w: World, es: seq<Event>)
    decreases |es|
  {
    es == [] || (Enabled(k, w, es[0]) && Valid(k, Apply(k, w, es[0]), es[1..]))
  }

  function After(k: Crypto, w: World, es: seq<Event>): World
    decreases |es|
  {
    if es == [] then w else After(k, Apply(k, w, es[0]), es[1..])
  }

  const EMPTY := World(map[], map[], {})

  ghost predicate Reachable(k: Crypto, w: World) {
    exists es :: Valid(k, EMPTY, es) && After(k, EMPTY, es) == w
  }

  /** A secret is there for identifiers made and not revoked, and every identifier says what it was made for. */
  ghost predicate Inv(k: Crypto, w: World) {
    && w.secrets.Keys <= HashesOf(k, w)
    && w.revoked <= HashesOf(k, w)
    && w.secrets.Keys !! w.revoked
    && forall id :: id in w.issued ==>
         DecodeIdentifier(id).Some? && DecodeIdentifier(id).value.paymentHash == w.issued[id].paymentHash
  }

  lemma MintKeepsInv(k: Crypto, w: World, e: Event)
    requires Inv(k, w) && Enabled(k, w, e) && e.MintStep?
    ensures Inv(k, Apply(k, w, e)) && w.revoked <= Apply(k, w, e).revoked
  {
    var w', id := Apply(k, w, e), NewId(e.paymentHash, e.tokenId);
    NewIdDecodes(e.paymentHash, e.tokenId);
    assert id in w'.issued && forall x :: x in w.issued ==> x in w'.issued;
    assert HashesOf(k, w') == HashesOf(k, w) + {k.sha(id)};
  }

  lemma StepKeepsInv(k: Crypto, w: World, e: Event)
    requires Inv(k, w) && Enabled(k, w, e)
    ensures Inv(k, Apply(k, w, e)) && w.revoked <= Apply(k, w, e).revoked
  {
    if e.MintStep? {
      MintKeepsInv(k, w, e);
    } else {
      assert HashesOf(k, Apply(k, w, e)) == HashesOf(k, w);
    }
  }

  lemma {:induction false} RunKeepsInv(k: Crypto, w: World, es: seq<Event>)
    requires Inv(k, w) && Valid(k, w, es)
    ensures Inv(k, After(k, w, es)) && w.revoked <= After(k, w, es).revoked
    decreases |es|
  {
    if es != [] {
      StepKeepsInv(k, w, es[0]);
      RunKeepsInv(k, Apply(k, w, es[0]), es[1..]);
    }
  }

  lemma ReachableInv(k: Crypto, w: World)
    requires Reachable(k, w)
    ensures Inv(k, w)
  {
    var es :| Valid(k, EMPTY, es) && After(k, EMPTY, es) == w;
    RunKeepsInv(k, EMPTY, es);
  }

  /** Once its secret is revoked a macaroon never verifies again, however the mint goes on. */
  lemma RevokedNeverVerifies(k: Crypto, w: World, m: Macaroon, es: seq<Event>, preimage: Hash, target: string, now: int)
    requires Reachable(k, w) && k.sha(m.id) in w.secrets
    requires Valid(k, Apply(k, w, RevokeStep(k.sha(m.id))), es)
    ensures var w' := After(k, Apply(k, w, RevokeStep(k.sha(m.id))), es);
            !Verifies(k, w'.secrets, m, preimage, target, now)
  {
    ReachableInv(k, w);
    var w1 := Apply(k, w, RevokeStep(k.sha(m.id)));
    StepKeepsInv(k, w, RevokeStep(k.sha(m.id)));
    RunKeepsInv(k, w1, es);
  }

  /** What is not revoked keeps its secret, whatever else is minted and revoked. */
  lemma {:induction false} UnrevokedKeepsSecret(k: Crypto, w: World, es: seq<Event>, h: Hash)
    requires Inv(k, w) && Valid(k, w, es) && h in w.secrets
    requires forall i :: 0 <= i < |es| ==> es[i] != RevokeStep(h)
    ensures h in After(k, w, es).secrets && After(k, w, es).secrets[h] == w.secrets[h]
    decreases |es|
  {
    if es != [] {
      StepKeepsInv(k, w, es[0]);
      assert h in HashesOf(k, w) && es[0] != RevokeStep(h);
      UnrevokedKeepsSecret(k, Apply(k, w, es[0]), es[1..], h);
    }
  }

  /**
    An L402 that was minted verifies, in every history of the mint in which it is not revoked, with its
    preimage exactly for what it entitles to.
  */
  lemma MintedKeepsVerifying(k: Crypto, w: World, e: Event, es: seq<Event>, preimage: Hash, target: string, now: int)
    requires Reachable(k, w) && e.MintStep? && Enabled(k, w, e) && Valid(k, Apply(k, w, e), es)
    requires WellFormed(e.l) && e.services != [] && PlainNames(e.services) && DistinctNames(e.services)
    requires NoClash(Flatten(Collect(e.l.constraints, e.services)), target) && k.sha(preimage) == e.paymentHash
    requires forall i :: 0 <= i < |es| ==> es[i] != RevokeStep(k.sha(NewId(e.paymentHash, e.tokenId)))
    ensures var issue := Apply(k, w, e).issued[NewId(e.paymentHash, e.tokenId)];
            && issue.macaroon.Some? && issue.paymentHash == e.paymentHash && issue.services == e.services
            && (Verifies(k, After(k, Apply(k, w, e), es).secrets, issue.macaroon.value, preimage, target, now)
                <==> Entitled(e.l, e.services, target, now))
  {
    ReachableInv(k, w);
    StepKeepsInv(k, w, e);
    var id := NewId(e.paymentHash, e.tokenId);
    MintedCaveatsHoldIff(e.l, e.services, target, now);
    UnrevokedKeepsSecret(k, Apply(k, w, e), es, k.sha(id));
    MintedVerifiesIff(k, After(k, Apply(k, w, e), es).secrets, e.paymentHash, e.tokenId, e.l, e.services, preimage,
                      target, now);
  }

  /** The hash function does not confuse this identifier with another that was made here. */
  ghost predicate NoCollision(k: Crypto, w: World, id: Bytes) {
    forall made :: made in w.issued && k.sha(made) == k.sha(id) ==> made == id
  }

  /** What verifies was minted here, is not revoked, and its preimage opens the payment hash of its minting. */
  lemma VerifiedWasMinted(k: Crypto, w: World, m: Macaroon, preimage: Hash, target: string, now: int)
    requires Reachable(k, w) && NoCollision(k, w, m.id)
    requires Verifies(k, w.secrets, m, preimage, target, now)
    ensures m.id in w.issued && k.sha(m.id) !in w.revoked
    ensures k.sha(preimage) == w.issued[m.id].paymentHash
  {
    ReachableInv(k, w);
    assert k.sha(m.id) in HashesOf(k, w);
  }

  // Accept.

  /** What Accept demands, where `check` is the answer of the invoice checker for a settled invoice. */
  predicate Accepts(c: MacaroonCodec<Macaroon>, k: Crypto, secrets: map<Hash, Bytes>, h: Fields, target: string,
                    now: int, check: Hash -> bool)
  {
    match FromHeader(c, h)
    case None => false
    case Some(cred) => Verifies(k, secrets, cred.mac, cred.preimage, target, now) && check(k.sha(cred.preimage))
  }

  method Accept(c: MacaroonCodec<Macaroon>, minter: Minter, h: Fields, target: string, now: int, check: Hash -> bool)
    returns (ok: bool)
    ensures ok <==> Accepts(c, minter.k, minter.secrets, h, target, now, check)
  {
    var cred := FromHeader(c, h);
    if cred.None? {
      return false;
    }
    var valid := minter.VerifyL402(cred.value.mac, cred.value.preimage, target, now);
    if !valid {
      return false;
    }
    return check(minter.k.sha(cred.value.preimage));
  }

  /** The invoice checker says yes only when one of its calls for that hash ended with success. */
  ghost predicate Answers(check: Hash -> bool, s: InvoiceWaiters.System) {
    forall hash :: check(hash) ==>
      exists i :: 0 <= i < |s.waiters| && s.waiters[i].hash == hash && s.waiters[i].wanted == Settled
                  && s.waiters[i].main == InvoiceWaiters.Finished && InvoiceWaiters.Succeeds(s.waiters[i])
  }

  /** An invoice of that hash was settled in lnd's list at start-up, or in a message of its stream. */
  ghost predicate ReportedSettled(invoices: seq<Invoice>, stream: seq<Received>, hash: Hash) {
    || (exists i :: 0 <= i < |invoices| && invoices[i].rHash == Some(hash) && invoices[i].state == Settled)
    || (exists i :: 0 <= i < |stream| && stream[i].Update? && stream[i].inv.rHash == Some(hash)
                    && stream[i].inv.state == Settled)
  }

  /**
    The challenger's history: its cache was loaded from lnd's list, and the updates it took into the
    cache are the first of those that lnd's stream brought.
  */
  ghost predicate History(invoices: seq<Invoice>, clock: seq<int>, cache: Cache, stream: seq<Received>,
                          run: seq<InvoiceWaiters.Event>)
  {
    && |clock| == |invoices| && LoadAll(invoices, clock).Some? && LoadAll(invoices, clock).value.cache == cache
    && InvoiceWaiters.Valid(InvoiceWaiters.Start(cache), run)
    && InvoiceWaiters.Received(run) <= EntriesOf(stream)
  }

  lemma CheckedWasReported(check: Hash -> bool, invoices: seq<Invoice>, clock: seq<int>, cache: Cache,
                           stream: seq<Received>, run: seq<InvoiceWaiters.Event>, hash: Hash)
    requires History(invoices, clock, cache, stream, run)
    requires Answers(check, InvoiceWaiters.After(InvoiceWaiters.Start(cache), run)) && check(hash)
    ensures ReportedSettled(invoices, stream, hash)
  {
    var s := InvoiceWaiters.After(InvoiceWaiters.Start(cache), run);
    var i :| 0 <= i < |s.waiters| && s.waiters[i].hash == hash && s.waiters[i].wanted == Settled
             && s.waiters[i].main == InvoiceWaiters.Finished && InvoiceWaiters.Succeeds(s.waiters[i]);
    InvoiceWaiters.SuccessWasObserved(cache, run, i);
    if InvoiceWaiters.Lookup(cache, hash) == Some(Settled) {
      var k := LoadedIsListed(invoices, clock, hash);
    } else {
      var k := EntryHasSource(stream, Entry(hash, Settled, true));
    }
  }

  /**
    Soundness of Accept, for every history of the mint and every interleaving in the challenger: a
    request is let in only with an L402 minted here and not revoked, with the preimage of the payment
    hash it was minted for, and after lnd reported the invoice of that hash as settled.
  */
  lemma AcceptedWasPaid(c: MacaroonCodec<Macaroon>, k: Crypto, w: World, h: Fields, target: string, now: int,
                        check: Hash -> bool, invoices: seq<Invoice>, clock: seq<int>, cache: Cache,
                        stream: seq<Received>, run: seq<InvoiceWaiters.Event>)
    requires Reachable(k, w) && History(invoices, clock, cache, stream, run)
    requires Answers(check, InvoiceWaiters.After(InvoiceWaiters.Start(cache), run))
    requires Accepts(c, k, w.secrets, h, target, now, check)
    requires NoCollision(k, w, FromHeader(c, h).value.mac.id)
    ensures var cred := FromHeader(c, h).value;
            && cred.mac.id in w.issued && k.sha(cred.mac.id) !in w.revoked
            && k.sha(cred.preimage) == w.issued[cred.mac.id].paymentHash
            && ReportedSettled(invoices, stream, w.issued[cred.mac.id].paymentHash)
  {
    var cred := FromHeader(c, h).value;
    VerifiedWasMinted(k, w, cred.mac, cred.preimage, target, now);
    CheckedWasReported(check, invoices, clock, cache, stream, run, k.sha(cred.preimage));
  }

  /** Nobody can sign but by adding caveats to a macaroon that was handed out. */
  ghost predicate Unforged(k: Crypto, w: World, m: Macaroon) {
    m.id in w.issued && k.sha(m.id) in w.secrets && Signed(k, w.secrets[k.sha(m.id)], m) ==>
      w.issued[m.id].macaroon.Some? && exists extra :: m == AddCaveats(k, w.issued[m.id].macaroon.value, extra)
  }

  ghost predicate IsMinted(k: Crypto, id: Bytes, issue: Issue)
    requires issue.macaroon.Some?
  {
    exists l, secret ::
      && MintedCaveats(l, issue.services).Some?
      && issue.macaroon.value == MintedMacaroon(k, secret, id, MintedCaveats(l, issue.services).value)
  }

  /** Every macaroon handed out carries the caveats of the services it was made for. */
  ghost predicate Confined(k: Crypto, w: World) {
    forall id :: id in w.issued && w.issued[id].macaroon.Some? ==> IsMinted(k, id, w.issued[id])
  }

  lemma {:induction false} RunKeepsConfined(k: Crypto, w: World, es: seq<Event>)
    requires Confined(k, w) && Valid(k, w, es)
    ensures Confined(k, After(k, w, es))
    decreases |es|
  {
    if es != [] {
      RunKeepsConfined(k, Apply(k, w, es[0]), es[1..]);
    }
  }

  /** And the request is for one of the services that the L402 was minted for. */
  lemma AcceptedWasListed(k: Crypto, w: World, m: Macaroon, preimage: Hash, target: string, now: int)
    requires Reachable(k, w) && NoCollision(k, w, m.id) && Unforged(k, w, m)
    requires Verifies(k, w.secrets, m, preimage, target, now)
    ensures m.id in w.issued
    ensures var services := w.issued[m.id].services;
            services != [] && ValidNames(services) ==> target in Names(services)
  {
    VerifiedWasMinted(k, w, m, preimage, target, now);
    var es :| Valid(k, EMPTY, es) && After(k, EMPTY, es) == w;
    RunKeepsConfined(k, EMPTY, es);
    var issue := w.issued[m.id];
    assert IsMinted(k, m.id, issue);
    var l, secret :| MintedCaveats(l, issue.services).Some?
                     && issue.macaroon.value == MintedMacaroon(k, secret, m.id, MintedCaveats(l, issue.services).value);
    var extra :| m == AddCaveats(k, issue.macaroon.value, extra);
    if issue.services != [] && ValidNames(issue.services) {
      MintedNeverWidens(k, w.secrets, secret, m.id, l, issue.services, extra, preimage, target, now);
    }
  }

  // Completeness.

  lemma PreimageIsNoLimit(target: string)
    ensures PREIMAGE_KEY != COND_SERVICES && PREIMAGE_KEY != target + TIMEOUT_SUFFIX
  {
    var t := target + TIMEOUT_SUFFIX;
    assert t[|t| - 1] == 'l' && PREIMAGE_KEY[|PREIMAGE_KEY| - 1] == 'e';
  }

  lemma OtherChainsStay(cs: seq<Caveat>, c: Caveat, cond: string)
    requires c.condition != cond
    ensures Chain(cs + [c], cond) == Chain(cs, cond)
  {
    assert (cs + [c])[..|cs|] == cs;
  }

  lemma DecodeOneMore(raw: seq<string>, c: Caveat)
    requires '=' !in c.condition
    ensures DecodeAll(raw + [EncodeCaveat(c)]) == DecodeAll(raw) + [c]
  {
    Caveats.DecodeAfterEncode(c);
    assert (raw + [EncodeCaveat(c)])[..|raw|] == raw;
  }

  /** A preimage caveat takes nothing away. */
  lemma PreimageCaveatIsHarmless(raw: seq<string>, preimage: string, target: string, now: int)
    ensures CaveatsHold(DecodeAll(raw + [EncodeCaveat(Caveat(PREIMAGE_KEY, preimage))]),
                        Table(L402Satisfiers(target, now)))
            <==> CaveatsHold(DecodeAll(raw), Table(L402Satisfiers(target, now)))
  {
    var c, cs := Caveat(PREIMAGE_KEY, preimage), DecodeAll(raw);
    DecodeOneMore(raw, c);
    PreimageIsNoLimit(target);
    OtherChainsStay(cs, c, COND_SERVICES);
    OtherChainsStay(cs, c, target + TIMEOUT_SUFFIX);
    TwoChainsDecide(cs, target, now);
    TwoChainsDecide(cs + [c], target, now);
  }

  /** Paying does not change what a macaroon is good for. */
  lemma PaidMacaroonVerifiesIff(k: Crypto, secrets: map<Hash, Bytes>, t: Token<Macaroon>, target: string, now: int)
    requires k.sha(t.mac.id) in secrets && Signed(k, secrets[k.sha(t.mac.id)], t.mac)
    ensures Verifies(k, secrets, PaidMacaroon(k, t), t.preimage, target, now)
            <==> Verifies(k, secrets, t.mac, t.preimage, target, now)
  {
    var c := Caveat(PREIMAGE_KEY, HexEncode(t.preimage));
    AddedCaveatsAreSigned(k, secrets[k.sha(t.mac.id)], t.mac, [EncodeCaveat(c)]);
    PreimageCaveatIsHarmless(t.mac.caveats, HexEncode(t.preimage), target, now);
  }

  /** The same for the macaroon and the preimage apart, in an Authorization field. */
  lemma AuthorizedTokenIsAcceptedIff(c: MacaroonCodec<Macaroon>, k: Crypto, secrets: map<Hash, Bytes>,
                                     paymentHash: Hash, preimage: Hash, tokenId: Hash, l: Limits,
                                     services: seq<Service>, h: Fields, target: string, now: int, check: Hash -> bool)
    requires WellFormed(l) && services != [] && PlainNames(services) && DistinctNames(services) && Lawful(c)
    requires NoClash(Flatten(Collect(l.constraints, services)), target) && MintedCaveats(l, services).Some?
    requires k.sha(NewId(paymentHash, tokenId)) in secrets && k.sha(preimage) == paymentHash
    ensures var id := NewId(paymentHash, tokenId);
            var m := MintedMacaroon(k, secrets[k.sha(id)], id, MintedCaveats(l, services).value);
            Accepts(c, k, secrets, WithCredentials(c, h, Credentials(m, preimage)), target, now, check)
            <==> Entitled(l, services, target, now) && check(paymentHash)
  {
    var id := NewId(paymentHash, tokenId);
    var m := MintedMacaroon(k, secrets[k.sha(id)], id, MintedCaveats(l, services).value);
    FromAfterSet(c, h, Credentials(m, preimage));
    MintedVerifiesIff(k, secrets, paymentHash, tokenId, l, services, preimage, target, now);
  }

  lemma MintedIsSigned(k: Crypto, secret: Bytes, id: Bytes, caveats: seq<Caveat>)
    ensures var m := MintedMacaroon(k, secret, id, caveats); m.id == id && Signed(k, secret, m)
  {
    AddedCaveatsAreSigned(k, secret, Macaroon(id, [], k.sign(secret, id)), EncodeAll(caveats));
  }

  /**
    End to end: a token minted here and paid, sent as a hex header, is accepted for a service exactly
    when it entitles to that service and the invoice checker finds its invoice settled.
  */
  lemma PaidTokenIsAcceptedIff(c: MacaroonCodec<Macaroon>, k: Crypto, secrets: map<Hash, Bytes>, t: Token<Macaroon>,
                               tokenId: Hash, l: Limits, services: seq<Service>, h: Fields, target: string, now: int,
                               check: Hash -> bool)
    requires WellFormed(l) && services != [] && PlainNames(services) && DistinctNames(services)
    requires NoClash(Flatten(Collect(l.constraints, services)), target) && MintedCaveats(l, services).Some?
    requires var id := NewId(t.paymentHash, tokenId);
             k.sha(id) in secrets
             && t.mac == MintedMacaroon(k, secrets[k.sha(id)], id, MintedCaveats(l, services).value)
    requires k.sha(t.preimage) == t.paymentHash
    requires Lawful(c) && c.marshal(PaidMacaroon(k, t)) != []
    requires HexHeader(h) == HexEncode(c.marshal(PaidMacaroon(k, t)))
    ensures Accepts(c, k, secrets, h, target, now, check)
            <==> Entitled(l, services, target, now) && check(t.paymentHash)
  {
    var id := NewId(t.paymentHash, tokenId);
    PaidMacaroonIsRead(c, k, t, h);
    MintedVerifiesIff(k, secrets, t.paymentHash, tokenId, l, services, t.preimage, target, now);
    MintedIsSigned(k, secrets[k.sha(id)], id, MintedCaveats(l, services).value);
    PaidMacaroonVerifiesIff(k, secrets, t, target, now);
  }
}
