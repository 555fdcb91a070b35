/** Caveats of an L402 and their verification. */
module Caveats {
  import opened Bytes
  import opened Text

  datatype Caveat = Caveat(condition: string, value: string)

  function EncodeCaveat(c: Caveat): string {
    c.condition + "=" + c.value
  }

  function DecodeCaveat(s: string): Option<Caveat> {
    if '=' !in s then None else var i := IndexOf(s, '='); Some(Caveat(s[..i], s[i + 1..]))
  }

  /** Decoding gives back a caveat exactly when its condition is free of the separator. */
  lemma DecodeAfterEncode(c: Caveat)
    ensures DecodeCaveat(EncodeCaveat(c)) == Some(c) <==> '=' !in c.condition
  {
    var s, n := EncodeCaveat(c), |c.condition|;
    assert s[n] == '=' && s[..n] == c.condition && s[n + 1..] == c.value;
    if '=' !in c.condition {
      IndexOfIsFirst(s, '=', n);
    }
  }

  lemma EncodeAfterDecode(s: string)
    requires DecodeCaveat(s).Some?
    ensures EncodeCaveat(DecodeCaveat(s).value) == s && '=' !in DecodeCaveat(s).value.condition
  {
    var i := IndexOf(s, '=');
    assert s == s[..i] + [s[i]] + s[i + 1..];
  }

  function Decoded(s: string): seq<Caveat> {
    match DecodeCaveat(s)
    case None => []
    case Some(c) => [c]
  }

  /** The caveats that decode; others, third-party ones for instance, are skipped. */
  function DecodeAll(raw: seq<string>): seq<Caveat> {
    if raw == [] then []
    else
      DecodeAll(raw[..|raw| - 1]) + Decoded(raw[|raw| - 1])
  }

  lemma DecodeAllOneMore(raw: seq<string>, s: string)
    ensures DecodeAll(raw + [s]) == DecodeAll(raw) + Decoded(s)
  {
    OneMore(raw, s);
  }

  lemma DecodeAllNext(a: seq<string>, b: seq<string>, s: string)
    requires DecodeAll(a + b) == DecodeAll(a) + DecodeAll(b)
    ensures DecodeAll(a + (b + [s])) == DecodeAll(a) + DecodeAll(b + [s])
  {
    Concatenation(a, b, [s]);
    DecodeAllOneMore(a + b, s);
    DecodeAllOneMore(b, s);
    Concatenation(DecodeAll(a), DecodeAll(b), Decoded(s));
  }

  lemma {:induction false} DecodeAllAppend(a: seq<string>, b: seq<string>)
    ensures DecodeAll(a + b) == DecodeAll(a) + DecodeAll(b)
    decreases |b|
  {
    if b == [] {
      assert a + b == a;
    } else {
      var n := |b| - 1;
      DecodeAllAppend(a, b[..n]);
      DecodeAllNext(a, b[..n], b[n]);
      LastApart(b, n);
    }
  }

  function LastValue(caveats: seq<Caveat>, cond: string): Option<string> {
    if caveats == [] then None
    else
      var c := caveats[|caveats| - 1];
      if c.condition == cond then Some(c.value) else LastValue(caveats[..|caveats| - 1], cond)
  }

  lemma LastValueAppend(caveats: seq<Caveat>, more: seq<Caveat>, cond: string)
    requires |more| <= 1
    ensures LastValue(caveats + more, cond) ==
            if more != [] && more[0].condition == cond then Some(more[0].value) else LastValue(caveats, cond)
  {
    if more == [] {
      assert caveats + more == caveats;
    } else {
      assert (caveats + more)[..|caveats|] == caveats;
    }
  }

  /** The value there is: that of the last caveat with the condition. */
  lemma {:induction false} LastValueIsLast(caveats: seq<Caveat>, i: nat)
    requires i < |caveats| && forall j :: i < j < |caveats| ==> caveats[j].condition != caveats[i].condition
    ensures LastValue(caveats, caveats[i].condition) == Some(caveats[i].value)
  {
    if i < |caveats| - 1 {
      LastValueIsLast(caveats[..|caveats| - 1], i);
    }
  }

  /** There is none only if no caveat has the condition. */
  lemma {:induction false} NoValueIff(caveats: seq<Caveat>, cond: string)
    ensures LastValue(caveats, cond) == None <==> forall i :: 0 <= i < |caveats| ==> caveats[i].condition != cond
  {
    if caveats != [] {
      var n := |caveats| - 1;
      NoValueIff(caveats[..n], cond);
      assert forall i :: 0 <= i < n ==> caveats[..n][i] == caveats[i];
    }
  }

  /** HasCaveat: the value of the last caveat with the condition. */
  method HasCaveat(raw: seq<string>, cond: string) returns (value: Option<string>)
    ensures value == LastValue(DecodeAll(raw), cond)
  {
    value := None;
    for i := 0 to |raw|
      invariant value == LastValue(DecodeAll(raw[..i]), cond)
    {
      assert raw[..i + 1][..i] == raw[..i];
      var caveat := DecodeCaveat(raw[i]);
      LastValueAppend(DecodeAll(raw[..i]), if caveat.Some? then [caveat.value] else [], cond);
      if caveat.Some? && caveat.value.condition == cond {
        value := Some(caveat.value.value);
      }
    }
    assert raw[..|raw|] == raw;
  }

  // Satisfiers and chains.

  /** How a condition is checked: each caveat against its predecessor, and the last one by itself. */
  datatype Satisfier = Satisfier(condition: string, previous: (Caveat, Caveat) -> bool, final: Caveat -> bool)

  /** Of two satisfiers with one condition the later one counts. */
  function Table(satisfiers: seq<Satisfier>): map<string, Satisfier> {
    if satisfiers == [] then map[]
    else
      var s := satisfiers[|satisfiers| - 1];
      Table(satisfiers[..|satisfiers| - 1])[s.condition := s]
  }

  lemma {:induction false} LaterSatisfierCounts(satisfiers: seq<Satisfier>, i: nat)
    requires i < |satisfiers|
    requires forall j :: i < j < |satisfiers| ==> satisfiers[j].condition != satisfiers[i].condition
    ensures var cond := satisfiers[i].condition; cond in Table(satisfiers) && Table(satisfiers)[cond] == satisfiers[i]
  {
    if i < |satisfiers| - 1 {
      LaterSatisfierCounts(satisfiers[..|satisfiers| - 1], i);
    }
  }

  /** The caveats with one condition, in order. */
  function Chain(caveats: seq<Caveat>, cond: string): seq<Caveat> {
    if caveats == [] then []
    else
      var c := caveats[|caveats| - 1];
      Chain(caveats[..|caveats| - 1], cond) + if c.condition == cond then [c] else []
  }

  predicate ChainHolds(s: Satisfier, chain: seq<Caveat>) {
    chain != [] ==>
      && (forall i :: 0 <= i < |chain| - 1 ==> s.previous(chain[i], chain[i + 1]))
      && s.final(chain[|chain| - 1])
  }

  lemma ChainOfTwoHolds(s: Satisfier, a: Caveat, b: Caveat)
    ensures ChainHolds(s, [a, b]) <==> s.previous(a, b) && s.final(b)
  {
    var chain := [a, b];
    assert chain[0] == a && chain[1] == b;
  }

  lemma ChainOfOneHolds(s: Satisfier, a: Caveat)
    ensures ChainHolds(s, [a]) <==> s.final(a)
  {
  }

  /** What verification means: the chain of every condition somebody can check holds. */
  predicate CaveatsHold(caveats: seq<Caveat>, table: map<string, Satisfier>) {
    forall cond :: cond in table ==> ChainHolds(table[cond], Chain(caveats, cond))
  }

  method BuildTable(satisfiers: seq<Satisfier>) returns (table: map<string, Satisfier>)
    ensures table == Table(satisfiers)
  {
    table := map[];
    for i := 0 to |satisfiers|
      invariant table == Table(satisfiers[..i])
    {
      assert satisfiers[..i + 1][..i] == satisfiers[..i];
      table := table[satisfiers[i].condition := satisfiers[i]];
    }
    assert satisfiers[..|satisfiers|] == satisfiers;
  }

  /** The relevant caveats grouped by condition. */
  ghost predicate Groups(caveats: seq<Caveat>, table: map<string, Satisfier>, groups: map<string, seq<Caveat>>) {
    && groups.Keys <= table.Keys
    && forall cond :: cond in table ==> Chain(caveats, cond) == if cond in groups then groups[cond] else []
  }

  lemma ChainsWithOneMore(cs: seq<Caveat>, c: Caveat, cond: string)
    ensures Chain(cs + [c], cond) == Chain(cs, cond) + if c.condition == cond then [c] else []
  {
    OneMore(cs, c);
  }

  function Grouped(groups: map<string, seq<Caveat>>, c: Caveat): map<string, seq<Caveat>> {
    groups[c.condition := (if c.condition in groups then groups[c.condition] else []) + [c]]
  }

  lemma GroupsNext(caveats: seq<Caveat>, c: Caveat, table: map<string, Satisfier>, groups: map<string, seq<Caveat>>)
    requires Groups(caveats, table, groups)
    ensures Groups(caveats + [c], table, if c.condition in table then Grouped(groups, c) else groups)
  {
    var groups' := Grouped(groups, c);
    forall cond | cond in table
      ensures Chain(caveats + [c], cond) ==
              if c.condition in table then (if cond in groups' then groups'[cond] else [])
              else if cond in groups then groups[cond] else []
    {
      ChainsWithOneMore(caveats, c, cond);
    }
  }

  method GroupCaveats(caveats: seq<Caveat>, table: map<string, Satisfier>) returns (groups: map<string, seq<Caveat>>)
    ensures Groups(caveats, table, groups)
  {
    groups := map[];
    for i := 0 to |caveats|
      invariant Groups(caveats[..i], table, groups)
    {
      var c := caveats[i];
      GroupsNext(caveats[..i], c, table, groups);
      PrefixOneMore(caveats, i);
      if c.condition in table {
        var chain := if c.condition in groups then groups[c.condition] else [];
        groups := groups[c.condition := chain + [c]];
      }
    }
    assert caveats[..|caveats|] == caveats;
  }

  method CheckChain(s: Satisfier, chain: seq<Caveat>) returns (ok: bool)
    requires chain != []
    ensures ok <==> ChainHolds(s, chain)
  {
    for i := 0 to |chain| - 1
      invariant forall j :: 0 <= j < i ==> s.previous(chain[j], chain[j + 1])
    {
      if !s.previous(chain[i], chain[i + 1]) {
        return false;
      }
    }
    return s.final(chain[|chain| - 1]);
  }

  /** VerifyCaveats: the groups are visited in any order, and the verdict does not depend on it. */
  method VerifyCaveats(caveats: seq<Caveat>, satisfiers: seq<Satisfier>) returns (ok: bool)
    ensures ok <==> CaveatsHold(caveats, Table(satisfiers))
  {
    var table := BuildTable(satisfiers);
    var groups := GroupCaveats(caveats, table);
    var left := groups.Keys;
    while left != {}
      invariant left <= groups.Keys
      invariant forall cond :: cond in groups.Keys - left ==> ChainHolds(table[cond], groups[cond])
      decreases |left|
    {
      var cond :| cond in left;
      if groups[cond] != [] {
        ok := CheckChain(table[cond], groups[cond]);
        if !ok {
          assert Chain(caveats, cond) == groups[cond];
          return;
        }
      }
      left := left - {cond};
    }
    return true;
  }

  // Attenuation: more caveats never permit more.

  /** Whatever the later caveat of an accepted pair permits, the earlier one permits as well. */
  ghost predicate Monotone(s: Satisfier) {
    forall p, c :: s.previous(p, c) && s.final(c) ==> s.final(p)
  }

  ghost predicate AllMonotone(table: map<string, Satisfier>) {
    forall cond :: cond in table ==> Monotone(table[cond])
  }

  lemma {:induction false} ChainAppend(a: seq<Caveat>, b: seq<Caveat>, cond: string)
    ensures Chain(a + b, cond) == Chain(a, cond) + Chain(b, cond)
    decreases |b|
  {
    if b == [] {
      assert a + b == a;
    } else {
      ChainAppend(a, b[..|b| - 1], cond);
      assert (a + b)[..|a + b| - 1] == a + b[..|b| - 1];
    }
  }

  lemma {:induction false} EveryLinkPermits(s: Satisfier, chain: seq<Caveat>, i: nat)
    requires Monotone(s) && ChainHolds(s, chain) && i < |chain|
    ensures s.final(chain[i])
    decreases |chain| - i
  {
    if i < |chain| - 1 {
      EveryLinkPermits(s, chain, i + 1);
    }
  }

  /** If a list of caveats with others added at its end verifies, then it verifies by itself. */
  lemma Attenuation(base: seq<Caveat>, extra: seq<Caveat>, table: map<string, Satisfier>)
    requires AllMonotone(table) && CaveatsHold(base + extra, table)
    ensures CaveatsHold(base, table)
  {
    forall cond | cond in table ensures ChainHolds(table[cond], Chain(base, cond)) {
      ChainAppend(base, extra, cond);
      var chain, all := Chain(base, cond), Chain(base + extra, cond);
      if chain != [] {
        assert forall i :: 0 <= i < |chain| ==> chain[i] == all[i];
        EveryLinkPermits(table[cond], all, |chain| - 1);
        assert forall i :: 0 <= i < |chain| - 1 ==> table[cond].previous(all[i], all[i + 1]);
      }
    }
  }

  lemma {:induction false} ChainHasAll(caveats: seq<Caveat>, i: nat)
    requires i < |caveats|
    ensures caveats[i] in Chain(caveats, caveats[i].condition)
  {
    if i < |caveats| - 1 {
      ChainHasAll(caveats[..|caveats| - 1], i);
    }
  }

  lemma MemberPermits(s: Satisfier, chain: seq<Caveat>, c: Caveat)
    requires Monotone(s) && ChainHolds(s, chain) && c in chain
    ensures s.final(c)
  {
    var j :| 0 <= j < |chain| && chain[j] == c;
    EveryLinkPermits(s, chain, j);
  }

  lemma ChainOfOne(c: Caveat, cond: string)
    ensures Chain([c], cond) == if c.condition == cond then [c] else []
  {
    assert Chain([c][..0], cond) == [];
  }

  lemma AloneHolds(c: Caveat, table: map<string, Satisfier>)
    requires c.condition in table ==> table[c.condition].final(c)
    ensures CaveatsHold([c], table)
  {
    forall cond | cond in table ensures ChainHolds(table[cond], Chain([c], cond)) {
      ChainOfOne(c, cond);
    }
  }

  /** Each relevant caveat of an accepted list, taken alone, is accepted. */
  lemma EachCaveatPermits(caveats: seq<Caveat>, table: map<string, Satisfier>, i: nat)
    requires AllMonotone(table) && CaveatsHold(caveats, table)
    requires i < |caveats|
    ensures CaveatsHold([caveats[i]], table)
  {
    var c := caveats[i];
    if c.condition in table {
      ChainHasAll(caveats, i);
      MemberPermits(table[c.condition], Chain(caveats, c.condition), c);
    }
    AloneHolds(c, table);
  }

  /** Where a raw caveat that decodes ends up. */
  lemma {:induction false} DecodedAt(raw: seq<string>, i: nat) returns (k: nat)
    requires i < |raw| && DecodeCaveat(raw[i]).Some?
    ensures k < |DecodeAll(raw)| && DecodeAll(raw)[k] == DecodeCaveat(raw[i]).value
  {
    if i == |raw| - 1 {
      k := |DecodeAll(raw)| - 1;
    } else {
      k := DecodedAt(raw[..|raw| - 1], i);
    }
  }

  lemma DecodeOne(raw: string)
    ensures DecodeAll([raw]) == Decoded(raw)
  {
    assert [raw][..0] == [];
  }

  lemma EachRawCaveatPermits(raw: seq<string>, i: nat, table: map<string, Satisfier>)
    requires i < |raw| && AllMonotone(table) && CaveatsHold(DecodeAll(raw), table)
    ensures CaveatsHold(DecodeAll([raw[i]]), table)
  {
    DecodeOne(raw[i]);
    if DecodeCaveat(raw[i]).Some? {
      var k := DecodedAt(raw, i);
      EachCaveatPermits(DecodeAll(raw), table, k);
    }
  }
}
