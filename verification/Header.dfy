/** The HTTP header fields in which an L402 travels, and how the proxy rewrites them. */
module Header {
  import opened Bytes
  import opened TokenCodec
  import opened Caveats
  import opened Encodings
  import opened Mint

  const AUTHORIZATION := "Authorization"
  const MACAROON_MD := "Grpc-Metadata-Macaroon"
  const MACAROON := "Macaroon"
  const PREIMAGE_KEY := "preimage"

  /** Fields by canonical name, each with its values in order. */
  type Fields = map<string, seq<string>>

  function Values(h: Fields, name: string): seq<string> {
    if name in h then h[name] else []
  }

  function Get(h: Fields, name: string): string {
    if Values(h, name) == [] then "" else Values(h, name)[0]
  }

  // The expression (LSAT|L402) (.*?):([a-f0-9]{64}), searched anywhere in the value.

  const SCHEME_SIZE: nat := 5
  const PREIMAGE_SIZE: nat := 64

  predicate SchemeAt(s: string, i: nat) {
    i + SCHEME_SIZE <= |s| && (s[i..i + SCHEME_SIZE] == "LSAT " || s[i..i + SCHEME_SIZE] == "L402 ")
  }

  predicate PreimageAt(s: string, j: nat) {
    && j + 1 + PREIMAGE_SIZE <= |s|
    && s[j] == ':'
    && forall x :: j < x <= j + PREIMAGE_SIZE ==> IsLowerHex(s[x])
  }

  /** The shortest middle part: the first place from `j` on where a preimage follows. */
  function FirstEnd(s: string, j: nat): Option<nat>
    decreases |s| - j
  {
    if j >= |s| then None
    else if PreimageAt(s, j) then Some(j)
    else if s[j] == '\n' then None
    else FirstEnd(s, j + 1)
  }

  lemma EndInRange(s: string, j: nat)
    requires FirstEnd(s, j).Some?
    ensures j <= FirstEnd(s, j).value && PreimageAt(s, FirstEnd(s, j).value)
    decreases |s| - j
  {
    if j < |s| && !PreimageAt(s, j) {
      EndInRange(s, j + 1);
    }
  }

  /** The leftmost match from `i` on: the text in the middle and the preimage. */
  function FindFrom(s: string, i: nat): Option<(string, string)>
    decreases |s| - i
  {
    if i >= |s| then None
    else if SchemeAt(s, i) && FirstEnd(s, i + SCHEME_SIZE).Some? then
      var j := FirstEnd(s, i + SCHEME_SIZE).value;
      EndInRange(s, i + SCHEME_SIZE);
      Some((s[i + SCHEME_SIZE..j], s[j + 1..j + 1 + PREIMAGE_SIZE]))
    else FindFrom(s, i + 1)
  }

  lemma {:induction false} FirstEndFound(s: string, j: nat, end: nat)
    requires j <= end && PreimageAt(s, end)
    requires forall x :: j <= x < end ==> s[x] != ':' && s[x] != '\n'
    ensures FirstEnd(s, j) == Some(end)
    decreases end - j
  {
    if j < end {
      FirstEndFound(s, j + 1, end);
    }
  }

  /** A match of the whole expression: scheme at `i`, then any text on one line, then the colon at `j`. */
  ghost predicate MatchAt(s: string, i: nat, j: nat) {
    && SchemeAt(s, i) && i + SCHEME_SIZE <= j && PreimageAt(s, j)
    && forall x :: i + SCHEME_SIZE <= x < j ==> s[x] != '\n'
  }

  lemma {:induction false} FirstEndIsShortest(s: string, j: nat)
    requires FirstEnd(s, j).Some?
    ensures var e := FirstEnd(s, j).value;
            && j <= e && PreimageAt(s, e)
            && forall x :: j <= x < e ==> s[x] != '\n' && !PreimageAt(s, x)
    decreases |s| - j
  {
    if !PreimageAt(s, j) {
      FirstEndIsShortest(s, j + 1);
    }
  }

  lemma {:induction false} FirstEndExists(s: string, j: nat, e: nat)
    requires j <= e && PreimageAt(s, e) && forall x :: j <= x < e ==> s[x] != '\n'
    ensures FirstEnd(s, j).Some?
    decreases e - j
  {
    if !PreimageAt(s, j) {
      FirstEndExists(s, j + 1, e);
    }
  }

  /** What is found is a match: the leftmost one, with the shortest text. */
  lemma {:induction false} FoundIsLeftmost(s: string, from: nat) returns (i: nat, j: nat)
    requires FindFrom(s, from).Some?
    ensures from <= i && MatchAt(s, i, j)
    ensures FindFrom(s, from) == Some((s[i + SCHEME_SIZE..j], s[j + 1..j + 1 + PREIMAGE_SIZE]))
    ensures forall i': nat, j': nat :: from <= i' < i ==> !MatchAt(s, i', j')
    ensures forall j': nat :: j' < j ==> !MatchAt(s, i, j')
    decreases |s| - from
  {
    if SchemeAt(s, from) && FirstEnd(s, from + SCHEME_SIZE).Some? {
      i, j := from, FirstEnd(s, from + SCHEME_SIZE).value;
      FirstEndIsShortest(s, from + SCHEME_SIZE);
    } else {
      i, j := FoundIsLeftmost(s, from + 1);
      forall j': nat ensures !MatchAt(s, from, j') {
        if MatchAt(s, from, j') { FirstEndExists(s, from + SCHEME_SIZE, j'); }
      }
    }
  }

  /** And if there is a match anywhere, one is found. */
  lemma {:induction false} MatchIsFound(s: string, from: nat, i: nat, j: nat)
    requires from <= i && MatchAt(s, i, j)
    ensures FindFrom(s, from).Some?
    decreases i - from
  {
    if from == i {
      FirstEndExists(s, i + SCHEME_SIZE, j);
    } else {
      MatchIsFound(s, from + 1, i, j);
    }
  }

  /** A value of the form the proxy writes is taken apart where it was put together. */
  lemma FindWhatIsWritten(scheme: string, mac: string, preimage: string)
    requires scheme in {"LSAT ", "L402 "} && ':' !in mac && '\n' !in mac
    requires |preimage| == PREIMAGE_SIZE && forall i :: 0 <= i < |preimage| ==> IsLowerHex(preimage[i])
    ensures FindFrom(scheme + mac + ":" + preimage, 0) == Some((mac, preimage))
  {
    var s, end := scheme + mac + ":" + preimage, SCHEME_SIZE + |mac|;
    assert s[..SCHEME_SIZE] == scheme;
    assert s[SCHEME_SIZE..end] == mac && s[end + 1..] == preimage;
    assert forall x :: end < x < |s| ==> s[x] == preimage[x - end - 1];
    assert forall x :: SCHEME_SIZE <= x < end ==> s[x] == mac[x - SCHEME_SIZE];
    FirstEndFound(s, SCHEME_SIZE, end);
    assert s[end + 1..end + 1 + PREIMAGE_SIZE] == preimage;
  }

  // Reading.

  datatype Credentials = Credentials(mac: Macaroon, preimage: Hash)

  function ParsePreimage(text: string): Option<Hash> {
    if |text| != PREIMAGE_SIZE then None
    else
      match HexDecode(text)
      case Some(s) => if |s| == HASH_SIZE then Some(s) else None
      case None => None
  }

  lemma PreimageRoundTrip(p: Hash)
    ensures ParsePreimage(HexEncode(p)) == Some(p)
  {
    HexRoundTrip(p);
  }

  /** One Authorization value. */
  function ParseAuthorization(c: MacaroonCodec<Macaroon>, value: string): Option<Credentials> {
    match FindFrom(value, 0)
    case None => None
    case Some((mac64, preimageHex)) =>
      match Base64Decode(mac64)
      case None => None
      case Some(macBytes) =>
        match (c.unmarshal(macBytes), ParsePreimage(preimageHex))
        case (Some(mac), Some(preimage)) => Some(Credentials(mac, preimage))
        case _ => None
  }

  /** A macaroon in hex brings its preimage along as its last preimage caveat. */
  function ParseMacaroonHex(c: MacaroonCodec<Macaroon>, value: string): Option<Credentials> {
    match HexDecode(value)
    case None => None
    case Some(macBytes) =>
      match c.unmarshal(macBytes)
      case None => None
      case Some(mac) =>
        match LastValue(DecodeAll(mac.caveats), PREIMAGE_KEY)
        case None => None
        case Some(preimageHex) =>
          match ParsePreimage(preimageHex)
          case None => None
          case Some(preimage) => Some(Credentials(mac, preimage))
  }

  /** Of several Authorization values the last one decides, whether it matches or not. */
  function FromHeader(c: MacaroonCodec<Macaroon>, h: Fields): Option<Credentials> {
    if Get(h, AUTHORIZATION) != "" then
      var values := Values(h, AUTHORIZATION);
      ParseAuthorization(c, values[|values| - 1])
    else if Get(h, MACAROON_MD) != "" then ParseMacaroonHex(c, Get(h, MACAROON_MD))
    else if Get(h, MACAROON) != "" then ParseMacaroonHex(c, Get(h, MACAROON))
    else None
  }

  /** The loop over the Authorization values, overwriting the match each time. */
  method LastMatch(values: seq<string>) returns (found: Option<(string, string)>)
    requires values != []
    ensures found == FindFrom(values[|values| - 1], 0)
  {
    found := None;
    for i := 0 to |values|
      invariant i > 0 ==> found == FindFrom(values[i - 1], 0)
    {
      found := FindFrom(values[i], 0);
    }
  }

  // Writing.

  function AuthValue(scheme: string, c: MacaroonCodec<Macaroon>, cred: Credentials): string {
    scheme + Base64Encode(c.marshal(cred.mac)) + ":" + HexEncode(cred.preimage)
  }

  function WithCredentials(c: MacaroonCodec<Macaroon>, h: Fields, cred: Credentials): Fields {
    h[AUTHORIZATION := [AuthValue("LSAT ", c, cred), AuthValue("L402 ", c, cred)]]
  }

  lemma ParseWhatIsWritten(scheme: string, c: MacaroonCodec<Macaroon>, cred: Credentials)
    requires Lawful(c) && scheme in {"LSAT ", "L402 "}
    ensures ParseAuthorization(c, AuthValue(scheme, c, cred)) == Some(cred)
  {
    var macBytes := c.marshal(cred.mac);
    Base64RoundTrip(macBytes);
    FindWhatIsWritten(scheme, Base64Encode(macBytes), HexEncode(cred.preimage));
    PreimageRoundTrip(cred.preimage);
  }

  lemma AuthValueIsNotEmpty(scheme: string, c: MacaroonCodec<Macaroon>, cred: Credentials)
    ensures AuthValue(scheme, c, cred) != ""
  {
    assert |AuthValue(scheme, c, cred)| >= 1;
  }

  lemma LastAuthorizationDecides(c: MacaroonCodec<Macaroon>, h: Fields)
    requires Values(h, AUTHORIZATION) != [] && Values(h, AUTHORIZATION)[0] != ""
    ensures FromHeader(c, h) == ParseAuthorization(c, Values(h, AUTHORIZATION)[|Values(h, AUTHORIZATION)| - 1])
  {
  }

  /** Credentials set on any header are the credentials read from it. */
  lemma FromAfterSet(c: MacaroonCodec<Macaroon>, h: Fields, cred: Credentials)
    requires Lawful(c)
    ensures FromHeader(c, WithCredentials(c, h, cred)) == Some(cred)
  {
    ParseWhatIsWritten("L402 ", c, cred);
    AuthValueIsNotEmpty("LSAT ", c, cred);
    LastAuthorizationDecides(c, WithCredentials(c, h, cred));
  }

  // The director of the proxy.

  /** Credentials found in any field are forwarded in the standard one. */
  function Normalised(c: MacaroonCodec<Macaroon>, h: Fields): Fields {
    match FromHeader(c, h)
    case None => h
    case Some(cred) => WithCredentials(c, h, cred)
  }

  /** Normalisation keeps the meaning of a header, and doing it twice changes nothing. */
  lemma NormalisationKeepsMeaning(c: MacaroonCodec<Macaroon>, h: Fields)
    requires Lawful(c)
    ensures FromHeader(c, Normalised(c, h)) == FromHeader(c, h)
    ensures Normalised(c, Normalised(c, h)) == Normalised(c, h)
  {
    if FromHeader(c, h).Some? {
      FromAfterSet(c, h, FromHeader(c, h).value);
    }
  }

  function Add(h: Fields, name: string, value: string): Fields {
    h[name := Values(h, name) + [value]]
  }

  /** The configured fields, added after normalisation. */
  function AddAll(h: Fields, fields: seq<(string, string)>): Fields {
    if fields == [] then h
    else
      var n := |fields| - 1;
      Add(AddAll(h, fields[..n]), fields[n].0, fields[n].1)
  }

  /** The values configured for one field, in order. */
  function ValuesIn(fields: seq<(string, string)>, name: string): seq<string> {
    if fields == [] then []
    else
      var n := |fields| - 1;
      ValuesIn(fields[..n], name) + if fields[n].0 == name then [fields[n].1] else []
  }

  /** Configured values come behind those a field has, in every field. */
  lemma {:induction false} AddAllAppends(h: Fields, fields: seq<(string, string)>, name: string)
    ensures Values(AddAll(h, fields), name) == Values(h, name) + ValuesIn(fields, name)
  {
    if fields != [] {
      AddAllAppends(h, fields[..|fields| - 1], name);
    }
  }

  /** All fields but Authorization reach the backend as they came, with the configured values behind. */
  lemma DirectorKeepsFields(c: MacaroonCodec<Macaroon>, h: Fields, fields: seq<(string, string)>, name: string)
    requires name != AUTHORIZATION
    ensures Values(AddAll(Normalised(c, h), fields), name) == Values(h, name) + ValuesIn(fields, name)
  {
    AddAllAppends(Normalised(c, h), fields, name);
  }

  lemma AuthValueText(scheme: string, c: MacaroonCodec<Macaroon>, cred: Credentials)
    ensures AuthValue(scheme, c, cred) ==
            scheme + (Base64Encode(c.marshal(cred.mac)) + ":" + HexEncode(cred.preimage))
  {
  }

  /** Without credentials Authorization does, too; with them it holds both schemes. */
  lemma DirectorSetsAuthorization(c: MacaroonCodec<Macaroon>, h: Fields, fields: seq<(string, string)>)
    ensures Values(AddAll(Normalised(c, h), fields), AUTHORIZATION) ==
            match FromHeader(c, h)
            case None => Values(h, AUTHORIZATION) + ValuesIn(fields, AUTHORIZATION)
            case Some(cred) =>
              var text := Base64Encode(c.marshal(cred.mac)) + ":" + HexEncode(cred.preimage);
              ["LSAT " + text, "L402 " + text] + ValuesIn(fields, AUTHORIZATION)
  {
    AddAllAppends(Normalised(c, h), fields, AUTHORIZATION);
    if FromHeader(c, h).Some? {
      AuthValueText("LSAT ", c, FromHeader(c, h).value);
      AuthValueText("L402 ", c, FromHeader(c, h).value);
    }
  }

  lemma LastOfThree(c: MacaroonCodec<Macaroon>, h: Fields, first: string, second: string, own: seq<string>)
    requires Values(h, AUTHORIZATION) == [first, second] + own && first != ""
    ensures FromHeader(c, h) == ParseAuthorization(c, if own == [] then second else own[|own| - 1])
  {
    LastAuthorizationDecides(c, h);
  }

  /**
    A request with valid credentials reaches the backend with the same credentials, unless the
    service's configuration adds Authorization values of its own: then the last of those decides.
  */
  lemma DirectorForwards(c: MacaroonCodec<Macaroon>, h: Fields, fields: seq<(string, string)>)
    requires Lawful(c) && FromHeader(c, h).Some?
    ensures var own := ValuesIn(fields, AUTHORIZATION);
            FromHeader(c, AddAll(Normalised(c, h), fields)) ==
            if own == [] then FromHeader(c, h) else ParseAuthorization(c, own[|own| - 1])
  {
    var cred := FromHeader(c, h).value;
    var n, own := Normalised(c, h), ValuesIn(fields, AUTHORIZATION);
    AddAllAppends(n, fields, AUTHORIZATION);
    AuthValueIsNotEmpty("LSAT ", c, cred);
    ParseWhatIsWritten("L402 ", c, cred);
    LastOfThree(c, AddAll(n, fields), AuthValue("LSAT ", c, cred), AuthValue("L402 ", c, cred), own);
  }

  class Request {
    var header: Fields

    method SetHeader(c: MacaroonCodec<Macaroon>, cred: Credentials)
      modifies this
      ensures header == WithCredentials(c, old(header), cred)
    {
      header := header[AUTHORIZATION := [AuthValue("LSAT ", c, cred)]];
      header := Add(header, AUTHORIZATION, AuthValue("L402 ", c, cred));
      assert header[AUTHORIZATION] == [AuthValue("LSAT ", c, cred), AuthValue("L402 ", c, cred)];
    }

    method Direct(c: MacaroonCodec<Macaroon>, fields: seq<(string, string)>)
      modifies this
      ensures header == AddAll(Normalised(c, old(header)), fields)
    {
      var cred := FromHeader(c, header);
      if cred.Some? {
        SetHeader(c, cred.value);
      }
      ghost var base := header;
      for i := 0 to |fields|
        invariant header == AddAll(base, fields[..i])
      {
        assert fields[..i + 1][..i] == fields[..i];
        header := Add(header, fields[i].0, fields[i].1);
      }
      assert fields[..|fields|] == fields;
    }
  }

  // Paid macaroons.

  /** The base macaroon with the preimage added as its last caveat. */
  function PaidMacaroon(k: Crypto, t: Token<Macaroon>): Macaroon {
    AddCaveats(k, t.mac, [EncodeCaveat(Caveat(PREIMAGE_KEY, HexEncode(t.preimage)))])
  }

  lemma PaidMacaroonCaveats(k: Crypto, t: Token<Macaroon>)
    ensures PaidMacaroon(k, t).caveats == t.mac.caveats + [EncodeCaveat(Caveat(PREIMAGE_KEY, HexEncode(t.preimage)))]
    ensures LastValue(DecodeAll(PaidMacaroon(k, t).caveats), PREIMAGE_KEY) == Some(HexEncode(t.preimage))
  {
    var c := Caveat(PREIMAGE_KEY, HexEncode(t.preimage));
    var raw := [EncodeCaveat(c)];
    assert AddCaveats(k, t.mac, raw[..0]) == t.mac;
    Caveats.DecodeAfterEncode(c);
    var all := PaidMacaroon(k, t).caveats;
    assert all[..|all| - 1] == t.mac.caveats;
    assert DecodeAll(all) == DecodeAll(t.mac.caveats) + [c];
    LastValueAppend(DecodeAll(t.mac.caveats), [c], PREIMAGE_KEY);
  }

  /** The hex macaroon of a header: without an Authorization the first of its two fields that is there. */
  function HexHeader(h: Fields): string {
    if Get(h, AUTHORIZATION) != "" then ""
    else if Get(h, MACAROON_MD) != "" then Get(h, MACAROON_MD)
    else Get(h, MACAROON)
  }

  /** Sent as a hex header, in either field, it yields the token's preimage, whatever preimage caveats it had before. */
  lemma PaidMacaroonIsRead(c: MacaroonCodec<Macaroon>, k: Crypto, t: Token<Macaroon>, h: Fields)
    requires Lawful(c) && c.marshal(PaidMacaroon(k, t)) != []
    requires HexHeader(h) == HexEncode(c.marshal(PaidMacaroon(k, t)))
    ensures FromHeader(c, h) == Some(Credentials(PaidMacaroon(k, t), t.preimage))
  {
    HexRoundTrip(c.marshal(PaidMacaroon(k, t)));
    PaidMacaroonCaveats(k, t);
    PreimageRoundTrip(t.preimage);
  }
}
