/** The client's L402 token and its representation in a token file. */
module TokenCodec {
  import opened Bytes

  const HASH_SIZE: nat := 32

  type Hash = b: Bytes | |b| == HASH_SIZE witness Zeros(HASH_SIZE)

  const ZERO_PREIMAGE: Hash := Zeros(HASH_SIZE)

  /** How macaroons of type M are turned into bytes and back. */
  datatype MacaroonCodec<!M> = MacaroonCodec(marshal: M -> Bytes, unmarshal: Bytes -> Option<M>)

  ghost predicate Lawful<M(!new)>(c: MacaroonCodec<M>) {
    forall m :: c.unmarshal(c.marshal(m)) == Some(m)
  }

  datatype Token<+M> = Token(
    mac: M,
    paymentHash: Hash,
    preimage: Hash,
    amountPaid: Uint64,
    routingFeePaid: Uint64,
    created: Int64)
  {
    /** The payment is still in flight as long as the preimage is not known. */
    predicate IsPending()
      ensures IsPending() <==> forall i :: 0 <= i < HASH_SIZE ==> preimage[i] == 0
    {
      preimage == ZERO_PREIMAGE
    }
  }

  /** Two's complement of a signed 64-bit integer. */
  function ToUnsigned(n: Int64): Uint64 {
    if n >= 0 then n else n + 0x1_0000_0000_0000_0000
  }

  function ToSigned(n: Uint64): Int64 {
    if n < 0x8000_0000_0000_0000 then n else n - 0x1_0000_0000_0000_0000
  }

  function Tail<M>(t: Token<M>): (s: Bytes)
    ensures |s| == 2 * HASH_SIZE + 24
  {
    t.paymentHash + t.preimage + PutBigEndian(t.amountPaid, 8) + PutBigEndian(t.routingFeePaid, 8)
    + PutBigEndian(ToUnsigned(t.created), 8)
  }

  /** A macaroon length of 2^32 or more is truncated by the conversion to uint32. */
  function Serialize<M>(c: MacaroonCodec<M>, t: Token<M>): Bytes {
    var mac := c.marshal(t.mac);
    PutBigEndian(|mac| % 0x1_0000_0000, 4) + mac + Tail(t)
  }

  /** The fields behind the macaroon, or None when bytes are missing. */
  function ParseTail<M>(mac: M, s: Bytes): Option<Token<M>> {
    if |s| < 2 * HASH_SIZE + 24 then None
    else
      Capacities();
      PutAfterGet(s[64..72]);
      PutAfterGet(s[72..80]);
      PutAfterGet(s[80..88]);
      Some(Token(mac, s[..32], s[32..64], GetBigEndian(s[64..72]), GetBigEndian(s[72..80]),
                 ToSigned(GetBigEndian(s[80..88]))))
  }

  function Deserialize<M>(c: MacaroonCodec<M>, s: Bytes): Option<Token<M>> {
    if |s| < 4 then None
    else
      var macLen := GetBigEndian(s[..4]);
      if |s| < 4 + macLen + HASH_SIZE then None
      else
        match c.unmarshal(s[4..4 + macLen])
        case None => None
        case Some(mac) => ParseTail(mac, s[4 + macLen..])
  }

  lemma TailParses<M>(t: Token<M>, rest: Bytes)
    ensures ParseTail(t.mac, Tail(t) + rest) == Some(t)
  {
    var s := Tail(t) + rest;
    assert s[..32] == t.paymentHash && s[32..64] == t.preimage;
    assert s[64..72] == PutBigEndian(t.amountPaid, 8);
    assert s[72..80] == PutBigEndian(t.routingFeePaid, 8);
    assert s[80..88] == PutBigEndian(ToUnsigned(t.created), 8);
    Capacities();
    GetAfterPut(t.amountPaid, 8);
    GetAfterPut(t.routingFeePaid, 8);
    GetAfterPut(ToUnsigned(t.created), 8);
  }

  lemma Front(a: Bytes, b: Bytes)
    ensures (a + b)[..|a|] == a
  {
  }

  lemma MacLengthParses(len: nat, rest: Bytes)
    requires len < 0x1_0000_0000
    ensures GetBigEndian((PutBigEndian(len % 0x1_0000_0000, 4) + rest)[..4]) == len
  {
    assert len % 0x1_0000_0000 == len;
    Capacities();
    GetAfterPut(len, 4);
    Front(PutBigEndian(len, 4), rest);
  }

  lemma FiveParts(a: Bytes, b: Bytes, c: Bytes, d: Bytes, e: Bytes)
    requires |a| == 32 && |b| == 32 && |c| == 8 && |d| == 8 && |e| == 8
    ensures var s := a + b + c + d + e;
            s[..32] == a && s[32..64] == b && s[64..72] == c && s[72..80] == d && s[80..88] == e
  {
  }

  lemma TailLayout<M>(t: Token<M>)
    ensures var s := Tail(t);
            && s[..32] == t.paymentHash && s[32..64] == t.preimage
            && GetBigEndian(s[64..72]) == t.amountPaid
            && GetBigEndian(s[72..80]) == t.routingFeePaid
            && GetBigEndian(s[80..88]) == ToUnsigned(t.created)
  {
    FiveParts(t.paymentHash, t.preimage, PutBigEndian(t.amountPaid, 8), PutBigEndian(t.routingFeePaid, 8),
              PutBigEndian(ToUnsigned(t.created), 8));
    Capacities();
    GetAfterPut(t.amountPaid, 8);
    GetAfterPut(t.routingFeePaid, 8);
    GetAfterPut(ToUnsigned(t.created), 8);
  }

  lemma SlicesOfRest(s: Bytes, n: nat, rest: Bytes)
    requires n <= |s| && s[n..] == rest && |rest| == 88
    ensures s[n..n + 32] == rest[..32] && s[n + 32..n + 64] == rest[32..64] && s[n + 64..n + 72] == rest[64..72]
    ensures s[n + 72..n + 80] == rest[72..80] && s[n + 80..n + 88] == rest[80..88]
  {
  }

  /** Where the fields of a token file are: big-endian numbers at fixed places behind the macaroon. */
  lemma FileLayout<M>(c: MacaroonCodec<M>, t: Token<M>)
    requires |c.marshal(t.mac)| < 0x1_0000_0000
    ensures var s, n := Serialize(c, t), |c.marshal(t.mac)|;
            && |s| == 4 + n + 88
            && GetBigEndian(s[..4]) == n && s[4..4 + n] == c.marshal(t.mac)
            && s[4 + n..36 + n] == t.paymentHash && s[36 + n..68 + n] == t.preimage
            && GetBigEndian(s[68 + n..76 + n]) == t.amountPaid
            && GetBigEndian(s[76 + n..84 + n]) == t.routingFeePaid
            && GetBigEndian(s[84 + n..92 + n]) == ToUnsigned(t.created)
  {
    var mac, s := c.marshal(t.mac), Serialize(c, t);
    assert s == PutBigEndian(|mac| % 0x1_0000_0000, 4) + (mac + Tail(t));
    MacLengthParses(|mac|, mac + Tail(t));
    assert s[4..4 + |mac|] == mac && s[4 + |mac|..] == Tail(t);
    TailLayout(t);
    SlicesOfRest(s, 4 + |mac|, Tail(t));
  }

  /** A token read back is the token written, and bytes behind it do not matter. */
  lemma RoundTrip<M(!new)>(c: MacaroonCodec<M>, t: Token<M>, rest: Bytes)
    requires Lawful(c) && |c.marshal(t.mac)| < 0x1_0000_0000
    ensures Deserialize(c, Serialize(c, t) + rest) == Some(t)
  {
    var mac, s := c.marshal(t.mac), Serialize(c, t) + rest;
    assert s == PutBigEndian(|mac| % 0x1_0000_0000, 4) + (mac + Tail(t) + rest);
    MacLengthParses(|mac|, mac + Tail(t) + rest);
    assert s[4..4 + |mac|] == mac;
    assert s[4 + |mac|..] == Tail(t) + rest;
    TailParses(t, rest);
  }

  /** A file cut short anywhere does not read as a token, whatever the macaroon library accepts. */
  lemma StrictPrefixRejected<M>(c: MacaroonCodec<M>, t: Token<M>, k: nat)
    requires |c.marshal(t.mac)| < 0x1_0000_0000 && k < |Serialize(c, t)|
    ensures Deserialize(c, Serialize(c, t)[..k]) == None
  {
    var mac, s := c.marshal(t.mac), Serialize(c, t);
    if k >= 4 {
      assert s == PutBigEndian(|mac| % 0x1_0000_0000, 4) + (mac + Tail(t));
      MacLengthParses(|mac|, mac + Tail(t));
      assert s[..k][..4] == s[..4];
    }
  }

  lemma ReadBack<M(!new)>(c: MacaroonCodec<M>, t: Token<M>)
    requires Lawful(c) && |c.marshal(t.mac)| < 0x1_0000_0000
    ensures Deserialize(c, Serialize(c, t)) == Some(t)
  {
    RoundTrip(c, t, []);
    assert Serialize(c, t) + [] == Serialize(c, t);
  }

  // The same, field by field over a buffer.

  /** bytes.Reader as binary.Read uses it: a field is read whole or not at all. */
  class Reader {
    var rest: Bytes

    constructor (s: Bytes)
      ensures rest == s
    {
      rest := s;
    }

    /** One Read call: whatever is there up to `n` bytes, and EOF only when nothing is left. */
    method Read(n: nat) returns (field: Option<Bytes>)
      requires n > 0
      modifies this
      ensures field == if old(rest) == [] then None else Some(old(rest)[..Min(n, |old(rest)|)])
      ensures field.Some? ==> rest == old(rest)[Min(n, |old(rest)|)..]
    {
      if rest == [] {
        return None;
      }
      var k := Min(n, |rest|);
      field := Some(rest[..k]);
      rest := rest[k..];
    }

    method ReadFull(n: nat) returns (field: Option<Bytes>)
      modifies this
      ensures field == if n <= |old(rest)| then Some(old(rest)[..n]) else None
      ensures field.Some? ==> rest == old(rest)[n..]
    {
      if |rest| < n {
        return None;
      }
      field := Some(rest[..n]);
      rest := rest[n..];
    }
  }

  method ReadTail<M>(mac: M, paymentHash: Bytes, r: Reader, ghost s: Bytes) returns (t: Option<Token<M>>)
    requires HASH_SIZE <= |s| && paymentHash == s[..HASH_SIZE] && r.rest == s[HASH_SIZE..]
    modifies r
    ensures t == ParseTail(mac, s)
  {
    t := None;
    var preimage := r.ReadFull(HASH_SIZE);
    if preimage == None { return; }
    var amount := r.ReadFull(8);
    if amount == None { return; }
    var fee := r.ReadFull(8);
    if fee == None { return; }
    var nanos := r.ReadFull(8);
    if nanos == None { return; }
    Capacities();
    PutAfterGet(amount.value);
    PutAfterGet(fee.value);
    PutAfterGet(nanos.value);
    assert preimage.value == s[32..64] && amount.value == s[64..72];
    assert fee.value == s[72..80] && nanos.value == s[80..88];
    t := Some(Token(mac, paymentHash, preimage.value, GetBigEndian(amount.value), GetBigEndian(fee.value),
                    ToSigned(GetBigEndian(nanos.value))));
  }

  method DeserializeToken<M>(c: MacaroonCodec<M>, value: Bytes) returns (t: Option<Token<M>>)
    ensures t == Deserialize(c, value)
  {
    t := None;
    var r := new Reader(value);
    var field := r.ReadFull(4);
    if field == None { return; }
    var macLen := GetBigEndian(field.value);
    field := r.ReadFull(macLen);
    if field == None { return; }
    var macBytes := field.value;
    assert macBytes == value[4..4 + macLen] && r.rest == value[4 + macLen..];
    field := r.ReadFull(HASH_SIZE);
    if field == None { return; }
    var paymentHash := field.value;
    var mac := c.unmarshal(macBytes);
    if mac.None? { return; }
    t := ReadTail(mac.value, paymentHash, r, value[4 + macLen..]);
  }
}
