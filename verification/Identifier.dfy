/** The identifier of a macaroon: version, payment hash and token ID. */
module Identifier {
  import opened Bytes
  import opened TokenCodec

  const LATEST_VERSION: nat := 0

  type Uint16 = n: int | 0 <= n < 0x1_0000

  datatype Identifier = Identifier(version: Uint16, paymentHash: Hash, tokenId: Hash)

  function EncodeIdentifier(id: Identifier): Option<Bytes> {
    if id.version == LATEST_VERSION then Some(PutBigEndian(id.version, 2) + id.paymentHash + id.tokenId) else None
  }

  /** A short read fills the front of a zeroed array. */
  function Padded(s: Bytes): Hash
    requires |s| <= HASH_SIZE
  {
    s + Zeros(HASH_SIZE - |s|)
  }

  /** The hash and the token ID are read with one Read each: short ones are padded, not refused. */
  function DecodeIdentifier(s: Bytes): Option<Identifier> {
    if |s| < 2 then None
    else
      var version := GetBigEndian(s[..2]);
      if version != LATEST_VERSION || |s| <= 2 + HASH_SIZE then None
      else Some(Identifier(version, s[2..2 + HASH_SIZE], Padded(s[2 + HASH_SIZE..Min(|s|, 2 + 2 * HASH_SIZE)])))
  }

  lemma DecodeAfterEncodeIdentifier(id: Identifier, rest: Bytes)
    requires id.version == LATEST_VERSION
    ensures DecodeIdentifier(EncodeIdentifier(id).value + rest) == Some(id)
  {
    var s := EncodeIdentifier(id).value + rest;
    assert s[..2] == PutBigEndian(id.version, 2);
    Capacities();
    GetAfterPut(id.version, 2);
    assert s[2..34] == id.paymentHash && s[34..66] == id.tokenId;
    assert id.tokenId + [] == id.tokenId;
  }

  /** Exactly which byte strings are taken for identifiers. */
  lemma DecodeAccepts(s: Bytes)
    ensures DecodeIdentifier(s).Some? <==> |s| >= 35 && s[0] == 0 && s[1] == 0
  {
    if |s| >= 2 {
      assert s[..2][..1] == [s[0]];
      assert GetBigEndian(s[..2]) == GetBigEndian([s[0]]) * 256 + s[1];
      assert [s[0]][..0] == [];
      assert GetBigEndian([s[0]]) == s[0];
    }
  }

  /** An identifier cut inside its token ID still decodes, to the ID with zeros in their place. */
  lemma ShortIdentifierIsPadded(s: Bytes)
    requires DecodeIdentifier(s).Some? && |s| <= 66
    ensures DecodeIdentifier(s + Zeros(66 - |s|)) == DecodeIdentifier(s)
  {
    var t := s + Zeros(66 - |s|);
    assert t[..2] == s[..2] && t[2..34] == s[2..34];
    assert t[34..66] == Padded(s[34..|s|]);
    assert t[34..66] + [] == t[34..66];
  }

  method ReadIdentifier(s: Bytes) returns (id: Option<Identifier>)
    ensures id == DecodeIdentifier(s)
  {
    id := None;
    var r := new Reader(s);
    var field := r.ReadFull(2);
    if field == None { return; }
    var version := GetBigEndian(field.value);
    if version != LATEST_VERSION { return; }
    field := r.Read(HASH_SIZE);
    if field == None { return; }
    var paymentHash := field.value;
    field := r.Read(HASH_SIZE);
    if field == None { return; }
    assert paymentHash == s[2..34] && Padded(paymentHash) == paymentHash;
    assert field.value == s[34..Min(|s|, 66)];
    id := Some(Identifier(version, Padded(paymentHash), Padded(field.value)));
  }
}
