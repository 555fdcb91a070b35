/**
  The variable-length integer that delimits mailbox messages: lnd's `tlv` varint, the BigSize
  format of BOLT #1 ("Fundamental Types", Appendix A).
*/
module BigSize {
  import opened Bytes

  const MAX_UINT64: nat := 0xFFFF_FFFF_FFFF_FFFF

  datatype ReadResult = Value(value: nat, rest: Bytes) | Eof | UnexpectedEof | NotCanonical

  function Write(v: nat): (s: Bytes)
    requires v <= MAX_UINT64
    ensures 1 <= |s| <= 9
  {
    if v < 0xfd then [v]
    else if v <= 0xFFFF then [0xfd] + PutBigEndian(v, 2)
    else if v <= 0xFFFF_FFFF then [0xfe] + PutBigEndian(v, 4)
    else [0xff] + PutBigEndian(v, 8)
  }

  /** The smallest value whose canonical form starts with this discriminant. */
  function Smallest(width: nat): nat {
    if width == 2 then 0xfd else if width == 4 then 0x1_0000 else 0x1_0000_0000
  }

  function Read(s: Bytes): ReadResult {
    if s == [] then Eof
    else if s[0] < 0xfd then Value(s[0], s[1..])
    else
      var width := if s[0] == 0xfd then 2 else if s[0] == 0xfe then 4 else 8;
      if |s| < 1 + width then UnexpectedEof
      else
        var v := GetBigEndian(s[1..1 + width]);
        if v < Smallest(width) then NotCanonical else Value(v, s[1 + width..])
  }

  /** Reading inverts writing, whatever follows. */
  lemma ReadAfterWrite(v: nat, rest: Bytes)
    requires v <= MAX_UINT64
    ensures Read(Write(v) + rest) == Value(v, rest)
  {
    Capacities();
    var s := Write(v) + rest;
    if v < 0xfd {
      assert s[1..] == rest;
    } else {
      var width := |Write(v)| - 1;
      assert s[1..1 + width] == PutBigEndian(v, width);
      assert s[1 + width..] == rest;
      GetAfterPut(v, width);
    }
  }

  /** A value of `width` bytes that is not too small is written with that width. */
  lemma WriteOfWidth(v: nat, width: nat)
    requires width in {2, 4, 8}
    requires Smallest(width) <= v < Capacity(width)
    ensures v <= MAX_UINT64
    ensures Write(v) == [if width == 2 then 0xfd else if width == 4 then 0xfe else 0xff] + PutBigEndian(v, width)
  {
    Capacities();
  }

  /** The encoding is canonical: whatever reads as `v` is the one encoding of `v`. */
  lemma OnlyCanonicalFormsRead(s: Bytes)
    requires Read(s).Value?
    ensures Read(s).value <= MAX_UINT64
    ensures s == Write(Read(s).value) + Read(s).rest
  {
    if s[0] < 0xfd {
      assert s == [s[0]] + s[1..];
    } else {
      var width := if s[0] == 0xfd then 2 else if s[0] == 0xfe then 4 else 8;
      var digits := s[1..1 + width];
      PutAfterGet(digits);
      WriteOfWidth(GetBigEndian(digits), width);
      assert s == [s[0]] + digits + s[1 + width..];
    }
  }

  /** The form on the wire: one byte for small values, else a discriminant and a fixed big-endian width. */
  lemma WireForm(v: nat)
    requires v <= MAX_UINT64
    ensures v < 0xfd ==> Write(v) == [v]
    ensures 0xfd <= v < 0x1_0000 ==> |Write(v)| == 3 && Write(v)[0] == 0xfd
    ensures 0x1_0000 <= v < 0x1_0000_0000 ==> |Write(v)| == 5 && Write(v)[0] == 0xfe
    ensures 0x1_0000_0000 <= v ==> |Write(v)| == 9 && Write(v)[0] == 0xff
    ensures v >= 0xfd ==> GetBigEndian(Write(v)[1..]) == v
  {
    Capacities();
    if v >= 0xfd {
      var width := |Write(v)| - 1;
      assert Write(v)[1..] == PutBigEndian(v, width);
      GetAfterPut(v, width);
    }
  }
}
