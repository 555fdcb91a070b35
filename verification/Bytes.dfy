/** Bytes, big-endian integers and the small result types shared by the other modules. */
module Bytes {

  type Byte = b: int | 0 <= b < 256

  type Bytes = seq<Byte>

  type Uint64 = n: int | 0 <= n < 0x1_0000_0000_0000_0000

  type Int64 = n: int | -0x8000_0000_0000_0000 <= n < 0x8000_0000_0000_0000

  /** What is left of an integer in 64-bit signed arithmetic. */
  function Wrap64(n: int): Int64 {
    var r := n % 0x1_0000_0000_0000_0000;
    if r < 0x8000_0000_0000_0000 then r else r - 0x1_0000_0000_0000_0000
  }

  /** It is the one number in range that differs from the integer by a multiple of 2^64. */
  lemma WrapExact(n: int, k: int)
    requires -0x8000_0000_0000_0000 <= n - k * 0x1_0000_0000_0000_0000 < 0x8000_0000_0000_0000
    ensures Wrap64(n) == n - k * 0x1_0000_0000_0000_0000
  {
    var m := 0x1_0000_0000_0000_0000;
    assert n % m == if n - k * m >= 0 then n - k * m else n - k * m + m;
  }

  datatype Option<+T> = None | Some(value: T)

  function Min(a: nat, b: nat): nat {
    if a <= b then a else b
  }

  lemma Concatenation<T>(a: seq<T>, b: seq<T>, c: seq<T>)
    ensures (a + b) + c == a + (b + c)
  {
  }

  lemma OneMore<T>(a: seq<T>, x: T)
    ensures (a + [x])[..|a|] == a && (a + [x])[|a|] == x
  {
  }

  lemma PrefixOneMore<T>(a: seq<T>, i: nat)
    requires i < |a|
    ensures a[..i + 1] == a[..i] + [a[i]]
  {
  }

  lemma LastApart<T>(a: seq<T>, n: nat)
    requires |a| == n + 1
    ensures a == a[..n] + [a[n]]
  {
  }

  /** The groups one after the other. */
  function Flatten<T>(groups: seq<seq<T>>): seq<T> {
    if groups == [] then [] else Flatten(groups[..|groups| - 1]) + groups[|groups| - 1]
  }

  lemma FlattenOneMore<T>(groups: seq<seq<T>>, g: seq<T>)
    ensures Flatten(groups + [g]) == Flatten(groups) + g
  {
    assert (groups + [g])[..|groups|] == groups;
  }

  function Zeros(n: nat): (s: Bytes)
    ensures |s| == n
    ensures forall i :: 0 <= i < n ==> s[i] == 0
  {
    if n == 0 then [] else Zeros(n - 1) + [0]
  }

  /** 256 to the power `width`: one more than the largest value `width` bytes can hold. */
  function Capacity(width: nat): (c: nat)
    ensures c >= 1
  {
    if width == 0 then 1 else 256 * Capacity(width - 1)
  }

  /** The low `width` bytes of `v`, most significant first. */
  function PutBigEndian(v: nat, width: nat): (s: Bytes)
    ensures |s| == width
  {
    if width == 0 then [] else PutBigEndian(v / 256, width - 1) + [v % 256]
  }

  function GetBigEndian(s: Bytes): nat {
    if s == [] then 0 else GetBigEndian(s[..|s| - 1]) * 256 + s[|s| - 1]
  }

  lemma {:induction false} GetAfterPut(v: nat, width: nat)
    requires v < Capacity(width)
    ensures GetBigEndian(PutBigEndian(v, width)) == v
  {
    if width > 0 {
      GetAfterPut(v / 256, width - 1);
      var s := PutBigEndian(v, width);
      assert s[..|s| - 1] == PutBigEndian(v / 256, width - 1);
    }
  }

  lemma {:induction false} PutAfterGet(s: Bytes)
    ensures GetBigEndian(s) < Capacity(|s|)
    ensures PutBigEndian(GetBigEndian(s), |s|) == s
  {
    if s != [] {
      PutAfterGet(s[..|s| - 1]);
      assert s == s[..|s| - 1] + [s[|s| - 1]];
    }
  }

  /** The capacities of the integer widths the formats use. */
  /** The first byte is the most significant one. */
  lemma {:induction false} MostSignificantFirst(a: Byte, rest: Bytes)
    ensures GetBigEndian([a] + rest) == a * Capacity(|rest|) + GetBigEndian(rest)
  {
    var s := [a] + rest;
    if rest == [] {
      assert s[..0] == [];
    } else {
      var n := |rest| - 1;
      MostSignificantFirst(a, rest[..n]);
      assert s[..n + 1] == [a] + rest[..n];
      assert a * (256 * Capacity(n)) == 256 * (a * Capacity(n));
    }
  }

  lemma Capacities()
    ensures Capacity(1) == 0x100
    ensures Capacity(2) == 0x10000
    ensures Capacity(4) == 0x1_0000_0000
    ensures Capacity(8) == 0x1_0000_0000_0000_0000
  {
    assert Capacity(3) == 0x100_0000;
    assert Capacity(6) == 256 * 256 * Capacity(4);
  }
}
