/** The string operations of Go's strings and strconv packages that caveats rely on. */
module Text {
  import opened Bytes

  /** The position of the first `sep`. */
  function IndexOf(s: string, sep: char): (i: nat)
    requires sep in s
    ensures i < |s| && s[i] == sep && sep !in s[..i]
  {
    if s[0] == sep then 0
    else
      var i := 1 + IndexOf(s[1..], sep);
      assert s[..i] == [s[0]] + s[1..][..i - 1];
      i
  }

  lemma {:induction false} IndexOfIsFirst(s: string, sep: char, i: nat)
    requires i < |s| && s[i] == sep && sep !in s[..i]
    ensures IndexOf(s, sep) == i
  {
    if i > 0 {
      assert s[..i][0] == s[0] && s[1..][..i - 1] == s[..i][1..];
      IndexOfIsFirst(s[1..], sep, i - 1);
    }
  }

  /** strings.Split with a one-character separator: always at least one part. */
  function Split(s: string, sep: char): (parts: seq<string>)
    ensures parts != []
    decreases |s|
  {
    if sep !in s then [s] else var i := IndexOf(s, sep); [s[..i]] + Split(s[i + 1..], sep)
  }

  function Join(parts: seq<string>, sep: char): string
    requires parts != []
  {
    if |parts| == 1 then parts[0] else parts[0] + [sep] + Join(parts[1..], sep)
  }

  lemma SplitAtFirst(head: string, sep: char, tail: string)
    requires sep !in head
    ensures Split(head + [sep] + tail, sep) == [head] + Split(tail, sep)
  {
    var s, n := head + [sep] + tail, |head|;
    assert s[n] == sep && s[..n] == head && s[n + 1..] == tail;
    IndexOfIsFirst(s, sep, n);
  }

  /** Splitting undoes joining when no part contains the separator. */
  lemma {:induction false} SplitAfterJoin(parts: seq<string>, sep: char)
    requires parts != [] && forall i :: 0 <= i < |parts| ==> sep !in parts[i]
    ensures Split(Join(parts, sep), sep) == parts
    decreases |parts|
  {
    if |parts| > 1 {
      SplitAtFirst(parts[0], sep, Join(parts[1..], sep));
      SplitAfterJoin(parts[1..], sep);
      assert parts == [parts[0]] + parts[1..];
    }
  }

  lemma SplitTwice(a: string, rest: string, sep: char, tail: string)
    requires sep !in a
    ensures |Split((a + [sep] + rest) + [sep] + tail, sep)| == 1 + |Split(rest + [sep] + tail, sep)|
    ensures |Split(a + [sep] + rest, sep)| == 1 + |Split(rest, sep)|
  {
    SplitAtFirst(a, sep, rest);
    SplitAtFirst(a, sep, rest + [sep] + tail);
    assert (a + [sep] + rest) + [sep] + tail == a + [sep] + (rest + [sep] + tail);
  }

  lemma AroundIndex(s: string, sep: char)
    requires sep in s
    ensures s == s[..IndexOf(s, sep)] + [sep] + s[IndexOf(s, sep) + 1..]
  {
  }

  lemma {:induction false} SplitConcat(head: string, sep: char, tail: string)
    ensures |Split(head + [sep] + tail, sep)| == |Split(head, sep)| + |Split(tail, sep)|
    decreases |head|
  {
    if sep !in head {
      SplitAtFirst(head, sep, tail);
    } else {
      AroundIndex(head, sep);
      var i := IndexOf(head, sep);
      SplitTwice(head[..i], head[i + 1..], sep, tail);
      SplitConcat(head[i + 1..], sep, tail);
    }
  }

  /** Splitting gives at least the parts that were joined, and more if one contains the separator. */
  lemma {:induction false} SplitJoinLength(parts: seq<string>, sep: char)
    requires parts != []
    ensures |Split(Join(parts, sep), sep)| >= |parts|
    ensures |Split(Join(parts, sep), sep)| == |parts| ==> forall i :: 0 <= i < |parts| ==> sep !in parts[i]
    decreases |parts|
  {
    if |parts| > 1 {
      SplitConcat(parts[0], sep, Join(parts[1..], sep));
      SplitJoinLength(parts[1..], sep);
      assert forall i :: 1 <= i < |parts| ==> parts[i] == parts[1..][i - 1];
    }
  }

  // Decimal integers.

  predicate IsDigit(c: char) {
    '0' <= c <= '9'
  }

  function DigitOf(d: nat): char
    requires d < 10
  {
    ('0' as int + d) as char
  }

  function FormatNat(n: nat): (s: string)
    ensures s != [] && forall i :: 0 <= i < |s| ==> IsDigit(s[i])
  {
    if n < 10 then [DigitOf(n)] else FormatNat(n / 10) + [DigitOf(n % 10)]
  }

  function FormatInt(n: int): string {
    if n < 0 then "-" + FormatNat(-n) else FormatNat(n)
  }

  function ParseDigits(s: string): Option<nat> {
    if s == [] || !IsDigit(s[|s| - 1]) then None
    else
      var d := s[|s| - 1] as int - '0' as int;
      if |s| == 1 then Some(d)
      else
        match ParseDigits(s[..|s| - 1])
        case None => None
        case Some(n) => Some(10 * n + d)
  }

  /** strconv.ParseInt(s, 10, 64): an optional sign, digits, and a value in range. */
  function ParseInt64(s: string): Option<Int64> {
    if s == [] then None
    else
      var signed := s[0] == '+' || s[0] == '-';
      match ParseDigits(if signed then s[1..] else s)
      case None => None
      case Some(n) =>
        var v: int := if s[0] == '-' then 0 - n else n;
        if -0x8000_0000_0000_0000 <= v < 0x8000_0000_0000_0000 then Some(v) else None
  }

  lemma {:induction false} ParseAfterFormatNat(n: nat)
    ensures ParseDigits(FormatNat(n)) == Some(n)
  {
    if n >= 10 {
      ParseAfterFormatNat(n / 10);
      var s := FormatNat(n);
      assert s[..|s| - 1] == FormatNat(n / 10);
    }
  }

  lemma ParseUnsigned(n: Int64)
    requires n >= 0
    ensures ParseInt64(FormatNat(n)) == Some(n)
  {
    ParseAfterFormatNat(n);
    assert IsDigit(FormatNat(n)[0]);
  }

  lemma ParseNegative(m: nat)
    requires 0 < m <= 0x8000_0000_0000_0000
    ensures ParseInt64("-" + FormatNat(m)) == Some(0 - m)
  {
    ParseAfterFormatNat(m);
    assert ("-" + FormatNat(m))[1..] == FormatNat(m);
  }

  /** Every 64-bit integer survives formatting and parsing. */
  lemma ParseAfterFormat(n: Int64)
    ensures ParseInt64(FormatInt(n)) == Some(n)
  {
    var m: int := n;
    if m < 0 {
      ParseNegative(0 - m);
    } else {
      ParseUnsigned(n);
    }
  }

  /** A number contains nothing but digits and a sign. */
  lemma FormatIntHasNo(n: int, c: char)
    requires !IsDigit(c) && c != '-'
    ensures c !in FormatInt(n)
  {
  }

  /** A plus sign is read over, and what does not fit in 64 bits is refused. */
  lemma ParseSignAndRange(n: nat)
    ensures ParseInt64("+" + FormatNat(n)) == ParseInt64(FormatNat(n))
    ensures ParseInt64(FormatNat(n)) == if n < 0x8000_0000_0000_0000 then Some(n) else None
  {
    ParseAfterFormatNat(n);
    assert IsDigit(FormatNat(n)[0]);
    assert ("+" + FormatNat(n))[1..] == FormatNat(n);
  }

  /** Decimal, the most significant digit first. */
  lemma FormatExamples()
    ensures FormatInt(0) == "0" && FormatInt(120) == "120" && FormatInt(-42) == "-42"
  {
    assert FormatNat(1) == "1" && FormatNat(12) == "12" && FormatNat(120) == "120";
    assert FormatNat(4) == "4" && FormatNat(42) == "42";
  }
}
