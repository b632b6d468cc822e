/** Machine words, big-endian words in the key-value store, and hexadecimal text. */
module Words {

  const TWO_64: int := 0x1_0000_0000_0000_0000

  type byte = x: int | 0 <= x < 256
  type u64 = x: int | 0 <= x < TWO_64
  type i64 = x: int | -0x8000_0000_0000_0000 <= x < 0x8000_0000_0000_0000

  datatype Option<+T> = None | Some(value: T)

  /** uint64 addition: the sum, less 2^64 when it does not fit. */
  function Add64(a: u64, b: u64): u64 {
    if a + b < TWO_64 then a + b else a + b - TWO_64
  }

  /** A count reduced to uint64: what is left after taking away 2^64 as often as possible. */
  function Wrap(n: nat): (r: u64)
    ensures n < TWO_64 ==> r == n
  {
    if n < TWO_64 then n else Wrap(n - TWO_64)
  }

  lemma {:induction false} WrapIsMod(n: nat)
    ensures Wrap(n) == n % TWO_64
  {
    if n >= TWO_64 {
      WrapIsMod(n - TWO_64);
    }
  }

  /** Adding in machine words is adding the counts and reducing once. */
  lemma {:induction false} WrapAdd(n: nat, v: u64)
    ensures Add64(Wrap(n), v) == Wrap(n + v)
  {
    if n >= TWO_64 {
      WrapAdd(n - TWO_64, v);
    } else if n + v >= TWO_64 {
      assert Wrap(n + v) == Wrap(n + v - TWO_64);
    }
  }

  /** The n low-order bytes of v, most significant first. */
  function BigEndian(n: nat, v: nat): (s: seq<byte>)
    ensures |s| == n
  {
    if n == 0 then [] else BigEndian(n - 1, v / 256) + [v % 256]
  }

  function FromBigEndian(s: seq<byte>): nat {
    if s == [] then 0 else FromBigEndian(s[..|s| - 1]) * 256 + s[|s| - 1]
  }

  function Pow256(n: nat): (p: nat)
    ensures p > 0
  {
    if n == 0 then 1 else 256 * Pow256(n - 1)
  }

  lemma {:induction false} BigEndianRoundTrip(n: nat, v: nat)
    requires v < Pow256(n)
    ensures FromBigEndian(BigEndian(n, v)) == v
  {
    if n == 0 {
    } else {
      BigEndianRoundTrip(n - 1, v / 256);
      var s := BigEndian(n, v);
      assert s[..n - 1] == BigEndian(n - 1, v / 256);
    }
  }

  /** Byte order: the first byte is the most significant one. */
  lemma {:induction false} BigEndianAt(n: nat, v: nat, i: nat)
    requires i < n && v < Pow256(n)
    ensures BigEndian(n, v)[i] == (v / Pow256(n - 1 - i)) % 256
  {
    if i < n - 1 {
      BigEndianAt(n - 1, v / 256, i);
      DivTwice(v, Pow256(n - 2 - i));
    }
  }

  lemma DivTwice(v: nat, k: nat)
    requires k > 0
    ensures (v / 256) / k == v / (256 * k)
  {
    var q, r := (v / 256) / k, (v / 256) % k;
    var low := v % 256;
    assert v / 256 == q * k + r && v == 256 * (v / 256) + low;
    assert 256 * (q * k + r) == q * (256 * k) + 256 * r;
    DivIs(v, q, 256 * r + low, 256 * k);
  }

  lemma DivIs(x: nat, q: nat, r: nat, k: nat)
    requires r < k && x == q * k + r
    ensures x / k == q && x % k == r
  {
    var p, t := x / k, x % k;
    assert x == p * k + t;
    if p > q {
      AtLeastOne(p, q, k);
    } else if p < q {
      AtLeastOne(q, p, k);
    }
  }

  lemma {:induction false} AtLeastOne(p: nat, q: nat, k: nat)
    requires p > q
    ensures p * k >= q * k + k
  {
    assert p * k == (p - 1) * k + k;
    if p - 1 > q {
      AtLeastOne(p - 1, q, k);
    }
  }

  /** A uint64 survives being written as eight big-endian bytes and read back. */
  lemma WordRoundTrip(v: u64)
    ensures FromBigEndian(BigEndian(8, v)) == v
  {
    assert Pow256(8) == TWO_64 by {
      assert Pow256(2) == 65536;
      assert Pow256(4) == 65536 * 65536;
      assert Pow256(6) == 65536 * 65536 * 65536;
    }
    BigEndianRoundTrip(8, v);
  }
}

module Hex {
  import opened Words

  predicate IsDigit(c: char) {
    '0' <= c <= '9' || 'a' <= c <= 'f' || 'A' <= c <= 'F'
  }

  function DigitValue(c: char): (v: byte)
    requires IsDigit(c)
    ensures v < 16
  {
    if c <= '9' then c as int - '0' as int
    else if c <= 'F' then c as int - 'A' as int + 10
    else c as int - 'a' as int + 10
  }

  function Digit(v: byte): (c: char)
    requires v < 16
    ensures IsDigit(c) && DigitValue(c) == v
  {
    if v < 10 then ('0' as int + v) as char else ('a' as int + v - 10) as char
  }

  /** hex.DecodeString: either letter case, and an error for odd length or a foreign character. */
  function Decode(s: string): Option<seq<byte>> {
    if |s| % 2 == 0 && forall i :: 0 <= i < |s| ==> IsDigit(s[i]) then
      Some(seq(|s| / 2, i requires 0 <= i < |s| / 2 => DigitValue(s[2 * i]) * 16 + DigitValue(s[2 * i + 1])))
    else
      None
  }

  /** hex.EncodeToString: always lower case. */
  function Encode(b: seq<byte>): (s: string)
    ensures |s| == 2 * |b|
  {
    seq(2 * |b|, i requires 0 <= i < 2 * |b| => Digit(if i % 2 == 0 then b[i / 2] / 16 else b[i / 2] % 16))
  }

  lemma EncodeAt(b: seq<byte>, i: nat)
    requires i < |b|
    ensures Encode(b)[2 * i] == Digit(b[i] / 16) && Encode(b)[2 * i + 1] == Digit(b[i] % 16)
  {
    assert (2 * i) % 2 == 0 && (2 * i) / 2 == i;
    assert (2 * i + 1) % 2 == 1 && (2 * i + 1) / 2 == i;
  }

  /** Decoding undoes encoding. */
  lemma DecodeEncode(b: seq<byte>)
    ensures Decode(Encode(b)) == Some(b)
  {
    var s := Encode(b);
    var d := Decode(s);
    assert |s| % 2 == 0 && |s| / 2 == |b|;
    assert d.Some?;
    forall i | 0 <= i < |b|
      ensures d.value[i] == b[i]
    {
      EncodeAt(b, i);
      assert b[i] / 16 * 16 + b[i] % 16 == b[i];
    }
    assert d.value == b;
  }

  predicate LowerCase(c: char) {
    '0' <= c <= '9' || 'a' <= c <= 'f'
  }

  /** The text is lower case, high half of each byte first. */
  lemma EncodeText(b: seq<byte>, i: nat)
    requires i < |b|
    ensures LowerCase(Encode(b)[2 * i]) && LowerCase(Encode(b)[2 * i + 1])
    ensures DigitValue(Encode(b)[2 * i]) == b[i] / 16 && DigitValue(Encode(b)[2 * i + 1]) == b[i] % 16
  {
    EncodeAt(b, i);
  }

  /** Distinct byte strings have distinct hexadecimal text. */
  lemma EncodeInjective(a: seq<byte>, b: seq<byte>)
    ensures Encode(a) == Encode(b) ==> a == b
  {
    DecodeEncode(a);
    DecodeEncode(b);
  }
}
