/** Byte strings shared by the components: overwriting in place, zero filling, and the
    big-endian fields of be_byteshift.h. */
module Bytes {
  type byte = bv8

  function Min(a: nat, b: nat): nat {
    if a < b then a else b
  }

  function Zeros(n: nat): (r: seq<byte>)
    ensures |r| == n
  {
    seq(n, _ => 0)
  }

  /** buffer with bytes written over it from position at on. */
  function Put(buffer: seq<byte>, at: nat, bytes: seq<byte>): (r: seq<byte>)
    requires at + |bytes| <= |buffer|
    ensures |r| == |buffer|
  {
    buffer[..at] + bytes + buffer[at + |bytes|..]
  }

  lemma PutPut(buffer: seq<byte>, at: nat, a: seq<byte>, b: seq<byte>)
    requires at + |a| + |b| <= |buffer|
    ensures Put(Put(buffer, at, a), at + |a|, b) == Put(buffer, at, a + b)
  {
  }

  function Pow256(k: nat): (r: nat)
    ensures r > 0
  {
    if k == 0 then 1 else 256 * Pow256(k - 1)
  }

  /** The byte of value d, counted up. */
  function AsByte(d: nat): (b: byte)
    requires d < 256
    ensures b as nat == d
  {
    if d == 0 then 0 else AsByte(d - 1) + 1
  }

  function LowByte(v: nat): (b: byte)
    ensures b as nat == v % 256
  {
    AsByte(v % 256)
  }

  /** put_unaligned_be16/24/32/64: the low k bytes of v, most significant first. */
  function PutBe(v: nat, k: nat): (r: seq<byte>)
    ensures |r| == k
  {
    if k == 0 then [] else PutBe(v / 256, k - 1) + [LowByte(v)]
  }

  /** get_unaligned_be16/24/32/64 */
  function GetBe(s: seq<byte>): nat {
    if s == [] then 0 else GetBe(s[..|s| - 1]) * 256 + s[|s| - 1] as nat
  }

  lemma GetSnoc(s: seq<byte>, b: byte)
    ensures GetBe(s + [b]) == GetBe(s) * 256 + b as nat
  {
    assert (s + [b])[..|s|] == s;
  }

  lemma GetLastByte(v: nat, k: nat)
    requires k > 0
    ensures GetBe(PutBe(v, k)) == GetBe(PutBe(v / 256, k - 1)) * 256 + v % 256
  {
    hide LowByte, GetBe;
    GetSnoc(PutBe(v / 256, k - 1), LowByte(v));
  }

  function Mod(v: nat, m: nat): nat
    requires m > 0
  {
    v % m
  }

  lemma ModOne(v: nat)
    ensures GetBe(PutBe(v, 0)) == Mod(v, 1)
  {
  }

  lemma MulStep(m: nat, a: nat, b: nat)
    requires a < b
    ensures m * a + m <= m * b
  {
    assert m * b == m * a + m * (b - a);
    assert m * (b - a) == m + m * (b - a - 1);
  }

  lemma ModUnique(v: nat, m: nat, q: nat, r: nat)
    requires m > 0 && r < m && v == m * q + r
    ensures v % m == r && v / m == q
  {
    var d := v / m;
    assert v == m * d + v % m;
    if d < q {
      MulStep(m, d, q);
    } else if d > q {
      MulStep(m, q, d);
    }
  }

  lemma DigitSplit(v: nat, p: nat)
    requires p > 0
    ensures Mod(v, 256 * p) == Mod(v / 256, p) * 256 + v % 256
  {
    var q, r := v / 256 / p, v / 256 % p;
    assert v / 256 == p * q + r;
    var low := r * 256 + v % 256;
    assert v == 256 * p * q + low by {
      assert v == 256 * (v / 256) + v % 256;
      assert 256 * (p * q + r) == 256 * p * q + 256 * r;
    }
    ModUnique(v, 256 * p, q, low);
  }

  /** A field of k bytes gives back every value that fits in it, and the remainder of one
      that does not. */
  lemma {:induction false} GetPut(v: nat, k: nat)
    ensures GetBe(PutBe(v, k)) == Mod(v, Pow256(k))
  {
    hide Mod, PutBe, GetBe;
    if k == 0 {
      ModOne(v);
    } else {
      GetPut(v / 256, k - 1);
      GetLastByte(v, k);
      DigitSplit(v, Pow256(k - 1));
    }
  }

  lemma SameByte(a: byte, b: byte)
    requires a as nat == b as nat
    ensures a == b
  {
  }

  lemma LowOf(v: nat, b: byte)
    ensures (v * 256 + b as nat) / 256 == v && LowByte(v * 256 + b as nat) == b
  {
    ModUnique(v * 256 + b as nat, 256, v, b as nat);
    SameByte(LowByte(v * 256 + b as nat), b);
  }

  /** And every k bytes are the field of some value. */
  lemma {:induction false} PutGet(s: seq<byte>)
    ensures PutBe(GetBe(s), |s|) == s
  {
    hide LowByte;
    if s != [] {
      var front, b := s[..|s| - 1], s[|s| - 1];
      PutGet(front);
      LowOf(GetBe(front), b);
      assert s == front + [b];
    }
  }

  lemma {:induction false} GetBeBound(s: seq<byte>)
    ensures GetBe(s) < Pow256(|s|)
  {
    if s != [] {
      GetBeBound(s[..|s| - 1]);
    }
  }

  lemma DivTwice(v: nat, p: nat)
    requires p > 0
    ensures v / 256 / p == v / (256 * p)
  {
    var q, r := v / 256 / p, v / 256 % p;
    assert v / 256 == p * q + r;
    var low := r * 256 + v % 256;
    assert v == 256 * p * q + low by {
      assert v == 256 * (v / 256) + v % 256;
      assert 256 * (p * q + r) == 256 * p * q + 256 * r;
    }
    ModUnique(v, 256 * p, q, low);
  }

  /** Position i of a field of k bytes holds digit k - 1 - i of the value in base 256. */
  lemma {:induction false} BeDigit(v: nat, k: nat, i: nat)
    requires i < k
    ensures PutBe(v, k)[i] as nat == v / Pow256(k - 1 - i) % 256
    decreases k
  {
    if i == k - 1 {
      assert Pow256(0) == 1;
    } else {
      BeDigit(v / 256, k - 1, i);
      DivTwice(v, Pow256(k - 2 - i));
      assert Pow256(k - 1 - i) == 256 * Pow256(k - 2 - i);
    }
  }
}
