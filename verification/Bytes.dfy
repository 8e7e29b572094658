/** Bytes, numbers laid out as bytes, and how sequences are put together. */
module Bytes {
  import opened Indices

  type byte = bv8

  /** The byte numbered n. */
  function ToByte(n: int): (b: byte)
    requires 0 <= n < 0x100
    ensures b as int == n
  {
    n as byte
  }

  lemma ByteRoundTrip(b: byte)
    ensures 0 <= b as int < 0x100
    ensures ToByte(b as int) == b
  {
  }

  /** n as w bytes, least significant first. */
  function Little(n: nat, w: nat): (s: seq<byte>)
    ensures |s| == w
  {
    if w == 0 then [] else [ToByte(n % 0x100)] + Little(n / 0x100, w - 1)
  }

  function FromLittle(s: seq<byte>): nat {
    if s == [] then 0 else (s[0] as int) + 0x100 * FromLittle(s[1..])
  }

  function Pow256(w: nat): nat {
    if w == 0 then 1 else 0x100 * Pow256(w - 1)
  }

  lemma {:induction false} LittleRoundTrip(n: nat, w: nat)
    requires n < Pow256(w)
    ensures FromLittle(Little(n, w)) == n
  {
    if w > 0 {
      LittleRoundTrip(n / 0x100, w - 1);
      assert Little(n, w)[1..] == Little(n / 0x100, w - 1);
    }
  }

  lemma {:induction false} FromLittleBound(s: seq<byte>)
    ensures FromLittle(s) < Pow256(|s|)
  {
    if s != [] {
      ByteRoundTrip(s[0]);
      FromLittleBound(s[1..]);
    }
  }

  lemma LastDigit(a: nat, f: nat)
    requires a < 0x100
    ensures (a + 0x100 * f) % 0x100 == a && (a + 0x100 * f) / 0x100 == f
  {
  }

  lemma LittleCons(b: byte, f: nat, w: nat)
    ensures Little(b as int + 0x100 * f, w + 1) == [b] + Little(f, w)
  {
    var n := b as int;
    ByteRoundTrip(b);
    LastDigit(n, f);
    LittleUnfolds(n + 0x100 * f, w + 1);
  }

  lemma LittleUnfolds(n: nat, w: nat)
    requires w > 0
    ensures Little(n, w) == [ToByte(n % 0x100)] + Little(n / 0x100, w - 1)
  {
  }

  lemma {:induction false} LittleInverse(s: seq<byte>)
    ensures Little(FromLittle(s), |s|) == s
  {
    if s != [] {
      LittleCons(s[0], FromLittle(s[1..]), |s| - 1);
      LittleInverse(s[1..]);
      assert s == [s[0]] + s[1..];
    }
  }

  /** Each byte holds its digit to base 256. */
  lemma {:induction false} LittleDigit(n: nat, w: nat, i: nat)
    requires i < w
    ensures Pow256(i) > 0 && Little(n, w)[i] as int == n / Pow256(i) % 0x100
  {
    if i > 0 {
      LittleDigit(n / 0x100, w - 1, i - 1);
      DivDiv(n, Pow256(i - 1));
    }
  }

  lemma DivDiv(n: nat, b: nat)
    requires b > 0
    ensures n / 0x100 / b == n / (0x100 * b)
  {
    var q := n / 0x100 / b;
    assert q * b <= n / 0x100 < (q + 1) * b by {
      assert n / 0x100 == q * b + n / 0x100 % b;
    }
    assert q * (0x100 * b) == 0x100 * (q * b) && (q + 1) * (0x100 * b) == 0x100 * ((q + 1) * b);
    QuotientIs(n, 0x100 * b, q);
  }

  function Reverse(s: seq<byte>): (r: seq<byte>)
    ensures |r| == |s|
    ensures forall i :: 0 <= i < |s| ==> r[i] == s[|s| - 1 - i]
  {
    seq(|s|, i requires 0 <= i < |s| => s[|s| - 1 - i])
  }

  /** n as w bytes, most significant first (network byte order). */
  function Big(n: nat, w: nat): (s: seq<byte>)
    ensures |s| == w
  {
    Reverse(Little(n, w))
  }

  function FromBig(s: seq<byte>): nat {
    FromLittle(Reverse(s))
  }

  /** Most significant first: the first byte holds the highest digit. */
  lemma BigDigit(n: nat, w: nat, i: nat)
    requires i < w
    ensures Pow256(w - 1 - i) > 0 && Big(n, w)[i] as int == n / Pow256(w - 1 - i) % 0x100
  {
    LittleDigit(n, w, w - 1 - i);
  }

  lemma BigRoundTrip(n: nat, w: nat)
    requires n < Pow256(w)
    ensures FromBig(Big(n, w)) == n
  {
    LittleRoundTrip(n, w);
    assert Reverse(Reverse(Little(n, w))) == Little(n, w);
  }

  lemma Assoc<T>(a: seq<T>, b: seq<T>, c: seq<T>)
    ensures a + (b + c) == (a + b) + c
    ensures a + [] == a && [] + a == a
  {
  }
}
