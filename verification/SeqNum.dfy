/** 31-bit wrapping sequence numbers (lab2/src/util.c). The source computes in
    uint32_t, which wraps modulo 2^32, and then keeps the low 31 bits. */
module SeqNum {

  const TWO_31 := 0x8000_0000
  const TWO_32 := 0x1_0000_0000

  type uint32 = x: int | 0 <= x < 0x1_0000_0000
  type seqnum = x: int | 0 <= x < 0x8000_0000

  function Low31(x: int): seqnum {
    x % TWO_31
  }

  function SeqnumAdd(s: uint32, n: int): seqnum {
    Low31((s + n) % TWO_32)
  }

  function SqnDis(l: uint32, r: uint32): seqnum {
    Low31((r - l) % TWO_32)
  }

  lemma Low31Is(x: int)
    ensures Low31(x) == x - (x / TWO_31) * TWO_31
  {
  }

  lemma Low31Unique(x: int, r: seqnum, q: int)
    requires x - r == q * TWO_31
    ensures Low31(x) == r
  {
    Low31Is(x);
    assert (x / TWO_31 - q) * TWO_31 == r - Low31(x);
  }

  /** Masking a number that has wrapped at 2^32 loses nothing below 2^31. */
  lemma Low31AfterWrap(x: int)
    ensures Low31(x % TWO_32) == Low31(x)
  {
    Low31Is(x % TWO_32);
    Low31Unique(x, Low31(x % TWO_32), 2 * (x / TWO_32) + (x % TWO_32) / TWO_31);
  }

  predicate SeqnumIsIn(s: uint32, l: uint32, r: uint32) {
    if l < r then l <= s && s < r else l <= s || s < r
  }

  lemma AddAdd(s: uint32, a: int, b: int)
    ensures SeqnumAdd(SeqnumAdd(s, a), b) == SeqnumAdd(s, a + b)
  {
    Low31AfterWrap(s + a);
    Low31AfterWrap(s + a + b);
    Low31AfterWrap(SeqnumAdd(s, a) + b);
    Low31Is(s + a);
    Low31Is(s + a + b);
    Low31Unique(SeqnumAdd(s, a) + b, SeqnumAdd(s, a + b), (s + a + b) / TWO_31 - (s + a) / TWO_31);
  }

  lemma AddOfDis(l: seqnum, r: seqnum)
    ensures SeqnumAdd(l, SqnDis(l, r)) == r
  {
    Low31AfterWrap(r - l);
    Low31AfterWrap(l + SqnDis(l, r));
    Low31Is(r - l);
    Low31Unique(l + SqnDis(l, r), r, -((r - l) / TWO_31));
  }

  lemma DisOfAdd(l: seqnum, n: int)
    ensures SqnDis(l, SeqnumAdd(l, n)) == Low31(n)
  {
    Low31AfterWrap(l + n);
    Low31AfterWrap(SeqnumAdd(l, n) - l);
    Low31Is(l + n);
    Low31Is(n);
    Low31Unique(SeqnumAdd(l, n) - l, Low31(n), n / TWO_31 - (l + n) / TWO_31);
  }

  /** Moving along the ring and measuring along it are inverse to each other. */
  lemma AddDisInverse(l: seqnum, r: seqnum, n: int)
    ensures SeqnumAdd(l, SqnDis(l, r)) == r
    ensures SqnDis(l, SeqnumAdd(l, n)) == Low31(n)
    ensures 0 <= n < TWO_31 ==> Low31(n) == n
  {
    AddOfDis(l, r);
    DisOfAdd(l, n);
  }

  lemma AddMoves(l: seqnum, n: int)
    requires 0 < n < TWO_31
    ensures SeqnumAdd(l, n) != l && SeqnumAdd(l, -n) != l
  {
    Low31AfterWrap(l + n);
    Low31AfterWrap(l - n);
    Low31Is(l + n);
    Low31Is(l - n);
  }

  lemma DisAfterAdd(l: seqnum, r: seqnum, n: nat)
    requires n <= SqnDis(l, r)
    ensures SqnDis(SeqnumAdd(l, n), r) == SqnDis(l, r) - n
  {
    AddDisInverse(l, r, 0);
    AddAdd(l, n, SqnDis(l, r) - n);
    AddDisInverse(SeqnumAdd(l, n), r, SqnDis(l, r) - n);
  }

  /** The ring interval law: membership in [l, r) is a comparison of distances
      from l, except that an empty interval is read as the whole ring. */
  lemma IsInByDistance(s: seqnum, l: seqnum, r: seqnum)
    ensures l != r ==> (SeqnumIsIn(s, l, r) <==> SqnDis(l, s) < SqnDis(l, r))
    ensures l == r ==> SeqnumIsIn(s, l, r)
  {
    Low31AfterWrap(s - l);
    Low31AfterWrap(r - l);
    Low31Unique(s - l, if l <= s then s - l else s - l + TWO_31, if l <= s then 0 else -1);
    Low31Unique(r - l, if l <= r then r - l else r - l + TWO_31, if l <= r then 0 else -1);
  }

  /** An unbounded packet index k, carried as a number on the ring of a
      connection whose first data packet has number start. */
  function At(start: seqnum, k: int): seqnum {
    SeqnumAdd(start, k)
  }

  lemma AtAdd(start: seqnum, i: int, n: int)
    ensures SeqnumAdd(At(start, i), n) == At(start, i + n)
    ensures At(start, i + TWO_31) == At(start, i)
  {
    AddAdd(start, i, n);
    Low31AfterWrap(start + i);
    Low31AfterWrap(start + i + TWO_31);
    Low31Is(start + i);
    Low31Unique(start + i + TWO_31, At(start, i), (start + i) / TWO_31 + 1);
  }

  lemma AtDis(start: seqnum, i: int, j: int)
    requires 0 <= j - i < TWO_31
    ensures SqnDis(At(start, i), At(start, j)) == j - i
  {
    AtAdd(start, i, j - i);
    AddDisInverse(At(start, i), 0, j - i);
  }

  lemma AtInjective(start: seqnum, i: int, j: int)
    requires -TWO_31 < j - i < TWO_31
    ensures At(start, i) == At(start, j) <==> i == j
  {
    if i <= j {
      AtDis(start, i, j);
    } else {
      AtDis(start, j, i);
    }
  }

  /** A window test made on the ring is the test on indices, provided the index
      is less than a turn above the lower end and at most a turn below the upper. */
  lemma IsInByIndex(start: seqnum, k: int, lo: int, hi: int)
    requires 0 < hi - lo < TWO_31
    requires hi - TWO_31 <= k < lo + TWO_31
    ensures At(start, lo) != At(start, hi)
    ensures SeqnumIsIn(At(start, k), At(start, lo), At(start, hi)) <==> lo <= k < hi
  {
    AtInjective(start, lo, hi);
    AtDis(start, lo, hi);
    IsInByDistance(At(start, k), At(start, lo), At(start, hi));
    if lo <= k {
      AtDis(start, lo, k);
    } else {
      AtDis(start, lo, k + TWO_31);
      AtAdd(start, k, TWO_31);
    }
  }

  /** The bound is exact: one index further out on either side is misread. */
  lemma IsInByIndexIsTight(start: seqnum, lo: int, hi: int)
    requires 0 < hi - lo < TWO_31
    ensures SeqnumIsIn(At(start, hi - TWO_31 - 1), At(start, lo), At(start, hi))
    ensures SeqnumIsIn(At(start, lo + TWO_31), At(start, lo), At(start, hi))
  {
    IsInByIndex(start, hi - 1, lo, hi);
    IsInByIndex(start, lo, lo, hi);
    AtAdd(start, hi - TWO_31 - 1, 0);
    AtAdd(start, lo, 0);
  }

  /** Numerical order on the ring numbers of a batch tells whether the batch
      crosses the point where numbers start again from 0. */
  lemma AtOrder(start: seqnum, i: int, j: int)
    requires 0 <= i < j < i + TWO_31
    ensures At(start, i) < At(start, j) <==> At(start, i) + (j - i) < TWO_31
    ensures At(start, i) < At(start, j) ==> At(start, j) == At(start, i) + (j - i)
  {
    AtAdd(start, i, j - i);
    AddSmall(At(start, i), j - i);
  }

  lemma AddSmall(s: seqnum, n: nat)
    requires n < TWO_31
    ensures SeqnumAdd(s, n) == if s + n < TWO_31 then s + n else s + n - TWO_31
  {
    Low31AfterWrap(s + n);
    if s + n < TWO_31 {
      Low31Unique(s + n, s + n, 0);
    } else {
      Low31Unique(s + n, s + n - TWO_31, 1);
    }
  }
}
