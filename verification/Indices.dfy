/** Sets of packet indices, and division. */
module Indices {

  function Below(m: nat): (s: set<nat>)
    ensures forall k :: k in s <==> 0 <= k < m
  {
    if m == 0 then {} else Below(m - 1) + {m - 1}
  }

  lemma {:induction false} BelowSize(m: nat)
    ensures |Below(m)| == m
  {
    if m > 0 {
      BelowSize(m - 1);
    }
  }

  lemma SubsetSize<T>(a: set<T>, b: set<T>)
    requires a <= b
    ensures |a| <= |b|
    ensures a != b ==> |a| < |b|
  {
    var rest := b - a;
    assert b == a + rest;
    if a != b {
      assert rest != {};
    }
  }

  lemma QuotientIs(x: nat, w: nat, q: nat)
    requires w >= 1 && q * w <= x < (q + 1) * w
    ensures x / w == q
  {
    assert x == (x / w) * w + x % w;
    SmallMultiple(x / w - q, w);
  }

  lemma SmallMultiple(a: int, w: int)
    requires w >= 0
    ensures -w < a * w < w ==> a == 0
  {
  }
}
