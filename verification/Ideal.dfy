/** Reliable transfer stated on unbounded packet indices: no ring numbers, no
    window arrays, no buffer. Both ends are sets of indices, and a window is the
    stretch of wsize indices that begins at the first index missing from a set.

    This is the protocol that lab2/src/sender.c and lab2/src/receiver.c mean to
    run; module Refinement shows that they do. */
module Ideal {
  import opened Indices

  /** n packets, sent in batches of wsize; sr is Selective Repeat, else Go-Back-N. */
  datatype Params = Params(n: nat, wsize: nat, sr: bool)

  /** Packets below next have been sent, and any of them may arrive at any time,
      any number of times or never. acks holds every acknowledgement ever sent:
      of one packet in Selective Repeat, of all packets before it in Go-Back-N. */
  datatype State = State(next: nat, acked: set<nat>, got: set<nat>, acks: set<nat>, open: bool)

  datatype Event = Fill | SenderIdle | Ack(m: nat) | ReceiverIdle | Data(k: nat) | Stop

  function GapFrom(s: set<nat>, i: nat, n: nat): (g: nat)
    requires i <= n
    ensures i <= g <= n
    ensures forall k :: i <= k < g ==> k in s
    ensures g < n ==> g !in s
    decreases n - i
  {
    if i < n && i in s then GapFrom(s, i + 1, n) else i
  }

  /** The first index below n that is not in s, or n. */
  function Gap(s: set<nat>, n: nat): (g: nat)
    ensures g <= n
    ensures forall k :: 0 <= k < g ==> k in s
    ensures g < n ==> g !in s
  {
    GapFrom(s, 0, n)
  }

  lemma GapIs(s: set<nat>, n: nat, g: nat)
    requires g <= n
    requires forall k :: 0 <= k < g ==> k in s
    requires g < n ==> g !in s
    ensures Gap(s, n) == g
  {
  }

  lemma GapAtMost(s: set<nat>, n: nat, x: nat)
    ensures x !in s ==> Gap(s, n) <= x
  {
  }

  lemma GapGrows(s: set<nat>, t: set<nat>, n: nat)
    requires s <= t
    ensures Gap(s, n) <= Gap(t, n)
  {
  }

  function SBase(p: Params, a: State): nat {
    Gap(a.acked, p.n)
  }

  function RBase(p: Params, a: State): nat {
    Gap(a.got, p.n)
  }

  function Min(a: int, b: int): int {
    if a < b then a else b
  }

  const INIT := State(0, {}, {}, {}, true)

  /** Whether the receiver stores packet k when it arrives. */
  predicate Stores(p: Params, a: State, k: nat) {
    var b := RBase(p, a);
    if p.sr then b <= k < b + p.wsize else k == b
  }

  /** The acknowledgements it answers with. Selective Repeat also acknowledges
      the window before its base again; Go-Back-N answers every packet. */
  function Reply(p: Params, a: State, k: nat): seq<nat> {
    var b := RBase(p, a);
    if p.sr then (if b - p.wsize <= k < b + p.wsize then [k] else [])
    else if k == b then [b + 1]
    else [b]
  }

  predicate Enabled(p: Params, a: State, e: Event) {
    match e
    case Fill => SBase(p, a) == a.next < p.n
    case SenderIdle => SBase(p, a) < a.next
    case Ack(m) => SBase(p, a) < a.next && m in a.acks
    case ReceiverIdle => a.open
    case Stop => a.open
    case Data(k) => a.open && k < a.next
  }

  function Step(p: Params, a: State, e: Event): State {
    match e
    case Fill => a.(next := Min(p.n, a.next + p.wsize))
    case SenderIdle => a
    case ReceiverIdle => a
    case Stop => a.(open := false)
    case Ack(m) =>
      if p.sr then
        if SBase(p, a) <= m < a.next then a.(acked := a.acked + {m}) else a
      else
        if SBase(p, a) < m <= a.next then a.(acked := a.acked + Below(m)) else a
    case Data(k) =>
      a.(got := if Stores(p, a, k) then a.got + {k} else a.got,
         acks := a.acks + (set m | m in Reply(p, a, k)))
  }

  predicate Legal(p: Params, a: State, es: seq<Event>)
    decreases es
  {
    es == [] || (Enabled(p, a, es[0]) && Legal(p, Step(p, a, es[0]), es[1..]))
  }

  function Run(p: Params, a: State, es: seq<Event>): State
    decreases es
  {
    if es == [] then a else Run(p, Step(p, a, es[0]), es[1..])
  }

  // ---- The joint invariant ----

  /** What the two ends know about each other. Every packet the sender counts as
      acknowledged is stored; everything stored has been sent; at most one window
      is outstanding; an acknowledgement in flight speaks the truth. */
  predicate Inv(p: Params, a: State) {
    && p.wsize >= 1
    && a.acked <= a.got
    && (forall k :: k in a.got ==> k < a.next)
    && SBase(p, a) <= a.next <= p.n
    && a.next <= SBase(p, a) + p.wsize
    && (p.sr ==> a.acks <= a.got)
    && (!p.sr ==>
        && (forall m :: m in a.acks ==> m <= RBase(p, a))
        && (forall k :: k in a.got ==> k < RBase(p, a))
        && (forall k :: k in a.acked ==> k < SBase(p, a)))
  }

  /** The receiver is never behind the sender's base nor ahead of what was sent. */
  lemma BasesOrdered(p: Params, a: State)
    requires Inv(p, a)
    ensures SBase(p, a) <= RBase(p, a) <= a.next
  {
    GapGrows(a.acked, a.got, p.n);
    GapAtMost(a.got, p.n, a.next);
  }

  lemma AckKeepsInv(p: Params, a: State, m: nat)
    requires Inv(p, a) && Enabled(p, a, Ack(m))
    ensures Inv(p, Step(p, a, Ack(m)))
  {
    var b := Step(p, a, Ack(m));
    BasesOrdered(p, a);
    GapGrows(a.acked, b.acked, p.n);
    GapAtMost(b.acked, p.n, b.next);
    if !p.sr && SBase(p, a) < m <= a.next {
      assert b.acked <= b.got;
      GapIs(b.acked, p.n, m);
    }
  }

  lemma DataKeepsInv(p: Params, a: State, k: nat)
    requires Inv(p, a) && Enabled(p, a, Data(k))
    ensures Inv(p, Step(p, a, Data(k)))
  {
    var b := Step(p, a, Data(k));
    BasesOrdered(p, a);
    GapGrows(a.got, b.got, p.n);
    if !p.sr && k == RBase(p, a) {
      GapIs(b.got, p.n, k + 1);
    }
  }

  lemma StepKeepsInv(p: Params, a: State, e: Event)
    requires Inv(p, a) && Enabled(p, a, e)
    ensures Inv(p, Step(p, a, e))
  {
    match e {
      case Ack(m) => AckKeepsInv(p, a, m);
      case Data(k) => DataKeepsInv(p, a, k);
      case _ =>
    }
  }

  lemma {:induction false} RunKeepsInv(p: Params, a: State, es: seq<Event>)
    requires Inv(p, a) && Legal(p, a, es)
    ensures Inv(p, Run(p, a, es))
    decreases es
  {
    if es != [] {
      StepKeepsInv(p, a, es[0]);
      RunKeepsInv(p, Step(p, a, es[0]), es[1..]);
    }
  }

  lemma InitInv(p: Params)
    requires p.wsize >= 1
    ensures Inv(p, INIT)
  {
  }

  /** A sender that has finished leaves a receiver that has everything. */
  lemma FinishedMeansStored(p: Params, a: State)
    requires Inv(p, a) && SBase(p, a) == p.n
    ensures a.got == Below(p.n) && a.next == p.n
  {
    BasesOrdered(p, a);
    assert forall k :: k in a.got <==> k in Below(p.n);
  }

  /** In Go-Back-N the receiver holds exactly a prefix of the packets. */
  lemma GoBackNPrefix(p: Params, a: State)
    requires Inv(p, a) && !p.sr
    ensures a.got == Below(RBase(p, a)) && a.acked == Below(SBase(p, a))
    ensures forall m :: m in a.acks ==> Below(m) <= a.got
  {
    assert forall k :: k in a.got <==> k in Below(RBase(p, a));
    assert forall k :: k in a.acked <==> k in Below(SBase(p, a));
  }

  // ---- Batches ----

  /** The current batch is number b, counting from 0, and is the only one not
      yet acknowledged in full. */
  predicate InBatch(p: Params, a: State, b: nat) {
    a.next == Min(p.n, (b + 1) * p.wsize) && b * p.wsize <= SBase(p, a)
  }

  ghost predicate Batched(p: Params, a: State) {
    a.next == 0 || exists b: nat :: InBatch(p, a, b)
  }

  lemma StepKeepsBatched(p: Params, a: State, e: Event)
    requires Inv(p, a) && Batched(p, a) && Enabled(p, a, e)
    ensures Batched(p, Step(p, a, e))
  {
    var a' := Step(p, a, e);
    if a.next == 0 {
      assert InBatch(p, a', 0) || a'.next == 0;
    } else {
      var b: nat :| InBatch(p, a, b);
      GapGrows(a.acked, a'.acked, p.n);
      if e.Fill? {
        assert (b + 2) * p.wsize == (b + 1) * p.wsize + p.wsize;
        assert InBatch(p, a', b + 1);
      } else {
        assert InBatch(p, a', b);
      }
    }
  }

  /** A batch is only ever started at a multiple of the window size, and until
      it is acknowledged in full everything up to its end has been sent. */
  lemma BatchBounds(p: Params, a: State)
    requires Inv(p, a) && Batched(p, a)
    ensures SBase(p, a) == a.next < p.n ==> a.next % p.wsize == 0
    ensures SBase(p, a) < a.next ==> a.next == Min(p.n, (SBase(p, a) / p.wsize + 1) * p.wsize)
  {
    if a.next != 0 {
      var b: nat :| InBatch(p, a, b);
      if SBase(p, a) < a.next {
        QuotientIs(SBase(p, a), p.wsize, b);
      } else if a.next < p.n {
        MultipleHasNoRest(b + 1, p.wsize);
      }
    }
  }

  lemma MultipleHasNoRest(q: nat, w: nat)
    requires w >= 1
    ensures (q * w) % w == 0
  {
    QuotientIs(q * w, w, q);
    assert (q * w) % w == q * w - ((q * w) / w) * w;
  }

  // ---- What is in flight ----

  /** Everything stored has been acknowledged at least once: in Go-Back-N by an
      acknowledgement of all of it. */
  predicate Answered(p: Params, a: State) {
    if p.sr then a.got <= a.acks else RBase(p, a) == 0 || RBase(p, a) in a.acks
  }

  lemma StepKeepsAnswered(p: Params, a: State, e: Event)
    requires Inv(p, a) && Answered(p, a) && Enabled(p, a, e)
    ensures Answered(p, Step(p, a, e))
  {
    if e.Data? && !p.sr && e.k == RBase(p, a) {
      BasesOrdered(p, a);
      GapIs(a.got + {e.k}, p.n, e.k + 1);
    }
  }

  // ---- Progress ----

  lemma AckedAtMostAll(p: Params, a: State)
    requires Inv(p, a)
    ensures |a.acked| <= p.n
  {
    BelowSize(p.n);
    assert a.acked <= Below(p.n);
    SubsetSize(a.acked, Below(p.n));
  }

  /** The number of unacknowledged packets: an acknowledgement changes the sender
      exactly when it lowers it, in Selective Repeat by exactly one. */
  lemma AckProgress(p: Params, a: State, m: nat)
    requires Inv(p, a) && Enabled(p, a, Ack(m))
    ensures var b := Step(p, a, Ack(m));
      && |a.acked| <= |b.acked| <= p.n
      && (b != a <==> |b.acked| > |a.acked|)
      && (p.sr ==> (b != a <==> m !in a.acked) && (b != a ==> |b.acked| == |a.acked| + 1))
      && (!p.sr ==> (b != a <==> m > SBase(p, a)) && (b != a ==> SBase(p, b) == m))
  {
    var b := Step(p, a, Ack(m));
    StepKeepsInv(p, a, Ack(m));
    BasesOrdered(p, a);
    SubsetSize(a.acked, b.acked);
    AckedAtMostAll(p, b);
    if p.sr && m !in a.acked {
      assert m >= SBase(p, a);
    }
    if !p.sr && m > SBase(p, a) {
      assert m - 1 in b.acked && m - 1 !in a.acked;
      GapIs(b.acked, p.n, m);
    }
  }

  // ---- One round without loss ----

  /** The packets that a timeout sends again, from index i on. */
  function Pending(p: Params, a: State, i: nat): (ks: seq<nat>)
    decreases a.next - i
  {
    if i >= a.next then []
    else (if p.sr && i in a.acked then [] else [i]) + Pending(p, a, i + 1)
  }

  function DataEvents(ks: seq<nat>): (es: seq<Event>)
    ensures |es| == |ks|
  {
    if ks == [] then [] else [Data(ks[0])] + DataEvents(ks[1..])
  }

  function AckEvents(ms: seq<nat>): (es: seq<Event>)
    ensures |es| == |ms|
  {
    if ms == [] then [] else [Ack(ms[0])] + AckEvents(ms[1..])
  }

  /** What the receiver answers to the packets ks arriving in this order. */
  function Replies(p: Params, a: State, ks: seq<nat>): seq<nat>
    decreases ks
  {
    if ks == [] then [] else Reply(p, a, ks[0]) + Replies(p, Step(p, a, Data(ks[0])), ks[1..])
  }

  /** How many of the acknowledgements ms the sender takes before its base has
      caught up with what it sent, so that it stops waiting. */
  function Taken(p: Params, a: State, ms: seq<nat>): (j: nat)
    ensures j <= |ms|
    decreases ms
  {
    if ms == [] || SBase(p, a) >= a.next then 0 else 1 + Taken(p, Step(p, a, Ack(ms[0])), ms[1..])
  }

  lemma {:induction false} PendingIs(p: Params, a: State, i: nat)
    ensures forall k :: k in Pending(p, a, i) ==> i <= k < a.next
    ensures forall k :: i <= k < a.next && (p.sr ==> k !in a.acked) ==> k in Pending(p, a, i)
    ensures !p.sr && i < a.next ==> Pending(p, a, i) == [i] + Pending(p, a, i + 1)
    decreases a.next - i
  {
    if i < a.next {
      PendingIs(p, a, i + 1);
    }
  }

  /** What is answered is in flight afterwards. */
  lemma {:induction false} RepliesInFlight(p: Params, a: State, ks: seq<nat>)
    ensures forall m :: m in a.acks || m in Replies(p, a, ks) ==> m in Run(p, a, DataEvents(ks)).acks
    decreases ks
  {
    if ks != [] {
      assert DataEvents(ks)[1..] == DataEvents(ks[1..]);
      RepliesInFlight(p, Step(p, a, Data(ks[0])), ks[1..]);
    }
  }

  /** Selective Repeat: whatever outstanding packets arrive, each is answered
      with its own acknowledgement. */
  lemma {:induction false} RepliesSelective(p: Params, a: State, ks: seq<nat>)
    requires Inv(p, a) && p.sr && a.open
    requires forall k :: k in ks ==> SBase(p, a) <= k < a.next
    ensures Legal(p, a, DataEvents(ks)) && Replies(p, a, ks) == ks
    ensures var b := Run(p, a, DataEvents(ks));
      Inv(p, b) && b == a.(got := b.got, acks := b.acks)
    decreases ks
  {
    if ks != [] {
      var k := ks[0];
      assert k in ks;
      BasesOrdered(p, a);
      StepKeepsInv(p, a, Data(k));
      assert forall x :: x in ks[1..] ==> x in ks;
      RepliesSelective(p, Step(p, a, Data(k)), ks[1..]);
      assert ks == [k] + ks[1..];
      assert DataEvents(ks)[1..] == DataEvents(ks[1..]);
    }
  }

  /** Go-Back-N: when everything from i on arrives in order, and the receiver is
      not behind i, its last answer acknowledges all that was sent. */
  lemma {:induction false} RepliesGoBackN(p: Params, a: State, i: nat)
    requires Inv(p, a) && !p.sr && a.open && i <= RBase(p, a)
    ensures var ks := Pending(p, a, i);
            var ms, b := Replies(p, a, ks), Run(p, a, DataEvents(ks));
      && Legal(p, a, DataEvents(ks))
      && (i < a.next ==> ms != [] && ms[|ms| - 1] == a.next)
      && Inv(p, b) && b == a.(got := b.got, acks := b.acks)
    decreases a.next - i
  {
    if i < a.next {
      NextArrives(p, a, i);
      PendingUnfolds(p, a, i);
      RepliesGoBackN(p, Step(p, a, Data(i)), i + 1);
    }
  }

  lemma PendingUnfolds(p: Params, a: State, i: nat)
    requires !p.sr && i < a.next
    ensures var ks, a' := Pending(p, a, i), Step(p, a, Data(i));
            var es, rest := DataEvents(ks), Pending(p, a', i + 1);
      && es != [] && es[0] == Data(i) && es[1..] == DataEvents(rest)
      && Replies(p, a, ks) == Reply(p, a, i) + Replies(p, a', rest)
  {
    var ks, a' := Pending(p, a, i), Step(p, a, Data(i));
    PendingIs(p, a, i);
    SamePending(p, a, a', i + 1);
    assert ks[1..] == Pending(p, a', i + 1);
    assert DataEvents(ks)[1..] == DataEvents(ks[1..]);
  }

  lemma NextArrives(p: Params, a: State, i: nat)
    requires Inv(p, a) && !p.sr && a.open && i <= RBase(p, a) && i < a.next
    ensures var a' := Step(p, a, Data(i));
      && Inv(p, a') && a' == a.(got := a'.got, acks := a'.acks)
      && i + 1 <= RBase(p, a') <= a.next
      && Reply(p, a, i) == [RBase(p, a')]
  {
    var a' := Step(p, a, Data(i));
    DataKeepsInv(p, a, i);
    BasesOrdered(p, a');
    if i == RBase(p, a) {
      GapIs(a'.got, p.n, i + 1);
    }
  }

  lemma {:induction false} SamePending(p: Params, a: State, b: State, i: nat)
    requires a.next == b.next && a.acked == b.acked
    ensures Pending(p, a, i) == Pending(p, b, i)
    decreases a.next - i
  {
    if i < a.next {
      SamePending(p, a, b, i + 1);
    }
  }

  /** Acknowledgements that cover everything outstanding, in any order. */
  lemma {:induction false} AcksSelective(p: Params, a: State, ms: seq<nat>)
    requires Inv(p, a) && p.sr
    requires forall m :: m in ms ==> m in a.acks
    requires forall k :: SBase(p, a) <= k < a.next && k !in a.acked ==> k in ms
    ensures var es := AckEvents(ms[..Taken(p, a, ms)]);
      Legal(p, a, es) && SBase(p, Run(p, a, es)) == a.next && Run(p, a, es).next == a.next
    decreases ms
  {
    if ms != [] && SBase(p, a) < a.next {
      var a' := Step(p, a, Ack(ms[0]));
      StepKeepsInv(p, a, Ack(ms[0]));
      GapGrows(a.acked, a'.acked, p.n);
      AcksSelective(p, a', ms[1..]);
      TakeOne(p, a, ms);
    }
  }

  lemma TakeOne(p: Params, a: State, ms: seq<nat>)
    requires ms != [] && SBase(p, a) < a.next
    ensures var es := AckEvents(ms[..Taken(p, a, ms)]);
            var a' := Step(p, a, Ack(ms[0]));
      es != [] && es[0] == Ack(ms[0]) && es[1..] == AckEvents(ms[1..][..Taken(p, a', ms[1..])])
  {
    var j := Taken(p, a, ms);
    assert ms[..j][1..] == ms[1..][..j - 1];
  }

  lemma {:induction false} AcksGoBackN(p: Params, a: State, ms: seq<nat>)
    requires Inv(p, a) && !p.sr
    requires forall m :: m in ms ==> m in a.acks
    requires SBase(p, a) == a.next || (ms != [] && ms[|ms| - 1] == a.next)
    ensures var es := AckEvents(ms[..Taken(p, a, ms)]);
      Legal(p, a, es) && SBase(p, Run(p, a, es)) == a.next && Run(p, a, es).next == a.next
    decreases ms
  {
    if SBase(p, a) < a.next {
      var a' := Step(p, a, Ack(ms[0]));
      StepKeepsInv(p, a, Ack(ms[0]));
      if ms[0] > SBase(p, a) {
        BasesOrdered(p, a);
        GapIs(a'.acked, p.n, ms[0]);
      }
      AcksGoBackN(p, a', ms[1..]);
      TakeOne(p, a, ms);
    }
  }

  /** From any state with something outstanding and the receiver still there,
      one loss-free exchange of the pending packets and of the answers to them
      brings the sender's base up to everything it has sent. */
  lemma RoundDrains(p: Params, a: State)
    requires Inv(p, a) && a.open && SBase(p, a) < a.next
    ensures var ks := Pending(p, a, SBase(p, a));
            var b := Run(p, a, DataEvents(ks));
            var es := AckEvents(Replies(p, a, ks)[..Taken(p, b, Replies(p, a, ks))]);
      && Legal(p, a, DataEvents(ks)) && Legal(p, b, es)
      && Inv(p, b) && b == a.(got := b.got, acks := b.acks)
      && SBase(p, Run(p, b, es)) == Run(p, b, es).next == a.next
  {
    var ks := Pending(p, a, SBase(p, a));
    PendingIs(p, a, SBase(p, a));
    BasesOrdered(p, a);
    RepliesInFlight(p, a, ks);
    if p.sr {
      RepliesSelective(p, a, ks);
      AcksSelective(p, Run(p, a, DataEvents(ks)), ks);
    } else {
      RepliesGoBackN(p, a, SBase(p, a));
      AcksGoBackN(p, Run(p, a, DataEvents(ks)), Replies(p, a, ks));
    }
  }
}
