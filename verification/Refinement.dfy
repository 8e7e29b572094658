/** The transfer loops with their 31-bit numbers, windows, buffer and lengths
    make, step for step, the moves of the ideal protocol. */
module Refinement {
  import opened Bytes
  import opened SeqNum
  import opened Segments
  import opened Window
  import opened Wire
  import opened Protocol
  import I = Ideal

  function Par(cfg: Config): I.Params {
    I.Params(cfg.N(), cfg.wsize, cfg.sr)
  }

  // ---- The concrete form of an ideal state ----

  function WindowOf(s: set<nat>, base: nat, wsize: nat): (w: seq<bool>)
    ensures |w| == wsize
    ensures forall i :: 0 <= i < wsize ==> (w[i] <==> base + i in s)
  {
    seq(wsize, i requires 0 <= i => base + i in s)
  }

  function DataPacket(cfg: Config, k: nat): (p: Packet)
    requires k < cfg.N()
    ensures p.flags == 0
  {
    Numbered(cfg, At(cfg.start, k), k)
  }

  function AckPacket(cfg: Config, m: nat): (p: Packet)
    ensures p.flags == RTP_ACK
  {
    AckOf(At(cfg.start, m))
  }

  function DataSet(cfg: Config, m: nat): (ps: set<Packet>)
    requires m <= cfg.N()
    ensures forall p :: p in ps <==> exists k :: 0 <= k < m && p == DataPacket(cfg, k)
  {
    set k | 0 <= k < m :: DataPacket(cfg, k)
  }

  function AckSet(cfg: Config, ms: set<nat>): (ps: set<Packet>)
    ensures forall p :: p in ps <==> exists m :: m in ms && p == AckPacket(cfg, m)
  {
    set m | m in ms :: AckPacket(cfg, m)
  }

  function SenderOf(cfg: Config, a: I.State): Sender {
    var base := I.SBase(Par(cfg), a);
    Sender(At(cfg.start, a.next), At(cfg.start, base), base, WindowOf(a.acked, base, cfg.wsize))
  }

  function ReceiverAt(cfg: Config, got: set<nat>, open: bool): Receiver
    requires forall k :: k in got ==> k < cfg.N()
  {
    var base := I.Gap(got, cfg.N());
    var buf, fsize := Placed(cfg.file, cfg.buf0, got), EndOf(cfg.file, got, cfg.N());
    if cfg.sr then
      Receiver(cfg.start, At(cfg.start, base), base, WindowOf(got, base, cfg.wsize), buf, fsize, open)
    else
      Receiver(At(cfg.start, base), cfg.start, base, Unmarked(cfg.wsize), buf, fsize, open)
  }

  function ReceiverOf(cfg: Config, a: I.State): Receiver
    requires forall k :: k in a.got ==> k < cfg.N()
  {
    ReceiverAt(cfg, a.got, a.open)
  }

  function Conc(cfg: Config, a: I.State): World
    requires I.Inv(Par(cfg), a)
  {
    World(SenderOf(cfg, a), ReceiverOf(cfg, a), DataSet(cfg, a.next), AckSet(cfg, a.acks))
  }

  /** Which events stand for which. */
  predicate Matches(cfg: Config, ie: I.Event, e: Event) {
    match ie
    case Fill => e == SenderFills
    case SenderIdle => e.SenderReceives? && !(e.r.Verified? && e.r.packet.flags == RTP_ACK)
    case Ack(m) => e == SenderReceives(Verified(AckPacket(cfg, m)))
    case ReceiverIdle => e.ReceiverReceives? && !EndsTransfer(e.r) && !IsData(e.r)
    case Stop => e.ReceiverReceives? && EndsTransfer(e.r)
    case Data(k) => k < cfg.N() && e == ReceiverReceives(Verified(DataPacket(cfg, k)))
  }

  lemma InitIsConc(cfg: Config)
    requires cfg.Typed()
    ensures I.Inv(Par(cfg), I.INIT) && Init(cfg) == Conc(cfg, I.INIT)
  {
    I.InitInv(Par(cfg));
    assert At(cfg.start, 0) == cfg.start by {
      Low31Unique(cfg.start, cfg.start, 0);
    }
    assert WindowOf({}, 0, cfg.wsize) == Unmarked(cfg.wsize);
    assert Placed(cfg.file, cfg.buf0, {}) == cfg.buf0;
    EndOfNothing(cfg.file, cfg.N());
    assert DataSet(cfg, 0) == {} && AckSet(cfg, {}) == {};
  }

  lemma {:induction false} EndOfNothing(file: seq<byte>, m: nat)
    ensures EndOf(file, {}, m) == 0
  {
    if m > 0 {
      EndOfNothing(file, m - 1);
    }
  }

  // ---- Windows ----

  lemma WindowShape(s: set<nat>, wsize: nat, base: nat, g: nat, top: nat)
    requires forall i :: i in s ==> i < top
    requires base <= g <= top <= base + wsize
    requires forall k :: base <= k < g ==> k in s
    requires g < top ==> g !in s
    ensures LeadingRun(WindowOf(s, base, wsize)) == g - base
    ensures Slide(WindowOf(s, base, wsize), g - base) == WindowOf(s, g, wsize)
  {
    LeadingRunIs(WindowOf(s, base, wsize), g - base);
  }

  lemma WindowMarked(s: set<nat>, wsize: nat, base: nat, k: nat)
    requires base <= k < base + wsize
    ensures WindowOf(s, base, wsize)[k - base := true] == WindowOf(s + {k}, base, wsize)
  {
  }

  /** Setting a mark and sliding the window is adding an index and moving on to
      the next index missing. */
  lemma WindowAdvances(s: set<nat>, n: nat, wsize: nat, top: nat, k: nat)
    requires forall i :: i in s ==> i < top
    requires I.Gap(s, n) <= k < top <= n && top <= I.Gap(s, n) + wsize
    ensures var base, g := I.Gap(s, n), I.Gap(s + {k}, n);
      && base <= g
      && Advance(WindowOf(s, base, wsize), k - base) == g - base
      && Updated(WindowOf(s, base, wsize), k - base) == WindowOf(s + {k}, g, wsize)
  {
    var base, g := I.Gap(s, n), I.Gap(s + {k}, n);
    GapShape(s, n, top, k);
    WindowMarked(s, wsize, base, k);
    AdvanceIs(WindowOf(s, base, wsize), k - base, WindowOf(s + {k}, base, wsize));
    WindowShape(s + {k}, wsize, base, g, top);
  }

  lemma GapShape(s: set<nat>, n: nat, top: nat, k: nat)
    requires forall i :: i in s ==> i < top
    requires I.Gap(s, n) <= k < top <= n
    ensures var base, g := I.Gap(s, n), I.Gap(s + {k}, n);
      && base <= g <= top
      && (forall i :: base <= i < g ==> i in s + {k})
      && (g < top ==> g !in s + {k})
      && forall i :: i in s + {k} ==> i < top
  {
    I.GapGrows(s, s + {k}, n);
    I.GapAtMost(s + {k}, n, top);
  }

  /** The same for the variables that go with the window. */
  lemma SlidSquare(cfg: Config, got: set<nat>, top: nat, k: nat)
    requires cfg.Typed() && forall i :: i in got ==> i < top
    requires var base := I.Gap(got, cfg.N());
      base <= k < top <= cfg.N() && top <= base + cfg.wsize
    ensures var base, g := I.Gap(got, cfg.N()), I.Gap(got + {k}, cfg.N());
            var mov := Advance(WindowOf(got, base, cfg.wsize), k - base);
      && base + mov == g
      && SeqnumAdd(At(cfg.start, base), mov) == At(cfg.start, g)
      && Updated(WindowOf(got, base, cfg.wsize), k - base) == WindowOf(got + {k}, g, cfg.wsize)
  {
    var base, g := I.Gap(got, cfg.N()), I.Gap(got + {k}, cfg.N());
    WindowAdvances(got, cfg.N(), cfg.wsize, top, k);
    AtAdd(cfg.start, base, g - base);
  }

  lemma NoWindow(s: set<nat>, base: nat, wsize: nat)
    requires forall i :: i in s ==> i < base
    ensures WindowOf(s, base, wsize) == Unmarked(wsize)
  {
  }

  // ---- Sender ----

  /** The sender's numbers and marks are always within its bounds. */
  lemma SenderOfOk(cfg: Config, a: I.State)
    requires cfg.Typed() && I.Inv(Par(cfg), a)
    ensures SenderOk(cfg, SenderOf(cfg, a))
    ensures var s, base := SenderOf(cfg, a), I.SBase(Par(cfg), a);
      && SqnDis(s.wbase, s.sqn) == a.next - base
      && (s.wbase == s.sqn <==> base == a.next)
      && (s.shift < cfg.N() <==> base < cfg.N())
  {
    var base := I.SBase(Par(cfg), a);
    AtDis(cfg.start, base, a.next);
    AtInjective(cfg.start, base, a.next);
    AtDis(cfg.start, base, base);
  }

  lemma FreshIs(cfg: Config, a: I.State)
    requires cfg.Typed() && I.Inv(Par(cfg), a) && I.SBase(Par(cfg), a) == a.next
    ensures var ps := Fresh(cfg, SenderOf(cfg, a));
      && |ps| == I.Min(cfg.N(), a.next + cfg.wsize) - a.next
      && forall i :: 0 <= i < |ps| ==> ps[i] == DataPacket(cfg, a.next + i)
  {
    var s := SenderOf(cfg, a);
    forall i | 0 <= i < FillCount(cfg, s)
      ensures SeqnumAdd(s.sqn, i) == At(cfg.start, a.next + i)
    {
      AtAdd(cfg.start, a.next, i);
    }
  }

  lemma FillSquare(cfg: Config, a: I.State)
    requires cfg.Typed() && I.Inv(Par(cfg), a) && I.Enabled(Par(cfg), a, I.Fill)
    ensures var b := I.Step(Par(cfg), a, I.Fill);
      && AfterFill(cfg, SenderOf(cfg, a)) == SenderOf(cfg, b)
      && b.next <= cfg.N()
      && DataSet(cfg, a.next) + Elements(Fresh(cfg, SenderOf(cfg, a))) == DataSet(cfg, b.next)
  {
    var b := I.Step(Par(cfg), a, I.Fill);
    var ps := Fresh(cfg, SenderOf(cfg, a));
    FreshIs(cfg, a);
    AtAdd(cfg.start, a.next, FillCount(cfg, SenderOf(cfg, a)));
    forall p ensures p in DataSet(cfg, a.next) + Elements(ps) <==> p in DataSet(cfg, b.next) {
      if p in Elements(ps) {
        var i :| 0 <= i < |ps| && ps[i] == p;
        assert p == DataPacket(cfg, a.next + i);
      }
      if p in DataSet(cfg, b.next) {
        var k :| 0 <= k < b.next && p == DataPacket(cfg, k);
        if k >= a.next {
          assert ps[k - a.next] == p;
        }
      }
    }
  }

  function DataPackets(cfg: Config, ks: seq<nat>): (ps: seq<Packet>)
    requires forall k :: k in ks ==> k < cfg.N()
    ensures |ps| == |ks| && forall i :: 0 <= i < |ks| ==> ks[i] in ks && ps[i] == DataPacket(cfg, ks[i])
  {
    seq(|ks|, i requires 0 <= i < |ks| => assert ks[i] in ks; DataPacket(cfg, ks[i]))
  }

  /** What a resending sender s knows of the ideal state a. */
  predicate Resends(cfg: Config, a: I.State, s: Sender) {
    && SenderOk(cfg, s) && s.shift <= a.next <= cfg.N()
    && s.wbase == At(cfg.start, s.shift) && s.sqn == At(cfg.start, a.next)
    && s.wbase < s.sqn && a.next - s.shift < TWO_31
    && forall i :: 0 <= i < |s.window| ==> (s.window[i] <==> s.shift + i in a.acked)
  }

  lemma ResendGuard(cfg: Config, a: I.State, s: Sender, i: nat)
    requires Resends(cfg, a, s) && s.shift + i <= a.next
    ensures s.wbase + i <= s.sqn
    ensures SeqnumAdd(s.wbase, i) == At(cfg.start, s.shift + i)
    ensures SeqnumAdd(s.wbase, i) < s.sqn <==> s.shift + i < a.next
  {
    if s.shift < a.next {
      AtOrder(cfg.start, s.shift, a.next);
    }
    AtAdd(cfg.start, s.shift, i);
    AddSmall(s.wbase, i);
  }

  lemma ResendOne(cfg: Config, a: I.State, s: Sender, i: nat, rest: seq<nat>)
    requires Resends(cfg, a, s) && s.shift + i < a.next
    requires forall k :: k in rest ==> k < cfg.N()
    requires s.wbase + i + 1 <= s.sqn && Resend(cfg, s, i + 1) == DataPackets(cfg, rest)
    ensures var k := s.shift + i;
            var ks := (if cfg.sr && k in a.acked then [] else [k]) + rest;
      && s.wbase + i <= s.sqn
      && (forall k :: k in ks ==> k < cfg.N())
      && Resend(cfg, s, i) == DataPackets(cfg, ks)
  {
    var k := s.shift + i;
    var first := if cfg.sr && k in a.acked then [] else [k];
    ResendGuard(cfg, a, s, i);
    ResendInBounds(cfg, s, i);
    assert DataPackets(cfg, first) == if cfg.sr && s.window[i] then [] else [Numbered(cfg, SeqnumAdd(s.wbase, i), k)];
    DataPacketsConcat(cfg, first, rest);
  }

  lemma {:induction false} ResendFrom(cfg: Config, a: I.State, s: Sender, i: nat)
    requires Resends(cfg, a, s) && s.shift + i <= a.next
    ensures s.wbase + i <= s.sqn
    ensures var ks := I.Pending(Par(cfg), a, s.shift + i);
      && (forall k :: k in ks ==> k < cfg.N())
      && Resend(cfg, s, i) == DataPackets(cfg, ks)
    decreases a.next - i
  {
    ResendGuard(cfg, a, s, i);
    if s.shift + i < a.next {
      ResendFrom(cfg, a, s, i + 1);
      ResendOne(cfg, a, s, i, I.Pending(Par(cfg), a, s.shift + i + 1));
    }
  }

  /** If the batch does not cross the end of the ring, a timeout sends exactly the
      pending packets again, in order. */
  lemma ResendIs(cfg: Config, a: I.State)
    requires cfg.Typed() && I.Inv(Par(cfg), a) && SenderOk(cfg, SenderOf(cfg, a))
    requires At(cfg.start, I.SBase(Par(cfg), a)) < At(cfg.start, a.next)
    ensures var ks := I.Pending(Par(cfg), a, I.SBase(Par(cfg), a));
      && (forall k :: k in ks ==> k < cfg.N())
      && Resend(cfg, SenderOf(cfg, a), 0) == DataPackets(cfg, ks)
  {
    ResendFrom(cfg, a, SenderOf(cfg, a), 0);
  }

  lemma DataPacketsConcat(cfg: Config, a: seq<nat>, b: seq<nat>)
    requires forall k :: k in a || k in b ==> k < cfg.N()
    ensures DataPackets(cfg, a + b) == DataPackets(cfg, a) + DataPackets(cfg, b)
  {
  }

  lemma ResendsNothing(cfg: Config, s: Sender)
    requires SenderOk(cfg, s) && s.wbase >= s.sqn
    ensures Resend(cfg, s, 0) == []
  {
    ResendInBounds(cfg, s, 0);
  }

  lemma ResendWasSent(cfg: Config, a: I.State)
    requires cfg.Typed() && I.Inv(Par(cfg), a) && SenderOk(cfg, SenderOf(cfg, a))
    ensures Elements(Resend(cfg, SenderOf(cfg, a), 0)) <= DataSet(cfg, a.next)
  {
    var base := I.SBase(Par(cfg), a);
    if At(cfg.start, base) < At(cfg.start, a.next) {
      ResendIs(cfg, a);
      I.PendingIs(Par(cfg), a, base);
      var ks := I.Pending(Par(cfg), a, base);
      forall p | p in DataPackets(cfg, ks) ensures p in DataSet(cfg, a.next) {
        var i :| 0 <= i < |ks| && p == DataPackets(cfg, ks)[i];
        assert ks[i] in ks;
      }
    } else {
      ResendsNothing(cfg, SenderOf(cfg, a));
    }
  }

  /** What the sender makes of an acknowledgement number. */
  lemma AckDecision(cfg: Config, a: I.State, m: nat)
    requires cfg.Typed() && I.Inv(Par(cfg), a)
    requires m in a.acks && I.SBase(Par(cfg), a) < a.next
    ensures var base, j := I.SBase(Par(cfg), a), if cfg.sr then m as int else m - 1;
            var s, q := SenderOf(cfg, a), Acknowledged(cfg, AckPacket(cfg, m).seqnum);
      && (SeqnumIsIn(q, s.wbase, s.sqn) <==> base <= j < a.next)
      && (base <= j < a.next ==> SqnDis(s.wbase, q) == j - base)
  {
    var base, j := I.SBase(Par(cfg), a), if cfg.sr then m as int else m - 1;
    I.BasesOrdered(Par(cfg), a);
    AtAdd(cfg.start, m, if cfg.sr then 0 else -1);
    IsInByIndex(cfg.start, j, base, a.next);
    if base <= j {
      AtDis(cfg.start, base, j);
    }
  }

  lemma AckSquareSelective(cfg: Config, a: I.State, m: nat)
    requires cfg.Typed() && cfg.sr && I.Inv(Par(cfg), a) && I.Enabled(Par(cfg), a, I.Ack(m))
    requires SenderOk(cfg, SenderOf(cfg, a)) && MustWait(cfg, SenderOf(cfg, a))
    ensures SenderAfter(cfg, SenderOf(cfg, a), Verified(AckPacket(cfg, m)))
         == SenderOf(cfg, I.Step(Par(cfg), a, I.Ack(m)))
  {
    var base := I.SBase(Par(cfg), a);
    AckDecision(cfg, a, m);
    if base <= m < a.next {
      SlidSquare(cfg, a.acked, a.next, m);
    }
  }

  lemma AckSquareGoBackN(cfg: Config, a: I.State, m: nat)
    requires cfg.Typed() && !cfg.sr && I.Inv(Par(cfg), a) && I.Enabled(Par(cfg), a, I.Ack(m))
    requires SenderOk(cfg, SenderOf(cfg, a)) && MustWait(cfg, SenderOf(cfg, a))
    ensures SenderAfter(cfg, SenderOf(cfg, a), Verified(AckPacket(cfg, m)))
         == SenderOf(cfg, I.Step(Par(cfg), a, I.Ack(m)))
  {
    var base := I.SBase(Par(cfg), a);
    var b := I.Step(Par(cfg), a, I.Ack(m));
    AckDecision(cfg, a, m);
    if base < m <= a.next {
      I.GapIs(b.acked, cfg.N(), m);
      AtAdd(cfg.start, base, m - base);
      NoWindow(a.acked, base, cfg.wsize);
      NoWindow(b.acked, m, cfg.wsize);
    }
  }

  // ---- Receiver ----

  function AckPackets(cfg: Config, ms: seq<nat>): (ps: seq<Packet>)
    ensures |ps| == |ms| && forall i :: 0 <= i < |ms| ==> ps[i] == AckPacket(cfg, ms[i])
  {
    seq(|ms|, i requires 0 <= i < |ms| => AckPacket(cfg, ms[i]))
  }

  /** What the receiver makes of a sequence number in Selective Repeat. */
  lemma DataDecision(cfg: Config, a: I.State, k: nat)
    requires cfg.Valid() && cfg.sr && I.Inv(Par(cfg), a) && k < a.next
    ensures var base := I.RBase(Par(cfg), a);
            var v, q := ReceiverOf(cfg, a), DataPacket(cfg, k).seqnum;
      && (SeqnumIsIn(q, SeqnumAdd(v.wbase, -(cfg.wsize as int)), v.wbase) <==> base - cfg.wsize <= k < base)
      && (SeqnumIsIn(q, v.wbase, SeqnumAdd(v.wbase, cfg.wsize)) <==> base <= k < base + cfg.wsize)
      && (base <= k ==> SqnDis(v.wbase, q) == k - base)
  {
    var base, w := I.RBase(Par(cfg), a), cfg.wsize as int;
    I.BasesOrdered(Par(cfg), a);
    AtAdd(cfg.start, base, -w);
    AtAdd(cfg.start, base, w);
    IsInByIndex(cfg.start, k, base - w, base);
    IsInByIndex(cfg.start, k, base, base + w);
    if base <= k {
      AtDis(cfg.start, base, k);
    }
  }

  /** Putting packet k in its place. */
  lemma StoreSquare(cfg: Config, got: set<nat>, k: nat)
    requires cfg.Typed() && k < cfg.N() && forall i :: i in got ==> i < cfg.N()
    ensures var at, c := k * PAYLOAD_MAX, Chunk(cfg.file, k);
            var fsize := EndOf(cfg.file, got, cfg.N());
      && at + |c| <= MAXBUF
      && Put(Placed(cfg.file, cfg.buf0, got), at, c) == Placed(cfg.file, cfg.buf0, got + {k})
      && EndOf(cfg.file, got + {k}, cfg.N()) == if fsize < at + |c| then at + |c| else fsize
  {
    PlaceOne(cfg.file, cfg.buf0, got, k);
    EndOfOne(cfg.file, got, k, cfg.N());
  }

  lemma StoredSelectiveSquare(cfg: Config, got: set<nat>, open: bool, top: nat, k: nat)
    requires cfg.Typed() && cfg.sr && forall i :: i in got ==> i < top
    requires var base := I.Gap(got, cfg.N());
      base <= k < top <= cfg.N() && top <= base + cfg.wsize
    ensures var base := I.Gap(got, cfg.N());
      && k * PAYLOAD_MAX + |Chunk(cfg.file, k)| <= MAXBUF
      && StoredSelective(cfg, ReceiverAt(cfg, got, open), k - base, Chunk(cfg.file, k))
         == ReceiverAt(cfg, got + {k}, open)
  {
    StoreSquare(cfg, got, k);
    var base := I.Gap(got, cfg.N());
    assert (k - base) + base == k;
    SlidSquare(cfg, got, top, k);
  }

  lemma SelectiveSquare(cfg: Config, a: I.State, k: nat)
    requires cfg.Valid() && cfg.sr && I.Inv(Par(cfg), a) && I.Enabled(Par(cfg), a, I.Data(k))
    ensures ReceiveSelective(cfg, ReceiverOf(cfg, a), DataPacket(cfg, k))
         == Done((ReceiverOf(cfg, a.(got := I.Step(Par(cfg), a, I.Data(k)).got)),
                  AckPackets(cfg, I.Reply(Par(cfg), a, k))))
  {
    var base := I.RBase(Par(cfg), a);
    DataDecision(cfg, a, k);
    if base <= k < base + cfg.wsize {
      I.BasesOrdered(Par(cfg), a);
      StoredSelectiveSquare(cfg, a.got, a.open, a.next, k);
    }
    OneAck(cfg, k);
  }

  lemma OneAck(cfg: Config, m: nat)
    ensures AckPackets(cfg, [m]) == [AckPacket(cfg, m)] && AckPackets(cfg, []) == []
  {
  }

  /** In Go-Back-N the end of what is stored is where the next packet goes. */
  lemma {:induction false} EndOfPrefix(file: seq<byte>, got: set<nat>, b: nat, m: nat)
    requires forall k :: k in got <==> 0 <= k < b
    requires b < NPackets(file) && m <= NPackets(file)
    ensures b <= m ==> EndOf(file, got, m) == b * PAYLOAD_MAX
  {
    if b < m {
      EndOfPrefix(file, got, b, m - 1);
    } else if b > 0 {
      EndInFile(file, b - 1);
    } else {
      assert got == {};
      EndOfNothing(file, m);
    }
  }

  lemma StoredNextSquare(cfg: Config, got: set<nat>, open: bool, base: nat)
    requires cfg.Typed() && !cfg.sr && base < cfg.N() && forall i :: i in got <==> 0 <= i < base
    ensures I.Gap(got, cfg.N()) == base && I.Gap(got + {base}, cfg.N()) == base + 1
    ensures base * PAYLOAD_MAX + |Chunk(cfg.file, base)| <= MAXBUF
    ensures StoredNext(cfg, ReceiverAt(cfg, got, open), Chunk(cfg.file, base)) == ReceiverAt(cfg, got + {base}, open)
  {
    I.GapIs(got, cfg.N(), base);
    I.GapIs(got + {base}, cfg.N(), base + 1);
    StoreSquare(cfg, got, base);
    EndOfPrefix(cfg.file, got, base, cfg.N());
    AtAdd(cfg.start, base, 1);
  }

  lemma GoBackNSquare(cfg: Config, a: I.State, k: nat)
    requires cfg.Typed() && !cfg.sr && I.Inv(Par(cfg), a) && I.Enabled(Par(cfg), a, I.Data(k))
    ensures ReceiveGoBackN(cfg, ReceiverOf(cfg, a), DataPacket(cfg, k))
         == Done((ReceiverOf(cfg, a.(got := I.Step(Par(cfg), a, I.Data(k)).got)),
                  AckPackets(cfg, I.Reply(Par(cfg), a, k))))
  {
    var base := I.RBase(Par(cfg), a);
    I.BasesOrdered(Par(cfg), a);
    AtInjective(cfg.start, base, k);
    if k == base {
      StoredNextSquare(cfg, a.got, a.open, base);
      OneAck(cfg, base + 1);
    } else {
      OneAck(cfg, base);
    }
  }

  lemma AckSetGrows(cfg: Config, ms: set<nat>, more: seq<nat>)
    ensures AckSet(cfg, ms) + Elements(AckPackets(cfg, more)) == AckSet(cfg, ms + (set m | m in more))
  {
    var all := ms + (set m | m in more);
    forall p ensures p in AckSet(cfg, ms) + Elements(AckPackets(cfg, more)) <==> p in AckSet(cfg, all) {
      if p in Elements(AckPackets(cfg, more)) {
        var i :| 0 <= i < |more| && p == AckPackets(cfg, more)[i];
        assert more[i] in all && p == AckPacket(cfg, more[i]);
      }
      if p in AckSet(cfg, all) {
        var m :| m in all && p == AckPacket(cfg, m);
        if m !in ms {
          var i :| 0 <= i < |more| && more[i] == m;
          assert AckPackets(cfg, more)[i] == p;
        }
      }
    }
  }

  // ---- The square ----

  lemma ConcOk(cfg: Config, a: I.State)
    requires cfg.Typed() && I.Inv(Par(cfg), a)
    ensures WorldOk(cfg, Conc(cfg, a))
  {
    SenderOfOk(cfg, a);
  }

  lemma SenderSquare(cfg: Config, a: I.State, ie: I.Event, e: Event)
    requires cfg.Typed() && I.Inv(Par(cfg), a)
    requires I.Enabled(Par(cfg), a, ie) && Matches(cfg, ie, e) && (ie.Fill? || ie.SenderIdle? || ie.Ack?)
    requires I.Inv(Par(cfg), I.Step(Par(cfg), a, ie))
    ensures WorldOk(cfg, Conc(cfg, a)) && Enabled(cfg, Conc(cfg, a), e)
    ensures Step(cfg, Conc(cfg, a), e) == Done(Conc(cfg, I.Step(Par(cfg), a, ie)))
  {
    ConcOk(cfg, a);
    SenderOfOk(cfg, a);
    match ie {
      case Fill => FillSquare(cfg, a);
      case SenderIdle =>
        ResendWasSent(cfg, a);
        assert DataSet(cfg, a.next) + Elements(SenderSends(cfg, SenderOf(cfg, a), e.r)) == DataSet(cfg, a.next);
      case Ack(m) =>
        if cfg.sr {
          AckSquareSelective(cfg, a, m);
        } else {
          AckSquareGoBackN(cfg, a, m);
        }
        assert DataSet(cfg, a.next) + Elements([]) == DataSet(cfg, a.next);
    }
  }

  lemma ReceiverSquare(cfg: Config, a: I.State, ie: I.Event, e: Event)
    requires cfg.Valid() && I.Inv(Par(cfg), a)
    requires I.Enabled(Par(cfg), a, ie) && Matches(cfg, ie, e) && (ie.ReceiverIdle? || ie.Stop? || ie.Data?)
    requires I.Inv(Par(cfg), I.Step(Par(cfg), a, ie))
    ensures WorldOk(cfg, Conc(cfg, a)) && Enabled(cfg, Conc(cfg, a), e)
    ensures Step(cfg, Conc(cfg, a), e) == Done(Conc(cfg, I.Step(Par(cfg), a, ie)))
  {
    ConcOk(cfg, a);
    match ie {
      case Data(k) =>
        if cfg.sr {
          SelectiveSquare(cfg, a, k);
        } else {
          GoBackNSquare(cfg, a, k);
        }
        AckSetGrows(cfg, a.acks, I.Reply(Par(cfg), a, k));
      case ReceiverIdle =>
        assert AckSet(cfg, a.acks) + Elements([]) == AckSet(cfg, a.acks);
      case Stop =>
        assert AckSet(cfg, a.acks) + Elements([]) == AckSet(cfg, a.acks);
    }
  }

  /** An ideal event that can happen, can happen in the code, by any event that
      stands for it; the code does not fault; and it arrives at the concrete
      form of where the ideal protocol arrives. */
  lemma Square(cfg: Config, a: I.State, ie: I.Event, e: Event)
    requires cfg.Valid() && I.Inv(Par(cfg), a)
    requires I.Enabled(Par(cfg), a, ie) && Matches(cfg, ie, e)
    ensures WorldOk(cfg, Conc(cfg, a)) && Enabled(cfg, Conc(cfg, a), e)
    ensures I.Inv(Par(cfg), I.Step(Par(cfg), a, ie))
    ensures Step(cfg, Conc(cfg, a), e) == Done(Conc(cfg, I.Step(Par(cfg), a, ie)))
  {
    I.StepKeepsInv(Par(cfg), a, ie);
    if ie.Fill? || ie.SenderIdle? || ie.Ack? {
      SenderSquare(cfg, a, ie, e);
    } else {
      ReceiverSquare(cfg, a, ie, e);
    }
  }

  /** Conversely, whatever can happen in the code stands for an ideal event that
      can happen. */
  lemma Abstracted(cfg: Config, a: I.State, e: Event) returns (ie: I.Event)
    requires cfg.Typed() && I.Inv(Par(cfg), a) && Enabled(cfg, Conc(cfg, a), e)
    ensures I.Enabled(Par(cfg), a, ie) && Matches(cfg, ie, e)
  {
    SenderOfOk(cfg, a);
    match e {
      case SenderFills => ie := I.Fill;
      case SenderReceives(r) =>
        if r.Verified? && r.packet.flags == RTP_ACK {
          var m :| m in a.acks && r.packet == AckPacket(cfg, m);
          ie := I.Ack(m);
        } else {
          ie := I.SenderIdle;
        }
      case ReceiverReceives(r) =>
        if EndsTransfer(r) {
          ie := I.Stop;
        } else if IsData(r) {
          var k :| 0 <= k < a.next && r.packet == DataPacket(cfg, k);
          ie := I.Data(k);
        } else {
          ie := I.ReceiverIdle;
        }
    }
  }

  predicate AllMatch(cfg: Config, ies: seq<I.Event>, es: seq<Event>) {
    |ies| == |es| && forall i :: 0 <= i < |es| ==> Matches(cfg, ies[i], es[i])
  }

  /** The same for runs, from ideal to concrete. */
  lemma {:induction false} RunSquare(cfg: Config, a: I.State, w: World, ies: seq<I.Event>, es: seq<Event>)
    requires cfg.Valid() && I.Inv(Par(cfg), a) && w == Conc(cfg, a)
    requires I.Legal(Par(cfg), a, ies) && AllMatch(cfg, ies, es)
    ensures WorldOk(cfg, w) && Legal(cfg, w, es)
    ensures I.Inv(Par(cfg), I.Run(Par(cfg), a, ies))
    ensures Run(cfg, w, es) == Done(Conc(cfg, I.Run(Par(cfg), a, ies)))
    decreases es
  {
    ConcOk(cfg, a);
    if es != [] {
      Square(cfg, a, ies[0], es[0]);
      var a' := I.Step(Par(cfg), a, ies[0]);
      RunSquare(cfg, a', Conc(cfg, a'), ies[1..], es[1..]);
    }
  }

  /** And from concrete to ideal: every run of the code is an ideal run. */
  lemma {:induction false} RunAbstracted(cfg: Config, a: I.State, w: World, es: seq<Event>)
    returns (ies: seq<I.Event>)
    requires cfg.Valid() && I.Inv(Par(cfg), a) && w == Conc(cfg, a)
    requires WorldOk(cfg, w) && Legal(cfg, w, es)
    ensures I.Legal(Par(cfg), a, ies) && AllMatch(cfg, ies, es)
    decreases es
  {
    ies := [];
    if es != [] {
      var ie := FirstAbstracted(cfg, a, w, es);
      var a' := I.Step(Par(cfg), a, ie);
      var rest := RunAbstracted(cfg, a', Conc(cfg, a'), es[1..]);
      ies := [ie] + rest;
      assert ies[1..] == rest;
      MatchOneMore(cfg, ies, es);
    }
  }

  lemma FirstAbstracted(cfg: Config, a: I.State, w: World, es: seq<Event>) returns (ie: I.Event)
    requires cfg.Valid() && I.Inv(Par(cfg), a) && w == Conc(cfg, a)
    requires WorldOk(cfg, w) && Legal(cfg, w, es) && es != []
    ensures I.Enabled(Par(cfg), a, ie) && Matches(cfg, ie, es[0])
    ensures I.Inv(Par(cfg), I.Step(Par(cfg), a, ie))
    ensures var w' := Conc(cfg, I.Step(Par(cfg), a, ie));
      WorldOk(cfg, w') && Legal(cfg, w', es[1..])
  {
    ie := Abstracted(cfg, a, es[0]);
    Square(cfg, a, ie, es[0]);
    ConcOk(cfg, I.Step(Par(cfg), a, ie));
  }

  lemma MatchOneMore(cfg: Config, ies: seq<I.Event>, es: seq<Event>)
    requires ies != [] && es != []
    requires Matches(cfg, ies[0], es[0]) && AllMatch(cfg, ies[1..], es[1..])
    ensures AllMatch(cfg, ies, es)
  {
    forall i | 1 <= i < |es| ensures Matches(cfg, ies[i], es[i]) {
      assert ies[i] == ies[1..][i - 1] && es[i] == es[1..][i - 1];
    }
  }
}
