/** Selective Repeat with a window that does not fit on the ring beside the file:
    which files it still delivers. */
module Oversize {
  import opened Bytes
  import opened Indices
  import opened SeqNum
  import opened Segments
  import opened Wire
  import opened Protocol
  import opened Refinement
  import opened Delivery

  predicate Oversized(cfg: Config) {
    cfg.Typed() && cfg.sr && cfg.N() + cfg.wsize > TWO_31
  }

  /** A packet this far beyond the receiver's base, or further, is taken for one
      that lies before it. */
  function Reach(cfg: Config): nat
    requires Oversized(cfg)
  {
    TWO_31 - cfg.wsize
  }

  /** All packets are in one batch. */
  lemma Sizes(cfg: Config)
    requires Oversized(cfg)
    ensures 1 <= Reach(cfg) < cfg.N() <= cfg.wsize
  {
  }

  // ---- The protocol on indices ----

  /** The receiver acknowledges whatever arrives, and stores it if it is within
      reach; in all else this is the ideal protocol. */
  function StepOf(cfg: Config, a: I.State, ie: I.Event): I.State
    requires Oversized(cfg)
  {
    if ie.Data? then
      var base := I.RBase(Par(cfg), a);
      a.(got := if base <= ie.k < base + Reach(cfg) then a.got + {ie.k} else a.got, acks := a.acks + {ie.k})
    else I.Step(Par(cfg), a, ie)
  }

  predicate Inv(cfg: Config, a: I.State)
    requires Oversized(cfg)
  {
    && (a.next == 0 || a.next == cfg.N())
    && a.acked <= a.acks
    && (forall k :: k in a.acks ==> k < a.next)
    && (forall k :: k in a.got ==> k < a.next)
  }

  function WorldOf(cfg: Config, a: I.State): World
    requires a.next <= cfg.N() && forall k :: k in a.got ==> k < cfg.N()
  {
    World(SenderOf(cfg, a), ReceiverOf(cfg, a), DataSet(cfg, a.next), AckSet(cfg, a.acks))
  }

  lemma StepKeepsInv(cfg: Config, a: I.State, ie: I.Event)
    requires Oversized(cfg) && Inv(cfg, a) && I.Enabled(Par(cfg), a, ie)
    ensures Inv(cfg, StepOf(cfg, a, ie))
  {
    Sizes(cfg);
  }

  /** What the sender knows is what it would know if the receiver had stored all
      that was sent. */
  function AsIfStored(a: I.State): I.State {
    a.(got := Below(a.next), acks := Below(a.next))
  }

  lemma SenderKnows(cfg: Config, a: I.State)
    requires Oversized(cfg) && Inv(cfg, a)
    ensures I.Inv(Par(cfg), AsIfStored(a)) && SenderOf(cfg, AsIfStored(a)) == SenderOf(cfg, a)
    ensures SenderOk(cfg, SenderOf(cfg, a))
    ensures var s, base := SenderOf(cfg, a), I.SBase(Par(cfg), a);
      && (s.wbase == s.sqn <==> base == a.next)
      && (s.shift < cfg.N() <==> base < cfg.N())
  {
    Sizes(cfg);
    I.GapAtMost(a.acked, cfg.N(), a.next);
    SenderOfOk(cfg, AsIfStored(a));
  }

  // ---- The square ----

  lemma SenderPart(cfg: Config, a: I.State, ie: I.Event, e: Event)
    requires Oversized(cfg) && Inv(cfg, a) && SenderOk(cfg, SenderOf(cfg, a))
    requires I.Enabled(Par(cfg), a, ie) && Matches(cfg, ie, e) && (ie.SenderIdle? || ie.Ack?)
    requires MustWait(cfg, SenderOf(cfg, a))
    ensures SenderAfter(cfg, SenderOf(cfg, a), e.r) == SenderOf(cfg, StepOf(cfg, a, ie))
    ensures a.next <= cfg.N() && Elements(SenderSends(cfg, SenderOf(cfg, a), e.r)) <= DataSet(cfg, a.next)
  {
    var f := AsIfStored(a);
    SenderKnows(cfg, a);
    if ie.Ack? {
      AckSquareSelective(cfg, f, ie.m);
    } else {
      ResendWasSent(cfg, f);
    }
  }

  lemma FillPart(cfg: Config, a: I.State)
    requires Oversized(cfg) && Inv(cfg, a) && I.Enabled(Par(cfg), a, I.Fill)
    ensures var b := StepOf(cfg, a, I.Fill);
      && AfterFill(cfg, SenderOf(cfg, a)) == SenderOf(cfg, b) && b.next <= cfg.N()
      && DataSet(cfg, a.next) + Elements(Fresh(cfg, SenderOf(cfg, a))) == DataSet(cfg, b.next)
  {
    SenderKnows(cfg, a);
    FillSquare(cfg, AsIfStored(a));
  }

  /** What the receiver makes of a sequence number. */
  lemma Decision(cfg: Config, base: nat, k: nat)
    requires Oversized(cfg) && base <= cfg.N() && k < cfg.N()
    ensures var b, q, w := At(cfg.start, base), At(cfg.start, k), cfg.wsize as int;
      && (SeqnumIsIn(q, SeqnumAdd(b, -w), b) <==> k < base || k >= base + Reach(cfg))
      && (base <= k < base + Reach(cfg) ==> SeqnumIsIn(q, b, SeqnumAdd(b, w)) && SqnDis(b, q) == k - base)
  {
    var w := cfg.wsize as int;
    Sizes(cfg);
    AtAdd(cfg.start, base, -w);
    AtAdd(cfg.start, base, w);
    if k < base + Reach(cfg) {
      IsInByIndex(cfg.start, k, base - w, base);
      if base <= k {
        IsInByIndex(cfg.start, k, base, base + w);
        AtDis(cfg.start, base, k);
      }
    } else {
      AtAdd(cfg.start, k - TWO_31, 0);
      IsInByIndex(cfg.start, k - TWO_31, base - w, base);
    }
  }

  lemma DataPart(cfg: Config, a: I.State, k: nat)
    requires Oversized(cfg) && Inv(cfg, a) && I.Enabled(Par(cfg), a, I.Data(k))
    ensures k < cfg.N()
    ensures var b := StepOf(cfg, a, I.Data(k));
      && (forall i :: i in b.got ==> i < cfg.N())
      && ReceiveSelective(cfg, ReceiverOf(cfg, a), DataPacket(cfg, k))
         == Done((ReceiverOf(cfg, b), [AckPacket(cfg, k)]))
  {
    var base := I.RBase(Par(cfg), a);
    Sizes(cfg);
    Decision(cfg, base, k);
    if base <= k < base + Reach(cfg) {
      StoredSelectiveSquare(cfg, a.got, a.open, cfg.N(), k);
    }
  }

  lemma AcksOneMore(cfg: Config, ms: set<nat>, k: nat)
    ensures AckSet(cfg, ms) + Elements([AckPacket(cfg, k)]) == AckSet(cfg, ms + {k})
  {
    assert AckPackets(cfg, [k]) == [AckPacket(cfg, k)];
    AckSetGrows(cfg, ms, [k]);
    assert (set m | m in [k]) == {k};
  }

  lemma WorldOfOk(cfg: Config, a: I.State)
    requires Oversized(cfg) && Inv(cfg, a)
    ensures a.next <= cfg.N() && WorldOk(cfg, WorldOf(cfg, a))
  {
    SenderKnows(cfg, a);
  }

  lemma SenderSquare(cfg: Config, a: I.State, ie: I.Event, e: Event)
    requires Oversized(cfg) && Inv(cfg, a) && I.Enabled(Par(cfg), a, ie) && Matches(cfg, ie, e)
    requires ie.Fill? || ie.SenderIdle? || ie.Ack?
    ensures Inv(cfg, StepOf(cfg, a, ie)) && WorldOk(cfg, WorldOf(cfg, a)) && Enabled(cfg, WorldOf(cfg, a), e)
    ensures Step(cfg, WorldOf(cfg, a), e) == Done(WorldOf(cfg, StepOf(cfg, a, ie)))
  {
    StepKeepsInv(cfg, a, ie);
    WorldOfOk(cfg, a);
    SenderKnows(cfg, a);
    if ie.Fill? {
      FillPart(cfg, a);
    } else {
      SenderPart(cfg, a, ie, e);
      assert DataSet(cfg, a.next) + Elements(SenderSends(cfg, SenderOf(cfg, a), e.r)) == DataSet(cfg, a.next);
    }
  }

  lemma ReceiverSquare(cfg: Config, a: I.State, ie: I.Event, e: Event)
    requires Oversized(cfg) && Inv(cfg, a) && I.Enabled(Par(cfg), a, ie) && Matches(cfg, ie, e)
    requires ie.Data? || ie.Stop? || ie.ReceiverIdle?
    ensures Inv(cfg, StepOf(cfg, a, ie)) && WorldOk(cfg, WorldOf(cfg, a)) && Enabled(cfg, WorldOf(cfg, a), e)
    ensures Step(cfg, WorldOf(cfg, a), e) == Done(WorldOf(cfg, StepOf(cfg, a, ie)))
  {
    StepKeepsInv(cfg, a, ie);
    WorldOfOk(cfg, a);
    if ie.Data? {
      DataPart(cfg, a, ie.k);
      AcksOneMore(cfg, a.acks, ie.k);
    } else {
      assert AckSet(cfg, a.acks) + Elements([]) == AckSet(cfg, a.acks);
    }
  }

  /** The code makes, step for step, the moves of this protocol. */
  lemma Square(cfg: Config, a: I.State, ie: I.Event, e: Event)
    requires Oversized(cfg) && Inv(cfg, a) && I.Enabled(Par(cfg), a, ie) && Matches(cfg, ie, e)
    ensures Inv(cfg, StepOf(cfg, a, ie)) && WorldOk(cfg, WorldOf(cfg, a)) && Enabled(cfg, WorldOf(cfg, a), e)
    ensures Step(cfg, WorldOf(cfg, a), e) == Done(WorldOf(cfg, StepOf(cfg, a, ie)))
  {
    if ie.Fill? || ie.SenderIdle? || ie.Ack? {
      SenderSquare(cfg, a, ie, e);
    } else {
      ReceiverSquare(cfg, a, ie, e);
    }
  }

  lemma Abstracted(cfg: Config, a: I.State, e: Event) returns (ie: I.Event)
    requires Oversized(cfg) && Inv(cfg, a) && Enabled(cfg, WorldOf(cfg, a), e)
    ensures I.Enabled(Par(cfg), a, ie) && Matches(cfg, ie, e)
  {
    SenderKnows(cfg, a);
    match e {
      case SenderFills => ie := I.Fill;
      case SenderReceives(r) =>
        if r.Verified? && r.packet.flags == RTP_ACK {
          var m :| m in a.acks && r.packet == AckPacket(cfg, m);
          ie := I.Ack(m);
        } else {
          ie := I.SenderIdle;
        }
      case ReceiverReceives(r) =>
        if EndsTransfer(r) {
          ie := I.Stop;
        } else if IsData(r) {
          var k :| 0 <= k < a.next && r.packet == DataPacket(cfg, k);
          ie := I.Data(k);
        } else {
          ie := I.ReceiverIdle;
        }
    }
  }

  lemma Begins(cfg: Config)
    requires Oversized(cfg)
    ensures Inv(cfg, I.INIT) && Init(cfg) == WorldOf(cfg, I.INIT)
  {
    InitIsConc(cfg);
  }

  // ---- The one case that does no harm ----

  /** Only the last packet is out of reach, and it is empty. */
  predicate Harmless(cfg: Config)
    requires Oversized(cfg)
  {
    Reach(cfg) == cfg.N() - 1 && |cfg.file| % PAYLOAD_MAX == 0
  }

  /** Whatever is acknowledged is stored, but perhaps not the last packet. */
  predicate LastAside(cfg: Config, a: I.State) {
    forall k :: k in a.acks && k < cfg.N() - 1 ==> k in a.got
  }

  lemma StepKeepsLastAside(cfg: Config, a: I.State, ie: I.Event)
    requires Oversized(cfg) && Reach(cfg) == cfg.N() - 1 && Inv(cfg, a) && LastAside(cfg, a)
    requires I.Enabled(Par(cfg), a, ie)
    ensures LastAside(cfg, StepOf(cfg, a, ie))
  {
  }

  lemma {:induction false} RunMirrored(cfg: Config, a: I.State, w: World, es: seq<Event>, w': World)
    returns (b: I.State)
    requires Oversized(cfg) && Reach(cfg) == cfg.N() - 1 && Inv(cfg, a) && LastAside(cfg, a)
    requires w == WorldOf(cfg, a) && WorldOk(cfg, w) && Leads(cfg, w, es, w')
    ensures Inv(cfg, b) && LastAside(cfg, b) && w' == WorldOf(cfg, b)
    decreases es
  {
    if es == [] {
      b := a;
    } else {
      var ie := Abstracted(cfg, a, es[0]);
      Square(cfg, a, ie, es[0]);
      StepKeepsLastAside(cfg, a, ie);
      StepKeepsOk(cfg, w, es[0]);
      var a' := StepOf(cfg, a, ie);
      b := RunMirrored(cfg, a', WorldOf(cfg, a'), es[1..], w');
    }
  }

  lemma AllButLast(file: seq<byte>, buf0: seq<byte>, got: set<nat>)
    requires |file| <= |buf0| && |file| > 0 && |file| % PAYLOAD_MAX == 0
    requires forall k :: k in got <==> 0 <= k < NPackets(file) - 1
    ensures EndOf(file, got, NPackets(file)) == |Rebuilt(file)| <= |buf0|
    ensures Placed(file, buf0, got)[..|Rebuilt(file)|] == Rebuilt(file)
  {
    var b, r := Placed(file, buf0, got), Rebuilt(file);
    EndOfPrefix(file, got, NPackets(file) - 1, NPackets(file));
    forall j | 0 <= j < |r| ensures b[j] == r[j] {
      EndInFile(file, j / PAYLOAD_MAX);
      PlacedAt(file, buf0, got, j);
    }
  }

  lemma HarmlessDelivers(cfg: Config, es: seq<Event>, w: World)
    requires Oversized(cfg) && Harmless(cfg) && WorldOk(cfg, Init(cfg))
    requires Leads(cfg, Init(cfg), es, w) && Finished(cfg, w.s)
    ensures w.v.fsize <= |w.v.buf| && w.v.buf[..w.v.fsize] == Rebuilt(cfg.file)
  {
    Sizes(cfg);
    Begins(cfg);
    var a := RunMirrored(cfg, I.INIT, Init(cfg), es, w);
    SenderKnows(cfg, a);
    assert forall k :: 0 <= k < cfg.N() - 1 ==> k in a.acked;
    if cfg.N() - 1 in a.got {
      assert a.got == Below(cfg.N());
      SegmentationRoundTrip(cfg.file, cfg.buf0);
    } else {
      AllButLast(cfg.file, cfg.buf0, a.got);
    }
  }

  // ---- Every other case does ----

  /** How many packets the receiver is going to store: not the last, nor the one
      before it if the last is empty. */
  function Kept(cfg: Config): nat
    requires Oversized(cfg)
  {
    Sizes(cfg);
    if |cfg.file| % PAYLOAD_MAX == 0 then cfg.N() - 2 else cfg.N() - 1
  }

  lemma MisreadsNext(cfg: Config, a: I.State, k: nat) returns (b: I.State)
    requires Oversized(cfg) && Inv(cfg, a) && a.next == cfg.N() && a.got == {} && a.open
    requires Reach(cfg) <= k < cfg.N()
    ensures WorldOk(cfg, WorldOf(cfg, a)) && Inv(cfg, b) && b == a.(acks := a.acks + {k})
    ensures Leads(cfg, WorldOf(cfg, a), [ReceiverReceives(Verified(DataPacket(cfg, k)))], WorldOf(cfg, b))
  {
    Sizes(cfg);
    WorldOfOk(cfg, a);
    var e := ReceiverReceives(Verified(DataPacket(cfg, k)));
    Square(cfg, a, I.Data(k), e);
    b := StepOf(cfg, a, I.Data(k));
    StepLeads(cfg, WorldOf(cfg, a), e);
  }

  lemma {:induction false} Misread(cfg: Config, a: I.State, k: nat) returns (es: seq<Event>, b: I.State)
    requires Oversized(cfg) && Inv(cfg, a) && a.next == cfg.N() && a.got == {} && a.acked == {} && a.open
    requires Reach(cfg) <= k <= cfg.N()
    ensures WorldOk(cfg, WorldOf(cfg, a)) && Inv(cfg, b)
    ensures Leads(cfg, WorldOf(cfg, a), es, WorldOf(cfg, b))
    ensures b == a.(acks := b.acks) && a.acks <= b.acks && forall i :: k <= i < cfg.N() ==> i in b.acks
    decreases cfg.N() - k
  {
    WorldOfOk(cfg, a);
    es, b := [], a;
    if k < cfg.N() {
      var e := ReceiverReceives(Verified(DataPacket(cfg, k)));
      var c := MisreadsNext(cfg, a, k);
      es, b := Misread(cfg, c, k + 1);
      LeadsOn(cfg, WorldOf(cfg, a), [e], WorldOf(cfg, c), es, WorldOf(cfg, b));
      es := [e] + es;
    }
  }

  lemma StoresNext(cfg: Config, a: I.State, k: nat) returns (b: I.State)
    requires Oversized(cfg) && Inv(cfg, a) && a.next == cfg.N() && a.open
    requires k < cfg.N() && forall i :: i in a.got <==> 0 <= i < k
    ensures WorldOk(cfg, WorldOf(cfg, a)) && Inv(cfg, b)
    ensures b == a.(acks := a.acks + {k}, got := a.got + {k})
    ensures Leads(cfg, WorldOf(cfg, a), [ReceiverReceives(Verified(DataPacket(cfg, k)))], WorldOf(cfg, b))
  {
    Sizes(cfg);
    WorldOfOk(cfg, a);
    I.GapIs(a.got, cfg.N(), k);
    var e := ReceiverReceives(Verified(DataPacket(cfg, k)));
    Square(cfg, a, I.Data(k), e);
    b := StepOf(cfg, a, I.Data(k));
    StepLeads(cfg, WorldOf(cfg, a), e);
  }

  lemma {:induction false} StoresRest(cfg: Config, a: I.State, k: nat) returns (es: seq<Event>, b: I.State)
    requires Oversized(cfg) && Inv(cfg, a) && a.next == cfg.N() && a.acked == {} && a.open
    requires k <= Kept(cfg) && forall i :: i in a.got <==> 0 <= i < k
    ensures WorldOk(cfg, WorldOf(cfg, a)) && Inv(cfg, b)
    ensures Leads(cfg, WorldOf(cfg, a), es, WorldOf(cfg, b))
    ensures b == a.(acks := b.acks, got := b.got) && a.acks <= b.acks && forall i :: k <= i < Kept(cfg) ==> i in b.acks
    ensures forall i :: i in b.got <==> 0 <= i < Kept(cfg)
    decreases Kept(cfg) - k
  {
    WorldOfOk(cfg, a);
    es, b := [], a;
    if k < Kept(cfg) {
      var e := ReceiverReceives(Verified(DataPacket(cfg, k)));
      var c := StoresNext(cfg, a, k);
      es, b := StoresRest(cfg, c, k + 1);
      LeadsOn(cfg, WorldOf(cfg, a), [e], WorldOf(cfg, c), es, WorldOf(cfg, b));
      es := [e] + es;
    }
  }

  lemma {:induction false} AllAcked(cfg: Config, a: I.State, m: nat) returns (es: seq<Event>, b: I.State)
    requires Oversized(cfg) && Inv(cfg, a) && a.next == cfg.N() && m <= cfg.N()
    requires forall i :: 0 <= i < cfg.N() ==> i in a.acks
    requires forall i :: i in a.acked <==> 0 <= i < m
    ensures WorldOk(cfg, WorldOf(cfg, a)) && Inv(cfg, b)
    ensures Leads(cfg, WorldOf(cfg, a), es, WorldOf(cfg, b))
    ensures b.got == a.got && Finished(cfg, WorldOf(cfg, b).s)
    decreases cfg.N() - m
  {
    WorldOfOk(cfg, a);
    I.GapIs(a.acked, cfg.N(), m);
    es, b := [], a;
    if m < cfg.N() {
      var e := SenderReceives(Verified(AckPacket(cfg, m)));
      Square(cfg, a, I.Ack(m), e);
      var c := StepOf(cfg, a, I.Ack(m));
      StepLeads(cfg, WorldOf(cfg, a), e);
      es, b := AllAcked(cfg, c, m + 1);
      LeadsOn(cfg, WorldOf(cfg, a), [e], WorldOf(cfg, c), es, WorldOf(cfg, b));
      es := [e] + es;
    }
  }

  lemma KeptIsShort(cfg: Config, got: set<nat>)
    requires Oversized(cfg) && !Harmless(cfg) && forall i :: i in got <==> 0 <= i < Kept(cfg)
    ensures Reach(cfg) <= Kept(cfg) < cfg.N() && EndOf(cfg.file, got, cfg.N()) < |Rebuilt(cfg.file)|
  {
    Sizes(cfg);
    EndOfPrefix(cfg.file, got, Kept(cfg), cfg.N());
  }

  /** The last packets arrive first and are acknowledged unstored; all others arrive
      in order; and the sender finishes. */
  lemma Undelivered(cfg: Config) returns (es: seq<Event>, w: World)
    requires Oversized(cfg) && !Harmless(cfg) && WorldOk(cfg, Init(cfg))
    ensures Leads(cfg, Init(cfg), es, w) && Finished(cfg, w.s)
    ensures w.v.fsize < |Rebuilt(cfg.file)|
  {
    Sizes(cfg);
    Begins(cfg);
    KeptIsShort(cfg, Below(Kept(cfg)));
    Square(cfg, I.INIT, I.Fill, SenderFills);
    var a := StepOf(cfg, I.INIT, I.Fill);
    StepLeads(cfg, Init(cfg), SenderFills);
    var x, b := Misread(cfg, a, Kept(cfg));
    LeadsOn(cfg, Init(cfg), [SenderFills], WorldOf(cfg, a), x, WorldOf(cfg, b));
    var y, c := StoresRest(cfg, b, 0);
    LeadsOn(cfg, Init(cfg), [SenderFills] + x, WorldOf(cfg, b), y, WorldOf(cfg, c));
    var z, d := AllAcked(cfg, c, 0);
    LeadsOn(cfg, Init(cfg), [SenderFills] + x + y, WorldOf(cfg, c), z, WorldOf(cfg, d));
    es, w := [SenderFills] + x + y + z, WorldOf(cfg, d);
    KeptIsShort(cfg, d.got);
  }

  // ---- All windows ----

  ghost predicate AlwaysDelivers(cfg: Config)
    requires cfg.Typed() && WorldOk(cfg, Init(cfg))
  {
    forall es, w :: Leads(cfg, Init(cfg), es, w) && Finished(cfg, w.s) ==>
      w.v.fsize <= |w.v.buf| && w.v.buf[..w.v.fsize] == Rebuilt(cfg.file)
  }

  /** Selective Repeat delivers in every run in which the sender finishes exactly
      when file and window fit on the ring together, or exceed it by one packet
      that is empty. */
  lemma WindowsThatDeliver(cfg: Config)
    requires cfg.Typed() && cfg.sr
    ensures WorldOk(cfg, Init(cfg))
    ensures AlwaysDelivers(cfg) <==>
      || cfg.N() + cfg.wsize <= TWO_31
      || (cfg.N() + cfg.wsize == TWO_31 + 1 && |cfg.file| % PAYLOAD_MAX == 0)
  {
    InitOk(cfg);
    if cfg.N() + cfg.wsize <= TWO_31 {
      forall es, w | Leads(cfg, Init(cfg), es, w) && Finished(cfg, w.s)
        ensures w.v.fsize <= |w.v.buf| && w.v.buf[..w.v.fsize] == Rebuilt(cfg.file)
      {
        Delivered(cfg, es, w);
      }
    } else if Harmless(cfg) {
      forall es, w | Leads(cfg, Init(cfg), es, w) && Finished(cfg, w.s)
        ensures w.v.fsize <= |w.v.buf| && w.v.buf[..w.v.fsize] == Rebuilt(cfg.file)
      {
        HarmlessDelivers(cfg, es, w);
      }
    } else {
      var es, w := Undelivered(cfg);
    }
  }
}
