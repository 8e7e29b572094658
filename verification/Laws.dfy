/** What each end does with whatever arrives, said without the steps of module
    Protocol: which receptions count, where their bytes go, what is sent and how
    often. The receptions are arbitrary, not only those a transfer can bring about. */
module Laws {
  import opened Bytes
  import opened SeqNum
  import opened Segments
  import opened Window
  import opened Wire
  import opened Protocol
  import opened Refinement
  import opened Delivery

  // ---- The sizes ----

  /** A file of up to 2 MiB is cut into the least number of packets of up to 1461
      bytes, at most 1436. A packet with its header of 11 bytes, and the 28 bytes
      of UDP and IP, fills an Ethernet frame of 1500. */
  lemma Sizes(file: seq<byte>)
    ensures MAXBUF == 2097152 && PACKET_SIZE + 28 == 1500
    ensures 1461 * NPackets(file) >= |file| && (NPackets(file) > 0 ==> 1461 * (NPackets(file) - 1) < |file|)
    ensures |file| <= 2097152 ==> NPackets(file) <= 1436
  {
  }

  // ---- The receiver ----

  /** Whether a reception is a timeout or shows the FIN bit, checked or not. */
  predicate ShowsFin(r: Reception) {
    r.TimedOut? || (r.Garbled? && r.found.flags & 4 != 0) || (r.Verified? && r.packet.flags & 4 != 0)
  }

  /** A reception ends the receiver's loop exactly if it is a timeout or shows the
      FIN bit. Nothing is sent or stored then, nor for anything else that is not a
      packet without flags that passed its checks. */
  lemma ReceiverStops(cfg: Config, v: Receiver, r: Reception)
    requires ReceiverOk(cfg, v) && v.open
    ensures ShowsFin(r) ==> Receive(cfg, v, r) == Done((v.(open := false), []))
    ensures !ShowsFin(r) && Receive(cfg, v, r).Done? ==> Receive(cfg, v, r).value.0.open
    ensures !ShowsFin(r) && !(r.Verified? && r.packet.flags == 0) ==> Receive(cfg, v, r) == Done((v, []))
  {
  }

  /** In a transfer no reception faults. */
  lemma ReceiverGoesOn(cfg: Config, es: seq<Event>, w: World, r: Reception)
    requires Reaches(cfg, es, w) && Enabled(cfg, w, ReceiverReceives(r))
    ensures WorldOk(cfg, w) && Step(cfg, w, ReceiverReceives(r)).Done?
    ensures !Step(cfg, w, ReceiverReceives(r)).value.v.open <==> ShowsFin(r)
  {
    var a := Mirror(cfg, es, w);
    var ie := Abstracted(cfg, a, ReceiverReceives(r));
    Square(cfg, a, ie, ReceiverReceives(r));
    ReceiverStops(cfg, w.v, r);
  }

  /** v' is v with the bytes c at offset at. */
  predicate Copied(v: Receiver, v': Receiver, at: nat, c: seq<byte>) {
    && |v'.buf| == |v.buf|
    && forall j :: 0 <= j < |v.buf| ==> v'.buf[j] == if at <= j < at + |c| then c[j - at] else v.buf[j]
  }

  lemma PutCopies(b: seq<byte>, at: nat, c: seq<byte>)
    requires at + |c| <= |b|
    ensures forall j :: 0 <= j < |b| ==> Put(b, at, c)[j] == if at <= j < at + |c| then c[j - at] else b[j]
  {
  }

  /** Selective Repeat, any sequence number, at a distance of d from the base along
      the ring: a packet from less than a window behind the base or less than a
      window ahead is acknowledged by its own number, any other ignored; one that
      is ahead and not behind is put in its place, and counts as stored from then
      on, as do exactly those that did before. */
  lemma ReceiverTakesSelective(cfg: Config, v: Receiver, n: seqnum, c: seq<byte>)
    requires cfg.Typed() && cfg.sr && ReceiverOk(cfg, v) && v.open
    ensures var d, out := SqnDis(v.wbase, n), Receive(cfg, v, Verified(Packet(n, 0, c)));
      var behind, ahead, at := d + cfg.wsize >= 0x8000_0000, d < cfg.wsize, (v.shift + d) * 1461;
      && (behind ==> out == Done((v, [Packet(n, 2, [])])))
      && (!behind && !ahead ==> out == Done((v, [])))
      && (!behind && ahead ==> (out.Done? <==> at + |c| <= 2097152))
      && (!behind && ahead && out.Done? ==>
            var v' := out.value.0;
            && out.value.1 == [Packet(n, 2, [])]
            && Copied(v, v', at, c)
            && v'.fsize == (if v.fsize < at + |c| then at + |c| else v.fsize)
            && v'.sqn == v.sqn && v'.open
            && v.shift <= v'.shift && v'.wbase == SeqnumAdd(v.wbase, v'.shift - v.shift)
            && !CountsStored(v', v'.shift)
            && forall k: nat :: CountsStored(v', k) <==> CountsStored(v, k) || k == v.shift + d)
  {
    var d, w := SqnDis(v.wbase, n), cfg.wsize as int;
    WindowsByDistance(v.wbase, n, cfg.wsize);
    if d + w < 0x8000_0000 && d < w && (v.shift + d) * 1461 + |c| <= 2097152 {
      Stores(cfg, v, d, c);
    }
  }

  lemma Stores(cfg: Config, v: Receiver, d: nat, c: seq<byte>)
    requires ReceiverOk(cfg, v) && d < cfg.wsize && (v.shift + d) * 1461 + |c| <= 2097152
    ensures (d + v.shift) * PAYLOAD_MAX + |c| <= MAXBUF
    ensures var at, v' := (v.shift + d) * 1461, StoredSelective(cfg, v, d, c);
      && Copied(v, v', at, c)
      && v'.fsize == (if v.fsize < at + |c| then at + |c| else v.fsize)
      && v'.sqn == v.sqn && v'.open == v.open
      && v.shift <= v'.shift && v'.wbase == SeqnumAdd(v.wbase, v'.shift - v.shift)
      && !CountsStored(v', v'.shift)
      && forall k: nat :: CountsStored(v', k) <==> CountsStored(v, k) || k == v.shift + d
  {
    assert d + v.shift == v.shift + d;
    var v' := StoredSelective(cfg, v, d, c);
    PutCopies(v.buf, (v.shift + d) * 1461, c);
    UpdateConservesMarks(v.window, d);
    forall k: nat ensures CountsStored(v', k) <==> CountsStored(v, k) || k == v.shift + d {
      MarksMoved(v.window, d, v.shift, k);
    }
  }

  /** The two windows of the receiver in distances from its base. */
  lemma WindowsByDistance(b: seqnum, n: seqnum, w: nat)
    requires 1 <= w < TWO_31
    ensures SeqnumIsIn(n, SeqnumAdd(b, -(w as int)), b) <==> SqnDis(b, n) + w >= TWO_31
    ensures SeqnumIsIn(n, b, SeqnumAdd(b, w)) <==> SqnDis(b, n) < w
  {
    var l, d := SeqnumAdd(b, -(w as int)), SqnDis(b, n);
    AddMoves(b, w);
    AddDisInverse(b, n, w);
    IsInByDistance(n, b, SeqnumAdd(b, w));
    IsInByDistance(n, l, b);
    AddAdd(b, -(w as int), w);
    AddAdd(b, -(w as int), w + d);
    AddDisInverse(l, n, w);
    AddDisInverse(l, n, w + d);
    BackAgain(b, w);
    if d + w < TWO_31 {
      Low31Unique(w + d, w + d, 0);
    } else {
      Low31Unique(w + d, w + d - TWO_31, 1);
    }
  }

  lemma BackAgain(b: seqnum, w: nat)
    requires 1 <= w < TWO_31
    ensures SeqnumAdd(SeqnumAdd(b, -(w as int)), w) == b
  {
    AddAdd(b, -(w as int), w);
    AddSmall(b, 0);
  }

  /** Marking a cell and moving the window keeps which packets count. */
  lemma MarksMoved(w: seq<bool>, d: nat, shift: nat, k: nat)
    requires d < |w|
    ensures Counts(shift + Advance(w, d), Updated(w, d), k) <==> Counts(shift, w, k) || k == shift + d
  {
    var m := w[d := true];
    AdvanceIs(w, d, m);
    if shift <= k < shift + |w| {
      assert m[k - shift] == (w[k - shift] || k == shift + d);
    }
  }

  /** Go-Back-N, any sequence number: the one expected is stored behind what there
      is, and every packet is answered with the number expected next. */
  lemma ReceiverTakesGoBackN(cfg: Config, v: Receiver, n: uint32, c: seq<byte>)
    requires cfg.Typed() && !cfg.sr && ReceiverOk(cfg, v) && v.open
    ensures var out, at := Receive(cfg, v, Verified(Packet(n, 0, c))), v.shift * 1461;
      && (n != v.sqn ==> out == Done((v, [Packet(v.sqn, 2, [])])))
      && (n == v.sqn ==> (out.Done? <==> at + |c| <= 2097152))
      && (n == v.sqn && out.Done? ==>
            var v' := out.value.0;
            && v'.sqn == (n + 1) % 0x8000_0000 && out.value.1 == [Packet(v'.sqn, 2, [])]
            && Copied(v, v', at, c)
            && v'.fsize == v.fsize + |c| && v'.shift == v.shift + 1
            && v'.wbase == v.wbase && v'.window == v.window && v'.open)
  {
    if n == v.sqn && v.shift * 1461 + |c| <= 2097152 {
      PutCopies(v.buf, v.shift * 1461, c);
      Low31AfterWrap(n + 1);
    }
  }

  // ---- The sender ----

  /** Only an acknowledgement that passed its checks changes the sender, and only a
      timeout makes it send. */
  lemma SenderIgnores(cfg: Config, s: Sender, r: Reception)
    requires SenderOk(cfg, s) && MustWait(cfg, s)
    ensures !(r.Verified? && r.packet.flags == 2) ==> SenderAfter(cfg, s, r) == s
    ensures !r.TimedOut? ==> SenderSends(cfg, s, r) == []
  {
  }

  /** Selective Repeat, any number: an acknowledgement of an outstanding packet makes
      that packet count, and no other; the base moves to the first that does not.
      Any other acknowledgement changes nothing. */
  lemma SenderTakesSelective(cfg: Config, s: Sender, n: seqnum, c: seq<byte>)
    requires cfg.Typed() && cfg.sr && SenderOk(cfg, s) && MustWait(cfg, s)
    ensures var d, s' := SqnDis(s.wbase, n), SenderAfter(cfg, s, Verified(Packet(n, 2, c)));
      && (d >= SqnDis(s.wbase, s.sqn) ==> s' == s)
      && (d < SqnDis(s.wbase, s.sqn) ==>
            && s'.sqn == s.sqn && s.shift <= s'.shift && s'.wbase == SeqnumAdd(s.wbase, s'.shift - s.shift)
            && !CountsAcked(s', s'.shift)
            && forall k: nat :: CountsAcked(s', k) <==> CountsAcked(s, k) || k == s.shift + d)
  {
    AckByDistance(cfg, s, n, c);
    if SqnDis(s.wbase, n) < SqnDis(s.wbase, s.sqn) {
      var s' := Moved(s, SqnDis(s.wbase, n));
      BaseUnmarked(s, SqnDis(s.wbase, n));
      forall k: nat ensures CountsAcked(s', k) <==> CountsAcked(s, k) || k == s.shift + SqnDis(s.wbase, n) {
        MarksMoved(s.window, SqnDis(s.wbase, n), s.shift, k);
      }
    }
  }

  /** The sender with the d-th outstanding packet marked. */
  function Moved(s: Sender, d: nat): Sender
    requires d < |s.window|
  {
    var mov := Advance(s.window, d);
    s.(shift := s.shift + mov, wbase := SeqnumAdd(s.wbase, mov), window := Updated(s.window, d))
  }

  lemma BaseUnmarked(s: Sender, d: nat)
    requires d < |s.window|
    ensures !CountsAcked(Moved(s, d), Moved(s, d).shift)
  {
    UpdateConservesMarks(s.window, d);
  }

  lemma AckByDistance(cfg: Config, s: Sender, n: seqnum, c: seq<byte>)
    requires cfg.Typed() && cfg.sr && SenderOk(cfg, s) && MustWait(cfg, s)
    ensures var d, s' := SqnDis(s.wbase, n), SenderAfter(cfg, s, Verified(Packet(n, 2, c)));
      && (d >= SqnDis(s.wbase, s.sqn) ==> s' == s)
      && (d < SqnDis(s.wbase, s.sqn) ==> s' == Moved(s, d))
  {
    AddSmall(n, 0);
    IsInByDistance(n, s.wbase, s.sqn);
  }

  /** Go-Back-N, any number: an acknowledgement beyond the base, but not beyond what
      was sent, becomes the base. Any other changes nothing. */
  lemma SenderTakesGoBackN(cfg: Config, s: Sender, n: seqnum, c: seq<byte>)
    requires cfg.Typed() && !cfg.sr && SenderOk(cfg, s) && MustWait(cfg, s)
    ensures var d, s' := SqnDis(s.wbase, n), SenderAfter(cfg, s, Verified(Packet(n, 2, c)));
      s' == if 1 <= d <= SqnDis(s.wbase, s.sqn) then s.(wbase := n, shift := s.shift + d) else s
  {
    var q, d := SeqnumAdd(n, -1), SqnDis(s.wbase, n);
    IsInByDistance(q, s.wbase, s.sqn);
    AddDisInverse(s.wbase, n, 0);
    AddAdd(s.wbase, d, -1);
    var before: int := d as int - 1;
    AddDisInverse(s.wbase, 0, before);
    if d == 0 {
      Low31Unique(-1, TWO_31 - 1, -1);
    }
  }

  /** A sender that has finished says FIN under the number behind the last packet. */
  lemma FinishedNumber(cfg: Config, es: seq<Event>, w: World)
    requires Reaches(cfg, es, w) && Finished(cfg, w.s)
    ensures w.s.sqn == (cfg.start + cfg.N()) % 0x8000_0000 && w.s.shift == cfg.N()
  {
    var a := Mirror(cfg, es, w);
    SenderOfOk(cfg, a);
    Low31AfterWrap(cfg.start + cfg.N());
  }

  // ---- Everything the sender sends ----

  /** The packets that a run makes the sender send, in order. */
  ghost function Sent(cfg: Config, w: World, es: seq<Event>): seq<Packet>
    requires cfg.Typed() && WorldOk(cfg, w) && Legal(cfg, w, es)
    decreases es
  {
    if es == [] || Step(cfg, w, es[0]).Fault? then []
    else
      StepKeepsOk(cfg, w, es[0]);
      (match es[0]
       case SenderFills => Fresh(cfg, w.s)
       case SenderReceives(r) => SenderSends(cfg, w.s, r)
       case ReceiverReceives(_) => [])
      + Sent(cfg, Step(cfg, w, es[0]).value, es[1..])
  }

  /** How many packets have been sent at least once. */
  function SentOnce(s: Sender): nat {
    s.shift + SqnDis(s.wbase, s.sqn)
  }

  /** The outstanding packets from the i-th on; in Selective Repeat only those that
      do not count as acknowledged. */
  function Outstanding(cfg: Config, s: Sender, i: nat): seq<nat>
    decreases SentOnce(s) - i
  {
    if i >= SentOnce(s) then []
    else (if cfg.sr && CountsAcked(s, i) then [] else [i]) + Outstanding(cfg, s, i + 1)
  }

  /** What should be sent in one step: a fill sends the next window, or what there is
      left of the file; a timeout sends what is outstanding, unless its numbers
      start again from 0 on the way; nothing else sends anything. */
  function Due(cfg: Config, s: Sender, e: Event): seq<nat> {
    match e
    case SenderFills =>
      var next, left := SentOnce(s), if cfg.N() < SentOnce(s) + cfg.wsize then cfg.N() else SentOnce(s) + cfg.wsize;
      if next <= left then Range(next, left) else []
    case SenderReceives(TimedOut) => if s.wbase < s.sqn then Outstanding(cfg, s, s.shift) else []
    case SenderReceives(_) => []
    case ReceiverReceives(_) => []
  }

  ghost function AllDue(cfg: Config, w: World, es: seq<Event>): seq<nat>
    requires cfg.Typed() && WorldOk(cfg, w) && Legal(cfg, w, es)
    decreases es
  {
    if es == [] || Step(cfg, w, es[0]).Fault? then []
    else
      StepKeepsOk(cfg, w, es[0]);
      Due(cfg, w.s, es[0]) + AllDue(cfg, Step(cfg, w, es[0]).value, es[1..])
  }

  predicate InFile(cfg: Config, ks: seq<nat>) {
    forall k :: k in ks ==> k < cfg.N()
  }

  lemma {:induction false} OutstandingIsPending(cfg: Config, a: I.State, i: nat)
    requires cfg.Valid() && I.Inv(Par(cfg), a) && SentOnce(SenderOf(cfg, a)) == a.next
    ensures Outstanding(cfg, SenderOf(cfg, a), i) == I.Pending(Par(cfg), a, i)
    decreases a.next - i
  {
    if i < a.next {
      OutstandingIsPending(cfg, a, i + 1);
      CountedAcked(cfg, a, i);
    }
  }

  lemma StepSendsDue(cfg: Config, a: I.State, ie: I.Event, e: Event)
    requires cfg.Valid() && I.Inv(Par(cfg), a) && I.Enabled(Par(cfg), a, ie) && Matches(cfg, ie, e)
    requires WorldOk(cfg, Conc(cfg, a))
    ensures InFile(cfg, Due(cfg, SenderOf(cfg, a), e))
    ensures e.SenderFills? ==> Fresh(cfg, SenderOf(cfg, a)) == DataPackets(cfg, Due(cfg, SenderOf(cfg, a), e))
    ensures e.SenderReceives? ==>
      SenderSends(cfg, SenderOf(cfg, a), e.r) == DataPackets(cfg, Due(cfg, SenderOf(cfg, a), e))
    ensures e.ReceiverReceives? ==> Due(cfg, SenderOf(cfg, a), e) == []
  {
    var s := SenderOf(cfg, a);
    SenderOfOk(cfg, a);
    if e.SenderFills? {
      FreshIs(cfg, a);
    } else if e.SenderReceives? && e.r.TimedOut? {
      OutstandingIsPending(cfg, a, s.shift);
      if s.wbase < s.sqn {
        ResendIs(cfg, a);
      } else {
        ResendsNothing(cfg, s);
      }
    }
  }

  lemma {:induction false} SentFrom(cfg: Config, a: I.State, w: World, es: seq<Event>)
    requires cfg.Valid() && I.Inv(Par(cfg), a) && w == Conc(cfg, a)
    requires WorldOk(cfg, w) && Legal(cfg, w, es)
    ensures InFile(cfg, AllDue(cfg, w, es)) && Sent(cfg, w, es) == DataPackets(cfg, AllDue(cfg, w, es))
    decreases es
  {
    if es != [] {
      var ie := FirstAbstracted(cfg, a, w, es);
      Square(cfg, a, ie, es[0]);
      var a' := I.Step(Par(cfg), a, ie);
      SentFrom(cfg, a', Conc(cfg, a'), es[1..]);
      StepSendsDue(cfg, a, ie, es[0]);
      DataPacketsConcat(cfg, Due(cfg, w.s, es[0]), AllDue(cfg, Conc(cfg, a'), es[1..]));
    }
  }

  /** Over a whole run the sender sends exactly what is due, packet for packet, in
      order: after each fill and each timeout, and at no other time. */
  lemma SentIsDue(cfg: Config, es: seq<Event>, w: World)
    requires Reaches(cfg, es, w)
    ensures InFile(cfg, AllDue(cfg, Init(cfg), es))
    ensures Sent(cfg, Init(cfg), es) == DataPackets(cfg, AllDue(cfg, Init(cfg), es))
  {
    InitIsConc(cfg);
    SentFrom(cfg, I.INIT, Init(cfg), es);
  }

  predicate NoTimeout(es: seq<Event>) {
    forall i :: 0 <= i < |es| ==> es[i] != SenderReceives(TimedOut)
  }

  lemma {:induction false} DueWithoutTimeout(cfg: Config, a: I.State, w: World, es: seq<Event>, w': World)
    requires cfg.Valid() && I.Inv(Par(cfg), a) && w == Conc(cfg, a)
    requires WorldOk(cfg, w) && Legal(cfg, w, es) && Run(cfg, w, es) == Done(w') && NoTimeout(es)
    ensures a.next <= SentOnce(w'.s) && AllDue(cfg, w, es) == Range(a.next, SentOnce(w'.s))
    decreases es
  {
    SenderOfOk(cfg, a);
    if es != [] {
      var ie := FirstAbstracted(cfg, a, w, es);
      Square(cfg, a, ie, es[0]);
      var a' := I.Step(Par(cfg), a, ie);
      SenderOfOk(cfg, a');
      DueWithoutTimeout(cfg, a', Conc(cfg, a'), es[1..], w');
      DueIsNext(cfg, a, ie, es[0]);
      RangesJoin(a.next, a'.next, SentOnce(w'.s));
    }
  }

  lemma RangesJoin(lo: nat, mid: nat, hi: nat)
    requires lo <= mid <= hi
    ensures Range(lo, mid) + Range(mid, hi) == Range(lo, hi)
  {
  }

  lemma DueIsNext(cfg: Config, a: I.State, ie: I.Event, e: Event)
    requires cfg.Valid() && I.Inv(Par(cfg), a) && I.Enabled(Par(cfg), a, ie) && Matches(cfg, ie, e)
    requires e != SenderReceives(TimedOut)
    ensures var a' := I.Step(Par(cfg), a, ie);
      a.next <= a'.next && Due(cfg, SenderOf(cfg, a), e) == Range(a.next, a'.next)
  {
    SenderOfOk(cfg, a);
  }

  /** A run in which the sender never times out sends packets 0, 1, 2, ... exactly
      once each, in order. */
  lemma OnceWithoutTimeout(cfg: Config, es: seq<Event>, w: World)
    requires Reaches(cfg, es, w) && NoTimeout(es)
    ensures SentOnce(w.s) <= cfg.N()
    ensures Sent(cfg, Init(cfg), es) == DataPackets(cfg, Range(0, SentOnce(w.s)))
  {
    InitIsConc(cfg);
    SentIsDue(cfg, es, w);
    DueWithoutTimeout(cfg, I.INIT, Init(cfg), es, w);
    EndsAgree(cfg, es, w);
  }
}
