/** What holds in every run of the two transfer loops. */
module Delivery {
  import opened Bytes
  import opened Indices
  import opened SeqNum
  import opened Segments
  import opened Window
  import opened Wire
  import opened Protocol
  import opened Refinement

  /** The events es lead from the start of the transfer to w. */
  ghost predicate Reaches(cfg: Config, es: seq<Event>, w: World) {
    && cfg.Valid() && WorldOk(cfg, Init(cfg)) && Legal(cfg, Init(cfg), es)
    && Run(cfg, Init(cfg), es) == Done(w)
  }

  /** Behind every reachable state there is an ideal one. */
  ghost predicate Mirrors(cfg: Config, a: I.State, w: World) {
    && cfg.Valid() && I.Inv(Par(cfg), a) && I.Batched(Par(cfg), a) && I.Answered(Par(cfg), a)
    && w == Conc(cfg, a)
  }

  lemma {:induction false} RunKeepsAll(p: I.Params, a: I.State, ies: seq<I.Event>)
    requires I.Inv(p, a) && I.Batched(p, a) && I.Answered(p, a) && I.Legal(p, a, ies)
    ensures var b := I.Run(p, a, ies);
      I.Inv(p, b) && I.Batched(p, b) && I.Answered(p, b)
    decreases ies
  {
    if ies != [] {
      I.StepKeepsInv(p, a, ies[0]);
      I.StepKeepsBatched(p, a, ies[0]);
      I.StepKeepsAnswered(p, a, ies[0]);
      RunKeepsAll(p, I.Step(p, a, ies[0]), ies[1..]);
    }
  }

  lemma Mirror(cfg: Config, es: seq<Event>, w: World) returns (a: I.State)
    requires Reaches(cfg, es, w)
    ensures Mirrors(cfg, a, w)
  {
    var p := Par(cfg);
    InitIsConc(cfg);
    var ies := RunAbstracted(cfg, I.INIT, Init(cfg), es);
    RunSquare(cfg, I.INIT, Init(cfg), ies, es);
    RunKeepsAll(p, I.INIT, ies);
    a := I.Run(p, I.INIT, ies);
  }

  lemma {:induction false} RunsConcat(cfg: Config, w: World, es: seq<Event>, w': World, tail: seq<Event>)
    requires cfg.Typed() && WorldOk(cfg, w) && Legal(cfg, w, es) && Run(cfg, w, es) == Done(w')
    requires WorldOk(cfg, w') && Legal(cfg, w', tail)
    ensures Legal(cfg, w, es + tail) && Run(cfg, w, es + tail) == Run(cfg, w', tail)
    decreases es
  {
    if es == [] {
      assert es + tail == tail;
    } else {
      StepKeepsOk(cfg, w, es[0]);
      RunsConcat(cfg, Step(cfg, w, es[0]).value, es[1..], w', tail);
      assert (es + tail)[1..] == es[1..] + tail;
    }
  }

  /** These events can happen in w, and lead to w'. */
  predicate Leads(cfg: Config, w: World, tail: seq<Event>, w': World)
    requires cfg.Typed() && WorldOk(cfg, w)
  {
    Legal(cfg, w, tail) && Run(cfg, w, tail) == Done(w') && WorldOk(cfg, w')
  }

  lemma LeadsOn(cfg: Config, w: World, x: seq<Event>, v: World, y: seq<Event>, w': World)
    requires cfg.Typed() && WorldOk(cfg, w) && Leads(cfg, w, x, v) && Leads(cfg, v, y, w')
    ensures Leads(cfg, w, x + y, w')
  {
    RunsConcat(cfg, w, x, v, y);
  }

  lemma ReachesOn(cfg: Config, es: seq<Event>, w: World, tail: seq<Event>, w': World)
    requires Reaches(cfg, es, w) && WorldOk(cfg, w) && Leads(cfg, w, tail, w')
    ensures Reaches(cfg, es + tail, w')
  {
    RunsConcat(cfg, Init(cfg), es, w, tail);
  }

  lemma StepLeads(cfg: Config, w: World, e: Event)
    requires cfg.Typed() && WorldOk(cfg, w) && Enabled(cfg, w, e) && Step(cfg, w, e).Done?
    ensures Leads(cfg, w, [e], Step(cfg, w, e).value)
  {
    StepKeepsOk(cfg, w, e);
    assert [e][1..] == [];
  }

  // ---- The code and the ideal protocol simulate each other ----

  /** No run of the code ever leaves its arrays, and every run is, event for
      event, a run of the ideal protocol, arriving at its concrete form. */
  lemma CodeRefinesIdeal(cfg: Config, es: seq<Event>)
    requires cfg.Valid() && WorldOk(cfg, Init(cfg)) && Legal(cfg, Init(cfg), es)
    ensures exists ies ::
      && I.Legal(Par(cfg), I.INIT, ies) && AllMatch(cfg, ies, es)
      && I.Inv(Par(cfg), I.Run(Par(cfg), I.INIT, ies))
      && Run(cfg, Init(cfg), es) == Done(Conc(cfg, I.Run(Par(cfg), I.INIT, ies)))
  {
    InitIsConc(cfg);
    var ies := RunAbstracted(cfg, I.INIT, Init(cfg), es);
    RunSquare(cfg, I.INIT, Init(cfg), ies, es);
  }

  function EventFor(cfg: Config, ie: I.Event): (e: Event)
    requires ie.Data? ==> ie.k < cfg.N()
    ensures Matches(cfg, ie, e)
  {
    match ie
    case Fill => SenderFills
    case SenderIdle => SenderReceives(TimedOut)
    case Ack(m) => SenderReceives(Verified(AckPacket(cfg, m)))
    case ReceiverIdle => ReceiverReceives(Garbled(AckOf(0)))
    case Stop => ReceiverReceives(TimedOut)
    case Data(k) => ReceiverReceives(Verified(DataPacket(cfg, k)))
  }

  lemma {:induction false} EventsFor(cfg: Config, a: I.State, ies: seq<I.Event>) returns (es: seq<Event>)
    requires I.Inv(Par(cfg), a) && I.Legal(Par(cfg), a, ies)
    ensures AllMatch(cfg, ies, es)
    decreases ies
  {
    es := [];
    if ies != [] {
      I.StepKeepsInv(Par(cfg), a, ies[0]);
      var rest := EventsFor(cfg, I.Step(Par(cfg), a, ies[0]), ies[1..]);
      es := [EventFor(cfg, ies[0])] + rest;
      assert es[1..] == rest;
      MatchOneMore(cfg, ies, es);
    }
  }

  /** And every run of the ideal protocol is a run of the code. */
  lemma IdealRefinesCode(cfg: Config, ies: seq<I.Event>)
    requires cfg.Valid() && I.Legal(Par(cfg), I.INIT, ies)
    ensures I.Inv(Par(cfg), I.Run(Par(cfg), I.INIT, ies))
    ensures exists es ::
      && AllMatch(cfg, ies, es)
      && Reaches(cfg, es, Conc(cfg, I.Run(Par(cfg), I.INIT, ies)))
  {
    InitIsConc(cfg);
    var es := EventsFor(cfg, I.INIT, ies);
    RunSquare(cfg, I.INIT, Init(cfg), ies, es);
  }

  // ---- Delivery ----

  /** Once the sender has left its loop, the receiver's first fsize bytes are the
      rebuilt file, whatever became of the receiver: the file itself exactly when
      its length is 0 or not a multiple of PAYLOAD_MAX. */
  lemma Delivered(cfg: Config, es: seq<Event>, w: World)
    requires Reaches(cfg, es, w) && Finished(cfg, w.s)
    ensures w.v.fsize <= |w.v.buf|
    ensures w.v.buf[..w.v.fsize] == Rebuilt(cfg.file)
    ensures w.v.buf[..w.v.fsize] == cfg.file <==> SurvivesSegmentation(cfg.file)
  {
    var a := Mirror(cfg, es, w);
    I.FinishedMeansStored(Par(cfg), a);
    assert a.got == Below(cfg.N());
    SegmentationRoundTrip(cfg.file, cfg.buf0);
  }

  /** A receiver on its own has no such assurance: a timeout, or one garbled packet
      whose flags happen to have the FIN bit, makes it stop with nothing. */
  lemma GarbledFinStopsEmpty(cfg: Config, r: Reception)
    requires cfg.Valid() && cfg.N() > 0 && (r.TimedOut? || (r.Garbled? && r.found.flags & 4 != 0))
    ensures exists w ::
      && Reaches(cfg, [ReceiverReceives(r)], w)
      && !w.v.open && w.v.fsize == 0 && w.v.shift == 0 && !Finished(cfg, w.s)
  {
    InitOk(cfg);
    var w, e := Init(cfg), ReceiverReceives(r);
    StepLeads(cfg, w, e);
    assert Reaches(cfg, [e], Step(cfg, w, e).value);
  }

  // ---- What is where, at every moment ----

  lemma StartMeansEmpty(cfg: Config, es: seq<Event>, w: World)
    requires Reaches(cfg, es, w) && w.s == SenderInit(cfg)
    ensures w.v.shift == 0 && w.v.fsize == 0
  {
    var a := Mirror(cfg, es, w);
    SenderOfOk(cfg, a);
    AddDisInverse(cfg.start, cfg.start, 0);
    assert a.got == {};
    EndOfNothing(cfg.file, cfg.N());
  }

  /** Packet k lies below the base or is marked in the window that begins there. */
  predicate Counts(shift: nat, window: seq<bool>, k: nat) {
    k < shift || (k - shift < |window| && window[k - shift])
  }

  /** Packet k counts as acknowledged at the sender. */
  predicate CountsAcked(s: Sender, k: nat) {
    Counts(s.shift, s.window, k)
  }

  /** Packet k counts as stored at the receiver. */
  predicate CountsStored(v: Receiver, k: nat) {
    Counts(v.shift, v.window, k)
  }

  /** Whatever counts as acknowledged counts as stored. */
  ghost predicate AcksAreTrue(w: World) {
    forall k: nat :: CountsAcked(w.s, k) ==> CountsStored(w.v, k)
  }

  lemma CountedInMirror(cfg: Config, a: I.State, w: World, k: nat)
    requires Mirrors(cfg, a, w)
    ensures CountsStored(w.v, k) <==> k in a.got
    ensures CountsAcked(w.s, k) <==> k in a.acked
  {
    I.BasesOrdered(Par(cfg), a);
  }

  /** Byte j of the file lies in a packet that counts as stored. */
  predicate ByteStored(cfg: Config, v: Receiver, j: nat) {
    CountsStored(v, j / PAYLOAD_MAX) && j < End(cfg.file, j / PAYLOAD_MAX)
  }

  /** Reassembly: at every moment each byte of the buffer is the file's byte if
      it belongs to a packet that counts as stored, and is untouched otherwise;
      fsize is the largest end of a stored packet. */
  lemma Reassembly(cfg: Config, es: seq<Event>, w: World)
    requires Reaches(cfg, es, w)
    ensures |w.v.buf| == MAXBUF
    ensures forall j :: 0 <= j < MAXBUF && ByteStored(cfg, w.v, j) ==> j < |cfg.file| && w.v.buf[j] == cfg.file[j]
    ensures forall j :: 0 <= j < MAXBUF && !ByteStored(cfg, w.v, j) ==> w.v.buf[j] == cfg.buf0[j]
    ensures forall k :: 0 <= k && CountsStored(w.v, k) ==> k < cfg.N() && End(cfg.file, k) <= w.v.fsize
    ensures w.v.fsize == 0 || exists k :: 0 <= k < cfg.N() && CountsStored(w.v, k) && w.v.fsize == End(cfg.file, k)
  {
    var a := Mirror(cfg, es, w);
    forall j | 0 <= j < MAXBUF
      ensures ByteStored(cfg, w.v, j) ==> j < |cfg.file| && w.v.buf[j] == cfg.file[j]
      ensures !ByteStored(cfg, w.v, j) ==> w.v.buf[j] == cfg.buf0[j]
    {
      CountedInMirror(cfg, a, w, j / PAYLOAD_MAX);
      PlacedAt(cfg.file, cfg.buf0, a.got, j);
    }
    EndOfIsLargest(cfg.file, a.got, cfg.N());
    forall k: nat ensures CountsStored(w.v, k) <==> k in a.got {
      CountedInMirror(cfg, a, w, k);
    }
  }

  /** Every packet the sender counts as acknowledged is stored, the receiver is
      between the sender's base and the last packet sent, and the sender's base
      never moves back nor past the receiver, whatever acknowledgements arrive. */
  lemma EndsAgree(cfg: Config, es: seq<Event>, w: World)
    requires Reaches(cfg, es, w)
    ensures AcksAreTrue(w)
    ensures w.s.shift <= w.v.shift <= w.s.shift + SqnDis(w.s.wbase, w.s.sqn) <= cfg.N()
    ensures forall r :: Enabled(cfg, w, SenderReceives(r)) ==>
        SenderOk(cfg, w.s) && w.s.shift <= SenderAfter(cfg, w.s, r).shift <= w.v.shift
  {
    var a := Mirror(cfg, es, w);
    SenderOfOk(cfg, a);
    I.BasesOrdered(Par(cfg), a);
    forall k: nat ensures CountsAcked(w.s, k) ==> CountsStored(w.v, k) {
      CountedInMirror(cfg, a, w, k);
    }
    forall r | Enabled(cfg, w, SenderReceives(r))
      ensures w.s.shift <= SenderAfter(cfg, w.s, r).shift <= w.v.shift
    {
      var ie := Abstracted(cfg, a, SenderReceives(r));
      Square(cfg, a, ie, SenderReceives(r));
      var b := I.Step(Par(cfg), a, ie);
      I.BasesOrdered(Par(cfg), b);
      I.GapGrows(a.acked, b.acked, cfg.N());
    }
  }

  /** The window may not be larger: the receiver would take a packet of the first
      batch for one it has long stored, and acknowledge it unstored. */
  lemma TooLargeAWindow(cfg: Config) returns (es: seq<Event>, w: World)
    requires cfg.Typed() && cfg.sr && cfg.N() + cfg.wsize > TWO_31
    ensures WorldOk(cfg, Init(cfg)) && Leads(cfg, Init(cfg), es, w) && !AcksAreTrue(w)
  {
    var k := TWO_31 - cfg.wsize;
    var p := Numbered(cfg, At(cfg.start, k), k);
    InitOk(cfg);
    var w0 := Init(cfg);
    StepLeads(cfg, w0, SenderFills);
    var w1 := FilledAll(cfg, k);
    MisreadAsOld(cfg, w1.v, k);
    var e1 := ReceiverReceives(Verified(p));
    StepLeads(cfg, w1, e1);
    var w2 := Step(cfg, w1, e1).value;
    AckedUnstored(cfg, w2, k);
    var e2 := SenderReceives(Verified(AckOf(p.seqnum)));
    StepLeads(cfg, w2, e2);
    w := Step(cfg, w2, e2).value;
    LeadsOn(cfg, w0, [SenderFills], w1, [e1], w2);
    LeadsOn(cfg, w0, [SenderFills] + [e1], w2, [e2], w);
    es := [SenderFills] + [e1] + [e2];
    assert CountsAcked(w.s, k) && !CountsStored(w.v, k);
  }

  lemma FilledAll(cfg: Config, k: nat) returns (w: World)
    requires cfg.Typed() && cfg.N() <= cfg.wsize && 0 < k < cfg.N()
    requires WorldOk(cfg, Init(cfg)) && Enabled(cfg, Init(cfg), SenderFills)
    ensures Step(cfg, Init(cfg), SenderFills) == Done(w) && WorldOk(cfg, w)
    ensures w.s == SenderInit(cfg).(sqn := At(cfg.start, cfg.N())) && MustWait(cfg, w.s)
    ensures w.v == ReceiverInit(cfg) && Numbered(cfg, At(cfg.start, k), k) in w.toV
  {
    var s := SenderInit(cfg);
    w := Step(cfg, Init(cfg), SenderFills).value;
    FillKeepsOk(cfg, s);
    assert Fresh(cfg, s)[k] == Numbered(cfg, At(cfg.start, k), k);
  }

  lemma MisreadAsOld(cfg: Config, v: Receiver, k: nat)
    requires cfg.Typed() && cfg.sr && k == TWO_31 - cfg.wsize < cfg.N() && v == ReceiverInit(cfg)
    ensures Receive(cfg, v, Verified(Numbered(cfg, At(cfg.start, k), k))) == Done((v, [AckOf(At(cfg.start, k))]))
  {
    var w := cfg.wsize as int;
    AtAdd(cfg.start, 0, -w);
    AtAdd(cfg.start, -w, 0);
    AddSmall(cfg.start, 0);
    IsInByIndex(cfg.start, -w, -w, 0);
  }

  lemma AckedUnstored(cfg: Config, w: World, k: nat)
    requires cfg.Typed() && cfg.sr && WorldOk(cfg, w) && 0 < k < cfg.N() < TWO_31 && cfg.N() <= cfg.wsize
    requires w.s == SenderInit(cfg).(sqn := At(cfg.start, cfg.N())) && MustWait(cfg, w.s)
    ensures SenderAfter(cfg, w.s, Verified(AckOf(At(cfg.start, k)))) == w.s.(window := w.s.window[k := true])
  {
    var n, q := cfg.N(), At(cfg.start, k);
    AtAdd(cfg.start, k, 0);
    AddSmall(cfg.start, 0);
    IsInByIndex(cfg.start, k, 0, n);
    AtDis(cfg.start, 0, k);
    LeadingRunIs(w.s.window[k := true], 0);
    AddSmall(w.s.wbase, 0);
  }

  /** In Selective Repeat, what the sender counts as acknowledged is stored in
      every run exactly when file and window together fit on the ring. */
  lemma AcksAreTrueIffValid(cfg: Config)
    requires cfg.Typed() && cfg.sr
    ensures WorldOk(cfg, Init(cfg))
    ensures cfg.Valid() <==> forall es, w :: Leads(cfg, Init(cfg), es, w) ==> AcksAreTrue(w)
  {
    InitOk(cfg);
    if cfg.Valid() {
      forall es, w | Leads(cfg, Init(cfg), es, w) ensures AcksAreTrue(w) {
        EndsAgree(cfg, es, w);
      }
    } else {
      var es, w := TooLargeAWindow(cfg);
    }
  }

  /** Selective Repeat: whichever outstanding packet arrives, however often, the
      receiver answers it with its own acknowledgement. */
  lemma OutstandingIsAnswered(cfg: Config, es: seq<Event>, w: World, i: nat)
    requires Reaches(cfg, es, w) && cfg.sr && i < SqnDis(w.s.wbase, w.s.sqn)
    ensures w.s.shift + i < cfg.N() && ReceiverOk(cfg, w.v)
    ensures var p := Numbered(cfg, SeqnumAdd(w.s.wbase, i), w.s.shift + i);
      && p in w.toV
      && Receive(cfg, w.v, Verified(p)).Done?
      && Receive(cfg, w.v, Verified(p)).value.1 == [AckOf(p.seqnum)]
  {
    var a := Mirror(cfg, es, w);
    SenderOfOk(cfg, a);
    I.BasesOrdered(Par(cfg), a);
    var k := w.s.shift + i;
    AtAdd(cfg.start, w.s.shift, i);
    SelectiveSquareOpen(cfg, a, k);
    OneAck(cfg, k);
  }

  /** The square for arriving data does not depend on the loop still running. */
  lemma SelectiveSquareOpen(cfg: Config, a: I.State, k: nat)
    requires cfg.Valid() && cfg.sr && I.Inv(Par(cfg), a) && k < a.next
    ensures ReceiveSelective(cfg, ReceiverOf(cfg, a), DataPacket(cfg, k)).Done?
    ensures ReceiveSelective(cfg, ReceiverOf(cfg, a), DataPacket(cfg, k)).value.1
         == AckPackets(cfg, I.Reply(Par(cfg), a, k))
  {
    var b := a.(open := true);
    SelectiveSquare(cfg, b, k);
  }

  /** Go-Back-N: the receiver's bytes are always a prefix of the file, as long as
      the packets before its base, and an acknowledgement n in flight means that
      every packet before n is stored. */
  lemma GoBackNPrefix(cfg: Config, es: seq<Event>, w: World)
    requires Reaches(cfg, es, w) && !cfg.sr
    ensures w.v.shift <= cfg.N() && w.v.sqn == At(cfg.start, w.v.shift)
    ensures w.v.fsize == (if w.v.shift == 0 then 0 else End(cfg.file, w.v.shift - 1)) <= |cfg.file| <= |w.v.buf|
    ensures w.v.buf[..w.v.fsize] == cfg.file[..w.v.fsize]
    ensures forall p :: p in w.toS ==> exists n :: 0 <= n <= w.v.shift && p == AckOf(At(cfg.start, n))
  {
    var a := Mirror(cfg, es, w);
    var b := w.v.shift;
    I.GoBackNPrefix(Par(cfg), a);
    PrefixEnd(cfg.file, a.got, b);
    forall j | 0 <= j < w.v.fsize ensures w.v.buf[j] == cfg.file[j] {
      PrefixStored(cfg.file, b, j);
      PlacedAt(cfg.file, cfg.buf0, a.got, j);
    }
  }

  lemma PrefixEnd(file: seq<byte>, got: set<nat>, b: nat)
    requires forall k :: k in got <==> 0 <= k < b
    requires b <= NPackets(file)
    ensures EndOf(file, got, NPackets(file)) == (if b == 0 then 0 else End(file, b - 1)) <= |file|
  {
    if b < NPackets(file) {
      EndOfPrefix(file, got, b, NPackets(file));
    }
    if b > 0 {
      EndInFile(file, b - 1);
    }
  }

  lemma PrefixStored(file: seq<byte>, b: nat, j: nat)
    requires 0 < b <= NPackets(file) && j < End(file, b - 1)
    ensures j / PAYLOAD_MAX < b && j < End(file, j / PAYLOAD_MAX)
  {
    EndInFile(file, b - 1);
    EndInFile(file, j / PAYLOAD_MAX);
  }

  // ---- Batches ----

  /** Every fill starts at a multiple of the window size. While the sender waits,
      it has sent everything up to the end of the batch its base lies in, and no
      more. */
  lemma BatchDiscipline(cfg: Config, es: seq<Event>, w: World)
    requires Reaches(cfg, es, w)
    ensures MustFill(cfg, w.s) ==> w.s.shift % cfg.wsize == 0
    ensures MustWait(cfg, w.s) ==>
        w.s.sqn == At(cfg.start, I.Min(cfg.N(), (w.s.shift / cfg.wsize + 1) * cfg.wsize))
    ensures UnmarkedFrom(w.s.window, SqnDis(w.s.wbase, w.s.sqn))
  {
    var a := Mirror(cfg, es, w);
    SenderOfOk(cfg, a);
    I.BatchBounds(Par(cfg), a);
  }

  /** The packets that fills have sent in a run, in order. */
  ghost function FreshlySent(cfg: Config, w: World, es: seq<Event>): seq<Packet>
    requires cfg.Valid() && WorldOk(cfg, w) && Legal(cfg, w, es)
    decreases es
  {
    if es == [] || Step(cfg, w, es[0]).Fault? then []
    else
      StepKeepsOk(cfg, w, es[0]);
      (if es[0].SenderFills? then Fresh(cfg, w.s) else [])
      + FreshlySent(cfg, Step(cfg, w, es[0]).value, es[1..])
  }

  function Range(lo: nat, hi: nat): (ks: seq<nat>)
    requires lo <= hi
    ensures |ks| == hi - lo && forall i :: 0 <= i < |ks| ==> ks[i] == lo + i
  {
    seq(hi - lo, i requires 0 <= i => lo + i)
  }

  /** Each packet is freshly sent once, in order, without gaps. */
  lemma FreshInOrder(cfg: Config, es: seq<Event>, w: World)
    requires Reaches(cfg, es, w)
    ensures w.s.shift + SqnDis(w.s.wbase, w.s.sqn) <= cfg.N()
    ensures FreshlySent(cfg, Init(cfg), es)
         == DataPackets(cfg, Range(0, w.s.shift + SqnDis(w.s.wbase, w.s.sqn)))
  {
    InitIsConc(cfg);
    FreshFrom(cfg, I.INIT, Init(cfg), es, w);
  }

  lemma {:induction false} FreshFrom(cfg: Config, a: I.State, w: World, es: seq<Event>, w': World)
    requires cfg.Valid() && I.Inv(Par(cfg), a) && w == Conc(cfg, a)
    requires WorldOk(cfg, w) && Legal(cfg, w, es) && Run(cfg, w, es) == Done(w')
    ensures var next := w'.s.shift + SqnDis(w'.s.wbase, w'.s.sqn);
      && a.next <= next <= cfg.N()
      && FreshlySent(cfg, w, es) == DataPackets(cfg, Range(a.next, next))
    decreases es
  {
    SenderOfOk(cfg, a);
    if es != [] {
      var ie := FirstAbstracted(cfg, a, w, es);
      Square(cfg, a, ie, es[0]);
      var a' := I.Step(Par(cfg), a, ie);
      FreshFrom(cfg, a', Conc(cfg, a'), es[1..], w');
      FreshStep(cfg, a, ie);
      RangeConcat(cfg, a.next, a'.next, w'.s.shift + SqnDis(w'.s.wbase, w'.s.sqn));
    }
  }

  /** What one event freshly sends: a fill, the packets up to the new next. */
  lemma FreshStep(cfg: Config, a: I.State, ie: I.Event)
    requires cfg.Valid() && I.Inv(Par(cfg), a) && I.Enabled(Par(cfg), a, ie)
    ensures var a' := I.Step(Par(cfg), a, ie);
      && a.next <= a'.next
      && (ie.Fill? ==> a'.next <= cfg.N() && Fresh(cfg, SenderOf(cfg, a)) == DataPackets(cfg, Range(a.next, a'.next)))
      && (!ie.Fill? ==> a'.next == a.next)
  {
    if ie.Fill? {
      FreshIs(cfg, a);
    }
  }

  lemma RangeConcat(cfg: Config, lo: nat, mid: nat, hi: nat)
    requires lo <= mid <= hi <= cfg.N()
    ensures DataPackets(cfg, Range(lo, mid)) + DataPackets(cfg, Range(mid, hi)) == DataPackets(cfg, Range(lo, hi))
    ensures DataPackets(cfg, Range(lo, lo)) == []
  {
  }

  // ---- Progress ----

  /** How many receptions of a run changed the sender's variables. */
  ghost function Changes(cfg: Config, w: World, es: seq<Event>): nat
    requires cfg.Valid() && WorldOk(cfg, w) && Legal(cfg, w, es)
    decreases es
  {
    if es == [] || Step(cfg, w, es[0]).Fault? then 0
    else
      StepKeepsOk(cfg, w, es[0]);
      (if es[0].SenderReceives? && Step(cfg, w, es[0]).value.s != w.s then 1 else 0)
      + Changes(cfg, Step(cfg, w, es[0]).value, es[1..])
  }

  /** However many acknowledgements arrive, at most one per packet of the file
      changes anything. */
  lemma ChangesBounded(cfg: Config, es: seq<Event>)
    requires cfg.Valid() && WorldOk(cfg, Init(cfg)) && Legal(cfg, Init(cfg), es)
    ensures Changes(cfg, Init(cfg), es) <= cfg.N()
  {
    InitIsConc(cfg);
    ChangesFrom(cfg, I.INIT, Init(cfg), es);
  }

  lemma {:induction false} ChangesFrom(cfg: Config, a: I.State, w: World, es: seq<Event>)
    requires cfg.Valid() && I.Inv(Par(cfg), a) && w == Conc(cfg, a)
    requires WorldOk(cfg, w) && Legal(cfg, w, es)
    ensures Changes(cfg, w, es) + |a.acked| <= cfg.N()
    decreases es
  {
    if es == [] {
      I.AckedAtMostAll(Par(cfg), a);
    } else {
      var ie := FirstAbstracted(cfg, a, w, es);
      Square(cfg, a, ie, es[0]);
      var a' := I.Step(Par(cfg), a, ie);
      ChangesFrom(cfg, a', Conc(cfg, a'), es[1..]);
      if ie.Ack? {
        I.AckProgress(Par(cfg), a, ie.m);
      }
    }
  }

  /** One acknowledgement in Selective Repeat changes the sender exactly when
      its packet did not count as acknowledged, and then only in that. */
  lemma AckEffectSelective(cfg: Config, es: seq<Event>, w: World, m: nat)
    requires Reaches(cfg, es, w) && cfg.sr && m <= cfg.N()
    requires Enabled(cfg, w, SenderReceives(Verified(AckPacket(cfg, m))))
    ensures SenderOk(cfg, w.s)
    ensures var s' := SenderAfter(cfg, w.s, Verified(AckPacket(cfg, m)));
      && (s' != w.s <==> !CountsAcked(w.s, m))
      && forall k :: 0 <= k ==> (CountsAcked(s', k) <==> CountsAcked(w.s, k) || k == m)
  {
    var a := Mirror(cfg, es, w);
    AckInMirror(cfg, a, m);
    AckChangesSelective(cfg, a, m);
    forall k: nat
      ensures CountsAcked(SenderOf(cfg, I.Step(Par(cfg), a, I.Ack(m))), k) <==> CountsAcked(w.s, k) || k == m
    {
      CountsAfterAck(cfg, a, m, k);
    }
    CountedAcked(cfg, a, m);
  }

  lemma AckChangesSelective(cfg: Config, a: I.State, m: nat)
    requires cfg.Valid() && cfg.sr && I.Inv(Par(cfg), a) && I.Enabled(Par(cfg), a, I.Ack(m))
    requires SenderOk(cfg, SenderOf(cfg, a)) && MustWait(cfg, SenderOf(cfg, a))
    ensures var s' := SenderAfter(cfg, SenderOf(cfg, a), Verified(AckPacket(cfg, m)));
      && s' == SenderOf(cfg, I.Step(Par(cfg), a, I.Ack(m)))
      && (s' != SenderOf(cfg, a) <==> m !in a.acked)
  {
    AckSquareSelective(cfg, a, m);
    I.AckProgress(Par(cfg), a, m);
    I.AckKeepsInv(Par(cfg), a, m);
    CountedAcked(cfg, a, m);
    CountedAcked(cfg, I.Step(Par(cfg), a, I.Ack(m)), m);
    I.BasesOrdered(Par(cfg), a);
  }

  lemma CountsAfterAck(cfg: Config, a: I.State, m: nat, k: nat)
    requires cfg.Valid() && cfg.sr && I.Inv(Par(cfg), a) && I.Enabled(Par(cfg), a, I.Ack(m))
    ensures CountsAcked(SenderOf(cfg, I.Step(Par(cfg), a, I.Ack(m))), k) <==> CountsAcked(SenderOf(cfg, a), k) || k == m
  {
    I.AckKeepsInv(Par(cfg), a, m);
    I.BasesOrdered(Par(cfg), a);
    CountedAcked(cfg, a, k);
    CountedAcked(cfg, I.Step(Par(cfg), a, I.Ack(m)), k);
  }

  /** In Go-Back-N exactly when it is beyond the base, which then moves up to it. */
  lemma AckEffectGoBackN(cfg: Config, es: seq<Event>, w: World, m: nat)
    requires Reaches(cfg, es, w) && !cfg.sr && m <= cfg.N()
    requires Enabled(cfg, w, SenderReceives(Verified(AckPacket(cfg, m))))
    ensures SenderOk(cfg, w.s)
    ensures var s' := SenderAfter(cfg, w.s, Verified(AckPacket(cfg, m)));
      && s'.shift == (if m > w.s.shift then m else w.s.shift)
      && (s' != w.s <==> m > w.s.shift)
  {
    var a := Mirror(cfg, es, w);
    AckInMirror(cfg, a, m);
    I.AckProgress(Par(cfg), a, m);
    AckSquareGoBackN(cfg, a, m);
  }

  lemma AckInMirror(cfg: Config, a: I.State, m: nat)
    requires cfg.Valid() && I.Inv(Par(cfg), a) && m <= cfg.N()
    requires Enabled(cfg, Conc(cfg, a), SenderReceives(Verified(AckPacket(cfg, m))))
    ensures SenderOk(cfg, SenderOf(cfg, a)) && MustWait(cfg, SenderOf(cfg, a))
    ensures I.Enabled(Par(cfg), a, I.Ack(m))
  {
    SenderOfOk(cfg, a);
    var n: nat :| n in a.acks && AckPacket(cfg, m) == AckPacket(cfg, n);
    I.BasesOrdered(Par(cfg), a);
    AtInjective(cfg.start, n, m);
  }

  lemma CountedAcked(cfg: Config, a: I.State, k: nat)
    requires cfg.Valid() && I.Inv(Par(cfg), a)
    ensures CountsAcked(SenderOf(cfg, a), k) <==> k in a.acked
  {
    I.BasesOrdered(Par(cfg), a);
  }

  // ---- The interval test ----

  /** The ring test is never asked about an empty interval, which it would read
      as the whole ring, however large the window. */
  lemma NeverEmptyInterval(cfg: Config, es: seq<Event>, w: World)
    requires cfg.Typed() && WorldOk(cfg, Init(cfg)) && Leads(cfg, Init(cfg), es, w)
    ensures MustFill(cfg, w.s) ==> SenderOk(cfg, w.s) && AfterFill(cfg, w.s).wbase != AfterFill(cfg, w.s).sqn
    ensures SeqnumAdd(w.v.wbase, -(cfg.wsize as int)) != w.v.wbase
    ensures w.v.wbase != SeqnumAdd(w.v.wbase, cfg.wsize)
  {
    if MustFill(cfg, w.s) {
      FillKeepsOk(cfg, w.s);
    }
    AddMoves(w.v.wbase, cfg.wsize);
  }
}
