/** The data transfer loops of both ends as steps on their variables
    (transfer_data in lab2/src/sender.c and lab2/src/receiver.c), and the system
    that the two form over a channel that loses, duplicates, reorders and
    garbles datagrams. */
module Protocol {
  import opened Bytes
  import opened SeqNum
  import opened Segments
  import opened Window
  import opened Wire

  /** A memory access out of bounds is a Fault. */
  datatype Outcome<T> = Fault | Done(value: T)

  /** One transfer: sr is mode 1, otherwise mode 0; start is the number of the
      first data packet; buf0 is what the receiver's buffer happens to hold. */
  datatype Config = Config(file: seq<byte>, wsize: nat, sr: bool, start: seqnum, buf0: seq<byte>) {

    function N(): nat {
      NPackets(file)
    }

    /** What the C types impose: the file fits into the buffer, and the window
        size is a positive int. */
    predicate Typed() {
      |file| <= MAXBUF == |buf0| && 1 <= wsize < TWO_31
    }

    /** What the protocol needs besides: in Selective Repeat, a window that stays
        clear of the file on the ring. */
    predicate Valid() {
      Typed() && (sr ==> N() + wsize <= TWO_31)
    }
  }

  datatype Sender = Sender(sqn: seqnum, wbase: seqnum, shift: nat, window: seq<bool>)

  datatype Receiver = Receiver(sqn: uint32, wbase: seqnum, shift: nat, window: seq<bool>,
                               buf: seq<byte>, fsize: nat, open: bool)

  function Unmarked(wsize: nat): (w: seq<bool>)
    ensures |w| == wsize && forall i :: 0 <= i < wsize ==> !w[i]
  {
    seq(wsize, _ => false)
  }

  function SenderInit(cfg: Config): Sender {
    Sender(cfg.start, cfg.start, 0, Unmarked(cfg.wsize))
  }

  function ReceiverInit(cfg: Config): Receiver {
    Receiver(cfg.start, cfg.start, 0, Unmarked(cfg.wsize), cfg.buf0, 0, true)
  }

  // ---- Sender ----

  /** What the sender's variables always satisfy, whatever arrives: at most a
      window is outstanding, all of it inside the file, and only outstanding
      packets are marked, none at all in mode 0. This is what keeps its memory
      accesses in bounds. */
  predicate SenderOk(cfg: Config, s: Sender) {
    && |s.window| == cfg.wsize
    && SqnDis(s.wbase, s.sqn) <= cfg.wsize
    && s.shift + SqnDis(s.wbase, s.sqn) <= cfg.N()
    && UnmarkedFrom(s.window, if cfg.sr then SqnDis(s.wbase, s.sqn) else 0)
  }

  predicate UnmarkedFrom(w: seq<bool>, from: int) {
    forall i :: 0 <= i < |w| && from <= i ==> !w[i]
  }

  predicate MustFill(cfg: Config, s: Sender) {
    s.shift < cfg.N() && s.wbase == s.sqn
  }

  predicate MustWait(cfg: Config, s: Sender) {
    s.shift < cfg.N() && s.wbase != s.sqn
  }

  predicate Finished(cfg: Config, s: Sender) {
    s.shift >= cfg.N()
  }

  function Numbered(cfg: Config, sq: seqnum, k: nat): (p: Packet)
    requires k < cfg.N()
  {
    Packet(sq, 0, Chunk(cfg.file, k))
  }

  function FillCount(cfg: Config, s: Sender): nat
    requires s.shift <= cfg.N()
  {
    if cfg.wsize < cfg.N() - s.shift then cfg.wsize else cfg.N() - s.shift
  }

  /** The batch a fill sends. */
  function Fresh(cfg: Config, s: Sender): (ps: seq<Packet>)
    requires s.shift <= cfg.N()
    ensures |ps| == FillCount(cfg, s)
  {
    seq(FillCount(cfg, s), i requires 0 <= i < FillCount(cfg, s) =>
      Numbered(cfg, SeqnumAdd(s.sqn, i), s.shift + i))
  }

  function AfterFill(cfg: Config, s: Sender): Sender
    requires s.shift <= cfg.N()
  {
    s.(sqn := SeqnumAdd(s.sqn, FillCount(cfg, s)))
  }

  /** The packets a timeout sends again, from i on. The bound on i is compared
      as a plain number, so a batch that crosses the end of the ring is not
      sent again. */
  function Resend(cfg: Config, s: Sender, i: nat): seq<Packet>
    requires SenderOk(cfg, s)
    requires i == 0 || s.wbase + i <= s.sqn
    decreases s.sqn - s.wbase - i
  {
    ResendInBounds(cfg, s, i);
    if SeqnumAdd(s.wbase, i) < s.sqn then
      (if cfg.sr && s.window[i] then [] else [Numbered(cfg, SeqnumAdd(s.wbase, i), s.shift + i)])
      + Resend(cfg, s, i + 1)
    else []
  }

  lemma ResendInBounds(cfg: Config, s: Sender, i: nat)
    requires SenderOk(cfg, s)
    requires i == 0 || s.wbase + i <= s.sqn
    ensures s.wbase <= s.sqn ==> SqnDis(s.wbase, s.sqn) == s.sqn - s.wbase
    ensures SeqnumAdd(s.wbase, i) == s.wbase + i
    ensures SeqnumAdd(s.wbase, i) < s.sqn ==> i < SqnDis(s.wbase, s.sqn)
  {
    Low31Unique(s.wbase + i, s.wbase + i, 0);
    if s.wbase <= s.sqn {
      Low31Unique(s.sqn - s.wbase, s.sqn - s.wbase, 0);
    }
  }

  /** The packet that an acknowledgement numbered n is about: the one before it
      in Go-Back-N. */
  function Acknowledged(cfg: Config, n: uint32): seqnum {
    SeqnumAdd(n, if cfg.sr then 0 else -1)
  }

  lemma AcknowledgedInBounds(cfg: Config, s: Sender, q: seqnum)
    requires SenderOk(cfg, s) && s.wbase != s.sqn && SeqnumIsIn(q, s.wbase, s.sqn)
    ensures SqnDis(s.wbase, q) < SqnDis(s.wbase, s.sqn)
  {
    IsInByDistance(q, s.wbase, s.sqn);
  }

  /** The sender's variables after recv_packet has returned. */
  function SenderAfter(cfg: Config, s: Sender, r: Reception): Sender
    requires SenderOk(cfg, s) && MustWait(cfg, s)
  {
    if r.Verified? && r.packet.flags == RTP_ACK && SeqnumIsIn(Acknowledged(cfg, r.packet.seqnum), s.wbase, s.sqn) then
      var q := Acknowledged(cfg, r.packet.seqnum);
      AcknowledgedInBounds(cfg, s, q);
      var ind := SqnDis(s.wbase, q);
      if cfg.sr then
        var mov := Advance(s.window, ind);
        s.(shift := s.shift + mov, wbase := SeqnumAdd(s.wbase, mov), window := Updated(s.window, ind))
      else
        s.(shift := s.shift + ind + 1, wbase := SeqnumAdd(s.wbase, ind + 1))
    else s
  }

  /** What it sends before it waits again. */
  function SenderSends(cfg: Config, s: Sender, r: Reception): seq<Packet>
    requires SenderOk(cfg, s)
  {
    if r.TimedOut? then Resend(cfg, s, 0) else []
  }

  lemma FillKeepsOk(cfg: Config, s: Sender)
    requires cfg.Typed() && SenderOk(cfg, s) && MustFill(cfg, s)
    ensures SenderOk(cfg, AfterFill(cfg, s))
    ensures SqnDis(s.wbase, AfterFill(cfg, s).sqn) == FillCount(cfg, s) > 0
    ensures MustWait(cfg, AfterFill(cfg, s))
  {
    AddDisInverse(s.wbase, s.sqn, FillCount(cfg, s));
    AddDisInverse(s.wbase, s.sqn, 0);
  }

  lemma MovedStaysOk(cfg: Config, s: Sender, mov: nat, w: seq<bool>)
    requires SenderOk(cfg, s) && mov <= SqnDis(s.wbase, s.sqn)
    requires |w| == cfg.wsize && UnmarkedFrom(w, if cfg.sr then SqnDis(s.wbase, s.sqn) - mov else 0)
    ensures SenderOk(cfg, Sender(s.sqn, SeqnumAdd(s.wbase, mov), s.shift + mov, w))
  {
    DisAfterAdd(s.wbase, s.sqn, mov);
  }

  /** Whatever arrives, valid or not, expected or not, the sender stays within
      its window and its file. */
  lemma SenderStaysOk(cfg: Config, s: Sender, r: Reception)
    requires cfg.Typed() && SenderOk(cfg, s) && MustWait(cfg, s)
    ensures SenderOk(cfg, SenderAfter(cfg, s, r))
  {
    var s' := SenderAfter(cfg, s, r);
    if s' != s {
      var q, out := Acknowledged(cfg, r.packet.seqnum), SqnDis(s.wbase, s.sqn);
      AcknowledgedInBounds(cfg, s, q);
      var ind := SqnDis(s.wbase, q);
      if cfg.sr {
        AdvanceBounded(s.window, ind, out);
        MovedStaysOk(cfg, s, Advance(s.window, ind), Updated(s.window, ind));
      } else {
        MovedStaysOk(cfg, s, ind + 1, s.window);
      }
    }
  }

  /** Marks below out only, so the run of marks ends there at the latest. */
  lemma AdvanceBounded(w: seq<bool>, ind: nat, out: nat)
    requires ind < out <= |w|
    requires UnmarkedFrom(w, out)
    ensures Advance(w, ind) <= out
    ensures UnmarkedFrom(Updated(w, ind), out - Advance(w, ind))
  {
    var w' := w[ind := true];
    assert out < |w| ==> !w'[out];
    assert Updated(w, ind) == Slide(w', Advance(w, ind));
  }

  // ---- Receiver ----

  predicate ReceiverOk(cfg: Config, v: Receiver) {
    |v.window| == cfg.wsize && |v.buf| == MAXBUF
  }

  function AckOf(n: uint32): Packet {
    Packet(n, RTP_ACK, [])
  }

  /** Whether a reception ends the loop: a timeout, or the FIN bit, which is
      looked at even when the packet failed its checks. */
  predicate EndsTransfer(r: Reception) {
    match r
    case TimedOut => true
    case Garbled(p) => p.flags & RTP_FIN != 0
    case Verified(p) => p.flags & RTP_FIN != 0
  }

  predicate IsData(r: Reception) {
    r.Verified? && r.packet.flags == 0
  }

  /** The receiver's variables after storing a packet that lies ind packets
      behind its base. */
  function StoredSelective(cfg: Config, v: Receiver, ind: nat, payload: seq<byte>): Receiver
    requires ReceiverOk(cfg, v) && ind < cfg.wsize
    requires (ind + v.shift) * PAYLOAD_MAX + |payload| <= MAXBUF
  {
    var at := (ind + v.shift) * PAYLOAD_MAX;
    var mov := Advance(v.window, ind);
    v.(buf := Put(v.buf, at, payload),
       fsize := if v.fsize < at + |payload| then at + |payload| else v.fsize,
       shift := v.shift + mov,
       wbase := SeqnumAdd(v.wbase, mov),
       window := Updated(v.window, ind))
  }

  function ReceiveSelective(cfg: Config, v: Receiver, p: Packet): Outcome<(Receiver, seq<Packet>)>
    requires ReceiverOk(cfg, v)
  {
    if SeqnumIsIn(p.seqnum, SeqnumAdd(v.wbase, -(cfg.wsize as int)), v.wbase) then
      Done((v, [Packet(p.seqnum, RTP_ACK, [])]))
    else if SeqnumIsIn(p.seqnum, v.wbase, SeqnumAdd(v.wbase, cfg.wsize)) then
      var ind := SqnDis(v.wbase, p.seqnum);
      if ind >= cfg.wsize || (ind + v.shift) * PAYLOAD_MAX + |p.payload| > MAXBUF then Fault
      else Done((StoredSelective(cfg, v, ind, p.payload), [Packet(p.seqnum, RTP_ACK, [])]))
    else Done((v, []))
  }

  /** The same for a packet that is the next one. */
  function StoredNext(cfg: Config, v: Receiver, payload: seq<byte>): Receiver
    requires ReceiverOk(cfg, v) && v.shift * PAYLOAD_MAX + |payload| <= MAXBUF
  {
    v.(buf := Put(v.buf, v.shift * PAYLOAD_MAX, payload),
       fsize := v.fsize + |payload|,
       shift := v.shift + 1,
       sqn := SeqnumAdd(v.sqn, 1))
  }

  function ReceiveGoBackN(cfg: Config, v: Receiver, p: Packet): Outcome<(Receiver, seq<Packet>)>
    requires ReceiverOk(cfg, v)
  {
    if p.seqnum == v.sqn then
      if v.shift * PAYLOAD_MAX + |p.payload| > MAXBUF then Fault
      else
        var v' := StoredNext(cfg, v, p.payload);
        Done((v', [AckOf(v'.sqn)]))
    else Done((v, [AckOf(v.sqn)]))
  }

  function Receive(cfg: Config, v: Receiver, r: Reception): Outcome<(Receiver, seq<Packet>)>
    requires ReceiverOk(cfg, v)
  {
    if EndsTransfer(r) then Done((v.(open := false), []))
    else if !IsData(r) then Done((v, []))
    else if cfg.sr then ReceiveSelective(cfg, v, r.packet)
    else ReceiveGoBackN(cfg, v, r.packet)
  }

  lemma ReceiverStaysOk(cfg: Config, v: Receiver, r: Reception)
    requires ReceiverOk(cfg, v) && Receive(cfg, v, r).Done?
    ensures ReceiverOk(cfg, Receive(cfg, v, r).value.0)
  {
  }

  // ---- Who sends what ----

  lemma DataOnly(cfg: Config, s: Sender, r: Reception)
    requires SenderOk(cfg, s)
    ensures forall p :: p in Elements(SenderSends(cfg, s, r)) ==> p.flags == 0 && |p.payload| <= PAYLOAD_MAX
    ensures s.shift <= cfg.N() ==>
      forall p :: p in Elements(Fresh(cfg, s)) ==> p.flags == 0 && |p.payload| <= PAYLOAD_MAX
  {
    ResendFlags(cfg, s, 0);
  }

  lemma {:induction false} ResendFlags(cfg: Config, s: Sender, i: nat)
    requires SenderOk(cfg, s) && (i == 0 || s.wbase + i <= s.sqn)
    ensures forall p :: p in Resend(cfg, s, i) ==> p.flags == 0 && |p.payload| <= PAYLOAD_MAX
    decreases s.sqn - s.wbase - i
  {
    ResendInBounds(cfg, s, i);
    if SeqnumAdd(s.wbase, i) < s.sqn {
      ResendFlags(cfg, s, i + 1);
    }
  }

  lemma AcksOnly(cfg: Config, v: Receiver, r: Reception)
    requires ReceiverOk(cfg, v) && Receive(cfg, v, r).Done?
    ensures forall p :: p in Elements(Receive(cfg, v, r).value.1) ==> p.flags == RTP_ACK && p.payload == []
  {
  }

  // ---- The system ----

  /** Both ends, and every data packet and every acknowledgement ever sent. */
  datatype World = World(s: Sender, v: Receiver, toV: set<Packet>, toS: set<Packet>)

  datatype Event = SenderFills | SenderReceives(r: Reception) | ReceiverReceives(r: Reception)

  function Init(cfg: Config): World {
    World(SenderInit(cfg), ReceiverInit(cfg), {}, {})
  }

  predicate WorldOk(cfg: Config, w: World) {
    SenderOk(cfg, w.s) && ReceiverOk(cfg, w.v)
  }

  /** What may happen. A packet that passes the checks was sent: it is a data
      packet or acknowledgement of this transfer, or a packet of the handshake
      or the teardown, none of which carries the same flags. A timeout, or a
      packet that fails the checks and may claim anything, is always possible. */
  predicate Enabled(cfg: Config, w: World, e: Event) {
    match e
    case SenderFills => MustFill(cfg, w.s)
    case SenderReceives(r) =>
      MustWait(cfg, w.s) && (r.Verified? && r.packet.flags == RTP_ACK ==> r.packet in w.toS)
    case ReceiverReceives(r) =>
      w.v.open && (IsData(r) ==> r.packet in w.toV)
  }

  function Elements(ps: seq<Packet>): (s: set<Packet>)
    ensures forall p :: p in s <==> p in ps
  {
    set p | p in ps
  }

  function Step(cfg: Config, w: World, e: Event): Outcome<World>
    requires WorldOk(cfg, w) && Enabled(cfg, w, e)
  {
    match e
    case SenderFills =>
      Done(w.(s := AfterFill(cfg, w.s), toV := w.toV + Elements(Fresh(cfg, w.s))))
    case SenderReceives(r) =>
      Done(w.(s := SenderAfter(cfg, w.s, r), toV := w.toV + Elements(SenderSends(cfg, w.s, r))))
    case ReceiverReceives(r) =>
      match Receive(cfg, w.v, r)
      case Fault => Fault
      case Done((v, out)) => Done(w.(v := v, toS := w.toS + Elements(out)))
  }

  lemma StepKeepsOk(cfg: Config, w: World, e: Event)
    requires cfg.Typed() && WorldOk(cfg, w) && Enabled(cfg, w, e) && Step(cfg, w, e).Done?
    ensures WorldOk(cfg, Step(cfg, w, e).value)
  {
    match e {
      case SenderFills => FillKeepsOk(cfg, w.s);
      case SenderReceives(r) => SenderStaysOk(cfg, w.s, r);
      case ReceiverReceives(r) => ReceiverStaysOk(cfg, w.v, r);
    }
  }

  lemma InitOk(cfg: Config)
    requires cfg.Typed()
    ensures WorldOk(cfg, Init(cfg))
  {
    AddDisInverse(cfg.start, cfg.start, 0);
  }

  /** The events can happen one after the other. */
  predicate Legal(cfg: Config, w: World, es: seq<Event>)
    requires cfg.Typed() && WorldOk(cfg, w)
    decreases es
  {
    es == [] ||
    (Enabled(cfg, w, es[0]) &&
     (Step(cfg, w, es[0]).Done? ==>
        (StepKeepsOk(cfg, w, es[0]); Legal(cfg, Step(cfg, w, es[0]).value, es[1..]))))
  }

  function Run(cfg: Config, w: World, es: seq<Event>): Outcome<World>
    requires cfg.Typed() && WorldOk(cfg, w) && Legal(cfg, w, es)
    decreases es
  {
    if es == [] then Done(w)
    else if Step(cfg, w, es[0]).Fault? then Fault
    else
      StepKeepsOk(cfg, w, es[0]);
      Run(cfg, Step(cfg, w, es[0]).value, es[1..])
  }
}
