/** A whole session: establish_connection, transfer_data and break_connection of
    both ends (lab2/src/sender.c, lab2/src/receiver.c) over one channel each way
    that carries handshake, data and teardown packets alike. */
module Session {
  import opened Bytes
  import opened SeqNum
  import opened Segments
  import opened Wire
  import opened Protocol
  import opened Refinement
  import opened Delivery

  const SYN_ACK: bv8 := RTP_ACK | RTP_SYN
  const FIN_ACK: bv8 := RTP_ACK | RTP_FIN

  /** Connecting: waiting for the second handshake. Confirming: has sent the third
      and looks once for a repeated second. Closing: waiting for the answer to
      its FIN. */
  datatype SenderPhase = Connecting | Confirming | Sending | Closing | Closed

  /** AwaitingFin: has left the transfer loop and written the file. Lingering: has
      answered a FIN and looks once for another. Dead: has given up. */
  datatype ReceiverPhase = Listening | Answering | Receiving | AwaitingFin | Lingering | Ended | Dead

  /** An end is where it is in its main program, together with its variables.
      The variable sqn is shared by the three parts of the program; the other
      variables of transfer_data lie at their start until it begins. */
  datatype SenderEnd = SenderEnd(sp: SenderPhase, s: Sender)

  datatype ReceiverEnd = ReceiverEnd(vp: ReceiverPhase, v: Receiver)

  /** toV and toS hold every packet ever sent each way. */
  datatype State = State(snd: SenderEnd, rcv: ReceiverEnd, toV: set<Packet>, toS: set<Packet>)

  datatype Event = SenderReads(r: Reception) | SenderGoesOn | ReceiverReads(r: Reception)

  function Control(n: uint32, flags: bv8): Packet {
    Packet(n, flags, [])
  }

  predicate IsControl(r: Reception, n: uint32, flags: bv8) {
    r.Verified? && r.packet.seqnum == n && r.packet.flags == flags
  }

  // ---- The sender's program ----

  function SenderAt(cfg: Config, n: seqnum): Sender {
    Sender(n, n, 0, Unmarked(cfg.wsize))
  }

  /** It starts with a SYN already sent. */
  function SenderBegins(cfg: Config, isn: seqnum): SenderEnd {
    SenderEnd(Connecting, SenderAt(cfg, isn))
  }

  /** It reads from its socket next; otherwise it goes on by itself or is done. */
  predicate SenderWaits(cfg: Config, a: SenderEnd) {
    match a.sp
    case Sending => MustWait(cfg, a.s)
    case Closed => false
    case _ => true
  }

  function SenderTurn(cfg: Config, a: SenderEnd, r: Reception): (SenderEnd, seq<Packet>)
    requires SenderOk(cfg, a.s) && SenderWaits(cfg, a)
  {
    var sqn := a.s.sqn;
    match a.sp
    case Connecting =>
      if IsControl(r, SeqnumAdd(sqn, 1), SYN_ACK) then
        (SenderEnd(Confirming, SenderAt(cfg, SeqnumAdd(sqn, 1))), [Control(SeqnumAdd(sqn, 1), RTP_ACK)])
      else (a, [Control(sqn, RTP_SYN)])
    case Confirming =>
      (a.(sp := Sending), if IsControl(r, sqn, SYN_ACK) then [Control(sqn, RTP_ACK)] else [])
    case Sending =>
      (a.(s := SenderAfter(cfg, a.s, r)), SenderSends(cfg, a.s, r))
    case Closing =>
      if IsControl(r, sqn, FIN_ACK) then (a.(sp := Closed), []) else (a, [Control(sqn, RTP_FIN)])
    case Closed => (a, [])
  }

  /** Between reads: it fills the next batch, or leaves the transfer with a FIN. */
  function SenderMoves(cfg: Config, a: SenderEnd): (SenderEnd, seq<Packet>)
    requires a.sp == Sending && a.s.shift <= cfg.N()
  {
    if Finished(cfg, a.s) then (a.(sp := Closing), [Control(a.s.sqn, RTP_FIN)])
    else (a.(s := AfterFill(cfg, a.s)), Fresh(cfg, a.s))
  }

  // ---- The receiver's program ----

  function ReceiverBegins(cfg: Config): ReceiverEnd {
    ReceiverEnd(Listening, Receiver(0, 0, 0, Unmarked(cfg.wsize), cfg.buf0, 0, true))
  }

  predicate ReceiverWaits(b: ReceiverEnd) {
    b.vp != Ended && b.vp != Dead
  }

  function ReceiverTurn(cfg: Config, b: ReceiverEnd, r: Reception): Outcome<(ReceiverEnd, seq<Packet>)>
    requires ReceiverOk(cfg, b.v)
  {
    match b.vp
    case Listening =>
      if r.TimedOut? then Done((b.(vp := Dead), []))
      else if r.Verified? && r.packet.flags == RTP_SYN then
        var n := SeqnumAdd(r.packet.seqnum, 1);
        Done((ReceiverEnd(Answering, b.v.(sqn := n, wbase := n)), [Control(n, SYN_ACK)]))
      else Done((b, []))
    case Answering =>
      if IsControl(r, b.v.sqn, RTP_ACK) then Done((b.(vp := Receiving), []))
      else Done((b, [Control(b.v.sqn, SYN_ACK)]))
    case Receiving =>
      (match Receive(cfg, b.v, r)
       case Fault => Fault
       case Done((v, out)) => Done((ReceiverEnd(if v.open then Receiving else AwaitingFin, v), out)))
    case AwaitingFin =>
      if r.Verified? && r.packet.flags == RTP_FIN then
        Done((ReceiverEnd(Lingering, b.v.(sqn := r.packet.seqnum)), [Control(r.packet.seqnum, FIN_ACK)]))
      else Done((b, []))
    case Lingering =>
      var n := if r.TimedOut? then b.v.sqn else if r.Verified? then r.packet.seqnum else r.found.seqnum;
      Done((ReceiverEnd(Ended, b.v.(sqn := n)),
            if r.Verified? && r.packet.flags == RTP_FIN then [Control(n, FIN_ACK)] else []))
    case Ended => Done((b, []))
    case Dead => Done((b, []))
  }

  // ---- Both together ----

  /** isn is what get_random_seqnum returned; data starts one further. */
  predicate ValidStart(cfg: Config, isn: seqnum) {
    cfg.Valid() && cfg.start == SeqnumAdd(isn, 1)
  }

  function Begin(cfg: Config, isn: seqnum): State {
    State(SenderBegins(cfg, isn), ReceiverBegins(cfg), {Control(isn, RTP_SYN)}, {})
  }

  /** The end concerned reads next, or goes on by itself. */
  predicate Ready(cfg: Config, x: State, e: Event) {
    match e
    case SenderReads(_) => SenderWaits(cfg, x.snd)
    case SenderGoesOn => x.snd.sp == Sending && !MustWait(cfg, x.snd.s)
    case ReceiverReads(_) => ReceiverWaits(x.rcv)
  }

  /** And what passes the checks was sent. */
  predicate CanHappen(cfg: Config, x: State, e: Event) {
    && Ready(cfg, x, e)
    && (e.SenderReads? && e.r.Verified? ==> e.r.packet in x.toS)
    && (e.ReceiverReads? && e.r.Verified? ==> e.r.packet in x.toV)
  }

  predicate Sound(cfg: Config, x: State) {
    SenderOk(cfg, x.snd.s) && ReceiverOk(cfg, x.rcv.v)
  }

  function Next(cfg: Config, x: State, e: Event): Outcome<State>
    requires Sound(cfg, x) && Ready(cfg, x, e)
  {
    match e
    case SenderReads(r) =>
      var (a, out) := SenderTurn(cfg, x.snd, r);
      Done(x.(snd := a, toV := x.toV + Elements(out)))
    case SenderGoesOn =>
      var (a, out) := SenderMoves(cfg, x.snd);
      Done(x.(snd := a, toV := x.toV + Elements(out)))
    case ReceiverReads(r) =>
      match ReceiverTurn(cfg, x.rcv, r)
      case Fault => Fault
      case Done((b, out)) => Done(x.(rcv := b, toS := x.toS + Elements(out)))
  }

  // ---- The transfer inside the session ----

  predicate SenderBegun(a: SenderEnd) {
    a.sp != Connecting && a.sp != Confirming
  }

  predicate ReceiverBegun(b: ReceiverEnd) {
    b.vp != Listening && b.vp != Answering && b.vp != Dead
  }

  predicate ReceiverLeft(b: ReceiverEnd) {
    b.vp == AwaitingFin || b.vp == Lingering || b.vp == Ended
  }

  function WithFlags(ps: set<Packet>, flags: bv8): (r: set<Packet>)
    ensures forall p :: p in r <==> p in ps && p.flags == flags
  {
    set p | p in ps && p.flags == flags
  }

  /** The receiver's variables as its transfer loop has or had them: at their
      start before, and with the loop's own sqn after the teardown has used it. */
  function TransferPart(cfg: Config, b: ReceiverEnd): Receiver {
    if !ReceiverBegun(b) then ReceiverInit(cfg)
    else b.v.(sqn := if cfg.sr then cfg.start else At(cfg.start, b.v.shift))
  }

  /** The two transfer loops as they stand, each at its start if not yet begun,
      and the data packets and acknowledgements among all packets sent. */
  function View(cfg: Config, x: State): World {
    World(if SenderBegun(x.snd) then x.snd.s else SenderInit(cfg), TransferPart(cfg, x.rcv),
          WithFlags(x.toV, 0), WithFlags(x.toS, RTP_ACK))
  }

  // ---- The invariant of sessions ----

  predicate PacketToV(cfg: Config, isn: seqnum, x: State, p: Packet) {
    || (p.flags == 0 && |p.payload| <= PAYLOAD_MAX)
    || p == Control(isn, RTP_SYN)
    || (p == Control(cfg.start, RTP_ACK) && x.snd.sp != Connecting)
    || (p.flags == RTP_FIN && p.payload == [] && (x.snd.sp == Closing || x.snd.sp == Closed))
  }

  predicate PacketToS(cfg: Config, x: State, p: Packet) {
    || (p.flags == RTP_ACK && p.payload == [])
    || p == Control(cfg.start, SYN_ACK)
    || (p.flags == FIN_ACK && p.payload == [] && (x.rcv.vp == Lingering || x.rcv.vp == Ended))
  }

  ghost predicate Reachable(cfg: Config, w: World) {
    exists es :: Reaches(cfg, es, w)
  }

  predicate SenderEndInv(cfg: Config, isn: seqnum, a: SenderEnd) {
    && SenderOk(cfg, a.s)
    && (a.sp == Connecting ==> a.s == SenderAt(cfg, isn))
    && (a.sp == Confirming ==> a.s == SenderInit(cfg))
    && (a.sp == Closing || a.sp == Closed ==> Finished(cfg, a.s))
  }

  predicate ReceiverEndInv(cfg: Config, b: ReceiverEnd) {
    && ReceiverOk(cfg, b.v)
    && (b.vp == Listening ==> b == ReceiverBegins(cfg))
    && (b.vp == Answering ==> b.v == ReceiverInit(cfg))
    && (b.vp == Receiving ==> b.v == TransferPart(cfg, b))
    && (ReceiverBegun(b) ==> (b.v.open <==> b.vp == Receiving))
  }

  ghost predicate SessionInv(cfg: Config, isn: seqnum, x: State) {
    && ValidStart(cfg, isn)
    && SenderEndInv(cfg, isn, x.snd)
    && ReceiverEndInv(cfg, x.rcv)
    && Reachable(cfg, View(cfg, x))
    && (forall p :: p in x.toV ==> PacketToV(cfg, isn, x, p))
    && (forall p :: p in x.toS ==> PacketToS(cfg, x, p))
    && (x.snd.sp == Closed ==> x.rcv.vp == Lingering || x.rcv.vp == Ended)
  }

  /** How far the two ends can be apart, and what each has sent by then. */
  predicate PhasesAgree(a: SenderEnd, b: ReceiverEnd) {
    && (a.sp == Connecting ==> b.vp == Listening || b.vp == Answering || b.vp == Dead)
    && (a.sp != Connecting ==> b.vp != Listening && b.vp != Dead)
    && (b.vp == Lingering || b.vp == Ended ==> a.sp == Closing || a.sp == Closed)
  }

  predicate Paired(cfg: Config, x: State) {
    && PhasesAgree(x.snd, x.rcv)
    && (x.snd.sp != Connecting ==> Control(cfg.start, RTP_ACK) in x.toV)
    && (forall p :: p in x.toV && p.flags == RTP_FIN ==> p.seqnum == x.snd.s.sqn)
    && (forall p :: p in x.toS && p.flags == SYN_ACK ==> x.rcv.vp != Listening && x.rcv.vp != Dead)
    && (x.rcv.vp == Lingering || x.rcv.vp == Ended ==> Control(x.snd.s.sqn, FIN_ACK) in x.toS)
  }

  lemma BeginInv(cfg: Config, isn: seqnum)
    requires ValidStart(cfg, isn)
    ensures SessionInv(cfg, isn, Begin(cfg, isn)) && Paired(cfg, Begin(cfg, isn))
  {
    InitOk(cfg);
    AddDisInverse(isn, isn, 0);
    var x := Begin(cfg, isn);
    assert WithFlags(x.toV, 0) == {} && WithFlags(x.toS, RTP_ACK) == {};
    assert Reaches(cfg, [], View(cfg, x));
  }

  // ---- Extending a run ----

  /** A transfer that has come this far can go on with anything enabled, and does
      not fault. */
  lemma Extend(cfg: Config, w: World, e: Protocol.Event)
    requires Reachable(cfg, w) && Enabled(cfg, w, e)
    ensures WorldOk(cfg, w) && Step(cfg, w, e).Done?
    ensures WorldOk(cfg, Step(cfg, w, e).value) && Reachable(cfg, Step(cfg, w, e).value)
  {
    var es :| Reaches(cfg, es, w);
    var a := Mirror(cfg, es, w);
    var ie := Abstracted(cfg, a, e);
    Square(cfg, a, ie, e);
    StepLeads(cfg, w, e);
    ReachesOn(cfg, es, w, [e], Step(cfg, w, e).value);
    assert Reaches(cfg, es + [e], Step(cfg, w, e).value);
  }

  // ---- Every step keeps it ----

  lemma FlagsDiffer()
    ensures SYN_ACK == 3 && FIN_ACK == 6
    ensures RTP_SYN & RTP_FIN == 0 && RTP_ACK & RTP_FIN == 0 && (0 as bv8) & RTP_FIN == 0
    ensures RTP_FIN & RTP_FIN != 0
  {
  }

  lemma SenderHandshakeKeepsInv(cfg: Config, isn: seqnum, x: State, r: Reception)
    requires SessionInv(cfg, isn, x) && CanHappen(cfg, x, SenderReads(r)) && x.snd.sp != Sending
    ensures SessionInv(cfg, isn, Next(cfg, x, SenderReads(r)).value)
  {
    var y := Next(cfg, x, SenderReads(r)).value;
    FlagsDiffer();
    InitOk(cfg);
    assert WithFlags(y.toV, 0) == WithFlags(x.toV, 0);
    assert View(cfg, y) == View(cfg, x);
    assert y.snd.sp == Closed ==> PacketToS(cfg, x, r.packet);
  }

  lemma SenderTransferKeepsInv(cfg: Config, isn: seqnum, x: State, r: Reception)
    requires SessionInv(cfg, isn, x) && CanHappen(cfg, x, SenderReads(r)) && x.snd.sp == Sending
    ensures SessionInv(cfg, isn, Next(cfg, x, SenderReads(r)).value)
    ensures WorldOk(cfg, View(cfg, x))
    ensures Step(cfg, View(cfg, x), SenderReceives(r)) == Done(View(cfg, Next(cfg, x, SenderReads(r)).value))
  {
    var w, y := View(cfg, x), Next(cfg, x, SenderReads(r)).value;
    DataOnly(cfg, x.snd.s, r);
    Extend(cfg, w, SenderReceives(r));
    assert WithFlags(y.toV, 0) == w.toV + Elements(SenderSends(cfg, x.snd.s, r));
    assert View(cfg, y) == Step(cfg, w, SenderReceives(r)).value;
  }

  lemma SenderMovesKeepsInv(cfg: Config, isn: seqnum, x: State)
    requires SessionInv(cfg, isn, x) && CanHappen(cfg, x, SenderGoesOn)
    ensures SessionInv(cfg, isn, Next(cfg, x, SenderGoesOn).value)
    ensures WorldOk(cfg, View(cfg, x)) && (!Finished(cfg, x.snd.s) ==>
      Step(cfg, View(cfg, x), SenderFills) == Done(View(cfg, Next(cfg, x, SenderGoesOn).value)))
  {
    var w, y := View(cfg, x), Next(cfg, x, SenderGoesOn).value;
    FlagsDiffer();
    if Finished(cfg, x.snd.s) {
      assert WithFlags(y.toV, 0) == WithFlags(x.toV, 0);
      assert View(cfg, y) == View(cfg, x);
    } else {
      DataOnly(cfg, x.snd.s, TimedOut);
      Extend(cfg, w, SenderFills);
      assert WithFlags(y.toV, 0) == w.toV + Elements(Fresh(cfg, x.snd.s));
      assert View(cfg, y) == Step(cfg, w, SenderFills).value;
    }
  }

  lemma ReceiverHandshakeKeepsInv(cfg: Config, isn: seqnum, x: State, r: Reception)
    requires SessionInv(cfg, isn, x) && CanHappen(cfg, x, ReceiverReads(r)) && x.rcv.vp != Receiving
    ensures Next(cfg, x, ReceiverReads(r)).Done? && SessionInv(cfg, isn, Next(cfg, x, ReceiverReads(r)).value)
  {
    var y := Next(cfg, x, ReceiverReads(r)).value;
    FlagsDiffer();
    StartIsAt(cfg);
    assert r.Verified? ==> PacketToV(cfg, isn, x, r.packet);
    assert WithFlags(y.toS, RTP_ACK) == WithFlags(x.toS, RTP_ACK);
    assert View(cfg, y) == View(cfg, x);
  }

  lemma StartIsAt(cfg: Config)
    ensures At(cfg.start, 0) == cfg.start
  {
    AddSmall(cfg.start, 0);
  }

  /** In Go-Back-N the loop's sqn follows from how many packets it has stored; in
      Selective Repeat the loop does not touch it. */
  lemma LoopSqn(cfg: Config, w: World)
    requires Reachable(cfg, w)
    ensures w.v.sqn == if cfg.sr then cfg.start else At(cfg.start, w.v.shift)
    ensures cfg.sr ==> w.v.wbase == At(cfg.start, w.v.shift)
    ensures w.s.wbase == At(cfg.start, w.s.shift)
  {
    var es :| Reaches(cfg, es, w);
    var a := Mirror(cfg, es, w);
  }

  lemma ReceiverTransferKeepsInv(cfg: Config, isn: seqnum, x: State, r: Reception)
    requires SessionInv(cfg, isn, x) && CanHappen(cfg, x, ReceiverReads(r)) && x.rcv.vp == Receiving
    ensures Next(cfg, x, ReceiverReads(r)).Done? && SessionInv(cfg, isn, Next(cfg, x, ReceiverReads(r)).value)
    ensures WorldOk(cfg, View(cfg, x))
    ensures Step(cfg, View(cfg, x), ReceiverReceives(r)) == Done(View(cfg, Next(cfg, x, ReceiverReads(r)).value))
  {
    var w := View(cfg, x);
    Extend(cfg, w, ReceiverReceives(r));
    AcksOnly(cfg, x.rcv.v, r);
    var y, w' := Next(cfg, x, ReceiverReads(r)).value, Step(cfg, w, ReceiverReceives(r)).value;
    LoopSqn(cfg, w');
    assert WithFlags(y.toS, RTP_ACK) == w.toS + Elements(Receive(cfg, x.rcv.v, r).value.1);
    assert View(cfg, y) == w';
  }

  lemma NextKeepsInv(cfg: Config, isn: seqnum, x: State, e: Event)
    requires SessionInv(cfg, isn, x) && CanHappen(cfg, x, e)
    ensures Next(cfg, x, e).Done? && SessionInv(cfg, isn, Next(cfg, x, e).value)
  {
    match e {
      case SenderReads(r) =>
        if x.snd.sp == Sending {
          SenderTransferKeepsInv(cfg, isn, x, r);
        } else {
          SenderHandshakeKeepsInv(cfg, isn, x, r);
        }
      case SenderGoesOn => SenderMovesKeepsInv(cfg, isn, x);
      case ReceiverReads(r) =>
        if x.rcv.vp == Receiving {
          ReceiverTransferKeepsInv(cfg, isn, x, r);
        } else {
          ReceiverHandshakeKeepsInv(cfg, isn, x, r);
        }
    }
  }

  lemma SenderKeepsPaired(cfg: Config, isn: seqnum, x: State, r: Reception)
    requires SessionInv(cfg, isn, x) && Paired(cfg, x) && CanHappen(cfg, x, SenderReads(r))
    ensures Paired(cfg, Next(cfg, x, SenderReads(r)).value)
  {
    FlagsDiffer();
    if x.snd.sp == Sending {
      DataOnly(cfg, x.snd.s, r);
      assert forall p :: p in x.toV ==> PacketToV(cfg, isn, x, p);
    }
  }

  lemma MovesKeepPaired(cfg: Config, isn: seqnum, x: State)
    requires SessionInv(cfg, isn, x) && Paired(cfg, x) && CanHappen(cfg, x, SenderGoesOn)
    ensures Paired(cfg, Next(cfg, x, SenderGoesOn).value)
  {
    FlagsDiffer();
    DataOnly(cfg, x.snd.s, TimedOut);
    assert forall p :: p in x.toV ==> PacketToV(cfg, isn, x, p);
  }

  lemma ReceiverKeepsPaired(cfg: Config, isn: seqnum, x: State, r: Reception)
    requires SessionInv(cfg, isn, x) && Paired(cfg, x) && CanHappen(cfg, x, ReceiverReads(r))
    requires Next(cfg, x, ReceiverReads(r)).Done?
    ensures Paired(cfg, Next(cfg, x, ReceiverReads(r)).value)
  {
    FlagsDiffer();
    assert r.Verified? ==> PacketToV(cfg, isn, x, r.packet);
    if x.rcv.vp == Receiving {
      AcksOnly(cfg, x.rcv.v, r);
    }
  }

  lemma NextKeepsPaired(cfg: Config, isn: seqnum, x: State, e: Event)
    requires SessionInv(cfg, isn, x) && Paired(cfg, x) && CanHappen(cfg, x, e) && Next(cfg, x, e).Done?
    ensures Paired(cfg, Next(cfg, x, e).value)
  {
    match e {
      case SenderReads(r) => SenderKeepsPaired(cfg, isn, x, r);
      case SenderGoesOn => MovesKeepPaired(cfg, isn, x);
      case ReceiverReads(r) => ReceiverKeepsPaired(cfg, isn, x, r);
    }
  }

  /** The events es lead from x to x'. */
  ghost predicate Happened(cfg: Config, x: State, es: seq<Event>, x': State)
    decreases es
  {
    if es == [] then x == x'
    else
      && Sound(cfg, x) && CanHappen(cfg, x, es[0]) && Next(cfg, x, es[0]).Done?
      && Happened(cfg, Next(cfg, x, es[0]).value, es[1..], x')
  }

  /** They lead there from the beginning of a session. */
  ghost predicate Session(cfg: Config, isn: seqnum, es: seq<Event>, x: State) {
    ValidStart(cfg, isn) && Happened(cfg, Begin(cfg, isn), es, x)
  }

  lemma {:induction false} SessionKeepsInv(cfg: Config, isn: seqnum, x: State, es: seq<Event>, x': State)
    requires SessionInv(cfg, isn, x) && Paired(cfg, x) && Happened(cfg, x, es, x')
    ensures SessionInv(cfg, isn, x') && Paired(cfg, x')
    decreases es
  {
    if es != [] {
      NextKeepsInv(cfg, isn, x, es[0]);
      NextKeepsPaired(cfg, isn, x, es[0]);
      SessionKeepsInv(cfg, isn, Next(cfg, x, es[0]).value, es[1..], x');
    }
  }

  lemma AfterEvents(cfg: Config, isn: seqnum, es: seq<Event>, x: State)
    requires Session(cfg, isn, es, x)
    ensures SessionInv(cfg, isn, x) && Paired(cfg, x)
  {
    BeginInv(cfg, isn);
    SessionKeepsInv(cfg, isn, Begin(cfg, isn), es, x);
  }

  // ---- What holds in every session ----

  /** The transfer loops inside a session do what they do on their own: whatever
      handshake and teardown packets are about, the session's view of them is
      reached by a run of the transfer alone. And no session faults. */
  lemma SessionContainsTransfer(cfg: Config, isn: seqnum, es: seq<Event>, x: State)
    requires Session(cfg, isn, es, x)
    ensures exists run :: Reaches(cfg, run, View(cfg, x))
    ensures Sound(cfg, x) && forall e :: CanHappen(cfg, x, e) ==> Next(cfg, x, e).Done?
  {
    AfterEvents(cfg, isn, es, x);
    forall e | CanHappen(cfg, x, e) ensures Next(cfg, x, e).Done? {
      NextKeepsInv(cfg, isn, x, e);
    }
  }

  /** Once they have got through establish_connection, both ends count packets
      from the same number, one beyond the sender's first. */
  lemma HandshakeAgrees(cfg: Config, isn: seqnum, es: seq<Event>, x: State)
    requires Session(cfg, isn, es, x)
    ensures x.snd.sp == Confirming ==> x.snd.s.sqn == SeqnumAdd(isn, 1)
    ensures SenderBegun(x.snd) ==> x.snd.s.wbase == SeqnumAdd(isn, 1 + x.snd.s.shift)
    ensures x.rcv.vp == Receiving ==>
        (if cfg.sr then x.rcv.v.wbase else x.rcv.v.sqn) == SeqnumAdd(isn, 1 + x.rcv.v.shift)
  {
    AfterEvents(cfg, isn, es, x);
    SenderCounts(cfg, isn, x);
    ReceiverCounts(cfg, isn, x);
  }

  lemma SenderCounts(cfg: Config, isn: seqnum, x: State)
    requires SessionInv(cfg, isn, x)
    ensures SenderBegun(x.snd) ==> x.snd.s.wbase == SeqnumAdd(isn, 1 + x.snd.s.shift)
  {
    LoopSqn(cfg, View(cfg, x));
    AddAdd(isn, 1, x.snd.s.shift);
  }

  lemma ReceiverCounts(cfg: Config, isn: seqnum, x: State)
    requires SessionInv(cfg, isn, x)
    ensures x.rcv.vp == Receiving ==>
        (if cfg.sr then x.rcv.v.wbase else x.rcv.v.sqn) == SeqnumAdd(isn, 1 + x.rcv.v.shift)
  {
    LoopSqn(cfg, View(cfg, x));
    AddAdd(isn, 1, x.rcv.v.shift);
  }

  /** The shipped first number: data then starts at 0, and no file reaches the
      end of the ring. */
  lemma ShippedStart(cfg: Config)
    requires ValidStart(cfg, 0x7FFF_FFFF)
    ensures cfg.start == 0 && cfg.start + cfg.N() < TWO_31
  {
    AddSmall(0x7FFF_FFFF, 1);
  }

  /** Every packet of a session fits into a datagram, and the datagram, if it
      arrives as it was sent, is read as that packet by the other end, whatever
      was in its buffer; after a change to any one byte it fails the checks. */
  lemma PacketsAreReadable(cfg: Config, isn: seqnum, es: seq<Event>, x: State, p: Packet, buffer: seq<byte>,
                           i: nat, b: byte)
    requires Session(cfg, isn, es, x) && (p in x.toV || p in x.toS) && |buffer| == PACKET_SIZE
    ensures |p.payload| <= PAYLOAD_MAX
    ensures Received(buffer, Encode(p)) == Verified(p)
    ensures i < |Encode(p)| && b != Encode(p)[i] ==> Received(buffer, Encode(p)[i := b]).Garbled?
  {
    AfterEvents(cfg, isn, es, x);
    assert p in x.toV ==> PacketToV(cfg, isn, x, p);
    assert p in x.toS ==> PacketToS(cfg, x, p);
    PacketRoundTrip(buffer, p);
    if i < |Encode(p)| && b != Encode(p)[i] {
      OneByteDetected(buffer, p, i, b);
    }
  }

  /** Once the sender has begun to send data it never again sends a packet with
      the flags of the third handshake, whatever happens from then on. */
  lemma {:induction false} ThirdHandshakeNotRepeated(cfg: Config, x: State, es: seq<Event>, y: State)
    requires SenderBegun(x.snd) && Happened(cfg, x, es, y)
    ensures SenderBegun(y.snd) && WithFlags(y.toV, RTP_ACK) == WithFlags(x.toV, RTP_ACK)
    decreases es
  {
    if es != [] {
      var x' := Next(cfg, x, es[0]).value;
      NoThirdHandshake(cfg, x, es[0]);
      ThirdHandshakeNotRepeated(cfg, x', es[1..], y);
    }
  }

  lemma NoThirdHandshake(cfg: Config, x: State, e: Event)
    requires Sound(cfg, x) && SenderBegun(x.snd) && CanHappen(cfg, x, e) && Next(cfg, x, e).Done?
    ensures var y := Next(cfg, x, e).value;
      SenderBegun(y.snd) && WithFlags(y.toV, RTP_ACK) == WithFlags(x.toV, RTP_ACK)
  {
    FlagsDiffer();
    match e {
      case SenderReads(r) => DataOnly(cfg, x.snd.s, r);
      case SenderGoesOn => DataOnly(cfg, x.snd.s, TimedOut);
      case ReceiverReads(r) =>
    }
  }

  /** The third handshake has been sent and lost, and data has begun. */
  predicate Missed(x: State) {
    && SenderBegun(x.snd) && x.rcv.vp == Answering
    && (forall p :: p in x.toV ==> p.flags != RTP_ACK)
    && (forall p :: p in x.toS ==> p.flags == SYN_ACK)
  }

  lemma MissedStep(cfg: Config, x: State, e: Event)
    requires Sound(cfg, x) && Missed(x) && CanHappen(cfg, x, e)
    ensures Next(cfg, x, e).Done?
    ensures var y := Next(cfg, x, e).value;
      Missed(y) && y.rcv == x.rcv && y.snd.s.shift == x.snd.s.shift
  {
    FlagsDiffer();
    match e {
      case SenderReads(r) => DataOnly(cfg, x.snd.s, r);
      case SenderGoesOn => DataOnly(cfg, x.snd.s, TimedOut);
      case ReceiverReads(r) =>
    }
  }

  /** Then the receiver waits for it for ever, and the sender's base stays where it
      is, whatever else happens. */
  lemma {:induction false} MissedForGood(cfg: Config, x: State, es: seq<Event>, y: State)
    requires Missed(x) && Happened(cfg, x, es, y)
    ensures Missed(y) && y.rcv == x.rcv && y.snd.s.shift == x.snd.s.shift
    decreases es
  {
    if es != [] {
      MissedStep(cfg, x, es[0]);
      MissedForGood(cfg, Next(cfg, x, es[0]).value, es[1..], y);
    }
  }

  /** It takes no more than the loss of that one packet. */
  lemma ThirdHandshakeLost(cfg: Config, isn: seqnum) returns (es: seq<Event>, x: State)
    requires ValidStart(cfg, isn)
    ensures Session(cfg, isn, es, x) && |es| == 3 && x.snd.sp == Sending && x.rcv.vp == Answering
    ensures Missed(x.(toV := x.toV - {Control(cfg.start, RTP_ACK)}))
  {
    BeginInv(cfg, isn);
    FlagsDiffer();
    var x0 := Begin(cfg, isn);
    var e0 := ReceiverReads(Verified(Control(isn, RTP_SYN)));
    NextKeepsInv(cfg, isn, x0, e0);
    var x1 := Next(cfg, x0, e0).value;
    var e1 := SenderReads(Verified(Control(cfg.start, SYN_ACK)));
    NextKeepsInv(cfg, isn, x1, e1);
    var x2 := Next(cfg, x1, e1).value;
    var e2 := SenderReads(TimedOut);
    x := Next(cfg, x2, e2).value;
    ThreeHappened(cfg, x0, e0, x1, e1, x2, e2, x);
    es := [e0, e1, e2];
  }

  lemma ThreeHappened(cfg: Config, x0: State, e0: Event, x1: State, e1: Event, x2: State, e2: Event, x3: State)
    requires Sound(cfg, x0) && CanHappen(cfg, x0, e0) && Next(cfg, x0, e0) == Done(x1)
    requires Sound(cfg, x1) && CanHappen(cfg, x1, e1) && Next(cfg, x1, e1) == Done(x2)
    requires Sound(cfg, x2) && CanHappen(cfg, x2, e2) && Next(cfg, x2, e2) == Done(x3)
    ensures Happened(cfg, x0, [e0, e1, e2], x3)
  {
    assert [e0, e1, e2][1..] == [e1, e2] && [e1, e2][1..] == [e2] && [e2][1..] == [];
    assert Happened(cfg, x2, [e2], x3);
    assert Happened(cfg, x1, [e1, e2], x3);
  }

  /** Handshake and teardown packets change nothing in the transfer loops, except
      that a FIN ends the receiver's; and a FIN is only about once the sender has
      everything acknowledged. */
  lemma ControlIsInert(cfg: Config, isn: seqnum, es: seq<Event>, x: State, p: Packet)
    requires Session(cfg, isn, es, x)
    ensures Sound(cfg, x)
    ensures x.snd.sp == Sending && MustWait(cfg, x.snd.s) && p.flags != RTP_ACK ==>
      SenderAfter(cfg, x.snd.s, Verified(p)) == x.snd.s && SenderSends(cfg, x.snd.s, Verified(p)) == []
    ensures p in x.toV && p.flags != 0 && p.flags != RTP_FIN ==>
      Receive(cfg, x.rcv.v, Verified(p)) == Done((x.rcv.v, []))
    ensures p in x.toV && EndsTransfer(Verified(p)) ==> SenderBegun(x.snd) && Finished(cfg, x.snd.s)
  {
    AfterEvents(cfg, isn, es, x);
    FlagsDiffer();
    assert p in x.toV ==> PacketToV(cfg, isn, x, p);
  }

  /** A sender that has finished its transfer loop has delivered, whatever made
      the receiver stop, if it did. */
  lemma FinishedMeansDelivered(cfg: Config, isn: seqnum, es: seq<Event>, x: State)
    requires Session(cfg, isn, es, x)
    requires SenderBegun(x.snd) && Finished(cfg, x.snd.s)
    ensures cfg.N() > 0 ==> ReceiverBegun(x.rcv)
    ensures x.rcv.v.fsize <= |x.rcv.v.buf|
    ensures x.rcv.v.buf[..x.rcv.v.fsize] == Rebuilt(cfg.file)
    ensures x.rcv.v.buf[..x.rcv.v.fsize] == cfg.file <==> SurvivesSegmentation(cfg.file)
  {
    AfterEvents(cfg, isn, es, x);
    var run :| Reaches(cfg, run, View(cfg, x));
    Delivered(cfg, run, View(cfg, x));
    EndsAgree(cfg, run, View(cfg, x));
  }

  /** A sender that has got through break_connection knows that the receiver has
      left its transfer loop and has written the rebuilt file. */
  lemma ClosedMeansWritten(cfg: Config, isn: seqnum, es: seq<Event>, x: State)
    requires Session(cfg, isn, es, x) && x.snd.sp == Closed
    ensures ReceiverLeft(x.rcv) && x.rcv.v.fsize <= |x.rcv.v.buf|
    ensures x.rcv.v.buf[..x.rcv.v.fsize] == Rebuilt(cfg.file)
    ensures x.rcv.v.buf[..x.rcv.v.fsize] == cfg.file <==> SurvivesSegmentation(cfg.file)
  {
    AfterEvents(cfg, isn, es, x);
    var run :| Reaches(cfg, run, View(cfg, x));
    Delivered(cfg, run, View(cfg, x));
  }

  /** A receiver that leaves its loop on a packet that passed its checks leaves
      with the rebuilt file. */
  lemma VerifiedFinMeansComplete(cfg: Config, isn: seqnum, es: seq<Event>, x: State, p: Packet)
    requires Session(cfg, isn, es, x)
    requires x.rcv.vp == Receiving && p in x.toV && EndsTransfer(Verified(p))
    ensures x.rcv.v.fsize <= |x.rcv.v.buf| && x.rcv.v.buf[..x.rcv.v.fsize] == Rebuilt(cfg.file)
  {
    ControlIsInert(cfg, isn, es, x, p);
    AfterEvents(cfg, isn, es, x);
    var run :| Reaches(cfg, run, View(cfg, x));
    Delivered(cfg, run, View(cfg, x));
  }
}
