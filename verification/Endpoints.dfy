/** The two programs themselves: loops that read packets from a socket and
    update variables and arrays in place (lab2/src/sender.c, lab2/src/receiver.c).

    What recv_packet is going to return is given beforehand as an inbox, and a
    program stops where the inbox ends. What a program has still to do follows
    from where it is and from the rest of its inbox; its outlook is what it has
    done plus that. Every method below leaves the outlook as it was, so what a
    program does is what the steps of module Session say. */
module Endpoints {
  import opened Bytes
  import opened SeqNum
  import opened Segments
  import opened Window
  import opened Wire
  import opened Protocol
  import opened Session

  // ---- What the sender's program amounts to ----

  lemma TurnKeepsOk(cfg: Config, a: SenderEnd, r: Reception)
    requires cfg.Typed() && SenderOk(cfg, a.s) && SenderWaits(cfg, a)
    ensures SenderOk(cfg, SenderTurn(cfg, a, r).0.s)
  {
    match a.sp {
      case Sending => SenderStaysOk(cfg, a.s, r);
      case Connecting => AddDisInverse(SeqnumAdd(a.s.sqn, 1), SeqnumAdd(a.s.sqn, 1), 0);
      case _ =>
    }
  }

  lemma MovesKeepOk(cfg: Config, a: SenderEnd)
    requires cfg.Typed() && SenderOk(cfg, a.s) && a.sp == Sending && !SenderWaits(cfg, a)
    ensures SenderOk(cfg, SenderMoves(cfg, a).0.s) && SenderWaits(cfg, SenderMoves(cfg, a).0)
  {
    if !Finished(cfg, a.s) {
      FillKeepsOk(cfg, a.s);
    }
  }

  /** The sender's program from a on, having sent sent and reading rs: where it
      ends, and everything it will have sent. */
  function SenderLife(cfg: Config, a: SenderEnd, sent: seq<Packet>, rs: seq<Reception>): (SenderEnd, seq<Packet>)
    requires cfg.Typed() && SenderOk(cfg, a.s)
    decreases rs, if SenderWaits(cfg, a) then 0 else 1
  {
    if SenderWaits(cfg, a) then
      if rs == [] then (a, sent)
      else
        TurnKeepsOk(cfg, a, rs[0]);
        SenderLife(cfg, SenderTurn(cfg, a, rs[0]).0, sent + SenderTurn(cfg, a, rs[0]).1, rs[1..])
    else if a.sp == Sending then
      MovesKeepOk(cfg, a);
      SenderLife(cfg, SenderMoves(cfg, a).0, sent + SenderMoves(cfg, a).1, rs)
    else (a, sent)
  }

  lemma SenderReadsOne(cfg: Config, a: SenderEnd, sent: seq<Packet>, inbox: seq<Reception>, pos: nat)
    requires cfg.Typed() && SenderOk(cfg, a.s) && SenderWaits(cfg, a) && pos < |inbox|
    ensures var (a', out) := SenderTurn(cfg, a, inbox[pos]);
      && SenderOk(cfg, a'.s)
      && SenderLife(cfg, a, sent, inbox[pos..]) == SenderLife(cfg, a', sent + out, inbox[pos + 1..])
      && (out == [] ==> sent + out == sent)
  {
    TurnKeepsOk(cfg, a, inbox[pos]);
    assert inbox[pos..][1..] == inbox[pos + 1..];
  }

  lemma ResendUnfolds(cfg: Config, s: Sender, i: nat)
    requires SenderOk(cfg, s) && (i == 0 || s.wbase + i <= s.sqn)
    ensures SeqnumAdd(s.wbase, i) >= s.sqn ==> Resend(cfg, s, i) == []
    ensures SeqnumAdd(s.wbase, i) < s.sqn ==>
      && s.wbase + i + 1 <= s.sqn && i < |s.window| && s.shift + i < cfg.N()
      && Resend(cfg, s, i)
         == (if cfg.sr && s.window[i] then [] else [Numbered(cfg, SeqnumAdd(s.wbase, i), s.shift + i)])
            + Resend(cfg, s, i + 1)
  {
    ResendInBounds(cfg, s, i);
  }

  /** What the sender's program does by itself is part of a session: from any
      state in which its reads can return rs, there are session steps that leave
      it where its program ends and have sent what its program sends. */
  lemma {:induction false} SenderLifeHappens(cfg: Config, x: State, sent: seq<Packet>, rs: seq<Reception>)
    returns (es: seq<Session.Event>, x': State)
    requires cfg.Typed() && Sound(cfg, x) && Elements(sent) <= x.toV
    requires forall i :: 0 <= i < |rs| && rs[i].Verified? ==> rs[i].packet in x.toS
    ensures Happened(cfg, x, es, x')
    ensures x'.snd == SenderLife(cfg, x.snd, sent, rs).0 && x'.rcv == x.rcv && x'.toS == x.toS
    ensures x'.toV == x.toV + Elements(SenderLife(cfg, x.snd, sent, rs).1)
    decreases rs, if SenderWaits(cfg, x.snd) then 0 else 1
  {
    es, x' := [], x;
    if SenderWaits(cfg, x.snd) {
      if rs != [] {
        TurnKeepsOk(cfg, x.snd, rs[0]);
        var out := SenderTurn(cfg, x.snd, rs[0]).1;
        es, x' := SenderLifeHappens(cfg, Next(cfg, x, SenderReads(rs[0])).value, sent + out, rs[1..]);
        es := [SenderReads(rs[0])] + es;
        LifeGrows(cfg, SenderTurn(cfg, x.snd, rs[0]).0, sent + out, rs[1..]);
      }
    } else if x.snd.sp == Sending {
      MovesKeepOk(cfg, x.snd);
      var out := SenderMoves(cfg, x.snd).1;
      es, x' := SenderLifeHappens(cfg, Next(cfg, x, SenderGoesOn).value, sent + out, rs);
      es := [SenderGoesOn] + es;
      LifeGrows(cfg, SenderMoves(cfg, x.snd).0, sent + out, rs);
    }
  }

  lemma {:induction false} LifeGrows(cfg: Config, a: SenderEnd, sent: seq<Packet>, rs: seq<Reception>)
    requires cfg.Typed() && SenderOk(cfg, a.s)
    ensures Elements(sent) <= Elements(SenderLife(cfg, a, sent, rs).1)
    decreases rs, if SenderWaits(cfg, a) then 0 else 1
  {
    if SenderWaits(cfg, a) {
      if rs != [] {
        TurnKeepsOk(cfg, a, rs[0]);
        LifeGrows(cfg, SenderTurn(cfg, a, rs[0]).0, sent + SenderTurn(cfg, a, rs[0]).1, rs[1..]);
      }
    } else if a.sp == Sending {
      MovesKeepOk(cfg, a);
      LifeGrows(cfg, SenderMoves(cfg, a).0, sent + SenderMoves(cfg, a).1, rs);
    }
  }

  class SenderProgram {
    const cfg: Config
    const inbox: seq<Reception>
    var pos: nat
    var sqn: seqnum
    var wbase: seqnum
    var shift: nat
    const window: array<bool>
    var sent: seq<Packet>
    ghost var phase: SenderPhase

    ghost function Vars(): Sender
      reads this, window
    {
      Sender(sqn, wbase, shift, window[..])
    }

    ghost function End(): SenderEnd
      reads this, window
    {
      SenderEnd(phase, Vars())
    }

    ghost predicate Valid()
      reads this, window
    {
      cfg.Typed() && pos <= |inbox| && SenderOk(cfg, Vars())
    }

    ghost function Outlook(): (SenderEnd, seq<Packet>)
      requires Valid()
      reads this, window
    {
      SenderLife(cfg, End(), sent, inbox[pos..])
    }

    constructor (cfg: Config, inbox: seq<Reception>, isn: seqnum)
      requires cfg.Typed()
      ensures Valid() && fresh(window)
      ensures this.cfg == cfg && this.inbox == inbox && pos == 0 && sent == []
      ensures End() == SenderBegins(cfg, isn)
    {
      this.cfg, this.inbox, pos, sent := cfg, inbox, 0, [];
      sqn, wbase, shift := isn, isn, 0;
      window := new bool[cfg.wsize](_ => false);
      phase := Connecting;
      new;
      assert window[..] == Unmarked(cfg.wsize);
      AddDisInverse(isn, isn, 0);
    }

    /** The batch loop at the head of transfer_data. */
    method FillBatch()
      requires Valid() && MustFill(cfg, Vars())
      modifies this`sqn, this`sent
      ensures Valid() && Vars() == AfterFill(cfg, old(Vars()))
      ensures sent == old(sent) + Fresh(cfg, old(Vars()))
    {
      ghost var was, batch := Vars(), Fresh(cfg, Vars());
      AddSmall(sqn, 0);
      var i := 0;
      while i < cfg.wsize && i + shift < cfg.N()
        invariant i <= FillCount(cfg, was)
        invariant Vars() == was.(sqn := SeqnumAdd(was.sqn, i))
        invariant sent == old(sent) + batch[..i]
      {
        AddAdd(was.sqn, i, 1);
        assert batch[..i + 1] == batch[..i] + [Numbered(cfg, sqn, shift + i)];
        sent := sent + [Numbered(cfg, sqn, shift + i)];
        sqn := SeqnumAdd(sqn, 1);
        i := i + 1;
      }
      FillKeepsOk(cfg, was);
    }

    /** The loop after a timeout. */
    method ResendPending()
      requires Valid()
      modifies this`sent
      ensures Valid() && sent == old(sent) + Resend(cfg, Vars(), 0)
    {
      ghost var s := Vars();
      var i := 0;
      ResendUnfolds(cfg, s, i);
      while SeqnumAdd(wbase, i) < sqn
        invariant i == 0 || wbase + i <= sqn
        invariant sent + Resend(cfg, s, i) == old(sent) + Resend(cfg, s, 0)
        decreases sqn - wbase - i
      {
        ResendUnfolds(cfg, s, i);
        ghost var rest := Resend(cfg, s, i + 1);
        if !(cfg.sr && window[i]) {
          Assoc(sent, [Numbered(cfg, SeqnumAdd(wbase, i), shift + i)], rest);
          sent := sent + [Numbered(cfg, SeqnumAdd(wbase, i), shift + i)];
        } else {
          Assoc(rest, [], []);
        }
        i := i + 1;
      }
      ResendUnfolds(cfg, s, i);
      Assoc(sent, [], []);
    }

    /** What transfer_data does with what recv_packet returned. */
    method TakePacket(r: Reception)
      requires Valid() && MustWait(cfg, Vars())
      modifies this`wbase, this`shift, this`sent, window
      ensures Valid() && Vars() == SenderAfter(cfg, old(Vars()), r)
      ensures sent == old(sent) + SenderSends(cfg, old(Vars()), r)
    {
      SenderStaysOk(cfg, Vars(), r);
      if r.TimedOut? {
        ResendPending();
        return;
      }
      if r.Garbled? || r.packet.flags != RTP_ACK {
        return;
      }
      var seqnum := SeqnumAdd(r.packet.seqnum, if cfg.sr then 0 else -1);
      if !SeqnumIsIn(seqnum, wbase, sqn) {
        return;
      }
      AcknowledgedInBounds(cfg, Vars(), seqnum);
      var mov;
      if cfg.sr {
        mov := UpdateWindow(window, SqnDis(wbase, seqnum));
      } else {
        mov := SqnDis(wbase, seqnum) + 1;
      }
      shift := shift + mov;
      wbase := SeqnumAdd(wbase, mov);
    }

    /** establish_connection, first half: whether the second handshake came. */
    method AwaitSynAck() returns (done: bool)
      requires Valid() && phase == Connecting && End() == SenderBegins(cfg, sqn)
      modifies this`pos, this`sqn, this`wbase, this`phase, this`sent
      ensures Valid() && (if done then phase == Confirming else pos == |inbox| && phase == Connecting)
      ensures Outlook() == SenderLife(cfg, old(End()), old(sent) + [Control(old(sqn), RTP_SYN)], inbox[old(pos)..])
    {
      sent := sent + [Control(sqn, RTP_SYN)];
      ghost var goal := Outlook();
      while true
        invariant Valid() && End() == SenderBegins(cfg, sqn)
        invariant Outlook() == goal
        decreases |inbox| - pos
      {
        if pos == |inbox| {
          return false;
        }
        var r := inbox[pos];
        SenderReadsOne(cfg, End(), sent, inbox, pos);
        pos := pos + 1;
        if IsControl(r, SeqnumAdd(sqn, 1), SYN_ACK) {
          break;
        }
        sent := sent + [Control(sqn, RTP_SYN)];
      }
      sqn := SeqnumAdd(sqn, 1);
      wbase := sqn;
      phase := Confirming;
      sent := sent + [Control(sqn, RTP_ACK)];
      done := true;
    }

    /** establish_connection: whether it got through before the inbox ended. */
    method EstablishConnection() returns (done: bool)
      requires Valid() && phase == Connecting && End() == SenderBegins(cfg, sqn)
      modifies this`pos, this`sqn, this`wbase, this`phase, this`sent
      ensures Valid() && (if done then phase == Sending else pos == |inbox| && SenderWaits(cfg, End()))
      ensures Outlook() == SenderLife(cfg, old(End()), old(sent) + [Control(old(sqn), RTP_SYN)], inbox[old(pos)..])
    {
      done := AwaitSynAck();
      if !done || pos == |inbox| {
        return false;
      }
      var r := inbox[pos];
      SenderReadsOne(cfg, End(), sent, inbox, pos);
      pos := pos + 1;
      if IsControl(r, sqn, SYN_ACK) {
        sent := sent + [Control(sqn, RTP_ACK)];
      }
      phase := Sending;
    }

    /** recv_packet, and what transfer_data does with what it returned. */
    method TakeNext()
      requires Valid() && phase == Sending && MustWait(cfg, Vars()) && pos < |inbox|
      modifies this`pos, this`wbase, this`shift, this`sent, window
      ensures Valid() && pos == old(pos) + 1
      ensures Outlook() == old(Outlook())
    {
      var r := inbox[pos];
      SenderReadsOne(cfg, End(), sent, inbox, pos);
      pos := pos + 1;
      TakePacket(r);
    }

    /** transfer_data. */
    method TransferData() returns (done: bool)
      requires Valid() && phase == Sending
      modifies this`pos, this`sqn, this`wbase, this`shift, this`sent, window
      ensures Valid() && (if done then Finished(cfg, Vars()) else pos == |inbox| && MustWait(cfg, Vars()))
      ensures Outlook() == old(Outlook())
    {
      while shift < cfg.N()
        invariant Valid()
        invariant Outlook() == old(Outlook())
        decreases |inbox| - pos, cfg.N() - shift
      {
        if wbase == sqn {
          MovesKeepOk(cfg, End());
          FillBatch();
        }
        if pos == |inbox| {
          return false;
        }
        TakeNext();
      }
      done := true;
    }

    /** break_connection. */
    method BreakConnection() returns (done: bool)
      requires Valid() && phase == Sending && Finished(cfg, Vars())
      modifies this`pos, this`sent, this`phase
      ensures Valid() && (if done then phase == Closed else pos == |inbox| && phase == Closing)
      ensures Outlook() == old(Outlook())
    {
      sent := sent + [Control(sqn, RTP_FIN)];
      phase := Closing;
      while true
        invariant Valid() && phase == Closing
        invariant Finished(cfg, Vars())
        invariant Outlook() == old(Outlook())
        decreases |inbox| - pos
      {
        if pos == |inbox| {
          return false;
        }
        var r := inbox[pos];
        SenderReadsOne(cfg, End(), sent, inbox, pos);
        pos := pos + 1;
        if IsControl(r, sqn, FIN_ACK) {
          phase := Closed;
          return true;
        }
        sent := sent + [Control(sqn, RTP_FIN)];
      }
    }

    /** The calls made by main, up to where the inbox ends. */
    method Session()
      requires Valid() && End() == SenderBegins(cfg, sqn)
      modifies this, window
      ensures Valid()
      ensures (End(), sent) == SenderLife(cfg, old(End()), old(sent) + [Control(old(sqn), RTP_SYN)], inbox[old(pos)..])
    {
      var done := EstablishConnection();
      if done {
        done := TransferData();
        if done {
          done := BreakConnection();
        }
      }
    }
  }

  // ---- What the receiver's program amounts to ----

  /** The receiver's program from b on, having sent sent and reading rs. */
  function ReceiverLife(cfg: Config, b: ReceiverEnd, sent: seq<Packet>, rs: seq<Reception>)
    : Outcome<(ReceiverEnd, seq<Packet>)>
    requires ReceiverOk(cfg, b.v)
    decreases rs
  {
    if rs == [] || !ReceiverWaits(b) then Done((b, sent))
    else
      match ReceiverTurn(cfg, b, rs[0])
      case Fault => Fault
      case Done((b', out)) => ReceiverLife(cfg, b', sent + out, rs[1..])
  }

  lemma ReceiverReadsOne(cfg: Config, b: ReceiverEnd, sent: seq<Packet>, inbox: seq<Reception>, pos: nat)
    requires ReceiverOk(cfg, b.v) && ReceiverWaits(b) && pos < |inbox|
    requires ReceiverLife(cfg, b, sent, inbox[pos..]).Done?
    ensures ReceiverTurn(cfg, b, inbox[pos]).Done?
    ensures var (b', out) := ReceiverTurn(cfg, b, inbox[pos]).value;
      && ReceiverOk(cfg, b'.v)
      && ReceiverLife(cfg, b, sent, inbox[pos..]) == ReceiverLife(cfg, b', sent + out, inbox[pos + 1..])
      && (out == [] ==> sent + out == sent)
  {
    assert inbox[pos..][1..] == inbox[pos + 1..];
  }

  /** The same for the receiver's program, which in a session never faults. */
  lemma {:induction false} ReceiverLifeHappens(cfg: Config, isn: seqnum, x: State, sent: seq<Packet>,
                                               rs: seq<Reception>)
    returns (es: seq<Session.Event>, x': State)
    requires SessionInv(cfg, isn, x) && Elements(sent) <= x.toS
    requires forall i :: 0 <= i < |rs| && rs[i].Verified? ==> rs[i].packet in x.toV
    ensures Happened(cfg, x, es, x')
    ensures ReceiverLife(cfg, x.rcv, sent, rs).Done?
    ensures x'.rcv == ReceiverLife(cfg, x.rcv, sent, rs).value.0 && x'.snd == x.snd && x'.toV == x.toV
    ensures Elements(sent) <= Elements(ReceiverLife(cfg, x.rcv, sent, rs).value.1)
    ensures x'.toS == x.toS + Elements(ReceiverLife(cfg, x.rcv, sent, rs).value.1)
    decreases rs
  {
    es, x' := [], x;
    if rs != [] && ReceiverWaits(x.rcv) {
      NextKeepsInv(cfg, isn, x, ReceiverReads(rs[0]));
      var y, out := Next(cfg, x, ReceiverReads(rs[0])).value, ReceiverTurn(cfg, x.rcv, rs[0]).value.1;
      es, x' := ReceiverLifeHappens(cfg, isn, y, sent + out, rs[1..]);
      es := [ReceiverReads(rs[0])] + es;
    }
  }

  class ReceiverProgram {
    const cfg: Config
    const inbox: seq<Reception>
    var pos: nat
    var sqn: uint32
    var wbase: seqnum
    var shift: nat
    const window: array<bool>
    const buf: array<byte>
    var fsize: nat
    var sent: seq<Packet>
    ghost var open: bool
    ghost var phase: ReceiverPhase

    ghost function Vars(): Receiver
      reads this, window, buf
    {
      Receiver(sqn, wbase, shift, window[..], buf[..], fsize, open)
    }

    ghost function End(): ReceiverEnd
      reads this, window, buf
    {
      ReceiverEnd(phase, Vars())
    }

    ghost predicate InBounds()
      reads this, window, buf
    {
      ReceiverOk(cfg, Vars()) && window as object != buf
    }

    /** In bounds, and never going to leave them with what is in the inbox. */
    ghost predicate Valid()
      reads this, window, buf
    {
      && pos <= |inbox|
      && InBounds()
      && ReceiverLife(cfg, End(), sent, inbox[pos..]).Done?
    }

    ghost function Outlook(): (ReceiverEnd, seq<Packet>)
      requires Valid()
      reads this, window, buf
    {
      ReceiverLife(cfg, End(), sent, inbox[pos..]).value
    }

    constructor (cfg: Config, inbox: seq<Reception>)
      requires |cfg.buf0| == MAXBUF
      requires ReceiverLife(cfg, ReceiverBegins(cfg), [], inbox).Done?
      ensures Valid() && fresh(window) && fresh(buf)
      ensures this.cfg == cfg && this.inbox == inbox && pos == 0 && sent == []
      ensures End() == ReceiverBegins(cfg)
    {
      this.cfg, this.inbox, pos, sent := cfg, inbox, 0, [];
      sqn, wbase, shift, fsize := 0, 0, 0, 0;
      window := new bool[cfg.wsize](_ => false);
      buf := new byte[MAXBUF](i requires 0 <= i < MAXBUF => cfg.buf0[i]);
      open, phase := true, Listening;
      new;
      assert window[..] == Unmarked(cfg.wsize);
      assert buf[..] == cfg.buf0;
      assert inbox[0..] == inbox;
    }

    /** A data packet ind packets behind the base. */
    method StoreSelective(ind: nat, payload: seq<byte>)
      requires InBounds()
      requires ind < cfg.wsize && (ind + shift) * PAYLOAD_MAX + |payload| <= MAXBUF
      modifies this`wbase, this`shift, this`fsize, window, buf
      ensures Vars() == StoredSelective(cfg, old(Vars()), ind, payload)
    {
      ghost var marks := window[..];
      var mov := ind + shift;
      PutAt(buf, mov * PAYLOAD_MAX, payload);
      assert window[..] == marks;
      ghost var bytes := buf[..];
      if fsize < mov * PAYLOAD_MAX + |payload| {
        fsize := mov * PAYLOAD_MAX + |payload|;
      }
      mov := UpdateWindow(window, mov - shift);
      assert buf[..] == bytes;
      shift := shift + mov;
      wbase := SeqnumAdd(wbase, mov);
    }

    /** What transfer_data does with a data packet in mode 1. */
    method TakeSelective(p: Packet)
      requires InBounds()
      requires ReceiveSelective(cfg, Vars(), p).Done?
      modifies this`wbase, this`shift, this`fsize, this`sent, window, buf
      ensures (Vars(), sent) == (ReceiveSelective(cfg, old(Vars()), p).value.0,
                                 old(sent) + ReceiveSelective(cfg, old(Vars()), p).value.1)
    {
      if SeqnumIsIn(p.seqnum, SeqnumAdd(wbase, -(cfg.wsize as int)), wbase) {
        sent := sent + [Packet(p.seqnum, RTP_ACK, [])];
      } else if SeqnumIsIn(p.seqnum, wbase, SeqnumAdd(wbase, cfg.wsize)) {
        StoreSelective(SqnDis(wbase, p.seqnum), p.payload);
        sent := sent + [Packet(p.seqnum, RTP_ACK, [])];
      } else {
        assert sent + [] == sent;
      }
    }

    /** The same in mode 0. */
    method TakeGoBackN(p: Packet)
      requires InBounds()
      requires ReceiveGoBackN(cfg, Vars(), p).Done?
      modifies this`sqn, this`shift, this`fsize, this`sent, buf
      ensures (Vars(), sent) == (ReceiveGoBackN(cfg, old(Vars()), p).value.0,
                                 old(sent) + ReceiveGoBackN(cfg, old(Vars()), p).value.1)
    {
      if p.seqnum == sqn {
        PutAt(buf, shift * PAYLOAD_MAX, p.payload);
        shift := shift + 1;
        fsize := fsize + |p.payload|;
        sqn := SeqnumAdd(sqn, 1);
      }
      sent := sent + [Packet(sqn, RTP_ACK, [])];
    }

    /** establish_connection, first half: whether a SYN came, and was answered. */
    method AwaitSyn() returns (done: bool)
      requires Valid() && End() == ReceiverBegins(cfg)
      modifies this`pos, this`sqn, this`wbase, this`phase, this`sent
      ensures Valid() && open && (if done then phase == Answering else pos == |inbox| || phase == Dead)
      ensures Outlook() == old(Outlook())
    {
      while true
        invariant Valid() && End() == ReceiverBegins(cfg)
        invariant Outlook() == old(Outlook())
        decreases |inbox| - pos
      {
        if pos == |inbox| {
          return false;
        }
        var r := inbox[pos];
        ReceiverReadsOne(cfg, End(), sent, inbox, pos);
        pos := pos + 1;
        if r.TimedOut? {
          phase := Dead;
          return false;
        }
        if r.Verified? && r.packet.flags == RTP_SYN {
          sqn := SeqnumAdd(r.packet.seqnum, 1);
          wbase := SeqnumAdd(r.packet.seqnum, 1);
          break;
        }
      }
      phase := Answering;
      sent := sent + [Control(sqn, SYN_ACK)];
      done := true;
    }

    /** establish_connection, second half: whether the third handshake came. */
    method AwaitAck() returns (done: bool)
      requires Valid() && phase == Answering && open
      modifies this`pos, this`phase, this`sent
      ensures Valid() && open && (if done then phase == Receiving else pos == |inbox|)
      ensures Outlook() == old(Outlook())
    {
      while true
        invariant Valid() && phase == Answering && open
        invariant Outlook() == old(Outlook())
        decreases |inbox| - pos
      {
        if pos == |inbox| {
          return false;
        }
        var r := inbox[pos];
        ReceiverReadsOne(cfg, End(), sent, inbox, pos);
        pos := pos + 1;
        if IsControl(r, sqn, RTP_ACK) {
          break;
        }
        sent := sent + [Control(sqn, SYN_ACK)];
      }
      phase := Receiving;
      done := true;
    }

    /** establish_connection: whether it got through before the inbox ended, or
        gave up. */
    method EstablishConnection() returns (done: bool)
      requires Valid() && End() == ReceiverBegins(cfg)
      modifies this`pos, this`sqn, this`wbase, this`phase, this`sent
      ensures Valid() && (if done then phase == Receiving && open else pos == |inbox| || phase == Dead)
      ensures Outlook() == old(Outlook())
    {
      done := AwaitSyn();
      if done {
        done := AwaitAck();
      }
    }

    /** What transfer_data does with what recv_packet returned, if it stays in its
        loop. */
    method TakePacket(r: Reception)
      requires InBounds() && !EndsTransfer(r)
      requires Receive(cfg, Vars(), r).Done?
      modifies this`sqn, this`wbase, this`shift, this`fsize, this`sent, window, buf
      ensures (Vars(), sent) == (Receive(cfg, old(Vars()), r).value.0, old(sent) + Receive(cfg, old(Vars()), r).value.1)
    {
      if !IsData(r) {
        Assoc(sent, [], []);
      } else if cfg.sr {
        TakeSelective(r.packet);
      } else {
        TakeGoBackN(r.packet);
      }
    }

    /** transfer_data, up to writing the file. */
    method TransferData() returns (done: bool)
      requires Valid() && phase == Receiving && open
      modifies this, window, buf
      ensures Valid() && (if done then phase == AwaitingFin else pos == |inbox| && phase == Receiving)
      ensures Outlook() == old(Outlook())
    {
      while true
        invariant Valid() && phase == Receiving && open
        invariant Outlook() == old(Outlook())
        decreases |inbox| - pos
      {
        if pos == |inbox| {
          return false;
        }
        var r := inbox[pos];
        ReceiverReadsOne(cfg, End(), sent, inbox, pos);
        pos := pos + 1;
        if EndsTransfer(r) {
          break;
        }
        TakePacket(r);
      }
      open, phase := false, AwaitingFin;
      done := true;
    }

    /** break_connection, first half: whether a FIN came, and was answered. */
    method AwaitFin() returns (done: bool)
      requires Valid() && phase == AwaitingFin
      modifies this`pos, this`sqn, this`phase, this`sent
      ensures Valid() && (if done then phase == Lingering else pos == |inbox| && phase == AwaitingFin)
      ensures Outlook() == old(Outlook())
    {
      while true
        invariant Valid() && phase == AwaitingFin
        invariant Outlook() == old(Outlook())
        decreases |inbox| - pos
      {
        if pos == |inbox| {
          return false;
        }
        var r := inbox[pos];
        ReceiverReadsOne(cfg, End(), sent, inbox, pos);
        pos := pos + 1;
        if r.Verified? && r.packet.flags == RTP_FIN {
          sqn := r.packet.seqnum;
          break;
        }
      }
      phase := Lingering;
      sent := sent + [Control(sqn, FIN_ACK)];
      done := true;
    }

    /** break_connection. */
    method BreakConnection() returns (done: bool)
      requires Valid() && phase == AwaitingFin
      modifies this`pos, this`sqn, this`phase, this`sent
      ensures Valid() && (if done then phase == Ended else pos == |inbox| && phase != Ended)
      ensures Outlook() == old(Outlook())
    {
      done := AwaitFin();
      if !done || pos == |inbox| {
        return false;
      }
      var r := inbox[pos];
      ReceiverReadsOne(cfg, End(), sent, inbox, pos);
      pos := pos + 1;
      sqn := if r.TimedOut? then sqn else if r.Verified? then r.packet.seqnum else r.found.seqnum;
      if r.Verified? && r.packet.flags == RTP_FIN {
        sent := sent + [Control(sqn, FIN_ACK)];
      }
      phase := Ended;
    }

    /** The calls made by main, up to where the inbox ends. */
    method Session()
      requires Valid() && End() == ReceiverBegins(cfg)
      modifies this, window, buf
      ensures Valid()
      ensures Done((End(), sent)) == ReceiverLife(cfg, old(End()), old(sent), inbox[old(pos)..])
    {
      var done := EstablishConnection();
      if done {
        done := TransferData();
        if done {
          done := BreakConnection();
        }
      }
    }
  }

  // ---- Both programs in a session ----

  /** What the sender reads in a session, and what the receiver reads. */
  function SenderInbox(es: seq<Session.Event>): seq<Reception> {
    if es == [] then []
    else (if es[0].SenderReads? then [es[0].r] else []) + SenderInbox(es[1..])
  }

  function ReceiverInbox(es: seq<Session.Event>): seq<Reception> {
    if es == [] then []
    else (if es[0].ReceiverReads? then [es[0].r] else []) + ReceiverInbox(es[1..])
  }

  lemma SentOn(ps: set<Packet>, a: seq<Packet>, b: seq<Packet>)
    ensures ps + Elements(a + b) == (ps + Elements(a)) + Elements(b)
    ensures ps + Elements([]) == ps
  {
  }

  /** In every session the sender is where its program is that reads the same, and
      has sent the same. */
  lemma {:induction false} SenderProjects(cfg: Config, x: State, sent: seq<Packet>, es: seq<Session.Event>, y: State)
    returns (more: seq<Packet>)
    requires cfg.Typed() && SenderOk(cfg, x.snd.s) && Happened(cfg, x, es, y)
    ensures SenderOk(cfg, y.snd.s) && y.toV == x.toV + Elements(more)
    ensures SenderLife(cfg, x.snd, sent, SenderInbox(es)) == SenderLife(cfg, y.snd, sent + more, [])
    decreases es
  {
    if es == [] {
      more := [];
      SentOn(x.toV, more, more);
      Assoc(sent, more, more);
    } else {
      var x' := Next(cfg, x, es[0]).value;
      match es[0] {
        case SenderReads(r) =>
          var rs := SenderInbox(es);
          assert rs[0] == r && rs[1..] == SenderInbox(es[1..]);
          var out := SenderTurn(cfg, x.snd, r).1;
          TurnKeepsOk(cfg, x.snd, r);
          more := SenderProjects(cfg, x', sent + out, es[1..], y);
          Assoc(sent, out, more);
          SentOn(x.toV, out, more);
          more := out + more;
        case SenderGoesOn =>
          var out := SenderMoves(cfg, x.snd).1;
          MovesKeepOk(cfg, x.snd);
          assert SenderInbox(es) == SenderInbox(es[1..]);
          more := SenderProjects(cfg, x', sent + out, es[1..], y);
          Assoc(sent, out, more);
          SentOn(x.toV, out, more);
          more := out + more;
        case ReceiverReads(r) =>
          assert SenderInbox(es) == SenderInbox(es[1..]);
          more := SenderProjects(cfg, x', sent, es[1..], y);
      }
    }
  }

  /** The same for the receiver, whose program therefore never leaves its arrays. */
  lemma {:induction false} ReceiverProjects(cfg: Config, x: State, sent: seq<Packet>, es: seq<Session.Event>, y: State)
    returns (more: seq<Packet>)
    requires ReceiverOk(cfg, x.rcv.v) && Happened(cfg, x, es, y)
    ensures y.toS == x.toS + Elements(more)
    ensures ReceiverLife(cfg, x.rcv, sent, ReceiverInbox(es)) == Done((y.rcv, sent + more))
    decreases es
  {
    if es == [] {
      more := [];
      SentOn(x.toS, more, more);
      Assoc(sent, more, more);
    } else {
      var x' := Next(cfg, x, es[0]).value;
      if es[0].ReceiverReads? {
        var rs := ReceiverInbox(es);
        assert rs[0] == es[0].r && rs[1..] == ReceiverInbox(es[1..]);
        var out := ReceiverTurn(cfg, x.rcv, es[0].r).value.1;
        more := ReceiverProjects(cfg, x', sent + out, es[1..], y);
        Assoc(sent, out, more);
        SentOn(x.toS, out, more);
        more := out + more;
      } else {
        assert ReceiverInbox(es) == ReceiverInbox(es[1..]);
        more := ReceiverProjects(cfg, x', sent, es[1..], y);
      }
    }
  }

  /** By itself a sender does not get through break_connection. */
  lemma ClosedByReading(cfg: Config, a: SenderEnd, sent: seq<Packet>)
    requires cfg.Typed() && SenderOk(cfg, a.s)
    ensures SenderLife(cfg, a, sent, []).0.sp == Closed ==> a.sp == Closed
  {
    if a.sp == Sending && !SenderWaits(cfg, a) {
      MovesKeepOk(cfg, a);
      var (a', out) := SenderMoves(cfg, a);
      assert SenderLife(cfg, a', sent + out, []) == (a', sent + out);
    }
  }

  /** Both programs, run from their first line on what their sockets return in any
      session: the receiver's ends as the session's receiver does and, if the
      sender's has got through break_connection, the receiver's has written the
      rebuilt file. */
  method RunBoth(cfg: Config, isn: seqnum, inS: seq<Reception>, inR: seq<Reception>,
                 ghost es: seq<Session.Event>, ghost x: State)
    returns (s: SenderProgram, r: ReceiverProgram)
    requires Session.Session(cfg, isn, es, x)
    requires inS == SenderInbox(es) && inR == ReceiverInbox(es)
    ensures r.End() == x.rcv && x.toS == Elements(r.sent)
    ensures x.snd.sp == Closed <==> s.phase == Closed
    ensures x.toV <= Elements(s.sent)
    ensures s.phase == Closed ==>
      && ReceiverLeft(r.End())
      && r.fsize <= r.buf.Length && r.buf[..r.fsize] == Rebuilt(cfg.file)
      && (r.buf[..r.fsize] == cfg.file <==> SurvivesSegmentation(cfg.file))
  {
    BothProject(cfg, isn, es, x);
    s := new SenderProgram(cfg, inS, isn);
    assert s.inbox[0..] == s.inbox;
    s.Session();
    r := new ReceiverProgram(cfg, inR);
    assert r.inbox[0..] == r.inbox;
    r.Session();
    if x.snd.sp == Closed {
      ClosedMeansWritten(cfg, isn, es, x);
      assert r.buf[..r.fsize] == r.End().v.buf[..r.fsize];
    }
  }

  lemma BothProject(cfg: Config, isn: seqnum, es: seq<Session.Event>, x: State)
    requires Session.Session(cfg, isn, es, x)
    ensures cfg.Typed() && SenderOk(cfg, SenderBegins(cfg, isn).s)
    ensures var (a, sent) := SenderLife(cfg, SenderBegins(cfg, isn), [] + [Control(isn, RTP_SYN)], SenderInbox(es));
      (a.sp == Closed <==> x.snd.sp == Closed) && x.toV <= Elements(sent)
    ensures ReceiverOk(cfg, ReceiverBegins(cfg).v)
    ensures exists sent ::
      && x.toS == Elements(sent)
      && ReceiverLife(cfg, ReceiverBegins(cfg), [], ReceiverInbox(es)) == Done((x.rcv, sent))
  {
    BeginInv(cfg, isn);
    var x0, syn := Begin(cfg, isn), [Control(isn, RTP_SYN)];
    Assoc(syn, [], []);
    var sent := SenderProjects(cfg, x0, syn, es, x);
    ClosedByReading(cfg, x.snd, syn + sent);
    LifeGrows(cfg, x.snd, syn + sent, []);
    var answers := ReceiverProjects(cfg, x0, [], es, x);
    Assoc(answers, [], []);
  }
}
