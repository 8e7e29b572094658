/** Which sessions can still connect and which can still be closed, when nothing
    is lost for good and when everything sent so far is. */
module Completion {
  import opened SeqNum
  import opened Segments
  import opened Wire
  import opened Protocol
  import opened Refinement
  import opened Delivery
  import L = Loss
  import opened Session

  /** Both ends are in their transfer loops. */
  predicate Transferring(x: State) {
    x.snd.sp == Sending && x.rcv.vp == Receiving
  }

  // ---- Loss ----

  /** t is x except that some packets sent so far will never arrive any more. */
  predicate Thinned(x: State, t: State) {
    t.snd == x.snd && t.rcv == x.rcv && t.toV <= x.toV && t.toS <= x.toS
  }

  /** None of them will. */
  function Forgotten(x: State): (t: State)
    ensures Thinned(x, t)
  {
    x.(toV := {}, toS := {})
  }

  lemma ThinnedStep(cfg: Config, x: State, t: State, e: Session.Event)
    requires Sound(cfg, x) && Thinned(x, t) && CanHappen(cfg, t, e)
    ensures CanHappen(cfg, x, e)
    ensures Next(cfg, x, e).Done? <==> Next(cfg, t, e).Done?
    ensures Next(cfg, x, e).Done? ==> Thinned(Next(cfg, x, e).value, Next(cfg, t, e).value)
  {
  }

  /** Whatever a session does after losing packets it could have done without. */
  lemma {:induction false} ThinnedRun(cfg: Config, x: State, t: State, es: seq<Session.Event>, u: State)
    returns (y: State)
    requires Thinned(x, t) && Happened(cfg, t, es, u)
    ensures Happened(cfg, x, es, y) && Thinned(y, u)
    decreases es
  {
    if es == [] {
      y := x;
    } else {
      ThinnedStep(cfg, x, t, es[0]);
      y := ThinnedRun(cfg, Next(cfg, x, es[0]).value, Next(cfg, t, es[0]).value, es[1..], u);
    }
  }

  /** What holds in every session, whatever it has lost. */
  ghost predicate LossyInv(cfg: Config, isn: seqnum, t: State) {
    exists x :: SessionInv(cfg, isn, x) && Paired(cfg, x) && Thinned(x, t)
  }

  lemma LossyKnows(cfg: Config, isn: seqnum, t: State)
    requires LossyInv(cfg, isn, t)
    ensures ValidStart(cfg, isn) && Sound(cfg, t)
    ensures SenderEndInv(cfg, isn, t.snd) && ReceiverEndInv(cfg, t.rcv) && PhasesAgree(t.snd, t.rcv)
  {
  }

  lemma NextKeepsLossy(cfg: Config, isn: seqnum, t: State, e: Session.Event)
    requires LossyInv(cfg, isn, t) && Sound(cfg, t) && CanHappen(cfg, t, e)
    ensures Next(cfg, t, e).Done? && LossyInv(cfg, isn, Next(cfg, t, e).value)
  {
    var x :| SessionInv(cfg, isn, x) && Paired(cfg, x) && Thinned(x, t);
    ThinnedStep(cfg, x, t, e);
    NextKeepsInv(cfg, isn, x, e);
    NextKeepsPaired(cfg, isn, x, e);
  }

  /** These events can happen in t and lead to u, and the invariant holds. */
  ghost predicate Goes(cfg: Config, isn: seqnum, t: State, es: seq<Session.Event>, u: State) {
    LossyInv(cfg, isn, t) && Happened(cfg, t, es, u) && LossyInv(cfg, isn, u)
  }

  lemma GoesOne(cfg: Config, isn: seqnum, t: State, e: Session.Event)
    requires LossyInv(cfg, isn, t) && Sound(cfg, t) && CanHappen(cfg, t, e)
    ensures Next(cfg, t, e).Done? && Goes(cfg, isn, t, [e], Next(cfg, t, e).value)
    ensures Sound(cfg, Next(cfg, t, e).value)
  {
    NextKeepsLossy(cfg, isn, t, e);
    LossyKnows(cfg, isn, Next(cfg, t, e).value);
    assert [e][1..] == [];
  }

  lemma {:induction false} HappenedOn(cfg: Config, x: State, es: seq<Session.Event>, y: State,
                                      tail: seq<Session.Event>, z: State)
    requires Happened(cfg, x, es, y) && Happened(cfg, y, tail, z)
    ensures Happened(cfg, x, es + tail, z)
    decreases es
  {
    if es == [] {
      assert es + tail == tail;
    } else {
      assert (es + tail)[1..] == es[1..] + tail;
      HappenedOn(cfg, Next(cfg, x, es[0]).value, es[1..], y, tail, z);
    }
  }

  lemma GoesOn(cfg: Config, isn: seqnum, x: State, es: seq<Session.Event>, y: State, tail: seq<Session.Event>, z: State)
    requires Goes(cfg, isn, x, es, y) && Goes(cfg, isn, y, tail, z)
    ensures Goes(cfg, isn, x, es + tail, z)
  {
    HappenedOn(cfg, x, es, y, tail, z);
  }

  // ---- Connecting ----

  /** The sender repeats its SYN, and the receiver answers it. */
  lemma Greets(cfg: Config, isn: seqnum, t: State) returns (es: seq<Session.Event>, u: State)
    requires LossyInv(cfg, isn, t) && t.snd.sp == Connecting && t.rcv.vp == Listening
    ensures Goes(cfg, isn, t, es, u) && u.snd.sp == Connecting && u.rcv.vp == Answering
  {
    LossyKnows(cfg, isn, t);
    var e0 := SenderReads(TimedOut);
    GoesOne(cfg, isn, t, e0);
    var t1 := Next(cfg, t, e0).value;
    var e1 := ReceiverReads(Verified(Control(isn, RTP_SYN)));
    GoesOne(cfg, isn, t1, e1);
    u := Next(cfg, t1, e1).value;
    GoesOn(cfg, isn, t, [e0], t1, [e1], u);
    es := [e0] + [e1];
  }

  /** The receiver repeats its answer. */
  lemma RepeatsAnswer(cfg: Config, isn: seqnum, t: State) returns (u: State)
    requires LossyInv(cfg, isn, t) && t.rcv.vp == Answering
    ensures Goes(cfg, isn, t, [ReceiverReads(TimedOut)], u)
    ensures u.snd == t.snd && u.rcv == t.rcv && Control(cfg.start, SYN_ACK) in u.toS
    ensures Sound(cfg, u)
  {
    LossyKnows(cfg, isn, t);
    GoesOne(cfg, isn, t, ReceiverReads(TimedOut));
    u := Next(cfg, t, ReceiverReads(TimedOut)).value;
  }

  lemma Answers(cfg: Config, isn: seqnum, t: State) returns (es: seq<Session.Event>, u: State)
    requires LossyInv(cfg, isn, t) && t.snd.sp == Connecting && t.rcv.vp == Answering
    ensures Goes(cfg, isn, t, es, u) && u.snd.sp == Confirming && u.rcv.vp == Answering
  {
    LossyKnows(cfg, isn, t);
    var t1 := RepeatsAnswer(cfg, isn, t);
    var e1 := SenderReads(Verified(Control(cfg.start, SYN_ACK)));
    GoesOne(cfg, isn, t1, e1);
    u := Next(cfg, t1, e1).value;
    GoesOn(cfg, isn, t, [ReceiverReads(TimedOut)], t1, [e1], u);
    es := [ReceiverReads(TimedOut)] + [e1];
  }

  /** A third handshake that was lost is sent once more. */
  lemma Confirms(cfg: Config, isn: seqnum, t: State) returns (es: seq<Session.Event>, u: State)
    requires LossyInv(cfg, isn, t) && t.snd.sp == Confirming && t.rcv.vp == Answering
    ensures Goes(cfg, isn, t, es, u) && Transferring(u) && u.snd.s == SenderInit(cfg)
  {
    LossyKnows(cfg, isn, t);
    var t1 := RepeatsAnswer(cfg, isn, t);
    var e1 := SenderReads(Verified(Control(cfg.start, SYN_ACK)));
    GoesOne(cfg, isn, t1, e1);
    var t2 := Next(cfg, t1, e1).value;
    GoesOn(cfg, isn, t, [ReceiverReads(TimedOut)], t1, [e1], t2);
    var e2 := ReceiverReads(Verified(Control(cfg.start, RTP_ACK)));
    GoesOne(cfg, isn, t2, e2);
    u := Next(cfg, t2, e2).value;
    GoesOn(cfg, isn, t, [ReceiverReads(TimedOut)] + [e1], t2, [e2], u);
    es := [ReceiverReads(TimedOut)] + [e1] + [e2];
  }

  lemma GoesAhead(cfg: Config, isn: seqnum, t: State) returns (u: State)
    requires LossyInv(cfg, isn, t) && t.snd.sp == Confirming
    ensures Goes(cfg, isn, t, [SenderReads(TimedOut)], u)
    ensures u == t.(snd := SenderEnd(Sending, SenderInit(cfg)), toV := u.toV)
  {
    LossyKnows(cfg, isn, t);
    GoesOne(cfg, isn, t, SenderReads(TimedOut));
    u := Next(cfg, t, SenderReads(TimedOut)).value;
  }

  predicate BothEarly(x: State) {
    && (x.snd.sp == Connecting || x.snd.sp == Confirming || x.snd.sp == Sending)
    && (x.rcv.vp == Listening || x.rcv.vp == Answering || x.rcv.vp == Receiving)
  }

  predicate CanStillConnect(x: State) {
    BothEarly(x) && !(x.snd.sp == Sending && x.rcv.vp == Answering)
  }

  lemma Connects(cfg: Config, isn: seqnum, t: State) returns (es: seq<Session.Event>, u: State)
    requires LossyInv(cfg, isn, t) && CanStillConnect(t)
    ensures Goes(cfg, isn, t, es, u) && Transferring(u)
    ensures u == t || u.snd.s == SenderInit(cfg)
  {
    LossyKnows(cfg, isn, t);
    es, u := [], t;
    if t.snd.sp == Connecting && t.rcv.vp == Listening {
      var x, v := Greets(cfg, isn, t);
      es, u := ConnectsAnswered(cfg, isn, v);
      GoesOn(cfg, isn, t, x, v, es, u);
      es := x + es;
    } else if t.snd.sp == Connecting {
      es, u := ConnectsAnswered(cfg, isn, t);
    } else if t.snd.sp == Confirming && t.rcv.vp == Answering {
      es, u := Confirms(cfg, isn, t);
    } else if t.snd.sp == Confirming {
      u := GoesAhead(cfg, isn, t);
      es := [SenderReads(TimedOut)];
    }
  }

  lemma ConnectsAnswered(cfg: Config, isn: seqnum, t: State) returns (es: seq<Session.Event>, u: State)
    requires LossyInv(cfg, isn, t) && t.snd.sp == Connecting && t.rcv.vp == Answering
    ensures Goes(cfg, isn, t, es, u) && Transferring(u) && u.snd.s == SenderInit(cfg)
  {
    var x, v := Answers(cfg, isn, t);
    es, u := Confirms(cfg, isn, v);
    GoesOn(cfg, isn, t, x, v, es, u);
    es := x + es;
  }

  /** Neither end goes back to an earlier part of its program. */
  lemma {:induction false} NoWayBack(cfg: Config, x: State, es: seq<Session.Event>, y: State)
    requires Happened(cfg, x, es, y) && BothEarly(y)
    ensures BothEarly(x)
    decreases es
  {
    if es != [] {
      NoWayBack(cfg, Next(cfg, x, es[0]).value, es[1..], y);
    }
  }

  ghost predicate Connectable(cfg: Config, t: State) {
    exists tail, y :: Happened(cfg, t, tail, y) && Transferring(y)
  }

  /** Exactly when a session can still reach the state in which both ends are in
      their transfer loops after everything sent so far is lost: when neither is
      past its loop or has given up, except when the sender has begun to send data
      and the receiver has yet to hear the third handshake. */
  lemma ConnectableAfterLoss(cfg: Config, isn: seqnum, es: seq<Session.Event>, x: State)
    requires Session.Session(cfg, isn, es, x)
    ensures Connectable(cfg, Forgotten(x)) <==> CanStillConnect(x)
  {
    AfterEvents(cfg, isn, es, x);
    var t := Forgotten(x);
    if CanStillConnect(x) {
      var tail, y := Connects(cfg, isn, t);
    } else {
      forall tail, y | Happened(cfg, t, tail, y) && Transferring(y) ensures false {
        NoWayBack(cfg, t, tail, y);
        MissedForGood(cfg, t, tail, y);
      }
    }
  }

  /** Without a loss there is no such exception. */
  lemma SessionCanConnect(cfg: Config, isn: seqnum, es: seq<Session.Event>, x: State)
    requires Session.Session(cfg, isn, es, x)
    ensures Connectable(cfg, x) <==> BothEarly(x)
  {
    AfterEvents(cfg, isn, es, x);
    if BothEarly(x) {
      if CanStillConnect(x) {
        var tail, y := Connects(cfg, isn, x);
      } else {
        var y := HearsThird(cfg, isn, x);
      }
    } else {
      forall tail, y | Happened(cfg, x, tail, y) && Transferring(y) ensures false {
        NoWayBack(cfg, x, tail, y);
      }
    }
  }

  /** A third handshake that was not lost can still arrive. */
  lemma HearsThird(cfg: Config, isn: seqnum, x: State) returns (y: State)
    requires SessionInv(cfg, isn, x) && Paired(cfg, x) && SenderBegun(x.snd) && x.rcv.vp == Answering
    ensures Goes(cfg, isn, x, [ReceiverReads(Verified(Control(cfg.start, RTP_ACK)))], y)
    ensures SessionInv(cfg, isn, y) && Paired(cfg, y) && y.snd == x.snd && y.rcv.vp == Receiving
  {
    var e := ReceiverReads(Verified(Control(cfg.start, RTP_ACK)));
    NextKeepsInv(cfg, isn, x, e);
    NextKeepsPaired(cfg, isn, x, e);
    GoesOne(cfg, isn, x, e);
    y := Next(cfg, x, e).value;
  }

  // ---- Transferring ----

  function Lifted(e: Protocol.Event): Session.Event {
    match e
    case SenderFills => SenderGoesOn
    case SenderReceives(r) => SenderReads(r)
    case ReceiverReceives(r) => ReceiverReads(r)
  }

  lemma LiftedWhole(cfg: Config, isn: seqnum, x: State, e: Protocol.Event)
    requires SessionInv(cfg, isn, x) && x.snd.sp == Sending && ReceiverBegun(x.rcv)
    requires L.Plain(e) && CanHappen(cfg, x, Lifted(e)) && (e.SenderFills? ==> !Finished(cfg, x.snd.s))
    requires e.ReceiverReceives? ==> x.rcv.vp == Receiving
    ensures WorldOk(cfg, View(cfg, x)) && Next(cfg, x, Lifted(e)).Done? && Enabled(cfg, View(cfg, x), e)
    ensures var y := Next(cfg, x, Lifted(e)).value;
      y.snd.sp == Sending && y.rcv.vp == x.rcv.vp && Step(cfg, View(cfg, x), e) == Done(View(cfg, y))
  {
    FlagsDiffer();
    match e {
      case SenderFills => SenderMovesKeepsInv(cfg, isn, x);
      case SenderReceives(r) => SenderTransferKeepsInv(cfg, isn, x, r);
      case ReceiverReceives(r) => ReceiverTransferKeepsInv(cfg, isn, x, r);
    }
  }

  lemma LiftedChannels(cfg: Config, t: State, e: Protocol.Event)
    requires Sound(cfg, t) && t.snd.sp == Sending && t.snd.s.shift <= cfg.N()
    requires L.Plain(e) && CanHappen(cfg, t, Lifted(e)) && (e.SenderFills? ==> MustFill(cfg, t.snd.s))
    requires e.ReceiverReceives? ==> t.rcv.vp == Receiving
    requires Next(cfg, t, Lifted(e)).Done?
    ensures var u := Next(cfg, t, Lifted(e)).value;
      && WithFlags(u.toV, 0) == WithFlags(t.toV, 0) + (
           if e.SenderFills? then Elements(Fresh(cfg, t.snd.s))
           else if e.SenderReceives? then Elements(SenderSends(cfg, t.snd.s, e.r)) else {})
      && WithFlags(u.toS, RTP_ACK) == WithFlags(t.toS, RTP_ACK) + (
           if e.ReceiverReceives? then Elements(Receive(cfg, t.rcv.v, e.r).value.1) else {})
  {
    match e {
      case SenderFills => DataOnly(cfg, t.snd.s, TimedOut);
      case SenderReceives(r) => DataOnly(cfg, t.snd.s, r);
      case ReceiverReceives(r) => AcksOnly(cfg, t.rcv.v, r);
    }
  }

  /** What the transfer can do on its own, it can do within a session that has
      lost the same packets. */
  lemma LiftOne(cfg: Config, isn: seqnum, t: State, e: Protocol.Event)
    requires LossyInv(cfg, isn, t) && t.snd.sp == Sending && ReceiverBegun(t.rcv)
    requires L.Plain(e) && Enabled(cfg, View(cfg, t), e)
    ensures Sound(cfg, t) && CanHappen(cfg, t, Lifted(e)) && Next(cfg, t, Lifted(e)).Done?
    ensures WorldOk(cfg, View(cfg, t))
    ensures var u := Next(cfg, t, Lifted(e)).value;
      && Goes(cfg, isn, t, [Lifted(e)], u) && u.snd.sp == Sending && u.rcv.vp == t.rcv.vp
      && Step(cfg, View(cfg, t), e) == Done(View(cfg, u))
  {
    LossyKnows(cfg, isn, t);
    GoesOne(cfg, isn, t, Lifted(e));
    var x :| SessionInv(cfg, isn, x) && Paired(cfg, x) && Thinned(x, t);
    ThinnedStep(cfg, x, t, Lifted(e));
    LiftedWhole(cfg, isn, x, e);
    LiftedChannels(cfg, t, e);
    L.FadedStep(cfg, View(cfg, x), View(cfg, t), e);
  }

  lemma {:induction false} LiftRun(cfg: Config, isn: seqnum, t: State, es: seq<Protocol.Event>, w: World)
    returns (ses: seq<Session.Event>, u: State)
    requires LossyInv(cfg, isn, t) && t.snd.sp == Sending && ReceiverBegun(t.rcv)
    requires cfg.Typed() && WorldOk(cfg, View(cfg, t)) && L.Goes(cfg, View(cfg, t), es, w)
    ensures Goes(cfg, isn, t, ses, u) && u.snd.sp == Sending && u.rcv.vp == t.rcv.vp && View(cfg, u) == w
    decreases es
  {
    if es == [] {
      ses, u := [], t;
    } else {
      LiftOne(cfg, isn, t, es[0]);
      var v := Next(cfg, t, Lifted(es[0])).value;
      StepKeepsOk(cfg, View(cfg, t), es[0]);
      assert forall e :: e in es[1..] ==> e in es;
      ses, u := LiftRun(cfg, isn, v, es[1..], w);
      GoesOn(cfg, isn, t, [Lifted(es[0])], v, ses, u);
      ses := [Lifted(es[0])] + ses;
    }
  }

  /** After a loss: unless the batch outstanding crosses the end of the ring. */
  lemma Recovers(cfg: Config, isn: seqnum, t: State) returns (es: seq<Session.Event>, u: State)
    requires LossyInv(cfg, isn, t) && Transferring(t) && (MustWait(cfg, t.snd.s) ==> t.snd.s.wbase < t.snd.s.sqn)
    ensures Goes(cfg, isn, t, es, u) && Transferring(u) && Finished(cfg, u.snd.s)
  {
    LossyKnows(cfg, isn, t);
    var x :| SessionInv(cfg, isn, x) && Paired(cfg, x) && Thinned(x, t);
    var run :| Reaches(cfg, run, View(cfg, x));
    var tail, w := L.Recovers(cfg, run, View(cfg, x), View(cfg, t));
    es, u := LiftRun(cfg, isn, t, tail, w);
  }

  /** Without a loss: if the receiver is still there or has every packet. */
  lemma Transfers(cfg: Config, isn: seqnum, x: State) returns (es: seq<Session.Event>, y: State)
    requires SessionInv(cfg, isn, x) && Paired(cfg, x) && x.snd.sp == Sending && ReceiverBegun(x.rcv)
    requires x.rcv.vp == Receiving || x.rcv.v.shift >= cfg.N()
    ensures Goes(cfg, isn, x, es, y) && y.snd.sp == Sending && y.rcv.vp == x.rcv.vp && Finished(cfg, y.snd.s)
  {
    var run :| Reaches(cfg, run, View(cfg, x));
    var tail, w := L.Finishes(cfg, run, View(cfg, x));
    es, y := LiftRun(cfg, isn, x, tail, w);
  }

  // ---- Disconnecting ----

  lemma Leaves(cfg: Config, isn: seqnum, t: State) returns (u: State)
    requires LossyInv(cfg, isn, t) && t.snd.sp == Sending && Finished(cfg, t.snd.s)
    ensures Goes(cfg, isn, t, [SenderGoesOn], u) && u.snd.sp == Closing && u.rcv == t.rcv
  {
    LossyKnows(cfg, isn, t);
    GoesOne(cfg, isn, t, SenderGoesOn);
    u := Next(cfg, t, SenderGoesOn).value;
  }

  /** The sender repeats its FIN, and it arrives. */
  lemma FinArrives(cfg: Config, isn: seqnum, t: State) returns (es: seq<Session.Event>, u: State)
    requires LossyInv(cfg, isn, t) && t.snd.sp == Closing
    requires t.rcv.vp == Receiving || t.rcv.vp == AwaitingFin || t.rcv.vp == Lingering
    ensures Goes(cfg, isn, t, es, u) && u.snd == t.snd && Sound(cfg, u)
    ensures t.rcv.vp == Receiving ==> u.rcv.vp == AwaitingFin
    ensures t.rcv.vp != Receiving ==> Control(t.snd.s.sqn, FIN_ACK) in u.toS
  {
    LossyKnows(cfg, isn, t);
    FlagsDiffer();
    var e0 := SenderReads(TimedOut);
    GoesOne(cfg, isn, t, e0);
    var t1 := Next(cfg, t, e0).value;
    var e1 := ReceiverReads(Verified(Control(t.snd.s.sqn, RTP_FIN)));
    GoesOne(cfg, isn, t1, e1);
    u := Next(cfg, t1, e1).value;
    GoesOn(cfg, isn, t, [e0], t1, [e1], u);
    es := [e0] + [e1];
  }

  /** The answer to it closes the sender. */
  lemma AnswerArrives(cfg: Config, isn: seqnum, t: State) returns (u: State)
    requires LossyInv(cfg, isn, t) && Sound(cfg, t) && t.snd.sp == Closing && Control(t.snd.s.sqn, FIN_ACK) in t.toS
    ensures Goes(cfg, isn, t, [SenderReads(Verified(Control(t.snd.s.sqn, FIN_ACK)))], u) && u.snd.sp == Closed
  {
    var e := SenderReads(Verified(Control(t.snd.s.sqn, FIN_ACK)));
    GoesOne(cfg, isn, t, e);
    u := Next(cfg, t, e).value;
  }

  lemma Closes(cfg: Config, isn: seqnum, t: State) returns (es: seq<Session.Event>, u: State)
    requires LossyInv(cfg, isn, t) && t.snd.sp == Closing && (t.rcv.vp == AwaitingFin || t.rcv.vp == Lingering)
    ensures Goes(cfg, isn, t, es, u) && u.snd.sp == Closed
  {
    var x, v := FinArrives(cfg, isn, t);
    u := AnswerArrives(cfg, isn, v);
    var e := SenderReads(Verified(Control(v.snd.s.sqn, FIN_ACK)));
    GoesOn(cfg, isn, t, x, v, [e], u);
    es := x + [e];
  }

  /** A finished transfer can be torn down, whatever was lost: one FIN ends the
      receiver's loop if it is in it, the next is answered, and the answer closes
      the sender. */
  lemma Disconnects(cfg: Config, isn: seqnum, t: State) returns (es: seq<Session.Event>, u: State)
    requires LossyInv(cfg, isn, t) && Finished(cfg, t.snd.s)
    requires t.snd.sp == Sending || t.snd.sp == Closing
    requires t.rcv.vp == Receiving || t.rcv.vp == AwaitingFin || t.rcv.vp == Lingering
    ensures Goes(cfg, isn, t, es, u) && u.snd.sp == Closed
    decreases t.snd.sp == Sending, t.rcv.vp == Receiving
  {
    if t.snd.sp == Sending {
      var v := Leaves(cfg, isn, t);
      LossyKnows(cfg, isn, v);
      es, u := Disconnects(cfg, isn, v);
      GoesOn(cfg, isn, t, [SenderGoesOn], v, es, u);
      es := [SenderGoesOn] + es;
    } else if t.rcv.vp == Receiving {
      var x, v := FinArrives(cfg, isn, t);
      es, u := Closes(cfg, isn, v);
      GoesOn(cfg, isn, t, x, v, es, u);
      es := x + es;
    } else {
      es, u := Closes(cfg, isn, t);
    }
  }

  // ---- Closing after a loss ----

  /** Whether a session that has lost everything sent so far can still be closed. */
  predicate CanStillClose(cfg: Config, x: State) {
    match x.snd.sp
    case Connecting => x.rcv.vp == Listening || x.rcv.vp == Answering
    case Confirming =>
      x.rcv.vp == Answering || x.rcv.vp == Receiving || (x.rcv.vp == AwaitingFin && cfg.N() == 0)
    case Sending =>
      || (x.rcv.vp == Receiving && (MustWait(cfg, x.snd.s) ==> x.snd.s.wbase < x.snd.s.sqn))
      || (x.rcv.vp == AwaitingFin && Finished(cfg, x.snd.s))
    case Closing => x.rcv.vp == Receiving || x.rcv.vp == AwaitingFin || x.rcv.vp == Lingering
    case Closed => true
  }

  /** The receiver has left its loop, and so written its file, and the file is
      the rebuilt one. */
  predicate Written(cfg: Config, b: ReceiverEnd) {
    ReceiverLeft(b) && b.v.fsize <= |b.v.buf| && b.v.buf[..b.v.fsize] == Rebuilt(cfg.file)
  }

  /** The sender can get through break_connection, with the file written. */
  ghost predicate Closable(cfg: Config, t: State) {
    exists tail, y :: Happened(cfg, t, tail, y) && y.snd.sp == Closed && Written(cfg, y.rcv)
  }

  lemma TransferringCloses(cfg: Config, isn: seqnum, t: State) returns (es: seq<Session.Event>, u: State)
    requires LossyInv(cfg, isn, t) && Transferring(t) && (MustWait(cfg, t.snd.s) ==> t.snd.s.wbase < t.snd.s.sqn)
    ensures Goes(cfg, isn, t, es, u) && u.snd.sp == Closed
  {
    var x, v := Recovers(cfg, isn, t);
    es, u := Disconnects(cfg, isn, v);
    GoesOn(cfg, isn, t, x, v, es, u);
    es := x + es;
  }

  lemma StillCloses(cfg: Config, isn: seqnum, t: State) returns (es: seq<Session.Event>, u: State)
    requires LossyInv(cfg, isn, t) && CanStillClose(cfg, t)
    ensures Goes(cfg, isn, t, es, u) && u.snd.sp == Closed
  {
    LossyKnows(cfg, isn, t);
    if t.snd.sp == Closed {
      es, u := [], t;
    } else if CanStillConnect(t) {
      var x, v := Connects(cfg, isn, t);
      es, u := TransferringCloses(cfg, isn, v);
      GoesOn(cfg, isn, t, x, v, es, u);
      es := x + es;
    } else if t.snd.sp == Confirming {
      var v := GoesAhead(cfg, isn, t);
      es, u := Disconnects(cfg, isn, v);
      GoesOn(cfg, isn, t, [SenderReads(TimedOut)], v, es, u);
      es := [SenderReads(TimedOut)] + es;
    } else {
      es, u := Disconnects(cfg, isn, t);
    }
  }

  /** The sender has not finished, and no acknowledgement will reach it. */
  predicate Unheard(cfg: Config, t: State) {
    && (t.snd.sp == Confirming || t.snd.sp == Sending) && !Finished(cfg, t.snd.s)
    && (forall p :: p in t.toS ==> p.flags != RTP_ACK)
    && (|| ReceiverLeft(t.rcv)
        || (&& Transferring(t) && MustWait(cfg, t.snd.s) && t.snd.s.wbase > t.snd.s.sqn
            && forall p :: p in t.toV ==> p.flags != 0))
  }

  /** The ways in which no FIN will ever reach the receiver. */
  predicate Hopeless(cfg: Config, t: State) {
    t.rcv.vp == Dead || Missed(t) || Unheard(cfg, t)
  }

  /** The ways in which a session is stuck: these, or the answer to the FIN lost by
      a receiver that has ended. */
  predicate Stranded(cfg: Config, t: State) {
    Hopeless(cfg, t) || (t.snd.sp == Closing && t.rcv.vp == Ended && t.toS == {})
  }

  lemma UnheardStep(cfg: Config, t: State, e: Session.Event)
    requires Sound(cfg, t) && Unheard(cfg, t) && CanHappen(cfg, t, e) && Next(cfg, t, e).Done?
    requires t.snd.sp == Confirming ==> t.snd.s == SenderInit(cfg)
    ensures Unheard(cfg, Next(cfg, t, e).value)
  {
    FlagsDiffer();
    if t.snd.s.wbase > t.snd.s.sqn {
      ResendsNothing(cfg, t.snd.s);
    }
  }

  lemma HopelessStep(cfg: Config, isn: seqnum, t: State, e: Session.Event)
    requires LossyInv(cfg, isn, t) && Hopeless(cfg, t) && Sound(cfg, t) && CanHappen(cfg, t, e)
    ensures Next(cfg, t, e).Done? && Hopeless(cfg, Next(cfg, t, e).value)
  {
    NextKeepsLossy(cfg, isn, t, e);
    LossyKnows(cfg, isn, t);
    if Missed(t) {
      MissedStep(cfg, t, e);
    } else if Unheard(cfg, t) {
      UnheardStep(cfg, t, e);
    }
  }

  lemma StrandedStep(cfg: Config, isn: seqnum, t: State, e: Session.Event)
    requires LossyInv(cfg, isn, t) && Stranded(cfg, t) && Sound(cfg, t) && CanHappen(cfg, t, e)
    ensures Next(cfg, t, e).Done? && Stranded(cfg, Next(cfg, t, e).value)
  {
    NextKeepsLossy(cfg, isn, t, e);
    if Hopeless(cfg, t) {
      HopelessStep(cfg, isn, t, e);
    }
  }

  lemma {:induction false} StrandedForGood(cfg: Config, isn: seqnum, t: State, es: seq<Session.Event>, u: State)
    requires LossyInv(cfg, isn, t) && Stranded(cfg, t) && Happened(cfg, t, es, u)
    ensures u.snd.sp != Closed
    decreases es
  {
    LossyKnows(cfg, isn, t);
    if es == [] {
      NotClosed(cfg, isn, t);
    } else {
      NextKeepsLossy(cfg, isn, t, es[0]);
      StrandedStep(cfg, isn, t, es[0]);
      StrandedForGood(cfg, isn, Next(cfg, t, es[0]).value, es[1..], u);
    }
  }

  lemma NotClosed(cfg: Config, isn: seqnum, t: State)
    requires LossyInv(cfg, isn, t) && Stranded(cfg, t)
    ensures t.snd.sp != Closed
  {
    var x :| SessionInv(cfg, isn, x) && Paired(cfg, x) && Thinned(x, t);
  }

  /** However a session is closed, whatever it has lost, the file is written. */
  lemma WrittenAfterLoss(cfg: Config, isn: seqnum, es: seq<Session.Event>, x: State, t: State,
                         tail: seq<Session.Event>, u: State)
    requires Session.Session(cfg, isn, es, x) && Thinned(x, t) && Happened(cfg, t, tail, u) && u.snd.sp == Closed
    ensures Written(cfg, u.rcv)
  {
    var y := ThinnedRun(cfg, x, t, tail, u);
    HappenedOn(cfg, Begin(cfg, isn), es, x, tail, y);
    ClosedMeansWritten(cfg, isn, es + tail, y);
  }

  /** Exactly when a session that has lost everything sent so far can still be
      closed. In its transfer it can unless a batch is outstanding that crosses
      the end of the ring; batches still to be sent do not matter. Beyond that it
      is stuck with a receiver that has given up, that left its loop too early,
      that has yet to hear the third handshake from a sender already past it, or
      that has ended with its answer to the FIN lost. */
  lemma ClosableAfterLoss(cfg: Config, isn: seqnum, es: seq<Session.Event>, x: State)
    requires Session.Session(cfg, isn, es, x)
    ensures Closable(cfg, Forgotten(x)) <==> CanStillClose(cfg, x)
  {
    AfterEvents(cfg, isn, es, x);
    var t := Forgotten(x);
    if CanStillClose(cfg, x) {
      var tail, y := StillCloses(cfg, isn, t);
      WrittenAfterLoss(cfg, isn, es, x, t, tail, y);
    } else {
      assert Stranded(cfg, t);
      forall tail, y | Happened(cfg, t, tail, y) ensures y.snd.sp != Closed {
        StrandedForGood(cfg, isn, t, tail, y);
      }
    }
  }

  // ---- Closing without a loss ----

  /** The receiver has not given up, and has not left its loop too early. */
  predicate Healthy(cfg: Config, b: ReceiverEnd) {
    b.vp != Dead && (ReceiverLeft(b) ==> b.v.shift >= cfg.N())
  }

  lemma {:induction false} UnhealthyForGood(cfg: Config, x: State, es: seq<Session.Event>, y: State)
    requires !Healthy(cfg, x.rcv) && Happened(cfg, x, es, y)
    ensures !Healthy(cfg, y.rcv)
    decreases es
  {
    if es != [] {
      UnhealthyForGood(cfg, Next(cfg, x, es[0]).value, es[1..], y);
    }
  }

  lemma ClosedIsHealthy(cfg: Config, isn: seqnum, x: State)
    requires SessionInv(cfg, isn, x) && x.snd.sp == Closed
    ensures Healthy(cfg, x.rcv)
  {
    var run :| Reaches(cfg, run, View(cfg, x));
    EndsAgree(cfg, run, View(cfg, x));
  }

  lemma NothingStoredYet(cfg: Config, isn: seqnum, x: State)
    requires SessionInv(cfg, isn, x) && x.snd.s == SenderInit(cfg) && x.rcv.vp != Dead
    ensures x.rcv.v.shift == 0 && x.rcv.v.fsize == 0
  {
    var run :| Reaches(cfg, run, View(cfg, x));
    StartMeansEmpty(cfg, run, View(cfg, x));
  }

  lemma HealthyCloses(cfg: Config, isn: seqnum, x: State) returns (es: seq<Session.Event>, y: State)
    requires SessionInv(cfg, isn, x) && Paired(cfg, x) && Healthy(cfg, x.rcv)
    ensures Goes(cfg, isn, x, es, y) && y.snd.sp == Closed
    decreases x.rcv.vp == Answering
  {
    if CanStillClose(cfg, x) {
      es, y := StillCloses(cfg, isn, x);
    } else if x.rcv.vp == Answering {
      var v := HearsThird(cfg, isn, x);
      es, y := HealthyCloses(cfg, isn, v);
      var e := ReceiverReads(Verified(Control(cfg.start, RTP_ACK)));
      GoesOn(cfg, isn, x, [e], v, es, y);
      es := [e] + es;
    } else if x.snd.sp == Closing {
      y := AnswerArrives(cfg, isn, x);
      es := [SenderReads(Verified(Control(x.snd.s.sqn, FIN_ACK)))];
    } else {
      if x.snd.sp == Confirming {
        NothingStoredYet(cfg, isn, x);
      }
      var tail, v := Transfers(cfg, isn, x);
      es, y := Disconnects(cfg, isn, v);
      GoesOn(cfg, isn, x, tail, v, es, y);
      es := tail + es;
    }
  }

  /** Exactly when a session can be brought to its end while nothing is lost for
      good: when the receiver has not given up and has not left its loop before it
      had every packet. */
  lemma SessionCanComplete(cfg: Config, isn: seqnum, es: seq<Session.Event>, x: State)
    requires Session.Session(cfg, isn, es, x)
    ensures Healthy(cfg, x.rcv) <==> exists tail, y ::
      Session.Session(cfg, isn, es + tail, y) && y.snd.sp == Closed && Written(cfg, y.rcv)
  {
    AfterEvents(cfg, isn, es, x);
    if Healthy(cfg, x.rcv) {
      var tail, y := HealthyCloses(cfg, isn, x);
      HappenedOn(cfg, Begin(cfg, isn), es, x, tail, y);
      ClosedMeansWritten(cfg, isn, es + tail, y);
    } else {
      forall tail, y | Session.Session(cfg, isn, es + tail, y) ensures y.snd.sp != Closed {
        var x' := Split(cfg, Begin(cfg, isn), es, tail, y);
        SameEnd(cfg, Begin(cfg, isn), es, x, x');
        UnhealthyForGood(cfg, x, tail, y);
        AfterEvents(cfg, isn, es + tail, y);
        if y.snd.sp == Closed {
          ClosedIsHealthy(cfg, isn, y);
        }
      }
    }
  }

  lemma {:induction false} Split(cfg: Config, x: State, es: seq<Session.Event>, tail: seq<Session.Event>, z: State)
    returns (y: State)
    requires Happened(cfg, x, es + tail, z)
    ensures Happened(cfg, x, es, y) && Happened(cfg, y, tail, z)
    decreases es
  {
    if es == [] {
      assert es + tail == tail;
      y := x;
    } else {
      assert (es + tail)[1..] == es[1..] + tail;
      y := Split(cfg, Next(cfg, x, es[0]).value, es[1..], tail, z);
    }
  }

  lemma {:induction false} SameEnd(cfg: Config, x: State, es: seq<Session.Event>, y: State, z: State)
    requires Happened(cfg, x, es, y) && Happened(cfg, x, es, z)
    ensures y == z
    decreases es
  {
    if es != [] {
      SameEnd(cfg, Next(cfg, x, es[0]).value, es[1..], y, z);
    }
  }

  // ---- Whether the receiver's program ends ----

  /** The receiver's program gets through break_connection. */
  ghost predicate Endable(cfg: Config, t: State) {
    exists tail, y :: Happened(cfg, t, tail, y) && y.rcv.vp == Ended
  }

  lemma ClosedEnds(cfg: Config, isn: seqnum, t: State)
    requires LossyInv(cfg, isn, t) && (t.snd.sp == Closed || t.rcv.vp == Lingering || t.rcv.vp == Ended)
    ensures Endable(cfg, t)
  {
    LossyKnows(cfg, isn, t);
    if t.snd.sp == Closed {
      ClosedHasAnswered(cfg, isn, t);
    }
    if t.rcv.vp == Ended {
      assert Happened(cfg, t, [], t);
    } else {
      GoesOne(cfg, isn, t, ReceiverReads(TimedOut));
    }
  }

  lemma ClosedHasAnswered(cfg: Config, isn: seqnum, t: State)
    requires LossyInv(cfg, isn, t) && t.snd.sp == Closed
    ensures t.rcv.vp == Lingering || t.rcv.vp == Ended
  {
  }

  lemma EndableOn(cfg: Config, x: State, es: seq<Session.Event>, y: State)
    requires Happened(cfg, x, es, y) && Endable(cfg, y)
    ensures Endable(cfg, x)
  {
    var tail, z :| Happened(cfg, y, tail, z) && z.rcv.vp == Ended;
    HappenedOn(cfg, x, es, y, tail, z);
  }

  lemma {:induction false} HopelessForGood(cfg: Config, isn: seqnum, t: State, es: seq<Session.Event>, u: State)
    requires LossyInv(cfg, isn, t) && Hopeless(cfg, t) && Happened(cfg, t, es, u)
    ensures u.rcv.vp != Ended
    decreases es
  {
    LossyKnows(cfg, isn, t);
    if es != [] {
      NextKeepsLossy(cfg, isn, t, es[0]);
      HopelessStep(cfg, isn, t, es[0]);
      HopelessForGood(cfg, isn, Next(cfg, t, es[0]).value, es[1..], u);
    }
  }

  /** Exactly when the receiver's program can still end after everything sent so far
      is lost: when the session can still be closed, or it has answered a FIN. */
  lemma ReceiverEndsAfterLoss(cfg: Config, isn: seqnum, es: seq<Session.Event>, x: State)
    requires Session.Session(cfg, isn, es, x)
    ensures Endable(cfg, Forgotten(x)) <==> CanStillClose(cfg, x) || x.rcv.vp == Lingering || x.rcv.vp == Ended
  {
    AfterEvents(cfg, isn, es, x);
    var t := Forgotten(x);
    if x.rcv.vp == Lingering || x.rcv.vp == Ended {
      ClosedEnds(cfg, isn, t);
    } else if CanStillClose(cfg, x) {
      var tail, y := StillCloses(cfg, isn, t);
      ClosedEnds(cfg, isn, y);
      EndableOn(cfg, t, tail, y);
    } else {
      assert Hopeless(cfg, t);
      forall tail, y | Happened(cfg, t, tail, y) ensures y.rcv.vp != Ended {
        HopelessForGood(cfg, isn, t, tail, y);
      }
    }
  }

  /** No FIN is about while the receiver lacks a packet. */
  lemma NoFinYet(cfg: Config, isn: seqnum, x: State, p: Packet)
    requires SessionInv(cfg, isn, x) && x.rcv.vp == AwaitingFin && x.rcv.v.shift < cfg.N() && p in x.toV
    ensures p.flags != RTP_FIN
  {
    FlagsDiffer();
    assert PacketToV(cfg, isn, x, p);
    if p.flags == RTP_FIN {
      var run :| Reaches(cfg, run, View(cfg, x));
      EndsAgree(cfg, run, View(cfg, x));
    }
  }

  /** A receiver that left its loop before it had every packet waits in
      break_connection for ever: nothing that can happen changes it. */
  lemma {:induction false} LeftTooEarlyForGood(cfg: Config, isn: seqnum, x: State, es: seq<Session.Event>, y: State)
    requires SessionInv(cfg, isn, x) && Paired(cfg, x) && Happened(cfg, x, es, y)
    requires x.rcv.vp == AwaitingFin && x.rcv.v.shift < cfg.N()
    ensures y.rcv == x.rcv
    decreases es
  {
    if es != [] {
      NextKeepsInv(cfg, isn, x, es[0]);
      NextKeepsPaired(cfg, isn, x, es[0]);
      if es[0].ReceiverReads? && es[0].r.Verified? {
        NoFinYet(cfg, isn, x, es[0].r.packet);
      }
      LeftTooEarlyForGood(cfg, isn, Next(cfg, x, es[0]).value, es[1..], y);
    }
  }

  lemma {:induction false} DeadForGood(cfg: Config, x: State, es: seq<Session.Event>, y: State)
    requires x.rcv.vp == Dead && Happened(cfg, x, es, y)
    ensures y.rcv == x.rcv
    decreases es
  {
    if es != [] {
      DeadForGood(cfg, Next(cfg, x, es[0]).value, es[1..], y);
    }
  }

  lemma AnsweredIsHealthy(cfg: Config, isn: seqnum, x: State)
    requires SessionInv(cfg, isn, x) && Paired(cfg, x) && (x.rcv.vp == Lingering || x.rcv.vp == Ended)
    ensures Healthy(cfg, x.rcv)
  {
    var run :| Reaches(cfg, run, View(cfg, x));
    EndsAgree(cfg, run, View(cfg, x));
  }

  /** Exactly when the receiver's program can end while nothing is lost for good:
      when it has not given up and has not left its loop before it had every
      packet. */
  lemma ReceiverCanEnd(cfg: Config, isn: seqnum, es: seq<Session.Event>, x: State)
    requires Session.Session(cfg, isn, es, x)
    ensures Endable(cfg, x) <==> Healthy(cfg, x.rcv)
  {
    AfterEvents(cfg, isn, es, x);
    if Healthy(cfg, x.rcv) {
      var tail, y := HealthyCloses(cfg, isn, x);
      ClosedEnds(cfg, isn, y);
      EndableOn(cfg, x, tail, y);
    } else {
      forall tail, y | Happened(cfg, x, tail, y) ensures y.rcv.vp != Ended {
        if x.rcv.vp == Dead {
          DeadForGood(cfg, x, tail, y);
        } else if x.rcv.vp == AwaitingFin {
          LeftTooEarlyForGood(cfg, isn, x, tail, y);
        } else {
          AnsweredIsHealthy(cfg, isn, x);
        }
      }
    }
  }

  // ---- When leaving the loop is safe ----

  /** A receiver that ends its loop on r holds the rebuilt file, in whatever session
      it does so, exactly when r passed its checks or there is nothing to hold: a
      timeout, or a FIN bit in a garbled packet, is no assurance. */
  lemma LeavingIsSafeIff(cfg: Config, isn: seqnum, r: Reception)
    requires ValidStart(cfg, isn) && EndsTransfer(r)
    ensures r.Verified? || Rebuilt(cfg.file) == [] <==> forall es, x ::
      Session.Session(cfg, isn, es, x) && x.rcv.vp == Receiving && CanHappen(cfg, x, ReceiverReads(r)) ==>
        x.rcv.v.fsize <= |x.rcv.v.buf| && x.rcv.v.buf[..x.rcv.v.fsize] == Rebuilt(cfg.file)
  {
    if r.Verified? || Rebuilt(cfg.file) == [] {
      forall es, x | Session.Session(cfg, isn, es, x) && x.rcv.vp == Receiving && CanHappen(cfg, x, ReceiverReads(r))
        ensures x.rcv.v.fsize <= |x.rcv.v.buf| && x.rcv.v.buf[..x.rcv.v.fsize] == Rebuilt(cfg.file)
      {
        if r.Verified? {
          VerifiedFinMeansComplete(cfg, isn, es, x, r.packet);
        } else {
          AfterEvents(cfg, isn, es, x);
          NothingToStore(cfg, isn, x);
        }
      }
    } else {
      BeginInv(cfg, isn);
      var x0 := Begin(cfg, isn);
      var es, x := Connects(cfg, isn, x0);
      assert Session.Session(cfg, isn, es, x);
      AfterEvents(cfg, isn, es, x);
      NothingStoredYet(cfg, isn, x);
    }
  }

  /** A file that is rebuilt as nothing has at most one packet, and that is empty. */
  lemma NothingToStore(cfg: Config, isn: seqnum, x: State)
    requires SessionInv(cfg, isn, x) && x.rcv.vp == Receiving && Rebuilt(cfg.file) == []
    ensures x.rcv.v.fsize == 0
  {
    var run :| Reaches(cfg, run, View(cfg, x));
    Reassembly(cfg, run, View(cfg, x));
    assert forall k :: 0 <= k < cfg.N() ==> End(cfg.file, k) == 0;
  }
}
