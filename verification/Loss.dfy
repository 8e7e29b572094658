/** What becomes of a transfer when packets are lost for good, and when none are. */
module Loss {
  import opened Segments
  import opened Wire
  import opened Protocol
  import opened Refinement
  import opened Delivery

  /** t is w except that some packets sent so far will never arrive any more. */
  predicate Fades(w: World, t: World) {
    t.s == w.s && t.v == w.v && t.toV <= w.toV && t.toS <= w.toS
  }

  /** None of them will. */
  function Forgotten(w: World): (t: World)
    ensures Fades(w, t)
  {
    w.(toV := {}, toS := {})
  }

  /** Fills, timeouts at the sender, acknowledgements and data. */
  predicate Plain(e: Event) {
    match e
    case SenderFills => true
    case SenderReceives(r) => r.TimedOut? || (r.Verified? && r.packet.flags == RTP_ACK)
    case ReceiverReceives(r) => IsData(r)
  }

  /** A run of such events. */
  predicate Goes(cfg: Config, t: World, es: seq<Event>, u: World)
    requires cfg.Typed() && WorldOk(cfg, t)
  {
    Leads(cfg, t, es, u) && forall e :: e in es ==> Plain(e)
  }

  lemma GoesOn(cfg: Config, t: World, x: seq<Event>, u: World, y: seq<Event>, v: World)
    requires cfg.Typed() && WorldOk(cfg, t) && Goes(cfg, t, x, u) && Goes(cfg, u, y, v)
    ensures Goes(cfg, t, x + y, v)
  {
    LeadsOn(cfg, t, x, u, y, v);
  }

  // ---- What is lost does not make anything possible ----

  lemma FadedStep(cfg: Config, w: World, t: World, e: Event)
    requires WorldOk(cfg, w) && Fades(w, t) && Enabled(cfg, t, e)
    ensures Enabled(cfg, w, e)
    ensures Step(cfg, w, e).Done? <==> Step(cfg, t, e).Done?
    ensures Step(cfg, w, e).Done? ==> Fades(Step(cfg, w, e).value, Step(cfg, t, e).value)
  {
  }

  /** Whatever a transfer does after losing packets it could have done without. */
  lemma {:induction false} FadedRun(cfg: Config, w: World, t: World, es: seq<Event>, u: World) returns (v: World)
    requires cfg.Typed() && WorldOk(cfg, w) && Fades(w, t) && Leads(cfg, t, es, u)
    ensures Leads(cfg, w, es, v) && Fades(v, u)
    decreases es
  {
    if es == [] {
      v := w;
    } else {
      FadedStep(cfg, w, t, es[0]);
      StepKeepsOk(cfg, w, es[0]);
      StepKeepsOk(cfg, t, es[0]);
      v := FadedRun(cfg, Step(cfg, w, es[0]).value, Step(cfg, t, es[0]).value, es[1..], u);
    }
  }

  /** t is the concrete form of a with some packets lost. */
  predicate Stands(cfg: Config, a: I.State, t: World) {
    I.Inv(Par(cfg), a) && WorldOk(cfg, t) && Fades(Conc(cfg, a), t)
  }

  /** The square, with some packets lost. */
  lemma FadedSquare(cfg: Config, a: I.State, t: World, ie: I.Event, e: Event) returns (u: World)
    requires cfg.Valid() && Stands(cfg, a, t)
    requires I.Enabled(Par(cfg), a, ie) && Matches(cfg, ie, e) && Enabled(cfg, t, e) && Plain(e)
    ensures Step(cfg, t, e) == Done(u) && Stands(cfg, I.Step(Par(cfg), a, ie), u)
    ensures Goes(cfg, t, [e], u) && t.toV <= u.toV && t.toS <= u.toS
  {
    Square(cfg, a, ie, e);
    FadedStep(cfg, Conc(cfg, a), t, e);
    u := Step(cfg, t, e).value;
    StepLeads(cfg, t, e);
  }

  // ---- Data and acknowledgements arriving ----

  predicate DataIn(cfg: Config, ks: seq<nat>, ps: set<Packet>) {
    forall k :: k in ks ==> k < cfg.N() && DataPacket(cfg, k) in ps
  }

  predicate AcksIn(cfg: Config, ms: seq<nat>, ps: set<Packet>) {
    forall m :: m in ms ==> AckPacket(cfg, m) in ps
  }

  lemma DataInRest(cfg: Config, ks: seq<nat>, ps: set<Packet>, qs: set<Packet>)
    requires ks != [] && DataIn(cfg, ks, ps) && ps <= qs
    ensures ks[0] < cfg.N() && DataPacket(cfg, ks[0]) in ps && DataIn(cfg, ks[1..], qs)
  {
    assert ks[0] in ks && forall k :: k in ks[1..] ==> k in ks;
  }

  lemma AcksInBoth(cfg: Config, xs: seq<nat>, ps: set<Packet>, ys: seq<nat>, qs: set<Packet>)
    requires AcksIn(cfg, xs, ps) && AcksIn(cfg, ys, qs) && ps <= qs
    ensures AcksIn(cfg, xs + ys, qs)
  {
  }

  lemma OneArrives(cfg: Config, a: I.State, t: World, k: nat) returns (u: World)
    requires cfg.Valid() && Stands(cfg, a, t)
    requires I.Enabled(Par(cfg), a, I.Data(k)) && k < cfg.N() && DataPacket(cfg, k) in t.toV
    ensures Stands(cfg, I.Step(Par(cfg), a, I.Data(k)), u)
    ensures Goes(cfg, t, [ReceiverReceives(Verified(DataPacket(cfg, k)))], u)
    ensures t.toV <= u.toV && t.toS <= u.toS
    ensures AcksIn(cfg, I.Reply(Par(cfg), a, k), u.toS)
  {
    u := FadedSquare(cfg, a, t, I.Data(k), ReceiverReceives(Verified(DataPacket(cfg, k))));
    Replied(cfg, a, t, k, u);
  }

  lemma DataUnfolds(p: I.Params, a: I.State, ks: seq<nat>)
    requires ks != [] && I.Legal(p, a, I.DataEvents(ks))
    ensures var b := I.Step(p, a, I.Data(ks[0]));
      && I.Enabled(p, a, I.Data(ks[0])) && I.Legal(p, b, I.DataEvents(ks[1..]))
      && I.Run(p, a, I.DataEvents(ks)) == I.Run(p, b, I.DataEvents(ks[1..]))
      && I.Replies(p, a, ks) == I.Reply(p, a, ks[0]) + I.Replies(p, b, ks[1..])
  {
    assert I.DataEvents(ks)[1..] == I.DataEvents(ks[1..]);
  }

  /** If these packets arrive in this order, the answers to them are on their way. */
  lemma {:induction false} DataArrives(cfg: Config, a: I.State, t: World, ks: seq<nat>)
    returns (es: seq<Event>, u: World)
    requires cfg.Valid() && Stands(cfg, a, t)
    requires I.Legal(Par(cfg), a, I.DataEvents(ks))
    requires DataIn(cfg, ks, t.toV)
    ensures Stands(cfg, I.Run(Par(cfg), a, I.DataEvents(ks)), u)
    ensures Goes(cfg, t, es, u) && t.toS <= u.toS
    ensures AcksIn(cfg, I.Replies(Par(cfg), a, ks), u.toS)
    decreases ks
  {
    es, u := [], t;
    if ks != [] {
      DataInRest(cfg, ks, t.toV, t.toV);
      DataUnfolds(Par(cfg), a, ks);
      var v := OneArrives(cfg, a, t, ks[0]);
      var e := ReceiverReceives(Verified(DataPacket(cfg, ks[0])));
      var b := I.Step(Par(cfg), a, I.Data(ks[0]));
      DataInRest(cfg, ks, t.toV, v.toV);
      es, u := DataArrives(cfg, b, v, ks[1..]);
      AcksInBoth(cfg, I.Reply(Par(cfg), a, ks[0]), v.toS, I.Replies(Par(cfg), b, ks[1..]), u.toS);
      GoesOn(cfg, t, [e], v, es, u);
      es := [e] + es;
    }
  }

  lemma Replied(cfg: Config, a: I.State, t: World, k: nat, u: World)
    requires cfg.Valid() && Stands(cfg, a, t)
    requires I.Enabled(Par(cfg), a, I.Data(k)) && k < cfg.N()
    requires var e := ReceiverReceives(Verified(DataPacket(cfg, k)));
      Enabled(cfg, t, e) && Step(cfg, t, e) == Done(u)
    ensures AcksIn(cfg, I.Reply(Par(cfg), a, k), u.toS)
  {
    if cfg.sr {
      SelectiveSquare(cfg, a, k);
    } else {
      GoBackNSquare(cfg, a, k);
    }
    var ms := I.Reply(Par(cfg), a, k);
    forall m | m in ms ensures AckPacket(cfg, m) in u.toS {
      var i :| 0 <= i < |ms| && ms[i] == m;
      assert AckPackets(cfg, ms)[i] == AckPacket(cfg, m);
    }
  }

  lemma {:induction false} AcksArrive(cfg: Config, a: I.State, t: World, ms: seq<nat>)
    returns (es: seq<Event>, u: World)
    requires cfg.Valid() && Stands(cfg, a, t)
    requires I.Legal(Par(cfg), a, I.AckEvents(ms))
    requires AcksIn(cfg, ms, t.toS)
    ensures Stands(cfg, I.Run(Par(cfg), a, I.AckEvents(ms)), u)
    ensures I.Run(Par(cfg), a, I.AckEvents(ms)).open == a.open
    ensures Goes(cfg, t, es, u)
    decreases ms
  {
    es, u := [], t;
    if ms != [] {
      var m, a' := ms[0], I.Step(Par(cfg), a, I.Ack(ms[0]));
      assert m in ms && I.AckEvents(ms)[1..] == I.AckEvents(ms[1..]);
      var e := SenderReceives(Verified(AckPacket(cfg, m)));
      SenderOfOk(cfg, a);
      var t' := FadedSquare(cfg, a, t, I.Ack(m), e);
      es, u := AcksArrive(cfg, a', t', ms[1..]);
      GoesOn(cfg, t, [e], t', es, u);
      es := [e] + es;
    }
  }

  // ---- Finishing ----

  /** If what is outstanding can still arrive, the sender's base comes up to it. */
  lemma BatchArrives(cfg: Config, a: I.State, t: World) returns (es: seq<Event>, b: I.State, u: World)
    requires cfg.Valid() && Stands(cfg, a, t)
    requires a.open && I.SBase(Par(cfg), a) < a.next
    requires DataIn(cfg, I.Pending(Par(cfg), a, I.SBase(Par(cfg), a)), t.toV)
    ensures Stands(cfg, b, u) && b.open && I.SBase(Par(cfg), b) == b.next == a.next
    ensures Goes(cfg, t, es, u)
  {
    var p := Par(cfg);
    var ks := I.Pending(p, a, I.SBase(p, a));
    var c, ms := I.Run(p, a, I.DataEvents(ks)), I.Replies(p, a, ks);
    var taken := ms[..I.Taken(p, c, ms)];
    I.RoundDrains(p, a);
    var x, v := DataArrives(cfg, a, t, ks);
    assert forall m :: m in taken ==> m in ms;
    var y;
    y, u := AcksArrive(cfg, c, v, taken);
    b := I.Run(p, c, I.AckEvents(taken));
    GoesOn(cfg, t, x, v, y, u);
    es := x + y;
  }

  lemma PendingSent(cfg: Config, a: I.State, t: World)
    requires cfg.Valid() && I.Inv(Par(cfg), a)
    requires forall k :: I.SBase(Par(cfg), a) <= k < a.next ==> DataPacket(cfg, k) in t.toV
    ensures DataIn(cfg, I.Pending(Par(cfg), a, I.SBase(Par(cfg), a)), t.toV)
  {
    I.PendingIs(Par(cfg), a, I.SBase(Par(cfg), a));
  }

  /** A sender with nothing outstanding sends the rest of the file, whatever was
      lost before. */
  lemma {:induction false} RestArrives(cfg: Config, a: I.State, t: World) returns (es: seq<Event>, u: World)
    requires cfg.Valid() && Stands(cfg, a, t)
    requires a.open && I.SBase(Par(cfg), a) == a.next
    ensures Goes(cfg, t, es, u) && Finished(cfg, u.s)
    decreases cfg.N() - a.next
  {
    es, u := [], t;
    if a.next < cfg.N() {
      SenderOfOk(cfg, a);
      var v := FadedSquare(cfg, a, t, I.Fill, SenderFills);
      var b := I.Step(Par(cfg), a, I.Fill);
      FilledIsSent(cfg, a, t, v);
      PendingSent(cfg, b, v);
      var x, c, v' := BatchArrives(cfg, b, v);
      GoesOn(cfg, t, [SenderFills], v, x, v');
      es, u := RestArrives(cfg, c, v');
      GoesOn(cfg, t, [SenderFills] + x, v', es, u);
      es := [SenderFills] + x + es;
    }
  }

  lemma FilledIsSent(cfg: Config, a: I.State, t: World, u: World)
    requires cfg.Valid() && Stands(cfg, a, t)
    requires I.Enabled(Par(cfg), a, I.Fill) && Enabled(cfg, t, SenderFills) && Step(cfg, t, SenderFills) == Done(u)
    ensures var b := I.Step(Par(cfg), a, I.Fill);
      b.next <= cfg.N() && forall k :: a.next <= k < b.next ==> DataPacket(cfg, k) in u.toV
  {
    FreshIs(cfg, a);
    var ps := Fresh(cfg, t.s);
    forall k | a.next <= k < I.Step(Par(cfg), a, I.Fill).next ensures DataPacket(cfg, k) in u.toV {
      assert ps[k - a.next] == DataPacket(cfg, k);
    }
  }

  /** A timeout brings what is outstanding back, unless the batch crosses the end
      of the ring. */
  lemma ResentIsSent(cfg: Config, a: I.State, t: World) returns (u: World)
    requires cfg.Valid() && Stands(cfg, a, t)
    requires MustWait(cfg, t.s) && t.s.wbase < t.s.sqn
    ensures Stands(cfg, a, u) && Goes(cfg, t, [SenderReceives(TimedOut)], u)
    ensures DataIn(cfg, I.Pending(Par(cfg), a, I.SBase(Par(cfg), a)), u.toV)
  {
    SenderOfOk(cfg, a);
    u := FadedSquare(cfg, a, t, I.SenderIdle, SenderReceives(TimedOut));
    ResendIs(cfg, a);
    var ks := I.Pending(Par(cfg), a, I.SBase(Par(cfg), a));
    forall k | k in ks ensures k < cfg.N() && DataPacket(cfg, k) in u.toV {
      var i :| 0 <= i < |ks| && ks[i] == k;
      assert DataPackets(cfg, ks)[i] == DataPacket(cfg, k);
    }
  }

  /** What is outstanding and then the rest. */
  lemma AllArrives(cfg: Config, a: I.State, t: World) returns (es: seq<Event>, u: World)
    requires cfg.Valid() && Stands(cfg, a, t) && a.open
    requires DataIn(cfg, I.Pending(Par(cfg), a, I.SBase(Par(cfg), a)), t.toV)
    ensures Goes(cfg, t, es, u) && Finished(cfg, u.s)
  {
    if I.SBase(Par(cfg), a) < a.next {
      var x, b, v := BatchArrives(cfg, a, t);
      es, u := RestArrives(cfg, b, v);
      GoesOn(cfg, t, x, v, es, u);
      es := x + es;
    } else {
      es, u := RestArrives(cfg, a, t);
    }
  }

  // ---- After a loss ----

  /** What has been sent so far does not matter any more: nothing is outstanding,
      or a timeout brings it back. */
  predicate Recoverable(cfg: Config, w: World) {
    Finished(cfg, w.s) || (w.v.open && (MustWait(cfg, w.s) ==> w.s.wbase < w.s.sqn))
  }

  lemma Recovers(cfg: Config, es: seq<Event>, w: World, t: World) returns (tail: seq<Event>, u: World)
    requires Reaches(cfg, es, w) && Fades(w, t) && Recoverable(cfg, w)
    ensures WorldOk(cfg, t) && Goes(cfg, t, tail, u) && Finished(cfg, u.s)
  {
    var a := Mirror(cfg, es, w);
    ConcOk(cfg, a);
    SenderOfOk(cfg, a);
    if Finished(cfg, w.s) {
      tail, u := [], t;
    } else if MustWait(cfg, w.s) {
      var v := ResentIsSent(cfg, a, t);
      tail, u := AllArrives(cfg, a, v);
      GoesOn(cfg, t, [SenderReceives(TimedOut)], v, tail, u);
      tail := [SenderReceives(TimedOut)] + tail;
    } else {
      tail, u := RestArrives(cfg, a, t);
    }
  }

  /** Nothing reaches the sender any more that could move it. */
  predicate Deaf(cfg: Config, t: World) {
    && SenderOk(cfg, t.s) && !Finished(cfg, t.s) && t.toS == {}
    && (!t.v.open || (t.toV == {} && MustWait(cfg, t.s) && t.s.wbase > t.s.sqn))
  }

  lemma {:induction false} DeafStays(cfg: Config, t: World, es: seq<Event>, u: World)
    requires cfg.Typed() && WorldOk(cfg, t) && Deaf(cfg, t) && Leads(cfg, t, es, u)
    ensures !Finished(cfg, u.s)
    decreases es
  {
    if es != [] {
      var t' := Step(cfg, t, es[0]).value;
      StepKeepsOk(cfg, t, es[0]);
      if t.v.open {
        ResendsNothing(cfg, t.s);
      }
      DeafStays(cfg, t', es[1..], u);
    }
  }

  /** The transfer can be finished from here. */
  ghost predicate Finishable(cfg: Config, t: World) {
    cfg.Typed() && WorldOk(cfg, t) && exists tail, u :: Leads(cfg, t, tail, u) && Finished(cfg, u.s)
  }

  /** Exactly when a transfer survives the loss of everything sent so far: when it
      is finished, or the receiver is still there and no batch is outstanding that
      crosses the end of the ring. */
  lemma FinishableAfterLoss(cfg: Config, es: seq<Event>, w: World)
    requires Reaches(cfg, es, w)
    ensures Finishable(cfg, Forgotten(w)) <==> Recoverable(cfg, w)
  {
    var a := Mirror(cfg, es, w);
    ConcOk(cfg, a);
    var t := Forgotten(w);
    if Recoverable(cfg, w) {
      var tail, u := Recovers(cfg, es, w, t);
    } else {
      SenderOfOk(cfg, a);
      assert Deaf(cfg, t);
      forall tail, u | Leads(cfg, t, tail, u) ensures !Finished(cfg, u.s) {
        DeafStays(cfg, t, tail, u);
      }
    }
  }

  /** And however it is finished, the receiver then holds the rebuilt file. */
  lemma DeliveredAfterLoss(cfg: Config, es: seq<Event>, w: World, t: World, tail: seq<Event>, u: World)
    requires Reaches(cfg, es, w) && Fades(w, t) && WorldOk(cfg, t)
    requires Leads(cfg, t, tail, u) && Finished(cfg, u.s)
    ensures u.v.fsize <= |u.v.buf| && u.v.buf[..u.v.fsize] == Rebuilt(cfg.file)
  {
    var v := FadedRun(cfg, w, t, tail, u);
    ReachesOn(cfg, es, w, tail, v);
    Delivered(cfg, es + tail, v);
  }

  // ---- Without a loss ----

  /** Acknowledgements alone finish a transfer whose packets are all stored. */
  lemma AcksFinish(cfg: Config, a: I.State) returns (es: seq<Event>, u: World)
    requires cfg.Valid() && I.Inv(Par(cfg), a) && I.Answered(Par(cfg), a) && WorldOk(cfg, Conc(cfg, a))
    requires I.RBase(Par(cfg), a) == cfg.N()
    ensures Goes(cfg, Conc(cfg, a), es, u) && Finished(cfg, u.s)
  {
    var p := Par(cfg);
    I.BasesOrdered(p, a);
    var ms := if p.sr then I.Pending(p, a, I.SBase(p, a)) else [cfg.N()];
    if I.SBase(p, a) < cfg.N() {
      I.PendingIs(p, a, I.SBase(p, a));
      if p.sr {
        I.AcksSelective(p, a, ms);
      } else {
        I.AcksGoBackN(p, a, ms);
      }
      var taken := ms[..I.Taken(p, a, ms)];
      assert forall m :: m in taken ==> m in ms;
      es, u := AcksArrive(cfg, a, Conc(cfg, a), taken);
    } else {
      es, u := [], Conc(cfg, a);
    }
  }

  lemma Finishes(cfg: Config, es: seq<Event>, w: World) returns (tail: seq<Event>, u: World)
    requires Reaches(cfg, es, w) && (w.v.open || w.v.shift >= cfg.N())
    ensures WorldOk(cfg, w) && Goes(cfg, w, tail, u) && Finished(cfg, u.s)
  {
    var a := Mirror(cfg, es, w);
    ConcOk(cfg, a);
    if w.v.open {
      PendingSent(cfg, a, w);
      tail, u := AllArrives(cfg, a, w);
    } else {
      tail, u := AcksFinish(cfg, a);
    }
  }

  lemma {:induction false} ClosedStays(cfg: Config, w: World, es: seq<Event>, u: World)
    requires cfg.Typed() && WorldOk(cfg, w) && !w.v.open && Leads(cfg, w, es, u)
    ensures u.v == w.v
    decreases es
  {
    if es != [] {
      StepKeepsOk(cfg, w, es[0]);
      ClosedStays(cfg, Step(cfg, w, es[0]).value, es[1..], u);
    }
  }

  /** Exactly when a transfer can be finished while nothing sent is lost for good:
      when the receiver is still there or has every packet. */
  lemma CanDeliver(cfg: Config, es: seq<Event>, w: World)
    requires Reaches(cfg, es, w)
    ensures Finishable(cfg, w) <==> w.v.open || w.v.shift >= cfg.N()
  {
    var a := Mirror(cfg, es, w);
    ConcOk(cfg, a);
    if w.v.open || w.v.shift >= cfg.N() {
      var tail, u := Finishes(cfg, es, w);
    } else {
      forall tail, u | Leads(cfg, w, tail, u) ensures !Finished(cfg, u.s) {
        ClosedStays(cfg, w, tail, u);
        ReachesOn(cfg, es, w, tail, u);
        EndsAgree(cfg, es + tail, u);
      }
    }
  }
}
