/** What a timeout can and cannot repair. */
module Drain {
  import opened SeqNum
  import opened Wire
  import opened Protocol
  import opened Refinement
  import opened Delivery

  // ---- One timeout, answered without loss ----

  function Arrivals(ps: seq<Packet>): (es: seq<Event>)
    ensures |es| == |ps| && forall i :: 0 <= i < |ps| ==> es[i] == ReceiverReceives(Verified(ps[i]))
  {
    seq(|ps|, i requires 0 <= i < |ps| => ReceiverReceives(Verified(ps[i])))
  }

  function Answers(ps: seq<Packet>): (es: seq<Event>)
    ensures |es| == |ps| && forall i :: 0 <= i < |ps| ==> es[i] == SenderReceives(Verified(ps[i]))
  {
    seq(|ps|, i requires 0 <= i < |ps| => SenderReceives(Verified(ps[i])))
  }

  /** Everything the receiver sends while ps arrive one after the other. */
  function ReplyList(cfg: Config, v: Receiver, ps: seq<Packet>): seq<Packet>
    requires ReceiverOk(cfg, v)
    decreases ps
  {
    if ps == [] then []
    else
      match Receive(cfg, v, Verified(ps[0]))
      case Fault => []
      case Done((v', out)) =>
        ReceiverStaysOk(cfg, v, Verified(ps[0]));
        out + ReplyList(cfg, v', ps[1..])
  }

  /** How many of these acknowledgements the sender reads before it stops waiting. */
  function ReadCount(cfg: Config, s: Sender, acks: seq<Packet>): (j: nat)
    requires cfg.Valid() && SenderOk(cfg, s)
    ensures j <= |acks|
    decreases acks
  {
    if acks == [] || !MustWait(cfg, s) then 0
    else
      SenderStaysOk(cfg, s, Verified(acks[0]));
      1 + ReadCount(cfg, SenderAfter(cfg, s, Verified(acks[0])), acks[1..])
  }

  /** A timeout; the packets it sends again arrive in order; and so do the
      receiver's answers, until the sender waits no longer. */
  function Round(cfg: Config, w: World): seq<Event>
    requires cfg.Valid() && WorldOk(cfg, w)
  {
    var sent := Resend(cfg, w.s, 0);
    var acks := ReplyList(cfg, w.v, sent);
    [SenderReceives(TimedOut)] + Arrivals(sent) + Answers(acks[..ReadCount(cfg, w.s, acks)])
  }

  lemma {:induction false} RepliesMatch(cfg: Config, a: I.State, ks: seq<nat>)
    requires cfg.Valid() && I.Inv(Par(cfg), a) && I.Legal(Par(cfg), a, I.DataEvents(ks))
    requires forall k :: k in ks ==> k < cfg.N()
    ensures ReplyList(cfg, ReceiverOf(cfg, a), DataPackets(cfg, ks)) == AckPackets(cfg, I.Replies(Par(cfg), a, ks))
    decreases ks
  {
    if ks != [] {
      var k, ps := ks[0], DataPackets(cfg, ks);
      assert k in ks;
      var a' := I.Step(Par(cfg), a, I.Data(k));
      I.DataKeepsInv(Par(cfg), a, k);
      assert forall x :: x in ks[1..] ==> x in ks;
      assert I.DataEvents(ks)[1..] == I.DataEvents(ks[1..]);
      ReplyMatches(cfg, a, k);
      assert ps[1..] == DataPackets(cfg, ks[1..]);
      RepliesMatch(cfg, a', ks[1..]);
      AckPacketsConcat(cfg, I.Reply(Par(cfg), a, k), I.Replies(Par(cfg), a', ks[1..]));
    }
  }

  lemma ReplyMatches(cfg: Config, a: I.State, k: nat)
    requires cfg.Valid() && I.Inv(Par(cfg), a) && I.Enabled(Par(cfg), a, I.Data(k))
    ensures Receive(cfg, ReceiverOf(cfg, a), Verified(DataPacket(cfg, k)))
         == Done((ReceiverOf(cfg, a.(got := I.Step(Par(cfg), a, I.Data(k)).got)),
                  AckPackets(cfg, I.Reply(Par(cfg), a, k))))
  {
    if cfg.sr {
      SelectiveSquare(cfg, a, k);
    } else {
      GoBackNSquare(cfg, a, k);
    }
  }

  lemma AckPacketsConcat(cfg: Config, a: seq<nat>, b: seq<nat>)
    ensures AckPackets(cfg, a + b) == AckPackets(cfg, a) + AckPackets(cfg, b)
  {
  }

  lemma {:induction false} ReadMatches(cfg: Config, a: I.State, ms: seq<nat>)
    requires cfg.Valid() && I.Inv(Par(cfg), a) && SenderOk(cfg, SenderOf(cfg, a))
    requires forall m :: m in ms ==> m in a.acks
    ensures ReadCount(cfg, SenderOf(cfg, a), AckPackets(cfg, ms)) == I.Taken(Par(cfg), a, ms)
    decreases ms
  {
    SenderOfOk(cfg, a);
    if ms != [] && I.SBase(Par(cfg), a) < a.next {
      var m := ms[0];
      assert m in ms;
      I.AckKeepsInv(Par(cfg), a, m);
      if cfg.sr {
        AckSquareSelective(cfg, a, m);
      } else {
        AckSquareGoBackN(cfg, a, m);
      }
      var a' := I.Step(Par(cfg), a, I.Ack(m));
      SenderOfOk(cfg, a');
      assert forall x :: x in ms[1..] ==> x in ms;
      assert AckPackets(cfg, ms)[1..] == AckPackets(cfg, ms[1..]);
      ReadMatches(cfg, a', ms[1..]);
    }
  }

  lemma {:induction false} LegalConcat(p: I.Params, a: I.State, x: seq<I.Event>, y: seq<I.Event>)
    requires I.Legal(p, a, x) && I.Legal(p, I.Run(p, a, x), y)
    ensures I.Legal(p, a, x + y) && I.Run(p, a, x + y) == I.Run(p, I.Run(p, a, x), y)
    decreases x
  {
    if x == [] {
      assert x + y == y;
    } else {
      LegalConcat(p, I.Step(p, a, x[0]), x[1..], y);
      assert (x + y)[1..] == x[1..] + y;
    }
  }

  lemma MatchArrivals(cfg: Config, ks: seq<nat>)
    requires forall k :: k in ks ==> k < cfg.N()
    ensures AllMatch(cfg, I.DataEvents(ks), Arrivals(DataPackets(cfg, ks)))
  {
    forall i | 0 <= i < |ks| ensures I.DataEvents(ks)[i] == I.Data(ks[i]) {
      DataEventAt(ks, i);
    }
  }

  lemma {:induction false} DataEventAt(ks: seq<nat>, i: nat)
    requires i < |ks|
    ensures I.DataEvents(ks)[i] == I.Data(ks[i])
  {
    if i > 0 {
      DataEventAt(ks[1..], i - 1);
    }
  }

  lemma MatchAnswers(cfg: Config, ms: seq<nat>)
    ensures AllMatch(cfg, I.AckEvents(ms), Answers(AckPackets(cfg, ms)))
  {
    forall i | 0 <= i < |ms| ensures I.AckEvents(ms)[i] == I.Ack(ms[i]) {
      AckEventAt(ms, i);
    }
  }

  lemma {:induction false} AckEventAt(ms: seq<nat>, i: nat)
    requires i < |ms|
    ensures I.AckEvents(ms)[i] == I.Ack(ms[i])
  {
    if i > 0 {
      AckEventAt(ms[1..], i - 1);
    }
  }

  lemma MatchConcat(cfg: Config, x: seq<I.Event>, x': seq<Event>, y: seq<I.Event>, y': seq<Event>)
    requires AllMatch(cfg, x, x') && AllMatch(cfg, y, y')
    ensures AllMatch(cfg, x + y, x' + y')
  {
  }

  /** The ideal round: what is pending arrives, and so do the answers to it. */
  ghost function IdealRound(p: I.Params, a: I.State): seq<I.Event> {
    var ks := I.Pending(p, a, I.SBase(p, a));
    var b, ms := I.Run(p, a, I.DataEvents(ks)), I.Replies(p, a, ks);
    [I.SenderIdle] + I.DataEvents(ks) + I.AckEvents(ms[..I.Taken(p, b, ms)])
  }

  lemma IdealRoundDrains(p: I.Params, a: I.State)
    requires I.Inv(p, a) && a.open && I.SBase(p, a) < a.next
    ensures I.Legal(p, a, IdealRound(p, a))
    ensures var b := I.Run(p, a, IdealRound(p, a));
      I.SBase(p, b) == b.next == a.next && b.open
  {
    var ks := I.Pending(p, a, I.SBase(p, a));
    var b, ms := I.Run(p, a, I.DataEvents(ks)), I.Replies(p, a, ks);
    I.RoundDrains(p, a);
    assert I.Run(p, a, [I.SenderIdle]) == a;
    LegalConcat(p, a, [I.SenderIdle], I.DataEvents(ks));
    LegalConcat(p, a, [I.SenderIdle] + I.DataEvents(ks), I.AckEvents(ms[..I.Taken(p, b, ms)]));
    OpenStays(p, b, ms[..I.Taken(p, b, ms)]);
  }

  /** What a round of the code consists of. */
  lemma RoundIs(cfg: Config, a: I.State, ks: seq<nat>, ms: seq<nat>, j: nat)
    requires cfg.Valid() && I.Inv(Par(cfg), a) && a.open && I.SBase(Par(cfg), a) < a.next
    requires WorldOk(cfg, Conc(cfg, a))
    requires At(cfg.start, I.SBase(Par(cfg), a)) < At(cfg.start, a.next)
    requires ks == I.Pending(Par(cfg), a, I.SBase(Par(cfg), a)) && ms == I.Replies(Par(cfg), a, ks)
    requires j == I.Taken(Par(cfg), I.Run(Par(cfg), a, I.DataEvents(ks)), ms)
    ensures forall k :: k in ks ==> k < cfg.N()
    ensures Round(cfg, Conc(cfg, a))
         == [SenderReceives(TimedOut)] + Arrivals(DataPackets(cfg, ks)) + Answers(AckPackets(cfg, ms[..j]))
  {
    I.PendingIs(Par(cfg), a, I.SBase(Par(cfg), a));
    I.RoundDrains(Par(cfg), a);
    ResendIs(cfg, a);
    RepliesMatch(cfg, a, ks);
    RoundReads(cfg, a, ks, ms);
    assert AckPackets(cfg, ms)[..j] == AckPackets(cfg, ms[..j]);
  }

  /** The sender reads as many answers in the code as it takes in the ideal. */
  lemma RoundReads(cfg: Config, a: I.State, ks: seq<nat>, ms: seq<nat>)
    requires cfg.Valid() && I.Inv(Par(cfg), a) && a.open && I.SBase(Par(cfg), a) < a.next
    requires SenderOk(cfg, SenderOf(cfg, a))
    requires ks == I.Pending(Par(cfg), a, I.SBase(Par(cfg), a)) && ms == I.Replies(Par(cfg), a, ks)
    ensures ReadCount(cfg, SenderOf(cfg, a), AckPackets(cfg, ms))
         == I.Taken(Par(cfg), I.Run(Par(cfg), a, I.DataEvents(ks)), ms)
  {
    var b := I.Run(Par(cfg), a, I.DataEvents(ks));
    I.RoundDrains(Par(cfg), a);
    I.RepliesInFlight(Par(cfg), a, ks);
    assert SenderOf(cfg, b) == SenderOf(cfg, a);
    ReadMatches(cfg, b, ms);
  }

  /** The ideal events that a round stands for. */
  lemma RoundMatches(cfg: Config, a: I.State) returns (ies: seq<I.Event>)
    requires cfg.Valid() && I.Inv(Par(cfg), a) && a.open && I.SBase(Par(cfg), a) < a.next
    requires WorldOk(cfg, Conc(cfg, a))
    requires At(cfg.start, I.SBase(Par(cfg), a)) < At(cfg.start, a.next)
    ensures I.Legal(Par(cfg), a, ies) && AllMatch(cfg, ies, Round(cfg, Conc(cfg, a)))
    ensures var b := I.Run(Par(cfg), a, ies);
      I.SBase(Par(cfg), b) == b.next == a.next && b.open
  {
    var p := Par(cfg);
    ies := IdealRound(p, a);
    IdealRoundDrains(p, a);
    var ks := I.Pending(p, a, I.SBase(p, a));
    var ms := I.Replies(p, a, ks);
    var j := I.Taken(p, I.Run(p, a, I.DataEvents(ks)), ms);
    RoundIs(cfg, a, ks, ms, j);
    MatchArrivals(cfg, ks);
    MatchAnswers(cfg, ms[..j]);
    var x, y := [SenderReceives(TimedOut)], Arrivals(DataPackets(cfg, ks));
    MatchConcat(cfg, [I.SenderIdle], x, I.DataEvents(ks), y);
    MatchConcat(cfg, [I.SenderIdle] + I.DataEvents(ks), x + y, I.AckEvents(ms[..j]), Answers(AckPackets(cfg, ms[..j])));
  }

  lemma {:induction false} OpenStays(p: I.Params, a: I.State, ms: seq<nat>)
    ensures I.Run(p, a, I.AckEvents(ms)).open == a.open
    decreases ms
  {
    if ms != [] {
      assert I.AckEvents(ms)[1..] == I.AckEvents(ms[1..]);
      OpenStays(p, I.Step(p, a, I.Ack(ms[0])), ms[1..]);
    }
  }

  /** From every reachable state in which the sender waits, the receiver is still
      in its loop and the batch does not cross the end of the ring, one round
      brings the sender's base up to everything it has sent, in both modes. */
  lemma RoundDrains(cfg: Config, es: seq<Event>, w: World)
    requires Reaches(cfg, es, w)
    requires MustWait(cfg, w.s) && w.v.open && w.s.wbase < w.s.sqn
    ensures WorldOk(cfg, w) && Legal(cfg, w, Round(cfg, w)) && Run(cfg, w, Round(cfg, w)).Done?
    ensures var w' := Run(cfg, w, Round(cfg, w)).value;
      && w'.s.wbase == w'.s.sqn == w.s.sqn
      && w'.s.shift == w.s.shift + SqnDis(w.s.wbase, w.s.sqn)
      && w'.v.open
  {
    var a := Mirror(cfg, es, w);
    SenderOfOk(cfg, a);
    ConcOk(cfg, a);
    var ies := RoundMatches(cfg, a);
    RunSquare(cfg, a, w, ies, Round(cfg, w));
  }

  /** Exactly when the batch crosses the end of the ring, a timeout sends nothing:
      the loop's bound is compared as a plain number. */
  lemma TimeoutSends(cfg: Config, es: seq<Event>, w: World)
    requires Reaches(cfg, es, w) && MustWait(cfg, w.s)
    ensures SenderOk(cfg, w.s)
    ensures Resend(cfg, w.s, 0) == [] <==> w.s.wbase > w.s.sqn
    ensures w.s.wbase < w.s.sqn ==>
        forall k :: w.s.shift <= k < w.s.shift + SqnDis(w.s.wbase, w.s.sqn) && !(cfg.sr && CountsAcked(w.s, k)) ==>
            k < cfg.N() && DataPacket(cfg, k) in Resend(cfg, w.s, 0)
  {
    var a := Mirror(cfg, es, w);
    SenderOfOk(cfg, a);
    var base := I.SBase(Par(cfg), a);
    if w.s.wbase < w.s.sqn {
      ResendIs(cfg, a);
      I.PendingIs(Par(cfg), a, base);
      var ks := I.Pending(Par(cfg), a, base);
      assert base in ks;
      forall k: nat | base <= k < a.next && !(cfg.sr && CountsAcked(w.s, k))
        ensures DataPacket(cfg, k) in Resend(cfg, w.s, 0)
      {
        CountedAcked(cfg, a, k);
        assert k in ks;
        var i :| 0 <= i < |ks| && ks[i] == k;
        assert DataPackets(cfg, ks)[i] == DataPacket(cfg, k);
      }
    } else {
      ResendsNothing(cfg, w.s);
    }
  }

  // ---- Finishing ----

  /** Numbers that do not reach the end of the ring: the shipped start, 0, is
      such for every file. */
  predicate NoWrap(cfg: Config) {
    cfg.start + cfg.N() < TWO_31
  }

  lemma NoWrapOrders(cfg: Config, i: nat, j: nat)
    requires i < j && cfg.start + j < TWO_31
    ensures At(cfg.start, i) < At(cfg.start, j)
  {
    AddSmall(cfg.start, i);
    AddSmall(cfg.start, j);
  }

  /** A round, after filling if the sender is due to fill. */
  predicate IsTurn(cfg: Config, w: World, tail: seq<Event>)
    requires cfg.Valid() && WorldOk(cfg, w)
  {
    if MustFill(cfg, w.s) then
      StepKeepsOk(cfg, w, SenderFills);
      tail == [SenderFills] + Round(cfg, Step(cfg, w, SenderFills).value)
    else tail == Round(cfg, w)
  }

  /** A turn can happen, and leads to w'. */
  predicate TurnLeads(cfg: Config, w: World, tail: seq<Event>, w': World)
    requires cfg.Valid() && WorldOk(cfg, w)
  {
    IsTurn(cfg, w, tail) && Leads(cfg, w, tail, w')
  }

  ghost predicate FinishesIn(cfg: Config, w: World, turns: nat)
    requires cfg.Valid() && WorldOk(cfg, w)
    decreases turns
  {
    || Finished(cfg, w.s)
    || (turns > 0 && exists tail, w' :: TurnLeads(cfg, w, tail, w') && FinishesIn(cfg, w', turns - 1))
  }

  /** How many batches it takes to send x packets. */
  function Batches(x: nat, wsize: nat): nat
    requires wsize >= 1
  {
    if x == 0 then 0 else 1 + Batches(if x < wsize then 0 else x - wsize, wsize)
  }

  /** Where the batch ends that a turn completes. */
  function TurnEnd(p: I.Params, a: I.State): nat {
    if I.SBase(p, a) < a.next then a.next else I.Min(p.n, a.next + p.wsize)
  }

  lemma TurnMatches(cfg: Config, a: I.State) returns (ies: seq<I.Event>, tail: seq<Event>)
    requires cfg.Valid() && I.Inv(Par(cfg), a) && a.open
    requires WorldOk(cfg, Conc(cfg, a)) && I.SBase(Par(cfg), a) < cfg.N()
    requires cfg.start + TurnEnd(Par(cfg), a) < TWO_31
    ensures IsTurn(cfg, Conc(cfg, a), tail)
    ensures I.Legal(Par(cfg), a, ies) && AllMatch(cfg, ies, tail)
    ensures var b := I.Run(Par(cfg), a, ies);
      I.SBase(Par(cfg), b) == b.next == TurnEnd(Par(cfg), a) && b.open
  {
    SenderOfOk(cfg, a);
    if I.SBase(Par(cfg), a) < a.next {
      NoWrapOrders(cfg, I.SBase(Par(cfg), a), a.next);
      ies := RoundMatches(cfg, a);
      tail := Round(cfg, Conc(cfg, a));
    } else {
      Square(cfg, a, I.Fill, SenderFills);
      var b := I.Step(Par(cfg), a, I.Fill);
      ConcOk(cfg, b);
      NoWrapOrders(cfg, I.SBase(Par(cfg), b), b.next);
      ies := RoundMatches(cfg, b);
      LegalConcat(Par(cfg), a, [I.Fill], ies);
      MatchConcat(cfg, [I.Fill], [SenderFills], ies, Round(cfg, Conc(cfg, b)));
      tail := [SenderFills] + Round(cfg, Conc(cfg, b));
      ies := [I.Fill] + ies;
    }
  }

  lemma TurnTaken(cfg: Config, a: I.State) returns (tail: seq<Event>, b: I.State)
    requires cfg.Valid() && I.Inv(Par(cfg), a) && a.open
    requires WorldOk(cfg, Conc(cfg, a)) && I.SBase(Par(cfg), a) < cfg.N()
    requires cfg.start + TurnEnd(Par(cfg), a) < TWO_31
    ensures I.Inv(Par(cfg), b) && b.open
    ensures I.SBase(Par(cfg), b) == b.next == TurnEnd(Par(cfg), a)
    ensures TurnLeads(cfg, Conc(cfg, a), tail, Conc(cfg, b))
  {
    var ies;
    ies, tail := TurnMatches(cfg, a);
    RunSquare(cfg, a, Conc(cfg, a), ies, tail);
    b := I.Run(Par(cfg), a, ies);
    ConcOk(cfg, b);
  }

  lemma {:induction false} FinishesFrom(cfg: Config, a: I.State, w: World, turns: nat)
    requires cfg.Valid() && NoWrap(cfg) && I.Inv(Par(cfg), a) && a.open
    requires w == Conc(cfg, a) && WorldOk(cfg, w)
    requires turns == (if I.SBase(Par(cfg), a) < a.next then 1 else 0) + Batches(cfg.N() - a.next, cfg.wsize)
    ensures FinishesIn(cfg, w, turns)
    decreases turns
  {
    I.BasesOrdered(Par(cfg), a);
    if I.SBase(Par(cfg), a) < cfg.N() {
      var tail, b := TurnTaken(cfg, a);
      I.BasesOrdered(Par(cfg), b);
      FinishesFrom(cfg, b, Conc(cfg, b), turns - 1);
    }
  }

  /** From every reachable state with the receiver still in its loop, however
      much has been lost so far, the transfer can be completed: one loss-free
      round for what is outstanding and one for each batch not yet sent. */
  lemma CanFinish(cfg: Config, es: seq<Event>, w: World)
    requires Reaches(cfg, es, w) && NoWrap(cfg) && w.v.open
    ensures WorldOk(cfg, w) && w.s.shift + SqnDis(w.s.wbase, w.s.sqn) <= cfg.N()
    ensures FinishesIn(cfg, w,
      (if MustWait(cfg, w.s) then 1 else 0)
      + Batches(cfg.N() - w.s.shift - SqnDis(w.s.wbase, w.s.sqn), cfg.wsize))
  {
    var a := Mirror(cfg, es, w);
    TurnsLeft(cfg, a, w);
    FinishesFrom(cfg, a, w, (if MustWait(cfg, w.s) then 1 else 0)
      + Batches(cfg.N() - w.s.shift - SqnDis(w.s.wbase, w.s.sqn), cfg.wsize));
  }

  lemma TurnsLeft(cfg: Config, a: I.State, w: World)
    requires Mirrors(cfg, a, w)
    ensures WorldOk(cfg, w)
    ensures w.s.shift + SqnDis(w.s.wbase, w.s.sqn) == a.next <= cfg.N()
    ensures MustWait(cfg, w.s) <==> I.SBase(Par(cfg), a) < a.next
  {
    SenderOfOk(cfg, a);
    ConcOk(cfg, a);
  }

  /** A transfer whose first data packet has the last number of the ring: its
      first batch is never sent again. */
  lemma CrossingStalls(cfg: Config)
    requires cfg.Valid() && cfg.N() > 0 && cfg.start == TWO_31 - 1
    ensures exists w ::
      && Reaches(cfg, [SenderFills], w) && MustWait(cfg, w.s)
      && SenderOk(cfg, w.s) && SenderSends(cfg, w.s, TimedOut) == []
  {
    InitOk(cfg);
    var w := Init(cfg);
    StepKeepsOk(cfg, w, SenderFills);
    FillKeepsOk(cfg, w.s);
    AddSmall(cfg.start, FillCount(cfg, w.s));
    var w' := Step(cfg, w, SenderFills).value;
    ResendsNothing(cfg, w'.s);
    assert Reaches(cfg, [SenderFills], w');
  }

  /** However long the file and the window: the batches before the crossing one
      can all be completed. */
  lemma {:induction false} BatchReached(cfg: Config, b: nat) returns (es: seq<Event>, a: I.State)
    requires cfg.Valid() && b * cfg.wsize < cfg.N() && cfg.start + b * cfg.wsize < TWO_31
    ensures I.Inv(Par(cfg), a) && a.open && I.SBase(Par(cfg), a) == a.next == b * cfg.wsize
    ensures Reaches(cfg, es, Conc(cfg, a)) && WorldOk(cfg, Conc(cfg, a))
    decreases b
  {
    if b == 0 {
      InitIsConc(cfg);
      es, a := [], I.INIT;
    } else {
      assert (b - 1) * cfg.wsize + cfg.wsize == b * cfg.wsize;
      es, a := BatchReached(cfg, b - 1);
      var w := Conc(cfg, a);
      var turn;
      turn, a := TurnTaken(cfg, a);
      ReachesOn(cfg, es, w, turn, Conc(cfg, a));
      es := es + turn;
    }
  }

  lemma FillLeads(cfg: Config, a: I.State) returns (b: I.State)
    requires cfg.Valid() && I.Inv(Par(cfg), a) && I.Enabled(Par(cfg), a, I.Fill) && WorldOk(cfg, Conc(cfg, a))
    ensures b == I.Step(Par(cfg), a, I.Fill) && I.Inv(Par(cfg), b)
    ensures Leads(cfg, Conc(cfg, a), [SenderFills], Conc(cfg, b))
  {
    var w := Conc(cfg, a);
    Square(cfg, a, I.Fill, SenderFills);
    b := I.Step(Par(cfg), a, I.Fill);
    ConcOk(cfg, b);
    StepLeads(cfg, w, SenderFills);
  }

  lemma Crosses(cfg: Config, base: nat, next: nat)
    requires base < next < TWO_31 && cfg.start + base < TWO_31 <= cfg.start + next
    ensures At(cfg.start, base) > At(cfg.start, next)
  {
    AddSmall(cfg.start, base);
    Low31Unique(cfg.start + next, cfg.start + next - TWO_31, 1);
  }

  /** Filling the batch that holds the last number of the ring. */
  lemma CrossingFilled(cfg: Config, a: I.State) returns (w: World)
    requires cfg.Valid() && I.Inv(Par(cfg), a) && a.open && WorldOk(cfg, Conc(cfg, a))
    requires I.SBase(Par(cfg), a) == a.next < TWO_31 - cfg.start <= I.Min(cfg.N(), a.next + cfg.wsize)
    ensures Leads(cfg, Conc(cfg, a), [SenderFills], w)
    ensures MustWait(cfg, w.s) && w.v.open && w.s.wbase > w.s.sqn
  {
    var b := FillLeads(cfg, a);
    Crosses(cfg, a.next, b.next);
    w := Conc(cfg, b);
  }

  lemma BatchOf(k: nat, w: nat) returns (b: nat)
    requires w >= 1
    ensures b * w <= k < b * w + w
  {
    b := k / w;
  }

  /** A file whose numbers reach the end of the ring has a batch that crosses it. */
  lemma CrossingReached(cfg: Config) returns (es: seq<Event>, w: World)
    requires cfg.Valid() && !NoWrap(cfg)
    ensures Reaches(cfg, es, w) && MustWait(cfg, w.s) && w.v.open && w.s.wbase > w.s.sqn
  {
    var b := BatchOf(TWO_31 - cfg.start - 1, cfg.wsize);
    var a;
    es, a := BatchReached(cfg, b);
    w := CrossingFilled(cfg, a);
    ReachesOn(cfg, es, Conc(cfg, a), [SenderFills], w);
    es := es + [SenderFills];
  }

  /** A round in which the timeout sends nothing changes nothing. */
  lemma EmptyRound(cfg: Config, w: World)
    requires cfg.Valid() && WorldOk(cfg, w) && MustWait(cfg, w.s) && Resend(cfg, w.s, 0) == []
    ensures Legal(cfg, w, Round(cfg, w)) && Run(cfg, w, Round(cfg, w)) == Done(w)
  {
    var e := SenderReceives(TimedOut);
    assert Round(cfg, w) == [e];
    assert Elements(SenderSends(cfg, w.s, TimedOut)) == {};
    assert Step(cfg, w, e) == Done(w);
    StepLeads(cfg, w, e);
  }

  /** Once a timeout sends nothing, no turn changes anything any more. */
  lemma {:induction false} StalledForever(cfg: Config, w: World, turns: nat)
    requires cfg.Valid() && WorldOk(cfg, w) && MustWait(cfg, w.s) && Resend(cfg, w.s, 0) == []
    ensures !FinishesIn(cfg, w, turns)
    decreases turns
  {
    if turns > 0 {
      EmptyRound(cfg, w);
      StalledForever(cfg, w, turns - 1);
    }
  }

  /** Some number of turns completes the transfer from here. */
  ghost predicate Completable(cfg: Config, w: World) {
    cfg.Valid() && WorldOk(cfg, w) && exists turns: nat :: FinishesIn(cfg, w, turns)
  }

  /** Timeouts can complete a transfer from wherever it has got to, as long as
      the receiver is there, exactly when no number reaches the end of the ring. */
  lemma CompletableIffNoWrap(cfg: Config)
    requires cfg.Valid()
    ensures NoWrap(cfg) <==> forall es, w :: Reaches(cfg, es, w) && w.v.open ==> Completable(cfg, w)
  {
    if NoWrap(cfg) {
      forall es, w | Reaches(cfg, es, w) && w.v.open ensures Completable(cfg, w) {
        CanFinish(cfg, es, w);
      }
    } else {
      var es, w := CrossingReached(cfg);
      TimeoutSends(cfg, es, w);
      if Completable(cfg, w) {
        var turns: nat :| FinishesIn(cfg, w, turns);
        StalledForever(cfg, w, turns);
      }
    }
  }
}
