/** What the two programs say and do outside their transfer loops, for any receptions
    whatever, said by counting: how often each packet of the handshake and the
    teardown is sent, and on which reception a part of a program ends. */
module Scripts {
  import opened SeqNum
  import opened Wire
  import opened Protocol
  import opened Endpoints
  import opened Session
  import opened Laws

  function Times(k: nat, p: Packet): (ps: seq<Packet>)
    ensures |ps| == k && forall i :: 0 <= i < k ==> ps[i] == p
  {
    seq(k, _ => p)
  }

  lemma OneMore(sent: seq<Packet>, p: Packet, k: nat)
    ensures sent + [p] + Times(k, p) == sent + Times(k + 1, p)
    ensures sent + Times(0, p) == sent
  {
  }

  /** A packet without payload of interest, checked, with this number and flags. */
  predicate Carries(r: Reception, n: uint32, flags: bv8) {
    r.Verified? && r.packet.seqnum == n && r.packet.flags == flags
  }

  /** The first k receptions do not. */
  predicate Without(rs: seq<Reception>, k: nat, n: uint32, flags: bv8) {
    k <= |rs| && forall i :: 0 <= i < k ==> !Carries(rs[i], n, flags)
  }

  lemma WithoutRest(rs: seq<Reception>, k: nat, n: uint32, flags: bv8)
    requires Without(rs, k, n, flags) && k > 0
    ensures !Carries(rs[0], n, flags) && Without(rs[1..], k - 1, n, flags)
  {
    assert forall i :: 0 <= i < k - 1 ==> rs[1..][i] == rs[i + 1];
  }

  /** The number after isn. */
  function After(isn: seqnum): seqnum {
    (isn + 1) % 0x8000_0000
  }

  lemma AfterIs(n: seqnum)
    ensures SeqnumAdd(n, 1) == After(n)
  {
    Low31AfterWrap(n + 1);
  }

  // ---- The sender: establish_connection ----

  lemma ConnectingOk(cfg: Config, n: seqnum)
    ensures SenderOk(cfg, SenderAt(cfg, n))
  {
    AddDisInverse(n, n, 0);
  }

  /** As long as the second handshake does not come, each reception, whatever it is,
      makes the sender repeat its SYN. */
  lemma {:induction false} SenderRepeatsSyn(cfg: Config, isn: seqnum, sent: seq<Packet>, rs: seq<Reception>, k: nat)
    requires cfg.Typed() && Without(rs, k, After(isn), 3)
    ensures SenderOk(cfg, SenderBegins(cfg, isn).s)
    ensures SenderLife(cfg, SenderBegins(cfg, isn), sent, rs)
         == SenderLife(cfg, SenderBegins(cfg, isn), sent + Times(k, Packet(isn, 1, [])), rs[k..])
    decreases k
  {
    ConnectingOk(cfg, isn);
    OneMore(sent, Packet(isn, 1, []), if k == 0 then 0 else k - 1);
    if k == 0 {
      assert rs[0..] == rs;
    } else {
      AfterIs(isn);
      WithoutRest(rs, k, After(isn), 3);
      SenderRepeatsSyn(cfg, isn, sent + [Packet(isn, 1, [])], rs[1..], k - 1);
      assert rs[1..][k - 1..] == rs[k..];
    }
  }

  /** It answers the second handshake with the third, and goes on counting from it. */
  lemma SenderAnswersOnce(cfg: Config, isn: seqnum, sent: seq<Packet>, rs: seq<Reception>)
    requires cfg.Typed() && rs != [] && Carries(rs[0], After(isn), 3)
    ensures var n := After(isn);
      && SenderOk(cfg, SenderBegins(cfg, isn).s) && SenderOk(cfg, SenderAt(cfg, n))
      && SenderLife(cfg, SenderBegins(cfg, isn), sent, rs)
         == SenderLife(cfg, SenderEnd(Confirming, SenderAt(cfg, n)), sent + [Packet(n, 2, [])], rs[1..])
  {
    AfterIs(isn);
    ConnectingOk(cfg, isn);
    ConnectingOk(cfg, After(isn));
  }

  /** It reads once more, repeats the third handshake if that is a repeated second,
      and begins its transfer in any case. */
  lemma SenderConfirmsOnce(cfg: Config, n: seqnum, sent: seq<Packet>, rs: seq<Reception>)
    requires cfg.Typed() && rs != []
    ensures SenderOk(cfg, SenderAt(cfg, n))
    ensures SenderLife(cfg, SenderEnd(Confirming, SenderAt(cfg, n)), sent, rs)
         == SenderLife(cfg, SenderEnd(Sending, SenderAt(cfg, n)),
                       sent + Times(if Carries(rs[0], n, 3) then 1 else 0, Packet(n, 2, [])), rs[1..])
  {
    ConnectingOk(cfg, n);
    assert Times(1, Packet(n, 2, [])) == [Packet(n, 2, [])] && Times(0, Packet(n, 2, [])) == [];
  }

  // ---- The sender: break_connection ----

  /** Having finished its transfer the sender says FIN by itself, under the number
      behind its last packet. */
  lemma SenderSaysFin(cfg: Config, s: Sender, sent: seq<Packet>, rs: seq<Reception>)
    requires cfg.Typed() && SenderOk(cfg, s) && s.shift >= cfg.N()
    ensures SenderLife(cfg, SenderEnd(Sending, s), sent, rs)
         == SenderLife(cfg, SenderEnd(Closing, s), sent + [Packet(s.sqn, 4, [])], rs)
  {
  }

  /** It repeats it on every reception but the answer. */
  lemma {:induction false} SenderRepeatsFin(cfg: Config, s: Sender, sent: seq<Packet>, rs: seq<Reception>, k: nat)
    requires cfg.Typed() && SenderOk(cfg, s) && Without(rs, k, s.sqn, 6)
    ensures SenderLife(cfg, SenderEnd(Closing, s), sent, rs)
         == SenderLife(cfg, SenderEnd(Closing, s), sent + Times(k, Packet(s.sqn, 4, [])), rs[k..])
    decreases k
  {
    OneMore(sent, Packet(s.sqn, 4, []), if k == 0 then 0 else k - 1);
    if k == 0 {
      assert rs[0..] == rs;
    } else {
      WithoutRest(rs, k, s.sqn, 6);
      SenderRepeatsFin(cfg, s, sent + [Packet(s.sqn, 4, [])], rs[1..], k - 1);
      assert rs[1..][k - 1..] == rs[k..];
    }
  }

  /** The answer ends the program. */
  lemma SenderCloses(cfg: Config, s: Sender, sent: seq<Packet>, rs: seq<Reception>)
    requires cfg.Typed() && SenderOk(cfg, s) && rs != [] && Carries(rs[0], s.sqn, 6)
    ensures SenderLife(cfg, SenderEnd(Closing, s), sent, rs) == (SenderEnd(Closed, s), sent)
  {
    assert sent + [] == sent;
  }

  // ---- The receiver: establish_connection ----

  predicate IsSyn(r: Reception) {
    r.Verified? && r.packet.flags == 1
  }

  /** Nothing among the first k receptions ends the wait for a SYN. */
  predicate Silence(rs: seq<Reception>, k: nat) {
    k <= |rs| && forall i :: 0 <= i < k ==> !rs[i].TimedOut? && !IsSyn(rs[i])
  }

  lemma SilenceRest(rs: seq<Reception>, k: nat)
    requires Silence(rs, k) && k > 0
    ensures !rs[0].TimedOut? && !IsSyn(rs[0]) && Silence(rs[1..], k - 1)
  {
    assert forall i :: 0 <= i < k - 1 ==> rs[1..][i] == rs[i + 1];
  }

  lemma {:induction false} ReceiverListens(cfg: Config, sent: seq<Packet>, rs: seq<Reception>, k: nat)
    requires cfg.Typed() && Silence(rs, k)
    ensures ReceiverLife(cfg, ReceiverBegins(cfg), sent, rs) == ReceiverLife(cfg, ReceiverBegins(cfg), sent, rs[k..])
    decreases k
  {
    if k == 0 {
      assert rs[0..] == rs;
    } else {
      SilenceRest(rs, k);
      assert sent + [] == sent;
      ReceiverListens(cfg, sent, rs[1..], k - 1);
      assert rs[1..][k - 1..] == rs[k..];
    }
  }

  /** A timeout while it listens is the end of the program: it never says anything. */
  lemma ReceiverGivesUp(cfg: Config, sent: seq<Packet>, rs: seq<Reception>)
    requires cfg.Typed() && rs != [] && rs[0].TimedOut?
    ensures ReceiverLife(cfg, ReceiverBegins(cfg), sent, rs) == Done((ReceiverBegins(cfg).(vp := Dead), sent))
  {
    assert sent + [] == sent;
  }

  /** Any SYN is answered, and fixes the number to count from. */
  lemma ReceiverAnswersSyn(cfg: Config, sent: seq<Packet>, rs: seq<Reception>)
    requires cfg.Typed() && rs != [] && IsSyn(rs[0]) && rs[0].packet.seqnum < 0x8000_0000
    ensures var n := After(rs[0].packet.seqnum);
      ReceiverLife(cfg, ReceiverBegins(cfg), sent, rs)
      == ReceiverLife(cfg, ReceiverEnd(Answering, ReceiverInit(cfg.(start := n))), sent + [Packet(n, 3, [])], rs[1..])
  {
    AfterIs(rs[0].packet.seqnum);
  }

  /** Until the third handshake comes, every reception makes it repeat its answer. */
  lemma {:induction false} ReceiverRepeatsAnswer(cfg: Config, v: Receiver, sent: seq<Packet>, rs: seq<Reception>,
                                                 k: nat)
    requires ReceiverOk(cfg, v) && Without(rs, k, v.sqn, 2)
    ensures ReceiverLife(cfg, ReceiverEnd(Answering, v), sent, rs)
         == ReceiverLife(cfg, ReceiverEnd(Answering, v), sent + Times(k, Packet(v.sqn, 3, [])), rs[k..])
    decreases k
  {
    OneMore(sent, Packet(v.sqn, 3, []), if k == 0 then 0 else k - 1);
    if k == 0 {
      assert rs[0..] == rs;
    } else {
      WithoutRest(rs, k, v.sqn, 2);
      ReceiverRepeatsAnswer(cfg, v, sent + [Packet(v.sqn, 3, [])], rs[1..], k - 1);
      assert rs[1..][k - 1..] == rs[k..];
    }
  }

  lemma ReceiverConnects(cfg: Config, v: Receiver, sent: seq<Packet>, rs: seq<Reception>)
    requires ReceiverOk(cfg, v) && rs != [] && Carries(rs[0], v.sqn, 2)
    ensures ReceiverLife(cfg, ReceiverEnd(Answering, v), sent, rs)
         == ReceiverLife(cfg, ReceiverEnd(Receiving, v), sent, rs[1..])
  {
    assert sent + [] == sent;
  }

  // ---- The receiver: leaving transfer_data ----

  /** It leaves its loop on what ReceiverStops says, and on nothing else. */
  lemma ReceiverLeaves(cfg: Config, v: Receiver, sent: seq<Packet>, rs: seq<Reception>)
    requires ReceiverOk(cfg, v) && v.open && rs != []
    ensures ShowsFin(rs[0]) ==>
      ReceiverLife(cfg, ReceiverEnd(Receiving, v), sent, rs)
      == ReceiverLife(cfg, ReceiverEnd(AwaitingFin, v.(open := false)), sent, rs[1..])
    ensures !ShowsFin(rs[0]) && Receive(cfg, v, rs[0]).Done? ==>
      var (v', out) := Receive(cfg, v, rs[0]).value;
      && ReceiverOk(cfg, v') && v'.open
      && ReceiverLife(cfg, ReceiverEnd(Receiving, v), sent, rs)
         == ReceiverLife(cfg, ReceiverEnd(Receiving, v'), sent + out, rs[1..])
  {
    ReceiverStops(cfg, v, rs[0]);
    assert sent + [] == sent;
  }

  // ---- The receiver: break_connection ----

  predicate IsFin(r: Reception) {
    r.Verified? && r.packet.flags == 4
  }

  predicate NoFin(rs: seq<Reception>, k: nat) {
    k <= |rs| && forall i :: 0 <= i < k ==> !IsFin(rs[i])
  }

  /** Waiting for a FIN it neither says anything nor ends, not even on a timeout. */
  lemma {:induction false} ReceiverAwaitsFin(cfg: Config, v: Receiver, sent: seq<Packet>, rs: seq<Reception>, k: nat)
    requires ReceiverOk(cfg, v) && NoFin(rs, k)
    ensures ReceiverLife(cfg, ReceiverEnd(AwaitingFin, v), sent, rs)
         == ReceiverLife(cfg, ReceiverEnd(AwaitingFin, v), sent, rs[k..])
    decreases k
  {
    if k == 0 {
      assert rs[0..] == rs;
    } else {
      assert sent + [] == sent;
      assert forall i :: 0 <= i < k - 1 ==> rs[1..][i] == rs[i + 1];
      ReceiverAwaitsFin(cfg, v, sent, rs[1..], k - 1);
      assert rs[1..][k - 1..] == rs[k..];
    }
  }

  /** Any FIN is answered under its own number. */
  lemma ReceiverAnswersFin(cfg: Config, v: Receiver, sent: seq<Packet>, rs: seq<Reception>)
    requires ReceiverOk(cfg, v) && rs != [] && IsFin(rs[0])
    ensures var n := rs[0].packet.seqnum;
      ReceiverLife(cfg, ReceiverEnd(AwaitingFin, v), sent, rs)
      == ReceiverLife(cfg, ReceiverEnd(Lingering, v.(sqn := n)), sent + [Packet(n, 6, [])], rs[1..])
  {
  }

  /** It reads once more, answers another FIN, and ends in any case. */
  lemma ReceiverEnds(cfg: Config, v: Receiver, sent: seq<Packet>, rs: seq<Reception>)
    requires ReceiverOk(cfg, v) && rs != []
    ensures var out := ReceiverLife(cfg, ReceiverEnd(Lingering, v), sent, rs);
      && out.Done? && out.value.0.vp == Ended
      && out.value.0.v == v.(sqn := out.value.0.v.sqn)
      && (rs[0].TimedOut? ==> out.value.0.v.sqn == v.sqn)
      && (rs[0].Verified? ==> out.value.0.v.sqn == rs[0].packet.seqnum)
      && (rs[0].Garbled? ==> out.value.0.v.sqn == rs[0].found.seqnum)
      && out.value.1 == sent + (if IsFin(rs[0]) then [Packet(rs[0].packet.seqnum, 6, [])] else [])
  {
  }

  // ---- In a session ----

  /** Once it has answered a SYN the receiver does not give up any more. */
  lemma {:induction false} NeverDead(cfg: Config, b: ReceiverEnd, sent: seq<Packet>, rs: seq<Reception>)
    requires ReceiverOk(cfg, b.v) && b.vp != Listening && b.vp != Dead
    requires ReceiverLife(cfg, b, sent, rs).Done?
    ensures ReceiverLife(cfg, b, sent, rs).value.0.vp != Dead
    decreases rs
  {
    if rs != [] && ReceiverWaits(b) {
      var (b', out) := ReceiverTurn(cfg, b, rs[0]).value;
      NeverDead(cfg, b', sent + out, rs[1..]);
    }
  }

  /** The first timeout comes before any SYN. */
  predicate Deserted(rs: seq<Reception>) {
    exists i :: 0 <= i < |rs| && rs[i].TimedOut? && forall j :: 0 <= j < i ==> !IsSyn(rs[j])
  }

  lemma {:induction false} FirstSound(rs: seq<Reception>) returns (k: nat)
    ensures Silence(rs, k) && (k < |rs| ==> rs[k].TimedOut? || IsSyn(rs[k]))
    ensures Deserted(rs) <==> k < |rs| && rs[k].TimedOut?
  {
    k := 0;
    while k < |rs| && !rs[k].TimedOut? && !IsSyn(rs[k])
      invariant Silence(rs, k)
    {
      k := k + 1;
    }
  }

  /** The receiver has given up exactly when a timeout was what it first read, SYNs
      and packets of no concern to it aside; and then it has never sent anything. */
  lemma GivenUpIff(cfg: Config, isn: seqnum, es: seq<Session.Event>, x: State)
    requires Session.Session(cfg, isn, es, x)
    ensures x.rcv.vp == Dead <==> Deserted(ReceiverInbox(es))
    ensures x.rcv.vp == Listening <==> Silence(ReceiverInbox(es), |ReceiverInbox(es)|)
    ensures x.rcv.vp == Dead || x.rcv.vp == Listening ==> x.toS == {}
  {
    var rs, b := ReceiverInbox(es), ReceiverBegins(cfg);
    BeginInv(cfg, isn);
    var more := ReceiverProjects(cfg, Begin(cfg, isn), [], es, x);
    var k := FirstSound(rs);
    ReceiverListens(cfg, [], rs, k);
    if k == |rs| {
      assert rs[k..] == [];
    } else if rs[k].TimedOut? {
      ReceiverGivesUp(cfg, [], rs[k..]);
    } else {
      SynHeard(cfg, rs[k..], x.rcv, more);
    }
  }

  lemma SynHeard(cfg: Config, rs: seq<Reception>, b: ReceiverEnd, more: seq<Packet>)
    requires cfg.Typed() && rs != [] && IsSyn(rs[0])
    requires ReceiverLife(cfg, ReceiverBegins(cfg), [], rs) == Done((b, [] + more))
    ensures b.vp != Dead && b.vp != Listening
  {
    var (b', out) := ReceiverTurn(cfg, ReceiverBegins(cfg), rs[0]).value;
    NeverDead(cfg, b', [] + out, rs[1..]);
    NeverListens(cfg, b', [] + out, rs[1..]);
  }

  lemma {:induction false} NeverListens(cfg: Config, b: ReceiverEnd, sent: seq<Packet>, rs: seq<Reception>)
    requires ReceiverOk(cfg, b.v) && b.vp != Listening && ReceiverLife(cfg, b, sent, rs).Done?
    ensures ReceiverLife(cfg, b, sent, rs).value.0.vp != Listening
    decreases rs
  {
    if rs != [] && ReceiverWaits(b) {
      var (b', out) := ReceiverTurn(cfg, b, rs[0]).value;
      NeverListens(cfg, b', sent + out, rs[1..]);
    }
  }

  /** The sender is still connecting exactly when it has not read the second
      handshake; it has then sent nothing but its SYN, once more than it has read. */
  lemma ConnectingIff(cfg: Config, isn: seqnum, es: seq<Session.Event>, x: State)
    requires Session.Session(cfg, isn, es, x)
    ensures x.snd.sp == Connecting <==> Without(SenderInbox(es), |SenderInbox(es)|, After(isn), 3)
    ensures x.snd.sp == Connecting ==> x.toV == {Packet(isn, 1, [])}
  {
    var rs, syn := SenderInbox(es), [Packet(isn, 1, [])];
    BeginInv(cfg, isn);
    var more := SenderProjects(cfg, Begin(cfg, isn), syn, es, x);
    var k := FirstAnswer(rs, After(isn));
    SenderRepeatsSyn(cfg, isn, syn, rs, k);
    if k == |rs| {
      assert rs[k..] == [];
      StillConnecting(cfg, isn, syn + Times(k, Packet(isn, 1, [])), x.snd, syn + more);
      OnlySyns(isn, syn, k, more);
    } else {
      SenderAnswersOnce(cfg, isn, syn + Times(k, Packet(isn, 1, [])), rs[k..]);
      Connected(cfg, SenderEnd(Confirming, SenderAt(cfg, After(isn))),
        syn + Times(k, Packet(isn, 1, [])) + [Packet(After(isn), 2, [])], rs[k..][1..]);
      StaysConnecting(cfg, x.snd, syn + more);
    }
  }

  lemma {:induction false} FirstAnswer(rs: seq<Reception>, n: uint32) returns (k: nat)
    ensures Without(rs, k, n, 3) && (k < |rs| ==> Carries(rs[k], n, 3))
    ensures Without(rs, |rs|, n, 3) <==> k == |rs|
  {
    k := 0;
    while k < |rs| && !Carries(rs[k], n, 3)
      invariant Without(rs, k, n, 3)
    {
      k := k + 1;
    }
  }

  lemma StillConnecting(cfg: Config, isn: seqnum, sent: seq<Packet>, a: SenderEnd, said: seq<Packet>)
    requires cfg.Typed() && SenderOk(cfg, a.s) && SenderOk(cfg, SenderBegins(cfg, isn).s)
    requires SenderLife(cfg, SenderBegins(cfg, isn), sent, []) == SenderLife(cfg, a, said, [])
    ensures a.sp == Connecting && said == sent
  {
    if a.sp == Sending && !SenderWaits(cfg, a) {
      MovesKeepOk(cfg, a);
    }
  }

  lemma StaysConnecting(cfg: Config, a: SenderEnd, said: seq<Packet>)
    requires cfg.Typed() && SenderOk(cfg, a.s)
    ensures a.sp == Connecting ==> SenderLife(cfg, a, said, []).0.sp == Connecting
  {
  }

  lemma OnlySyns(isn: seqnum, syn: seq<Packet>, k: nat, more: seq<Packet>)
    requires syn == [Packet(isn, 1, [])] && syn + more == syn + Times(k, Packet(isn, 1, []))
    ensures {Packet(isn, 1, [])} + Elements(more) == {Packet(isn, 1, [])}
  {
    assert more == (syn + more)[1..] && Times(k, Packet(isn, 1, [])) == (syn + Times(k, Packet(isn, 1, [])))[1..];
  }

  lemma {:induction false} Connected(cfg: Config, a: SenderEnd, sent: seq<Packet>, rs: seq<Reception>)
    requires cfg.Typed() && SenderOk(cfg, a.s) && a.sp != Connecting
    ensures SenderLife(cfg, a, sent, rs).0.sp != Connecting
    decreases rs, if SenderWaits(cfg, a) then 0 else 1
  {
    if SenderWaits(cfg, a) {
      if rs != [] {
        TurnKeepsOk(cfg, a, rs[0]);
        Connected(cfg, SenderTurn(cfg, a, rs[0]).0, sent + SenderTurn(cfg, a, rs[0]).1, rs[1..]);
      }
    } else if a.sp == Sending {
      MovesKeepOk(cfg, a);
      Connected(cfg, SenderMoves(cfg, a).0, sent + SenderMoves(cfg, a).1, rs);
    }
  }
}
