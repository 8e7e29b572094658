/** Sessions over datagrams: what arrives is bytes, as they were sent or damaged in
    a way that the checksum is bound to notice. */
module Datagrams {
  import opened Bytes
  import opened SeqNum
  import opened Segments
  import opened Wire
  import opened Protocol
  import S = Session

  /** A datagram that the channel ps may deliver. */
  ghost predicate Arrives(ps: set<Packet>, d: seq<byte>) {
    exists p :: p in ps && |p.payload| <= PAYLOAD_MAX && (d == Encode(p) || Damaged(Encode(p), d))
  }

  /** An end hears a datagram into a buffer that held something before, or nothing
      in time. */
  datatype Event =
    | SenderHears(held: seq<byte>, d: seq<byte>) | SenderHearsNothing | SenderGoesOn
    | ReceiverHears(held: seq<byte>, d: seq<byte>) | ReceiverHearsNothing
  {
    predicate Sized() {
      (SenderHears? || ReceiverHears? ==> |held| == PACKET_SIZE)
    }

    /** What recv_packet makes of it. */
    function Read(): S.Event
      requires Sized()
    {
      match this
      case SenderHears(held, d) => S.SenderReads(Received(held, d))
      case SenderHearsNothing => S.SenderReads(TimedOut)
      case SenderGoesOn => S.SenderGoesOn
      case ReceiverHears(held, d) => S.ReceiverReads(Received(held, d))
      case ReceiverHearsNothing => S.ReceiverReads(TimedOut)
    }
  }

  ghost predicate CanArrive(cfg: Config, x: S.State, e: Event) {
    && e.Sized() && S.Ready(cfg, x, e.Read())
    && (e.SenderHears? ==> Arrives(x.toS, e.d))
    && (e.ReceiverHears? ==> Arrives(x.toV, e.d))
  }

  /** What passes the checks was sent: it need not be assumed of the channel. */
  lemma HeardWasSent(cfg: Config, x: S.State, e: Event)
    requires CanArrive(cfg, x, e)
    ensures S.CanHappen(cfg, x, e.Read())
  {
    if e.SenderHears? {
      var p :| p in x.toS && |p.payload| <= PAYLOAD_MAX && (e.d == Encode(p) || Damaged(Encode(p), e.d));
      OnlySentIsVerified(e.held, p, e.d);
    } else if e.ReceiverHears? {
      var p :| p in x.toV && |p.payload| <= PAYLOAD_MAX && (e.d == Encode(p) || Damaged(Encode(p), e.d));
      OnlySentIsVerified(e.held, p, e.d);
    }
  }

  /** These datagrams lead from x to x'. */
  ghost predicate Happened(cfg: Config, x: S.State, es: seq<Event>, x': S.State)
    decreases es
  {
    if es == [] then x == x'
    else
      && S.Sound(cfg, x) && CanArrive(cfg, x, es[0])
      && S.Next(cfg, x, es[0].Read()).Done?
      && Happened(cfg, S.Next(cfg, x, es[0].Read()).value, es[1..], x')
  }

  /** They are a run of the session. */
  lemma {:induction false} DatagramsAreASession(cfg: Config, x: S.State, es: seq<Event>, x': S.State)
    returns (ses: seq<S.Event>)
    requires Happened(cfg, x, es, x')
    ensures S.Happened(cfg, x, ses, x') && |ses| == |es|
    decreases es
  {
    ses := [];
    if es != [] {
      HeardWasSent(cfg, x, es[0]);
      ses := DatagramsAreASession(cfg, S.Next(cfg, x, es[0].Read()).value, es[1..], x');
      ses := [es[0].Read()] + ses;
    }
  }

  lemma SentArrives(ps: set<Packet>, p: Packet)
    requires p in ps && |p.payload| <= PAYLOAD_MAX
    ensures Arrives(ps, Encode(p))
  {
  }

  lemma Readable(cfg: Config, isn: seqnum, es: seq<S.Event>, x: S.State, p: Packet, held: seq<byte>)
    requires S.Session(cfg, isn, es, x) && |held| == PACKET_SIZE && (p in x.toV || p in x.toS)
    ensures |p.payload| <= PAYLOAD_MAX && Received(held, Encode(p)) == Verified(p)
  {
    S.PacketsAreReadable(cfg, isn, es, x, p, held, 0, 0);
  }

  lemma ReceiverCanHear(cfg: Config, x: S.State, d: seq<byte>, held: seq<byte>)
    requires |held| == PACKET_SIZE && Arrives(x.toV, d) && S.ReceiverWaits(x.rcv)
    ensures CanArrive(cfg, x, ReceiverHears(held, d))
  {
  }

  lemma SenderCanHear(cfg: Config, x: S.State, d: seq<byte>, held: seq<byte>)
    requires |held| == PACKET_SIZE && Arrives(x.toS, d) && S.SenderWaits(cfg, x.snd)
    ensures CanArrive(cfg, x, SenderHears(held, d))
  {
  }

  /** And everything that was sent can be heard, by the receiver and by the sender. */
  lemma SentCanBeHeard(cfg: Config, isn: seqnum, es: seq<S.Event>, x: S.State, p: Packet, held: seq<byte>)
    requires S.Session(cfg, isn, es, x) && |held| == PACKET_SIZE && p in x.toV && S.ReceiverWaits(x.rcv)
    ensures |p.payload| <= PAYLOAD_MAX && Received(held, Encode(p)) == Verified(p)
    ensures CanArrive(cfg, x, ReceiverHears(held, Encode(p)))
  {
    Readable(cfg, isn, es, x, p, held);
    SentArrives(x.toV, p);
    ReceiverCanHear(cfg, x, Encode(p), held);
  }

  lemma AnswerCanBeHeard(cfg: Config, isn: seqnum, es: seq<S.Event>, x: S.State, p: Packet, held: seq<byte>)
    requires S.Session(cfg, isn, es, x) && |held| == PACKET_SIZE && p in x.toS && S.SenderWaits(cfg, x.snd)
    ensures |p.payload| <= PAYLOAD_MAX && Received(held, Encode(p)) == Verified(p)
    ensures CanArrive(cfg, x, SenderHears(held, Encode(p)))
  {
    Readable(cfg, isn, es, x, p, held);
    SentArrives(x.toS, p);
    SenderCanHear(cfg, x, Encode(p), held);
  }

  /** A sender that has got through break_connection over such datagrams has had
      its file rebuilt and written, and no step on the way faulted. */
  lemma ClosedMeansWritten(cfg: Config, isn: seqnum, es: seq<Event>, x: S.State)
    requires S.ValidStart(cfg, isn) && Happened(cfg, S.Begin(cfg, isn), es, x)
    ensures S.Sound(cfg, x) && forall e :: CanArrive(cfg, x, e) ==> S.Next(cfg, x, e.Read()).Done?
    ensures x.snd.sp == S.Closed ==>
      && S.ReceiverLeft(x.rcv) && x.rcv.v.fsize <= |x.rcv.v.buf|
      && x.rcv.v.buf[..x.rcv.v.fsize] == Rebuilt(cfg.file)
      && (x.rcv.v.buf[..x.rcv.v.fsize] == cfg.file <==> SurvivesSegmentation(cfg.file))
  {
    var ses := DatagramsAreASession(cfg, S.Begin(cfg, isn), es, x);
    S.SessionContainsTransfer(cfg, isn, ses, x);
    forall e | CanArrive(cfg, x, e) ensures S.Next(cfg, x, e.Read()).Done? {
      HeardWasSent(cfg, x, e);
    }
    if x.snd.sp == S.Closed {
      S.ClosedMeansWritten(cfg, isn, ses, x);
    }
  }
}
