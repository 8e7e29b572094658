/** Packets as bytes (lab2/src/rtp.h, lab2/src/rtp.c). */
module Wire {
  import opened Bytes
  import opened SeqNum
  import opened Segments
  import opened Crc

  const RTP_SYN: bv8 := 1
  const RTP_ACK: bv8 := 2
  const RTP_FIN: bv8 := 4

  const HEADER_SIZE := 11
  const PACKET_SIZE := HEADER_SIZE + PAYLOAD_MAX

  datatype Packet = Packet(seqnum: uint32, flags: bv8, payload: seq<byte>)

  /** What recv_packet reports: -2, -1 with whatever the buffer holds, or 0. */
  datatype Reception = TimedOut | Garbled(found: Packet) | Verified(packet: Packet)

  // ---- The layout, as read from a packet buffer ----

  function SeqnumIn(b: seq<byte>): (n: uint32)
    requires |b| >= HEADER_SIZE
  {
    Number(b[0..4])
  }

  function LengthIn(b: seq<byte>): (n: nat)
    requires |b| >= HEADER_SIZE
  {
    FromLittle(b[4..6])
  }

  function ChecksumIn(b: seq<byte>): seq<byte>
    requires |b| >= HEADER_SIZE
  {
    b[6..10]
  }

  /** b with s written over it from position at. */
  function Put(b: seq<byte>, at: nat, s: seq<byte>): (r: seq<byte>)
    requires at + |s| <= |b|
    ensures |r| == |b|
  {
    b[..at] + s + b[at + |s|..]
  }

  function WithChecksum(b: seq<byte>, c: seq<byte>): (r: seq<byte>)
    requires |b| >= HEADER_SIZE && |c| == 4
    ensures |r| == |b|
  {
    Put(b, 6, c)
  }

  function PacketIn(b: seq<byte>): Packet
    requires |b| == PACKET_SIZE
  {
    var len := if LengthIn(b) <= PAYLOAD_MAX then LengthIn(b) else PAYLOAD_MAX;
    Packet(SeqnumIn(b), b[10], b[HEADER_SIZE..HEADER_SIZE + len])
  }

  function Number(s: seq<byte>): uint32
    requires |s| == 4
  {
    FromLittleBound(s);
    assert Pow256(4) == 0x1_0000_0000;
    FromLittle(s)
  }

  function SeqnumField(n: uint32): (s: seq<byte>)
    ensures |s| == 4 && Number(s) == n
  {
    assert Pow256(4) == 0x1_0000_0000;
    LittleRoundTrip(n, 4);
    Little(n, 4)
  }

  function LengthField(n: nat): (s: seq<byte>)
    requires n <= PAYLOAD_MAX
    ensures |s| == 2 && FromLittle(s) == n
  {
    assert Pow256(2) == 0x1_0000;
    LittleRoundTrip(n, 2);
    Little(n, 2)
  }

  /** A checksum as the four bytes of its field. */
  function Field(c: bv32): (s: seq<byte>)
    ensures |s| == 4
  {
    [Low(c) as byte, Low(c >> 8) as byte, Low(c >> 16) as byte, Low(c >> 24) as byte]
  }

  const ZEROES: seq<byte> := [0, 0, 0, 0]

  lemma FieldInjective(c: bv32, d: bv32)
    requires Field(c) == Field(d)
    ensures c == d
  {
    assert Field(c)[0] == Field(d)[0] && Field(c)[1] == Field(d)[1];
    assert Field(c)[2] == Field(d)[2] && Field(c)[3] == Field(d)[3];
  }

  // ---- Sending ----

  function Unsigned(p: Packet): (b: seq<byte>)
    requires |p.payload| <= PAYLOAD_MAX
    ensures |b| == HEADER_SIZE + |p.payload|
  {
    SeqnumField(p.seqnum) + LengthField(|p.payload|) + ZEROES + [p.flags] + p.payload
  }

  /** The bytes of a packet: its checksum covers it with a zero checksum field. */
  function Encode(p: Packet): (b: seq<byte>)
    requires |p.payload| <= PAYLOAD_MAX
    ensures |b| == HEADER_SIZE + |p.payload|
  {
    WithChecksum(Unsigned(p), Field(Checksum(Unsigned(p))))
  }

  // ---- Receiving ----

  /** recvfrom: the datagram, cut to the size of the buffer, over old contents. */
  function Landed(held: seq<byte>, datagram: seq<byte>): (b: seq<byte>)
    requires |held| == PACKET_SIZE
    ensures |b| == PACKET_SIZE
  {
    var n := if |datagram| <= PACKET_SIZE then |datagram| else PACKET_SIZE;
    Put(held, 0, datagram[..n])
  }

  /** The tests of recv_packet on a buffer into which size bytes were received. */
  predicate Accepts(b: seq<byte>, size: nat)
    requires |b| == PACKET_SIZE && size <= PACKET_SIZE
  {
    && ChecksumIn(b) == Field(Checksum(WithChecksum(b, ZEROES)[..size]))
    && LengthIn(b) <= PAYLOAD_MAX
    && LengthIn(b) + HEADER_SIZE == size
  }

  function Received(held: seq<byte>, datagram: seq<byte>): Reception
    requires |held| == PACKET_SIZE
  {
    var b := Landed(held, datagram);
    var size := if |datagram| <= PACKET_SIZE then |datagram| else PACKET_SIZE;
    if Accepts(b, size) then Verified(PacketIn(b)) else Garbled(PacketIn(b))
  }

  lemma HeaderFields(p: Packet)
    requires |p.payload| <= PAYLOAD_MAX
    ensures Unsigned(p)[0..4] == SeqnumField(p.seqnum)
    ensures Unsigned(p)[4..6] == LengthField(|p.payload|)
    ensures Unsigned(p)[6..10] == ZEROES
    ensures Unsigned(p)[10] == p.flags
    ensures Unsigned(p)[HEADER_SIZE..] == p.payload
  {
  }

  /** Where the datagram lies in the buffer after it has landed. */
  lemma LandedFits(held: seq<byte>, d: seq<byte>)
    requires |held| == PACKET_SIZE && HEADER_SIZE <= |d| <= PACKET_SIZE
    ensures Landed(held, d)[..|d|] == d
    ensures Landed(held, d)[0..4] == d[0..4] && Landed(held, d)[4..6] == d[4..6]
    ensures ChecksumIn(Landed(held, d)) == d[6..10]
    ensures Landed(held, d)[10] == d[10]
    ensures Landed(held, d)[HEADER_SIZE..|d|] == d[HEADER_SIZE..]
  {
  }

  lemma LandedUnsigned(b: seq<byte>, d: seq<byte>)
    requires |b| == PACKET_SIZE && HEADER_SIZE <= |d| <= PACKET_SIZE && b[..|d|] == d
    ensures WithChecksum(b, ZEROES)[..|d|] == WithChecksum(d, ZEROES)
  {
  }

  /** Writing the checksum changes nothing outside its field. */
  lemma PutBack(u: seq<byte>, c: seq<byte>)
    requires |u| >= HEADER_SIZE && |c| == 4
    ensures var e := WithChecksum(u, c);
      && e[0..4] == u[0..4] && e[4..6] == u[4..6] && e[6..10] == c && e[10] == u[10]
      && e[HEADER_SIZE..] == u[HEADER_SIZE..]
    ensures u[6..10] == ZEROES ==> WithChecksum(WithChecksum(u, c), ZEROES) == u
  {
    assert u == u[..6] + u[6..10] + u[10..];
  }

  lemma Signed(p: Packet)
    requires |p.payload| <= PAYLOAD_MAX
    ensures Encode(p)[0..4] == SeqnumField(p.seqnum)
    ensures Encode(p)[4..6] == LengthField(|p.payload|)
    ensures Encode(p)[6..10] == Field(Checksum(Unsigned(p)))
    ensures Encode(p)[10] == p.flags
    ensures Encode(p)[HEADER_SIZE..] == p.payload
    ensures WithChecksum(Encode(p), ZEROES) == Unsigned(p)
  {
    HeaderFields(p);
    PutBack(Unsigned(p), Field(Checksum(Unsigned(p))));
  }

  /** Whatever the receive buffer held, a datagram that arrives as it was sent
      is accepted and yields the packet that was sent. */
  lemma PacketRoundTrip(held: seq<byte>, p: Packet)
    requires |held| == PACKET_SIZE && |p.payload| <= PAYLOAD_MAX
    ensures Received(held, Encode(p)) == Verified(p)
  {
    Signed(p);
    LandedFits(held, Encode(p));
    LandedUnsigned(Landed(held, Encode(p)), Encode(p));
  }

  // ---- What is accepted ----

  lemma LandedAnyway(held: seq<byte>, d: seq<byte>, i: nat)
    requires |held| == PACKET_SIZE && i < PACKET_SIZE
    ensures Landed(held, d)[i] == if i < |d| then d[i] else held[i]
  {
  }

  lemma CutOff(held: seq<byte>, d: seq<byte>)
    requires |held| == PACKET_SIZE && |d| > PACKET_SIZE
    ensures Received(held, d) == Received(held, d[..PACKET_SIZE])
  {
    assert d[..PACKET_SIZE][..PACKET_SIZE] == d[..PACKET_SIZE];
  }

  lemma FieldsBack(s: seq<byte>, t: seq<byte>)
    requires |s| == 4 && |t| == 2
    ensures SeqnumField(Number(s)) == s
    ensures FromLittle(t) <= PAYLOAD_MAX ==> LengthField(FromLittle(t)) == t
  {
    LittleInverse(s);
    LittleInverse(t);
  }

  lemma CoveredBytes(held: seq<byte>, d: seq<byte>)
    requires |held| == PACKET_SIZE && HEADER_SIZE <= |d| <= PACKET_SIZE && Received(held, d).Verified?
    ensures LengthIn(d) + HEADER_SIZE == |d|
    ensures var p := Received(held, d).packet;
      && p.seqnum == Number(d[0..4]) && p.flags == d[10] && p.payload == d[HEADER_SIZE..]
      && d[4..6] == LengthField(|p.payload|) && d[0..4] == SeqnumField(p.seqnum)
  {
    LandedFits(held, d);
    FieldsBack(d[0..4], d[4..6]);
  }

  lemma UnsignedIs(d: seq<byte>, p: Packet)
    requires |d| >= HEADER_SIZE && |p.payload| <= PAYLOAD_MAX
    requires d[0..4] == SeqnumField(p.seqnum) && d[4..6] == LengthField(|p.payload|)
    requires d[10] == p.flags && d[HEADER_SIZE..] == p.payload
    ensures WithChecksum(d, ZEROES) == Unsigned(p)
    ensures d[6..10] == Field(Checksum(Unsigned(p))) ==> d == Encode(p)
  {
    assert d[..6] == d[0..4] + d[4..6] && d[10..] == [d[10]] + d[HEADER_SIZE..];
    assert d == d[..6] + d[6..10] + d[10..];
    assert Unsigned(p)[..6] == SeqnumField(p.seqnum) + LengthField(|p.payload|);
    assert Unsigned(p)[10..] == [p.flags] + p.payload;
  }

  lemma AcceptedIsEncoded(held: seq<byte>, d: seq<byte>)
    requires |held| == PACKET_SIZE && |d| <= PACKET_SIZE && Received(held, d).Verified?
    ensures var p := Received(held, d).packet;
      |p.payload| <= PAYLOAD_MAX && d == Encode(p)
  {
    CoveredBytes(held, d);
    AcceptedMeans(held, d);
    UnsignedIs(d, Received(held, d).packet);
  }

  /** recv_packet accepts exactly the encodings of packets, whatever its buffer held
      before: nothing shorter than a header, nothing whose length field is not that
      of the datagram, and of a longer datagram what fits into the buffer. */
  lemma AcceptsExactly(held: seq<byte>, d: seq<byte>, p: Packet)
    requires |held| == PACKET_SIZE
    ensures Received(held, d) == Verified(p) <==>
      |p.payload| <= PAYLOAD_MAX && Encode(p) == if |d| <= PACKET_SIZE then d else d[..PACKET_SIZE]
  {
    var e := if |d| <= PACKET_SIZE then d else d[..PACKET_SIZE];
    if |d| > PACKET_SIZE {
      CutOff(held, d);
    }
    if Received(held, e) == Verified(p) {
      AcceptedIsEncoded(held, e);
    }
    if |p.payload| <= PAYLOAD_MAX && Encode(p) == e {
      PacketRoundTrip(held, p);
    }
  }

  /** The flags that a caller sees after a rejected datagram are those at their place
      in the buffer: its own, if it is long enough, or else what lay there before. */
  lemma GarbledShows(held: seq<byte>, d: seq<byte>)
    requires |held| == PACKET_SIZE && Received(held, d).Garbled?
    ensures Received(held, d).found.flags == if |d| > 10 then d[10] else held[10]
    ensures |d| >= 4 ==> Received(held, d).found.seqnum == Number(d[0..4])
    ensures |d| == 0 ==> Received(held, d).found.seqnum == Number(held[0..4])
  {
    LandedAnyway(held, d, 10);
    if |d| >= 4 {
      assert Landed(held, d)[0..4] == d[0..4];
    }
    if |d| == 0 {
      assert Landed(held, d)[0..4] == held[0..4];
    }
  }

  lemma FieldBytes(c: bv32)
    ensures var f := Field(c);
      c == Xor(Wide(f[0]), Xor(Wide(f[1]) << 8, Xor(Wide(f[2]) << 16, Wide(f[3]) << 24)))
  {
  }

  lemma FourDigits(n: uint32)
    ensures var s := SeqnumField(n);
      s[0] as int + 0x100 * s[1] as int + 0x1_0000 * s[2] as int + 0x100_0000 * s[3] as int == n
  {
    var s := SeqnumField(n);
    assert FromLittle(s) == s[0] as int + 0x100 * FromLittle(s[1..]);
    assert FromLittle(s[1..]) == s[1] as int + 0x100 * FromLittle(s[2..]);
    assert FromLittle(s[2..]) == s[2] as int + 0x100 * FromLittle(s[3..]);
    assert FromLittle(s[3..]) == s[3] as int + 0x100 * FromLittle(s[4..]);
  }

  lemma TwoDigits(n: nat)
    requires n <= PAYLOAD_MAX
    ensures var s := LengthField(n);
      s[0] as int + 0x100 * s[1] as int == n
  {
    var s := LengthField(n);
    assert FromLittle(s) == s[0] as int + 0x100 * FromLittle(s[1..]);
    assert FromLittle(s[1..]) == s[1] as int + 0x100 * FromLittle(s[2..]);
  }

  /** Where everything lies in a datagram, numbers least significant byte first, and
      what the checksum covers. */
  lemma Layout(p: Packet)
    requires |p.payload| <= PAYLOAD_MAX
    ensures |Encode(p)| == 11 + |p.payload| <= 1472
    ensures var e := Encode(p);
      && e[0] as int + 0x100 * e[1] as int + 0x1_0000 * e[2] as int + 0x100_0000 * e[3] as int == p.seqnum
      && e[4] as int + 0x100 * e[5] as int == |p.payload|
      && e[10] == p.flags && e[11..] == p.payload
      && Xor(Wide(e[6]), Xor(Wide(e[7]) << 8, Xor(Wide(e[8]) << 16, Wide(e[9]) << 24)))
         == StandardCrc32(e[..6] + [0, 0, 0, 0] + e[10..])
  {
    var e := Encode(p);
    Signed(p);
    SplitField(e);
    ChecksumIsStandard(Unsigned(p));
    FourDigits(p.seqnum);
    TwoDigits(|p.payload|);
    assert e[0..4] == e[..4] && e[6..10] == Field(Checksum(Unsigned(p)));
    FieldBytes(Checksum(Unsigned(p)));
    FieldAt(e);
  }

  lemma FieldAt(e: seq<byte>)
    requires |e| >= HEADER_SIZE
    ensures e[0..4] == [e[0], e[1], e[2], e[3]] && e[4..6] == [e[4], e[5]] && e[6..10] == [e[6], e[7], e[8], e[9]]
    ensures WithChecksum(e, ZEROES) == e[..6] + [0, 0, 0, 0] + e[10..]
  {
  }

  predicate AgreeOutside(a: seq<byte>, b: seq<byte>, lo: nat, hi: nat) {
    |a| == |b| && forall j :: 0 <= j < |a| && !(lo <= j < hi) ==> a[j] == b[j]
  }

  lemma AcceptedMeans(held: seq<byte>, d: seq<byte>)
    requires |held| == PACKET_SIZE && HEADER_SIZE <= |d| <= PACKET_SIZE
    requires Received(held, d).Verified?
    ensures d[6..10] == Field(Checksum(WithChecksum(d, ZEROES)))
  {
    LandedFits(held, d);
    LandedUnsigned(Landed(held, d), d);
  }

  lemma FieldOnly(e: seq<byte>, d: seq<byte>)
    requires |d| == |e| >= HEADER_SIZE && AgreeOutside(e, d, 6, 10)
    ensures WithChecksum(d, ZEROES) == WithChecksum(e, ZEROES)
    ensures d[6..10] == e[6..10] ==> d == e
  {
    assert d[..6] == e[..6] && d[10..] == e[10..];
    assert d == d[..6] + d[6..10] + d[10..] && e == e[..6] + e[6..10] + e[10..];
  }

  /** Damage to the checksum field alone, however large, is detected. */
  lemma FieldDamageDetected(held: seq<byte>, p: Packet, d: seq<byte>)
    requires |held| == PACKET_SIZE && |p.payload| <= PAYLOAD_MAX
    requires d != Encode(p) && AgreeOutside(Encode(p), d, 6, 10)
    ensures Received(held, d).Garbled?
  {
    Signed(p);
    FieldOnly(Encode(p), d);
    if Received(held, d).Verified? {
      AcceptedMeans(held, d);
    }
  }

  /** Their bits agree outside 32 consecutive positions. */
  predicate BitsAgreeOutside(a: seq<byte>, b: seq<byte>, i: nat) {
    && |a| == |b| && i <= 8 * |a|
    && forall j :: 0 <= j < 8 * |a| && !(i <= j < i + 32) ==> Bits(a)[j] == Bits(b)[j]
  }

  lemma BitsAt(a: seq<byte>, j: nat)
    requires j < 8 * |a|
    ensures Bits(a)[j] == ByteBits(a[j / 8])[j % 8]
  {
    BitOfByte(a, j / 8, j % 8);
  }

  lemma SplitField(b: seq<byte>)
    requires |b| >= HEADER_SIZE
    ensures b == b[..6] + b[6..10] + b[10..]
    ensures WithChecksum(b, ZEROES)[..6] == b[..6]
    ensures WithChecksum(b, ZEROES)[6..10] == ZEROES
    ensures WithChecksum(b, ZEROES)[10..] == b[10..]
  {
  }

  /** Damage that leaves the checksum field alone stays where it is when the field
      is cleared. */
  lemma ClearedField(e: seq<byte>, d: seq<byte>, k: nat)
    requires |d| == |e| >= HEADER_SIZE && k < |d|
    ensures 6 <= k < 10 ==> WithChecksum(e, ZEROES)[k] == WithChecksum(d, ZEROES)[k]
    ensures !(6 <= k < 10) ==> WithChecksum(e, ZEROES)[k] == e[k] && WithChecksum(d, ZEROES)[k] == d[k]
  {
  }

  lemma StillDamaged(e: seq<byte>, d: seq<byte>, i: nat)
    requires |d| == |e| >= HEADER_SIZE && d != e && d[6..10] == e[6..10] && BitsAgreeOutside(e, d, i)
    ensures WithChecksum(e, ZEROES) != WithChecksum(d, ZEROES)
    ensures BitsAgreeOutside(WithChecksum(e, ZEROES), WithChecksum(d, ZEROES), i)
  {
    var u, z := WithChecksum(e, ZEROES), WithChecksum(d, ZEROES);
    SplitField(d);
    SplitField(e);
    forall j | 0 <= j < 8 * |u| && !(i <= j < i + 32) ensures Bits(u)[j] == Bits(z)[j] {
      BitsAt(u, j);
      BitsAt(z, j);
      BitsAt(e, j);
      BitsAt(d, j);
      ClearedField(e, d, j / 8);
    }
  }

  /** Damage to at most 32 consecutive bits, wherever they begin, is detected when
      it leaves the checksum field alone. */
  lemma BitBurstDamageDetected(held: seq<byte>, p: Packet, d: seq<byte>, i: nat)
    requires |held| == PACKET_SIZE && |p.payload| <= PAYLOAD_MAX
    requires d != Encode(p) && BitsAgreeOutside(Encode(p), d, i)
    requires d[6..10] == Encode(p)[6..10]
    ensures Received(held, d).Garbled?
  {
    var u, z := Unsigned(p), WithChecksum(d, ZEROES);
    Signed(p);
    StillDamaged(Encode(p), d, i);
    if Received(held, d).Verified? {
      AcceptedMeans(held, d);
      FieldInjective(Checksum(z), Checksum(u));
      BitWindowDetected(u, z, i);
    }
  }

  lemma BytesAgreeOutside(a: seq<byte>, b: seq<byte>, i: nat)
    requires AgreeOutside(a, b, i, i + 4) && i <= |a|
    ensures BitsAgreeOutside(a, b, 8 * i)
  {
    forall j | 0 <= j < 8 * |a| && !(8 * i <= j < 8 * i + 32) ensures Bits(a)[j] == Bits(b)[j] {
      BitsAt(a, j);
      BitsAt(b, j);
    }
  }

  /** So is damage to at most four consecutive bytes. */
  lemma BurstDamageDetected(held: seq<byte>, p: Packet, d: seq<byte>, i: nat)
    requires |held| == PACKET_SIZE && |p.payload| <= PAYLOAD_MAX
    requires d != Encode(p) && AgreeOutside(Encode(p), d, i, i + 4) && i <= |d|
    requires d[6..10] == Encode(p)[6..10]
    ensures Received(held, d).Garbled?
  {
    BytesAgreeOutside(Encode(p), d, i);
    BitBurstDamageDetected(held, p, d, 8 * i);
  }

  /** A change to any one byte of a packet is detected. */
  lemma OneByteDetected(held: seq<byte>, p: Packet, i: nat, x: byte)
    requires |held| == PACKET_SIZE && |p.payload| <= PAYLOAD_MAX
    requires i < |Encode(p)| && x != Encode(p)[i]
    ensures Received(held, Encode(p)[i := x]).Garbled?
  {
    var e := Encode(p);
    var d := e[i := x];
    if 6 <= i < 10 {
      FieldDamageDetected(held, p, d);
    } else {
      assert d[6..10] == e[6..10];
      BurstDamageDetected(held, p, d, i);
    }
  }

  // ---- Damage on the way ----

  /** d is e damaged in the checksum field alone, or in at most 32 consecutive bits
      outside it. */
  ghost predicate Damaged(e: seq<byte>, d: seq<byte>)
    requires |e| >= HEADER_SIZE
  {
    d != e && |d| == |e| &&
    (AgreeOutside(e, d, 6, 10) || (d[6..10] == e[6..10] && exists i: nat :: BitsAgreeOutside(e, d, i)))
  }

  /** Of a sent packet and its damaged forms, recv_packet accepts none but the
      packet itself. */
  lemma OnlySentIsVerified(held: seq<byte>, p: Packet, d: seq<byte>)
    requires |held| == PACKET_SIZE && |p.payload| <= PAYLOAD_MAX
    requires d == Encode(p) || Damaged(Encode(p), d)
    ensures d == Encode(p) ==> Received(held, d) == Verified(p)
    ensures d != Encode(p) ==> Received(held, d).Garbled?
  {
    if d == Encode(p) {
      PacketRoundTrip(held, p);
    } else if AgreeOutside(Encode(p), d, 6, 10) {
      FieldDamageDetected(held, p, d);
    } else {
      var i: nat :| BitsAgreeOutside(Encode(p), d, i);
      BitBurstDamageDetected(held, p, d, i);
    }
  }

  // ---- The methods ----

  /** send_packet, up to the datagram handed to sendto: the fields are filled in
      around a zero checksum, which is then overwritten. */
  method SendPacket(p: Packet, crc: Table) returns (datagram: seq<byte>)
    requires |p.payload| <= PAYLOAD_MAX && crc.Valid()
    modifies crc.table
    ensures crc.Valid()
    ensures datagram == Encode(p)
  {
    var packet := new byte[HEADER_SIZE + |p.payload|](_ => 0);
    FillIn(packet, p);
    var unsigned := packet[..];
    var checksum := crc.ComputeChecksum(unsigned);
    ChecksumIsStandard(unsigned);
    assert packet[..] == unsigned;
    PutAt(packet, 6, Field(checksum));
    datagram := packet[..];
  }

  method FillIn(packet: array<byte>, p: Packet)
    requires |p.payload| <= PAYLOAD_MAX && packet.Length == HEADER_SIZE + |p.payload|
    modifies packet
    ensures packet[..] == Unsigned(p)
  {
    var header := SeqnumField(p.seqnum) + LengthField(|p.payload|) + ZEROES + [p.flags];
    PutAt(packet, 0, header);
    PutAt(packet, HEADER_SIZE, p.payload);
  }

  method PutAt(a: array<byte>, at: nat, s: seq<byte>)
    requires at + |s| <= a.Length
    modifies a
    ensures a[..] == Put(old(a[..]), at, s)
  {
    forall i | 0 <= i < |s| {
      a[at + i] := s[i];
    }
  }

  /** recv_packet. A timeout leaves the buffer as it was; a datagram overwrites
      it and its checksum field is cleared in place, accepted or not. */
  method RecvPacket(buf: array<byte>, timeout: bool, datagram: seq<byte>, crc: Table) returns (code: int)
    requires buf.Length == PACKET_SIZE && crc.Valid()
    modifies buf, crc.table
    ensures crc.Valid()
    ensures timeout ==> code == -2 && buf[..] == old(buf[..])
    ensures !timeout ==> code == (if Received(old(buf[..]), datagram).Verified? then 0 else -1)
    ensures !timeout ==> buf[..] == WithChecksum(Landed(old(buf[..]), datagram), ZEROES)
    ensures !timeout ==> PacketIn(buf[..]) == PacketIn(Landed(old(buf[..]), datagram))
  {
    if timeout {
      return -2;
    }
    ghost var was := buf[..];
    var size := if |datagram| <= PACKET_SIZE then |datagram| else PACKET_SIZE;
    PutAt(buf, 0, datagram[..size]);
    ghost var landed := Landed(was, datagram);
    assert buf[..] == landed;
    var cksm := buf[6..10];
    assert cksm == ChecksumIn(landed);
    PutAt(buf, 6, ZEROES);
    SameHeader(landed, buf[..]);
    var computed := crc.ComputeChecksum(buf[..size]);
    ChecksumIsStandard(buf[..size]);
    if cksm != Field(computed) {
      return -1;
    }
    if LengthIn(buf[..]) > PAYLOAD_MAX || LengthIn(buf[..]) + HEADER_SIZE != size {
      return -1;
    }
    code := 0;
  }

  lemma SameHeader(a: seq<byte>, b: seq<byte>)
    requires |a| == |b| == PACKET_SIZE && b == WithChecksum(a, ZEROES)
    ensures LengthIn(a) == LengthIn(b) && PacketIn(a) == PacketIn(b)
  {
    assert a[0..4] == b[0..4] && a[4..6] == b[4..6] && a[10] == b[10];
    var len := if LengthIn(b) <= PAYLOAD_MAX then LengthIn(b) else PAYLOAD_MAX;
    assert a[HEADER_SIZE..HEADER_SIZE + len] == b[HEADER_SIZE..HEADER_SIZE + len];
  }
}
