/** Length-prefixed posts over a byte stream that moves as many bytes per call as
    it likes (lab1/ftp_utils.hpp). */
module Framing {
  import opened Bytes

  const MAGIC: seq<byte> := [0xC1, 0xA1, 0x10, 0x66, 0x74, 0x70]
  const HEADER_SIZE := 12
  const MAX_SIZE := 0x7FFF_FFFF

  /** A type, a status and a body; sizes of bodies are ints. */
  datatype Post = Post(kind: byte, status: byte, body: seq<byte>) {
    predicate Fits() {
      |body| <= MAX_SIZE
    }
  }

  function Header(p: Post): (h: seq<byte>)
    ensures |h| == HEADER_SIZE
  {
    MAGIC + [p.kind, p.status] + Big(HEADER_SIZE + |p.body|, 4)
  }

  function Frame(p: Post): seq<byte> {
    Header(p) + p.body
  }

  function Frames(ps: seq<Post>): seq<byte> {
    if ps == [] then [] else Frame(ps[0]) + Frames(ps[1..])
  }

  /** The body length that a header announces. */
  function Announced(h: seq<byte>): int
    requires |h| == HEADER_SIZE
  {
    FromBig(h[8..12]) - HEADER_SIZE
  }

  lemma FourBytes()
    ensures Pow256(4) == 0x1_0000_0000
  {
  }

  lemma HeaderParts(p: Post)
    ensures Header(p)[6] == p.kind && Header(p)[7] == p.status
    ensures Header(p)[8..12] == Big(HEADER_SIZE + |p.body|, 4)
  {
  }

  /** The twelve bytes of a header: a fixed mark, type, status, and the length of the
      whole frame, most significant byte first. */
  lemma HeaderLayout(p: Post)
    requires p.Fits()
    ensures var h := Header(p);
      && h[0..6] == [0xC1, 0xA1, 0x10] + [102, 116, 112]
      && h[6] == p.kind && h[7] == p.status
      && 0x100_0000 * h[8] as int + 0x1_0000 * h[9] as int + 0x100 * h[10] as int + h[11] as int == 12 + |p.body|
    ensures |Frame(p)| == 12 + |p.body| && Frame(p)[12..] == p.body
  {
    HeaderRoundTrip(p);
    FourDigits(Header(p)[8..12]);
    assert Header(p)[0..6] == MAGIC;
  }

  lemma FourDigits(s: seq<byte>)
    requires |s| == 4
    ensures FromBig(s) == 0x100_0000 * s[0] as int + 0x1_0000 * s[1] as int + 0x100 * s[2] as int + s[3] as int
  {
    var r := Reverse(s);
    assert FromLittle(r) == r[0] as int + 0x100 * FromLittle(r[1..]);
    assert FromLittle(r[1..]) == r[1] as int + 0x100 * FromLittle(r[2..]);
    assert FromLittle(r[2..]) == r[2] as int + 0x100 * FromLittle(r[3..]);
    assert FromLittle(r[3..]) == r[3] as int + 0x100 * FromLittle(r[4..]);
  }

  lemma HeaderRoundTrip(p: Post)
    requires p.Fits()
    ensures Header(p)[6] == p.kind && Header(p)[7] == p.status
    ensures Announced(Header(p)) == |p.body|
  {
    FourBytes();
    BigRoundTrip(HEADER_SIZE + |p.body|, 4);
    HeaderParts(p);
  }

  lemma AnnouncedBounds(h: seq<byte>)
    requires |h| == HEADER_SIZE
    ensures -HEADER_SIZE <= Announced(h) < 0x1_0000_0000 - HEADER_SIZE
  {
    FourBytes();
    FromLittleBound(Reverse(h[8..12]));
  }

  /** The number of bytes that recv_post then asks srecv for: the length as an int,
      which srecv compares and subtracts as a 64-bit unsigned number. */
  function Wanted(h: seq<byte>): (n: nat)
    requires |h| == HEADER_SIZE
  {
    AnnouncedBounds(h);
    var length := if Announced(h) <= MAX_SIZE then Announced(h) else Announced(h) - 0x1_0000_0000;
    if length < 0 then length + 0x1_0000_0000_0000_0000 else length
  }

  /** It is the announced length exactly when that is one: otherwise it is more
      than any stream holds. */
  lemma WantedIsAnnounced(h: seq<byte>)
    requires |h| == HEADER_SIZE
    ensures Wanted(h) == Announced(h) <==> 0 <= Announced(h) <= MAX_SIZE
    ensures Wanted(h) != Announced(h) ==> Wanted(h) >= 0xFFFF_FFFF_8000_0000
  {
    AnnouncedBounds(h);
  }

  /** A header that claims to be empty asks for almost 2^64 bytes. */
  lemma EmptyHeaderWants()
    ensures Wanted(MAGIC + [0, 0] + [0, 0, 0, 0]) == 0x1_0000_0000_0000_0000 - HEADER_SIZE
  {
    var h := MAGIC + [0, 0] + [0, 0, 0, 0];
    assert Reverse(h[8..12]) == [0, 0, 0, 0];
    ZeroLittle();
  }

  lemma ZeroLittle()
    ensures FromLittle([0, 0, 0, 0]) == 0
  {
    assert [0 as byte, 0, 0, 0][1..] == [0, 0, 0] && [0 as byte, 0, 0][1..] == [0, 0] && [0 as byte, 0][1..] == [0];
    assert FromLittle([0]) == 0 && FromLittle([0, 0]) == 0 && FromLittle([0, 0, 0]) == 0;
  }

  lemma SameSplit<T>(a: seq<T>, b: seq<T>, c: seq<T>, d: seq<T>)
    requires a + b == c + d && |a| == |c|
    ensures a == c && b == d
  {
    assert a == (a + b)[..|a|] && b == (a + b)[|a|..];
    assert c == (c + d)[..|a|] && d == (c + d)[|a|..];
  }

  lemma TakeMore<T>(s: seq<T>, i: nat, n: nat)
    requires i + n <= |s|
    ensures s[..i] + s[i..][..n] == s[..i + n]
  {
  }

  lemma {:induction false} FramesConcat(a: seq<Post>, b: seq<Post>)
    ensures Frames(a + b) == Frames(a) + Frames(b)
  {
    if a == [] {
      assert a + b == b;
    } else {
      FramesConcat(a[1..], b);
      assert (a + b)[1..] == a[1..] + b;
      Assoc(Frame(a[0]), Frames(a[1..]), Frames(b));
    }
  }

  lemma FrameUnambiguous(p: Post, x: seq<byte>, q: Post, y: seq<byte>)
    requires p.Fits() && q.Fits() && Frame(p) + x == Frame(q) + y
    ensures p == q && x == y
  {
    Assoc(Header(p), p.body, x);
    Assoc(Header(q), q.body, y);
    SameSplit(Header(p), p.body + x, Header(q), q.body + y);
    HeaderRoundTrip(p);
    HeaderRoundTrip(q);
    SameSplit(p.body, x, q.body, y);
  }

  /** A stream of posts can be cut up in only one way. */
  lemma {:induction false} FramesUnambiguous(a: seq<Post>, b: seq<Post>)
    requires forall p :: p in a || p in b ==> p.Fits()
    requires Frames(a) == Frames(b)
    ensures a == b
  {
    if a != [] && b != [] {
      assert a[0] in a && b[0] in b;
      FrameUnambiguous(a[0], Frames(a[1..]), b[0], Frames(b[1..]));
      assert forall r :: r in a[1..] || r in b[1..] ==> r in a || r in b;
      FramesUnambiguous(a[1..], b[1..]);
      assert a == [a[0]] + a[1..] && b == [b[0]] + b[1..];
    }
  }

  /** How many of n bytes get through calls that move pieces bytes each: a call
      moves no more than it is asked to, a piece of 0 is a closed connection and
      a negative one an error, and after the last piece calls move all they can. */
  function Through(pieces: seq<int>, n: nat): (m: nat)
    ensures m <= n
    ensures (forall i :: 0 <= i < |pieces| ==> pieces[i] > 0) ==> m == n
  {
    if n == 0 || pieces == [] then n
    else if pieces[0] <= 0 then 0
    else if pieces[0] >= n then n
    else pieces[0] + Through(pieces[1..], n - pieces[0])
  }

  /** The same for receiving, when avail bytes are there to be read: where there are
      none the connection is closed. */
  function Arriving(pieces: seq<int>, n: nat, avail: nat): (m: nat)
    ensures m <= n && m <= avail
    ensures (forall i :: 0 <= i < |pieces| ==> pieces[i] > 0) ==> m == if n <= avail then n else avail
  {
    if n == 0 || avail == 0 then 0
    else if pieces == [] then (if n <= avail then n else avail)
    else if pieces[0] <= 0 then 0
    else
      var b := if pieces[0] >= n then n else pieces[0];
      if b > avail then avail
      else b + Arriving(pieces[1..], n - b, avail - b)
  }

  /** A connection, both directions of which are one stream here: what one end
      sends is what the other receives. */
  class Connection {
    var stream: seq<byte>
    var pieces: seq<int>

    ghost predicate Lossless()
      reads this
    {
      forall i :: 0 <= i < |pieces| ==> pieces[i] > 0
    }

    constructor (pieces: seq<int>)
      ensures stream == [] && this.pieces == pieces
    {
      stream := [];
      this.pieces := pieces;
    }

    /** The number of bytes the next call on n bytes moves, or its error. */
    method NextPiece(n: nat) returns (b: int)
      requires n > 0
      modifies this`pieces
      ensures old(pieces) == [] ==> b == n && pieces == []
      ensures old(pieces) != [] ==> pieces == old(pieces)[1..]
      ensures old(pieces) != [] ==> b == if old(pieces)[0] >= n then n else old(pieces)[0]
    {
      b := n;
      if pieces != [] {
        b := if pieces[0] >= n then n else pieces[0];
        pieces := pieces[1..];
      }
    }

    /** send. */
    method Send(data: seq<byte>) returns (b: int)
      requires data != []
      modifies this
      ensures old(pieces) == [] ==> b == |data| && pieces == []
      ensures old(pieces) != [] ==> pieces == old(pieces)[1..]
      ensures old(pieces) != [] ==> b == if old(pieces)[0] >= |data| then |data| else old(pieces)[0]
      ensures stream == if b > 0 then old(stream) + data[..b] else old(stream)
    {
      b := NextPiece(|data|);
      if b > 0 {
        stream := stream + data[..b];
      }
    }

    /** recv: nothing left to read is a closed connection. */
    method Recv(n: nat) returns (b: int, data: seq<byte>)
      requires n > 0
      modifies this
      ensures old(pieces) == [] ==> pieces == [] && b == if n <= |old(stream)| then n else |old(stream)|
      ensures old(pieces) != [] ==> pieces == old(pieces)[1..]
      ensures old(pieces) != [] ==>
        var piece := if old(pieces)[0] >= n then n else old(pieces)[0];
        b == if piece <= |old(stream)| then piece else |old(stream)|
      ensures b > 0 ==> b == |data| <= n && old(stream) == data + stream
      ensures b <= 0 ==> stream == old(stream) && data == []
      ensures old(Lossless()) ==> Lossless() && (b > 0 || old(stream) == [])
    {
      b := NextPiece(n);
      data := [];
      if b > |stream| {
        b := |stream|;
      }
      if b > 0 {
        data := stream[..b];
        stream := stream[b..];
      }
    }

    /** ssend. */
    method SendAll(buf: seq<byte>) returns (ret: int)
      modifies this
      ensures stream == old(stream) + buf[..Through(old(pieces), |buf|)]
      ensures ret == if Through(old(pieces), |buf|) == |buf| then |buf| else -1
      ensures old(Lossless()) ==> Lossless()
    {
      ret := 0;
      while ret < |buf|
        invariant 0 <= ret <= |buf|
        invariant stream == old(stream) + buf[..ret]
        invariant ret + Through(pieces, |buf| - ret) == Through(old(pieces), |buf|)
        invariant old(Lossless()) ==> Lossless()
      {
        ghost var was := pieces;
        var b := Send(buf[ret..]);
        if b <= 0 {
          return -1;
        }
        TakeMore(buf, ret, b);
        Assoc(old(stream), buf[..ret], buf[ret..][..b]);
        ret := ret + b;
      }
    }

    /** srecv. */
    method RecvAll(n: nat) returns (ret: int, buf: seq<byte>)
      modifies this
      ensures |buf| == Arriving(old(pieces), n, |old(stream)|)
      ensures ret == if |buf| == n then n else -1
      ensures old(stream) == buf + stream
      ensures old(Lossless()) ==> Lossless() && (if n <= |old(stream)| then ret == n else ret == -1 && stream == [])
    {
      ret, buf := 0, [];
      while ret < n
        invariant 0 <= ret == |buf| <= n
        invariant old(stream) == buf + stream
        invariant |buf| + Arriving(pieces, n - ret, |stream|) == Arriving(old(pieces), n, |old(stream)|)
        invariant old(Lossless()) ==> Lossless()
      {
        var b, data := Recv(n - ret);
        if b <= 0 {
          return -1, buf;
        }
        buf := buf + data;
        ret := ret + b;
      }
    }

    /** send_post. */
    method SendPost(p: Post) returns (ret: int)
      modifies this
      ensures old(Lossless()) ==> Lossless() && ret == |p.body| && stream == old(stream) + Frame(p)
      ensures ret == |p.body| ==> stream == old(stream) + Frame(p)
      ensures old(stream) <= stream && stream[|old(stream)|..] <= Frame(p)
      ensures ret != |p.body| ==> ret == -1
    {
      ret := SendAll(Header(p));
      if ret <= 0 {
        return;
      }
      ret := SendAll(p.body);
      assert old(stream) + Header(p) + p.body == old(stream) + Frame(p);
      assert Header(p)[..HEADER_SIZE] == Header(p) && p.body[..|p.body|] == p.body;
    }

    /** recv_post. The magic bytes are not looked at. If it returns a length, it has
        taken a header and as many bytes as that asks for off the stream; if q is
        what comes next, in whatever pieces, it returns q; if the header asks for
        more than there is, it reads on to the end of the stream and fails. */
    method RecvPost(ghost q: Post, ghost rest: seq<byte>) returns (ret: int, p: Post)
      modifies this
      ensures ret >= 0 ==>
        && |old(stream)| >= HEADER_SIZE + ret
        && ret == Wanted(old(stream)[..HEADER_SIZE]) == |p.body|
        && p.kind == old(stream)[6] && p.status == old(stream)[7]
        && old(stream) == old(stream)[..HEADER_SIZE] + p.body + stream
      ensures q.Fits() && old(Lossless()) && old(stream) == Frame(q) + rest ==>
        Lossless() && ret == |q.body| && p == q && stream == rest
      ensures old(Lossless()) && |old(stream)| >= HEADER_SIZE ==>
        p.kind == old(stream)[6] && p.status == old(stream)[7]
      ensures old(Lossless()) && |old(stream)| < HEADER_SIZE ==> ret == -1 && stream == []
      ensures old(Lossless()) && |old(stream)| >= HEADER_SIZE &&
              Wanted(old(stream)[..HEADER_SIZE]) > |old(stream)| - HEADER_SIZE ==>
        ret == -1 && stream == []
    {
      ghost var was := stream;
      p := Post(0, 0, []);
      var h;
      ret, h := RecvAll(HEADER_SIZE);
      if ret <= 0 {
        return;
      }
      assert h == was[..HEADER_SIZE];
      if q.Fits() && was == Frame(q) + rest {
        Assoc(Header(q), q.body, rest);
        SameSplit(h, stream, Header(q), q.body + rest);
        HeaderRoundTrip(q);
        WantedIsAnnounced(h);
      }
      ghost var behind := stream;
      var body;
      ret, body := RecvAll(Wanted(h));
      Assoc(h, body, stream);
      if q.Fits() && behind == q.body + rest && ret == |q.body| {
        SameSplit(body, stream, q.body, rest);
      }
      p := Post(h[6], h[7], body);
    }
  }

  method SendPosts(c: Connection, ps: seq<Post>)
    requires c.stream == [] && c.Lossless()
    modifies c
    ensures c.Lossless() && c.stream == Frames(ps)
  {
    for i := 0 to |ps|
      invariant c.Lossless() && c.stream == Frames(ps[..i])
    {
      var ret := c.SendPost(ps[i]);
      FramesConcat(ps[..i], [ps[i]]);
      assert ps[..i + 1] == ps[..i] + [ps[i]];
      assert Frames([ps[i]]) == Frame(ps[i]);
    }
    assert ps[..|ps|] == ps;
  }

  method RecvPosts(c: Connection, ghost ps: seq<Post>, n: nat) returns (qs: seq<Post>)
    requires n == |ps| && c.stream == Frames(ps) && c.Lossless()
    requires forall p :: p in ps ==> p.Fits()
    modifies c
    ensures qs == ps && c.stream == []
  {
    qs := [];
    for i := 0 to n
      invariant c.Lossless() && c.stream == Frames(ps[i..]) && qs == ps[..i]
    {
      assert ps[i] in ps;
      assert ps[i..][1..] == ps[i + 1..];
      var ret, p := c.RecvPost(ps[i], Frames(ps[i + 1..]));
      qs := qs + [p];
    }
  }

  /** Whatever pieces the stream is moved in, sending a list of posts and reading
      as many gives the same list, with no bytes left over. */
  method Exchange(c: Connection, ps: seq<Post>) returns (qs: seq<Post>)
    requires c.stream == [] && c.Lossless()
    requires forall p :: p in ps ==> p.Fits()
    modifies c
    ensures qs == ps && c.stream == []
  {
    SendPosts(c, ps);
    qs := RecvPosts(c, ps, |ps|);
  }
}
