/** How a file is cut into packets and put together again (lab2/src/sender.c,
    lab2/src/receiver.c, lab2/src/defs.h). */
module Segments {

  import opened Bytes
  import opened Indices

  const MAXBUF := 0x20_0000
  const PAYLOAD_MAX := 1461

  function NPackets(file: seq<byte>): nat {
    (|file| + PAYLOAD_MAX - 1) / PAYLOAD_MAX
  }

  /** The length given to packet k. The last packet gets the remainder, which
      is 0 rather than PAYLOAD_MAX when the file fills its packets exactly. */
  function Dsize(file: seq<byte>, k: nat): nat {
    if k == NPackets(file) - 1 then |file| % PAYLOAD_MAX else PAYLOAD_MAX
  }

  /** The offset just behind packet k. */
  function End(file: seq<byte>, k: nat): nat {
    k * PAYLOAD_MAX + Dsize(file, k)
  }

  lemma EndInFile(file: seq<byte>, k: nat)
    requires k < NPackets(file)
    ensures End(file, k) <= |file|
    ensures k < NPackets(file) - 1 ==> End(file, k) == (k + 1) * PAYLOAD_MAX
  {
  }

  function Chunk(file: seq<byte>, k: nat): (c: seq<byte>)
    requires k < NPackets(file)
    ensures |c| == Dsize(file, k) <= PAYLOAD_MAX
  {
    EndInFile(file, k);
    file[k * PAYLOAD_MAX..End(file, k)]
  }

  /** Whether the byte at offset j belongs to one of the packets in got. */
  predicate Stored(file: seq<byte>, got: set<nat>, j: nat) {
    j / PAYLOAD_MAX in got && j < End(file, j / PAYLOAD_MAX)
  }

  /** A buffer that held buf0 and in which the packets of got were placed. */
  function Placed(file: seq<byte>, buf0: seq<byte>, got: set<nat>): (b: seq<byte>)
    requires forall k :: k in got ==> k < NPackets(file)
    ensures |b| == |buf0|
  {
    seq(|buf0|, j requires 0 <= j < |buf0| =>
      if Stored(file, got, j) then EndInFile(file, j / PAYLOAD_MAX); file[j] else buf0[j])
  }

  lemma PlacedAt(file: seq<byte>, buf0: seq<byte>, got: set<nat>, j: nat)
    requires forall k :: k in got ==> k < NPackets(file)
    requires j < |buf0|
    ensures Stored(file, got, j) ==> j < |file| && Placed(file, buf0, got)[j] == file[j]
    ensures !Stored(file, got, j) ==> Placed(file, buf0, got)[j] == buf0[j]
  {
    if Stored(file, got, j) {
      EndInFile(file, j / PAYLOAD_MAX);
    }
  }

  /** The end of the last packet of got, looking only below m. */
  function EndOf(file: seq<byte>, got: set<nat>, m: nat): nat {
    if m == 0 then 0
    else if m - 1 in got then End(file, m - 1)
    else EndOf(file, got, m - 1)
  }

  /** It is the largest end of them all. */
  lemma {:induction false} EndOfIsLargest(file: seq<byte>, got: set<nat>, m: nat)
    requires m <= NPackets(file)
    ensures forall k :: 0 <= k < m && k in got ==> End(file, k) <= EndOf(file, got, m)
    ensures EndOf(file, got, m) == 0 || exists k :: 0 <= k < m && k in got && EndOf(file, got, m) == End(file, k)
  {
    if m > 0 {
      EndOfIsLargest(file, got, m - 1);
      if m - 1 in got {
        forall k | 0 <= k < m && k in got ensures End(file, k) <= End(file, m - 1) {
          EndInFile(file, k);
        }
      }
    }
  }

  /** What is left of a file after being cut up and put together. */
  function Rebuilt(file: seq<byte>): seq<byte> {
    if |file| > 0 && |file| % PAYLOAD_MAX == 0 then file[..|file| - PAYLOAD_MAX] else file
  }

  predicate SurvivesSegmentation(file: seq<byte>) {
    |file| == 0 || |file| % PAYLOAD_MAX != 0
  }

  lemma RebuiltEnd(file: seq<byte>)
    ensures EndOf(file, Below(NPackets(file)), NPackets(file)) == |Rebuilt(file)| <= |file|
  {
  }

  lemma AllStored(file: seq<byte>, j: nat)
    requires j < |Rebuilt(file)|
    ensures Stored(file, Below(NPackets(file)), j)
  {
  }

  /** The segmentation round trip: with every packet in place, the bytes up to
      the largest end are the rebuilt file, which is the file itself exactly
      when its length is 0 or not a multiple of PAYLOAD_MAX. */
  lemma SegmentationRoundTrip(file: seq<byte>, buf0: seq<byte>)
    requires |file| <= |buf0|
    ensures EndOf(file, Below(NPackets(file)), NPackets(file)) == |Rebuilt(file)| <= |buf0|
    ensures Placed(file, buf0, Below(NPackets(file)))[..|Rebuilt(file)|] == Rebuilt(file)
    ensures Rebuilt(file) == file <==> SurvivesSegmentation(file)
  {
    var b, r := Placed(file, buf0, Below(NPackets(file))), Rebuilt(file);
    RebuiltEnd(file);
    forall j | 0 <= j < |r| ensures b[j] == r[j] {
      AllStored(file, j);
      PlacedAt(file, buf0, Below(NPackets(file)), j);
    }
  }

  /** Storing one packet: the copy into the buffer and the update of the end. */
  lemma PlaceOne(file: seq<byte>, buf0: seq<byte>, got: set<nat>, k: nat)
    requires k < NPackets(file)
    requires forall i :: i in got ==> i < NPackets(file)
    requires |file| <= |buf0|
    ensures End(file, k) <= |buf0|
    ensures Placed(file, buf0, got + {k})
         == Placed(file, buf0, got)[..k * PAYLOAD_MAX] + Chunk(file, k) + Placed(file, buf0, got)[End(file, k)..]
  {
    EndInFile(file, k);
    var a, b := Placed(file, buf0, got), Placed(file, buf0, got + {k});
    var c := a[..k * PAYLOAD_MAX] + Chunk(file, k) + a[End(file, k)..];
    assert |c| == |b|;
    forall j | 0 <= j < |b| ensures b[j] == c[j] {
      PlacedAt(file, buf0, got, j);
      PlacedAt(file, buf0, got + {k}, j);
      if k * PAYLOAD_MAX <= j < End(file, k) {
        assert j / PAYLOAD_MAX == k;
        assert c[j] == Chunk(file, k)[j - k * PAYLOAD_MAX] == file[j];
      } else {
        assert Stored(file, got + {k}, j) <==> Stored(file, got, j);
      }
    }
  }

  lemma EndBounds(file: seq<byte>, got: set<nat>, m: nat)
    requires 0 < m <= NPackets(file)
    ensures EndOf(file, got, m) <= End(file, m - 1)
  {
    EndOfIsLargest(file, got, m);
    if EndOf(file, got, m) != 0 {
      var k :| 0 <= k < m && k in got && EndOf(file, got, m) == End(file, k);
      EndInFile(file, k);
    }
  }

  lemma {:induction false} EndOfOne(file: seq<byte>, got: set<nat>, k: nat, m: nat)
    requires k < m <= NPackets(file)
    ensures EndOf(file, got + {k}, m)
         == if EndOf(file, got, m) < End(file, k) then End(file, k) else EndOf(file, got, m)
  {
    EndInFile(file, k);
    EndOfIsLargest(file, got, m);
    if k == m - 1 {
      EndBounds(file, got, m);
    } else if m - 1 in got {
      EndInFile(file, m - 1);
    } else {
      EndOfOne(file, got, k, m - 1);
    }
  }
}
