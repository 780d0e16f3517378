/** The one way a picture with a hole in it gets past the corruption check: a hole that the gap check overlooks. */
module HiddenHoles {
  import opened SequenceNumbers
  import opened Rtp
  import opened Resequencing
  import opened Depacketizer
  import opened Packetization
  import opened PictureIntegrity
  import opened LossyStreams

  const A: Nal := [1]
  const B: Nal := [2]
  const C: Nal := [3]

  /** A picture of three NALs, of which `B` will be lost, and one more. */
  const UNITS: seq<Picture> := [[A, B, C], [A]]

  /** The stream from the first number to one past the last: `A` is packet `h`, `B` the next, `C` packet `k`, and the last
      packet ends the second picture; the others have no payload. */
  function PacketOf(h: nat, k: nat, last: nat, j: nat): Sent {
    if j < h then Sent(0, 0, Padding, false)
    else if j == h then Sent(0, 0, Whole(A), false)
    else if j == h + 1 then Sent(0, 1, Whole(B), false)
    else if j < k then Sent(0, 2, Padding, false)
    else if j == k then Sent(0, 2, Whole(C), true)
    else if j < last then Sent(1, 0, Padding, false)
    else Sent(1, 0, Whole(A), true)
  }

  function HoleStream(h: nat, k: nat, last: nat): seq<Sent> {
    seq(last + 1, j requires 0 <= j <= last => PacketOf(h, k, last, j))
  }

  lemma {:induction false} PacketFits(h: nat, k: nat, last: nat, j: nat)
    requires h + 1 < k < last && j <= last
    ensures Fits(UNITS, PacketOf(h, k, last, j))
    ensures j < last ==> After(PacketOf(h, k, last, j)) == Before(PacketOf(h, k, last, j + 1))
  {
  }

  lemma {:induction false} HoleStreamIsStream(h: nat, k: nat, last: nat)
    requires h + 1 < k < last
    ensures Stream(UNITS, HoleStream(h, k, last))
  {
    var ps := HoleStream(h, k, last);
    forall j | 0 <= j < |ps| ensures Fits(UNITS, ps[j]) && (j < |ps| - 1 ==> After(ps[j]) == Before(ps[j + 1])) {
      PacketFits(h, k, last, j);
    }
  }

  // ---- The same numbers, carrying this stream ----

  ghost predicate SameNumbers(e: seq<Numbered>, d: seq<Numbered>) {
    |e| == |d| && forall i :: 0 <= i < |e| ==> e[i].num == d[i].num
  }

  lemma {:induction false} CountedSame(e: seq<Numbered>, d: seq<Numbered>)
    requires SameNumbers(e, d)
    ensures Counted(e) == Counted(d)
  {
    if e != [] {
      CountedSame(e[..|e| - 1], d[..|d| - 1]);
    }
  }

  lemma {:induction false} NoticedSame(e: seq<Numbered>, d: seq<Numbered>, i: nat)
    requires SameNumbers(e, d) && i < |e|
    ensures Noticed(e, i) == Noticed(d, i)
  {
    CountedSame(e[..i], d[..i]);
  }

  lemma {:induction false} IncreasingAll(d: seq<Numbered>, i: nat, j: nat)
    requires Increasing(d) && i < j < |d|
    ensures d[i].num < d[j].num
  {
    assert d[j - 1].num < d[j].num;
    if i < j - 1 {
      IncreasingAll(d, i, j - 1);
    }
  }

  function WireOf(p: Sent, num: int): RtpPacket {
    RtpPacket(Wrap(num), 0, p.marker, if p.content.Whole? then p.content.nal else [])
  }

  lemma {:induction false} WireCarries(h: nat, k: nat, last: nat, base: int, j: nat)
    requires h + 1 < k < last && j <= last
    ensures WasSent(HoleStream(h, k, last), base, Numbered(base + j, WireOf(PacketOf(h, k, last, j), base + j)))
  {
    var p := PacketOf(h, k, last, j);
    assert HoleStream(h, k, last)[base + j - base] == p;
    assert Carries(WireOf(p, base + j), p, base + j);
  }

  /** The hole: before packet `i`, and not noticed. */
  ghost predicate Hidden(d: seq<Numbered>, i: nat) {
    Increasing(d) && 0 < i < |d| && Overlooks(d, i)
  }

  /** Where packet `j` of `d` is in the stream. */
  function Offset(d: seq<Numbered>, j: nat): int
    requires j < |d|
  {
    d[j].num - d[0].num
  }

  function End(d: seq<Numbered>): int
    requires d != []
  {
    Offset(d, |d| - 1) + 1
  }

  lemma {:induction false} Offsets(d: seq<Numbered>, i: nat, j: nat)
    requires Hidden(d, i) && j < |d|
    ensures 0 <= Offset(d, j) < End(d) && 0 <= Offset(d, i - 1) && Offset(d, i - 1) + 1 < Offset(d, i) < End(d)
    ensures j < i - 1 ==> Offset(d, j) < Offset(d, i - 1)
    ensures j > i ==> Offset(d, j) > Offset(d, i)
  {
    FromFirst(d, j);
    FromFirst(d, i - 1);
    FromFirst(d, i);
    assert d[i - 1].num < d[i].num;
    if j < i - 1 {
      IncreasingAll(d, j, i - 1);
    } else if j > i {
      IncreasingAll(d, i, j);
    }
  }

  lemma {:induction false} FromFirst(d: seq<Numbered>, j: nat)
    requires Increasing(d) && j < |d|
    ensures 0 <= Offset(d, j) < End(d)
  {
    if j > 0 {
      IncreasingAll(d, 0, j);
    }
    if j < |d| - 1 {
      IncreasingAll(d, j, |d| - 1);
    }
  }

  /** The packet with the number of `d[j]`, when the hole is before `d[i]`. */
  ghost function CarriedBy(d: seq<Numbered>, i: nat, j: nat): (n: Numbered)
    requires Hidden(d, i) && j < |d|
    ensures n.num == d[j].num
  {
    Offsets(d, i, j);
    Numbered(d[j].num, WireOf(PacketOf(Offset(d, i - 1), Offset(d, i), End(d), Offset(d, j)), d[j].num))
  }

  ghost function Carrying(d: seq<Numbered>, i: nat): (e: seq<Numbered>)
    requires Hidden(d, i)
    ensures SameNumbers(e, d)
  {
    seq(|d|, j requires 0 <= j < |d| => CarriedBy(d, i, j))
  }

  /** What that is. */
  lemma {:induction false} CarriedContent(d: seq<Numbered>, i: nat, j: nat)
    requires Hidden(d, i) && j < |d|
    ensures var pkt := CarriedBy(d, i, j).pkt;
      && (j == i - 1 ==> pkt.payload == A && !pkt.marker) && (j == i ==> pkt.payload == C && pkt.marker)
      && (j != i - 1 && j != i ==> pkt.payload == [])
      && pkt.number == Wrap(d[j].num)
  {
    Offsets(d, i, j);
  }

  ghost function StreamOf(d: seq<Numbered>, i: nat): seq<Sent>
    requires Hidden(d, i)
  {
    Offsets(d, i, 0);
    HoleStream(Offset(d, i - 1), Offset(d, i), End(d))
  }

  lemma {:induction false} CarriedWasSent(d: seq<Numbered>, i: nat, j: nat)
    requires Hidden(d, i) && j < |d|
    ensures WasSent(StreamOf(d, i), d[0].num, CarriedBy(d, i, j))
  {
    Offsets(d, i, j);
    WireCarries(Offset(d, i - 1), Offset(d, i), End(d), d[0].num, Offset(d, j));
  }

  /** A stream, and what arrives of it. */
  ghost predicate Arrives(units: seq<Picture>, ps: seq<Sent>, base: int, e: seq<Numbered>) {
    Stream(units, ps) && forall i :: 0 <= i < |e| ==> WasSent(ps, base, e[i])
  }

  lemma {:induction false} HiddenArrives(d: seq<Numbered>, i: nat)
    requires Hidden(d, i)
    ensures Arrives(UNITS, StreamOf(d, i), d[0].num, Carrying(d, i))
  {
    Offsets(d, i, 0);
    HoleStreamIsStream(Offset(d, i - 1), Offset(d, i), End(d));
    var e := Carrying(d, i);
    forall j | 0 <= j < |e| ensures WasSent(StreamOf(d, i), d[0].num, e[j]) {
      CarriedWasSent(d, i, j);
    }
  }

  // ---- What becomes of it ----

  ghost predicate Holds(s: Extractor, picture: Picture, committed: seq<Picture>) {
    s.picBuf == picture && s.fua == NoFragment && !s.corrupted && s.committed == committed
  }

  /** A packet without payload does nothing to an empty buffer. */
  lemma {:induction false} PaddingHolds(s: Extractor, pkt: RtpPacket, committed: seq<Picture>)
    requires pkt.payload == [] && Holds(s, [], committed)
    ensures Digestible(pkt) && Holds(IngestOrdered(s, pkt), [], committed)
  {
  }

  lemma {:induction false} FirstHolds(s: Extractor, pkt: RtpPacket)
    requires pkt.payload == A && !pkt.marker && Holds(s, [], [])
    ensures Digestible(pkt) && Holds(IngestOrdered(s, pkt), [A], [])
  {
  }

  /** Nothing marks the picture: `C` completes it. */
  lemma {:induction false} LastCommits(s: Extractor, pkt: RtpPacket)
    requires pkt.payload == C && pkt.marker && Holds(s, [A], []) && !CheckSeqGap(s, pkt.number).1
    ensures Digestible(pkt) && Holds(IngestOrdered(s, pkt), [], [[A, C]])
  {
    assert Append(NoteGap(s, pkt), C).picBuf == [A, C];
  }

  /** What is buffered and committed after the first `n` packets. */
  function Buffered(i: nat, n: nat): Picture {
    if n == i then [A] else []
  }

  function Committed(i: nat, n: nat): seq<Picture> {
    if n <= i then [] else [[A, C]]
  }

  lemma {:induction false} HiddenStep(d: seq<Numbered>, i: nat, n: nat, s: Extractor)
    requires Hidden(d, i) && n < |d| && Holds(s, Buffered(i, n), Committed(i, n))
    requires CheckSeqGap(s, Carrying(d, i)[n].pkt.number).1 == Noticed(d, n)
    ensures var pkt := Carrying(d, i)[n].pkt;
      Digestible(pkt) && Holds(IngestOrdered(s, pkt), Buffered(i, n + 1), Committed(i, n + 1))
  {
    CarriedContent(d, i, n);
    var pkt := Carrying(d, i)[n].pkt;
    if n == i - 1 {
      FirstHolds(s, pkt);
    } else if n == i {
      LastCommits(s, pkt);
    } else {
      PaddingHolds(s, pkt, Committed(i, n));
    }
  }

  lemma {:induction false} CheckInRun(d: seq<Numbered>, i: nat, n: nat)
    requires Hidden(d, i) && n < |d| && AllDigestible(Carrying(d, i))
    ensures CheckSeqGap(Ingested(Carrying(d, i), n), Carrying(d, i)[n].pkt.number).1 == Noticed(d, n)
  {
    var e := Carrying(d, i);
    forall j | 0 <= j < |e| ensures e[j].pkt.number == Wrap(e[j].num) {
      CarriedContent(d, i, j);
    }
    SameCount(e, n);
    SameCheck(Ingested(e, n), Counted(e[..n]), e[n].pkt.number);
    NoticedSame(e, d, n);
  }

  lemma {:induction false} HiddenRun(d: seq<Numbered>, i: nat, n: nat)
    requires Hidden(d, i) && n <= |d| && AllDigestible(Carrying(d, i))
    ensures Holds(Ingested(Carrying(d, i), n), Buffered(i, n), Committed(i, n))
  {
    if n > 0 {
      HiddenRun(d, i, n - 1);
      CheckInRun(d, i, n - 1);
      HiddenStep(d, i, n - 1, Ingested(Carrying(d, i), n - 1));
    }
  }

  /** A picture without its middle is no suffix of what was sent. */
  lemma {:induction false} NotTraced(owners: seq<nat>)
    ensures !Traced([[A, C]], owners, UNITS, |UNITS|)
  {
    if |owners| == 1 {
      NotSuffix(owners[0]);
    }
  }

  lemma {:induction false} NotSuffix(unit: nat)
    ensures !IsSuffix([A, C], UnitAt(UNITS, unit))
  {
    assert [A, B, C][1..][0] == B;
  }

  // ---- Exactly when ----

  /** After `e`, every committed picture is a suffix of an access unit, each of a later one. */
  ghost predicate Safe(units: seq<Picture>, e: seq<Numbered>) {
    AllDigestible(e) && Traceable(Ingested(e, |e|).committed, units, |units|)
  }

  /** That holds of every stream of which packets with the numbers of `d` arrive. */
  ghost predicate SafeNumbers(d: seq<Numbered>) {
    forall units, ps, base, e :: Arrives(units, ps, base, e) && SameNumbers(e, d) ==> Safe(units, e)
  }

  lemma {:induction false} SeenIsSafe(units: seq<Picture>, ps: seq<Sent>, base: int, e: seq<Numbered>, d: seq<Numbered>)
    requires Increasing(d) && HolesSeen(d) && Arrives(units, ps, base, e) && SameNumbers(e, d)
    ensures Safe(units, e)
  {
    forall i {:trigger e[i]} | 0 < i < |e| ensures e[i - 1].num < e[i].num && !Overlooks(e, i) {
      assert d[i - 1].num < d[i].num && !Overlooks(d, i);
      NoticedSame(e, d, i);
    }
    WasSentDigestible(ps, base, e);
    CommittedAreSuffixes(units, ps, base, e);
  }

  lemma {:induction false} HiddenIsUnsafe(d: seq<Numbered>, i: nat)
    requires Hidden(d, i)
    ensures Arrives(UNITS, StreamOf(d, i), d[0].num, Carrying(d, i)) && !Safe(UNITS, Carrying(d, i))
  {
    HiddenArrives(d, i);
    var e := Carrying(d, i);
    WasSentDigestible(StreamOf(d, i), d[0].num, e);
    HiddenRun(d, i, |d|);
    assert Ingested(e, |e|).committed == [[A, C]];
    forall owners ensures !Traced([[A, C]], owners, UNITS, |UNITS|) {
      NotTraced(owners);
    }
  }

  /** For packets in order under any numbers: whatever stream they are packets of, every committed picture is a suffix of an
      access unit, if and only if the gap check overlooks no hole between them. */
  lemma {:induction false} SuffixesExactlyWhenSeen(d: seq<Numbered>)
    requires Increasing(d)
    ensures SafeNumbers(d) <==> HolesSeen(d)
  {
    if HolesSeen(d) {
      forall units, ps, base, e | Arrives(units, ps, base, e) && SameNumbers(e, d) ensures Safe(units, e) {
        SeenIsSafe(units, ps, base, e, d);
      }
    } else {
      var i :| 0 < i < |d| && Overlooks(d, i);
      HiddenIsUnsafe(d, i);
    }
  }
}
