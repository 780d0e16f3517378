/** The depacketizer behind the reorder buffer: whole runs over any subsequence of a well-formed stream. */
module LossyStreams {
  import opened SequenceNumbers
  import opened Rtp
  import opened Resequencing
  import opened Depacketizer
  import opened Packetization
  import opened PictureIntegrity

  /** Packets handed on in order, never 32768 or more numbers apart. */
  ghost predicate GapsReadable(e: seq<Numbered>) {
    forall i :: 0 <= i < |e| - 1 ==> 0 < e[i + 1].num - e[i].num < 0x8000
  }

  /** `n` is a packet of stream `ps`, whose first packet is number `base`, under its own number. */
  ghost predicate WasSent(ps: seq<Sent>, base: int, n: Numbered) {
    base <= n.num < base + |ps| && Carries(n.pkt, ps[n.num - base], n.num)
  }

  ghost predicate Increasing(e: seq<Numbered>) {
    forall i {:trigger e[i]} :: 0 < i < |e| ==> e[i - 1].num < e[i].num
  }

  /** `e` is what is left of the stream, in order and with no hole that the gap check overlooks. */
  ghost predicate Received(ps: seq<Sent>, base: int, e: seq<Numbered>) {
    (forall i :: 0 <= i < |e| ==> WasSent(ps, base, e[i])) && Increasing(e) && HolesSeen(e)
  }

  // ---- The gap counter ----

  /** The sequence numbers alone, as `checkSeqGap` sees them. */
  function Counted(e: seq<Numbered>): Extractor {
    if e == [] then INITIAL else CheckSeqGap(Counted(e[..|e| - 1]), Wrap(e[|e| - 1].num)).0
  }

  /** `checkSeqGap` reports a gap, of either kind, before packet `i`. */
  ghost predicate Noticed(e: seq<Numbered>, i: nat)
    requires i < |e|
  {
    CheckSeqGap(Counted(e[..i]), Wrap(e[i].num)).1
  }

  ghost predicate Follows(e: seq<Numbered>, i: nat)
    requires 0 < i < |e|
  {
    e[i].num == e[i - 1].num + 1
  }

  /** The guard of the branch that overlooks holes: a number one more than the last one the check accepted, modulo 65536,
      that is not one more than that of the packet before. */
  ghost predicate Overlooks(e: seq<Numbered>, i: nat)
    requires 0 < i < |e|
  {
    !Follows(e, i) && !Noticed(e, i)
  }

  ghost predicate HolesSeen(e: seq<Numbered>) {
    !exists i :: 0 < i < |e| && Overlooks(e, i)
  }

  /** `checkSeqGap` is consulted in its out-of-order branch for packet `i`. */
  ghost predicate ReadsOutOfOrder(e: seq<Numbered>, i: nat)
    requires i < |e|
  {
    Counted(e[..i]).hasPrevSeq && Delta(Wrap(e[i].num), Counted(e[..i]).prevSeq) <= 0
  }

  lemma {:induction false} DeltaOfNumbers(a: int, b: int)
    requires 0 < b - a <= 0x8000
    ensures Delta(Wrap(b), Wrap(a)) == (if b - a < 0x8000 then b - a else -0x8000)
  {
    WrapDifference(b, a);
  }

  /** While gaps are readable, the counter follows the numbers, and what it counts as lost is exactly the numbers
      missing between the first and the last packet. */
  lemma {:induction false} CounterExact(e: seq<Numbered>)
    requires e != [] && GapsReadable(e)
    ensures var s := Counted(e); var n := |e| - 1;
      s.hasPrevSeq && s.prevSeq == Wrap(e[n].num) && s.lostPackets == e[n].num - e[0].num - n
    decreases |e|
  {
    var n := |e| - 1;
    if n == 0 {
      assert e[..0] == [];
    } else {
      CounterExact(e[..n]);
      DeltaOfNumbers(e[n - 1].num, e[n].num);
    }
  }

  /** For packets as the reorder buffer emits them, never more than 32768 numbers apart, the out-of-order branch is
      never taken if and only if no two consecutive ones are exactly 32768 apart. */
  lemma {:induction false} OutOfOrderExactly(e: seq<Numbered>)
    requires forall i :: 0 <= i < |e| - 1 ==> 0 < e[i + 1].num - e[i].num <= 0x8000
    ensures (forall i :: 0 <= i < |e| ==> !ReadsOutOfOrder(e, i)) <==> GapsReadable(e)
  {
    if GapsReadable(e) {
      forall i | 0 <= i < |e| ensures !ReadsOutOfOrder(e, i) {
        if i == 0 {
          assert e[..0] == [];
        } else {
          CounterExact(e[..i]);
          DeltaOfNumbers(e[i - 1].num, e[i].num);
        }
      }
    } else {
      var i := FirstLongGap(e);
      CounterExact(e[..i + 1]);
      DeltaOfNumbers(e[i].num, e[i + 1].num);
      assert ReadsOutOfOrder(e, i + 1);
    }
  }

  lemma {:induction false} FirstLongGap(e: seq<Numbered>) returns (i: nat)
    requires (forall j :: 0 <= j < |e| - 1 ==> 0 < e[j + 1].num - e[j].num <= 0x8000) && !GapsReadable(e)
    ensures i + 1 < |e| && e[i + 1].num - e[i].num == 0x8000 && GapsReadable(e[..i + 1])
    decreases |e|
  {
    if GapsReadable(e[..|e| - 1]) {
      i := |e| - 2;
      assert e[..i + 1] == e[..|e| - 1];
    } else {
      i := FirstLongGap(e[..|e| - 1]);
      assert e[..|e| - 1][..i + 1] == e[..i + 1];
    }
  }

  /** Gaps of less than 32768 are never overlooked. */
  lemma {:induction false} ReadableGapsSeen(e: seq<Numbered>)
    requires GapsReadable(e)
    ensures Increasing(e) && HolesSeen(e)
  {
    forall i | 0 < i < |e| ensures e[i - 1].num < e[i].num && !Overlooks(e, i) {
      assert 0 < e[i - 1 + 1].num - e[i - 1].num < 0x8000;
      CounterExact(e[..i]);
      DeltaOfNumbers(e[i - 1].num, e[i].num);
    }
  }

  // ---- Pictures ----

  /** Picture `j` is a non-empty run of the last NALs of unit `owners[j]`; the owners increase. */
  ghost predicate Traced(pictures: seq<Picture>, owners: seq<nat>, units: seq<Picture>, limit: nat) {
    && |owners| == |pictures|
    && (forall j :: 0 <= j < |owners| ==> owners[j] < limit && IsSuffix(pictures[j], UnitAt(units, owners[j])))
    && (forall j, k :: 0 <= j < k < |owners| ==> owners[j] < owners[k])
  }

  ghost predicate SameCounter(s: Extractor, s': Extractor) {
    s'.hasPrevSeq == s.hasPrevSeq && s'.prevSeq == s.prevSeq && s'.lostPackets == s.lostPackets
  }

  lemma {:induction false} FuAKeepsCounter(s: Extractor, p: seq<byte>, marker: bool)
    ensures SameCounter(s, IngestFuA(s, p, marker))
  {
  }

  lemma {:induction false} StapAKeepsCounter(s: Extractor, p: seq<byte>, marker: bool)
    requires Solid(StapUnits(p))
    ensures SameCounter(s, IngestStapA(s, p, marker))
  {
    AppendAllKeepsCounter(s, StapUnits(p));
  }

  lemma {:induction false} DispatchKeepsCounter(s: Extractor, pkt: RtpPacket)
    requires Digestible(pkt)
    ensures SameCounter(s, Dispatch(s, pkt))
  {
    var p := pkt.payload;
    if p != [] {
      FuAKeepsCounter(s, p, pkt.marker);
      if NalType(p[0]) == TYPE_STAP_A {
        StapAKeepsCounter(s, p[1..], pkt.marker);
      }
    }
  }

  lemma {:induction false} AppendAllKeepsCounter(s: Extractor, units: seq<seq<byte>>)
    requires Solid(units)
    ensures SameCounter(s, AppendAll(s, units))
    decreases |units|
  {
    if units != [] {
      AppendAllKeepsCounter(Append(s, units[0]), units[1..]);
    }
  }

  /** After a gap the buffered picture is marked, unless there is nothing to mark: then any place will do. */
  lemma {:induction false} GapMarks(s: Extractor, units: seq<Picture>, at: Place, pkt: RtpPacket)
    requires at.done <= |UnitAt(units, at.unit)|
    requires CheckSeqGap(s, pkt.number).1 || (s.picBuf == [] && s.fua.NoFragment?)
    ensures Good(NoteGap(s, pkt), units, at)
  {
  }

  /** The gap check sees every packet that does not start where the last one ended. */
  lemma {:induction false} GapNoted(s: Extractor, units: seq<Picture>, at: Place, at': Place, pkt: RtpPacket)
    requires Good(s, units, at) && at'.done <= |UnitAt(units, at'.unit)| && (at' == at || CheckSeqGap(s, pkt.number).1)
    ensures Good(NoteGap(s, pkt), units, at') && NoteGap(s, pkt).committed == s.committed
  {
    if CheckSeqGap(s, pkt.number).1 {
      GapMarks(s, units, at', pkt);
    }
  }

  lemma {:induction false} NotedPacket(s: Extractor, units: seq<Picture>, p: Sent, num: int, pkt: RtpPacket)
    requires Fits(units, p) && Carries(pkt, p, num) && Digestible(pkt) && Good(s, units, Before(p))
    ensures Good(Dispatch(s, pkt), units, After(p)) && Commits(s, Dispatch(s, pkt), units, p.unit, p.marker)
  {
    DispatchAdvances(s, units, pkt, p, num);
  }

  /** One packet of the stream, after whatever was lost in between. */
  lemma {:induction false} NextPacket(s: Extractor, units: seq<Picture>, at: Place, p: Sent, num: int, pkt: RtpPacket)
    requires Good(s, units, at) && (Before(p) == at || CheckSeqGap(s, pkt.number).1)
    requires Fits(units, p) && Carries(pkt, p, num) && Digestible(pkt)
    ensures var s' := IngestOrdered(s, pkt);
      Good(s', units, After(p)) && Commits(s, s', units, p.unit, p.marker)
  {
    GapNoted(s, units, at, Before(p), pkt);
    NotedPacket(NoteGap(s, pkt), units, p, num, pkt);
  }

  lemma {:induction false} FirstPacket(units: seq<Picture>, p: Sent, num: int, pkt: RtpPacket)
    requires Fits(units, p) && Carries(pkt, p, num) && Digestible(pkt)
    ensures var s' := IngestOrdered(INITIAL, pkt);
      Good(s', units, After(p)) && Commits(INITIAL, s', units, p.unit, p.marker)
  {
    GapMarks(INITIAL, units, Before(p), pkt);
    NotedPacket(NoteGap(INITIAL, pkt), units, p, num, pkt);
  }

  lemma {:induction false} TraceGrows(s: Extractor, s': Extractor, units: seq<Picture>, owners: seq<nat>, limit: nat, unit: nat, marker: bool)
    returns (owners': seq<nat>)
    requires Traced(s.committed, owners, units, limit) && limit <= unit
    requires Commits(s, s', units, unit, marker)
    ensures Traced(s'.committed, owners', units, if marker then unit + 1 else unit)
  {
    if s'.committed == s.committed {
      owners' := owners;
    } else {
      owners' := owners + [unit];
      assert forall j :: 0 <= j < |owners| ==> s'.committed[j] == s.committed[j];
    }
  }

  ghost predicate Traceable(pictures: seq<Picture>, units: seq<Picture>, limit: nat) {
    exists owners :: Traced(pictures, owners, units, limit)
  }

  lemma {:induction false} StaysTraceable(s: Extractor, s': Extractor, units: seq<Picture>, limit: nat, p: Sent)
    requires Traceable(s.committed, units, limit) && limit <= p.unit && Commits(s, s', units, p.unit, p.marker)
    ensures Traceable(s'.committed, units, After(p).unit)
  {
    var owners :| Traced(s.committed, owners, units, limit);
    owners := TraceGrows(s, s', units, owners, limit, p.unit, p.marker);
  }

  /** The extractor stands at the place after packet `num` of the stream, and everything it committed so far is traced to
      units before that place. */
  ghost predicate TrackedAt(s: Extractor, units: seq<Picture>, ps: seq<Sent>, base: int, num: int) {
    exists at :: Good(s, units, at) && Traceable(s.committed, units, at.unit) && LeftAt(ps, num - base, at)
  }

  ghost predicate LeftAt(ps: seq<Sent>, j: int, at: Place) {
    0 <= j < |ps| && at == After(ps[j])
  }

  lemma {:induction false} UnitsAscend(units: seq<Picture>, ps: seq<Sent>, i: nat, j: nat)
    requires Stream(units, ps) && i < j < |ps|
    ensures After(ps[i]).unit <= ps[j].unit
    decreases j
  {
    if i + 1 < j {
      UnitsAscend(units, ps, i, j - 1);
    }
    assert After(ps[j - 1]) == Before(ps[j]);
  }

  lemma {:induction false} Onwards(units: seq<Picture>, ps: seq<Sent>, i: nat, at: Place, j: nat)
    requires Stream(units, ps) && LeftAt(ps, i, at) && i < j < |ps|
    ensures Fits(units, ps[j]) && at.unit <= ps[j].unit && (j == i + 1 ==> Before(ps[j]) == at)
  {
    UnitsAscend(units, ps, i, j);
    if j == i + 1 {
      assert After(ps[i]) == Before(ps[j]);
    }
  }

  lemma {:induction false} TrackStart(units: seq<Picture>, ps: seq<Sent>, base: int, first: Numbered)
    requires Stream(units, ps) && WasSent(ps, base, first) && Digestible(first.pkt)
    ensures TrackedAt(IngestOrdered(INITIAL, first.pkt), units, ps, base, first.num)
  {
    var p := ps[first.num - base];
    FirstPacket(units, p, first.num, first.pkt);
    assert Traced(INITIAL.committed, [], units, 0);
    StaysTraceable(INITIAL, IngestOrdered(INITIAL, first.pkt), units, 0, p);
    assert LeftAt(ps, first.num - base, After(p));
  }

  lemma {:induction false} TrackOn(s: Extractor, units: seq<Picture>, ps: seq<Sent>, base: int, num: int, next: Numbered)
    requires Stream(units, ps) && TrackedAt(s, units, ps, base, num)
    requires num < next.num && (next.num == num + 1 || CheckSeqGap(s, next.pkt.number).1)
    requires WasSent(ps, base, next) && Digestible(next.pkt)
    ensures TrackedAt(IngestOrdered(s, next.pkt), units, ps, base, next.num)
  {
    var at :| Good(s, units, at) && Traceable(s.committed, units, at.unit) && LeftAt(ps, num - base, at);
    var p := ps[next.num - base];
    Onwards(units, ps, num - base, at, next.num - base);
    NextPacket(s, units, at, p, next.num, next.pkt);
    StaysTraceable(s, IngestOrdered(s, next.pkt), units, at.unit, p);
    assert LeftAt(ps, next.num - base, After(p));
  }

  lemma {:induction false} SentDigestible(ps: seq<Sent>, base: int, n: Numbered)
    requires WasSent(ps, base, n)
    ensures Digestible(n.pkt)
  {
    CarriedIsDigestible(n.pkt, ps[n.num - base], n.num);
  }

  lemma {:induction false} WasSentDigestible(ps: seq<Sent>, base: int, e: seq<Numbered>)
    requires forall i :: 0 <= i < |e| ==> WasSent(ps, base, e[i])
    ensures AllDigestible(e)
  {
    forall i | 0 <= i < |e| ensures Digestible(e[i].pkt) {
      SentDigestible(ps, base, e[i]);
    }
  }

  lemma {:induction false} SameCount(e: seq<Numbered>, n: nat)
    requires AllDigestible(e) && n <= |e|
    requires forall i :: 0 <= i < |e| ==> e[i].pkt.number == Wrap(e[i].num)
    ensures SameCounter(Ingested(e, n), Counted(e[..n]))
  {
    if n > 0 {
      SameCount(e, n - 1);
      assert e[..n][..n - 1] == e[..n - 1];
      DispatchKeepsCounter(NoteGap(Ingested(e, n - 1), e[n - 1].pkt), e[n - 1].pkt);
    }
  }

  lemma {:induction false} SameCheck(s: Extractor, s': Extractor, number: uint16)
    requires SameCounter(s, s')
    ensures CheckSeqGap(s, number).1 == CheckSeqGap(s', number).1
  {
  }

  lemma {:induction false} NoticedInRun(ps: seq<Sent>, base: int, e: seq<Numbered>, n: nat)
    requires Received(ps, base, e) && AllDigestible(e) && 0 < n < |e|
    ensures e[n - 1].num < e[n].num && (e[n].num == e[n - 1].num + 1 || CheckSeqGap(Ingested(e, n), e[n].pkt.number).1)
  {
    forall i | 0 <= i < |e| ensures e[i].pkt.number == Wrap(e[i].num) {
      assert WasSent(ps, base, e[i]);
    }
    SameCount(e, n);
    SameCheck(Ingested(e, n), Counted(e[..n]), e[n].pkt.number);
    assert !Overlooks(e, n);
  }

  lemma {:induction false} TrackNext(units: seq<Picture>, ps: seq<Sent>, base: int, e: seq<Numbered>, n: nat)
    requires Stream(units, ps) && Received(ps, base, e) && AllDigestible(e) && 0 < n < |e|
    requires TrackedAt(Ingested(e, n), units, ps, base, e[n - 1].num)
    ensures TrackedAt(IngestOrdered(Ingested(e, n), e[n].pkt), units, ps, base, e[n].num)
  {
    assert WasSent(ps, base, e[n]);
    NoticedInRun(ps, base, e, n);
    TrackOn(Ingested(e, n), units, ps, base, e[n - 1].num, e[n]);
  }

  lemma {:induction false} TrackedSoFar(units: seq<Picture>, ps: seq<Sent>, base: int, e: seq<Numbered>, m: nat)
    requires Stream(units, ps) && Received(ps, base, e) && AllDigestible(e) && 0 < m <= |e|
    ensures TrackedAt(Ingested(e, m), units, ps, base, e[m - 1].num)
  {
    if m == 1 {
      assert Ingested(e, 0) == INITIAL && WasSent(ps, base, e[0]);
      TrackStart(units, ps, base, e[0]);
    } else {
      TrackedSoFar(units, ps, base, e, m - 1);
      TrackNext(units, ps, base, e, m - 1);
    }
  }

  lemma {:induction false} AllTracked(units: seq<Picture>, ps: seq<Sent>, base: int, e: seq<Numbered>)
    requires Stream(units, ps) && Received(ps, base, e) && AllDigestible(e) && e != []
    ensures TrackedAt(Ingested(e, |e|), units, ps, base, e[|e| - 1].num)
  {
    TrackedSoFar(units, ps, base, e, |e|);
  }

  lemma {:induction false} TrackedWithin(s: Extractor, units: seq<Picture>, ps: seq<Sent>, base: int, num: int)
    requires Stream(units, ps) && TrackedAt(s, units, ps, base, num)
    ensures Traceable(s.committed, units, |units|)
  {
    var at :| Good(s, units, at) && Traceable(s.committed, units, at.unit) && LeftAt(ps, num - base, at);
    LimitInStream(units, ps, num - base, at);
    TraceWithin(s.committed, units, at.unit);
  }

  /** Whatever is lost, as long as the gap check overlooks no hole: every committed picture is a non-empty suffix of one
      access unit, byte for byte, and of a later one each time. */
  lemma {:induction false} CommittedAreSuffixes(units: seq<Picture>, ps: seq<Sent>, base: int, e: seq<Numbered>)
    requires Stream(units, ps) && Received(ps, base, e) && AllDigestible(e)
    ensures Traceable(Ingested(e, |e|).committed, units, |units|)
  {
    if e == [] {
      assert Traced(Ingested(e, 0).committed, [], units, |units|);
    } else {
      AllTracked(units, ps, base, e);
      TrackedWithin(Ingested(e, |e|), units, ps, base, e[|e| - 1].num);
    }
  }

  lemma {:induction false} TraceWithin(pictures: seq<Picture>, units: seq<Picture>, limit: nat)
    requires Traceable(pictures, units, limit) && limit <= |units|
    ensures Traceable(pictures, units, |units|)
  {
    var owners :| Traced(pictures, owners, units, limit);
    assert Traced(pictures, owners, units, |units|);
  }

  lemma {:induction false} LimitInStream(units: seq<Picture>, ps: seq<Sent>, j: int, at: Place)
    requires Stream(units, ps) && LeftAt(ps, j, at)
    ensures at.unit <= |units|
  {
    if j < |ps| - 1 {
      assert After(ps[j]) == Before(ps[j + 1]);
    }
  }

  ghost predicate AllDigestible(e: seq<Numbered>) {
    forall i {:trigger Digestible(e[i].pkt)} :: 0 <= i < |e| ==> Digestible(e[i].pkt)
  }

  /** The extractor after the first `n` packets of `e`. */
  ghost function Ingested(e: seq<Numbered>, n: nat): Extractor
    requires n <= |e| && AllDigestible(e)
  {
    if n == 0 then INITIAL else IngestOrdered(Ingested(e, n - 1), e[n - 1].pkt)
  }
}
