/** What losses cost: after one, everything from the next access unit but one on is committed again. */
module Recovery {
  import opened SequenceNumbers
  import opened Rtp
  import opened Resequencing
  import opened Depacketizer
  import opened Packetization
  import opened PictureIntegrity
  import opened LossyStreams
  import opened RoundTrip

  /** The picture under assembly is marked; a reassembly is under way wherever the sender is within a NAL. */
  ghost predicate Spoilt(s: Extractor, at: Place) {
    s.corrupted && (at.part.Begun? ==> s.fua.Partial?)
  }

  lemma {:induction false} SpoiltFinish(s: Extractor, units: seq<Picture>, to: Place, marker: bool)
    requires s.corrupted && s.picBuf != [] && to.part.Nothing? && (marker ==> to.done == 0)
    ensures var s' := Finish(s, marker);
      s'.committed == s.committed && if marker then Exact(s', units, to) else Spoilt(s', to)
  {
  }

  /** The marked picture is dropped with the last packet of its unit, and not before. */
  lemma {:induction false} SpoiltTake(s: Extractor, units: seq<Picture>, p: Sent)
    requires Fits(units, p) && Spoilt(s, Before(p))
    ensures var s' := Take(s, p.content, p.marker);
      s'.committed == s.committed && if p.marker then Exact(s', units, After(p)) else Spoilt(s', After(p))
  {
    match p.content
    case Whole(nal) => SpoiltFinish(Append(s, nal), units, After(p), p.marker);
    case Bundle(_, nals) =>
      AppendAllEffect(s, nals);
      SpoiltFinish(AppendAll(s, nals), units, After(p), p.marker);
    case Piece(nal, _, piece, first, last) =>
      if last {
        SpoiltFinish(Append(s.(fua := NoFragment), s.fua.data + piece), units, After(p), p.marker);
      }
    case Padding =>
  }

  /** Since a stretch without holes began, with `before` committed: the units from number `first` on. */
  ghost predicate Since(s: Extractor, units: seq<Picture>, first: nat, before: seq<Picture>, at: Place) {
    if at.unit < first then Spoilt(s, at) && s.committed == before
    else Exact(s, units, at) && at.unit <= |units| && s.committed == before + units[first..at.unit]
  }

  lemma {:induction false} SinceTake(s: Extractor, s': Extractor, units: seq<Picture>, first: nat, before: seq<Picture>, p: Sent)
    requires Fits(units, p) && Since(s, units, first, before, Before(p)) && s' == Take(s, p.content, p.marker)
    requires first <= p.unit + 1
    requires Advances(s, s', units, Before(p), After(p), p.marker)
    ensures Since(s', units, first, before, After(p))
  {
    if p.unit < first {
      SpoiltTake(s, units, p);
      assert units[first..first] == [];
    } else if p.marker {
      assert units[first..p.unit + 1] == units[first..p.unit] + [units[p.unit]];
    }
  }

  lemma {:induction false} SinceStep(s: Extractor, units: seq<Picture>, first: nat, before: seq<Picture>, p: Sent, number: int, pkt: RtpPacket)
    requires Fits(units, p) && Carries(pkt, p, number) && Digestible(pkt) && first <= p.unit + 1
    requires Since(NoteGap(s, pkt), units, first, before, Before(p))
    ensures Since(IngestOrdered(s, pkt), units, first, before, After(p))
  {
    var s1 := NoteGap(s, pkt);
    DispatchReads(s1, pkt, p, number);
    DispatchAdvances(s1, units, pkt, p, number);
    SinceTake(s1, Dispatch(s1, pkt), units, first, before, p);
  }

  /** A packet that follows on leaves everything as it is until it is dispatched. */
  lemma {:induction false} SinceNoted(s: Extractor, units: seq<Picture>, first: nat, before: seq<Picture>, at: Place, number: int, pkt: RtpPacket)
    requires Since(s, units, first, before, at) && pkt.number == Wrap(number) && Expects(s, number)
    ensures Since(NoteGap(s, pkt), units, first, before, at)
  {
    NoGapNoted(s, number, pkt);
  }

  // ---- Where a stretch begins ----

  /** Nothing is buffered that the next unit could be mixed up with: neither NALs, nor, if a hole comes before it, a
      reassembly. */
  predicate Ready(s: Extractor, hole: bool) {
    s.picBuf == [] && !s.corrupted && !(hole && s.fua.Partial?)
  }

  lemma {:induction false} SinceBegins(s: Extractor, units: seq<Picture>, unit: nat, pkt: RtpPacket)
    requires unit < |units| && Good(NoteGap(s, pkt), units, Place(unit, 0, Nothing))
    ensures var first := if Ready(s, CheckSeqGap(s, pkt.number).1) then unit else unit + 1;
      Since(NoteGap(s, pkt), units, first, s.committed, Place(unit, 0, Nothing))
  {
    assert units[unit..unit] == [] && s.committed + [] == s.committed;
  }

  lemma {:induction false} HoleNoticed(e: seq<Numbered>, a: nat)
    requires GapsReadable(e) && AllDigestible(e) && a < |e| && forall i :: 0 <= i < |e| ==> e[i].pkt.number == Wrap(e[i].num)
    ensures CheckSeqGap(Ingested(e, a), e[a].pkt.number).1 <==> HoleBefore(e, a)
    ensures a > 0 ==> Expects(Ingested(e, a), e[a - 1].num + 1)
  {
    SameCount(e, a);
    SameCheck(Ingested(e, a), Counted(e[..a]), e[a].pkt.number);
    if a > 0 {
      assert 0 < e[a - 1 + 1].num - e[a - 1].num < 0x8000;
      assert GapsReadable(e[..a]);
      CounterExact(e[..a]);
      DeltaOfNumbers(e[a - 1].num, e[a].num);
    }
  }

  predicate HoleBefore(e: seq<Numbered>, a: nat)
    requires a < |e|
  {
    a > 0 && e[a].num != e[a - 1].num + 1
  }

  lemma {:induction false} Expected(e: seq<Numbered>, a: nat)
    requires GapsReadable(e) && AllDigestible(e) && a < |e| && forall i :: 0 <= i < |e| ==> e[i].pkt.number == Wrap(e[i].num)
    ensures Expects(Ingested(e, a + 1), e[a].num + 1)
  {
    SameCount(e, a + 1);
    assert GapsReadable(e[..a + 1]);
    CounterExact(e[..a + 1]);
  }

  /** Packet `i` is the stream's, and less than 32768 numbers behind the one before it. */
  ghost predicate ArrivesAt(ps: seq<Sent>, base: int, e: seq<Numbered>, i: nat) {
    i < |e| && WasSent(ps, base, e[i]) && (i > 0 ==> 0 < e[i].num - e[i - 1].num < 0x8000)
  }

  ghost predicate Arrives(ps: seq<Sent>, base: int, e: seq<Numbered>) {
    forall i {:trigger ArrivesAt(ps, base, e, i)} :: 0 <= i < |e| ==> ArrivesAt(ps, base, e, i)
  }

  lemma {:induction false} ArrivesReadable(ps: seq<Sent>, base: int, e: seq<Numbered>)
    requires Arrives(ps, base, e)
    ensures GapsReadable(e) && forall i :: 0 <= i < |e| ==> e[i].pkt.number == Wrap(e[i].num)
  {
    forall i | 0 <= i < |e| - 1 ensures 0 < e[i + 1].num - e[i].num < 0x8000 {
      assert ArrivesAt(ps, base, e, i + 1);
    }
    forall i | 0 <= i < |e| ensures e[i].pkt.number == Wrap(e[i].num) {
      assert ArrivesAt(ps, base, e, i);
    }
  }

  lemma {:induction false} ArrivesReceived(ps: seq<Sent>, base: int, e: seq<Numbered>)
    requires Arrives(ps, base, e)
    ensures Received(ps, base, e)
  {
    ArrivesReadable(ps, base, e);
    ReadableGapsSeen(e);
    forall i | 0 <= i < |e| ensures WasSent(ps, base, e[i]) {
      assert ArrivesAt(ps, base, e, i);
    }
  }

  lemma {:induction false} HoleKnown(ps: seq<Sent>, base: int, e: seq<Numbered>, a: nat)
    requires Arrives(ps, base, e) && AllDigestible(e) && a < |e|
    ensures CheckSeqGap(Ingested(e, a), e[a].pkt.number).1 <==> HoleBefore(e, a)
    ensures Expects(Ingested(e, a + 1), e[a].num + 1)
  {
    ArrivesReadable(ps, base, e);
    HoleNoticed(e, a);
    Expected(e, a);
  }

  lemma {:induction false} GoodAgain(s: Extractor, units: seq<Picture>, ps: seq<Sent>, base: int, num: int, next: Numbered)
    requires Stream(units, ps) && TrackedAt(s, units, ps, base, num) && WasSent(ps, base, next)
    requires num < next.num && (next.num == num + 1 || CheckSeqGap(s, next.pkt.number).1)
    ensures Good(NoteGap(s, next.pkt), units, Before(ps[next.num - base]))
  {
    var at :| Good(s, units, at) && Traceable(s.committed, units, at.unit) && LeftAt(ps, num - base, at);
    Onwards(units, ps, num - base, at, next.num - base);
    GapNoted(s, units, at, Before(ps[next.num - base]), next.pkt);
  }

  lemma {:induction false} GoodWhenReceived(units: seq<Picture>, ps: seq<Sent>, base: int, e: seq<Numbered>, a: nat)
    requires Stream(units, ps) && Received(ps, base, e) && AllDigestible(e) && 0 < a < |e|
    ensures 0 <= e[a].num - base < |ps| && Good(NoteGap(Ingested(e, a), e[a].pkt), units, Before(ps[e[a].num - base]))
  {
    assert WasSent(ps, base, e[a]);
    TrackedSoFar(units, ps, base, e, a);
    NoticedInRun(ps, base, e, a);
    GoodAgain(Ingested(e, a), units, ps, base, e[a - 1].num, e[a]);
  }

  lemma {:induction false} GoodAt(units: seq<Picture>, ps: seq<Sent>, base: int, e: seq<Numbered>, a: nat)
    requires Stream(units, ps) && Arrives(ps, base, e) && AllDigestible(e) && a < |e|
    ensures 0 <= e[a].num - base < |ps| && Good(NoteGap(Ingested(e, a), e[a].pkt), units, Before(ps[e[a].num - base]))
  {
    if a == 0 {
      assert ArrivesAt(ps, base, e, 0);
      assert Fits(units, ps[e[0].num - base]);
      GapMarks(INITIAL, units, Before(ps[e[0].num - base]), e[0].pkt);
    } else {
      ArrivesReceived(ps, base, e);
      GoodWhenReceived(units, ps, base, e, a);
    }
  }

  // ---- The stretch ----

  ghost predicate InRow(e: seq<Numbered>, a: nat, k: nat) {
    a < |e| && k < |e| && e[k].num == e[a].num + k - a
  }

  /** From packet `a` on, which is the stream's packet `j` and the first of unit `unit`, `n` packets arrive without a hole. */
  ghost predicate Stretch(units: seq<Picture>, ps: seq<Sent>, base: int, e: seq<Numbered>, a: nat, n: nat, unit: nat, j: nat) {
    && a + n <= |e| && n > 0
    && (forall k :: a <= k < a + n ==> InRow(e, a, k))
    && e[a].num == base + j && j < |ps| && Before(ps[j]) == Place(unit, 0, Nothing)
  }

  ghost predicate SinceAt(s: Extractor, units: seq<Picture>, ps: seq<Sent>, first: nat, before: seq<Picture>, j: nat) {
    j <= |ps| && exists at :: at == PlaceAt(units, ps, j) && Since(s, units, first, before, at)
  }

  /** Packet `j` of the stream is on the wire, and no more than one unit before those to be committed. */
  ghost predicate OnTheWire(units: seq<Picture>, ps: seq<Sent>, base: int, first: nat, j: nat, pkt: RtpPacket) {
    && j < |ps| && Fits(units, ps[j]) && After(ps[j]) == PlaceAt(units, ps, j + 1) && first <= ps[j].unit + 1
    && Carries(pkt, ps[j], base + j) && Digestible(pkt)
  }

  lemma {:induction false} SinceOn(s: Extractor, units: seq<Picture>, ps: seq<Sent>, base: int, first: nat, before: seq<Picture>, j: nat, pkt: RtpPacket)
    requires OnTheWire(units, ps, base, first, j, pkt) && Since(NoteGap(s, pkt), units, first, before, Before(ps[j]))
    ensures SinceAt(IngestOrdered(s, pkt), units, ps, first, before, j + 1)
  {
    SinceStep(s, units, first, before, ps[j], base + j, pkt);
  }

  lemma {:induction false} ExpectsNext(s: Extractor, number: int, pkt: RtpPacket)
    requires pkt.number == Wrap(number) && Expects(s, number) && Digestible(pkt)
    ensures Expects(IngestOrdered(s, pkt), number + 1)
  {
    NoGapNoted(s, number, pkt);
    DispatchKeepsCounter(NoteGap(s, pkt), pkt);
  }

  /** The extractor has come to packet `j`, and expects it. */
  ghost predicate Arrived(s: Extractor, units: seq<Picture>, ps: seq<Sent>, base: int, first: nat, before: seq<Picture>, j: nat) {
    exists number :: number == base + j && SinceAt(s, units, ps, first, before, j) && Expects(s, number)
  }

  lemma {:induction false} SinceFollows(s: Extractor, units: seq<Picture>, ps: seq<Sent>, base: int, first: nat, before: seq<Picture>, j: nat, pkt: RtpPacket)
    requires OnTheWire(units, ps, base, first, j, pkt) && Expects(s, base + j)
    requires Since(s, units, first, before, Before(ps[j]))
    ensures SinceAt(IngestOrdered(s, pkt), units, ps, first, before, j + 1)
  {
    SinceNoted(s, units, first, before, Before(ps[j]), base + j, pkt);
    SinceOn(s, units, ps, base, first, before, j, pkt);
  }

  lemma {:induction false} ArrivedAt(s: Extractor, units: seq<Picture>, ps: seq<Sent>, base: int, first: nat, before: seq<Picture>, j: nat, number: int)
    requires SinceAt(s, units, ps, first, before, j) && Expects(s, number) && number == base + j
    ensures Arrived(s, units, ps, base, first, before, j)
  {
  }

  lemma {:induction false} SinceNext(s: Extractor, units: seq<Picture>, ps: seq<Sent>, base: int, first: nat, before: seq<Picture>, j: nat, pkt: RtpPacket)
    requires OnTheWire(units, ps, base, first, j, pkt) && Arrived(s, units, ps, base, first, before, j)
    ensures Arrived(IngestOrdered(s, pkt), units, ps, base, first, before, j + 1)
  {
    ExpectsNext(s, base + j, pkt);
    SinceFollows(s, units, ps, base, first, before, j, pkt);
    ArrivedAt(IngestOrdered(s, pkt), units, ps, base, first, before, j + 1, base + j + 1);
  }

  lemma {:induction false} LaterUnit(units: seq<Picture>, ps: seq<Sent>, i: nat, j: nat)
    requires Stream(units, ps) && i <= j < |ps|
    ensures ps[i].unit <= ps[j].unit
  {
    if i < j {
      UnitsAscend(units, ps, i, j);
    }
  }

  /** The first unit of the stretch that is committed. */
  ghost function FirstCommitted(e: seq<Numbered>, a: nat, unit: nat): nat
    requires AllDigestible(e) && a < |e|
  {
    if Ready(Ingested(e, a), HoleBefore(e, a)) then unit else unit + 1
  }

  /** The states `ss` before and after each packet of the run `f`, which are the stream's packets from `j` on. */
  ghost predicate Runs(units: seq<Picture>, ps: seq<Sent>, base: int, first: nat, ss: seq<Extractor>, f: seq<RtpPacket>, j: nat) {
    && |ss| == |f| + 1
    && forall k {:trigger Stepped(units, ps, base, first, ss, f, j, k)} :: 0 <= k < |f| ==> Stepped(units, ps, base, first, ss, f, j, k)
  }

  ghost predicate Stepped(units: seq<Picture>, ps: seq<Sent>, base: int, first: nat, ss: seq<Extractor>, f: seq<RtpPacket>, j: nat, k: nat) {
    k < |f| && k + 1 < |ss| && OnTheWire(units, ps, base, first, j + k, f[k]) && ss[k + 1] == IngestOrdered(ss[k], f[k])
  }

  lemma {:induction false} SinceStepped(units: seq<Picture>, ps: seq<Sent>, base: int, first: nat, before: seq<Picture>, ss: seq<Extractor>, f: seq<RtpPacket>, j: nat, k: nat)
    requires Stepped(units, ps, base, first, ss, f, j, k) && Arrived(ss[k], units, ps, base, first, before, j + k)
    ensures Arrived(ss[k + 1], units, ps, base, first, before, j + k + 1)
  {
    SinceNext(ss[k], units, ps, base, first, before, j + k, f[k]);
  }

  lemma {:induction false} SinceThrough(units: seq<Picture>, ps: seq<Sent>, base: int, first: nat, before: seq<Picture>, ss: seq<Extractor>, f: seq<RtpPacket>, j: nat, m: nat)
    requires Runs(units, ps, base, first, ss, f, j) && 1 <= m <= |f| && Arrived(ss[1], units, ps, base, first, before, j + 1)
    ensures Arrived(ss[m], units, ps, base, first, before, j + m)
  {
    if m > 1 {
      SinceThrough(units, ps, base, first, before, ss, f, j, m - 1);
      assert Stepped(units, ps, base, first, ss, f, j, m - 1);
      SinceStepped(units, ps, base, first, before, ss, f, j, m - 1);
    }
  }

  lemma {:induction false} StreamOnTheWire(units: seq<Picture>, ps: seq<Sent>, base: int, j: nat, i: nat, first: nat, n: Numbered)
    requires Stream(units, ps) && j <= i < |ps| && first <= ps[j].unit + 1
    requires n.num == base + i && WasSent(ps, base, n) && Digestible(n.pkt)
    ensures OnTheWire(units, ps, base, first, i, n.pkt)
  {
    LaterUnit(units, ps, j, i);
    assert Fits(units, ps[i]);
    assert After(ps[i]) == PlaceAt(units, ps, i + 1);
  }

  /** Packet `k` of a stretch is the stream's packet `j + k`. */
  lemma {:induction false} StretchAt(units: seq<Picture>, ps: seq<Sent>, base: int, e: seq<Numbered>, a: nat, n: nat, unit: nat, j: nat, k: nat)
    requires Arrives(ps, base, e) && AllDigestible(e) && Stretch(units, ps, base, e, a, n, unit, j) && k < n
    ensures e[a + k].num == base + j + k && j + k < |ps| && WasSent(ps, base, e[a + k]) && Digestible(e[a + k].pkt) && ps[j].unit == unit
  {
    assert InRow(e, a, a + k) && ArrivesAt(ps, base, e, a + k);
  }

  lemma {:induction false} StretchAligned(units: seq<Picture>, ps: seq<Sent>, base: int, e: seq<Numbered>, a: nat, n: nat, unit: nat, j: nat, k: nat, first: nat)
    requires Stream(units, ps) && Arrives(ps, base, e) && AllDigestible(e) && Stretch(units, ps, base, e, a, n, unit, j) && k < n
    requires first <= unit + 1
    ensures OnTheWire(units, ps, base, first, j + k, e[a + k].pkt)
  {
    StretchAt(units, ps, base, e, a, n, unit, j, k);
    StreamOnTheWire(units, ps, base, j, j + k, first, e[a + k]);
  }

  lemma {:induction false} IngestedNext(e: seq<Numbered>, k: nat)
    requires AllDigestible(e) && k < |e|
    ensures Digestible(e[k].pkt) && Ingested(e, k + 1) == IngestOrdered(Ingested(e, k), e[k].pkt)
  {
  }

  ghost function States(e: seq<Numbered>, a: nat, n: nat): seq<Extractor>
    requires AllDigestible(e) && a + n <= |e|
  {
    seq(n + 1, k requires 0 <= k <= n => Ingested(e, a + k))
  }

  function Packets(e: seq<Numbered>, a: nat, n: nat): seq<RtpPacket>
    requires a + n <= |e|
  {
    seq(n, k requires 0 <= k < n => e[a + k].pkt)
  }

  lemma {:induction false} MakesStep(units: seq<Picture>, ps: seq<Sent>, base: int, first: nat, ss: seq<Extractor>, f: seq<RtpPacket>, j: nat, k: nat, s: Extractor, pkt: RtpPacket)
    requires Digestible(pkt) && k < |f| && k + 1 < |ss| && OnTheWire(units, ps, base, first, j + k, pkt)
    requires ss[k] == s && ss[k + 1] == IngestOrdered(s, pkt) && f[k] == pkt
    ensures Stepped(units, ps, base, first, ss, f, j, k)
  {
  }

  lemma {:induction false} StateAt(e: seq<Numbered>, a: nat, n: nat, k: nat)
    requires AllDigestible(e) && a + n <= |e| && k <= n
    ensures States(e, a, n)[k] == Ingested(e, a + k)
  {
  }

  lemma {:induction false} StatesAt(e: seq<Numbered>, a: nat, n: nat, k: nat)
    requires AllDigestible(e) && a + n <= |e| && k < n
    ensures var ss, f := States(e, a, n), Packets(e, a, n);
      && f[k] == e[a + k].pkt && Digestible(f[k]) && ss[k] == Ingested(e, a + k) && ss[k + 1] == IngestOrdered(ss[k], f[k])
  {
    IngestedNext(e, a + k);
    StateAt(e, a, n, k);
    StateAt(e, a, n, k + 1);
  }

  lemma {:induction false} IngestedStepped(units: seq<Picture>, ps: seq<Sent>, base: int, e: seq<Numbered>, a: nat, n: nat, j: nat, k: nat, first: nat)
    requires AllDigestible(e) && a + n <= |e| && k < n && OnTheWire(units, ps, base, first, j + k, e[a + k].pkt)
    ensures Stepped(units, ps, base, first, States(e, a, n), Packets(e, a, n), j, k)
  {
    StatesAt(e, a, n, k);
    MakesStep(units, ps, base, first, States(e, a, n), Packets(e, a, n), j, k, States(e, a, n)[k], e[a + k].pkt);
  }

  /** Packet `a + k` of the run is the stream's packet `j + k`. */
  ghost predicate InLine(units: seq<Picture>, ps: seq<Sent>, base: int, e: seq<Numbered>, a: nat, j: nat, first: nat, k: nat) {
    a + k < |e| && OnTheWire(units, ps, base, first, j + k, e[a + k].pkt)
  }

  ghost predicate AllInLine(units: seq<Picture>, ps: seq<Sent>, base: int, e: seq<Numbered>, a: nat, n: nat, j: nat, first: nat) {
    forall k: nat {:trigger InLine(units, ps, base, e, a, j, first, k)} :: k < n ==> InLine(units, ps, base, e, a, j, first, k)
  }

  lemma {:induction false} StretchInLine(units: seq<Picture>, ps: seq<Sent>, base: int, e: seq<Numbered>, a: nat, n: nat, unit: nat, j: nat, first: nat)
    requires Stream(units, ps) && Arrives(ps, base, e) && AllDigestible(e) && Stretch(units, ps, base, e, a, n, unit, j) && first <= unit + 1
    ensures AllInLine(units, ps, base, e, a, n, j, first)
  {
    forall k: nat {:trigger InLine(units, ps, base, e, a, j, first, k)} | k < n ensures InLine(units, ps, base, e, a, j, first, k) {
      StretchAligned(units, ps, base, e, a, n, unit, j, k, first);
    }
  }

  lemma {:induction false} IngestedRuns(units: seq<Picture>, ps: seq<Sent>, base: int, e: seq<Numbered>, a: nat, n: nat, j: nat, first: nat)
    requires AllDigestible(e) && a + n <= |e| && AllInLine(units, ps, base, e, a, n, j, first)
    ensures Runs(units, ps, base, first, States(e, a, n), Packets(e, a, n), j)
  {
    var ss, f := States(e, a, n), Packets(e, a, n);
    forall k {:trigger Stepped(units, ps, base, first, ss, f, j, k)} | 0 <= k < n ensures Stepped(units, ps, base, first, ss, f, j, k) {
      assert InLine(units, ps, base, e, a, j, first, k);
      IngestedStepped(units, ps, base, e, a, n, j, k, first);
    }
  }

  lemma {:induction false} Begins(s: Extractor, units: seq<Picture>, ps: seq<Sent>, base: int, unit: nat, j: nat, pkt: RtpPacket, hole: bool)
    requires hole == CheckSeqGap(s, pkt.number).1
    requires OnTheWire(units, ps, base, if Ready(s, hole) then unit else unit + 1, j, pkt)
    requires Good(NoteGap(s, pkt), units, Before(ps[j])) && Before(ps[j]) == Place(unit, 0, Nothing)
    ensures SinceAt(IngestOrdered(s, pkt), units, ps, if Ready(s, hole) then unit else unit + 1, s.committed, j + 1)
  {
    SinceBegins(s, units, unit, pkt);
    SinceOn(s, units, ps, base, if Ready(s, hole) then unit else unit + 1, s.committed, j, pkt);
  }

  lemma {:induction false} BeginsArrived(s: Extractor, units: seq<Picture>, ps: seq<Sent>, base: int, unit: nat, j: nat, pkt: RtpPacket, hole: bool)
    requires hole == CheckSeqGap(s, pkt.number).1
    requires OnTheWire(units, ps, base, if Ready(s, hole) then unit else unit + 1, j, pkt)
    requires Good(NoteGap(s, pkt), units, Before(ps[j])) && Before(ps[j]) == Place(unit, 0, Nothing)
    requires Expects(IngestOrdered(s, pkt), base + j + 1)
    ensures Arrived(IngestOrdered(s, pkt), units, ps, base, if Ready(s, hole) then unit else unit + 1, s.committed, j + 1)
  {
    Begins(s, units, ps, base, unit, j, pkt, hole);
    ArrivedAt(IngestOrdered(s, pkt), units, ps, base, if Ready(s, hole) then unit else unit + 1, s.committed, j + 1, base + j + 1);
  }

  lemma {:induction false} BeginsIngested(units: seq<Picture>, ps: seq<Sent>, base: int, e: seq<Numbered>, a: nat, unit: nat, j: nat)
    requires AllDigestible(e) && a < |e| && OnTheWire(units, ps, base, FirstCommitted(e, a, unit), j, e[a].pkt)
    requires Good(NoteGap(Ingested(e, a), e[a].pkt), units, Before(ps[j])) && Before(ps[j]) == Place(unit, 0, Nothing)
    requires CheckSeqGap(Ingested(e, a), e[a].pkt.number).1 <==> HoleBefore(e, a)
    requires Expects(Ingested(e, a + 1), base + j + 1)
    ensures Arrived(Ingested(e, a + 1), units, ps, base, FirstCommitted(e, a, unit), Ingested(e, a).committed, j + 1)
  {
    IngestedNext(e, a);
    BeginsArrived(Ingested(e, a), units, ps, base, unit, j, e[a].pkt, HoleBefore(e, a));
  }

  lemma {:induction false} StretchBegins(units: seq<Picture>, ps: seq<Sent>, base: int, e: seq<Numbered>, a: nat, n: nat, unit: nat, j: nat)
    requires Stream(units, ps) && Arrives(ps, base, e) && AllDigestible(e) && Stretch(units, ps, base, e, a, n, unit, j)
    ensures Arrived(Ingested(e, a + 1), units, ps, base, FirstCommitted(e, a, unit), Ingested(e, a).committed, j + 1)
  {
    StretchAligned(units, ps, base, e, a, n, unit, j, 0, FirstCommitted(e, a, unit));
    GoodAt(units, ps, base, e, a);
    HoleKnown(ps, base, e, a);
    BeginsIngested(units, ps, base, e, a, unit, j);
  }

  /** The units from `first` on, up to where the stream's packet `j` begins, have been committed. */
  ghost predicate Committed(s: Extractor, units: seq<Picture>, ps: seq<Sent>, first: nat, before: seq<Picture>, j: nat) {
    && j <= |ps| && PlaceAt(units, ps, j).unit <= |units|
    && s.committed == before + if first <= PlaceAt(units, ps, j).unit then units[first..PlaceAt(units, ps, j).unit] else []
  }

  lemma {:induction false} ArrivedCommitted(s: Extractor, units: seq<Picture>, ps: seq<Sent>, base: int, first: nat, before: seq<Picture>, j: nat)
    requires Arrived(s, units, ps, base, first, before, j) && first <= |units|
    ensures Committed(s, units, ps, first, before, j)
  {
  }

  lemma {:induction false} RunCommitted(units: seq<Picture>, ps: seq<Sent>, base: int, first: nat, before: seq<Picture>, ss: seq<Extractor>, f: seq<RtpPacket>, j: nat, s: Extractor, s': Extractor)
    requires Runs(units, ps, base, first, ss, f, j) && f != [] && ss[1] == s && ss[|f|] == s'
    requires Arrived(s, units, ps, base, first, before, j + 1) && first <= |units|
    ensures Committed(s', units, ps, first, before, j + |f|)
  {
    SinceThrough(units, ps, base, first, before, ss, f, j, |f|);
    ArrivedCommitted(ss[|f|], units, ps, base, first, before, j + |f|);
  }

  lemma {:induction false} IngestedThrough(units: seq<Picture>, ps: seq<Sent>, base: int, e: seq<Numbered>, a: nat, n: nat, j: nat, first: nat, before: seq<Picture>)
    requires AllDigestible(e) && a + n <= |e| && n > 0 && Runs(units, ps, base, first, States(e, a, n), Packets(e, a, n), j)
    requires Arrived(Ingested(e, a + 1), units, ps, base, first, before, j + 1)
    requires first <= |units|
    ensures Committed(Ingested(e, a + n), units, ps, first, before, j + n)
  {
    StateAt(e, a, n, 1);
    StateAt(e, a, n, n);
    RunCommitted(units, ps, base, first, before, States(e, a, n), Packets(e, a, n), j, Ingested(e, a + 1), Ingested(e, a + n));
  }

  lemma {:induction false} StretchUnit(units: seq<Picture>, ps: seq<Sent>, base: int, e: seq<Numbered>, a: nat, n: nat, unit: nat, j: nat)
    requires Stream(units, ps) && Stretch(units, ps, base, e, a, n, unit, j)
    ensures unit < |units|
  {
    assert Fits(units, ps[j]);
  }

  /** What is received without a hole from the beginning of access unit `unit` on is committed, whatever was lost before:
      every unit up to the place where the stretch ends, the first one exactly if nothing is left over that it would be
      mixed up with. After a loss, then, only the first unit received whole can be missing. */
  lemma {:induction false} StretchCommittedExactly(units: seq<Picture>, ps: seq<Sent>, base: int, e: seq<Numbered>, a: nat, n: nat, unit: nat, j: nat)
    requires Stream(units, ps) && Arrives(ps, base, e) && AllDigestible(e) && Stretch(units, ps, base, e, a, n, unit, j)
    ensures Committed(Ingested(e, a + n), units, ps, FirstCommitted(e, a, unit), Ingested(e, a).committed, j + n)
  {
    StretchUnit(units, ps, base, e, a, n, unit, j);
    StretchBegins(units, ps, base, e, a, n, unit, j);
    StretchInLine(units, ps, base, e, a, n, unit, j, FirstCommitted(e, a, unit));
    IngestedRuns(units, ps, base, e, a, n, j, FirstCommitted(e, a, unit));
    IngestedThrough(units, ps, base, e, a, n, j, FirstCommitted(e, a, unit), Ingested(e, a).committed);
  }
}
