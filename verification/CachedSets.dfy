/** Which parameter sets the recorder has cached: the last ones sent, or under loss the last ones received whole,
whichever kind of packet carried them. */
module CachedSets {
  import opened SequenceNumbers
  import opened Rtp
  import opened Resequencing
  import opened Depacketizer
  import opened Packetization
  import opened PictureIntegrity
  import opened LossyStreams
  import opened RoundTrip
  import opened KeyFrames

  /** The last NAL of a type, if any. */
  function LastOf(nals: seq<Nal>, nalType: int): seq<byte> {
    if nals == [] then []
    else if NalType(nals[|nals| - 1][0]) == nalType then nals[|nals| - 1]
    else LastOf(nals[..|nals| - 1], nalType)
  }

  lemma {:induction false} LastOfAppend(a: seq<Nal>, b: seq<Nal>, nalType: int)
    ensures LastOf(a + b, nalType) == if LastOf(b, nalType) != [] then LastOf(b, nalType) else LastOf(a, nalType)
  {
    if b == [] {
      assert a + b == a;
    } else {
      assert (a + b)[..|a + b| - 1] == a + b[..|b| - 1];
      LastOfAppend(a, b[..|b| - 1], nalType);
    }
  }

  lemma {:induction false} LastOfOne(nal: Nal, nalType: int)
    ensures LastOf([nal], nalType) == if NalType(nal[0]) == nalType then nal else []
  {
    assert [nal][..0] == [];
  }

  ghost predicate IsLast(nals: seq<Nal>, i: nat, nalType: int)
    requires i < |nals|
  {
    NalType(nals[i][0]) == nalType && forall k :: i < k < |nals| ==> NalType(nals[k][0]) != nalType
  }

  /** It is one of them, of that type, and no later one is; there is none only if none is of that type. */
  lemma {:induction false} LastOfMeans(nals: seq<Nal>, nalType: int)
    ensures LastOf(nals, nalType) == [] <==> forall i :: 0 <= i < |nals| ==> NalType(nals[i][0]) != nalType
    ensures LastOf(nals, nalType) != [] ==> exists i :: 0 <= i < |nals| && IsLast(nals, i, nalType) && LastOf(nals, nalType) == nals[i]
  {
    if nals != [] {
      var n := |nals| - 1;
      if NalType(nals[n][0]) == nalType {
        assert IsLast(nals, n, nalType);
      } else {
        LastOfMeans(nals[..n], nalType);
        if LastOf(nals, nalType) != [] {
          var i :| 0 <= i < n && IsLast(nals[..n], i, nalType) && LastOf(nals, nalType) == nals[..n][i];
          LastGrows(nals, i, nalType);
        }
      }
    }
  }

  lemma {:induction false} LastGrows(nals: seq<Nal>, i: nat, nalType: int)
    requires i < |nals| - 1 && IsLast(nals[..|nals| - 1], i, nalType) && NalType(nals[|nals| - 1][0]) != nalType
    ensures IsLast(nals, i, nalType)
  {
    forall k | i < k < |nals| ensures NalType(nals[k][0]) != nalType {
      if k < |nals| - 1 {
        assert nals[k] == nals[..|nals| - 1][k];
      }
    }
  }

  /** The caches hold the last sets of `nals`. */
  ghost predicate CachesLast(s: Extractor, nals: seq<Nal>) {
    s.sps == LastOf(nals, TYPE_SPS) && s.pps == LastOf(nals, TYPE_PPS)
  }

  /** What appending does to the caches. */
  lemma {:induction false} AppendCaches(s: Extractor, nals: seq<Nal>, nal: Nal)
    requires CachesLast(s, nals)
    ensures CachesLast(Append(s, nal), nals + [nal])
  {
    LastOfAppend(nals, [nal], TYPE_SPS);
    LastOfAppend(nals, [nal], TYPE_PPS);
    LastOfOne(nal, TYPE_SPS);
    LastOfOne(nal, TYPE_PPS);
  }

  lemma {:induction false} AppendAllCaches(s: Extractor, nals: seq<Nal>, more: seq<Nal>)
    requires CachesLast(s, nals)
    ensures CachesLast(AppendAll(s, more), nals + more)
    decreases |more|
  {
    if more == [] {
      assert nals + more == nals;
    } else {
      AppendCaches(s, nals, more[0]);
      AppendAllCaches(Append(s, more[0]), nals + [more[0]], more[1..]);
      assert nals + [more[0]] + more[1..] == nals + more;
    }
  }

  lemma {:induction false} FinishCaches(s: Extractor, nals: seq<Nal>, marker: bool)
    requires CachesLast(s, nals)
    ensures CachesLast(Finish(s, marker), nals)
  {
  }

  // ---- Without loss: the last sets sent ----

  function Flat(units: seq<Picture>): seq<Nal> {
    if units == [] then [] else Flat(units[..|units| - 1]) + units[|units| - 1]
  }

  /** The NALs a packet completes, if nothing before it was lost. */
  function Completes(c: Content): seq<Nal> {
    match c
    case Whole(nal) => [nal]
    case Bundle(_, nals) => nals
    case Piece(nal, _, _, _, last) => if last then [nal] else []
    case Padding => []
  }

  lemma {:induction false} TakeCaches(s: Extractor, units: seq<Picture>, p: Sent, nals: seq<Nal>)
    requires Fits(units, p) && Exact(s, units, Before(p)) && CachesLast(s, nals)
    ensures CachesLast(Take(s, p.content, p.marker), nals + Completes(p.content))
  {
    match p.content
    case Whole(nal) =>
      AppendCaches(s, nals, nal);
      FinishCaches(Append(s, nal), nals + [nal], p.marker);
    case Bundle(_, more) =>
      AppendAllCaches(s, nals, more);
      FinishCaches(AppendAll(s, more), nals + more, p.marker);
    case Piece(nal, sofar, piece, first, last) => PieceCaches(s, nal, sofar, piece, first, last, p.marker, nals);
    case Padding => assert nals + [] == nals;
  }

  lemma {:induction false} PieceCaches(s: Extractor, nal: Nal, sofar: seq<byte>, piece: seq<byte>, first: bool, last: bool, marker: bool, nals: seq<Nal>)
    requires CachesLast(s, nals) && (first ==> sofar == []) && (!first ==> s.fua == Partial([nal[0]] + sofar))
    requires last ==> [nal[0]] + sofar + piece == nal
    ensures CachesLast(TakePiece(s, nal, piece, first, last, marker), nals + if last then [nal] else [])
  {
    assert [nal[0]] + [] == [nal[0]];
    if last {
      var s0 := s.(fua := NoFragment);
      AppendCaches(s0, nals, nal);
      FinishCaches(Append(s0, nal), nals + [nal], marker);
    } else {
      assert nals + [] == nals;
    }
  }

  /** The NALs completed by the first `n` packets. */
  function Completed(ps: seq<Sent>, n: nat): seq<Nal>
    requires n <= |ps|
  {
    if n == 0 then [] else Completed(ps, n - 1) + Completes(ps[n - 1].content)
  }

  /** What a place of the stream has behind it. */
  function Behind(units: seq<Picture>, at: Place): seq<Nal>
    requires at.unit <= |units| && at.done <= |UnitAt(units, at.unit)|
  {
    Flat(units[..at.unit]) + UnitAt(units, at.unit)[..at.done]
  }

  ghost predicate Within(units: seq<Picture>, at: Place) {
    at.unit <= |units| && at.done <= |UnitAt(units, at.unit)|
  }

  lemma {:induction false} CompletesNext(units: seq<Picture>, p: Sent)
    requires Fits(units, p)
    ensures var unit, next := units[p.unit], p.done + |Completes(p.content)|;
      && next <= |unit| && unit[..p.done] + Completes(p.content) == unit[..next]
      && After(p).unit == (if p.marker then p.unit + 1 else p.unit) && After(p).done == (if p.marker then 0 else next)
      && (p.marker ==> next == |unit|)
  {
  }

  lemma {:induction false} FlatNext(units: seq<Picture>, k: nat)
    requires k < |units|
    ensures Flat(units[..k + 1]) == Flat(units[..k]) + units[k]
  {
    assert units[..k + 1][..k] == units[..k];
  }

  lemma {:induction false} BehindNext(units: seq<Picture>, p: Sent)
    requires Fits(units, p)
    ensures Within(units, Before(p)) && Within(units, After(p))
    ensures Behind(units, After(p)) == Behind(units, Before(p)) + Completes(p.content)
  {
    CompletesNext(units, p);
    BehindMore(units, p.unit, p.done, Completes(p.content));
    if p.marker {
      BehindUnit(units, p.unit);
    }
  }

  lemma {:induction false} BehindMore(units: seq<Picture>, k: nat, done: nat, more: seq<Nal>)
    requires k < |units| && done + |more| <= |units[k]| && units[k][..done] + more == units[k][..done + |more|]
    ensures Flat(units[..k]) + units[k][..done] + more == Flat(units[..k]) + units[k][..done + |more|]
  {
  }

  /** The end of a unit has the same NALs behind it as the beginning of the next. */
  lemma {:induction false} BehindUnit(units: seq<Picture>, k: nat)
    requires k < |units|
    ensures Flat(units[..k + 1]) + UnitAt(units, k + 1)[..0] == Flat(units[..k]) + units[k][..|units[k]|]
  {
    FlatNext(units, k);
    assert units[k][..|units[k]|] == units[k];
  }

  /** The NALs of a stream's packets are the NALs of its units, in order. */
  lemma {:induction false} CompletedSoFar(units: seq<Picture>, ps: seq<Sent>, n: nat)
    requires Stream(units, ps) && n <= |ps|
    ensures Within(units, PlaceAt(units, ps, n)) && Completed(ps, n) == Behind(units, PlaceAt(units, ps, n))
  {
    if n == 0 {
      assert Behind(units, Place(0, 0, Nothing)) == [];
    } else {
      CompletedSoFar(units, ps, n - 1);
      BehindNext(units, ps[n - 1]);
      assert After(ps[n - 1]) == PlaceAt(units, ps, n);
    }
  }

  lemma {:induction false} CompletedAll(units: seq<Picture>, ps: seq<Sent>)
    requires Stream(units, ps)
    ensures Completed(ps, |ps|) == Flat(units)
  {
    CompletedSoFar(units, ps, |ps|);
    assert units[..|units|] == units;
  }

  lemma {:induction false} LosslessNext(s: Extractor, units: seq<Picture>, p: Sent, number: int, pkt: RtpPacket, nals: seq<Nal>)
    requires Fits(units, p) && Carries(pkt, p, number) && Digestible(pkt)
    requires Expects(s, number) && Exact(s, units, Before(p)) && CachesLast(s, nals)
    ensures CachesLast(IngestOrdered(s, pkt), nals + Completes(p.content))
  {
    NoGapNoted(s, number, pkt);
    DispatchReads(NoteGap(s, pkt), pkt, p, number);
    TakeCaches(NoteGap(s, pkt), units, p, nals);
  }

  ghost predicate HasSent(s: Extractor, ps: seq<Sent>, n: nat)
    requires n <= |ps|
  {
    exists nals :: nals == Completed(ps, n) && CachesLast(s, nals)
  }

  lemma {:induction false} InStepGives(s: Extractor, units: seq<Picture>, ps: seq<Sent>, base: int, k: nat)
    requires k < |ps| && InStep(s, units, ps, base, k)
    ensures Exact(s, units, Before(ps[k])) && Expects(s, base + k)
  {
  }

  lemma {:induction false} LosslessStep(s: Extractor, units: seq<Picture>, ps: seq<Sent>, base: int, k: nat, pkt: RtpPacket)
    requires k < |ps| && Fits(units, ps[k]) && Carries(pkt, ps[k], base + k) && Digestible(pkt)
    requires InStep(s, units, ps, base, k) && HasSent(s, ps, k)
    ensures HasSent(IngestOrdered(s, pkt), ps, k + 1)
  {
    InStepGives(s, units, ps, base, k);
    LosslessNext(s, units, ps[k], base + k, pkt, Completed(ps, k));
  }

  lemma {:induction false} LosslessSoFar(units: seq<Picture>, ps: seq<Sent>, base: int, e: seq<Numbered>, n: nat)
    requires Stream(units, ps) && Lossless(ps, base, e) && AllDigestible(e) && n <= |e|
    ensures HasSent(Ingested(e, n), ps, n)
  {
    assert CachesLast(INITIAL, Completed(ps, 0));
    var k := 0;
    while k < n
      invariant 0 <= k <= n && HasSent(Ingested(e, k), ps, k)
    {
      MirrorRun(units, ps, base, e, k);
      assert Carries(e[k].pkt, ps[k], base + k);
      LosslessStep(Ingested(e, k), units, ps, base, k, e[k].pkt);
      k := k + 1;
    }
  }

  /** After a whole stream without loss: cached are the last SPS and the last PPS sent, in single packets, aggregates or
      fragments alike, and the key frame is those two followed by the last access unit with an IDR slice. */
  lemma {:induction false} LastSetsCached(units: seq<Picture>, ps: seq<Sent>, base: int, e: seq<Numbered>)
    requires Stream(units, ps) && Lossless(ps, base, e) && AllDigestible(e)
    ensures var s := Ingested(e, |e|); var sps, pps := LastOf(Flat(units), TYPE_SPS), LastOf(Flat(units), TYPE_PPS);
      && s.sps == sps && s.pps == pps
      && KeyFrameNals(s) == if LastIdr(units) == [] then [] else IfAny(sps) + IfAny(pps) + LastIdr(units)
  {
    LosslessSoFar(units, ps, base, e, |e|);
    CompletedAll(units, ps);
    LosslessCommitsAll(units, ps, base, e);
    IdrStaysCurrent(e, |e|);
  }

  // ---- Under loss: the last sets received whole ----

  /** The NALs that one packet carries whole. */
  function InOnePiece(c: Content): seq<Nal> {
    match c
    case Whole(nal) => [nal]
    case Bundle(_, nals) => nals
    case Piece(_, _, _, _, _) => []
    case Padding => []
  }

  function ContentAt(ps: seq<Sent>, j: int): Content {
    if 0 <= j < |ps| then ps[j].content else Padding
  }

  /** Those of the first `n` packets that arrived. */
  function ReceivedWhole(ps: seq<Sent>, base: int, e: seq<Numbered>, n: nat): seq<Nal>
    requires n <= |e|
  {
    if n == 0 then [] else ReceivedWhole(ps, base, e, n - 1) + InOnePiece(ContentAt(ps, e[n - 1].num - base))
  }

  /** No reassembly under way is of a parameter set. */
  ghost predicate CachesReceived(s: Extractor, nals: seq<Nal>) {
    CachesLast(s, nals) && (s.fua.Partial? ==> !IsParameterSet(s.fua.data[0]))
  }

  lemma {:induction false} PieceKeepsReceived(s: Extractor, nal: Nal, piece: seq<byte>, first: bool, last: bool, marker: bool, nals: seq<Nal>)
    requires CachesReceived(s, nals) && !IsParameterSet(nal[0])
    ensures CachesReceived(TakePiece(s, nal, piece, first, last, marker), nals)
  {
    var fua := if first then Partial([nal[0]]) else s.fua;
    if fua.Partial? && last {
      var whole := fua.data + piece;
      FinishCaches(Append(s.(fua := NoFragment), whole), nals, marker);
    }
  }

  lemma {:induction false} NalReceives(s: Extractor, nal: Nal, marker: bool, nals: seq<Nal>)
    requires CachesReceived(s, nals)
    ensures CachesReceived(AddNal(s, nal, marker), nals + [nal])
  {
    AppendCaches(s, nals, nal);
    FinishCaches(Append(s, nal), nals + [nal], marker);
  }

  lemma {:induction false} BundleReceives(s: Extractor, more: seq<Nal>, marker: bool, nals: seq<Nal>)
    requires CachesReceived(s, nals)
    ensures CachesReceived(Finish(AppendAll(s, more), marker), nals + more)
  {
    AppendAllCaches(s, nals, more);
    AppendAllEffect(s, more);
    FinishCaches(AppendAll(s, more), nals + more, marker);
  }

  lemma {:induction false} TakeReceives(s: Extractor, c: Content, marker: bool, nals: seq<Nal>)
    requires CachesReceived(s, nals) && (c.Piece? ==> !IsParameterSet(c.nal[0]))
    ensures CachesReceived(Take(s, c, marker), nals + InOnePiece(c))
  {
    match c
    case Whole(nal) => NalReceives(s, nal, marker, nals);
    case Bundle(_, more) => BundleReceives(s, more, marker, nals);
    case Piece(nal, _, piece, first, last) =>
      assert nals + [] == nals;
      PieceKeepsReceived(s, nal, piece, first, last, marker, nals);
    case Padding => assert nals + [] == nals;
  }

  lemma {:induction false} IngestedIsTaken(s: Extractor, pkt: RtpPacket, p: Sent, number: int)
    requires Carries(pkt, p, number) && Digestible(pkt)
    ensures IngestOrdered(s, pkt) == Take(NoteGap(s, pkt), p.content, p.marker)
  {
    DispatchReads(NoteGap(s, pkt), pkt, p, number);
  }

  lemma {:induction false} NoteGapReceives(s: Extractor, pkt: RtpPacket, nals: seq<Nal>)
    requires CachesReceived(s, nals)
    ensures CachesReceived(NoteGap(s, pkt), nals)
  {
  }

  lemma {:induction false} PacketReceives(s: Extractor, pkt: RtpPacket, p: Sent, number: int, nals: seq<Nal>)
    requires Carries(pkt, p, number) && Digestible(pkt) && (p.content.Piece? ==> !IsParameterSet(p.content.nal[0])) && CachesReceived(s, nals)
    ensures CachesReceived(IngestOrdered(s, pkt), nals + InOnePiece(p.content))
  {
    IngestedIsTaken(s, pkt, p, number);
    NoteGapReceives(s, pkt, nals);
    TakeReceives(NoteGap(s, pkt), p.content, p.marker, nals);
  }

  ghost predicate HasReceived(s: Extractor, ps: seq<Sent>, base: int, e: seq<Numbered>, n: nat)
    requires n <= |e|
  {
    exists nals :: nals == ReceivedWhole(ps, base, e, n) && CachesReceived(s, nals)
  }

  lemma {:induction false} ReceivedOne(ps: seq<Sent>, base: int, e: seq<Numbered>, n: nat, s': Extractor, nals: seq<Nal>)
    requires n < |e| && nals == ReceivedWhole(ps, base, e, n) && CachesReceived(s', nals + InOnePiece(ContentAt(ps, e[n].num - base)))
    ensures HasReceived(s', ps, base, e, n + 1)
  {
  }

  lemma {:induction false} ReceivedStep(s: Extractor, ps: seq<Sent>, base: int, e: seq<Numbered>, n: nat)
    requires SetsUnfragmented(ps) && n < |e| && Digestible(e[n].pkt) && WasSent(ps, base, e[n]) && HasReceived(s, ps, base, e, n)
    ensures HasReceived(IngestOrdered(s, e[n].pkt), ps, base, e, n + 1)
  {
    var nals :| nals == ReceivedWhole(ps, base, e, n) && CachesReceived(s, nals);
    PacketReceives(s, e[n].pkt, ps[e[n].num - base], e[n].num, nals);
    ReceivedOne(ps, base, e, n, IngestOrdered(s, e[n].pkt), nals);
  }

  lemma {:induction false} ReceivedSoFar(ps: seq<Sent>, base: int, e: seq<Numbered>, n: nat)
    requires SetsUnfragmented(ps) && AllDigestible(e) && n <= |e| && forall i :: 0 <= i < |e| ==> WasSent(ps, base, e[i])
    ensures HasReceived(Ingested(e, n), ps, base, e, n)
  {
    assert CachesReceived(INITIAL, ReceivedWhole(ps, base, e, 0));
    var k := 0;
    while k < n
      invariant 0 <= k <= n && HasReceived(Ingested(e, k), ps, base, e, k)
    {
      assert WasSent(ps, base, e[k]);
      ReceivedStep(Ingested(e, k), ps, base, e, k);
      k := k + 1;
    }
  }

  /** Whatever is lost, and however the rest is ordered: while the sender fragments no parameter set, cached are the last
      SPS and the last PPS received. */
  lemma {:induction false} LastReceivedCached(ps: seq<Sent>, base: int, e: seq<Numbered>, n: nat)
    requires SetsUnfragmented(ps) && AllDigestible(e) && n <= |e| && forall i :: 0 <= i < |e| ==> WasSent(ps, base, e[i])
    ensures var nals := ReceivedWhole(ps, base, e, n);
      Ingested(e, n).sps == LastOf(nals, TYPE_SPS) && Ingested(e, n).pps == LastOf(nals, TYPE_PPS)
  {
    ReceivedSoFar(ps, base, e, n);
  }
}
