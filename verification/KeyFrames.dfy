/** The key frame handed out on request: cached parameter sets followed by the last complete IDR picture. */
module KeyFrames {
  import opened SequenceNumbers
  import opened Rtp
  import opened Resequencing
  import opened Depacketizer
  import opened Packetization
  import opened PictureIntegrity
  import opened LossyStreams
  import opened RoundTrip

  const START_CODE: seq<byte> := [0, 0, 0, 1]

  /** The NALs of the key frame, before start codes are put in front of each. */
  function KeyFrameNals(s: Extractor): seq<seq<byte>> {
    if !s.idrReady || s.idrNALs == [] then
      []
    else
      IfAny(s.sps) + IfAny(s.pps) + s.idrNALs
  }

  function IfAny(nal: seq<byte>): seq<seq<byte>> {
    if nal != [] then [nal] else []
  }

  function AnnexB(nals: seq<seq<byte>>): seq<byte> {
    if nals == [] then [] else AnnexB(nals[..|nals| - 1]) + START_CODE + nals[|nals| - 1]
  }

  lemma {:induction false} AnnexBSnoc(nals: seq<seq<byte>>, nal: seq<byte>)
    ensures AnnexB(nals + [nal]) == AnnexB(nals) + START_CODE + nal
  {
    assert (nals + [nal])[..|nals|] == nals;
  }

  // ---- The buffered picture is the last committed one that holds an IDR slice ----

  function LastIdr(pictures: seq<Picture>): Picture {
    if pictures == [] then []
    else if HasIdr(pictures[|pictures| - 1]) then pictures[|pictures| - 1]
    else LastIdr(pictures[..|pictures| - 1])
  }

  ghost predicate IdrCurrent(s: Extractor) {
    s.idrNALs == LastIdr(s.committed) && s.idrReady == (LastIdr(s.committed) != [])
  }

  lemma {:induction false} CommitKeepsIdr(s: Extractor)
    requires IdrCurrent(s)
    ensures IdrCurrent(CommitPicture(s))
  {
    var s' := CommitPicture(s);
    if s'.committed != s.committed {
      assert s'.committed[..|s.committed|] == s.committed;
    }
  }

  lemma {:induction false} StapAKeepsIdr(s: Extractor, p: seq<byte>, marker: bool)
    requires Solid(StapUnits(p)) && IdrCurrent(s)
    ensures IdrCurrent(IngestStapA(s, p, marker))
  {
    AppendAllEffect(s, StapUnits(p));
    CommitKeepsIdr(AppendAll(s, StapUnits(p)));
  }

  lemma {:induction false} FuAKeepsIdr(s: Extractor, p: seq<byte>, marker: bool)
    requires |p| >= 2 && IdrCurrent(s)
    ensures IdrCurrent(IngestFuA(s, p, marker))
  {
    var fua := if StartBit(p[1]) then Partial([RebuiltHeader(p[0], p[1])]) else s.fua;
    if fua.Partial? && EndBit(p[1]) {
      CommitKeepsIdr(Append(s.(fua := NoFragment), fua.data + p[2..]));
    }
  }

  /** Whatever the bytes of the packet. */
  lemma {:induction false} DispatchKeepsIdr(s: Extractor, pkt: RtpPacket)
    requires Digestible(pkt) && IdrCurrent(s)
    ensures IdrCurrent(Dispatch(s, pkt))
  {
    var p := pkt.payload;
    if p == [] {
    } else if 1 <= NalType(p[0]) <= 23 {
      CommitKeepsIdr(Append(s, p));
    } else if NalType(p[0]) == TYPE_STAP_A {
      StapAKeepsIdr(s, p[1..], pkt.marker);
    } else if NalType(p[0]) == TYPE_FU_A && |p| >= 2 {
      FuAKeepsIdr(s, p, pkt.marker);
    }
  }

  lemma {:induction false} IngestKeepsIdr(s: Extractor, pkt: RtpPacket)
    requires Digestible(pkt) && IdrCurrent(s)
    ensures IdrCurrent(IngestOrdered(s, pkt))
  {
    DispatchKeepsIdr(NoteGap(s, pkt), pkt);
  }

  lemma {:induction false} IdrStaysCurrent(e: seq<Numbered>, n: nat)
    requires n <= |e| && AllDigestible(e)
    ensures IdrCurrent(Ingested(e, n))
  {
    if n > 0 {
      IdrStaysCurrent(e, n - 1);
      IngestKeepsIdr(Ingested(e, n - 1), e[n - 1].pkt);
    }
  }

  lemma {:induction false} LastIdrIsOne(pictures: seq<Picture>)
    requires LastIdr(pictures) != []
    ensures HasIdr(LastIdr(pictures)) && LastIdr(pictures) in pictures
  {
    if !HasIdr(pictures[|pictures| - 1]) {
      LastIdrIsOne(pictures[..|pictures| - 1]);
    }
  }

  // ---- Parameter sets sent in one piece ----

  predicate IsParameterSet(header: byte) {
    NalType(header) == TYPE_SPS || NalType(header) == TYPE_PPS
  }

  ghost predicate SentIn(units: seq<Picture>, nal: seq<byte>) {
    exists u :: 0 <= u < |units| && nal in units[u]
  }

  ghost predicate CacheSound(s: Extractor, units: seq<Picture>) {
    && (s.sps != [] ==> NalType(s.sps[0]) == TYPE_SPS && SentIn(units, s.sps))
    && (s.pps != [] ==> NalType(s.pps[0]) == TYPE_PPS && SentIn(units, s.pps))
    && (s.fua.Partial? ==> !IsParameterSet(s.fua.data[0]))
  }

  /** The sender puts no parameter set into fragmentation units. */
  ghost predicate SetsUnfragmented(ps: seq<Sent>) {
    forall i :: 0 <= i < |ps| && ps[i].content.Piece? ==> !IsParameterSet(ps[i].content.nal[0])
  }

  lemma {:induction false} AppendKeepsCache(s: Extractor, units: seq<Picture>, nal: Nal)
    requires CacheSound(s, units) && (IsParameterSet(nal[0]) ==> SentIn(units, nal))
    ensures CacheSound(Append(s, nal), units)
  {
  }

  lemma {:induction false} AppendAllKeepsCache(s: Extractor, units: seq<Picture>, nals: seq<Nal>)
    requires CacheSound(s, units) && forall i :: 0 <= i < |nals| ==> SentIn(units, nals[i])
    ensures CacheSound(AppendAll(s, nals), units)
    decreases |nals|
  {
    if nals != [] {
      AppendKeepsCache(s, units, nals[0]);
      AppendAllKeepsCache(Append(s, nals[0]), units, nals[1..]);
    }
  }

  lemma {:induction false} FinishKeepsCache(s: Extractor, units: seq<Picture>, marker: bool)
    requires CacheSound(s, units)
    ensures CacheSound(Finish(s, marker), units)
  {
  }

  lemma {:induction false} BundleKeepsCache(s: Extractor, units: seq<Picture>, p: Sent)
    requires Fits(units, p) && p.content.Bundle? && CacheSound(s, units)
    ensures CacheSound(Finish(AppendAll(s, p.content.nals), p.marker), units)
  {
    var nals := p.content.nals;
    forall i | 0 <= i < |nals| ensures SentIn(units, nals[i]) {
      assert units[p.unit][p.done..p.done + |nals|][i] == units[p.unit][p.done + i];
    }
    AppendAllKeepsCache(s, units, nals);
    FinishKeepsCache(AppendAll(s, nals), units, p.marker);
  }

  lemma {:induction false} NalKeepsCache(s: Extractor, units: seq<Picture>, nal: Nal, marker: bool)
    requires CacheSound(s, units) && (IsParameterSet(nal[0]) ==> SentIn(units, nal))
    ensures CacheSound(AddNal(s, nal, marker), units)
  {
    AppendKeepsCache(s, units, nal);
    FinishKeepsCache(Append(s, nal), units, marker);
  }

  lemma {:induction false} PieceKeepsCache(s: Extractor, units: seq<Picture>, nal: Nal, piece: seq<byte>, first: bool, last: bool, marker: bool)
    requires CacheSound(s, units) && !IsParameterSet(nal[0])
    ensures CacheSound(TakePiece(s, nal, piece, first, last, marker), units)
  {
    var fua := if first then Partial([nal[0]]) else s.fua;
    if fua.Partial? && last {
      NalKeepsCache(s.(fua := NoFragment), units, fua.data + piece, marker);
    }
  }

  lemma {:induction false} TakeKeepsCache(s: Extractor, units: seq<Picture>, p: Sent)
    requires Fits(units, p) && CacheSound(s, units)
    requires p.content.Piece? ==> !IsParameterSet(p.content.nal[0])
    ensures CacheSound(Take(s, p.content, p.marker), units)
  {
    match p.content
    case Whole(nal) =>
      assert SentIn(units, nal);
      NalKeepsCache(s, units, nal, p.marker);
    case Bundle(_, nals) => BundleKeepsCache(s, units, p);
    case Piece(nal, _, piece, first, last) => PieceKeepsCache(s, units, nal, piece, first, last, p.marker);
    case Padding =>
  }

  lemma {:induction false} NoteGapKeepsCache(s: Extractor, units: seq<Picture>, pkt: RtpPacket)
    requires CacheSound(s, units)
    ensures CacheSound(NoteGap(s, pkt), units)
  {
  }

  lemma {:induction false} IngestKeepsCache(s: Extractor, units: seq<Picture>, p: Sent, number: int, pkt: RtpPacket)
    requires Fits(units, p) && Carries(pkt, p, number) && Digestible(pkt) && CacheSound(s, units)
    requires p.content.Piece? ==> !IsParameterSet(p.content.nal[0])
    ensures CacheSound(IngestOrdered(s, pkt), units)
  {
    var s1 := NoteGap(s, pkt);
    NoteGapKeepsCache(s, units, pkt);
    DispatchReads(s1, pkt, p, number);
    TakeKeepsCache(s1, units, p);
  }

  lemma {:induction false} ReceivedKeepsCache(s: Extractor, units: seq<Picture>, ps: seq<Sent>, base: int, n: Numbered)
    requires Stream(units, ps) && WasSent(ps, base, n) && Digestible(n.pkt)
    requires SetsUnfragmented(ps) && CacheSound(s, units)
    ensures CacheSound(IngestOrdered(s, n.pkt), units)
  {
    IngestKeepsCache(s, units, ps[n.num - base], n.num, n.pkt);
  }

  lemma {:induction false} CacheNext(units: seq<Picture>, ps: seq<Sent>, base: int, e: seq<Numbered>, k: nat)
    requires Stream(units, ps) && Received(ps, base, e) && AllDigestible(e) && k < |e|
    requires SetsUnfragmented(ps) && CacheSound(Ingested(e, k), units)
    ensures CacheSound(Ingested(e, k + 1), units)
  {
    assert WasSent(ps, base, e[k]);
    ReceivedKeepsCache(Ingested(e, k), units, ps, base, e[k]);
  }

  lemma {:induction false} CacheStaysSound(units: seq<Picture>, ps: seq<Sent>, base: int, e: seq<Numbered>, n: nat)
    requires Stream(units, ps) && Received(ps, base, e) && AllDigestible(e) && n <= |e|
    requires SetsUnfragmented(ps)
    ensures CacheSound(Ingested(e, n), units)
  {
    var k := 0;
    while k < n
      invariant 0 <= k <= n && CacheSound(Ingested(e, k), units)
    {
      CacheNext(units, ps, base, e, k);
      k := k + 1;
    }
  }

  lemma {:induction false} IdrWasSent(units: seq<Picture>, ps: seq<Sent>, base: int, e: seq<Numbered>)
    requires Stream(units, ps) && Received(ps, base, e) && AllDigestible(e)
    ensures var s := Ingested(e, |e|); s.idrReady ==>
      && HasIdr(s.idrNALs) && (exists u :: 0 <= u < |units| && IsSuffix(s.idrNALs, units[u]))
      && forall i :: 0 <= i < |s.idrNALs| ==> SentIn(units, s.idrNALs[i])
  {
    var s := Ingested(e, |e|);
    IdrStaysCurrent(e, |e|);
    CommittedAreSuffixes(units, ps, base, e);
    if s.idrReady {
      LastIdrIsOne(s.committed);
      SuffixesAreSent(units, s.committed, s.idrNALs);
    }
  }

  lemma {:induction false} AssembledFromSent(s: Extractor, units: seq<Picture>)
    requires CacheSound(s, units) && (s.idrReady ==> forall i :: 0 <= i < |s.idrNALs| ==> SentIn(units, s.idrNALs[i]))
    ensures forall i :: 0 <= i < |KeyFrameNals(s)| ==> SentIn(units, KeyFrameNals(s)[i])
  {
  }

  /** While the sender fragments no parameter set, a key frame is made of NALs that were sent, whatever was lost: the
      last parameter sets seen and the last run of NALs, up to the end of its access unit, with an IDR slice. */
  lemma {:induction false} KeyFramesAreSent(units: seq<Picture>, ps: seq<Sent>, base: int, e: seq<Numbered>)
    requires Stream(units, ps) && Received(ps, base, e) && AllDigestible(e)
    requires SetsUnfragmented(ps)
    ensures var s := Ingested(e, |e|); var nals := KeyFrameNals(s);
      && (forall i :: 0 <= i < |nals| ==> SentIn(units, nals[i]))
      && (nals != [] ==> HasIdr(s.idrNALs) && exists u :: 0 <= u < |units| && IsSuffix(s.idrNALs, units[u]))
  {
    CacheStaysSound(units, ps, base, e, |e|);
    IdrWasSent(units, ps, base, e);
    AssembledFromSent(Ingested(e, |e|), units);
  }

  lemma {:induction false} SuffixesAreSent(units: seq<Picture>, committed: seq<Picture>, picture: Picture)
    requires picture in committed && Traceable(committed, units, |units|)
    ensures exists u :: 0 <= u < |units| && IsSuffix(picture, units[u])
    ensures forall i :: 0 <= i < |picture| ==> SentIn(units, picture[i])
  {
    var owners :| Traced(committed, owners, units, |units|);
    var j :| 0 <= j < |committed| && committed[j] == picture;
    SuffixIsSent(units, owners[j], picture);
  }

  lemma {:induction false} SuffixIsSent(units: seq<Picture>, u: nat, picture: Picture)
    requires u < |units| && IsSuffix(picture, units[u])
    ensures forall i :: 0 <= i < |picture| ==> SentIn(units, picture[i])
  {
    forall i | 0 <= i < |picture| ensures SentIn(units, picture[i]) {
      assert units[u][|units[u]| - |picture| + i] == picture[i];
    }
  }

  // ---- Parameter sets sent in fragments ----

  /** `wire` are the FU-A packets of `nal`, cut into `pieces`. */
  ghost predicate Fragmented(nal: Nal, pieces: seq<seq<byte>>, wire: seq<RtpPacket>) {
    && |wire| == |pieces| > 1
    && nal == [nal[0]] + Concat(pieces)
    && forall i :: 0 <= i < |wire| ==>
         wire[i].payload == [nal[0] / 0x20 * 0x20 + TYPE_FU_A, FuHeader(nal, i == 0, i == |wire| - 1)] + pieces[i]
  }

  ghost predicate WireDigestible(wire: seq<RtpPacket>) {
    forall i :: 0 <= i < |wire| ==> Digestible(wire[i])
  }

  /** The extractor after those of the first `n` packets that survive. */
  ghost function Survived(s: Extractor, wire: seq<RtpPacket>, kept: seq<bool>, n: nat): Extractor
    requires n <= |wire| == |kept| && WireDigestible(wire)
  {
    if n == 0 then s else
      var before := Survived(s, wire, kept, n - 1);
      if kept[n - 1] then IngestOrdered(before, wire[n - 1]) else before
  }

  function KeptBytes(pieces: seq<seq<byte>>, kept: seq<bool>, n: nat): seq<byte>
    requires n <= |pieces| == |kept|
  {
    if n == 0 then [] else KeptBytes(pieces, kept, n - 1) + (if kept[n - 1] then pieces[n - 1] else [])
  }

  lemma {:induction false} ConcatSnoc(pieces: seq<seq<byte>>, n: nat)
    requires n < |pieces|
    ensures Concat(pieces[..n + 1]) == Concat(pieces[..n]) + pieces[n]
    decreases n
  {
    if n > 0 {
      ConcatSnoc(pieces[1..], n - 1);
      assert pieces[..n + 1][1..] == pieces[1..][..n] && pieces[..n][1..] == pieces[1..][..n - 1];
      assert pieces[1..][..n] == pieces[1..][..n - 1 + 1];
    } else {
      assert pieces[..1][1..] == [];
    }
  }

  /** Dropping pieces leaves the bytes as they were exactly when every dropped piece is empty. */
  lemma {:induction false} KeptIsWhole(pieces: seq<seq<byte>>, kept: seq<bool>, n: nat)
    requires n <= |pieces| == |kept|
    ensures |KeptBytes(pieces, kept, n)| <= |Concat(pieces[..n])|
    ensures KeptBytes(pieces, kept, n) == Concat(pieces[..n]) <==> forall i :: 0 <= i < n && !kept[i] ==> pieces[i] == []
  {
    if n > 0 {
      var m := n - 1;
      KeptIsWhole(pieces, kept, m);
      ConcatSnoc(pieces, m);
      if KeptBytes(pieces, kept, n) == Concat(pieces[..n]) {
        assert |KeptBytes(pieces, kept, m)| == |Concat(pieces[..m])|;
        assert KeptBytes(pieces, kept, m) == KeptBytes(pieces, kept, n)[..|Concat(pieces[..m])|];
        assert Concat(pieces[..m]) == Concat(pieces[..n])[..|Concat(pieces[..m])|];
      }
    }
  }

  lemma {:induction false} FragmentDigestible(nal: Nal, pieces: seq<seq<byte>>, wire: seq<RtpPacket>, i: nat)
    requires Fragmented(nal, pieces, wire) && i < |wire|
    ensures Digestible(wire[i])
  {
    TypeBits(nal[0], TYPE_FU_A);
  }

  lemma {:induction false} FragmentsDigestible(nal: Nal, pieces: seq<seq<byte>>, wire: seq<RtpPacket>)
    requires Fragmented(nal, pieces, wire)
    ensures WireDigestible(wire)
  {
    forall i | 0 <= i < |wire| ensures Digestible(wire[i]) {
      FragmentDigestible(nal, pieces, wire, i);
    }
  }

  lemma {:induction false} FragmentTaken(s: Extractor, nal: Nal, pieces: seq<seq<byte>>, wire: seq<RtpPacket>, i: nat)
    requires Fragmented(nal, pieces, wire) && i < |wire| && Digestible(wire[i])
    ensures IngestOrdered(s, wire[i])
      == TakePiece(NoteGap(s, wire[i]), nal, pieces[i], i == 0, i == |wire| - 1, wire[i].marker)
  {
    TypeBits(nal[0], TYPE_FU_A);
    PieceReads(NoteGap(s, wire[i]), wire[i].payload, Piece(nal, [], pieces[i], i == 0, i == |wire| - 1), wire[i].marker);
  }

  /** The reassembly a run of fragments continues: its own, or one left over when its first fragment is lost. */
  function Started(s: Extractor, nal: Nal, kept: seq<bool>): Fragments
    requires kept != []
  {
    if kept[0] then Partial([nal[0]]) else s.fua
  }

  function Extended(fua: Fragments, bytes: seq<byte>): Fragments {
    if fua.Partial? then Partial(fua.data + bytes) else NoFragment
  }

  /** After some of the fragments, the last one not among them: only the reassembly, the marks and the counter moved. */
  ghost predicate Gathered(s: Extractor, s': Extractor, fua: Fragments) {
    s'.fua == fua && s'.sps == s.sps && s'.pps == s.pps && s'.picBuf == s.picBuf && s'.idrReady == s.idrReady && s'.idrNALs == s.idrNALs
  }

  lemma {:induction false} PieceGathers(s: Extractor, before: Extractor, pkt: RtpPacket, nal: Nal, piece: seq<byte>, first: bool, fua: Fragments)
    requires Gathered(s, before, fua)
    ensures Gathered(s, TakePiece(NoteGap(before, pkt), nal, piece, first, false, pkt.marker),
                     Extended(if first then Partial([nal[0]]) else fua, piece))
  {
  }

  lemma {:induction false} ExtendedOn(fua: Fragments, pieces: seq<seq<byte>>, kept: seq<bool>, n: nat)
    requires n < |pieces| == |kept|
    ensures var before := Extended(fua, KeptBytes(pieces, kept, n));
      Extended(fua, KeptBytes(pieces, kept, n + 1)) == if kept[n] then Extended(before, pieces[n]) else before
  {
    if fua.Partial? {
      assert fua.data + (KeptBytes(pieces, kept, n) + pieces[n]) == (fua.data + KeptBytes(pieces, kept, n)) + pieces[n];
      assert KeptBytes(pieces, kept, n) + [] == KeptBytes(pieces, kept, n);
    }
  }

  lemma {:induction false} FirstGathers(s: Extractor, nal: Nal, pieces: seq<seq<byte>>, wire: seq<RtpPacket>, kept: seq<bool>)
    requires Fragmented(nal, pieces, wire) && WireDigestible(wire) && |kept| == |wire|
    ensures Gathered(s, Survived(s, wire, kept, 1), Extended(Started(s, nal, kept), KeptBytes(pieces, kept, 1)))
  {
    assert Survived(s, wire, kept, 0) == s && KeptBytes(pieces, kept, 0) == [];
    if kept[0] {
      FragmentTaken(s, nal, pieces, wire, 0);
      PieceGathers(s, s, wire[0], nal, pieces[0], true, s.fua);
      assert KeptBytes(pieces, kept, 1) == pieces[0];
    } else if s.fua.Partial? {
      assert s.fua.data + KeptBytes(pieces, kept, 1) == s.fua.data;
    }
  }

  lemma {:induction false} FragmentGathers(s: Extractor, nal: Nal, pieces: seq<seq<byte>>, wire: seq<RtpPacket>, kept: seq<bool>, n: nat)
    requires Fragmented(nal, pieces, wire) && WireDigestible(wire) && |kept| == |wire| && 0 < n < |wire| - 1
    requires Gathered(s, Survived(s, wire, kept, n), Extended(Started(s, nal, kept), KeptBytes(pieces, kept, n)))
    ensures Gathered(s, Survived(s, wire, kept, n + 1), Extended(Started(s, nal, kept), KeptBytes(pieces, kept, n + 1)))
  {
    var before := Survived(s, wire, kept, n);
    ExtendedOn(Started(s, nal, kept), pieces, kept, n);
    if kept[n] {
      FragmentTaken(before, nal, pieces, wire, n);
      PieceGathers(s, before, wire[n], nal, pieces[n], false, before.fua);
    }
  }

  lemma {:induction false} FragmentsGather(s: Extractor, nal: Nal, pieces: seq<seq<byte>>, wire: seq<RtpPacket>, kept: seq<bool>, n: nat)
    requires Fragmented(nal, pieces, wire) && WireDigestible(wire) && |kept| == |wire| && 0 < n < |wire|
    ensures Gathered(s, Survived(s, wire, kept, n), Extended(Started(s, nal, kept), KeptBytes(pieces, kept, n)))
  {
    if n == 1 {
      FirstGathers(s, nal, pieces, wire, kept);
    } else {
      FragmentsGather(s, nal, pieces, wire, kept, n - 1);
      FragmentGathers(s, nal, pieces, wire, kept, n - 1);
    }
  }

  /** The caches once `nal` has been completed. */
  ghost predicate Caches(s: Extractor, s': Extractor, nal: Nal) {
    && s'.sps == (if NalType(nal[0]) == TYPE_SPS then nal else s.sps)
    && s'.pps == (if NalType(nal[0]) == TYPE_PPS then nal else s.pps)
  }

  ghost predicate Clear(s: Extractor) {
    s.picBuf == [] && s.fua == NoFragment && !s.corrupted
  }

  lemma {:induction false} AddedIsCached(s: Extractor, nal: Nal, marker: bool)
    requires s.fua == NoFragment
    ensures Caches(s, AddNal(s, nal, marker), nal) && (marker ==> Clear(AddNal(s, nal, marker)))
  {
  }

  lemma {:induction false} LastFragment(s: Extractor, before: Extractor, pkt: RtpPacket, nal: Nal, piece: seq<byte>, fua: Fragments)
    requires Gathered(s, before, fua)
    ensures var s' := TakePiece(NoteGap(before, pkt), nal, piece, false, true, pkt.marker);
      match fua
      case NoFragment => Gathered(s, s', NoFragment)
      case Partial(data) => Caches(s, s', data + piece) && (pkt.marker ==> Clear(s'))
  {
    if fua.Partial? {
      AddedIsCached(NoteGap(before, pkt).(fua := NoFragment), fua.data + piece, pkt.marker);
    }
  }

  /** Fragments of a NAL of which at least the last arrives, from any state: without a reassembly to continue nothing is
      cached; otherwise what is cached, as SPS or PPS by its first byte, is the leftover or the first byte followed by all
      bytes that arrived, although the picture it belongs to is dropped. */
  lemma {:induction false} FragmentsCached(s: Extractor, nal: Nal, pieces: seq<seq<byte>>, wire: seq<RtpPacket>, kept: seq<bool>)
    requires Fragmented(nal, pieces, wire) && WireDigestible(wire) && |kept| == |wire| && kept[|wire| - 1]
    ensures var s' := Survived(s, wire, kept, |wire|);
      match Started(s, nal, kept)
      case NoFragment => Gathered(s, s', NoFragment)
      case Partial(data) => Caches(s, s', data + KeptBytes(pieces, kept, |wire|)) && (wire[|wire| - 1].marker ==> Clear(s'))
  {
    var m, start := |wire| - 1, Started(s, nal, kept);
    FragmentsGather(s, nal, pieces, wire, kept, m);
    FragmentTaken(Survived(s, wire, kept, m), nal, pieces, wire, m);
    LastFragment(s, Survived(s, wire, kept, m), wire[m], nal, pieces[m], Extended(start, KeptBytes(pieces, kept, m)));
    ExtendedOn(start, pieces, kept, m);
  }

  /** A parameter set sent in fragments whose first and last arrive is cached as it was sent if and only if every fragment
      lost in between was empty. */
  lemma {:induction false} FragmentedSetExactly(s: Extractor, nal: Nal, pieces: seq<seq<byte>>, wire: seq<RtpPacket>, kept: seq<bool>)
    requires Fragmented(nal, pieces, wire) && WireDigestible(wire) && |kept| == |wire| && kept[0] && kept[|wire| - 1]
    requires IsParameterSet(nal[0])
    ensures var s' := Survived(s, wire, kept, |wire|);
      && Caches(s, s', [nal[0]] + KeptBytes(pieces, kept, |wire|)) && (wire[|wire| - 1].marker ==> Clear(s'))
      && ((if NalType(nal[0]) == TYPE_SPS then s'.sps else s'.pps) == nal <==>
            forall i :: 0 <= i < |wire| && !kept[i] ==> pieces[i] == [])
  {
    FragmentsCached(s, nal, pieces, wire, kept);
    SameSet(nal, pieces, kept);
  }

  lemma {:induction false} SameSet(nal: Nal, pieces: seq<seq<byte>>, kept: seq<bool>)
    requires |kept| == |pieces| && nal == [nal[0]] + Concat(pieces)
    ensures [nal[0]] + KeptBytes(pieces, kept, |pieces|) == nal <==> forall i :: 0 <= i < |pieces| && !kept[i] ==> pieces[i] == []
  {
    KeptIsWhole(pieces, kept, |pieces|);
    assert pieces[..|pieces|] == pieces;
    assert nal[1..] == Concat(pieces);
    assert ([nal[0]] + KeptBytes(pieces, kept, |pieces|))[1..] == KeptBytes(pieces, kept, |pieces|);
  }

  /** And what is cached is published with the next IDR picture, intact or not. */
  lemma {:induction false} NextKeyFramePublishes(s: Extractor, idr: RtpPacket)
    requires Clear(s) && idr.marker && idr.payload != [] && NalType(idr.payload[0]) == TYPE_IDR
    ensures KeyFrameNals(IngestOrdered(s, idr))
      == IfAny(s.sps) + IfAny(s.pps) + [idr.payload]
  {
    var picture: Picture := [idr.payload];
    assert NalType(picture[0][0]) == TYPE_IDR;
    assert Append(NoteGap(s, idr), idr.payload).picBuf == picture;
  }
}
