/** What the depacketizer commits, for every well-formed stream and every pattern of losses. */
module PictureIntegrity {
  import opened SequenceNumbers
  import opened Rtp
  import opened Depacketizer
  import opened Packetization

  function UnitAt(units: seq<Picture>, unit: nat): Picture {
    if unit < |units| then units[unit] else []
  }

  /** Unless the picture is marked corrupted, the buffered NALs are the last ones sent of the current unit, and a
      reassembly under way continues where the sender is; one with a lost start is under way only while nothing
      is buffered. A leftover reassembly between NALs may hold anything. */
  ghost predicate Good(s: Extractor, units: seq<Picture>, at: Place) {
    s.corrupted ||
    (var unit := UnitAt(units, at.unit);
     && |s.picBuf| <= at.done <= |unit|
     && s.picBuf == unit[at.done - |s.picBuf|..at.done]
     && (at.part.Begun? ==> if s.fua.Partial? then s.fua.data == at.part.bytes else s.picBuf == []))
  }

  /** Everything sent of the current unit is buffered. */
  ghost predicate Exact(s: Extractor, units: seq<Picture>, at: Place) {
    && !s.corrupted
    && at.done <= |UnitAt(units, at.unit)| && s.picBuf == UnitAt(units, at.unit)[..at.done]
    && (at.part.Begun? ==> s.fua == Partial(at.part.bytes))
  }

  ghost predicate IsSuffix(a: Picture, b: Picture) {
    a != [] && |a| <= |b| && a == b[|b| - |a|..]
  }

  /** What one step adds to the committed pictures: nothing, or a suffix of unit number `unit`. */
  ghost predicate Commits(s: Extractor, s': Extractor, units: seq<Picture>, unit: nat, marker: bool) {
    s'.committed == s.committed ||
    (marker && |s'.committed| == |s.committed| + 1 && s'.committed[..|s.committed|] == s.committed
     && IsSuffix(s'.committed[|s.committed|], UnitAt(units, unit)))
  }

  /** The result promised of every step of the stream from one place to the next. */
  ghost predicate Advances(s: Extractor, s': Extractor, units: seq<Picture>, from: Place, to: Place, marker: bool) {
    && (Good(s, units, from) ==> Good(s', units, to) && Commits(s, s', units, from.unit, marker))
    && (Exact(s, units, from) ==>
          Exact(s', units, to) && s'.committed == s.committed + (if marker then [UnitAt(units, from.unit)] else []))
  }

  // ---- Appending the NALs of one packet ----

  lemma {:induction false} AppendAllEffect(s: Extractor, nals: seq<Nal>)
    ensures var s' := AppendAll(s, nals);
      && s'.picBuf == s.picBuf + nals
      && s' == s.(picBuf := s'.picBuf, sps := s'.sps, pps := s'.pps)
    decreases |nals|
  {
    if nals != [] {
      AppendAllEffect(Append(s, nals[0]), nals[1..]);
      assert s.picBuf + nals == (s.picBuf + [nals[0]]) + nals[1..];
    }
  }

  function Finish(s: Extractor, marker: bool): Extractor {
    if marker then CommitPicture(s) else s
  }

  /** `nals` are the next NALs of the unit. */
  ghost predicate NextNals(units: seq<Picture>, at: Place, nals: seq<Nal>) {
    var unit := UnitAt(units, at.unit);
    nals != [] && at.done + |nals| <= |unit| && unit[at.done..at.done + |nals|] == nals
  }

  lemma {:induction false} OneNext(units: seq<Picture>, at: Place, nal: Nal)
    requires at.done < |UnitAt(units, at.unit)| && UnitAt(units, at.unit)[at.done] == nal
    ensures NextNals(units, at, [nal])
  {
  }

  lemma {:induction false} AppendKeeps(s: Extractor, s': Extractor, units: seq<Picture>, at: Place, nals: seq<Nal>)
    requires at.part.Nothing? && NextNals(units, at, nals)
    requires s'.picBuf == s.picBuf + nals && s'.corrupted == s.corrupted
    ensures Good(s, units, at) ==> Good(s', units, at.(done := at.done + |nals|))
    ensures Exact(s, units, at) ==> Exact(s', units, at.(done := at.done + |nals|))
  {
    var unit := UnitAt(units, at.unit);
    var a, b := at.done - |s.picBuf|, at.done;
    if 0 <= a <= b && s.picBuf == unit[a..b] {
      assert unit[a..b + |nals|] == unit[a..b] + unit[b..b + |nals|];
    }
  }

  /** Committing at the end of a unit. */
  lemma {:induction false} CommitKeeps(s: Extractor, units: seq<Picture>, unit: nat)
    requires s.picBuf != []
    ensures Good(s, units, Place(unit, |UnitAt(units, unit)|, Nothing)) ==>
      Good(CommitPicture(s), units, Place(unit + 1, 0, Nothing)) && Commits(s, CommitPicture(s), units, unit, true)
    ensures Exact(s, units, Place(unit, |UnitAt(units, unit)|, Nothing)) ==>
      Exact(CommitPicture(s), units, Place(unit + 1, 0, Nothing)) && CommitPicture(s).committed == s.committed + [UnitAt(units, unit)]
  {
    var all := UnitAt(units, unit);
    assert all[..|all|] == all;
  }

  /** A picture marked corrupted is never committed, whatever was appended to it. */
  lemma {:induction false} CorruptedAdvances(s: Extractor, s': Extractor, units: seq<Picture>, from: Place, to: Place, marker: bool)
    requires s.corrupted && s'.corrupted && s'.committed == s.committed && s'.picBuf != []
    requires marker ==> to.done == 0 && to.part.Nothing?
    ensures Advances(s, Finish(s', marker), units, from, to, marker)
  {
  }

  /** The common end of all three formats. */
  lemma {:induction false} AppendedAdvances(s: Extractor, s': Extractor, units: seq<Picture>, from: Place, nals: seq<Nal>, to: Place, marker: bool)
    requires from.part.Nothing? && NextNals(units, from, nals)
    requires s'.picBuf == s.picBuf + nals && s'.corrupted == s.corrupted && s'.committed == s.committed
    requires if marker then to == Place(from.unit + 1, 0, Nothing) && from.done + |nals| == |UnitAt(units, from.unit)|
             else to == from.(done := from.done + |nals|)
    ensures Advances(s, Finish(s', marker), units, from, to, marker)
  {
    AppendKeeps(s, s', units, from, nals);
    if marker {
      CommitKeeps(s', units, from.unit);
    }
  }

  lemma {:induction false} WholeAdvances(s: Extractor, units: seq<Picture>, p: Sent)
    requires Fits(units, p) && p.content.Whole?
    ensures Advances(s, AddNal(s, p.content.nal, p.marker), units, Before(p), After(p), p.marker)
  {
    OneNext(units, Before(p), p.content.nal);
    AppendedAdvances(s, Append(s, p.content.nal), units, Before(p), [p.content.nal], After(p), p.marker);
  }

  lemma {:induction false} BundleAdvances(s: Extractor, units: seq<Picture>, p: Sent)
    requires Fits(units, p) && p.content.Bundle?
    ensures Advances(s, Finish(AppendAll(s, p.content.nals), p.marker), units, Before(p), After(p), p.marker)
  {
    AppendAllEffect(s, p.content.nals);
    AppendedAdvances(s, AppendAll(s, p.content.nals), units, Before(p), p.content.nals, After(p), p.marker);
  }

  /** What an FU-A packet does once its header bits are known. */
  function TakePiece(s: Extractor, nal: Nal, piece: seq<byte>, first: bool, last: bool, marker: bool): Extractor {
    var fua := if first then Partial([nal[0]]) else s.fua;
    if fua.NoFragment? then s
    else if last then AddNal(s.(fua := NoFragment), fua.data + piece, marker)
    else s.(fua := Partial(fua.data + piece))
  }

  /** With nothing buffered any place will do. */
  lemma {:induction false} EmptyIsGood(s: Extractor, units: seq<Picture>, at: Place)
    requires s.picBuf == [] && s.fua.NoFragment? && at.done <= |UnitAt(units, at.unit)|
    ensures Good(s, units, at)
  {
  }

  lemma {:induction false} PlaceAfterPiece(units: seq<Picture>, p: Sent)
    requires Fits(units, p) && p.content.Piece?
    ensures After(p).done <= |UnitAt(units, After(p).unit)|
    ensures !p.content.first ==> Before(p).part.Begun?
  {
  }

  /** The start of the NAL was lost: the piece is dropped, and so is the rest of its NAL. */
  lemma {:induction false} IgnoredAdvances(s: Extractor, units: seq<Picture>, p: Sent)
    requires Fits(units, p) && p.content.Piece? && !p.content.first && s.fua.NoFragment?
    ensures Advances(s, s, units, Before(p), After(p), p.marker)
  {
    PlaceAfterPiece(units, p);
    if !s.corrupted && Good(s, units, Before(p)) {
      EmptyIsGood(s, units, After(p));
    }
  }

  lemma {:induction false} ContinuedAdvances(s: Extractor, units: seq<Picture>, p: Sent, data: Nal)
    requires Fits(units, p) && p.content.Piece? && !p.content.last
    requires if p.content.first then data == [p.content.nal[0]] else s.fua == Partial(data)
    ensures Advances(s, s.(fua := Partial(data + p.content.piece)), units, Before(p), After(p), p.marker)
  {
  }

  lemma {:induction false} CompletedAdvances(s: Extractor, units: seq<Picture>, p: Sent)
    requires Fits(units, p) && p.content.Piece? && p.content.last && s.fua.Partial?
    ensures Advances(s, AddNal(s.(fua := NoFragment), s.fua.data + p.content.piece, p.marker), units, Before(p), After(p), p.marker)
  {
    var nal := s.fua.data + p.content.piece;
    var s0 := s.(fua := NoFragment);
    if s.corrupted {
      CorruptedAdvances(s, Append(s0, nal), units, Before(p), After(p), p.marker);
    } else if s.fua.data == Before(p).part.bytes {
      assert nal == p.content.nal;
      OneNext(units, Before(p).(part := Nothing), nal);
      AppendedAdvances(s0, Append(s0, nal), units, Before(p).(part := Nothing), [nal], After(p), p.marker);
    }
  }

  lemma {:induction false} PieceAdvances(s: Extractor, units: seq<Picture>, p: Sent)
    requires Fits(units, p) && p.content.Piece?
    ensures var c := p.content; 
      Advances(s, TakePiece(s, c.nal, c.piece, c.first, c.last, p.marker), units, Before(p), After(p), p.marker)
  {
    if p.content.first {
      ContinuedAdvances(s, units, p, [p.content.nal[0]]);
    } else if s.fua.NoFragment? {
      IgnoredAdvances(s, units, p);
    } else if p.content.last {
      CompletedAdvances(s, units, p);
    } else {
      ContinuedAdvances(s, units, p, s.fua.data);
    }
  }

  /** What the depacketizer does with the content of a packet, leaving the bytes aside. */
  function Take(s: Extractor, c: Content, marker: bool): Extractor {
    match c
    case Whole(nal) => AddNal(s, nal, marker)
    case Bundle(_, nals) => Finish(AppendAll(s, nals), marker)
    case Piece(nal, _, piece, first, last) => TakePiece(s, nal, piece, first, last, marker)
    case Padding => s
  }

  lemma {:induction false} TypeBits(header: byte, nalType: byte)
    requires nalType < 0x20
    ensures 0 <= header / 0x20 * 0x20 + nalType < 0x100
    ensures NalType(header / 0x20 * 0x20 + nalType) == nalType
  {
  }

  lemma {:induction false} FuHeaderBits(nal: Nal, first: bool, last: bool)
    ensures StartBit(FuHeader(nal, first, last)) == first && EndBit(FuHeader(nal, first, last)) == last
    ensures RebuiltHeader(nal[0] / 0x20 * 0x20 + TYPE_FU_A, FuHeader(nal, first, last)) == nal[0]
  {
  }

  lemma {:induction false} PieceReads(s: Extractor, payload: seq<byte>, c: Content, marker: bool)
    requires c.Piece? && payload == [c.nal[0] / 0x20 * 0x20 + TYPE_FU_A, FuHeader(c.nal, c.first, c.last)] + c.piece
    ensures IngestFuA(s, payload, marker) == TakePiece(s, c.nal, c.piece, c.first, c.last, marker)
  {
    FuHeaderBits(c.nal, c.first, c.last);
    assert payload[2..] == c.piece;
  }

  lemma {:induction false} BundlePayload(payload: seq<byte>, nri: byte, nals: seq<Nal>)
    requires Legal(Bundle(nri, nals)) && payload == Payload(Bundle(nri, nals))
    ensures payload != [] && NalType(payload[0]) == TYPE_STAP_A && StapUnits(payload[1..]) == nals
  {
    TypeBits(nri, TYPE_STAP_A);
    assert payload[1..] == Sizes(nals);
    UnitsOfSizes(nals);
  }

  lemma {:induction false} BundleReads(s: Extractor, pkt: RtpPacket, nri: byte, nals: seq<Nal>)
    requires Legal(Bundle(nri, nals)) && pkt.payload == Payload(Bundle(nri, nals)) && Digestible(pkt)
    ensures Dispatch(s, pkt) == Finish(AppendAll(s, nals), pkt.marker)
  {
    BundlePayload(pkt.payload, nri, nals);
  }

  lemma {:induction false} FragmentReads(s: Extractor, pkt: RtpPacket, c: Content)
    requires c.Piece? && Legal(c) && pkt.payload == Payload(c) && Digestible(pkt)
    ensures Dispatch(s, pkt) == TakePiece(s, c.nal, c.piece, c.first, c.last, pkt.marker)
  {
    TypeBits(c.nal[0], TYPE_FU_A);
    PieceReads(s, pkt.payload, c, pkt.marker);
  }

  /** The bytes of a packet lead to the branch for what was packed. */
  lemma {:induction false} DispatchReads(s: Extractor, pkt: RtpPacket, p: Sent, number: int)
    requires Carries(pkt, p, number) && Digestible(pkt)
    ensures Dispatch(s, pkt) == Take(s, p.content, p.marker)
  {
    match p.content
    case Bundle(nri, nals) => BundleReads(s, pkt, nri, nals);
    case Piece(_, _, _, _, _) => FragmentReads(s, pkt, p.content);
    case _ =>
  }

  lemma {:induction false} DispatchAdvances(s: Extractor, units: seq<Picture>, pkt: RtpPacket, p: Sent, number: int)
    requires Fits(units, p) && Carries(pkt, p, number) && Digestible(pkt)
    ensures Advances(s, Dispatch(s, pkt), units, Before(p), After(p), p.marker)
  {
    DispatchReads(s, pkt, p, number);
    match p.content
    case Whole(_) => WholeAdvances(s, units, p);
    case Bundle(_, _) => BundleAdvances(s, units, p);
    case Piece(_, _, _, _, _) => PieceAdvances(s, units, p);
    case Padding =>
  }
}
