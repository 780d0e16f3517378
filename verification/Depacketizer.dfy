/** H.264 depacketization (RFC 6184 sections 5.6, 5.7.1 and 5.8) as a function of the extractor's state. */
module Depacketizer {
  import opened SequenceNumbers
  import opened Rtp

  type Nal = n: seq<byte> | n != [] witness [0]
  type Picture = seq<Nal>

  const TYPE_IDR := 5
  const TYPE_SPS := 7
  const TYPE_PPS := 8
  const TYPE_STAP_A := 24
  const TYPE_FU_A := 28

  datatype Fragments = NoFragment | Partial(data: Nal)

  /** The extractor's fields, and the history of the pictures that passed the corruption check. */
  datatype Extractor = Extractor(
    hasPrevSeq: bool,
    prevSeq: uint16,
    lostPackets: nat,
    picTS: uint32,
    picBuf: Picture,
    fua: Fragments,
    corrupted: bool,
    sps: seq<byte>,
    pps: seq<byte>,
    idrReady: bool,
    idrNALs: Picture,
    committed: seq<Picture>
  )

  const INITIAL := Extractor(false, 0, 0, 0, [], NoFragment, false, [], [], false, [], [])

  /** `header & 0x1F` */
  function NalType(header: byte): int {
    header % 0x20
  }

  predicate HasIdr(picture: Picture) {
    exists i :: 0 <= i < |picture| && NalType(picture[i][0]) == TYPE_IDR
  }

  function CheckSeqGap(s: Extractor, number: uint16): (Extractor, bool) {
    if !s.hasPrevSeq then
      (s.(prevSeq := number, hasPrevSeq := true), false)
    else
      var delta := Delta(number, s.prevSeq);
      if delta == 1 then
        (s.(prevSeq := number), false)
      else if delta > 1 then
        (s.(prevSeq := number, lostPackets := s.lostPackets + (delta - 1)), true)
      else
        (s, true)
  }

  function CommitPicture(s: Extractor): Extractor {
    if s.picBuf == [] then
      s
    else if s.corrupted then
      s.(corrupted := false, picBuf := [])
    else if HasIdr(s.picBuf) then
      s.(idrNALs := s.picBuf, idrReady := true, picBuf := [], committed := s.committed + [s.picBuf])
    else
      s.(picBuf := [], committed := s.committed + [s.picBuf])
  }

  function Append(s: Extractor, nal: Nal): Extractor {
    var s' := s.(picBuf := s.picBuf + [nal]);
    if NalType(nal[0]) == TYPE_SPS then s'.(sps := nal)
    else if NalType(nal[0]) == TYPE_PPS then s'.(pps := nal)
    else s'
  }

  function AddNal(s: Extractor, nal: Nal, marker: bool): Extractor {
    if marker then CommitPicture(Append(s, nal)) else Append(s, nal)
  }

  /** The aggregation units the parse loop finds: it stops at the first size that runs past the payload. */
  function StapUnits(p: seq<byte>): seq<seq<byte>> {
    if |p| < 2 then
      []
    else
      var size: int := p[0] as int * 0x100 + p[1] as int;
      if |p| - 2 < size then [] else [p[2..2 + size]] + StapUnits(p[2 + size..])
  }

  /** No aggregation unit is empty: the first byte of each is read unconditionally. */
  predicate Solid(units: seq<seq<byte>>) {
    forall i :: 0 <= i < |units| ==> units[i] != []
  }

  function AppendAll(s: Extractor, units: seq<seq<byte>>): Extractor
    requires Solid(units)
    decreases |units|
  {
    if units == [] then s else AppendAll(Append(s, units[0]), units[1..])
  }

  function IngestStapA(s: Extractor, p: seq<byte>, marker: bool): Extractor
    requires Solid(StapUnits(p))
  {
    var s' := AppendAll(s, StapUnits(p));
    if marker then CommitPicture(s') else s'
  }

  predicate StartBit(fuHeader: byte) {
    fuHeader >= 0x80
  }

  predicate EndBit(fuHeader: byte) {
    fuHeader % 0x80 >= 0x40
  }

  /** `(indicator & 0xE0) | (fuHeader & 0x1F)` */
  function RebuiltHeader(indicator: byte, fuHeader: byte): byte {
    indicator / 0x20 * 0x20 + NalType(fuHeader)
  }

  function IngestFuA(s: Extractor, p: seq<byte>, marker: bool): Extractor {
    if |p| < 2 then
      s
    else
      var fua := if StartBit(p[1]) then Partial([RebuiltHeader(p[0], p[1])]) else s.fua;
      match fua
      case NoFragment => s
      case Partial(data) =>
        if EndBit(p[1]) then AddNal(s.(fua := NoFragment), data + p[2..], marker)
        else s.(fua := Partial(data + p[2..]))
  }

  function Dispatch(s: Extractor, pkt: RtpPacket): Extractor
    requires Digestible(pkt)
  {
    var p := pkt.payload;
    if p == [] then s
    else if 1 <= NalType(p[0]) <= 23 then AddNal(s, p, pkt.marker)
    else if NalType(p[0]) == TYPE_STAP_A then IngestStapA(s, p[1..], pkt.marker)
    else if NalType(p[0]) == TYPE_FU_A then IngestFuA(s, p, pkt.marker)
    else s
  }

  predicate Digestible(pkt: RtpPacket) {
    pkt.payload != [] && NalType(pkt.payload[0]) == TYPE_STAP_A ==> Solid(StapUnits(pkt.payload[1..]))
  }

  /** The gap check, which marks the picture under assembly. */
  function NoteGap(s: Extractor, pkt: RtpPacket): Extractor {
    var r := CheckSeqGap(s, pkt.number);
    var s' := if r.1 && (s.picBuf != [] || s.fua.Partial?) then r.0.(corrupted := true) else r.0;
    s'.(picTS := pkt.timestamp)
  }

  function IngestOrdered(s: Extractor, pkt: RtpPacket): Extractor
    requires Digestible(pkt)
  {
    Dispatch(NoteGap(s, pkt), pkt)
  }

  function IngestAll(s: Extractor, pkts: seq<RtpPacket>): Extractor
    requires forall i :: 0 <= i < |pkts| ==> Digestible(pkts[i])
  {
    if pkts == [] then s else
      var n := |pkts| - 1;
      IngestOrdered(IngestAll(s, pkts[..n]), pkts[n])
  }

  lemma {:induction false} IngestAllSplit(s: Extractor, a: seq<RtpPacket>, b: seq<RtpPacket>)
    requires forall i :: 0 <= i < |a| ==> Digestible(a[i])
    requires forall i :: 0 <= i < |b| ==> Digestible(b[i])
    ensures IngestAll(s, a + b) == IngestAll(IngestAll(s, a), b)
  {
    if b == [] {
      assert a + b == a;
    } else {
      var n := |b| - 1;
      assert (a + b)[..|a + b| - 1] == a + b[..n];
      IngestAllSplit(s, a, b[..n]);
    }
  }

  /** The arithmetic above is the bit masking of the payload formats. */
  lemma {:induction false} MaskIsRemainder(header: bv8)
    ensures (header & 0x1F) as int == NalType(header as int)
  {
    assert header & 0x1F == header % 0x20;
  }

  lemma {:induction false} TopBitsAreRanges(h: bv8)
    ensures StartBit(h as int) <==> h & 0x80 != 0
    ensures EndBit(h as int) <==> h & 0x40 != 0
  {
    assert h & 0x80 != 0 <==> h >= 0x80;
    assert h & 0x40 != 0 <==> h % 0x80 >= 0x40;
  }

  lemma {:induction false} HighBits(h: bv8)
    ensures (h & 0xE0) as int == h as int / 0x20 * 0x20
  {
    MaskIsRemainder(h);
    assert h & 0xE0 == h - (h & 0x1F) && h & 0x1F <= h;
  }

  lemma {:induction false} MasksRebuildHeader(indicator: bv8, fuHeader: bv8)
    ensures ((indicator & 0xE0) | (fuHeader & 0x1F)) as int == RebuiltHeader(indicator as int, fuHeader as int)
  {
    HighBits(indicator);
    MaskIsRemainder(fuHeader);
    var hi, lo := indicator & 0xE0, fuHeader & 0x1F;
    assert hi | lo == hi + lo && hi <= 0xE0 && lo <= 0x1F;
  }
}
