/** The sender's side: every way RFC 6184 lets a non-interleaved stream carry access units (sections 5.6, 5.7.1,
5.8 and 6.3). Each packet is kept together with its place in the stream. */
module Packetization {
  import opened SequenceNumbers
  import opened Rtp
  import opened Depacketizer

  datatype Content =
    | Whole(nal: Nal)                      // single NAL unit packet
    | Bundle(nri: byte, nals: seq<Nal>)    // STAP-A
    | Piece(nal: Nal, sofar: seq<byte>, piece: seq<byte>, first: bool, last: bool)  // FU-A
    | Padding                              // no payload, as bandwidth probes have

  /** A packet: which access unit it belongs to, how many NALs of that unit were sent before it, what it carries. */
  datatype Sent = Sent(unit: nat, done: nat, content: Content, marker: bool)

  datatype Part = Nothing | Begun(bytes: Nal)

  /** A place between two packets: access unit, NALs of it already sent, bytes of the NAL under way. */
  datatype Place = Place(unit: nat, done: nat, part: Part)

  function Sizes(nals: seq<Nal>): seq<byte>
    requires forall i :: 0 <= i < |nals| ==> |nals[i]| < 0x1_0000
  {
    if nals == [] then [] else [|nals[0]| / 0x100, |nals[0]| % 0x100] + nals[0] + Sizes(nals[1..])
  }

  function FuHeader(nal: Nal, first: bool, last: bool): byte {
    (if first then 0x80 else 0) + (if last then 0x40 else 0) + NalType(nal[0])
  }

  function Payload(c: Content): seq<byte>
    requires Legal(c)
  {
    match c
    case Whole(nal) => nal
    case Bundle(nri, nals) => [nri / 0x20 * 0x20 + TYPE_STAP_A] + Sizes(nals)
    case Piece(nal, _, piece, first, last) => [nal[0] / 0x20 * 0x20 + TYPE_FU_A, FuHeader(nal, first, last)] + piece
    case Padding => []
  }

  /** What the payload formats allow: NAL unit types 1..23, 16-bit sizes, and never both FU bits. */
  ghost predicate Legal(c: Content) {
    match c
    case Whole(nal) => 1 <= NalType(nal[0]) <= 23
    case Bundle(nri, nals) => nals != [] && forall i :: 0 <= i < |nals| ==> |nals[i]| < 0x1_0000
    case Piece(nal, _, _, first, last) => !(first && last)
    case Padding => true
  }

  function Before(p: Sent): Place {
    Place(p.unit, p.done, if p.content.Piece? && !p.content.first then Begun([p.content.nal[0]] + p.content.sofar) else Nothing)
  }

  function After(p: Sent): Place {
    if p.marker then
      Place(p.unit + 1, 0, Nothing)
    else match p.content
      case Whole(_) => Place(p.unit, p.done + 1, Nothing)
      case Bundle(_, nals) => Place(p.unit, p.done + |nals|, Nothing)
      case Piece(nal, sofar, piece, _, last) =>
        if last then Place(p.unit, p.done + 1, Nothing) else Place(p.unit, p.done, Begun([nal[0]] + sofar + piece))
      case Padding => Place(p.unit, p.done, Nothing)
  }

  /** The packet carries the next NALs, or the next bytes of the next NAL, of its access unit, and has the marker
      bit only if it is the unit's last. */
  ghost predicate Fits(units: seq<Picture>, p: Sent) {
    && Legal(p.content)
    && p.unit < |units|
    && var unit := units[p.unit];
       match p.content
       case Whole(nal) => p.done < |unit| && unit[p.done] == nal && (p.marker ==> p.done + 1 == |unit|)
       case Bundle(_, nals) =>
         && p.done + |nals| <= |unit| && unit[p.done..p.done + |nals|] == nals
         && (p.marker ==> p.done + |nals| == |unit|)
       case Piece(nal, sofar, piece, first, last) =>
         && p.done < |unit| && unit[p.done] == nal
         && (first ==> sofar == [])
         && [nal[0]] + sofar + piece <= nal
         && (last ==> [nal[0]] + sofar + piece == nal)
         && (p.marker ==> last && p.done + 1 == |unit|)
       case Padding => p.done <= |unit| && !p.marker
  }

  /** A whole stream: the packets follow on from each other, from the first unit to past the last. */
  ghost predicate Stream(units: seq<Picture>, ps: seq<Sent>) {
    && (forall i :: 0 <= i < |ps| ==> Fits(units, ps[i]))
    && (forall i :: 0 <= i < |ps| - 1 ==> After(ps[i]) == Before(ps[i + 1]))
    && (ps != [] ==> Before(ps[0]) == Place(0, 0, Nothing) && After(ps[|ps| - 1]) == Place(|units|, 0, Nothing))
    && (ps == [] ==> units == [])
  }

  /** `pkt` is `p` on the wire, under unbounded number `number`; the timestamp is the sender's affair. */
  ghost predicate Carries(pkt: RtpPacket, p: Sent, number: int) {
    Legal(p.content) && pkt.number == Wrap(number) && pkt.marker == p.marker && pkt.payload == Payload(p.content)
  }

  /** Too short for a size, or for what its size announces. */
  predicate Truncated(tail: seq<byte>) {
    |tail| < 2 || |tail| - 2 < tail[0] as int * 0x100 + tail[1] as int
  }

  lemma {:induction false} ReadsFirst(p: seq<byte>, nal: Nal, rest: seq<byte>)
    requires |nal| < 0x1_0000 && p == [|nal| / 0x100, |nal| % 0x100] + nal + rest
    ensures StapUnits(p) == [nal] + StapUnits(rest)
  {
    assert p[0] as int * 0x100 + p[1] as int == |nal|;
    assert p[2..2 + |nal|] == nal;
    assert p[2 + |nal|..] == rest;
  }

  /** The aggregation parser finds exactly the NALs that were bundled, even before a truncated one. */
  lemma {:induction false} UnitsBeforeTail(nals: seq<Nal>, tail: seq<byte>)
    requires Truncated(tail) && forall i :: 0 <= i < |nals| ==> |nals[i]| < 0x1_0000
    ensures StapUnits(Sizes(nals) + tail) == nals
  {
    if nals == [] {
      assert Sizes(nals) + tail == tail;
    } else {
      var head := [|nals[0]| / 0x100, |nals[0]| % 0x100] + nals[0];
      assert head + Sizes(nals[1..]) + tail == head + (Sizes(nals[1..]) + tail);
      ReadsFirst(Sizes(nals) + tail, nals[0], Sizes(nals[1..]) + tail);
      UnitsBeforeTail(nals[1..], tail);
    }
  }

  lemma {:induction false} UnitsOfSizes(nals: seq<Nal>)
    requires forall i :: 0 <= i < |nals| ==> |nals[i]| < 0x1_0000
    ensures StapUnits(Sizes(nals)) == nals
  {
    UnitsBeforeTail(nals, []);
    assert Sizes(nals) + [] == Sizes(nals);
  }

  lemma {:induction false} CarriedIsDigestible(pkt: RtpPacket, p: Sent, number: int)
    requires Carries(pkt, p, number)
    ensures Digestible(pkt)
  {
    if p.content.Bundle? {
      assert pkt.payload[1..] == Sizes(p.content.nals);
      UnitsOfSizes(p.content.nals);
    }
  }
}
