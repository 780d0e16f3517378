/** Depacketizing undoes packetizing: every choice of packet formats, without loss. */
module RoundTrip {
  import opened SequenceNumbers
  import opened Rtp
  import opened Resequencing
  import opened Depacketizer
  import opened Packetization
  import opened PictureIntegrity
  import opened LossyStreams

  // ---- A lossless run commits exactly what was sent ----

  /** The whole stream arrives, in order. */
  ghost predicate Lossless(ps: seq<Sent>, base: int, e: seq<Numbered>) {
    |e| == |ps| && forall i :: 0 <= i < |e| ==> e[i].num == base + i && Carries(e[i].pkt, ps[i], base + i)
  }

  function PlaceAt(units: seq<Picture>, ps: seq<Sent>, n: nat): Place
    requires n <= |ps|
  {
    if n < |ps| then Before(ps[n]) else Place(|units|, 0, Nothing)
  }

  /** Everything sent so far is committed or buffered, and nothing was counted as lost. */
  ghost predicate Mirrors(s: Extractor, units: seq<Picture>, at: Place) {
    Exact(s, units, at) && s.lostPackets == 0 && at.unit <= |units| && s.committed == units[..at.unit]
  }

  /** The next packet in line is number `number`. */
  ghost predicate Expects(s: Extractor, number: int) {
    s.hasPrevSeq ==> s.prevSeq == Wrap(number - 1)
  }

  lemma {:induction false} NoGapNoted(s: Extractor, number: int, pkt: RtpPacket)
    requires pkt.number == Wrap(number) && Expects(s, number)
    ensures var s' := NoteGap(s, pkt);
      s' == s.(hasPrevSeq := true, prevSeq := Wrap(number), picTS := pkt.timestamp)
  {
    DeltaOfNumbers(number - 1, number);
  }

  lemma {:induction false} MirrorGrows(s: Extractor, s': Extractor, units: seq<Picture>, p: Sent)
    requires p.unit < |units| && s.committed == units[..p.unit] && s'.lostPackets == 0 && Exact(s', units, After(p))
    requires s'.committed == s.committed + (if p.marker then [units[p.unit]] else [])
    ensures Mirrors(s', units, After(p))
  {
    if p.marker {
      assert units[..p.unit + 1] == units[..p.unit] + [units[p.unit]];
    }
  }

  lemma {:induction false} MirrorStep(s: Extractor, units: seq<Picture>, p: Sent, number: int, pkt: RtpPacket)
    requires Fits(units, p) && Carries(pkt, p, number) && Digestible(pkt)
    requires Expects(s, number) && Mirrors(s, units, Before(p))
    ensures var s' := IngestOrdered(s, pkt); Expects(s', number + 1) && Mirrors(s', units, After(p))
  {
    var s1 := NoteGap(s, pkt);
    NoGapNoted(s, number, pkt);
    DispatchAdvances(s1, units, pkt, p, number);
    DispatchKeepsCounter(s1, pkt);
    MirrorGrows(s1, IngestOrdered(s, pkt), units, p);
  }

  /** The run stands at a place of the stream that everything before it mirrors. */
  ghost predicate InStep(s: Extractor, units: seq<Picture>, ps: seq<Sent>, base: int, n: nat)
    requires n <= |ps|
  {
    exists at :: at == PlaceAt(units, ps, n) && Mirrors(s, units, at) && Expects(s, base + n)
  }

  lemma {:induction false} MirrorStart(units: seq<Picture>, ps: seq<Sent>, base: int)
    requires Stream(units, ps)
    ensures InStep(INITIAL, units, ps, base, 0)
  {
    assert Mirrors(INITIAL, units, PlaceAt(units, ps, 0));
  }

  lemma {:induction false} MirrorInStream(s: Extractor, units: seq<Picture>, ps: seq<Sent>, base: int, n: nat, pkt: RtpPacket)
    requires Stream(units, ps) && n < |ps| && Carries(pkt, ps[n], base + n) && Digestible(pkt)
    requires Expects(s, base + n) && Mirrors(s, units, PlaceAt(units, ps, n))
    ensures Expects(IngestOrdered(s, pkt), base + n + 1) && Mirrors(IngestOrdered(s, pkt), units, PlaceAt(units, ps, n + 1))
  {
    assert Fits(units, ps[n]);
    assert PlaceAt(units, ps, n) == Before(ps[n]) && PlaceAt(units, ps, n + 1) == After(ps[n]);
    MirrorStep(s, units, ps[n], base + n, pkt);
  }

  lemma {:induction false} MirrorNext(s: Extractor, units: seq<Picture>, ps: seq<Sent>, base: int, e: seq<Numbered>, n: nat)
    requires Stream(units, ps) && Lossless(ps, base, e) && n < |e| && Digestible(e[n].pkt)
    requires InStep(s, units, ps, base, n)
    ensures InStep(IngestOrdered(s, e[n].pkt), units, ps, base, n + 1)
  {
    assert Carries(e[n].pkt, ps[n], base + n);
    MirrorInStream(s, units, ps, base, n, e[n].pkt);
  }

  lemma {:induction false} MirrorRun(units: seq<Picture>, ps: seq<Sent>, base: int, e: seq<Numbered>, n: nat)
    requires Stream(units, ps) && Lossless(ps, base, e) && AllDigestible(e) && n <= |e|
    ensures InStep(Ingested(e, n), units, ps, base, n)
  {
    MirrorStart(units, ps, base);
    var k := 0;
    while k < n
      invariant 0 <= k <= n && InStep(Ingested(e, k), units, ps, base, k)
    {
      MirrorNext(Ingested(e, k), units, ps, base, e, k);
      k := k + 1;
    }
  }

  /** For every well-formed stream, an in-order lossless run commits exactly the NALs of every access unit, in order,
      keeps nothing back and counts nothing as lost. */
  lemma {:induction false} LosslessCommitsAll(units: seq<Picture>, ps: seq<Sent>, base: int, e: seq<Numbered>)
    requires Stream(units, ps) && Lossless(ps, base, e) && AllDigestible(e)
    ensures var s := Ingested(e, |e|);
      s.committed == units && s.picBuf == [] && !s.corrupted && s.lostPackets == 0
  {
    MirrorRun(units, ps, base, e, |e|);
    assert units[..|units|] == units;
  }

  // ---- Every choice of formats is such a stream ----

  /** How the sender may pack one or more NALs of a unit, or send a packet without payload in between. */
  datatype Item =
    | OneNal(nal: Nal)
    | Several(nri: byte, nals: seq<Nal>)
    | Split(nal: Nal, pieces: seq<seq<byte>>)
    | Probe

  function Concat(pieces: seq<seq<byte>>): seq<byte> {
    if pieces == [] then [] else pieces[0] + Concat(pieces[1..])
  }

  ghost predicate ValidItem(item: Item) {
    match item
    case OneNal(nal) => 1 <= NalType(nal[0]) <= 23
    case Several(nri, nals) => nals != [] && forall i :: 0 <= i < |nals| ==> |nals[i]| < 0x1_0000
    case Split(nal, pieces) => |pieces| >= 2 && nal == [nal[0]] + Concat(pieces)
    case Probe => true
  }

  function NalsOf(item: Item): seq<Nal> {
    match item
    case OneNal(nal) => [nal]
    case Several(_, nals) => nals
    case Split(nal, _) => [nal]
    case Probe => []
  }

  /** The NALs of the first `n` items. */
  function UnitNals(items: seq<Item>, n: nat): Picture
    requires n <= |items|
  {
    if n == 0 then [] else UnitNals(items, n - 1) + NalsOf(items[n - 1])
  }

  /** Section 6.3 of RFC 6184: the unit ends with a NAL. */
  ghost predicate ValidUnit(items: seq<Item>) {
    items != [] && !items[|items| - 1].Probe? && forall i :: 0 <= i < |items| ==> ValidItem(items[i])
  }

  function PiecePackets(unit: nat, done: nat, nal: Nal, sofar: seq<byte>, pieces: seq<seq<byte>>, first: bool, marker: bool): seq<Sent>
    requires pieces != []
    decreases |pieces|
  {
    if |pieces| == 1 then
      [Sent(unit, done, Piece(nal, sofar, pieces[0], first, true), marker)]
    else
      [Sent(unit, done, Piece(nal, sofar, pieces[0], first, false), false)]
      + PiecePackets(unit, done, nal, sofar + pieces[0], pieces[1..], false, marker)
  }

  function ItemPackets(unit: nat, done: nat, item: Item, marker: bool): seq<Sent> {
    match item
    case OneNal(nal) => [Sent(unit, done, Whole(nal), marker)]
    case Several(nri, nals) => [Sent(unit, done, Bundle(nri, nals), marker)]
    case Split(nal, pieces) => if pieces == [] then [] else PiecePackets(unit, done, nal, [], pieces, true, marker)
    case Probe => [Sent(unit, done, Padding, false)]
  }

  /** The packets of the first `n` items of a unit; the unit's last one has the marker bit. */
  function UnitPackets(unit: nat, items: seq<Item>, n: nat): seq<Sent>
    requires n <= |items|
  {
    if n == 0 then [] else
      UnitPackets(unit, items, n - 1) + ItemPackets(unit, |UnitNals(items, n - 1)|, items[n - 1], n == |items|)
  }

  function Units(plan: seq<seq<Item>>): seq<Picture> {
    if plan == [] then [] else Units(plan[..|plan| - 1]) + [UnitNals(plan[|plan| - 1], |plan[|plan| - 1]|)]
  }

  function Packetize(plan: seq<seq<Item>>): seq<Sent> {
    if plan == [] then [] else Packetize(plan[..|plan| - 1]) + UnitPackets(|plan| - 1, plan[|plan| - 1], |plan[|plan| - 1]|)
  }

  /** Each packet leads from one place to the next. */
  ghost predicate Path(units: seq<Picture>, ps: seq<Sent>, places: seq<Place>) {
    && |places| == |ps| + 1
    && forall i {:trigger places[i]} :: 0 <= i < |ps| ==> Step(units, ps[i], places[i], places[i + 1])
  }

  ghost predicate Step(units: seq<Picture>, p: Sent, from: Place, to: Place) {
    Fits(units, p) && Before(p) == from && After(p) == to
  }

  /** A block of packets that leads from one place of a stream to another. */
  ghost predicate Leads(units: seq<Picture>, ps: seq<Sent>, from: Place, to: Place) {
    exists places :: Path(units, ps, places) && places[0] == from && places[|ps|] == to
  }

  lemma {:induction false} PathOn(units: seq<Picture>, a: seq<Sent>, b: seq<Sent>, p: seq<Place>, q: seq<Place>)
    requires Path(units, a, p) && Path(units, b, q) && p[|a|] == q[0]
    ensures Path(units, a + b, p[..|a|] + q)
  {
    var ps, places := a + b, p[..|a|] + q;
    forall i {:trigger places[i]} | 0 <= i < |ps| ensures Step(units, ps[i], places[i], places[i + 1]) {
      if i < |a| {
        assert Step(units, a[i], p[i], p[i + 1]);
      } else {
        assert Step(units, b[i - |a|], q[i - |a|], q[i - |a| + 1]);
      }
    }
  }

  lemma {:induction false} LeadsOn(units: seq<Picture>, a: seq<Sent>, b: seq<Sent>, from: Place, mid: Place, to: Place)
    requires Leads(units, a, from, mid) && Leads(units, b, mid, to)
    ensures Leads(units, a + b, from, to)
  {
    var p :| Path(units, a, p) && p[0] == from && p[|a|] == mid;
    var q :| Path(units, b, q) && q[0] == mid && q[|b|] == to;
    PathOn(units, a, b, p, q);
  }

  /** The place after the NALs up to `done`, or after the unit when the packet has the marker bit. */
  function Onward(unit: nat, done: nat, marker: bool): Place {
    if marker then Place(unit + 1, 0, Nothing) else Place(unit, done, Nothing)
  }

  lemma {:induction false} OnePacketLeads(units: seq<Picture>, p: Sent)
    requires Fits(units, p)
    ensures Leads(units, [p], Before(p), After(p))
  {
    assert Step(units, p, Before(p), After(p));
    assert Path(units, [p], [Before(p), After(p)]);
  }

  lemma {:induction false} PiecesLead(units: seq<Picture>, unit: nat, done: nat, nal: Nal, sofar: seq<byte>, pieces: seq<seq<byte>>, first: bool, marker: bool)
    requires unit < |units| && done < |units[unit]| && units[unit][done] == nal
    requires pieces != [] && nal == [nal[0]] + sofar + Concat(pieces)
    requires first ==> sofar == [] && |pieces| > 1
    requires marker ==> done + 1 == |units[unit]|
    ensures Leads(units, PiecePackets(unit, done, nal, sofar, pieces, first, marker),
                  Place(unit, done, if first then Nothing else Begun([nal[0]] + sofar)), Onward(unit, done + 1, marker))
    decreases |pieces|
  {
    var rest := Concat(pieces[1..]);
    assert [nal[0]] + sofar + Concat(pieces) == [nal[0]] + (sofar + pieces[0]) + rest;
    if |pieces| == 1 {
      OnePacketLeads(units, Sent(unit, done, Piece(nal, sofar, pieces[0], first, true), marker));
    } else {
      var p := Sent(unit, done, Piece(nal, sofar, pieces[0], first, false), false);
      assert [nal[0]] + sofar + pieces[0] == [nal[0]] + (sofar + pieces[0]);
      assert [nal[0]] + sofar + pieces[0] <= nal;
      OnePacketLeads(units, p);
      PiecesLead(units, unit, done, nal, sofar + pieces[0], pieces[1..], false, marker);
      LeadsOn(units, [p], PiecePackets(unit, done, nal, sofar + pieces[0], pieces[1..], false, marker),
              Before(p), After(p), Onward(unit, done + 1, marker));
    }
  }

  lemma {:induction false} SoleNal(picture: Picture, done: nat, nal: Nal)
    requires done + 1 <= |picture| && picture[done..done + 1] == [nal]
    ensures picture[done] == nal
  {
    assert picture[done..done + 1][0] == picture[done];
  }

  lemma {:induction false} OneNalLeads(units: seq<Picture>, unit: nat, done: nat, nal: Nal, marker: bool)
    requires unit < |units| && 1 <= NalType(nal[0]) <= 23
    requires done + 1 <= |units[unit]| && units[unit][done..done + 1] == [nal] && (marker ==> done + 1 == |units[unit]|)
    ensures Leads(units, [Sent(unit, done, Whole(nal), marker)], Place(unit, done, Nothing), Onward(unit, done + 1, marker))
  {
    SoleNal(units[unit], done, nal);
    OnePacketLeads(units, Sent(unit, done, Whole(nal), marker));
  }

  lemma {:induction false} ItemLeads(units: seq<Picture>, unit: nat, done: nat, item: Item, marker: bool)
    requires unit < |units| && ValidItem(item)
    requires done + |NalsOf(item)| <= |units[unit]| && units[unit][done..done + |NalsOf(item)|] == NalsOf(item)
    requires marker ==> !item.Probe? && done + |NalsOf(item)| == |units[unit]|
    ensures Leads(units, ItemPackets(unit, done, item, marker), Place(unit, done, Nothing), Onward(unit, done + |NalsOf(item)|, marker))
  {
    match item
    case OneNal(nal) => OneNalLeads(units, unit, done, nal, marker);
    case Several(nri, nals) => OnePacketLeads(units, Sent(unit, done, Bundle(nri, nals), marker));
    case Split(nal, pieces) =>
      SoleNal(units[unit], done, nal);
      assert [nal[0]] + [] + Concat(pieces) == nal;
      PiecesLead(units, unit, done, nal, [], pieces, true, marker);
    case Probe => OnePacketLeads(units, Sent(unit, done, Padding, false));
  }

  lemma {:induction false} UnitNalsPrefix(items: seq<Item>, n: nat, m: nat)
    requires n <= m <= |items|
    ensures UnitNals(items, n) <= UnitNals(items, m)
    decreases m
  {
    if n < m {
      UnitNalsPrefix(items, n, m - 1);
    }
  }

  lemma {:induction false} ItemInUnit(items: seq<Item>, n: nat)
    requires n < |items|
    ensures var all := UnitNals(items, |items|); var done, next := |UnitNals(items, n)|, |UnitNals(items, n + 1)|;
      next == done + |NalsOf(items[n])| <= |all| && all[done..next] == NalsOf(items[n])
  {
    UnitNalsPrefix(items, n + 1, |items|);
    var part := UnitNals(items, n + 1);
    assert part[|UnitNals(items, n)|..] == NalsOf(items[n]);
    assert UnitNals(items, |items|)[..|part|] == part;
  }

  lemma {:induction false} ItemOfUnitLeads(units: seq<Picture>, unit: nat, items: seq<Item>, n: nat)
    requires unit < |units| && ValidUnit(items) && units[unit] == UnitNals(items, |items|) && n < |items|
    ensures Leads(units, ItemPackets(unit, |UnitNals(items, n)|, items[n], n + 1 == |items|),
                  Place(unit, |UnitNals(items, n)|, Nothing), Onward(unit, |UnitNals(items, n + 1)|, n + 1 == |items|))
  {
    ItemInUnit(items, n);
    ItemLeads(units, unit, |UnitNals(items, n)|, items[n], n + 1 == |items|);
  }

  /** The place after the first `n` items of a unit. */
  function PlaceIn(unit: nat, items: seq<Item>, n: nat): Place
    requires n <= |items|
  {
    Onward(unit, |UnitNals(items, n)|, n == |items|)
  }

  /** The first `n` items lead to the place after them. */
  ghost predicate Reaches(units: seq<Picture>, unit: nat, items: seq<Item>, n: nat)
    requires n <= |items|
  {
    exists ps :: ps == UnitPackets(unit, items, n) && Leads(units, ps, Place(unit, 0, Nothing), PlaceIn(unit, items, n))
  }

  lemma {:induction false} ReachesNext(units: seq<Picture>, unit: nat, items: seq<Item>, m: nat)
    requires unit < |units| && ValidUnit(items) && units[unit] == UnitNals(items, |items|) && m < |items|
    requires Reaches(units, unit, items, m)
    ensures Reaches(units, unit, items, m + 1)
  {
    var done := |UnitNals(items, m)|;
    var next := ItemPackets(unit, done, items[m], m + 1 == |items|);
    ItemOfUnitLeads(units, unit, items, m);
    LeadsOn(units, UnitPackets(unit, items, m), next, Place(unit, 0, Nothing), Place(unit, done, Nothing), PlaceIn(unit, items, m + 1));
  }

  lemma {:induction false} ReachesStart(units: seq<Picture>, unit: nat, items: seq<Item>)
    requires items != []
    ensures Reaches(units, unit, items, 0)
  {
    assert Path(units, UnitPackets(unit, items, 0), [Place(unit, 0, Nothing)]);
    assert Leads(units, UnitPackets(unit, items, 0), Place(unit, 0, Nothing), PlaceIn(unit, items, 0));
  }

  lemma {:induction false} UnitLeads(units: seq<Picture>, unit: nat, items: seq<Item>)
    requires unit < |units| && ValidUnit(items) && units[unit] == UnitNals(items, |items|)
    ensures Leads(units, UnitPackets(unit, items, |items|), Place(unit, 0, Nothing), Place(unit + 1, 0, Nothing))
  {
    ReachesStart(units, unit, items);
    var k := 0;
    while k < |items|
      invariant 0 <= k <= |items| && Reaches(units, unit, items, k)
    {
      ReachesNext(units, unit, items, k);
      k := k + 1;
    }
  }

  lemma {:induction false} UnitsOfPlan(plan: seq<seq<Item>>, k: nat)
    requires k < |plan|
    ensures |Units(plan)| == |plan| && Units(plan)[k] == UnitNals(plan[k], |plan[k]|)
  {
    var n := |plan| - 1;
    if k < n {
      UnitsOfPlan(plan[..n], k);
    } else if n > 0 {
      UnitsOfPlan(plan[..n], n - 1);
    }
  }

  lemma {:induction false} PlannedUnitLeads(plan: seq<seq<Item>>, m: nat)
    requires m < |plan| && ValidUnit(plan[m])
    ensures Leads(Units(plan), UnitPackets(m, plan[m], |plan[m]|), Place(m, 0, Nothing), Place(m + 1, 0, Nothing))
  {
    UnitsOfPlan(plan, m);
    UnitLeads(Units(plan), m, plan[m]);
  }

  lemma {:induction false} PacketizeSnoc(plan: seq<seq<Item>>, m: nat)
    requires m < |plan|
    ensures Packetize(plan[..m + 1]) == Packetize(plan[..m]) + UnitPackets(m, plan[m], |plan[m]|)
  {
    assert plan[..m + 1][..m] == plan[..m];
  }

  lemma {:induction false} PlanLeadsOn(plan: seq<seq<Item>>, m: nat)
    requires m < |plan| && ValidUnit(plan[m])
    requires Leads(Units(plan), Packetize(plan[..m]), Place(0, 0, Nothing), Place(m, 0, Nothing))
    ensures Leads(Units(plan), Packetize(plan[..m + 1]), Place(0, 0, Nothing), Place(m + 1, 0, Nothing))
  {
    PlannedUnitLeads(plan, m);
    PacketizeSnoc(plan, m);
    LeadsOn(Units(plan), Packetize(plan[..m]), UnitPackets(m, plan[m], |plan[m]|), Place(0, 0, Nothing), Place(m, 0, Nothing), Place(m + 1, 0, Nothing));
  }

  lemma {:induction false} PlanLeads(plan: seq<seq<Item>>, n: nat)
    requires n <= |plan| && forall k :: 0 <= k < |plan| ==> ValidUnit(plan[k])
    ensures Leads(Units(plan), Packetize(plan[..n]), Place(0, 0, Nothing), Place(n, 0, Nothing))
  {
    if n == 0 {
      assert Path(Units(plan), [], [Place(0, 0, Nothing)]);
    } else {
      PlanLeads(plan, n - 1);
      PlanLeadsOn(plan, n - 1);
    }
  }

  lemma {:induction false} LeadsIsStream(units: seq<Picture>, ps: seq<Sent>)
    requires Leads(units, ps, Place(0, 0, Nothing), Place(|units|, 0, Nothing))
    ensures Stream(units, ps)
  {
    var places :| Path(units, ps, places) && places[0] == Place(0, 0, Nothing) && places[|ps|] == Place(|units|, 0, Nothing);
    forall i | 0 <= i < |ps| ensures Fits(units, ps[i]) && Before(ps[i]) == places[i] && After(ps[i]) == places[i + 1] {
      assert Step(units, ps[i], places[i], places[i + 1]);
    }
  }

  /** Whatever mix of single NAL units, aggregates and fragments the sender chooses, the result is a well-formed
      stream of the planned access units. */
  lemma {:induction false} PlansAreStreams(plan: seq<seq<Item>>)
    requires forall k :: 0 <= k < |plan| ==> ValidUnit(plan[k])
    ensures Stream(Units(plan), Packetize(plan))
  {
    PlanLeads(plan, |plan|);
    assert plan[..|plan|] == plan;
    if plan != [] {
      UnitsOfPlan(plan, 0);
    }
    LeadsIsStream(Units(plan), Packetize(plan));
  }

  lemma {:induction false} LosslessDigestible(ps: seq<Sent>, base: int, e: seq<Numbered>)
    requires Lossless(ps, base, e)
    ensures AllDigestible(e)
  {
    forall i | 0 <= i < |e| ensures Digestible(e[i].pkt) {
      CarriedIsDigestible(e[i].pkt, ps[i], base + i);
    }
  }

  /** Depacketizing undoes packetizing: whatever mix of formats, what is committed is what was planned. */
  lemma {:induction false} DepacketizingUndoesPacketizing(plan: seq<seq<Item>>, base: int, e: seq<Numbered>)
    requires forall k :: 0 <= k < |plan| ==> ValidUnit(plan[k])
    requires Lossless(Packetize(plan), base, e)
    ensures AllDigestible(e) && Ingested(e, |e|).committed == Units(plan)
  {
    PlansAreStreams(plan);
    LosslessDigestible(Packetize(plan), base, e);
    LosslessCommitsAll(Units(plan), Packetize(plan), base, e);
  }
}
