/** A parameter set in fragments, followed by an IDR picture, from the sender's plan to the key frame handed out. */
module FragmentedSets {
  import opened SequenceNumbers
  import opened Rtp
  import opened Resequencing
  import opened Depacketizer
  import opened Packetization
  import opened LossyStreams
  import opened RoundTrip
  import opened KeyFrames

  /** An access unit with the parameter set, cut into `pieces`, and one with the IDR slice. */
  function SetThenIdr(nal: Nal, pieces: seq<seq<byte>>, idr: Nal): seq<seq<Item>> {
    [[Split(nal, pieces)], [OneNal(idr)]]
  }

  ghost predicate Planned(nal: Nal, pieces: seq<seq<byte>>, idr: Nal) {
    |pieces| >= 2 && nal == [nal[0]] + Concat(pieces) && IsParameterSet(nal[0]) && NalType(idr[0]) == TYPE_IDR
  }

  lemma {:induction false} PieceAt(unit: nat, nal: Nal, sofar: seq<byte>, pieces: seq<seq<byte>>, first: bool, i: nat)
    requires i < |pieces|
    ensures var ps := PiecePackets(unit, 0, nal, sofar, pieces, first, true);
      && |ps| == |pieces| && ps[i].content.Piece? && ps[i].content.nal == nal && ps[i].content.piece == pieces[i]
      && ps[i].content.first == (first && i == 0) && ps[i].content.last == (i == |pieces| - 1) && ps[i].marker == (i == |pieces| - 1)
    decreases |pieces|
  {
    if |pieces| > 1 {
      PieceAt(unit, nal, sofar + pieces[0], pieces[1..], false, if i > 0 then i - 1 else 0);
    }
  }

  /** The packets of a unit that holds nothing but `nal`, in `pieces`. */
  function Block(unit: nat, nal: Nal, pieces: seq<seq<byte>>): seq<Sent>
    requires pieces != []
  {
    PiecePackets(unit, 0, nal, [], pieces, true, true)
  }

  lemma {:induction false} SplitUnit(unit: nat, nal: Nal, pieces: seq<seq<byte>>)
    requires |pieces| >= 2 && nal == [nal[0]] + Concat(pieces)
    ensures var items := [Split(nal, pieces)];
      ValidUnit(items) && UnitNals(items, 1) == [nal] && UnitPackets(unit, items, 1) == Block(unit, nal, pieces)
  {
    var items := [Split(nal, pieces)];
    assert UnitNals(items, 0) == [] && UnitPackets(unit, items, 0) == [];
  }

  lemma {:induction false} IdrUnit(unit: nat, idr: Nal)
    requires NalType(idr[0]) == TYPE_IDR
    ensures var items := [OneNal(idr)];
      ValidUnit(items) && UnitNals(items, 1) == [idr] && UnitPackets(unit, items, 1) == [Sent(unit, 0, Whole(idr), true)]
  {
    var items := [OneNal(idr)];
    assert UnitNals(items, 0) == [] && UnitPackets(unit, items, 0) == [];
  }

  /** What the sender puts on the wire. */
  lemma {:induction false} PlanPackets(nal: Nal, pieces: seq<seq<byte>>, idr: Nal)
    requires Planned(nal, pieces, idr)
    ensures var plan := SetThenIdr(nal, pieces, idr);
      && (forall k :: 0 <= k < |plan| ==> ValidUnit(plan[k])) && Units(plan) == [[nal], [idr]]
      && Packetize(plan) == Block(0, nal, pieces) + [Sent(1, 0, Whole(idr), true)]
  {
    var first, second := [Split(nal, pieces)], [OneNal(idr)];
    SplitUnit(0, nal, pieces);
    IdrUnit(1, idr);
    TwoUnits(first, second);
  }

  function Wire(all: seq<Numbered>, from: nat, m: nat): (wire: seq<RtpPacket>)
    requires from + m <= |all|
    ensures |wire| == m && forall i :: 0 <= i < m ==> wire[i] == all[from + i].pkt
  {
    seq(m, i requires 0 <= i < m => all[from + i].pkt)
  }

  /** The packets of `nal`, cut into `pieces`, the last with the marker bit. */
  ghost predicate OnWire(nal: Nal, pieces: seq<seq<byte>>, wire: seq<RtpPacket>) {
    exists w: seq<RtpPacket> :: w == wire && Fragmented(nal, pieces, w) && w[|w| - 1].marker && WireDigestible(w)
  }

  lemma {:induction false} OnWireDigestible(nal: Nal, pieces: seq<seq<byte>>, wire: seq<RtpPacket>)
    requires OnWire(nal, pieces, wire)
    ensures WireDigestible(wire) && |wire| == |pieces|
  {
  }

  lemma {:induction false} BlockIsFragmented(ps: seq<Sent>, base: int, all: seq<Numbered>, unit: nat, from: nat, nal: Nal, pieces: seq<seq<byte>>)
    requires Lossless(ps, base, all) && |pieces| >= 2 && nal == [nal[0]] + Concat(pieces)
    requires from + |pieces| <= |ps| && ps[from..from + |pieces|] == Block(unit, nal, pieces)
    ensures OnWire(nal, pieces, Wire(all, from, |pieces|))
  {
    var m, block, wire := |pieces|, ps[from..from + |pieces|], Wire(all, from, |pieces|);
    forall i | 0 <= i < m
      ensures all[from + i].pkt.payload == [nal[0] / 0x20 * 0x20 + TYPE_FU_A, FuHeader(nal, i == 0, i == m - 1)] + pieces[i]
      ensures i == m - 1 ==> all[from + i].pkt.marker
    {
      PieceAt(unit, nal, [], pieces, true, i);
      assert block[i] == ps[from + i] && Carries(all[from + i].pkt, ps[from + i], base + (from + i));
    }
    assert Fragmented(nal, pieces, wire);
    FragmentsDigestible(nal, pieces, wire);
  }

  lemma {:induction false} BlockLength(unit: nat, nal: Nal, pieces: seq<seq<byte>>)
    requires pieces != []
    ensures |Block(unit, nal, pieces)| == |pieces|
  {
    PieceAt(unit, nal, [], pieces, true, 0);
  }

  lemma {:induction false} LastOnWire(ps: seq<Sent>, base: int, all: seq<Numbered>, unit: nat, idr: Nal)
    requires Lossless(ps, base, all) && ps != [] && ps[|ps| - 1] == Sent(unit, 0, Whole(idr), true)
    ensures var last := all[|ps| - 1].pkt; last.marker && last.payload == idr
  {
    assert Carries(all[|ps| - 1].pkt, ps[|ps| - 1], base + (|ps| - 1));
  }

  lemma {:induction false} WireIsFragmented(ps: seq<Sent>, nal: Nal, pieces: seq<seq<byte>>, idr: Nal, base: int, all: seq<Numbered>)
    requires Planned(nal, pieces, idr) && Lossless(ps, base, all) && ps == Block(0, nal, pieces) + [Sent(1, 0, Whole(idr), true)]
    ensures |all| == |pieces| + 1 && OnWire(nal, pieces, Wire(all, 0, |pieces|))
    ensures var last := all[|pieces|].pkt; last.marker && last.payload == idr
  {
    BlockLength(0, nal, pieces);
    assert ps[0..|pieces|] == Block(0, nal, pieces);
    BlockIsFragmented(ps, base, all, 0, 0, nal, pieces);
    LastOnWire(ps, base, all, 1, idr);
  }

  /** The packets of the first `n` that arrive. */
  function Left(all: seq<Numbered>, kept: seq<bool>, n: nat): seq<Numbered>
    requires n <= |kept| <= |all|
  {
    if n == 0 then [] else Left(all, kept, n - 1) + (if kept[n - 1] then [all[n - 1]] else [])
  }

  /** What arrives of the whole plan, the IDR picture with it. */
  function Arrived(all: seq<Numbered>, kept: seq<bool>): seq<Numbered>
    requires |all| == |kept| + 1
  {
    Left(all, kept, |kept|) + [all[|kept|]]
  }

  lemma {:induction false} ArrivedLast(all: seq<Numbered>, kept: seq<bool>)
    requires |all| == |kept| + 1
    ensures var e := Arrived(all, kept); |e| == |Left(all, kept, |kept|)| + 1 && e[|e| - 1] == all[|kept|]
  {
  }

  lemma {:induction false} LeftWasSent(ps: seq<Sent>, base: int, all: seq<Numbered>, kept: seq<bool>, n: nat)
    requires Lossless(ps, base, all) && n <= |kept| <= |all|
    ensures forall i :: 0 <= i < |Left(all, kept, n)| ==> WasSent(ps, base, Left(all, kept, n)[i])
  {
    if n > 0 {
      LeftWasSent(ps, base, all, kept, n - 1);
      assert WasSent(ps, base, all[n - 1]);
    }
  }

  lemma {:induction false} LeftIncreases(ps: seq<Sent>, base: int, all: seq<Numbered>, kept: seq<bool>, n: nat)
    requires Lossless(ps, base, all) && n <= |kept| <= |all|
    ensures Increasing(Left(all, kept, n))
    ensures forall i :: 0 <= i < |Left(all, kept, n)| ==> Left(all, kept, n)[i].num < base + n
  {
    if n > 0 {
      LeftIncreases(ps, base, all, kept, n - 1);
      assert all[n - 1].num == base + (n - 1);
    }
  }

  /** What is left of the plan has been sent, in order. */
  ghost predicate InOrderOf(ps: seq<Sent>, base: int, e: seq<Numbered>) {
    AllDigestible(e) && Increasing(e) && forall i :: 0 <= i < |e| ==> WasSent(ps, base, e[i])
  }

  lemma {:induction false} ArrivedWasSent(ps: seq<Sent>, base: int, all: seq<Numbered>, kept: seq<bool>)
    requires Lossless(ps, base, all) && |all| == |kept| + 1
    ensures InOrderOf(ps, base, Arrived(all, kept))
  {
    var n := |kept|;
    LeftWasSent(ps, base, all, kept, n);
    LeftIncreases(ps, base, all, kept, n);
    assert WasSent(ps, base, all[n]) && all[n].num == base + n;
    WasSentDigestible(ps, base, Arrived(all, kept));
  }

  /** Where packet `n` has its place among those that arrive. */
  lemma {:induction false} LeftPlace(all: seq<Numbered>, kept: seq<bool>, n: nat, m: nat)
    requires n <= m <= |kept| < |all|
    ensures |Left(all, kept, n)| <= |Left(all, kept, m)|
    ensures n < m && kept[n] ==> |Left(all, kept, n)| < |Left(all, kept, m)| && Left(all, kept, m)[|Left(all, kept, n)|] == all[n]
    decreases m
  {
    if n < m {
      LeftPlace(all, kept, n, m - 1);
    }
  }

  /** The extractor after `k` packets of `e` is `s`. */
  ghost predicate Makes(e: seq<Numbered>, k: nat, s: Extractor) {
    k <= |e| && AllDigestible(e) && Ingested(e, k) == s
  }

  lemma {:induction false} MakesOneMore(e: seq<Numbered>, k: nat, s: Extractor, pkt: RtpPacket)
    requires Makes(e, k, s) && k < |e| && e[k].pkt == pkt
    ensures Digestible(pkt) && Makes(e, k + 1, IngestOrdered(s, pkt))
  {
  }

  /** After `e` the key frame handed out consists of `nals`. */
  ghost predicate HandsOut(e: seq<Numbered>, nals: seq<seq<byte>>) {
    exists s :: Makes(e, |e|, s) && KeyFrameNals(s) == nals
  }

  lemma {:induction false} HandsOutKeyFrame(e: seq<Numbered>, nals: seq<seq<byte>>)
    requires HandsOut(e, nals)
    ensures AllDigestible(e) && KeyFrameNals(Ingested(e, |e|)) == nals
  {
  }

  lemma {:induction false} SurvivedOne(s: Extractor, wire: seq<RtpPacket>, kept: seq<bool>, n: nat)
    requires n < |wire| == |kept| && WireDigestible(wire)
    ensures Survived(s, wire, kept, n + 1) == if kept[n] then IngestOrdered(Survived(s, wire, kept, n), wire[n]) else Survived(s, wire, kept, n)
  {
  }

  lemma {:induction false} ArrivedNext(all: seq<Numbered>, wire: seq<RtpPacket>, kept: seq<bool>, n: nat)
    requires n < |kept| == |wire| && |all| == |kept| + 1 && WireDigestible(wire) && wire[n] == all[n].pkt
    requires Makes(Arrived(all, kept), |Left(all, kept, n)|, Survived(INITIAL, wire, kept, n))
    ensures Makes(Arrived(all, kept), |Left(all, kept, n + 1)|, Survived(INITIAL, wire, kept, n + 1))
  {
    SurvivedOne(INITIAL, wire, kept, n);
    if kept[n] {
      LeftPlace(all, kept, n, |kept|);
      MakesOneMore(Arrived(all, kept), |Left(all, kept, n)|, Survived(INITIAL, wire, kept, n), wire[n]);
    }
  }

  lemma {:induction false} ArrivedIsSurvived(all: seq<Numbered>, wire: seq<RtpPacket>, kept: seq<bool>, n: nat)
    requires n <= |kept| == |wire| && |all| == |kept| + 1 && WireDigestible(wire) && AllDigestible(Arrived(all, kept))
    requires forall i :: 0 <= i < |wire| ==> wire[i] == all[i].pkt
    ensures Makes(Arrived(all, kept), |Left(all, kept, n)|, Survived(INITIAL, wire, kept, n))
  {
    if n > 0 {
      ArrivedIsSurvived(all, wire, kept, n - 1);
      ArrivedNext(all, wire, kept, n - 1);
    }
  }

  // ---- One set, from the start ----

  lemma {:induction false} SentOrNot(nal: Nal, idr: Nal, made: seq<byte>)
    requires IsParameterSet(nal[0]) && NalType(idr[0]) == TYPE_IDR && made != [] && made[0] == nal[0]
    ensures SentIn([[nal], [idr]], made) <==> made == nal
    ensures SentIn([[nal], [idr]], idr)
  {
    var units: seq<Picture> := [[nal], [idr]];
    assert nal in units[0] && idr in units[1];
  }

  predicate BothEnds(kept: seq<bool>) {
    kept != [] && kept[0] && kept[|kept| - 1]
  }

  /** Nothing was cached, and nothing is buffered. */
  ghost predicate Blank(s: Extractor) {
    s.sps == [] && s.pps == [] && s.picBuf == [] && !s.idrReady
  }

  /** Without its first or its last fragment a set leaves no trace in the caches. */
  lemma {:induction false} EndLost(nal: Nal, pieces: seq<seq<byte>>, wire: seq<RtpPacket>, kept: seq<bool>)
    requires Fragmented(nal, pieces, wire) && WireDigestible(wire) && |kept| == |wire| && !BothEnds(kept)
    ensures Blank(Survived(INITIAL, wire, kept, |wire|))
  {
    if kept[|wire| - 1] {
      FragmentsCached(INITIAL, nal, pieces, wire, kept);
    } else {
      FragmentsGather(INITIAL, nal, pieces, wire, kept, |wire| - 1);
      SurvivedOne(INITIAL, wire, kept, |wire| - 1);
    }
  }

  /** An IDR picture after that is handed out alone, or dropped. */
  lemma {:induction false} IdrAlone(s: Extractor, idr: RtpPacket)
    requires Blank(s) && idr.marker && idr.payload != [] && NalType(idr.payload[0]) == TYPE_IDR
    ensures KeyFrameNals(IngestOrdered(s, idr)) == [] || KeyFrameNals(IngestOrdered(s, idr)) == [idr.payload]
  {
    var picture: Picture := [idr.payload];
    assert Append(NoteGap(s, idr), idr.payload).picBuf == picture;
  }

  /** What the key frame consists of. */
  ghost predicate KeyFrameIs(nals: seq<seq<byte>>, nal: Nal, pieces: seq<seq<byte>>, idr: Nal, kept: seq<bool>)
    requires |kept| == |pieces|
  {
    if BothEnds(kept) then nals == [[nal[0]] + KeptBytes(pieces, kept, |pieces|), idr] else nals == [] || nals == [idr]
  }

  /** How a set leaves the extractor. */
  ghost predicate SetLeft(s: Extractor, nal: Nal, pieces: seq<seq<byte>>, kept: seq<bool>)
    requires |kept| == |pieces|
  {
    if BothEnds(kept) then Caches(INITIAL, s, [nal[0]] + KeptBytes(pieces, kept, |pieces|)) && Clear(s) else Blank(s)
  }

  lemma {:induction false} SetTaken(nal: Nal, pieces: seq<seq<byte>>, wire: seq<RtpPacket>, kept: seq<bool>)
    requires OnWire(nal, pieces, wire) && WireDigestible(wire) && |kept| == |wire| == |pieces| && IsParameterSet(nal[0])
    ensures SetLeft(Survived(INITIAL, wire, kept, |wire|), nal, pieces, kept)
  {
    if BothEnds(kept) {
      FragmentedSetExactly(INITIAL, nal, pieces, wire, kept);
    } else {
      EndLost(nal, pieces, wire, kept);
    }
  }

  lemma {:induction false} SetPublished(s: Extractor, nal: Nal, pieces: seq<seq<byte>>, kept: seq<bool>, idr: RtpPacket)
    requires |kept| == |pieces| && SetLeft(s, nal, pieces, kept) && IsParameterSet(nal[0])
    requires idr.marker && idr.payload != [] && NalType(idr.payload[0]) == TYPE_IDR
    ensures KeyFrameIs(KeyFrameNals(IngestOrdered(s, idr)), nal, pieces, idr.payload, kept)
  {
    if BothEnds(kept) {
      NextKeyFramePublishes(s, idr);
    } else {
      IdrAlone(s, idr);
    }
  }

  lemma {:induction false} HandsOutBy(e: seq<Numbered>, s: Extractor, idr: RtpPacket)
    requires e != [] && Makes(e, |e| - 1, s) && e[|e| - 1].pkt == idr && Digestible(idr)
    ensures HandsOut(e, KeyFrameNals(IngestOrdered(s, idr)))
  {
    MakesOneMore(e, |e| - 1, s, idr);
  }

  lemma {:induction false} IdrDigestible(idr: RtpPacket)
    requires idr.payload != [] && NalType(idr.payload[0]) == TYPE_IDR
    ensures Digestible(idr)
  {
  }

  lemma {:induction false} SetArrives(nal: Nal, pieces: seq<seq<byte>>, all: seq<Numbered>, wire: seq<RtpPacket>, kept: seq<bool>) returns (s: Extractor)
    requires IsParameterSet(nal[0]) && |all| == |pieces| + 1 && |kept| == |wire| == |pieces|
    requires forall i :: 0 <= i < |wire| ==> wire[i] == all[i].pkt
    requires OnWire(nal, pieces, wire) && AllDigestible(Arrived(all, kept))
    ensures Makes(Arrived(all, kept), |Arrived(all, kept)| - 1, s) && SetLeft(s, nal, pieces, kept)
  {
    OnWireDigestible(nal, pieces, wire);
    s := ArrivesAs(all, wire, kept);
    SetTaken(nal, pieces, wire, kept);
  }

  lemma {:induction false} ArrivesAs(all: seq<Numbered>, wire: seq<RtpPacket>, kept: seq<bool>) returns (s: Extractor)
    requires |all| == |wire| + 1 && |kept| == |wire| && WireDigestible(wire) && AllDigestible(Arrived(all, kept))
    requires forall i :: 0 <= i < |wire| ==> wire[i] == all[i].pkt
    ensures s == Survived(INITIAL, wire, kept, |wire|) && Makes(Arrived(all, kept), |Arrived(all, kept)| - 1, s)
  {
    s := Survived(INITIAL, wire, kept, |wire|);
    ArrivedIsSurvived(all, wire, kept, |wire|);
    ArrivedLast(all, kept);
  }

  /** The run with the packets of the plan that arrive, from the first one on. */
  lemma {:induction false} KeyFrameMade(nal: Nal, pieces: seq<seq<byte>>, all: seq<Numbered>, wire: seq<RtpPacket>, kept: seq<bool>)
      returns (nals: seq<seq<byte>>)
    requires IsParameterSet(nal[0]) && |all| == |pieces| + 1 && |kept| == |wire| == |pieces|
    requires forall i :: 0 <= i < |wire| ==> wire[i] == all[i].pkt
    requires OnWire(nal, pieces, wire) && AllDigestible(Arrived(all, kept))
    requires var idr := all[|pieces|].pkt; idr.marker && idr.payload != [] && NalType(idr.payload[0]) == TYPE_IDR
    ensures HandsOut(Arrived(all, kept), nals) && KeyFrameIs(nals, nal, pieces, all[|pieces|].pkt.payload, kept)
  {
    var idr := all[|pieces|].pkt;
    var s := SetArrives(nal, pieces, all, wire, kept);
    ArrivedLast(all, kept);
    IdrDigestible(idr);
    HandsOutBy(Arrived(all, kept), s, idr);
    SetPublished(s, nal, pieces, kept, idr);
    nals := KeyFrameNals(IngestOrdered(s, idr));
  }

  ghost predicate AllSent(units: seq<Picture>, nals: seq<seq<byte>>) {
    forall i :: 0 <= i < |nals| ==> SentIn(units, nals[i])
  }

  lemma {:induction false} BothSent(units: seq<Picture>, a: seq<byte>, b: seq<byte>)
    ensures AllSent(units, [a, b]) <==> SentIn(units, a) && SentIn(units, b)
  {
    var nals := [a, b];
    assert nals[0] == a && nals[1] == b;
  }

  ghost predicate LostAreEmpty(pieces: seq<seq<byte>>, kept: seq<bool>)
    requires |kept| == |pieces|
  {
    forall i :: 0 <= i < |pieces| && !kept[i] ==> pieces[i] == []
  }

  lemma {:induction false} MadeSentExactly(nals: seq<seq<byte>>, nal: Nal, pieces: seq<seq<byte>>, idr: Nal, kept: seq<bool>)
    requires Planned(nal, pieces, idr) && |kept| == |pieces| && KeyFrameIs(nals, nal, pieces, idr, kept)
    ensures AllSent([[nal], [idr]], nals) <==> !BothEnds(kept) || LostAreEmpty(pieces, kept)
  {
    var made := [nal[0]] + KeptBytes(pieces, kept, |pieces|);
    SentOrNot(nal, idr, made);
    BothSent([[nal], [idr]], made, idr);
    SameSet(nal, pieces, kept);
  }

  /** For every parameter set, SPS or PPS, however it is cut into fragments and whatever is lost of them: the key frame
      handed out once the IDR picture after it has arrived consists of NALs that were sent if and only if the first or the
      last fragment was lost, in which case nothing is cached, or every fragment lost was empty. */
  lemma {:induction false} KeyFrameSentExactly(nal: Nal, pieces: seq<seq<byte>>, idr: Nal, base: int, all: seq<Numbered>, kept: seq<bool>)
    requires Planned(nal, pieces, idr) && Lossless(Packetize(SetThenIdr(nal, pieces, idr)), base, all)
    requires |all| == |pieces| + 1 && |kept| == |pieces|
    ensures var plan, e := SetThenIdr(nal, pieces, idr), Arrived(all, kept);
      && Stream(Units(plan), Packetize(plan)) && InOrderOf(Packetize(plan), base, e)
      && KeyFrameIs(KeyFrameNals(Ingested(e, |e|)), nal, pieces, idr, kept)
      && (AllSent(Units(plan), KeyFrameNals(Ingested(e, |e|))) <==> !BothEnds(kept) || LostAreEmpty(pieces, kept))
  {
    var plan, e := SetThenIdr(nal, pieces, idr), Arrived(all, kept);
    PlanPackets(nal, pieces, idr);
    PlansAreStreams(plan);
    ArrivedWasSent(Packetize(plan), base, all, kept);
    WireIsFragmented(Packetize(plan), nal, pieces, idr, base, all);
    var nals := KeyFrameMade(nal, pieces, all, Wire(all, 0, |pieces|), kept);
    HandsOutKeyFrame(e, nals);
    MadeSentExactly(nals, nal, pieces, idr, kept);
  }

  // ---- A set whose first fragment is lost behind an older one whose last is ----

  function TwoSetsThenIdr(prior: Nal, priors: seq<seq<byte>>, nal: Nal, pieces: seq<seq<byte>>, idr: Nal): seq<seq<Item>> {
    [[Split(prior, priors)], [Split(nal, pieces)], [OneNal(idr)]]
  }

  lemma {:induction false} TwoSetPackets(prior: Nal, priors: seq<seq<byte>>, nal: Nal, pieces: seq<seq<byte>>, idr: Nal)
    requires Planned(prior, priors, idr) && Planned(nal, pieces, idr)
    ensures var plan := TwoSetsThenIdr(prior, priors, nal, pieces, idr);
      && (forall k :: 0 <= k < |plan| ==> ValidUnit(plan[k])) && Units(plan) == [[prior], [nal], [idr]]
      && Packetize(plan) == TwoBlocks(prior, priors, nal, pieces, idr)
  {
    var a, b, c := [Split(prior, priors)], [Split(nal, pieces)], [OneNal(idr)];
    SplitUnit(0, prior, priors);
    SplitUnit(1, nal, pieces);
    IdrUnit(2, idr);
    ThreeUnits(a, b, c);
    ThreeValid(a, b, c);
  }

  lemma {:induction false} ThreeValid(a: seq<Item>, b: seq<Item>, c: seq<Item>)
    requires ValidUnit(a) && ValidUnit(b) && ValidUnit(c)
    ensures forall k :: 0 <= k < |[a, b, c]| ==> ValidUnit([a, b, c][k])
  {
  }

  lemma {:induction false} OneUnit(a: seq<Item>)
    ensures Units([a]) == [UnitNals(a, |a|)] && Packetize([a]) == UnitPackets(0, a, |a|)
  {
    assert [a][..0] == [] && Units([]) == [] && Packetize([]) == [];
  }

  lemma {:induction false} TwoUnits(a: seq<Item>, b: seq<Item>)
    ensures Units([a, b]) == [UnitNals(a, |a|), UnitNals(b, |b|)]
    ensures Packetize([a, b]) == UnitPackets(0, a, |a|) + UnitPackets(1, b, |b|)
  {
    OneUnit(a);
    assert [a, b][..1] == [a];
  }

  lemma {:induction false} ThreeUnits(a: seq<Item>, b: seq<Item>, c: seq<Item>)
    ensures Units([a, b, c]) == [UnitNals(a, |a|), UnitNals(b, |b|), UnitNals(c, |c|)]
    ensures Packetize([a, b, c]) == UnitPackets(0, a, |a|) + UnitPackets(1, b, |b|) + UnitPackets(2, c, |c|)
  {
    TwoUnits(a, b);
    assert [a, b, c][..2] == [a, b];
  }

  function TwoBlocks(prior: Nal, priors: seq<seq<byte>>, nal: Nal, pieces: seq<seq<byte>>, idr: Nal): seq<Sent>
    requires priors != [] && pieces != []
  {
    Block(0, prior, priors) + Block(1, nal, pieces) + [Sent(2, 0, Whole(idr), true)]
  }

  lemma {:induction false} BlocksInPlace(ps: seq<Sent>, prior: Nal, priors: seq<seq<byte>>, nal: Nal, pieces: seq<seq<byte>>, idr: Nal)
    requires priors != [] && pieces != [] && ps == TwoBlocks(prior, priors, nal, pieces, idr)
    ensures var n, m := |priors|, |pieces|;
      && |ps| == n + m + 1 && ps[n + m] == Sent(2, 0, Whole(idr), true)
      && ps[0..n] == Block(0, prior, priors) && ps[n..n + m] == Block(1, nal, pieces)
  {
    BlockLength(0, prior, priors);
    BlockLength(1, nal, pieces);
  }

  lemma {:induction false} TwoWires(ps: seq<Sent>, prior: Nal, priors: seq<seq<byte>>, nal: Nal, pieces: seq<seq<byte>>, idr: Nal, base: int, all: seq<Numbered>)
    requires Planned(prior, priors, idr) && Planned(nal, pieces, idr)
    requires Lossless(ps, base, all) && ps == TwoBlocks(prior, priors, nal, pieces, idr)
    ensures |all| == |priors| + |pieces| + 1
    ensures OnWire(prior, priors, Wire(all, 0, |priors|)) && OnWire(nal, pieces, Wire(all, |priors|, |pieces|))
    ensures var last := all[|priors| + |pieces|].pkt; last.marker && last.payload == idr
  {
    var n, m := |priors|, |pieces|;
    BlocksInPlace(ps, prior, priors, nal, pieces, idr);
    BlockIsFragmented(ps, base, all, 0, 0, prior, priors);
    BlockIsFragmented(ps, base, all, 1, n, nal, pieces);
    LastOnWire(ps, base, all, 2, idr);
  }

  /** The second set is taken from where the first one left the extractor. */
  lemma {:induction false} SurvivedOn(s: Extractor, a: seq<RtpPacket>, b: seq<RtpPacket>, ka: seq<bool>, kb: seq<bool>, n: nat)
    requires |ka| == |a| && |kb| == |b| && n <= |b| && WireDigestible(a) && WireDigestible(b) && WireDigestible(a + b)
    ensures Survived(s, a + b, ka + kb, |a| + n) == Survived(Survived(s, a, ka, |a|), b, kb, n)
  {
    if n == 0 {
      SurvivedPrefix(s, a, b, ka, kb, |a|);
    } else {
      SurvivedOn(s, a, b, ka, kb, n - 1);
      SurvivedOne(s, a + b, ka + kb, |a| + n - 1);
      SurvivedOne(Survived(s, a, ka, |a|), b, kb, n - 1);
    }
  }

  lemma {:induction false} SurvivedPrefix(s: Extractor, a: seq<RtpPacket>, b: seq<RtpPacket>, ka: seq<bool>, kb: seq<bool>, n: nat)
    requires |ka| == |a| && |kb| == |b| && n <= |a| && WireDigestible(a) && WireDigestible(a + b)
    ensures Survived(s, a + b, ka + kb, n) == Survived(s, a, ka, n)
  {
    if n > 0 {
      SurvivedPrefix(s, a, b, ka, kb, n - 1);
      SurvivedOne(s, a + b, ka + kb, n - 1);
      SurvivedOne(s, a, ka, n - 1);
    }
  }

  /** The first set has begun and not ended, the second ends without having begun. */
  predicate Spliced(ka: seq<bool>, kb: seq<bool>) {
    ka != [] && ka[0] && !ka[|ka| - 1] && kb != [] && !kb[0] && kb[|kb| - 1]
  }

  function Joint(prior: Nal, priors: seq<seq<byte>>, pieces: seq<seq<byte>>, ka: seq<bool>, kb: seq<bool>): Nal
    requires |ka| == |priors| && |kb| == |pieces|
  {
    [prior[0]] + KeptBytes(priors, ka, |priors|) + KeptBytes(pieces, kb, |pieces|)
  }

  lemma {:induction false} JointHead(prior: Nal, priors: seq<seq<byte>>, pieces: seq<seq<byte>>, ka: seq<bool>, kb: seq<bool>)
    requires |ka| == |priors| && |kb| == |pieces|
    ensures Joint(prior, priors, pieces, ka, kb)[0] == prior[0]
  {
  }

  lemma {:induction false} SplicedCached(prior: Nal, priors: seq<seq<byte>>, nal: Nal, pieces: seq<seq<byte>>, a: seq<RtpPacket>, b: seq<RtpPacket>,
      ka: seq<bool>, kb: seq<bool>)
    requires OnWire(prior, priors, a) && OnWire(nal, pieces, b) && WireDigestible(a) && WireDigestible(b)
    requires |ka| == |a| == |priors| && |kb| == |b| == |pieces| && Spliced(ka, kb)
    ensures var s := Survived(Survived(INITIAL, a, ka, |a|), b, kb, |b|);
      Caches(INITIAL, s, Joint(prior, priors, pieces, ka, kb)) && Clear(s)
  {
    var s1 := Survived(INITIAL, a, ka, |a|);
    FragmentsGather(INITIAL, prior, priors, a, ka, |a| - 1);
    SurvivedOne(INITIAL, a, ka, |a| - 1);
    ExtendedOn(Partial([prior[0]]), priors, ka, |a| - 1);
    FragmentsCached(s1, nal, pieces, b, kb);
  }

  lemma {:induction false} BothDigestible(a: seq<RtpPacket>, b: seq<RtpPacket>)
    requires WireDigestible(a) && WireDigestible(b)
    ensures WireDigestible(a + b)
  {
  }

  lemma {:induction false} BothWires(all: seq<Numbered>, wire: seq<RtpPacket>, a: seq<RtpPacket>, b: seq<RtpPacket>, ka: seq<bool>, kb: seq<bool>)
    requires |all| == |wire| + 1 && wire == a + b && |ka| == |a| && |kb| == |b|
    requires (forall i :: 0 <= i < |wire| ==> wire[i] == all[i].pkt) && AllDigestible(Arrived(all, ka + kb))
    requires WireDigestible(a) && WireDigestible(b) && WireDigestible(wire)
    ensures Makes(Arrived(all, ka + kb), |Arrived(all, ka + kb)| - 1, Survived(Survived(INITIAL, a, ka, |a|), b, kb, |b|))
  {
    ArrivedIsSurvived(all, wire, ka + kb, |wire|);
    SurvivedOn(INITIAL, a, b, ka, kb, |b|);
  }

  lemma {:induction false} JointSentExactly(prior: Nal, nal: Nal, idr: Nal, made: Nal)
    requires IsParameterSet(made[0]) && NalType(idr[0]) == TYPE_IDR
    ensures AllSent([[prior], [nal], [idr]], [made, idr]) <==> made == prior || made == nal
  {
    var units: seq<Picture> := [[prior], [nal], [idr]];
    assert prior in units[0] && nal in units[1] && idr in units[2];
    BothSent(units, made, idr);
  }

  lemma {:induction false} TwoSetsArrive(prior: Nal, priors: seq<seq<byte>>, nal: Nal, pieces: seq<seq<byte>>, idr: Nal, base: int,
      all: seq<Numbered>, kept: seq<bool>)
    requires Planned(prior, priors, idr) && Planned(nal, pieces, idr)
    requires Lossless(Packetize(TwoSetsThenIdr(prior, priors, nal, pieces, idr)), base, all) && |all| == |kept| + 1
    ensures var plan := TwoSetsThenIdr(prior, priors, nal, pieces, idr);
      Units(plan) == [[prior], [nal], [idr]] && Packetize(plan) == TwoBlocks(prior, priors, nal, pieces, idr) && Stream(Units(plan), Packetize(plan)) && InOrderOf(Packetize(plan), base, Arrived(all, kept))
  {
    var plan := TwoSetsThenIdr(prior, priors, nal, pieces, idr);
    TwoSetPackets(prior, priors, nal, pieces, idr);
    PlansAreStreams(plan);
    ArrivedWasSent(Packetize(plan), base, all, kept);
  }

  /** All but the last packet of `e` leave `made` in the cache, and nothing buffered. */
  ghost predicate LeavesCached(e: seq<Numbered>, made: Nal) {
    e != [] && exists s :: Makes(e, |e| - 1, s) && Caches(INITIAL, s, made) && Clear(s)
  }

  lemma {:induction false} SplicedLeaves(ps: seq<Sent>, prior: Nal, priors: seq<seq<byte>>, nal: Nal, pieces: seq<seq<byte>>, idr: Nal, base: int,
      all: seq<Numbered>, ka: seq<bool>, kb: seq<bool>)
    requires Planned(prior, priors, idr) && Planned(nal, pieces, idr)
    requires Lossless(ps, base, all) && ps == TwoBlocks(prior, priors, nal, pieces, idr) && |all| == |priors| + |pieces| + 1
    requires |ka| == |priors| && |kb| == |pieces| && Spliced(ka, kb) && AllDigestible(Arrived(all, ka + kb))
    ensures LeavesCached(Arrived(all, ka + kb), Joint(prior, priors, pieces, ka, kb))
    ensures var last := all[|ka + kb|].pkt; last.marker && last.payload == idr
  {
    TwoWires(ps, prior, priors, nal, pieces, idr, base, all);
    SplicedOnWires(prior, priors, nal, pieces, all, Wire(all, 0, |priors|), Wire(all, |priors|, |pieces|), ka, kb);
  }

  lemma {:induction false} SplicedKeyFrame(all: seq<Numbered>, kept: seq<bool>, made: Nal, idr: Nal)
    requires |all| == |kept| + 1 && LeavesCached(Arrived(all, kept), made) && IsParameterSet(made[0])
    requires all[|kept|].pkt.marker && all[|kept|].pkt.payload == idr && NalType(idr[0]) == TYPE_IDR
    ensures HandsOut(Arrived(all, kept), [made, idr])
  {
    ArrivedLast(all, kept);
    SetHandedOut(Arrived(all, kept), all[|kept|].pkt, made);
  }

  lemma {:induction false} WiresJoin(all: seq<Numbered>, n: nat, m: nat)
    requires n + m <= |all|
    ensures Wire(all, 0, n + m) == Wire(all, 0, n) + Wire(all, n, m)
  {
  }

  lemma {:induction false} SplicedOnWires(prior: Nal, priors: seq<seq<byte>>, nal: Nal, pieces: seq<seq<byte>>, all: seq<Numbered>,
      a: seq<RtpPacket>, b: seq<RtpPacket>, ka: seq<bool>, kb: seq<bool>)
    requires |ka| == |priors| && |kb| == |pieces| && |all| == |priors| + |pieces| + 1
    requires a == Wire(all, 0, |priors|) && b == Wire(all, |priors|, |pieces|)
    requires OnWire(prior, priors, a) && OnWire(nal, pieces, b)
    requires Spliced(ka, kb) && AllDigestible(Arrived(all, ka + kb))
    ensures LeavesCached(Arrived(all, ka + kb), Joint(prior, priors, pieces, ka, kb))
  {
    var n, m := |priors|, |pieces|;
    WiresJoin(all, n, m);
    var s := SplicedArrives(prior, priors, nal, pieces, all, Wire(all, 0, n + m), a, b, ka, kb);
  }

  lemma {:induction false} SetHandedOut(e: seq<Numbered>, idr: RtpPacket, made: Nal)
    requires LeavesCached(e, made) && e[|e| - 1].pkt == idr && IsParameterSet(made[0])
    requires idr.marker && idr.payload != [] && NalType(idr.payload[0]) == TYPE_IDR
    ensures HandsOut(e, [made, idr.payload])
  {
    var s :| Makes(e, |e| - 1, s) && Caches(INITIAL, s, made) && Clear(s);
    IdrDigestible(idr);
    HandsOutBy(e, s, idr);
    PublishesOne(s, idr, made);
  }

  lemma {:induction false} PublishesOne(s: Extractor, idr: RtpPacket, made: Nal)
    requires Caches(INITIAL, s, made) && Clear(s) && IsParameterSet(made[0])
    requires idr.marker && idr.payload != [] && NalType(idr.payload[0]) == TYPE_IDR
    ensures KeyFrameNals(IngestOrdered(s, idr)) == [made, idr.payload]
  {
    NextKeyFramePublishes(s, idr);
    assert IfAny(s.sps) + IfAny(s.pps) == [made];
  }

  lemma {:induction false} SplicedArrives(prior: Nal, priors: seq<seq<byte>>, nal: Nal, pieces: seq<seq<byte>>, all: seq<Numbered>,
      wire: seq<RtpPacket>, a: seq<RtpPacket>, b: seq<RtpPacket>, ka: seq<bool>, kb: seq<bool>) returns (s: Extractor)
    requires |all| == |wire| + 1 && wire == a + b && |ka| == |a| == |priors| && |kb| == |b| == |pieces|
    requires (forall i :: 0 <= i < |wire| ==> wire[i] == all[i].pkt) && AllDigestible(Arrived(all, ka + kb))
    requires OnWire(prior, priors, a) && OnWire(nal, pieces, b) && Spliced(ka, kb)
    ensures Makes(Arrived(all, ka + kb), |Arrived(all, ka + kb)| - 1, s)
    ensures Caches(INITIAL, s, Joint(prior, priors, pieces, ka, kb)) && Clear(s)
  {
    OnWireDigestible(prior, priors, a);
    OnWireDigestible(nal, pieces, b);
    BothDigestible(a, b);
    BothWires(all, wire, a, b, ka, kb);
    SplicedCached(prior, priors, nal, pieces, a, b, ka, kb);
    s := Survived(Survived(INITIAL, a, ka, |a|), b, kb, |b|);
  }

  /** When the last fragment of one set and the first of the next are lost, the two are spliced: the key frame begins with
      the first byte of the older set, what arrived of it, and what arrived of the newer one. It consists of NALs that were
      sent if and only if that happens to be one of the two. */
  lemma {:induction false} SplicedSetPublished(prior: Nal, priors: seq<seq<byte>>, nal: Nal, pieces: seq<seq<byte>>, idr: Nal, base: int,
      all: seq<Numbered>, ka: seq<bool>, kb: seq<bool>)
    requires Planned(prior, priors, idr) && Planned(nal, pieces, idr)
    requires Lossless(Packetize(TwoSetsThenIdr(prior, priors, nal, pieces, idr)), base, all) && |all| == |priors| + |pieces| + 1
    requires |ka| == |priors| && |kb| == |pieces| && Spliced(ka, kb)
    ensures var plan, e := TwoSetsThenIdr(prior, priors, nal, pieces, idr), Arrived(all, ka + kb);
      && Stream(Units(plan), Packetize(plan)) && InOrderOf(Packetize(plan), base, e)
      && var made := Joint(prior, priors, pieces, ka, kb);
      && KeyFrameNals(Ingested(e, |e|)) == [made, idr]
      && (AllSent(Units(plan), [made, idr]) <==> made == prior || made == nal)
  {
    TwoSetsArrive(prior, priors, nal, pieces, idr, base, all, ka + kb);
    SplicedLeaves(Packetize(TwoSetsThenIdr(prior, priors, nal, pieces, idr)), prior, priors, nal, pieces, idr, base, all, ka, kb);
    JointHead(prior, priors, pieces, ka, kb);
    SplicedKeyFrame(all, ka + kb, Joint(prior, priors, pieces, ka, kb), idr);
    HandsOutKeyFrame(Arrived(all, ka + kb), [Joint(prior, priors, pieces, ka, kb), idr]);
    JointSentExactly(prior, nal, idr, Joint(prior, priors, pieces, ka, kb));
  }

  const OLD_SPS: Nal := [7, 1, 2]
  const NEW_SPS: Nal := [7, 3]
  const IDR_SLICE: Nal := [5]

  lemma {:induction false} CutInTwo(nal: Nal, a: seq<byte>, b: seq<byte>)
    requires nal[0] == TYPE_SPS && nal == [TYPE_SPS] + a + b
    ensures Planned(nal, [a, b], IDR_SLICE)
  {
    ConcatTwo(a, b);
    assert [nal[0]] + (a + b) == [nal[0]] + a + b;
  }

  /** Two SPS of which this makes a third, though nothing but an empty fragment of the second was lost. */
  lemma {:induction false} SplicedSetNeverSent()
    ensures Planned(OLD_SPS, [[1], [2]], IDR_SLICE) && Planned(NEW_SPS, [[], [3]], IDR_SLICE)
    ensures Spliced([true, false], [false, true]) && LostAreEmpty([[], [3]], [false, true])
    ensures Joint(OLD_SPS, [[1], [2]], [[], [3]], [true, false], [false, true]) == [7, 1, 3]
    ensures [7, 1, 3] != OLD_SPS && [7, 1, 3] != NEW_SPS
  {
    CutInTwo(OLD_SPS, [1], [2]);
    CutInTwo(NEW_SPS, [], [3]);
    KeptTwo([1], [2], true, false);
    KeptTwo([], [3], false, true);
  }

  lemma {:induction false} ConcatTwo(a: seq<byte>, b: seq<byte>)
    ensures Concat([a, b]) == a + b
  {
    assert [a, b][1..] == [b] && [b][1..] == [];
    assert Concat([b]) == b + [] == b;
  }

  lemma {:induction false} KeptTwo(a: seq<byte>, b: seq<byte>, ka: bool, kb: bool)
    ensures KeptBytes([a, b], [ka, kb], 2) == (if ka then a else []) + (if kb then b else [])
  {
    assert KeptBytes([a, b], [ka, kb], 1) == if ka then a else [];
  }
}
