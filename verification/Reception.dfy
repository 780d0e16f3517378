/** From arriving packets to committed pictures: the reorder buffer and the depacketizer put together. */
module Reception {
  import opened SequenceNumbers
  import opened Rtp
  import opened Resequencing
  import opened ReorderBuffer
  import opened ResequencingRuns
  import opened ResequencingBounds
  import opened Depacketizer
  import opened Packetization
  import opened PictureIntegrity
  import opened LossyStreams

  // ---- The 16-bit buffer over whole runs ----

  datatype Receiver = Receiver(hasNext: bool, buf: Narrow, out: seq<RtpPacket>)

  /** What `push` makes of a run of arrivals: its 16-bit state and everything it handed on. */
  function Run16(evs: seq<Event>): Receiver {
    if evs == [] then
      Receiver(false, Narrow(0, map[]), [])
    else
      var ev := evs[|evs| - 1];
      var r := Run16(evs[..|evs| - 1]);
      var p := Push16(if r.hasNext then r.buf else Narrow(ev.pkt.number, map[]), ev.pkt, ev.expired);
      Receiver(true, p.0, r.out + p.1)
  }

  /** Over whole runs, wraparounds included, the 16-bit buffer hands on what the unbounded one does. */
  lemma {:induction false} Run16Refines(origin: int, evs: seq<Event>)
    requires evs != [] && Wrap(origin) == evs[0].pkt.number
    ensures Run16(evs).hasNext
    ensures Represents(Run16(evs).buf, Run(origin, evs).buf) && Run(origin, evs).buf.InWindow(1)
    ensures Run16(evs).out == Packets(Run(origin, evs).out)
  {
    var n := |evs| - 1;
    var ev := evs[n];
    if n == 0 {
      assert evs[..0] == [];
      StartWraps(ev.pkt, origin);
      PushWraps(Narrow(ev.pkt.number, map[]), Buffer(origin, map[]), ev.pkt, ev.expired);
      var p := Push(Buffer(origin, map[]), ev.pkt, ev.expired);
      assert [] + p.out == p.out;
    } else {
      Run16Refines(origin, evs[..n]);
      var l := Run(origin, evs[..n]);
      PushWraps(Run16(evs[..n]).buf, l.buf, ev.pkt, ev.expired);
      PacketsSplit(l.out, Push(l.buf, ev.pkt, ev.expired).out);
    }
  }

  // ---- Arrivals of a stream ----

  /** Arrival `t` is packet `index[t]` of the stream, and within the half-window of the receiver, so that 16 bits
      tell its number. */
  ghost predicate ArrivalOf(ps: seq<Sent>, base: int, evs: seq<Event>, index: seq<nat>, t: nat)
    requires t < |evs| == |index|
  {
    && index[t] < |ps|
    && Carries(evs[t].pkt, ps[index[t]], base + index[t])
    && -0x8000 <= base + index[t] - Run(base + index[0], evs[..t]).buf.next < 0x8000
  }

  ghost predicate Arrivals(ps: seq<Sent>, base: int, evs: seq<Event>, index: seq<nat>) {
    |index| == |evs| > 0 && forall t :: 0 <= t < |evs| ==> ArrivalOf(ps, base, evs, index, t)
  }

  /** No two consecutive packets handed on are 32768 numbers apart: the one gap that 16 bits misread. */
  ghost predicate NoHalfCycleGap(out: seq<Numbered>) {
    forall i :: 0 <= i < |out| - 1 ==> out[i + 1].num - out[i].num != 0x8000
  }

  lemma {:induction false} ArrivalNumbered(ps: seq<Sent>, base: int, evs: seq<Event>, index: seq<nat>, t: nat)
    requires Arrivals(ps, base, evs, index) && t < |evs|
    ensures NumberAt(base + index[0], evs, t) == base + index[t]
  {
    assert ArrivalOf(ps, base, evs, index, t);
    UnwrapExact(Run(base + index[0], evs[..t]).buf.next, base + index[t]);
  }

  lemma {:induction false} ArrivalWasSent(ps: seq<Sent>, base: int, evs: seq<Event>, index: seq<nat>, t: nat)
    requires Arrivals(ps, base, evs, index) && t < |evs|
    ensures WasSent(ps, base, Numbered(NumberAt(base + index[0], evs, t), evs[t].pkt))
  {
    ArrivalNumbered(ps, base, evs, index, t);
    ArrivalCarries(ps, base, evs, index, t);
    SentUnder(ps, base, evs[t].pkt, index[t]);
  }

  lemma {:induction false} ArrivalCarries(ps: seq<Sent>, base: int, evs: seq<Event>, index: seq<nat>, t: nat)
    requires Arrivals(ps, base, evs, index) && t < |evs|
    ensures index[t] < |ps| && Carries(evs[t].pkt, ps[index[t]], base + index[t])
  {
    assert ArrivalOf(ps, base, evs, index, t);
  }

  lemma {:induction false} SentUnder(ps: seq<Sent>, base: int, pkt: RtpPacket, i: nat)
    requires i < |ps| && Carries(pkt, ps[i], base + i)
    ensures WasSent(ps, base, Numbered(base + i, pkt))
  {
    assert base + i - base == i;
  }

  lemma {:induction false} EmittedWasSent(ps: seq<Sent>, base: int, evs: seq<Event>, index: seq<nat>, i: nat)
    requires Arrivals(ps, base, evs, index) && i < |Run(base + index[0], evs).out|
    ensures WasSent(ps, base, Run(base + index[0], evs).out[i])
  {
    var t := EmittedAsGiven(base + index[0], evs, i);
    ArrivalWasSent(ps, base, evs, index, t);
  }

  lemma {:induction false} EmittedWereSent(ps: seq<Sent>, base: int, evs: seq<Event>, index: seq<nat>)
    requires Arrivals(ps, base, evs, index)
    ensures var out := Run(base + index[0], evs).out; forall i :: 0 <= i < |out| ==> WasSent(ps, base, out[i])
  {
    var out := Run(base + index[0], evs).out;
    forall i | 0 <= i < |out| ensures WasSent(ps, base, out[i]) {
      EmittedWasSent(ps, base, evs, index, i);
    }
  }

  lemma {:induction false} FirstArrivalNumber(ps: seq<Sent>, base: int, evs: seq<Event>, index: seq<nat>)
    requires Arrivals(ps, base, evs, index)
    ensures evs[0].pkt.number == Wrap(base + index[0])
  {
    assert ArrivalOf(ps, base, evs, index, 0);
  }

  lemma {:induction false} FitIncreases(out: seq<Numbered>)
    requires GapsFit(out)
    ensures Increasing(out)
    ensures NoHalfCycleGap(out) ==> GapsReadable(out) && HolesSeen(out)
  {
    forall i {:trigger out[i]} | 0 < i < |out| ensures out[i - 1].num < out[i].num {
      assert 0 < out[i - 1 + 1].num - out[i - 1].num;
    }
    if NoHalfCycleGap(out) {
      ReadableGapsSeen(out);
    }
  }

  lemma {:induction false} SentInOrderIsReceived(ps: seq<Sent>, base: int, out: seq<Numbered>)
    requires forall i :: 0 <= i < |out| ==> WasSent(ps, base, out[i])
    requires GapsFit(out) && HolesSeen(out)
    ensures Received(ps, base, out) && AllDigestible(out)
  {
    FitIncreases(out);
    WasSentDigestible(ps, base, out);
  }

  /** Packets of the stream, from number `origin` on, in order and never more than 32768 apart. */
  ghost predicate HandedOn(ps: seq<Sent>, base: int, origin: int, out: seq<Numbered>) {
    exists e: seq<Numbered> :: e == out && e != [] && e[0].num == origin && GapsFit(e) && forall i :: 0 <= i < |e| ==> WasSent(ps, base, e[i])
  }

  /** What the buffer hands on is what is left of the stream. */
  lemma {:induction false} ArrivalsHandOn(ps: seq<Sent>, base: int, evs: seq<Event>, index: seq<nat>)
    requires Arrivals(ps, base, evs, index)
    ensures HandedOn(ps, base, base + index[0], Run(base + index[0], evs).out)
    ensures evs[0].pkt.number == Wrap(base + index[0])
  {
    FirstArrivalNumber(ps, base, evs, index);
    ClosedRun(base + index[0], evs);
    EmittedWereSent(ps, base, evs, index);
    HandsOn(ps, base, base + index[0], Run(base + index[0], evs).out);
  }

  lemma {:induction false} HandsOn(ps: seq<Sent>, base: int, origin: int, out: seq<Numbered>)
    requires out != [] && out[0].num == origin && GapsFit(out) && forall i :: 0 <= i < |out| ==> WasSent(ps, base, out[i])
    ensures HandedOn(ps, base, origin, out)
  {
  }

  lemma {:induction false} PacketsPrefix(e: seq<Numbered>, n: nat)
    requires n < |e|
    ensures Packets(e[..n + 1]) == Packets(e[..n]) + [e[n].pkt]
  {
    assert e[..n + 1] == e[..n] + [e[n]];
    PacketsSplit(e[..n], [e[n]]);
    assert Packets([e[n]]) == [e[n].pkt];
  }

  lemma {:induction false} PacketsParse(e: seq<Numbered>)
    requires AllDigestible(e)
    ensures forall i :: 0 <= i < |e| ==> Digestible(Packets(e)[i])
  {
    forall i | 0 <= i < |e| ensures Digestible(Packets(e)[i]) {
      PacketAt(e, i);
    }
  }

  /** The two ways of running the extractor over packets agree. */
  lemma {:induction false} IngestedIsIngestAll(e: seq<Numbered>, n: nat)
    requires AllDigestible(e) && n <= |e|
    ensures forall i :: 0 <= i < n ==> Digestible(Packets(e[..n])[i])
    ensures IngestAll(INITIAL, Packets(e[..n])) == Ingested(e, n)
  {
    PacketsParse(e[..n]);
    if n > 0 {
      IngestedIsIngestAll(e, n - 1);
      PacketsPrefix(e, n - 1);
      assert Packets(e[..n])[..n - 1] == Packets(e[..n - 1]);
    }
  }

  lemma {:induction false} HandedOnCommitsSuffixes(units: seq<Picture>, ps: seq<Sent>, base: int, origin: int, out: seq<Numbered>)
    requires Stream(units, ps) && HandedOn(ps, base, origin, out) && HolesSeen(out)
    ensures AllDigestible(out) && Traceable(Ingested(out, |out|).committed, units, |units|)
  {
    SentInOrderIsReceived(ps, base, out);
    CommittedAreSuffixes(units, ps, base, out);
  }

  /** The pictures made of what a run of the buffer hands on can be traced to the stream. */
  ghost predicate CommitsSuffixes(units: seq<Picture>, pkts: seq<RtpPacket>) {
    exists s :: Extracts(pkts, s) && Traceable(s.committed, units, |units|)
  }

  /** The extractor can parse all of `pkts`, and is `s` after them. */
  ghost predicate Extracts(pkts: seq<RtpPacket>, s: Extractor) {
    (forall i :: 0 <= i < |pkts| ==> Digestible(pkts[i])) && IngestAll(INITIAL, pkts) == s
  }

  lemma {:induction false} PacketsCommitSuffixes(units: seq<Picture>, out: seq<Numbered>)
    requires AllDigestible(out) && Traceable(Ingested(out, |out|).committed, units, |units|)
    ensures CommitsSuffixes(units, Packets(out))
  {
    IngestedIsIngestAll(out, |out|);
    assert out[..|out|] == out;
    assert Extracts(Packets(out), Ingested(out, |out|));
  }

  /** The recorder's promise, from the network to the pictures: however the packets of a well-formed stream are lost,
      duplicated, delayed and reordered within the half-window, and whenever the buffer gives up, as long as the gap check
      overlooks no hole in what is handed on, every picture committed is a non-empty suffix of one access unit, byte for
      byte, each of a later unit than the one before. */
  lemma {:induction false} ReceivedPicturesAreSuffixes(units: seq<Picture>, ps: seq<Sent>, base: int, evs: seq<Event>, index: seq<nat>)
    requires Stream(units, ps) && Arrivals(ps, base, evs, index)
    requires HolesSeen(Run(base + index[0], evs).out)
    ensures CommitsSuffixes(units, Run16(evs).out)
  {
    ArrivalsHandOn(ps, base, evs, index);
    LedgerCommitsSuffixes(units, ps, base, base + index[0], evs);
  }

  lemma {:induction false} LedgerCommitsSuffixes(units: seq<Picture>, ps: seq<Sent>, base: int, origin: int, evs: seq<Event>)
    requires Stream(units, ps) && evs != [] && Wrap(origin) == evs[0].pkt.number
    requires HandedOn(ps, base, origin, Run(origin, evs).out) && HolesSeen(Run(origin, evs).out)
    ensures CommitsSuffixes(units, Run16(evs).out)
  {
    HandedOnCommitsSuffixes(units, ps, base, origin, Run(origin, evs).out);
    PacketsCommitSuffixes(units, Run(origin, evs).out);
    Run16Refines(origin, evs);
  }

  // ---- What the gap counter counts ----

  function GivenUps(trail: seq<Slot>): nat {
    if trail == [] then 0
    else GivenUps(trail[..|trail| - 1]) + (if trail[|trail| - 1].GivenUp? then 1 else 0)
  }

  /** The numbers given up since the last emitted packet. */
  function GivenUpSince(trail: seq<Slot>): nat {
    if trail == [] || !trail[|trail| - 1].GivenUp? then 0 else GivenUpSince(trail[..|trail| - 1]) + 1
  }

  lemma {:induction false} TrailCounts(origin: int, trail: seq<Slot>)
    ensures var e := Emissions(origin, trail);
      && |e| + GivenUps(trail) == |trail|
      && (e != [] ==> e[|e| - 1].num == origin + |trail| - 1 - GivenUpSince(trail))
  {
    if trail != [] {
      TrailCounts(origin, trail[..|trail| - 1]);
    }
  }

  lemma {:induction false} LostOverRun(ps: seq<Sent>, base: int, e: seq<Numbered>)
    requires e != [] && GapsReadable(e) && AllDigestible(e) && forall i :: 0 <= i < |e| ==> WasSent(ps, base, e[i])
    ensures Ingested(e, |e|).lostPackets == e[|e| - 1].num - e[0].num - (|e| - 1)
  {
    forall i | 0 <= i < |e| ensures e[i].pkt.number == Wrap(e[i].num) {
      assert WasSent(ps, base, e[i]);
    }
    SameCount(e, |e|);
    assert e[..|e|] == e;
    CounterExact(e);
  }

  lemma {:induction false} LostHandedOn(ps: seq<Sent>, base: int, origin: int, out: seq<Numbered>)
    requires HandedOn(ps, base, origin, out) && NoHalfCycleGap(out)
    ensures AllDigestible(out) && Ingested(out, |out|).lostPackets == out[|out| - 1].num - out[0].num - (|out| - 1)
  {
    FitIncreases(out);
    SentInOrderIsReceived(ps, base, out);
    LostOverRun(ps, base, out);
  }

  lemma {:induction false} LostOnTrail(origin: int, l: Ledger)
    requires InOrder(origin, l) && l.out != [] && l.out[0].num == origin
    ensures l.out[|l.out| - 1].num - l.out[0].num - (|l.out| - 1) == GivenUps(l.trail) - GivenUpSince(l.trail)
  {
    TrailCounts(origin, l.trail);
  }

  ghost predicate CountsGivenUps(l: Ledger) {
    AllDigestible(l.out) && Ingested(l.out, |l.out|).lostPackets == GivenUps(l.trail) - GivenUpSince(l.trail)
  }

  lemma {:induction false} LostInLedger(ps: seq<Sent>, base: int, origin: int, l: Ledger)
    requires InOrder(origin, l) && HandedOn(ps, base, origin, l.out) && NoHalfCycleGap(l.out)
    ensures CountsGivenUps(l)
  {
    LostOnTrail(origin, l);
    LostHandedOn(ps, base, origin, l.out);
  }

  /** While no two consecutive packets handed on are 32768 apart, `lostPackets` is exactly the number of sequence numbers
      given up between the first and the last emitted packet. */
  lemma {:induction false} LostIsGivenUp(ps: seq<Sent>, base: int, evs: seq<Event>, index: seq<nat>)
    requires Arrivals(ps, base, evs, index) && NoHalfCycleGap(Run(base + index[0], evs).out)
    ensures CountsGivenUps(Run(base + index[0], evs))
  {
    ArrivalsHandOn(ps, base, evs, index);
    OrderedRun(base + index[0], evs);
    LostInLedger(ps, base, base + index[0], Run(base + index[0], evs));
  }

  /** A run of the buffer after which the depacketizer takes a packet that is next in order for an old one. */
  lemma {:induction false} OrderedPacketMisread(p: RtpPacket, q: RtpPacket)
    requires p.number == 0 && q.number == 0x8000
    ensures var out := Run(0, HalfCycle(p, q)).out;
      |out| == 2 && GapsFit(out) && !NoHalfCycleGap(out) && !GapsReadable(out) && ReadsOutOfOrder(out, 1)
  {
    HalfCycleGapMet(p, q);
    MisreadAfter(Run(0, HalfCycle(p, q)).out);
  }

  lemma {:induction false} MisreadAfter(out: seq<Numbered>)
    requires |out| == 2 && out[0].num == 0 && out[1].num == 0x8000
    ensures GapsFit(out) && !NoHalfCycleGap(out) && !GapsReadable(out) && ReadsOutOfOrder(out, 1)
  {
    assert out[..1] == [out[0]];
    CounterExact(out[..1]);
    DeltaOfNumbers(out[0].num, out[1].num);
    assert out[1].num - out[0].num == 0x8000;
  }
}
