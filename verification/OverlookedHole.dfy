/** From the network to a committed picture with a hole in it: the run that `ReceivedPicturesAreSuffixes` excludes. */
module OverlookedHole {
  import opened SequenceNumbers
  import opened Rtp
  import opened Resequencing
  import opened ResequencingRuns
  import opened ResequencingBounds
  import opened Depacketizer
  import opened Packetization
  import opened LossyStreams
  import opened HiddenHoles
  import opened Reception

  const ANY := RtpPacket(0, 0, false, [])

  /** The numbers handed on: the check never accepts 32768 and 65530, and takes 65537 for the next number after 0. */
  const Overlooked: seq<Numbered> := [Numbered(0, ANY), Numbered(0x8000, ANY), Numbered(0xFFFA, ANY), Numbered(0x1_0001, ANY)]

  lemma {:induction false} OverlookedHidden()
    ensures Hidden(Overlooked, 3)
  {
    CountedThree(Overlooked);
  }

  lemma {:induction false} CountedThree(d: seq<Numbered>)
    requires |d| == 4 && d[0].num == 0 && d[1].num == 0x8000 && d[2].num == 0xFFFA
    ensures Counted(d[..3]).hasPrevSeq && Counted(d[..3]).prevSeq == 0
  {
    assert d[..3][..2] == d[..2] && d[..2][..1] == d[..1] && d[..1][..0] == [];
    assert Counted(d[..1]).hasPrevSeq && Counted(d[..1]).prevSeq == 0;
    assert Counted(d[..2]).hasPrevSeq && Counted(d[..2]).prevSeq == 0;
  }

  // ---- Arrivals that make the buffer hand these on ----

  /** The arrivals, and which packet of the stream each is. */
  datatype Schedule = Schedule(evs: seq<Event>, index: seq<nat>)

  function Insisting(a: Schedule, e: Numbered, copies: nat): Schedule
    requires e.num >= 0
  {
    if copies == 0 then a else
      var before := Insisting(a, e, copies - 1);
      Schedule(before.evs + [Event(e.pkt, true)], before.index + [e.num])
  }

  lemma {:induction false} InsistingIsInsist(a: Schedule, e: Numbered, copies: nat)
    requires e.num >= 0
    ensures Insisting(a, e, copies).evs == Insist(a.evs, e.pkt, copies)
  {
    if copies > 0 {
      InsistingIsInsist(a, e, copies - 1);
    }
  }

  /** Arrivals of a stream that begins with number 0. */
  ghost predicate Arrive(ps: seq<Sent>, a: Schedule) {
    Arrivals(ps, 0, a.evs, a.index) && a.index[0] == 0
  }

  lemma {:induction false} ArrivesNext(ps: seq<Sent>, a: Schedule, e: Numbered)
    requires Arrive(ps, a) && WasSent(ps, 0, e) && -0x8000 <= e.num - Run(0, a.evs).buf.next < 0x8000
    ensures Arrive(ps, Schedule(a.evs + [Event(e.pkt, true)], a.index + [e.num]))
  {
    var evs, index := a.evs + [Event(e.pkt, true)], a.index + [e.num];
    forall t | 0 <= t < |evs| ensures ArrivalOf(ps, 0, evs, index, t) {
      if t < |a.evs| {
        assert ArrivalOf(ps, 0, a.evs, a.index, t);
        assert evs[..t] == a.evs[..t];
      } else {
        assert evs[..t] == a.evs;
      }
    }
  }

  /** Where the buffer waits after some copies. */
  lemma {:induction false} CopiesGivenUp(a: Schedule, next: int, out: seq<Numbered>, e: Numbered, copies: nat)
    requires EmptyAfter(0, a.evs, next, out) && e.pkt.number == Wrap(e.num) && e.num >= 0
    requires next + copies < e.num < next + 0x8000
    ensures Run(0, Insisting(a, e, copies).evs).buf.next == next + copies
  {
    InsistingIsInsist(a, e, copies);
    EmptyInsists(0, a.evs, next, out, e.pkt, e.num);
    InsistenceWaits(0, a.evs, next, out, e.pkt, e.num, copies);
  }

  lemma {:induction false} CopiesArrive(ps: seq<Sent>, a: Schedule, next: int, out: seq<Numbered>, e: Numbered, copies: nat)
    requires Arrive(ps, a) && EmptyAfter(0, a.evs, next, out) && WasSent(ps, 0, e)
    requires next < e.num < next + 0x8000 && copies <= e.num - next
    ensures Arrive(ps, Insisting(a, e, copies))
  {
    var k := 0;
    while k < copies
      invariant 0 <= k <= copies && Arrive(ps, Insisting(a, e, k))
    {
      CopiesGivenUp(a, next, out, e, k);
      ArrivesNext(ps, Insisting(a, e, k), e);
      k := k + 1;
    }
  }

  /** Some arrivals make the buffer hand on `out` and hold nothing. */
  ghost predicate Gives(ps: seq<Sent>, next: int, out: seq<Numbered>) {
    exists a :: Arrive(ps, a) && EmptyAfter(0, a.evs, next, out)
  }

  lemma {:induction false} InsistingEmpties(a: Schedule, next: int, out: seq<Numbered>, e: Numbered)
    requires EmptyAfter(0, a.evs, next, out) && e.pkt.number == Wrap(e.num) && e.num >= 0 && next < e.num < next + 0x8000
    ensures EmptyAfter(0, Insisting(a, e, e.num - next).evs, e.num + 1, out + [e])
  {
    InsistingIsInsist(a, e, e.num - next);
    InsistenceSucceeds(0, a.evs, next, out, e.pkt, e.num);
    assert e == Numbered(e.num, e.pkt);
  }

  lemma {:induction false} GivesBy(ps: seq<Sent>, a: Schedule, next: int, out: seq<Numbered>)
    requires Arrive(ps, a) && EmptyAfter(0, a.evs, next, out)
    ensures Gives(ps, next, out)
  {
  }

  lemma {:induction false} SentNumber(ps: seq<Sent>, e: Numbered)
    requires WasSent(ps, 0, e)
    ensures e.num >= 0 && e.pkt.number == Wrap(e.num)
  {
  }

  /** `e` insists until it is handed on. */
  lemma {:induction false} NextGiven(ps: seq<Sent>, next: int, out: seq<Numbered>, e: Numbered)
    requires Gives(ps, next, out) && WasSent(ps, 0, e) && next < e.num < next + 0x8000
    ensures Gives(ps, e.num + 1, out + [e])
  {
    var a :| Arrive(ps, a) && EmptyAfter(0, a.evs, next, out);
    CopiesArrive(ps, a, next, out, e, e.num - next);
    SentNumber(ps, e);
    InsistingEmpties(a, next, out, e);
    GivesBy(ps, Insisting(a, e, e.num - next), e.num + 1, out + [e]);
  }

  lemma {:induction false} FirstGiven(ps: seq<Sent>, e: Numbered)
    requires WasSent(ps, 0, e) && e.num == 0
    ensures Gives(ps, 1, [e])
  {
    var evs := [Event(e.pkt, false)];
    FirstEmpties(e.pkt);
    assert evs[..0] == [] && Run(0, evs[..0]).buf.next == 0;
    assert ArrivalOf(ps, 0, evs, [0], 0);
    assert Arrive(ps, Schedule(evs, [0]));
  }

  lemma {:induction false} FourGiven(ps: seq<Sent>, a: Numbered, b: Numbered, c: Numbered, d: Numbered)
    requires WasSent(ps, 0, a) && WasSent(ps, 0, b) && WasSent(ps, 0, c) && WasSent(ps, 0, d)
    requires a.num == 0 && b.num == 0x8000 && c.num == 0xFFFA && d.num == 0x1_0001
    ensures Gives(ps, 0x1_0002, [a] + [b] + [c] + [d])
  {
    FirstGiven(ps, a);
    NextGiven(ps, 1, [a], b);
    NextGiven(ps, 0x8001, [a] + [b], c);
    NextGiven(ps, 0xFFFB, [a] + [b] + [c], d);
  }

  lemma {:induction false} UnsafePackets(units: seq<Picture>, e: seq<Numbered>)
    requires AllDigestible(e) && !Safe(units, e)
    ensures !CommitsSuffixes(units, Packets(e))
  {
    IngestedIsIngestAll(e, |e|);
    assert e[..|e|] == e;
  }

  lemma {:induction false} HandsOnPackets(evs: seq<Event>, next: int, e: seq<Numbered>)
    requires evs != [] && evs[0].pkt.number == Wrap(0) && EmptyAfter(0, evs, next, e)
    ensures Run16(evs).out == Packets(e)
  {
    Run16Refines(0, evs);
  }

  /** Some arrivals of the stream make the 16-bit buffer hand on these packets. */
  lemma {:induction false} GivenPackets(ps: seq<Sent>, e: seq<Numbered>, next: int) returns (a: Schedule)
    requires Gives(ps, next, e)
    ensures Arrive(ps, a) && Run16(a.evs).out == Packets(e)
  {
    a :| Arrive(ps, a) && EmptyAfter(0, a.evs, next, e);
    FirstArrivalNumber(ps, 0, a.evs, a.index);
    HandsOnPackets(a.evs, next, e);
  }

  lemma {:induction false} SentUnsafe(units: seq<Picture>, ps: seq<Sent>, e: seq<Numbered>)
    requires (forall i :: 0 <= i < |e| ==> WasSent(ps, 0, e[i])) && !Safe(units, e)
    ensures !CommitsSuffixes(units, Packets(e))
  {
    WasSentDigestible(ps, 0, e);
    UnsafePackets(units, e);
  }

  lemma {:induction false} OverlookedGiven(ps: seq<Sent>, e: seq<Numbered>)
    requires SameNumbers(e, Overlooked) && forall i :: 0 <= i < |e| ==> WasSent(ps, 0, e[i])
    ensures Gives(ps, 0x1_0002, e)
  {
    assert e[0].num == Overlooked[0].num && e[1].num == Overlooked[1].num && e[2].num == Overlooked[2].num && e[3].num == Overlooked[3].num;
    FourGiven(ps, e[0], e[1], e[2], e[3]);
    assert e == [e[0]] + [e[1]] + [e[2]] + [e[3]];
  }

  /** Four packets of a stream, three of them late, repeated and given up on for long enough, make the recorder commit a
      picture without its middle: `HolesSeen` cannot be left out of `ReceivedPicturesAreSuffixes`. */
  lemma {:induction false} HoleCommitted() returns (ps: seq<Sent>, evs: seq<Event>, index: seq<nat>)
    ensures Stream(UNITS, ps) && Arrivals(ps, 0, evs, index) && !CommitsSuffixes(UNITS, Run16(evs).out)
  {
    OverlookedHidden();
    HiddenIsUnsafe(Overlooked, 3);
    ps := StreamOf(Overlooked, 3);
    OverlookedGiven(ps, Carrying(Overlooked, 3));
    SentUnsafe(UNITS, ps, Carrying(Overlooked, 3));
    var a := GivenPackets(ps, Carrying(Overlooked, 3), 0x1_0002);
    evs, index := a.evs, a.index;
  }
}
