/** What the reorder buffer guarantees over every sequence of pushes: order, conservation, gaps and memory. */
module ResequencingRuns {
  import opened Counting
  import opened SequenceNumbers
  import opened Rtp
  import opened Resequencing

  datatype Event = Event(pkt: RtpPacket, expired: bool)

  /** What became of one number: emitted with a packet, or given up. */
  datatype Slot = Emitted(pkt: RtpPacket) | GivenUp

  /** A run so far: the buffer, everything it emitted, one slot for every number from the first on, and what
      became of the packets that were neither emitted nor kept. */
  datatype Ledger = Ledger(
    buf: Buffer,
    out: seq<Numbered>,
    trail: seq<Slot>,
    late: seq<RtpPacket>,       // behind `next` when they arrived
    replaced: seq<RtpPacket>,   // overwritten while pending by a later packet of the same number
    barren: nat                 // give-ups that drained nothing
  )

  function Slots(out: seq<Numbered>): (slots: seq<Slot>)
    ensures |slots| == |out|
  {
    if out == [] then [] else Slots(out[..|out| - 1]) + [Emitted(out[|out| - 1].pkt)]
  }

  function Late(p: Pushed, pkt: RtpPacket): seq<RtpPacket> {
    if p.fate.Late? then [pkt] else []
  }

  function Replaced(p: Pushed): seq<RtpPacket> {
    if p.fate.Stored? then p.fate.replaced else []
  }

  function Record(l: Ledger, ev: Event): Ledger {
    var p := Push(l.buf, ev.pkt, ev.expired);
    var skip := if p.Skipped() == 1 then [GivenUp] else [];
    Ledger(p.buf,
           l.out + p.out,
           l.trail + skip + Slots(p.out),
           l.late + Late(p, ev.pkt),
           l.replaced + Replaced(p),
           if p.Skipped() == 1 && p.out == [] then l.barren + 1 else l.barren)
  }

  function Run(origin: int, evs: seq<Event>): Ledger {
    if evs == [] then
      Ledger(Buffer(origin, map[]), [], [], [], [], 0)
    else
      Record(Run(origin, evs[..|evs| - 1]), evs[|evs| - 1])
  }

  // ---- Order: every number from the first on is emitted or given up, once, in order ----

  /** The emitted packets under the numbers their slots stand for. */
  function Emissions(origin: int, trail: seq<Slot>): seq<Numbered> {
    if trail == [] then
      []
    else
      var n := |trail| - 1;
      Emissions(origin, trail[..n]) + (match trail[n] case Emitted(pkt) => [Numbered(origin + n, pkt)] case GivenUp => [])
  }

  /** A block of consecutive numbers that starts where the trail ends. */
  lemma {:induction false} AppendBlock(origin: int, trail: seq<Slot>, block: seq<Numbered>)
    requires forall i :: 0 <= i < |block| ==> block[i].num == origin + |trail| + i
    ensures Emissions(origin, trail + Slots(block)) == Emissions(origin, trail) + block
  {
    if block == [] {
      assert trail + Slots(block) == trail;
    } else {
      var m := |block| - 1;
      var longer := trail + Slots(block);
      assert longer[..|longer| - 1] == trail + Slots(block[..m]);
      AppendBlock(origin, trail, block[..m]);
      assert block == block[..m] + [block[m]];
    }
  }

  ghost predicate InOrder(origin: int, l: Ledger) {
    && l.buf.InWindow(1)
    && |l.trail| == l.buf.next - origin
    && l.out == Emissions(origin, l.trail)
  }

  lemma {:induction false} PushBlock(b: Buffer, pkt: RtpPacket, expired: bool)
    requires b.InWindow(1)
    ensures var p := Push(b, pkt, expired);
      && p.buf.InWindow(1)
      && p.buf.next == b.next + p.Skipped() + |p.out|
      && forall i :: 0 <= i < |p.out| ==> p.out[i].num == b.next + p.Skipped() + i
  {
    PushEffect(b, pkt, expired);
    forall i | 0 <= i < |Push(b, pkt, expired).out|
      ensures Push(b, pkt, expired).out[i].num == b.next + Push(b, pkt, expired).Skipped() + i
    {
      PushOutput(b, pkt, expired, i);
    }
  }

  lemma {:induction false} AppendSkip(origin: int, trail: seq<Slot>, skipped: bool)
    ensures Emissions(origin, trail + (if skipped then [GivenUp] else [])) == Emissions(origin, trail)
  {
    if skipped {
      assert (trail + [GivenUp])[..|trail|] == trail;
    } else {
      assert trail + [] == trail;
    }
  }

  lemma {:induction false} RecordKeepsOrder(origin: int, l: Ledger, ev: Event)
    requires InOrder(origin, l)
    ensures InOrder(origin, Record(l, ev))
  {
    var p := Push(l.buf, ev.pkt, ev.expired);
    var skip := if p.Skipped() == 1 then [GivenUp] else [];
    PushBlock(l.buf, ev.pkt, ev.expired);
    AppendSkip(origin, l.trail, p.Skipped() == 1);
    AppendBlock(origin, l.trail + skip, p.out);
  }

  /** Over every sequence of pushes, what comes out is read off the trail: packets in the order of their
      unbounded numbers, each number once, and as many numbers passed as were emitted and given up. */
  lemma {:induction false} OrderedRun(origin: int, evs: seq<Event>)
    ensures InOrder(origin, Run(origin, evs))
  {
    if evs != [] {
      OrderedRun(origin, evs[..|evs| - 1]);
      RecordKeepsOrder(origin, Run(origin, evs[..|evs| - 1]), evs[|evs| - 1]);
    }
  }

  lemma {:induction false} EmissionsInRange(origin: int, trail: seq<Slot>)
    ensures forall i :: 0 <= i < |Emissions(origin, trail)| ==> origin <= Emissions(origin, trail)[i].num < origin + |trail|
  {
    if trail != [] {
      EmissionsInRange(origin, trail[..|trail| - 1]);
    }
  }

  lemma {:induction false} EmissionsIncrease(origin: int, trail: seq<Slot>)
    ensures forall i, j :: 0 <= i < j < |Emissions(origin, trail)| ==>
      Emissions(origin, trail)[i].num < Emissions(origin, trail)[j].num
  {
    if trail != [] {
      EmissionsIncrease(origin, trail[..|trail| - 1]);
      EmissionsInRange(origin, trail[..|trail| - 1]);
    }
  }

  lemma {:induction false} EmissionsFloor(origin: int, trail: seq<Slot>, i: nat)
    requires i < |Emissions(origin, trail)|
    ensures Emissions(origin, trail)[i].num >= origin + i
  {
    EmissionsInRange(origin, trail);
    EmissionsIncrease(origin, trail);
    if i > 0 {
      EmissionsFloor(origin, trail, i - 1);
    }
  }

  /** The number given to the `s`-th packet pushed, when it was. */
  function NumberAt(origin: int, evs: seq<Event>, s: nat): int
    requires s < |evs|
  {
    Unwrap(Run(origin, evs[..s]).buf.next, evs[s].pkt.number)
  }

  /** The first `n` packets pushed, each under the number it was given. */
  function Given(origin: int, evs: seq<Event>, n: nat): (given: seq<Numbered>)
    requires n <= |evs|
    ensures |given| == n
  {
    if n == 0 then [] else Given(origin, evs, n - 1) + [Numbered(NumberAt(origin, evs, n - 1), evs[n - 1].pkt)]
  }

  lemma {:induction false} GivenAt(origin: int, evs: seq<Event>, n: nat, s: nat)
    requires s < n <= |evs|
    ensures Given(origin, evs, n)[s] == Numbered(NumberAt(origin, evs, s), evs[s].pkt)
  {
    if s < n - 1 {
      GivenAt(origin, evs, n - 1, s);
    }
  }

  /** Packets are emitted, and held, under the numbers they were given. */
  ghost predicate Numbering(given: seq<Numbered>, l: Ledger) {
    && (forall i :: 0 <= i < |l.out| ==> l.out[i] in given)
    && (forall k :: k in l.buf.pending ==> Numbered(k, l.buf.pending[k]) in given)
  }

  lemma {:induction false} PushKeepsNumbering(given: seq<Numbered>, b: Buffer, pkt: RtpPacket, expired: bool)
    requires b.InWindow(1) && forall k :: k in b.pending ==> Numbered(k, b.pending[k]) in given
    ensures var p := Push(b, pkt, expired); var all := given + [Numbered(Unwrap(b.next, pkt.number), pkt)];
      && (forall i :: 0 <= i < |p.out| ==> p.out[i] in all)
      && (forall k :: k in p.buf.pending ==> Numbered(k, p.buf.pending[k]) in all)
  {
    var p, u := Push(b, pkt, expired), Unwrap(b.next, pkt.number);
    var hand, all := OnHand(b, u, pkt), given + [Numbered(u, pkt)];
    forall k | k in hand ensures Numbered(k, hand[k]) in all {
      OneOnHand(given, b, pkt, k);
    }
    PushEffect(b, pkt, expired);
    forall i | 0 <= i < |p.out| ensures p.out[i] in all {
      PushOutput(b, pkt, expired, i);
    }
  }

  lemma {:induction false} OneOnHand(given: seq<Numbered>, b: Buffer, pkt: RtpPacket, k: int)
    requires forall k :: k in b.pending ==> Numbered(k, b.pending[k]) in given
    requires k in OnHand(b, Unwrap(b.next, pkt.number), pkt)
    ensures var u := Unwrap(b.next, pkt.number); Numbered(k, OnHand(b, u, pkt)[k]) in given + [Numbered(u, pkt)]
  {
    var u := Unwrap(b.next, pkt.number);
    var all := given + [Numbered(u, pkt)];
    assert all[|given|] == Numbered(u, pkt);
    if k in b.pending && OnHand(b, u, pkt)[k] == b.pending[k] {
      assert Numbered(k, b.pending[k]) in given;
    }
  }

  lemma {:induction false} RecordKeepsNumbering(given: seq<Numbered>, l: Ledger, ev: Event)
    requires l.buf.InWindow(1) && Numbering(given, l)
    ensures Numbering(given + [Numbered(Unwrap(l.buf.next, ev.pkt.number), ev.pkt)], Record(l, ev))
  {
    var p, all := Push(l.buf, ev.pkt, ev.expired), given + [Numbered(Unwrap(l.buf.next, ev.pkt.number), ev.pkt)];
    PushKeepsNumbering(given, l.buf, ev.pkt, ev.expired);
    forall i | 0 <= i < |l.out + p.out| ensures (l.out + p.out)[i] in all {
      if i < |l.out| {
        assert l.out[i] in given;
      } else {
        assert p.out[i - |l.out|] in all;
      }
    }
  }

  lemma {:induction false} RunSnoc(origin: int, evs: seq<Event>, n: nat)
    requires n < |evs|
    ensures Run(origin, evs[..n + 1]) == Record(Run(origin, evs[..n]), evs[n])
  {
    assert evs[..n + 1][..n] == evs[..n];
  }

  lemma {:induction false} NumberedRun(origin: int, evs: seq<Event>, n: nat)
    requires n <= |evs|
    ensures Numbering(Given(origin, evs, n), Run(origin, evs[..n]))
  {
    if n > 0 {
      NumberedRun(origin, evs, n - 1);
      OrderedRun(origin, evs[..n - 1]);
      RecordKeepsNumbering(Given(origin, evs, n - 1), Run(origin, evs[..n - 1]), evs[n - 1]);
      RunSnoc(origin, evs, n - 1);
    }
  }

  /** Everything emitted was pushed, and comes out under the number it was given on arrival. */
  lemma {:induction false} EmittedAsGiven(origin: int, evs: seq<Event>, i: nat) returns (s: nat)
    requires i < |Run(origin, evs).out|
    ensures s < |evs| && Run(origin, evs).out[i] == Numbered(NumberAt(origin, evs, s), evs[s].pkt)
  {
    NumberedRun(origin, evs, |evs|);
    assert evs[..|evs|] == evs;
    s :| 0 <= s < |evs| && Given(origin, evs, |evs|)[s] == Run(origin, evs).out[i];
    GivenAt(origin, evs, |evs|, s);
  }

  // ---- Conservation: every packet pushed has exactly one fate ----

  lemma {:induction false} PacketsSplit(a: seq<Numbered>, b: seq<Numbered>)
    ensures Packets(a + b) == Packets(a) + Packets(b)
  {
    if a == [] {
      assert a + b == b;
    } else {
      assert (a + b)[1..] == a[1..] + b;
      PacketsSplit(a[1..], b);
    }
  }

  function At(x: RtpPacket, m: map<int, RtpPacket>, k: int): nat {
    if k in m && m[k] == x then 1 else 0
  }

  /** How often `x` occurs in `m` under the numbers from `lo` up to but not including `hi`. */
  function Filed(x: RtpPacket, m: map<int, RtpPacket>, lo: int, hi: int): nat
    decreases hi - lo
  {
    if lo >= hi then 0 else At(x, m, lo) + Filed(x, m, lo + 1, hi)
  }

  function Held(x: RtpPacket, b: Buffer): nat {
    Filed(x, b.pending, b.next, b.next + 0x8000)
  }

  lemma {:induction false} FiledSame(x: RtpPacket, m: map<int, RtpPacket>, m': map<int, RtpPacket>, lo: int, hi: int)
    requires forall k :: lo <= k < hi ==> At(x, m, k) == At(x, m', k)
    ensures Filed(x, m, lo, hi) == Filed(x, m', lo, hi)
    decreases hi - lo
  {
    if lo < hi {
      FiledSame(x, m, m', lo + 1, hi);
    }
  }

  /** Storing a packet trades it for the packet it replaces. */
  lemma {:induction false} FiledPut(x: RtpPacket, m: map<int, RtpPacket>, u: int, pkt: RtpPacket, lo: int, hi: int)
    requires lo <= u < hi
    ensures Filed(x, m[u := pkt], lo, hi) + At(x, m, u) == Filed(x, m, lo, hi) + (if pkt == x then 1 else 0)
    decreases hi - lo
  {
    if lo < u {
      FiledPut(x, m, u, pkt, lo + 1, hi);
    } else {
      FiledSame(x, m, m[u := pkt], lo + 1, hi);
    }
  }

  /** Numbers beyond the pending ones add nothing. */
  lemma {:induction false} FiledBeyond(x: RtpPacket, m: map<int, RtpPacket>, lo: int, hi: int, hi': int)
    requires hi <= hi' && forall k :: k in m ==> k < hi
    ensures Filed(x, m, lo, hi') == Filed(x, m, lo, hi)
    decreases hi' - lo
  {
    if lo < hi' {
      FiledBeyond(x, m, lo + 1, hi, hi');
    }
  }

  lemma {:induction false} DrainConserves(x: RtpPacket, b: Buffer, hi: int)
    requires forall k :: k in b.pending ==> k < hi
    ensures Filed(x, b.pending, b.next, hi)
      == Times(x, Packets(Drain(b).1)) + Filed(x, Drain(b).0.pending, Drain(b).0.next, hi)
    decreases |b.pending|
  {
    if b.next in b.pending {
      var b' := Buffer(b.next + 1, b.pending - {b.next});
      DrainConserves(x, b', hi);
      FiledSame(x, b.pending, b'.pending, b.next + 1, hi);
      PacketsCons(Numbered(b.next, b.pending[b.next]), Drain(b').1);
      TimesSplit(x, [b.pending[b.next]], Packets(Drain(b').1));
      TimesOne(x, b.pending[b.next]);
    }
  }

  lemma {:induction false} DrainKeepsAhead(b: Buffer, hi: int)
    requires forall k :: k in b.pending ==> k < hi
    ensures b.next <= Drain(b).0.next && forall k :: k in Drain(b).0.pending ==> k < hi
    decreases |b.pending|
  {
    if b.next in b.pending {
      DrainKeepsAhead(Buffer(b.next + 1, b.pending - {b.next}), hi);
    }
  }

  lemma {:induction false} GiveUpConserves(x: RtpPacket, b: Buffer)
    requires b.InWindow(1)
    ensures Held(x, b) == Times(x, Packets(GiveUp(b).1)) + Held(x, GiveUp(b).0)
  {
    var r := GiveUp(b);
    var b' := Buffer(b.next + 1, b.pending);
    DrainKeepsAhead(b', b.next + 0x8000);
    DrainConserves(x, b', b.next + 0x8000);
    FiledBeyond(x, r.0.pending, r.0.next, b.next + 0x8000, r.0.next + 0x8000);
  }

  lemma {:induction false} StoreConserves(x: RtpPacket, b: Buffer, u: int, pkt: RtpPacket)
    requires b.next < u < b.next + 0x8000
    ensures Times(x, [pkt]) + Held(x, b)
      == Held(x, Buffer(b.next, b.pending[u := pkt])) + Times(x, if u in b.pending then [b.pending[u]] else [])
  {
    FiledPut(x, b.pending, u, pkt, b.next, b.next + 0x8000);
  }

  lemma {:induction false} PushConserves(x: RtpPacket, b: Buffer, pkt: RtpPacket, expired: bool)
    requires b.InWindow(1)
    ensures var p := Push(b, pkt, expired);
      Times(x, [pkt]) + Held(x, b) == Times(x, Packets(p.out)) + Held(x, p.buf) + Times(x, Late(p, pkt)) + Times(x, Replaced(p))
  {
    var u := Unwrap(b.next, pkt.number);
    if u > b.next {
      StoreConserves(x, b, u, pkt);
      GiveUpConserves(x, Buffer(b.next, b.pending[u := pkt]));
    } else if u == b.next {
      GiveUpConserves(x, b);
      PacketsCons(Numbered(u, pkt), GiveUp(b).1);
      TimesSplit(x, [pkt], Packets(GiveUp(b).1));
    }
  }

  function AllPushed(evs: seq<Event>): seq<RtpPacket> {
    if evs == [] then [] else AllPushed(evs[..|evs| - 1]) + [evs[|evs| - 1].pkt]
  }

  /** Every packet pushed is emitted, still pending, was late, or was replaced by a duplicate: exactly one of
      them, counted with multiplicity. */
  lemma {:induction false} ConservedRun(x: RtpPacket, origin: int, evs: seq<Event>)
    ensures var l := Run(origin, evs);
      Times(x, AllPushed(evs)) == Times(x, Packets(l.out)) + Held(x, l.buf) + Times(x, l.late) + Times(x, l.replaced)
  {
    if evs == [] {
      FiledBeyond(x, map[], origin, origin, origin + 0x8000);
    } else {
      var before, ev := evs[..|evs| - 1], evs[|evs| - 1];
      var l := Run(origin, before);
      var p := Push(l.buf, ev.pkt, ev.expired);
      ConservedRun(x, origin, before);
      OrderedRun(origin, before);
      PushConserves(x, l.buf, ev.pkt, ev.expired);
      PacketsSplit(l.out, p.out);
      TimesSplit(x, Packets(l.out), Packets(p.out));
      TimesSplit(x, AllPushed(before), [ev.pkt]);
      TimesSplit(x, l.late, Late(p, ev.pkt));
      TimesSplit(x, l.replaced, Replaced(p));
    }
  }
}
