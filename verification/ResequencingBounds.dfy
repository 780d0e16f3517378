/** How far apart emitted packets can be, and how much the buffer can hold. */
module ResequencingBounds {
  import opened SequenceNumbers
  import opened Rtp
  import opened Resequencing
  import opened ResequencingRuns

  // ---- Gaps ----

  ghost predicate GapsFit(out: seq<Numbered>) {
    forall i :: 0 <= i < |out| - 1 ==> 0 < out[i + 1].num - out[i].num <= 0x8000
  }

  /** Either nothing was given up since the last emission, or a packet that will end the gap in time is pending. */
  ghost predicate Close(l: Ledger) {
    && l.buf.InWindow(1)
    && l.out != []
    && GapsFit(l.out)
    && var last := l.out[|l.out| - 1].num;
       l.buf.next == last + 1 || (last < l.buf.next && exists k :: k in l.buf.pending && k <= last + 0x8000)
  }

  /** A push that emits nothing removes nothing from the buffer. */
  lemma {:induction false} SilentPush(b: Buffer, pkt: RtpPacket, expired: bool)
    requires b.InWindow(1) && Push(b, pkt, expired).out == []
    ensures var p := Push(b, pkt, expired); var u := Unwrap(b.next, pkt.number);
      && b.pending.Keys <= p.buf.pending.Keys
      && (p.buf.next != b.next ==> u in p.buf.pending && u < b.next + 0x8000)
  {
    PushEffect(b, pkt, expired);
  }

  lemma {:induction false} SilentKeepsClose(l: Ledger, ev: Event)
    requires Close(l) && Push(l.buf, ev.pkt, ev.expired).out == []
    ensures Close(Record(l, ev))
  {
    assert Record(l, ev).out == l.out;
    PushBlock(l.buf, ev.pkt, ev.expired);
    SilentPush(l.buf, ev.pkt, ev.expired);
  }

  lemma {:induction false} GapsAppend(out: seq<Numbered>, block: seq<Numbered>, first: int)
    requires GapsFit(out) && out != []
    requires out[|out| - 1].num < first <= out[|out| - 1].num + 0x8000
    requires forall i :: 0 <= i < |block| ==> block[i].num == first + i
    ensures GapsFit(out + block)
  {
  }

  lemma {:induction false} EmittingKeepsClose(l: Ledger, ev: Event)
    requires Close(l) && Push(l.buf, ev.pkt, ev.expired).out != []
    ensures Close(Record(l, ev))
  {
    var p := Push(l.buf, ev.pkt, ev.expired);
    PushBlock(l.buf, ev.pkt, ev.expired);
    GapsAppend(l.out, p.out, l.buf.next + p.Skipped());
  }

  lemma {:induction false} RecordKeepsClose(l: Ledger, ev: Event)
    requires Close(l)
    ensures Close(Record(l, ev))
  {
    if Push(l.buf, ev.pkt, ev.expired).out == [] {
      SilentKeepsClose(l, ev);
    } else {
      EmittingKeepsClose(l, ev);
    }
  }

  lemma {:induction false} FirstPush(origin: int, ev: Event)
    requires Wrap(origin) == ev.pkt.number
    ensures Run(origin, [ev]).buf == Buffer(origin + 1, map[]) && Run(origin, [ev]).out == [Numbered(origin, ev.pkt)]
  {
    UnwrapExact(origin, origin);
    assert [ev][..0] == [];
    assert Run(origin, [ev]) == Record(Run(origin, []), ev);
  }

  /** However many packets are lost, late or reordered, consecutive emitted packets are at most 32768 numbers
      apart, and the very first packet pushed is the first one emitted. */
  lemma {:induction false} ClosedRun(origin: int, evs: seq<Event>)
    requires evs != [] && Wrap(origin) == evs[0].pkt.number
    ensures Close(Run(origin, evs)) && Run(origin, evs).out[0] == Numbered(origin, evs[0].pkt)
  {
    var n := |evs| - 1;
    if n == 0 {
      assert evs == [evs[0]];
      FirstPush(origin, evs[0]);
    } else {
      ClosedRun(origin, evs[..n]);
      RecordKeepsClose(Run(origin, evs[..n]), evs[n]);
    }
  }

  // ---- Long gaps ----

  /** `copies` copies of `pkt`, each after the wait budget has run out once more. */
  function Insist(evs: seq<Event>, pkt: RtpPacket, copies: nat): seq<Event> {
    if copies == 0 then evs else Insist(evs, pkt, copies - 1) + [Event(pkt, true)]
  }

  /** While packet `u` is not next, another copy makes the buffer give up one number. */
  lemma {:induction false} CopyWaits(b: Buffer, pkt: RtpPacket, u: int)
    requires b.next + 1 < u < b.next + 0x8000 && pkt.number == Wrap(u) && (b.pending == map[] || b.pending == map[u := pkt])
    ensures Push(b, pkt, true).buf == Buffer(b.next + 1, map[u := pkt]) && Push(b, pkt, true).out == []
  {
    UnwrapExact(b.next, u);
    var all := map[u := pkt];
    assert b.pending[u := pkt] == all;
    assert GiveUp(Buffer(b.next, all)) == Drain(Buffer(b.next + 1, all)) == (Buffer(b.next + 1, all), []);
  }

  lemma {:induction false} LastCopy(b: Buffer, pkt: RtpPacket, u: int)
    requires b.next + 1 == u && pkt.number == Wrap(u) && (b.pending == map[] || b.pending == map[u := pkt])
    ensures Push(b, pkt, true).buf == Buffer(u + 1, map[]) && Push(b, pkt, true).out == [Numbered(u, pkt)]
  {
    UnwrapExact(b.next, u);
    var all := map[u := pkt];
    assert b.pending[u := pkt] == all;
    assert GiveUp(Buffer(b.next, all)) == Drain(Buffer(u, all));
    assert all - {u} == map[];
    assert Drain(Buffer(u + 1, map[])) == (Buffer(u + 1, map[]), []);
  }

  /** Nothing is pending, and `next` is waited for. */
  ghost predicate Empty(l: Ledger, next: int, out: seq<Numbered>) {
    l.buf == Buffer(next, map[]) && l.out == out
  }

  ghost predicate Insists(l: Ledger, next: int, out: seq<Numbered>, pkt: RtpPacket, u: int, copies: nat) {
    l.buf == Buffer(next + copies, if copies == 0 then map[] else map[u := pkt]) && l.out == out
  }

  lemma {:induction false} InsistsOn(l: Ledger, next: int, out: seq<Numbered>, pkt: RtpPacket, u: int, copies: nat)
    requires Insists(l, next, out, pkt, u, copies) && next + copies + 1 < u < next + 0x8000 && pkt.number == Wrap(u)
    ensures Insists(Record(l, Event(pkt, true)), next, out, pkt, u, copies + 1)
  {
    CopyWaits(l.buf, pkt, u);
    assert out + [] == out;
  }

  lemma {:induction false} RunAppend(origin: int, evs: seq<Event>, ev: Event)
    ensures Run(origin, evs + [ev]) == Record(Run(origin, evs), ev)
  {
    assert (evs + [ev])[..|evs|] == evs;
  }

  /** After some events, `n` copies of the packet among them, `next + n` is waited for. */
  ghost predicate InsistsAfter(origin: int, evs: seq<Event>, next: int, out: seq<Numbered>, pkt: RtpPacket, u: int, n: nat) {
    exists l: Ledger :: l == Run(origin, evs) && Insists(l, next, out, pkt, u, n)
  }

  lemma {:induction false} OneMoreCopy(origin: int, evs: seq<Event>, next: int, out: seq<Numbered>, pkt: RtpPacket, u: int, n: nat)
    requires InsistsAfter(origin, evs, next, out, pkt, u, n) && next + n + 1 < u < next + 0x8000 && pkt.number == Wrap(u)
    ensures InsistsAfter(origin, evs + [Event(pkt, true)], next, out, pkt, u, n + 1)
  {
    var l: Ledger :| l == Run(origin, evs) && Insists(l, next, out, pkt, u, n);
    RunAppend(origin, evs, Event(pkt, true));
    InsistsOn(l, next, out, pkt, u, n);
  }

  lemma {:induction false} InsistenceWaits(origin: int, evs: seq<Event>, next: int, out: seq<Numbered>, pkt: RtpPacket, u: int, copies: nat)
    requires InsistsAfter(origin, evs, next, out, pkt, u, 0) && next + copies < u < next + 0x8000 && pkt.number == Wrap(u)
    ensures InsistsAfter(origin, Insist(evs, pkt, copies), next, out, pkt, u, copies)
  {
    if copies > 0 {
      InsistenceWaits(origin, evs, next, out, pkt, u, copies - 1);
      OneMoreCopy(origin, Insist(evs, pkt, copies - 1), next, out, pkt, u, copies - 1);
    }
  }

  lemma {:induction false} InsistenceEnds(l: Ledger, next: int, out: seq<Numbered>, pkt: RtpPacket, u: int, copies: nat)
    requires Insists(l, next, out, pkt, u, copies) && next + copies + 1 == u && pkt.number == Wrap(u)
    ensures Empty(Record(l, Event(pkt, true)), u + 1, out + [Numbered(u, pkt)])
  {
    LastCopy(l.buf, pkt, u);
  }

  /** Nothing is pending after some events, and `next` is waited for. */
  ghost predicate EmptyAfter(origin: int, evs: seq<Event>, next: int, out: seq<Numbered>) {
    exists l: Ledger :: l == Run(origin, evs) && Empty(l, next, out)
  }

  lemma {:induction false} FinalCopy(origin: int, evs: seq<Event>, next: int, out: seq<Numbered>, pkt: RtpPacket, u: int, n: nat)
    requires InsistsAfter(origin, evs, next, out, pkt, u, n) && next + n + 1 == u && pkt.number == Wrap(u)
    ensures EmptyAfter(origin, evs + [Event(pkt, true)], u + 1, out + [Numbered(u, pkt)])
  {
    var l: Ledger :| l == Run(origin, evs) && Insists(l, next, out, pkt, u, n);
    RunAppend(origin, evs, Event(pkt, true));
    InsistenceEnds(l, next, out, pkt, u, n);
  }

  lemma {:induction false} EmptyInsists(origin: int, evs: seq<Event>, next: int, out: seq<Numbered>, pkt: RtpPacket, u: int)
    requires EmptyAfter(origin, evs, next, out)
    ensures InsistsAfter(origin, evs, next, out, pkt, u, 0)
  {
    var l: Ledger :| l == Run(origin, evs) && Empty(l, next, out);
    assert Insists(l, next, out, pkt, u, 0);
  }

  /** Copies of a packet less than 32768 ahead, if they keep coming after the budget, are emitted in the end, right after what
      was emitted before. */
  lemma {:induction false} InsistenceSucceeds(origin: int, evs: seq<Event>, next: int, out: seq<Numbered>, pkt: RtpPacket, u: int)
    requires EmptyAfter(origin, evs, next, out) && next < u < next + 0x8000 && pkt.number == Wrap(u)
    ensures EmptyAfter(origin, Insist(evs, pkt, u - next), u + 1, out + [Numbered(u, pkt)])
  {
    var copies := u - next - 1;
    EmptyInsists(origin, evs, next, out, pkt, u);
    InsistenceWaits(origin, evs, next, out, pkt, u, copies);
    FinalCopy(origin, Insist(evs, pkt, copies), next, out, pkt, u, copies);
    assert Insist(evs, pkt, u - next) == Insist(evs, pkt, copies) + [Event(pkt, true)];
  }

  /** Packet 0, and copies of packet 32768 until it is emitted. */
  function HalfCycle(p: RtpPacket, q: RtpPacket): seq<Event> {
    Insist([Event(p, false)], q, 0x7FFF)
  }

  lemma {:induction false} FirstEmpties(p: RtpPacket)
    requires p.number == 0
    ensures EmptyAfter(0, [Event(p, false)], 1, [Numbered(0, p)])
  {
    FirstPush(0, Event(p, false));
    assert Empty(Run(0, [Event(p, false)]), 1, [Numbered(0, p)]);
  }

  /** The bound on gaps is met: packet 32768 is emitted right after packet 0. */
  lemma {:induction false} HalfCycleGapMet(p: RtpPacket, q: RtpPacket)
    requires p.number == 0 && q.number == 0x8000
    ensures EmptyAfter(0, HalfCycle(p, q), 0x8001, [Numbered(0, p), Numbered(0x8000, q)])
  {
    FirstEmpties(p);
    InsistenceSucceeds(0, [Event(p, false)], 1, [Numbered(0, p)], q, 0x8000);
    assert [Numbered(0, p)] + [Numbered(0x8000, q)] == [Numbered(0, p), Numbered(0x8000, q)];
  }

  // ---- Memory ----

  lemma {:induction false} RecordKeepsHold(l: Ledger, ev: Event)
    requires l.buf.InWindow(1) && |l.buf.pending| <= MAX_HOLD - 1 + l.barren
    ensures |Record(l, ev).buf.pending| <= MAX_HOLD - 1 + Record(l, ev).barren
  {
    PushEffect(l.buf, ev.pkt, ev.expired);
  }

  /** After any push the buffer holds at most 63 packets plus one for every give-up that drained nothing. */
  lemma {:induction false} HoldBound(origin: int, evs: seq<Event>)
    ensures |Run(origin, evs).buf.pending| <= MAX_HOLD - 1 + Run(origin, evs).barren
  {
    if evs != [] {
      var n := |evs| - 1;
      HoldBound(origin, evs[..n]);
      OrderedRun(origin, evs[..n]);
      RecordKeepsHold(Run(origin, evs[..n]), evs[n]);
    }
  }

  /** With `limit` packets held, a packet is stored across a gap of two or more numbers: giving up one frees nothing. */
  predicate Overfills(b: Buffer, pkt: RtpPacket, limit: nat) {
    var u := Unwrap(b.next, pkt.number);
    |b.pending| == limit && u > b.next + 1 && u !in b.pending && b.next + 1 !in b.pending
  }

  lemma {:induction false} StoredTimes(b: Buffer, u: int, pkt: RtpPacket)
    ensures |b.pending[u := pkt]| == if u in b.pending then |b.pending| else |b.pending| + 1
  {
    assert b.pending[u := pkt].Keys == b.pending.Keys + {u};
  }

  lemma {:induction false} GiveUpFreesOne(b: Buffer)
    ensures |GiveUp(b).1| > 0 <==> b.next + 1 in b.pending
  {
  }

  /** Per push: exactly such a packet takes the buffer from a full `limit` to more. */
  lemma {:induction false} OverfillsExactly(b: Buffer, pkt: RtpPacket, expired: bool, limit: nat)
    requires b.InWindow(1) && MAX_HOLD - 1 <= limit && |b.pending| <= limit
    ensures |Push(b, pkt, expired).buf.pending| > limit <==> Overfills(b, pkt, limit)
  {
    var u := Unwrap(b.next, pkt.number);
    PushEffect(b, pkt, expired);
    if u > b.next {
      StoredTimes(b, u, pkt);
      GiveUpFreesOne(b.(pending := b.pending[u := pkt]));
    } else if u == b.next {
      StoredTimes(b, u, pkt);
    }
  }

  ghost predicate NeverOver(origin: int, evs: seq<Event>, limit: nat) {
    forall n :: 0 <= n <= |evs| ==> |Run(origin, evs[..n]).buf.pending| <= limit
  }

  ghost predicate OverfillsAt(origin: int, evs: seq<Event>, limit: nat, n: nat)
    requires n < |evs|
  {
    Overfills(Run(origin, evs[..n]).buf, evs[n].pkt, limit)
  }

  lemma {:induction false} HoldsSoFar(origin: int, evs: seq<Event>, limit: nat, n: nat)
    requires MAX_HOLD - 1 <= limit && n <= |evs| && forall k :: 0 <= k < n ==> !OverfillsAt(origin, evs, limit, k)
    ensures |Run(origin, evs[..n]).buf.pending| <= limit
  {
    if n > 0 {
      HoldsSoFar(origin, evs, limit, n - 1);
      assert !OverfillsAt(origin, evs, limit, n - 1);
      RunSnoc(origin, evs, n - 1);
      OrderedRun(origin, evs[..n - 1]);
      OverfillsExactly(Run(origin, evs[..n - 1]).buf, evs[n - 1].pkt, evs[n - 1].expired, limit);
    }
  }

  lemma {:induction false} OverfilledAfter(origin: int, evs: seq<Event>, limit: nat, n: nat)
    requires MAX_HOLD - 1 <= limit && n < |evs| && OverfillsAt(origin, evs, limit, n)
    ensures |Run(origin, evs[..n + 1]).buf.pending| > limit
  {
    RunSnoc(origin, evs, n);
    OrderedRun(origin, evs[..n]);
    OverfillsExactly(Run(origin, evs[..n]).buf, evs[n].pkt, evs[n].expired, limit);
  }

  /** Per run, for any cap from 63 on: it is kept throughout if and only if no push finds that many packets held, none of
      them the one after the number waited for, and adds a new one beyond it. Give-ups on an expired budget, with fewer
      packets held, break no cap. */
  lemma {:induction false} CapHoldsExactly(origin: int, evs: seq<Event>, limit: nat)
    requires MAX_HOLD - 1 <= limit
    ensures NeverOver(origin, evs, limit) <==> forall n :: 0 <= n < |evs| ==> !OverfillsAt(origin, evs, limit, n)
  {
    if n: nat :| n < |evs| && OverfillsAt(origin, evs, limit, n) {
      OverfilledAfter(origin, evs, limit, n);
    } else {
      forall n | 0 <= n <= |evs| ensures |Run(origin, evs[..n]).buf.pending| <= limit {
        HoldsSoFar(origin, evs, limit, n);
      }
    }
  }

  /** Packet 0 followed by `count` packets from number `lost + 1` on, none of them timing out. */
  function Burst(lost: nat, count: nat): seq<Event> {
    if count == 0 then
      [Event(RtpPacket(0, 0, false, []), false)]
    else
      Burst(lost, count - 1) + [Event(RtpPacket(Wrap(lost + count), 0, false, []), false)]
  }

  /** Storing a packet ahead of a gap of two or more numbers emits nothing, give-up or not. */
  lemma {:induction false} PushAcrossGap(b: Buffer, u: int, pkt: RtpPacket)
    requires b.next + 1 < u < b.next + 0x8000 && pkt.number == Wrap(u)
    requires b.next + 1 !in b.pending && u !in b.pending
    ensures var p := Push(b, pkt, false); var full := |b.pending| + 1 >= MAX_HOLD;
      && p.buf == Buffer(if full then b.next + 1 else b.next, b.pending[u := pkt])
      && p.out == [] && p.Skipped() == (if full then 1 else 0)
  {
    UnwrapExact(b.next, u);
  }

  ghost predicate HoldsBack(l: Ledger, barren: nat, count: nat) {
    && l.barren == (if count < MAX_HOLD then 0 else count - (MAX_HOLD - 1))
    && l.buf.next == 1 + l.barren
    && |l.buf.pending| == count
    && forall k :: k in l.buf.pending ==> barren + 1 < k <= barren + 1 + count
  }

  lemma {:induction false} HoldsBackStep(l: Ledger, barren: nat, count: nat, pkt: RtpPacket)
    requires 0 < barren <= 0x4000 && 0 < count <= MAX_HOLD - 1 + barren && HoldsBack(l, barren, count - 1)
    requires pkt.number == Wrap(barren + 1 + count)
    ensures HoldsBack(Record(l, Event(pkt, false)), barren, count)
  {
    PushAcrossGap(l.buf, barren + 1 + count, pkt);
  }

  /** The bound is met: after `barren + 1` consecutive losses, `reorderMaxHold` packets are no longer the limit
      (take `count` to be 63 more than `barren`). */
  lemma {:induction false} HoldBoundMet(barren: nat, count: nat)
    requires 0 < barren <= 0x4000 && count <= MAX_HOLD - 1 + barren
    ensures HoldsBack(Run(0, Burst(barren + 1, count)), barren, count)
  {
    var evs := Burst(barren + 1, count);
    if count == 0 {
      FirstPush(0, evs[0]);
      assert evs == [evs[0]];
    } else {
      HoldBoundMet(barren, count - 1);
      assert evs[..|evs| - 1] == Burst(barren + 1, count - 1);
      HoldsBackStep(Run(0, evs[..|evs| - 1]), barren, count, evs[|evs| - 1].pkt);
    }
  }
}
