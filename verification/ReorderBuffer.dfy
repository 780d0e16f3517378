/** `reorderBuffer` over its own 16-bit fields. `Narrow` is the value of those fields and `Push16` what `push`
does to it; the class is proved to do that, and `PushWraps` proves that it is what `Resequencing` specifies
for unbounded numbers, wraparound included. */
module ReorderBuffer {
  import opened SequenceNumbers
  import opened Rtp
  import opened Resequencing

  datatype Narrow = Narrow(nextSeq: uint16, pending: map<uint16, RtpPacket>)

  /** `nextSeq++` */
  function Successor(s: uint16): uint16 {
    if s == 0xFFFF then 0 else s + 1
  }

  function Drain16(n: Narrow): (Narrow, seq<RtpPacket>)
    decreases |n.pending|
  {
    if n.nextSeq in n.pending then
      var rest := Drain16(Narrow(Successor(n.nextSeq), n.pending - {n.nextSeq}));
      (rest.0, [n.pending[n.nextSeq]] + rest.1)
    else
      (n, [])
  }

  function GiveUp16(n: Narrow): (Narrow, seq<RtpPacket>) {
    Drain16(n.(nextSeq := Successor(n.nextSeq)))
  }

  function Push16(n: Narrow, pkt: RtpPacket, expired: bool): (Narrow, seq<RtpPacket>) {
    var delta := Delta(pkt.number, n.nextSeq);
    if delta < 0 then
      (n, [])
    else if delta > 0 then
      var n' := n.(pending := n.pending[pkt.number := pkt]);
      if |n'.pending| >= MAX_HOLD || expired then GiveUp16(n') else (n', [])
    else
      var r := GiveUp16(n);
      (r.0, [pkt] + r.1)
  }

  class ReorderBuffer {
    var pending: map<uint16, RtpPacket>
    var nextSeq: uint16
    var hasNext: bool

    ghost function View(): Narrow
      reads this
    {
      Narrow(nextSeq, pending)
    }

    constructor ()
      ensures !hasNext && pending == map[]
    {
      pending, nextSeq, hasNext := map[], 0, false;
    }

    method Push(pkt: RtpPacket, expired: bool) returns (out: seq<RtpPacket>)
      requires !hasNext ==> pending == map[]
      modifies this
      ensures hasNext
      ensures (View(), out) == Push16(if old(hasNext) then old(View()) else Narrow(pkt.number, map[]), pkt, expired)
    {
      if !hasNext {
        nextSeq := pkt.number;
        hasNext := true;
      }
      var delta := Delta(pkt.number, nextSeq);
      if delta < 0 {
        return [];
      }
      if delta > 0 {
        pending := pending[pkt.number := pkt];
        if |pending| >= MAX_HOLD || expired {
          out := GiveUpAndDrain();
          return;
        }
        return [];
      }
      out := [pkt];
      nextSeq := Successor(nextSeq);
      ghost var drained := Drain16(View());
      while nextSeq in pending
        invariant hasNext
        invariant Drain16(View()).0 == drained.0
        invariant out + Drain16(View()).1 == [pkt] + drained.1
        decreases |pending|
      {
        ghost var rest := Drain16(Narrow(Successor(nextSeq), pending - {nextSeq})).1;
        assert out + Drain16(View()).1 == (out + [pending[nextSeq]]) + rest;
        out := out + [pending[nextSeq]];
        pending := pending - {nextSeq};
        nextSeq := Successor(nextSeq);
      }
      assert out + [] == out;
    }

    method GiveUpAndDrain() returns (out: seq<RtpPacket>)
      requires hasNext
      modifies this
      ensures hasNext
      ensures (View(), out) == GiveUp16(old(View()))
    {
      nextSeq := Successor(nextSeq);
      out := [];
      ghost var drained := Drain16(View());
      while nextSeq in pending
        invariant hasNext
        invariant Drain16(View()).0 == drained.0
        invariant out + Drain16(View()).1 == drained.1
        decreases |pending|
      {
        ghost var rest := Drain16(Narrow(Successor(nextSeq), pending - {nextSeq})).1;
        assert out + Drain16(View()).1 == (out + [pending[nextSeq]]) + rest;
        out := out + [pending[nextSeq]];
        pending := pending - {nextSeq};
        nextSeq := Successor(nextSeq);
      }
      assert out + [] == out;
    }
  }

  /** The packets of the 16-bit map under their unbounded numbers, for a receiver waiting for `next`. */
  ghost function Wide(next: int, pending: map<uint16, RtpPacket>): map<int, RtpPacket> {
    map k | next <= k < next + 0x8000 && Wrap(k) in pending :: pending[Wrap(k)]
  }

  /** The 16-bit map of a receiver waiting for `next` holds nothing outside the window `Wide` looks at. */
  ghost predicate Faithful(next: int, pending: map<uint16, RtpPacket>) {
    |Wide(next, pending)| == |pending|
  }

  lemma {:induction false} WrapApart(next: int, u: int)
    requires next <= u < next + 0x1_0000
    ensures forall k :: next <= k < next + 0x8000 ==> (Wrap(k) == Wrap(u) <==> k == u)
  {
    forall k | next <= k < next + 0x8000 ensures Wrap(k) == Wrap(u) <==> k == u {
      WrapInjective(k, u);
    }
  }

  lemma {:induction false} StoringWide(next: int, pending: map<uint16, RtpPacket>, u: int, pkt: RtpPacket)
    requires Faithful(next, pending) && next < u < next + 0x8000
    ensures Wide(next, pending[Wrap(u) := pkt]) == Wide(next, pending)[u := pkt]
    ensures Faithful(next, pending[Wrap(u) := pkt])
  {
    WrapApart(next, u);
  }

  lemma {:induction false} RemovingWide(next: int, pending: map<uint16, RtpPacket>, u: int)
    requires next <= u < next + 0x8000 && Wrap(u) in pending
    ensures Wide(next, pending - {Wrap(u)}) == Wide(next, pending) - {u}
    ensures |Wide(next, pending - {Wrap(u)})| == |Wide(next, pending)| - 1
  {
    WrapApart(next, u);
  }

  lemma {:induction false} WideNoLarger(next: int, pending: map<uint16, RtpPacket>)
    ensures |Wide(next, pending)| <= |pending|
    decreases |pending|
  {
    var w := Wide(next, pending);
    if w != map[] {
      var u :| u in w;
      RemovingWide(next, pending, u);
      WideNoLarger(next, pending - {Wrap(u)});
    }
  }

  /** Nothing of a faithful map sits just beyond the window. */
  lemma {:induction false} NothingBeyond(next: int, pending: map<uint16, RtpPacket>)
    requires Faithful(next, pending)
    ensures Wrap(next + 0x8000) !in pending
  {
    var beyond := Wrap(next + 0x8000);
    if beyond in pending {
      WrapApart(next, next + 0x8000);
      assert Wide(next, pending - {beyond}) == Wide(next, pending);
      WideNoLarger(next, pending - {beyond});
    }
  }

  /** Waiting for the next number loses no packet once the number waited for is not in the map. */
  lemma {:induction false} SteppingWide(next: int, pending: map<uint16, RtpPacket>)
    requires Faithful(next, pending) && Wrap(next) !in pending
    ensures Wide(next + 1, pending) == Wide(next, pending)
  {
    NothingBeyond(next, pending);
    forall k | k in Wide(next + 1, pending) ensures k in Wide(next, pending) {
      assert k != next + 0x8000;
    }
    forall k | k in Wide(next, pending) ensures k in Wide(next + 1, pending) {
      assert k != next;
    }
  }

  /** The 16-bit state is the unbounded state, possibly in the middle of a step. */
  ghost predicate Represents(n: Narrow, b: Buffer) {
    n.nextSeq == Wrap(b.next) && Faithful(b.next, n.pending) && b.pending == Wide(b.next, n.pending)
  }

  lemma {:induction false} WrapSuccessor(n: int)
    ensures Wrap(n + 1) == Successor(Wrap(n))
  {
  }

  lemma {:induction false} DrainWraps(n: Narrow, b: Buffer)
    requires Represents(n, b)
    ensures Represents(Drain16(n).0, Drain(b).0) && Drain(b).0.InWindow(1)
    ensures Drain16(n).1 == Packets(Drain(b).1)
    decreases |n.pending|
  {
    if n.nextSeq in n.pending {
      var n' := Narrow(Successor(n.nextSeq), n.pending - {n.nextSeq});
      var b' := Buffer(b.next + 1, b.pending - {b.next});
      RemovingWide(b.next, n.pending, b.next);
      SteppingWide(b.next, n'.pending);
      WrapSuccessor(b.next);
      DrainWraps(n', b');
      PacketsCons(Numbered(b.next, b.pending[b.next]), Drain(b').1);
    }
  }

  lemma {:induction false} NotAwaited(next: int, pending: map<uint16, RtpPacket>)
    requires next !in Wide(next, pending)
    ensures Wrap(next) !in pending
  {
  }

  /** Giving up the number waited for. */
  lemma {:induction false} StepWraps(next: int, pending: map<uint16, RtpPacket>)
    requires Faithful(next, pending) && next !in Wide(next, pending)
    ensures Faithful(next + 1, pending) && Wide(next + 1, pending) == Wide(next, pending)
  {
    NotAwaited(next, pending);
    SteppingWide(next, pending);
  }

  lemma {:induction false} GivenUpFaithful(n: Narrow, b: Buffer)
    requires Represents(n, b) && b.InWindow(1)
    ensures Faithful(b.next + 1, n.pending) && b.pending == Wide(b.next + 1, n.pending)
  {
    assert b.next !in b.pending;
    StepWraps(b.next, n.pending);
  }

  lemma {:induction false} GiveUpWraps(n: Narrow, b: Buffer)
    requires Represents(n, b) && b.InWindow(1)
    ensures Represents(GiveUp16(n).0, GiveUp(b).0) && GiveUp(b).0.InWindow(1)
    ensures GiveUp16(n).1 == Packets(GiveUp(b).1)
  {
    GivenUpFaithful(n, b);
    WrapSuccessor(b.next);
    DrainOneOn(n.nextSeq, n.pending, b.next, b.pending);
  }

  lemma {:induction false} DrainOneOn(nextSeq: uint16, pending: map<uint16, RtpPacket>, next: int, wide: map<int, RtpPacket>)
    requires Successor(nextSeq) == Wrap(next + 1) && Faithful(next + 1, pending) && wide == Wide(next + 1, pending)
    ensures var r16, r := Drain16(Narrow(Successor(nextSeq), pending)), Drain(Buffer(next + 1, wide));
      Represents(r16.0, r.0) && r.0.InWindow(1) && r16.1 == Packets(r.1)
  {
    DrainWraps(Narrow(Successor(nextSeq), pending), Buffer(next + 1, wide));
  }

  /** The 16-bit buffer is the unbounded buffer: same packets out, and still the same buffer afterwards. */
  lemma {:induction false} PushWraps(n: Narrow, b: Buffer, pkt: RtpPacket, expired: bool)
    requires Represents(n, b) && b.InWindow(1)
    ensures Represents(Push16(n, pkt, expired).0, Push(b, pkt, expired).buf) && Push(b, pkt, expired).buf.InWindow(1)
    ensures Push16(n, pkt, expired).1 == Packets(Push(b, pkt, expired).out)
  {
    var u := Unwrap(b.next, pkt.number);
    UnwrapTravelsUnder(b.next, pkt.number);
    if u > b.next {
      StoringWide(b.next, n.pending, u, pkt);
      var n' := n.(pending := n.pending[pkt.number := pkt]);
      var b' := b.(pending := b.pending[u := pkt]);
      GiveUpWraps(n', b');
    } else if u == b.next {
      GiveUpWraps(n, b);
      PacketsCons(Numbered(u, pkt), GiveUp(b).1);
    }
  }

  /** Before the first packet nothing is pending, and the first packet sets the number waited for. */
  lemma {:induction false} StartWraps(pkt: RtpPacket, origin: int)
    requires Wrap(origin) == pkt.number
    ensures Represents(Narrow(pkt.number, map[]), Buffer(origin, map[])) && Buffer(origin, map[]).InWindow(1)
  {
    assert Wide(origin, map[]) == map[];
  }
}
