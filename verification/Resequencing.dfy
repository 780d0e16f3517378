/** The resequencing buffer in front of the depacketizer.

The specification counts in unbounded numbers: `next` is what `nextSeq` would be had it never wrapped,
and the keys of `pending` are the unbounded numbers of the buffered packets. Time enters as the
`expired` flag of a push: whether the wait budget of the current gap is used up. */
module Resequencing {
  import opened SequenceNumbers
  import opened Rtp

  const MAX_HOLD := 64

  datatype Numbered = Numbered(num: int, pkt: RtpPacket)

  datatype Buffer = Buffer(next: int, pending: map<int, RtpPacket>) {
    /** Pending packets sit at least `lo` and at most 32767 numbers ahead. */
    ghost predicate InWindow(lo: int) {
      forall k :: k in pending ==> next + lo <= k < next + 0x8000
    }
  }

  /** Takes the packets that follow on from `next`. */
  function Drain(b: Buffer): (Buffer, seq<Numbered>)
    decreases |b.pending|
  {
    if b.next in b.pending then
      var rest := Drain(Buffer(b.next + 1, b.pending - {b.next}));
      (rest.0, [Numbered(b.next, b.pending[b.next])] + rest.1)
    else
      (b, [])
  }

  function GiveUp(b: Buffer): (Buffer, seq<Numbered>) {
    Drain(b.(next := b.next + 1))
  }

  datatype Fate = Delivered | Late | Stored(replaced: seq<RtpPacket>, gaveUp: bool)

  datatype Pushed = Pushed(buf: Buffer, out: seq<Numbered>, fate: Fate) {
    /** How many numbers the push gave up. */
    function Skipped(): nat {
      if fate.Stored? && fate.gaveUp then 1 else 0
    }
  }

  function Push(b: Buffer, pkt: RtpPacket, expired: bool): Pushed {
    var u := Unwrap(b.next, pkt.number);
    if u < b.next then
      Pushed(b, [], Late)
    else if u > b.next then
      var replaced := if u in b.pending then [b.pending[u]] else [];
      var b' := b.(pending := b.pending[u := pkt]);
      if |b'.pending| >= MAX_HOLD || expired then
        var r := GiveUp(b');
        Pushed(r.0, r.1, Stored(replaced, true))
      else
        Pushed(b', [], Stored(replaced, false))
    else
      var r := Drain(b.(next := b.next + 1));
      Pushed(r.0, [Numbered(u, pkt)] + r.1, Delivered)
  }

  /** The packets of `m` from number `n` on. */
  function From(m: map<int, RtpPacket>, n: int): map<int, RtpPacket> {
    map k | k in m && k >= n :: m[k]
  }

  /** What the drain loop does to the buffer: it stops at the first number not buffered and leaves
      everything above that number alone. */
  lemma {:induction false} DrainEffect(b: Buffer)
    requires b.InWindow(0)
    ensures var r := Drain(b);
      && r.0.InWindow(1)
      && r.0.next == b.next + |r.1|
      && r.0.pending == From(b.pending, r.0.next)
      && |r.0.pending| == |b.pending| - |r.1|
    decreases |b.pending|
  {
    if b.next in b.pending {
      var b' := Buffer(b.next + 1, b.pending - {b.next});
      DrainEffect(b');
      FromSkips(b.pending, b.next, Drain(b).0.next);
    } else {
      FromAll(b.pending, b.next);
    }
  }

  lemma {:induction false} FromAll(m: map<int, RtpPacket>, n: int)
    requires forall k :: k in m ==> k >= n
    ensures From(m, n) == m
  {
  }

  lemma {:induction false} FromSkips(m: map<int, RtpPacket>, u: int, n: int)
    requires u < n
    ensures From(m - {u}, n) == From(m, n)
  {
  }

  /** What the drain loop emits: the buffered packets of consecutive numbers, in order. */
  lemma {:induction false} DrainOutput(b: Buffer, i: int)
    requires 0 <= i < |Drain(b).1|
    ensures b.next + i in b.pending
    ensures Drain(b).1[i] == Numbered(b.next + i, b.pending[b.next + i])
    decreases i
  {
    if i > 0 {
      DrainOutput(Buffer(b.next + 1, b.pending - {b.next}), i - 1);
    }
  }

  /** The packets on hand while a push of a packet numbered `u` is under way. */
  function OnHand(b: Buffer, u: int, pkt: RtpPacket): map<int, RtpPacket> {
    if u < b.next then b.pending else b.pending[u := pkt]
  }

  lemma {:induction false} GiveUpEffect(b: Buffer, u: int, pkt: RtpPacket)
    requires b.InWindow(1) && b.next < u < b.next + 0x8000
    ensures var all := b.pending[u := pkt]; var r := GiveUp(Buffer(b.next, all));
      && r.0.InWindow(1)
      && r.0.next == b.next + 1 + |r.1|
      && r.0.pending == From(all, r.0.next)
      && |r.0.pending| == |all| - |r.1|
  {
    DrainEffect(Buffer(b.next + 1, b.pending[u := pkt]));
  }

  lemma {:induction false} PutAndTake(m: map<int, RtpPacket>, k: int, pkt: RtpPacket)
    requires k !in m
    ensures m[k := pkt] - {k} == m && |m[k := pkt]| == |m| + 1
  {
  }

  lemma {:induction false} DeliverEffect(b: Buffer, pkt: RtpPacket)
    requires b.InWindow(1)
    ensures var all := b.pending[b.next := pkt]; var r := GiveUp(b);
      && r.0.InWindow(1)
      && r.0.next == b.next + 1 + |r.1|
      && r.0.pending == From(all, r.0.next)
      && |r.0.pending| == |all| - 1 - |r.1|
  {
    var all := b.pending[b.next := pkt];
    var b' := Buffer(b.next + 1, b.pending);
    assert GiveUp(b) == Drain(b');
    DrainEffect(b');
    PutAndTake(b.pending, b.next, pkt);
    FromSkips(all, b.next, Drain(b').0.next);
  }

  /** One push, whatever the packet: the window is kept, `next` moves on past what is emitted and by at most
      one number more, and what stays behind is what was on hand from the new `next` on. */
  lemma {:induction false} PushEffect(b: Buffer, pkt: RtpPacket, expired: bool)
    requires b.InWindow(1)
    ensures var p := Push(b, pkt, expired); var all := OnHand(b, Unwrap(b.next, pkt.number), pkt);
      && p.buf.InWindow(1)
      && p.buf.next == b.next + |p.out| + p.Skipped()
      && p.buf.pending == From(all, p.buf.next)
      && |p.buf.pending| == |all| - |p.out|
  {
    var u := Unwrap(b.next, pkt.number);
    if u < b.next {
      FromAll(b.pending, b.next);
    } else if u > b.next {
      FromAll(b.pending[u := pkt], b.next);
      GiveUpEffect(b, u, pkt);
    } else {
      DeliverEffect(b, pkt);
    }
  }

  /** One number is given up exactly when a packet beyond it makes 64 on hand, or finds its budget used up; with
      `PushEffect` that settles where every push ends. */
  lemma {:induction false} PushSkipsExactly(b: Buffer, pkt: RtpPacket, expired: bool)
    ensures var u := Unwrap(b.next, pkt.number);
      Push(b, pkt, expired).Skipped() == if u > b.next && (|OnHand(b, u, pkt)| >= 64 || expired) then 1 else 0
  {
  }

  lemma {:induction false} DrainShrinks(b: Buffer)
    ensures |Drain(b).0.pending| == |b.pending| - |Drain(b).1|
    decreases |b.pending|
  {
    if b.next in b.pending {
      DrainShrinks(Buffer(b.next + 1, b.pending - {b.next}));
    }
  }

  lemma {:induction false} GiveUpShrinks(b: Buffer)
    ensures |GiveUp(b).0.pending| + |Packets(GiveUp(b).1)| == |b.pending|
  {
    var b' := b.(next := b.next + 1);
    DrainShrinks(b');
    assert b'.pending == b.pending;
    assert GiveUp(b) == Drain(b');
    var r := Drain(b');
    assert |r.0.pending| + |r.1| == |b.pending|;
  }

  /** The packet waited for is emitted, followed by what it unblocks. */
  lemma {:induction false} PushDelivers(b: Buffer, pkt: RtpPacket, expired: bool)
    requires pkt.number == Wrap(b.next)
    ensures Push(b, pkt, expired).buf == GiveUp(b).0
    ensures Packets(Push(b, pkt, expired).out) == [pkt] + Packets(GiveUp(b).1)
  {
    UnwrapExact(b.next, b.next);
    PacketsCons(Numbered(b.next, pkt), GiveUp(b).1);
  }

  lemma {:induction false} PushStores(b: Buffer, u: int, pkt: RtpPacket)
    requires b.next < u < b.next + 0x8000 && pkt.number == Wrap(u)
    requires u !in b.pending && |b.pending| + 1 < MAX_HOLD
    ensures Push(b, pkt, false).buf == Buffer(b.next, b.pending[u := pkt]) && Push(b, pkt, false).out == []
    ensures |b.pending[u := pkt]| == |b.pending| + 1
  {
    UnwrapExact(b.next, u);
  }

  /** Position by position, a push emits the packets on hand under the last numbers below the new `next`. */
  lemma {:induction false} PushOutput(b: Buffer, pkt: RtpPacket, expired: bool, i: int)
    requires b.InWindow(1) && 0 <= i < |Push(b, pkt, expired).out|
    ensures var p := Push(b, pkt, expired);
      var n := b.next + p.Skipped() + i; var all := OnHand(b, Unwrap(b.next, pkt.number), pkt);
      n in all && p.out[i] == Numbered(n, all[n])
  {
    var u := Unwrap(b.next, pkt.number);
    if u > b.next {
      DrainOutput(Buffer(b.next + 1, b.pending[u := pkt]), i);
    } else if i > 0 {
      DrainOutput(Buffer(b.next + 1, b.pending), i - 1);
    }
  }

  function Packets(out: seq<Numbered>): (pkts: seq<RtpPacket>)
    ensures |pkts| == |out|
  {
    if out == [] then [] else [out[0].pkt] + Packets(out[1..])
  }

  lemma {:induction false} PacketsCons(first: Numbered, rest: seq<Numbered>)
    ensures Packets([first] + rest) == [first.pkt] + Packets(rest)
  {
    assert ([first] + rest)[1..] == rest;
  }

  lemma {:induction false} DrainStep(b: Buffer, b': Buffer)
    requires b.next in b.pending && b' == Buffer(b.next + 1, b.pending - {b.next})
    ensures Drain(b).0 == Drain(b').0
    ensures Packets(Drain(b).1) == [b.pending[b.next]] + Packets(Drain(b').1)
  {
    PacketsCons(Numbered(b.next, b.pending[b.next]), Drain(b').1);
  }

  lemma {:induction false} PacketAt(out: seq<Numbered>, i: nat)
    requires i < |out|
    ensures Packets(out)[i] == out[i].pkt
  {
    if i > 0 {
      PacketAt(out[1..], i - 1);
    }
  }
}
