/** Promptness is necessary too: the buffer undoes a reordering exactly when it is prompt and overtakes little. */
module PromptDelivery {
  import opened SequenceNumbers
  import opened Rtp
  import opened Resequencing
  import opened ResequencingRuns
  import opened ResequencingBounds
  import opened ReorderingInvisible

  // ---- What only grows over a run ----

  /** Every packet pushed is out, pending, late or replaced, and `next` is past what is out and what was given up for
      nothing. */
  ghost predicate Tallied(origin: int, l: Ledger, pushed: nat) {
    && pushed == |l.out| + |l.buf.pending| + |l.late| + |l.replaced|
    && l.buf.next >= origin + |l.out| + l.barren
  }

  lemma {:induction false} OnHandCount(b: Buffer, pkt: RtpPacket, expired: bool)
    requires b.InWindow(1)
    ensures var p := Push(b, pkt, expired); var all := OnHand(b, Unwrap(b.next, pkt.number), pkt);
      |all| + |ResequencingRuns.Late(p, pkt)| + |Replaced(p)| == |b.pending| + 1
  {
    var u := Unwrap(b.next, pkt.number);
    StoredTimes(b, u, pkt);
  }

  lemma {:induction false} RecordTallies(origin: int, l: Ledger, ev: Event, pushed: nat)
    requires l.buf.InWindow(1) && Tallied(origin, l, pushed)
    ensures Tallied(origin, Record(l, ev), pushed + 1)
  {
    OnHandCount(l.buf, ev.pkt, ev.expired);
    PushEffect(l.buf, ev.pkt, ev.expired);
  }

  /** The run so far. */
  ghost predicate TalliedAfter(origin: int, evs: seq<Event>, n: nat)
    requires n <= |evs|
  {
    exists l: Ledger :: l == Run(origin, evs[..n]) && l.buf.InWindow(1) && Tallied(origin, l, n)
  }

  lemma {:induction false} TalliedNext(origin: int, evs: seq<Event>, n: nat)
    requires n < |evs| && TalliedAfter(origin, evs, n)
    ensures TalliedAfter(origin, evs, n + 1)
  {
    var l: Ledger :| l == Run(origin, evs[..n]) && l.buf.InWindow(1) && Tallied(origin, l, n);
    RunSnoc(origin, evs, n);
    RecordTallies(origin, l, evs[n], n);
    PushBlock(l.buf, evs[n].pkt, evs[n].expired);
  }

  lemma {:induction false} TalliedStart(origin: int, evs: seq<Event>)
    ensures TalliedAfter(origin, evs, 0)
  {
    var l := Ledger(Buffer(origin, map[]), [], [], [], [], 0);
    assert l == Run(origin, evs[..0]) && Tallied(origin, l, 0);
  }

  lemma {:induction false} TalliedRun(origin: int, evs: seq<Event>, n: nat)
    requires n <= |evs|
    ensures TalliedAfter(origin, evs, n)
  {
    TalliedStart(origin, evs);
    var k := 0;
    while k < n
      invariant 0 <= k <= n && TalliedAfter(origin, evs, k)
    {
      TalliedNext(origin, evs, k);
      k := k + 1;
    }
  }

  /** What comes out later comes after what is out, and under numbers not passed yet. */
  ghost predicate Extends(l: Ledger, l': Ledger) {
    && |l.out| <= |l'.out| && l'.out[..|l.out|] == l.out && |l.late| <= |l'.late| && |l.replaced| <= |l'.replaced|
    && l.buf.next <= l'.buf.next
    && forall i :: |l.out| <= i < |l'.out| ==> l'.out[i].num >= l.buf.next
  }

  lemma {:induction false} RecordExtends(l: Ledger, l': Ledger, ev: Event)
    requires Extends(l, l') && l'.buf.InWindow(1)
    ensures Extends(l, Record(l', ev))
  {
    PushBlock(l'.buf, ev.pkt, ev.expired);
  }

  ghost predicate ExtendsBy(l: Ledger, origin: int, evs: seq<Event>, m: nat)
    requires m <= |evs|
  {
    exists l': Ledger :: l' == Run(origin, evs[..m]) && l'.buf.InWindow(1) && Extends(l, l')
  }

  lemma {:induction false} ExtendsNext(l: Ledger, origin: int, evs: seq<Event>, m: nat)
    requires m < |evs| && ExtendsBy(l, origin, evs, m)
    ensures ExtendsBy(l, origin, evs, m + 1)
  {
    var l': Ledger :| l' == Run(origin, evs[..m]) && l'.buf.InWindow(1) && Extends(l, l');
    RunSnoc(origin, evs, m);
    RecordExtends(l, l', evs[m]);
    PushBlock(l'.buf, evs[m].pkt, evs[m].expired);
  }

  lemma {:induction false} ExtendsItself(l: Ledger, origin: int, evs: seq<Event>, n: nat)
    requires n <= |evs| && l == Run(origin, evs[..n])
    ensures ExtendsBy(l, origin, evs, n)
  {
    OrderedRun(origin, evs[..n]);
    assert Extends(l, l);
  }

  lemma {:induction false} ExtendsOn(l: Ledger, origin: int, evs: seq<Event>, n: nat, m: nat)
    requires n <= m <= |evs| && ExtendsBy(l, origin, evs, n)
    ensures ExtendsBy(l, origin, evs, m)
  {
    var k := n;
    while k < m
      invariant n <= k <= m && ExtendsBy(l, origin, evs, k)
    {
      ExtendsNext(l, origin, evs, k);
      k := k + 1;
    }
  }

  lemma {:induction false} RunExtends(origin: int, evs: seq<Event>, n: nat, m: nat)
    requires n <= m <= |evs|
    ensures ExtendsBy(Run(origin, evs[..n]), origin, evs, m)
  {
    ExtendsItself(Run(origin, evs[..n]), origin, evs, n);
    ExtendsOn(Run(origin, evs[..n]), origin, evs, n, m);
  }

  // ---- A run that comes out as it was sent ----

  ghost predicate Distinct(sent: seq<RtpPacket>) {
    forall i, j :: 0 <= i < j < |sent| ==> sent[i] != sent[j]
  }

  /** The run comes out in order, and nothing else does. */
  ghost predicate Invisible(d: Delivery)
    requires d.Valid()
  {
    Packets(d.After(|d.order|).out) == d.sent
  }

  lemma {:induction false} EmittedTravels(origin: int, evs: seq<Event>, i: nat)
    requires i < |Run(origin, evs).out|
    ensures Wrap(Run(origin, evs).out[i].num) == Run(origin, evs).out[i].pkt.number
  {
    var s := EmittedAsGiven(origin, evs, i);
    UnwrapTravelsUnder(Run(origin, evs[..s]).buf.next, evs[s].pkt.number);
  }

  /** Numbers at most 32768 apart that travel under consecutive numbers are consecutive. */
  lemma {:induction false} Consecutive(out: seq<Numbered>, origin: int, i: nat)
    requires i < |out| && GapsFit(out) && out[0].num == origin
    requires forall j :: 0 <= j < |out| ==> Wrap(out[j].num) == Wrap(origin + j)
    ensures out[i].num == origin + i
  {
    if i > 0 {
      Consecutive(out, origin, i - 1);
      assert 0 < out[i - 1 + 1].num - out[i - 1].num <= 0x8000;
      WrapInjective(out[i].num, origin + i);
    }
  }

  lemma {:induction false} FirstArrives(d: Delivery)
    requires d.Valid()
    ensures var evs := d.Events(|d.order|); evs != [] && evs[0].pkt == d.sent[0] && evs[0].pkt.number == Wrap(d.origin)
  {
    d.EventAt(|d.order|, 0);
  }

  lemma {:induction false} NumbersOf(out: seq<Numbered>, sent: seq<RtpPacket>, origin: int, i: nat)
    requires Packets(out) == sent && GapsFit(out) && i < |out| && out[0].num == origin
    requires forall j :: 0 <= j < |out| ==> Wrap(out[j].num) == out[j].pkt.number
    requires forall j :: 0 <= j < |sent| ==> sent[j].number == Wrap(origin + j)
    ensures out[i] == Numbered(origin + i, sent[i])
  {
    forall j | 0 <= j < |out| ensures Wrap(out[j].num) == Wrap(origin + j) {
      PacketAt(out, j);
    }
    Consecutive(out, origin, i);
    PacketAt(out, i);
  }

  lemma {:induction false} AllTravel(origin: int, evs: seq<Event>)
    ensures var out := Run(origin, evs).out; forall j :: 0 <= j < |out| ==> Wrap(out[j].num) == out[j].pkt.number
  {
    var out := Run(origin, evs).out;
    forall j | 0 <= j < |out| ensures Wrap(out[j].num) == out[j].pkt.number {
      EmittedTravels(origin, evs, j);
    }
  }

  lemma {:induction false} NumbersInRun(origin: int, evs: seq<Event>, sent: seq<RtpPacket>, i: nat)
    requires evs != [] && evs[0].pkt.number == Wrap(origin) && Packets(Run(origin, evs).out) == sent && i < |sent|
    requires forall j :: 0 <= j < |sent| ==> sent[j].number == Wrap(origin + j)
    ensures var out := Run(origin, evs).out; |out| == |sent| && out[i] == Numbered(origin + i, sent[i])
  {
    ClosedRun(origin, evs);
    AllTravel(origin, evs);
    NumbersOf(Run(origin, evs).out, sent, origin, i);
  }

  /** The events of a whole delivery, and what came of them. */
  lemma {:induction false} WholeRun(d: Delivery) returns (evs: seq<Event>, out: seq<Numbered>)
    requires d.Valid() && Invisible(d)
    ensures evs == d.Events(|d.order|) && out == Run(d.origin, evs).out == d.After(|d.order|).out
    ensures evs != [] && evs[0].pkt.number == Wrap(d.origin) && Packets(out) == d.sent
  {
    evs, out := d.Events(|d.order|), d.After(|d.order|).out;
    FirstArrives(d);
  }

  lemma {:induction false} SentNumbers(d: Delivery)
    requires d.Valid()
    ensures forall j :: 0 <= j < |d.sent| ==> d.sent[j].number == Wrap(d.origin + j)
  {
  }

  /** Then every packet comes out under its own number. */
  lemma {:induction false} OwnNumbers(d: Delivery, i: nat)
    requires d.Valid() && Invisible(d) && i < |d.sent|
    ensures var out := d.After(|d.order|).out; |out| == |d.sent| && out[i] == Numbered(d.origin + i, d.sent[i])
  {
    var evs, out := WholeRun(d);
    SentNumbers(d);
    NumbersInRun(d.origin, evs, d.sent, i);
  }

  // ---- A packet that is late ----

  /** Before its arrival a packet is not out. */
  lemma {:induction false} NotOutYet(d: Delivery, i: nat)
    requires d.Valid() && Distinct(d.sent) && Invisible(d) && i < |d.sent|
    ensures |d.After(d.at[i]).out| <= i
  {
    var n, t, evs := |d.order|, d.at[i], d.Events(|d.order|);
    Prefix(d, t);
    RunExtends(d.origin, evs, t, n);
    assert evs[..n] == evs;
    var early := d.After(t).out;
    if i < |early| {
      OwnNumbers(d, i);
      assert early[i] == d.After(n).out[..|early|][i];
      EmittedEarly(d, t, i);
      assert false;
    }
  }

  lemma {:induction false} Prefix(d: Delivery, t: nat)
    requires d.Valid() && t <= |d.order|
    ensures var evs := d.Events(|d.order|); |evs| == |d.order| && evs[..t] == d.Events(t)
  {
    var evs := d.Events(|d.order|);
    if t < |d.order| {
      d.EventAt(|d.order|, t);
    } else {
      assert evs[..t] == evs;
    }
  }

  lemma {:induction false} EmittedEarly(d: Delivery, t: nat, i: nat)
    requires d.Valid() && Distinct(d.sent) && t <= |d.order| && i < |d.After(t).out| && i < |d.sent|
    requires d.After(t).out[i].pkt == d.sent[i]
    ensures d.at[i] < t
  {
    var s := EmittedAsGiven(d.origin, d.Events(t), i);
    d.EventAt(t, s);
    assert d.sent[d.order[s]] == d.sent[i];
    assert d.order[s] == i;
  }

  /** When a packet is 64 or more positions late, too many wait for it: the buffer gives up a number for nothing. */
  lemma {:induction false} LateIsGivenUp(d: Delivery, i: nat)
    requires d.Valid() && Distinct(d.sent) && Invisible(d) && i < |d.sent| && d.at[i] >= i + MAX_HOLD
    ensures var l := d.After(d.at[i]); |l.out| <= i && l.buf.next > d.origin + |l.out|
  {
    var n, t, evs := |d.order|, d.at[i], d.Events(|d.order|);
    NotOutYet(d, i);
    Prefix(d, t);
    assert evs[..n] == evs;
    TalliedRun(d.origin, evs, n);
    TalliedRun(d.origin, evs, t);
    RunExtends(d.origin, evs, t, n);
    HoldBound(d.origin, evs[..t]);
  }

  /** So a reordering that the buffer undoes is prompt. */
  lemma {:induction false} InvisibleIsPrompt(d: Delivery)
    requires d.Valid() && Distinct(d.sent) && Invisible(d)
    ensures d.Prompt()
  {
    forall i | 0 <= i < |d.at| ensures d.at[i] < i + MAX_HOLD {
      if d.at[i] >= i + MAX_HOLD {
        LateIsLost(d, i);
      }
    }
  }

  lemma {:induction false} LateIsLost(d: Delivery, i: nat)
    requires d.Valid() && Distinct(d.sent) && Invisible(d) && i < |d.sent|
    ensures d.at[i] < i + MAX_HOLD
  {
    if d.at[i] >= i + MAX_HOLD {
      var n, t, evs := |d.order|, d.at[i], d.Events(|d.order|);
      LateIsGivenUp(d, i);
      Prefix(d, t);
      RunExtends(d.origin, evs, t, n);
      assert evs[..n] == evs;
      OwnNumbers(d, |d.After(t).out|);
      assert false;
    }
  }

  /** Reordering is invisible, for distinct packets of which the lowest numbered one arrives first, if and only if no packet
      is more than 63 positions late and none overtakes one numbered 32768 or more before it. */
  lemma {:induction false} InvisibleExactly(d: Delivery)
    requires d.Valid() && Distinct(d.sent)
    ensures Invisible(d) <==> d.Prompt() && d.NoFarOvertaking()
  {
    if Invisible(d) {
      InvisibleIsPrompt(d);
      d.InvisibleExactlyWhenNear();
    } else if d.Prompt() && d.NoFarOvertaking() {
      d.InvisibleExactlyWhenNear();
    }
  }
}
