/** When the network only reorders, and not by too much, the buffer hands on exactly the stream that was sent. */
module ReorderingInvisible {
  import opened SequenceNumbers
  import opened Rtp
  import opened Resequencing
  import opened ResequencingRuns

  lemma {:induction false} SliceHead<T>(s: seq<T>, m: nat, n: nat)
    requires m < n <= |s|
    ensures s[m..n] == [s[m]] + s[m + 1..n]
  {
  }

  lemma {:induction false} PrefixGrows<T>(s: seq<T>, m: nat, n: nat)
    requires m < n <= |s|
    ensures s[..n] == s[..m] + ([s[m]] + s[m + 1..n])
  {
  }

  /** A consecutive run of packets in the order they were sent, and the order the network delivers them in:
      packet `order[t]` is the `t`-th to arrive, and packet `i` arrives in position `at[i]`. */
  datatype Delivery = Delivery(origin: int, sent: seq<RtpPacket>, order: seq<nat>, at: seq<nat>) {
    /** Every packet of the run arrives exactly once, the lowest numbered one first. */
    ghost predicate Valid() {
      && |sent| == |order| == |at| > 0
      && (forall i :: 0 <= i < |sent| ==> sent[i].number == Wrap(origin + i))
      && (forall t :: 0 <= t < |order| ==> order[t] < |at| && at[order[t]] == t)
      && (forall i :: 0 <= i < |at| ==> at[i] < |order| && order[at[i]] == i)
      && order[0] == 0
    }

    /** No packet arrives more than 63 positions late. */
    ghost predicate Prompt() {
      forall i :: 0 <= i < |at| ==> at[i] < i + MAX_HOLD
    }

    /** The `t`-th arrival overtakes no packet numbered 32768 or more before it. */
    ghost predicate Near(t: nat)
      requires t < |order|
    {
      forall m :: 0 <= m < |at| && at[m] >= t ==> order[t] - m < 0x8000
    }

    ghost predicate NoFarOvertaking() {
      forall t :: 0 <= t < |order| ==> Near(t)
    }

    /** The arrivals before position `t`; the wait budget never runs out. */
    function Events(t: nat): (evs: seq<Event>)
      requires t <= |order| && forall s :: 0 <= s < |order| ==> order[s] < |sent|
      ensures |evs| == t
    {
      if t == 0 then [] else Events(t - 1) + [Event(sent[order[t - 1]], false)]
    }

    ghost function After(t: nat): Ledger
      requires Valid() && t <= |order|
    {
      Run(origin, Events(t))
    }

    lemma {:induction false} AfterStep(t: nat)
      requires Valid() && t < |order|
      ensures After(t + 1) == Record(After(t), Event(sent[order[t]], false))
    {
      assert Events(t + 1)[..t] == Events(t);
    }

    /** The position in which the packet of unbounded number `k` arrives. */
    ghost function ArrivesAt(k: int): nat
      requires Valid() && origin <= k < origin + |sent|
    {
      at[k - origin]
    }

    /** The packets numbered from `m` on that have arrived before position `t`. */
    ghost function Arrived(t: nat, m: nat): map<int, RtpPacket>
      requires Valid()
    {
      map k | origin + m <= k < origin + |sent| && ArrivesAt(k) < t :: sent[k - origin]
    }

    /** The first packet from `m` on that has not arrived before position `t`. */
    ghost function Missing(t: nat, m: nat): (n: nat)
      requires Valid() && m <= |sent|
      ensures m <= n <= |sent|
      decreases |sent| - m
    {
      if m < |sent| && at[m] < t then Missing(t, m + 1) else m
    }

    lemma {:induction false} MissingIsFirst(t: nat, m: nat)
      requires Valid() && m <= |sent|
      ensures var n := Missing(t, m); (n < |sent| ==> at[n] >= t) && forall i :: m <= i < n ==> at[i] < t
      decreases |sent| - m
    {
      if m < |sent| && at[m] < t {
        MissingIsFirst(t, m + 1);
      }
    }

    lemma {:induction false} ArrivedNext(t: nat, m: nat)
      requires Valid() && t < |order|
      ensures order[t] >= m ==> Arrived(t + 1, m) == Arrived(t, m)[origin + order[t] := sent[order[t]]]
      ensures order[t] < m ==> Arrived(t + 1, m) == Arrived(t, m)
      ensures origin + order[t] !in Arrived(t, m)
    {
      forall i | 0 <= i < |at| ensures at[i] == t <==> i == order[t] {
      }
    }

    lemma {:induction false} ArrivedAbove(t: nat, m: nat)
      requires Valid() && m < |sent|
      ensures Arrived(t, m + 1) == Arrived(t, m) - {origin + m}
      ensures at[m] >= t ==> Arrived(t, m + 1) == Arrived(t, m)
    {
    }

    lemma {:induction false} HeadArrived(t: nat, m: nat)
      requires Valid() && m <= |sent|
      ensures origin + m in Arrived(t, m) <==> m < |sent| && at[m] < t
      ensures m < |sent| && at[m] < t ==> Arrived(t, m)[origin + m] == sent[m]
    {
      if m < |sent| {
        assert ArrivesAt(origin + m) == at[m];
      }
    }

    ghost predicate Has(b: Buffer, t: nat, m: nat)
      requires Valid()
    {
      b.next == origin + m && b.pending == Arrived(t, m)
    }

    lemma {:induction false} TakingHead(b: Buffer, t: nat, m: nat)
      requires Valid() && m < |sent| && at[m] < t && Has(b, t, m)
      ensures b.next in b.pending && b.pending[b.next] == sent[m]
      ensures Has(Buffer(b.next + 1, b.pending - {b.next}), t, m + 1)
    {
      HeadArrived(t, m);
      ArrivedAbove(t, m);
    }

    lemma {:induction false} DrainArrived(b: Buffer, t: nat, m: nat)
      requires Valid() && m <= |sent| && Has(b, t, m)
      ensures Has(Drain(b).0, t, Missing(t, m)) && Packets(Drain(b).1) == sent[m..Missing(t, m)]
      decreases |sent| - m
    {
      if m < |sent| && at[m] < t {
        var b' := Buffer(b.next + 1, b.pending - {b.next});
        TakingHead(b, t, m);
        DrainArrived(b', t, m + 1);
        DrainStep(b, b');
        SliceHead(sent, m, Missing(t, m));
      } else {
        HeadArrived(t, m);
      }
    }

    /** After `t` arrivals the buffer waits for the first packet missing and holds all that came after it. */
    ghost predicate InSync(b: Buffer, t: nat, m: nat)
      requires Valid()
    {
      && m <= |sent| && Has(b, t, m) && |b.pending| + m == t
      && (m < |sent| ==> at[m] >= t)
      && forall i :: 0 <= i < m ==> at[i] < t
    }

    lemma {:induction false} StoringStaysInSync(b: Buffer, t: nat, m: nat)
      requires Valid() && Prompt() && t < |order| && Near(t) && InSync(b, t, m) && order[t] > m
      ensures var p := Push(b, sent[order[t]], false); InSync(p.buf, t + 1, m) && p.out == []
    {
      assert at[order[t]] == t;
      assert at[m] < m + MAX_HOLD && at[m] != t;
      ArrivedNext(t, m);
      PushStores(b, origin + order[t], sent[order[t]]);
    }

    lemma {:induction false} NothingBelow(b: Buffer, t: nat, m: nat)
      requires Valid() && t < |order| && InSync(b, t, m)
      ensures order[t] >= m
    {
      assert at[order[t]] == t;
    }

    lemma {:induction false} DeliveringHas(b: Buffer, t: nat, m: nat)
      requires Valid() && t < |order| && Has(b, t, m) && order[t] == m
      ensures Has(b.(next := b.next + 1), t + 1, m + 1)
    {
      ArrivedNext(t, m);
      ArrivedAbove(t + 1, m);
    }

    lemma {:induction false} DeliveringDrains(b: Buffer, t: nat, m: nat)
      requires Valid() && t < |order| && m < |sent| && Has(b, t, m) && order[t] == m
      ensures var m' := Missing(t + 1, m + 1); Has(GiveUp(b).0, t + 1, m') && Packets(GiveUp(b).1) == sent[m + 1..m']
    {
      DeliveringHas(b, t, m);
      GiveUpArrived(b, t + 1, m + 1);
    }

    lemma {:induction false} GiveUpArrived(b: Buffer, t: nat, m: nat)
      requires Valid() && m <= |sent| && Has(b.(next := b.next + 1), t, m)
      ensures Has(GiveUp(b).0, t, Missing(t, m)) && Packets(GiveUp(b).1) == sent[m..Missing(t, m)]
    {
      DrainArrived(b.(next := b.next + 1), t, m);
    }

    lemma {:induction false} DeliveringArrived(t: nat, m: nat)
      requires Valid() && t < |order| && m < |sent| && order[t] == m && forall i :: 0 <= i < m ==> at[i] < t
      ensures var m' := Missing(t + 1, m + 1);
        (m' < |sent| ==> at[m'] >= t + 1) && forall i :: 0 <= i < m' ==> at[i] < t + 1
    {
      MissingIsFirst(t + 1, m + 1);
      assert at[m] == t;
    }

    lemma {:induction false} DeliveringStaysInSync(b: Buffer, t: nat, m: nat)
      requires Valid() && t < |order| && InSync(b, t, m) && order[t] == m
      ensures var m' := Missing(t + 1, m + 1);
        InSync(GiveUp(b).0, t + 1, m') && Packets(GiveUp(b).1) == sent[m + 1..m']
    {
      DeliveringDrains(b, t, m);
      DeliveringArrived(t, m);
      GiveUpShrinks(b);
    }

    /** After `t` arrivals the first `m` packets are out in order and the others are waiting. */
    ghost predicate OutSoFar(t: nat, m: nat)
      requires Valid() && t <= |order|
    {
      InSync(After(t).buf, t, m) && Packets(After(t).out) == sent[..m]
    }

    lemma {:induction false} StepOut(t: nat, m: nat) returns (m': nat)
      requires Valid() && Prompt() && t < |order| && Near(t) && OutSoFar(t, m)
      ensures OutSoFar(t + 1, m')
    {
      var l := After(t);
      var p := Push(l.buf, sent[order[t]], false);
      AfterStep(t);
      PacketsSplit(l.out, p.out);
      if order[t] > m {
        m' := m;
        StoringStaysInSync(l.buf, t, m);
      } else {
        m' := Missing(t + 1, m + 1);
        NothingBelow(l.buf, t, m);
        DeliveringStaysInSync(l.buf, t, m);
        PushDelivers(l.buf, sent[m], false);
        PrefixGrows(sent, m, m');
      }
    }

    /** What came out of the first `t` arrivals is the first packets of the run, in order. */
    ghost predicate OutInOrder(t: nat)
      requires Valid() && t <= |order|
    {
      exists m: nat :: OutSoFar(t, m)
    }

    lemma {:induction false} StaysInOrder(t: nat)
      requires Valid() && Prompt() && 0 < t <= |order| && Near(t - 1) && OutInOrder(t - 1)
      ensures OutInOrder(t)
    {
      NextInOrder(t - 1, t);
    }

    lemma {:induction false} NextInOrder(t: nat, next: nat)
      requires Valid() && Prompt() && t < |order| && next == t + 1 && Near(t) && OutInOrder(t)
      ensures OutInOrder(next)
    {
      var m: nat :| OutSoFar(t, m);
      OrderStep(t, m, next);
    }

    lemma {:induction false} OrderStep(t: nat, m: nat, next: nat)
      requires Valid() && Prompt() && t < |order| && next == t + 1 && Near(t) && OutSoFar(t, m)
      ensures OutInOrder(next)
    {
      var m' := StepOut(t, m);
    }

    /** As long as no arrival overtakes too much it stays so. */
    lemma {:induction false} StaysInSync(t: nat)
      requires Valid() && Prompt() && t <= |order| && forall s :: 0 <= s < t ==> Near(s)
      ensures OutInOrder(t)
    {
      if t == 0 {
        StartsInSync();
      } else {
        StaysInSync(t - 1);
        StaysInOrder(t);
      }
    }

    lemma {:induction false} StartsInSync()
      requires Valid()
      ensures OutInOrder(0)
    {
      assert Arrived(0, 0) == map[];
      assert sent[..0] == [];
      assert OutSoFar(0, 0);
    }

    /** If no packet arrives more than 63 positions late, the wait budget never runs out and no packet overtakes
        one numbered 32768 or more before it, the output is exactly the run, and nothing stays pending. */
    lemma {:induction false} InOrderRun()
      requires Valid() && Prompt() && NoFarOvertaking()
      ensures Packets(After(|order|).out) == sent && After(|order|).buf.pending == map[]
    {
      StaysInSync(|order|);
      var m: nat :| OutSoFar(|order|, m);
      assert sent[..|sent|] == sent;
    }

    lemma {:induction false} EventAt(t: nat, s: nat)
      requires Valid() && s < t <= |order|
      ensures Events(t)[s] == Event(sent[order[s]], false) && Events(t)[..s] == Events(s)
    {
      if s < t - 1 {
        EventAt(t - 1, s);
        assert Events(t)[..s] == Events(t - 1)[..s];
      } else {
        assert Events(t)[..s] == Events(s);
      }
    }

    lemma {:induction false} FirstFarOvertaking() returns (t: nat)
      requires Valid() && !NoFarOvertaking()
      ensures t < |order| && !Near(t) && forall s :: 0 <= s < t ==> Near(s)
    {
      t := 0;
      while Near(t)
        invariant t < |order| && forall s :: 0 <= s < t ==> Near(s)
        decreases |order| - t
      {
        if t + 1 == |order| {
          assert false;
        }
        t := t + 1;
      }
    }

    /** A packet that overtakes too much is taken for one that was sent before it. */
    lemma {:induction false} FarPacketMisnumbered(t: nat, m: nat)
      requires Valid() && t < |order| && !Near(t) && OutSoFar(t, m)
      ensures NumberAt(origin, Events(|order|), t) < origin + order[t]
    {
      EventAt(|order|, t);
      var n :| 0 <= n < |at| && at[n] >= t && order[t] - n >= 0x8000;
      assert m <= n;
    }

    /** The promise holds exactly when no packet overtakes one numbered 32768 or more before it: the condition
        on the network's order that 16-bit sequence numbers impose, and the only one. */
    lemma {:induction false} InvisibleExactlyWhenNear()
      requires Valid() && Prompt() && forall i, j :: 0 <= i < j < |sent| ==> sent[i] != sent[j]
      ensures Packets(After(|order|).out) == sent <==> NoFarOvertaking()
    {
      if NoFarOvertaking() {
        InOrderRun();
      } else if Packets(After(|order|).out) == sent {
        var t := FirstFarOvertaking();
        StaysInSync(t);
        var m: nat :| OutSoFar(t, m);
        FarPacketMisnumbered(t, m);
        FarPacketLost(t);
        assert false;
      }
    }

    lemma {:induction false} FarPacketLost(t: nat)
      requires Valid() && t < |order| && forall i, j :: 0 <= i < j < |sent| ==> sent[i] != sent[j]
      requires NumberAt(origin, Events(|order|), t) < origin + order[t]
      ensures Packets(After(|order|).out) != sent
    {
      var evs, i := Events(|order|), order[t];
      var l := Run(origin, evs);
      if Packets(l.out) == sent {
        PacketAt(l.out, i);
        var s := EmittedAsGiven(origin, evs, i);
        EventAt(|order|, s);
        assert order[s] == i;
        assert s == at[order[s]] == t;
        OrderedRun(origin, evs);
        EmissionsFloor(origin, l.trail, i);
      }
    }
  }

  // ---- A delivery that is prompt, and not invisible ----

  /** `n` packets of which the last overtakes all but the first. */
  function Hurried(origin: int, n: nat): Delivery
    requires n >= 2
  {
    Delivery(origin,
             seq(n, i requires 0 <= i < n => RtpPacket(Wrap(origin + i), 0, false, [])),
             seq(n, t requires 0 <= t < n => if t == 0 then 0 else if t == 1 then n - 1 else t - 1),
             seq(n, i requires 0 <= i < n => if i == 0 then 0 else if i == n - 1 then 1 else i + 1))
  }

  lemma {:induction false} HurriedIsPrompt(origin: int, n: nat)
    requires n >= 3
    ensures Hurried(origin, n).Valid() && Hurried(origin, n).Prompt()
  {
  }

  lemma {:induction false} HurriedIsDistinct(origin: int, n: nat, i: nat, j: nat)
    requires 3 <= n <= 0x1_0000 && i < j < n
    ensures Hurried(origin, n).sent[i] != Hurried(origin, n).sent[j]
  {
    WrapInjective(origin + i, origin + j);
  }

  lemma {:induction false} HurriedOvertakes(origin: int, n: nat)
    requires n >= 0x8002
    ensures !Hurried(origin, n).NoFarOvertaking()
  {
    var d := Hurried(origin, n);
    assert d.at[1] == 2 && d.order[1] == n - 1 && !d.Near(1);
  }

  /** From 32770 packets on, one that overtakes all but the first arrives in a prompt order, of distinct packets, that the
      buffer does not undo. */
  lemma {:induction false} PromptIsNotEnough(origin: int, n: nat)
    requires 0x8002 <= n <= 0x1_0000
    ensures var d := Hurried(origin, n);
      && d.Valid() && d.Prompt() && (forall i, j :: 0 <= i < j < n ==> d.sent[i] != d.sent[j])
      && !d.NoFarOvertaking() && Packets(d.After(n).out) != d.sent
  {
    var d := Hurried(origin, n);
    HurriedIsPrompt(origin, n);
    forall i, j | 0 <= i < j < n ensures d.sent[i] != d.sent[j] {
      HurriedIsDistinct(origin, n, i, j);
    }
    HurriedOvertakes(origin, n);
    d.InvisibleExactlyWhenNear();
  }
}
