/** A peer's signaling binding: generations, the grace timer and `close`, over every interleaving. A step is what
happens under `signalMu`, or one look at `done`, which is not under it. */
module Signaling {
  import opened Options
  import opened Counting

  /** Where a connection's handler stands; `gen` is the token `BindSignaling` returned, `at` when that was. */
  datatype ConnectionPc =
    | Arriving
    | Checked                          // found the peer open
    | Refused
    | Bound(gen: nat, at: nat)
    | Releasing(gen: nat, at: nat)     // found the peer open again
    | Gone

  /** `Passed(at)`: the check passed when the log had `at` entries. */
  datatype TimerPc = Armed | Cancelled | Fired | Stale | Passed(at: nat) | Done

  /** A grace timer: the generation its release held, and when that release was. */
  datatype Timer = Timer(gen: nat, at: nat, pc: TimerPc)

  datatype Deed = Binding(conn: nat) | Release(conn: nat) | Drop

  /** One peer. `closing` is set when `close` starts; `dropped` when it has dropped the binding. */
  datatype Peer = Peer(
    connections: seq<ConnectionPc>,
    timers: seq<Timer>,
    closing: bool,
    dropped: bool,
    signalGen: nat,
    signalConn: Option<nat>,
    signalTimer: Option<nat>,
    log: seq<Deed>
  ) {
    ghost predicate WellFormed() {
      signalTimer.Some? ==> signalTimer.value < |timers|
    }

    /** `Stop` on the current timer: too late if it has fired already. */
    function Stopped(): seq<Timer>
      requires WellFormed()
    {
      if signalTimer.Some? && timers[signalTimer.value].pc.Armed? then
        timers[signalTimer.value := timers[signalTimer.value].(pc := Cancelled)]
      else
        timers
    }

    function WithConnection(c: nat, pc: ConnectionPc): Peer
      requires c < |connections|
    {
      this.(connections := connections[c := pc])
    }

    function WithTimer(t: nat, pc: TimerPc): Peer
      requires t < |timers|
    {
      this.(timers := timers[t := timers[t].(pc := pc)])
    }
  }

  function BindLocked(p: Peer, c: nat): Peer
    requires p.WellFormed() && c < |p.connections|
  {
    p.(timers := p.Stopped(), signalTimer := None, signalGen := p.signalGen + 1, signalConn := Some(c), log := p.log + [Binding(c)])
     .WithConnection(c, Bound(p.signalGen + 1, |p.log|))
  }

  function ReleaseLocked(p: Peer, c: nat, gen: nat): Peer
    requires p.WellFormed() && c < |p.connections|
  {
    if p.signalGen != gen then
      p.WithConnection(c, Gone)
    else
      p.(timers := p.Stopped() + [Timer(gen, |p.log|, Armed)], signalTimer := Some(|p.timers|), signalConn := None, log := p.log + [Release(c)])
       .WithConnection(c, Gone)
  }

  function ConnectionStep(p: Peer, c: nat): Peer
    requires p.WellFormed() && c < |p.connections|
  {
    match p.connections[c]
    case Arriving => p.WithConnection(c, if p.closing then Refused else Checked)
    case Checked => BindLocked(p, c)
    case Bound(gen, at) => p.WithConnection(c, if p.closing then Gone else Releasing(gen, at))
    case Releasing(gen, at) => ReleaseLocked(p, c, gen)
    case _ => p
  }

  function TimerStep(p: Peer, t: nat): Peer
    requires p.WellFormed() && t < |p.timers|
  {
    match p.timers[t].pc
    case Armed => p.WithTimer(t, Fired)
    case Fired => p.WithTimer(t, if p.signalGen != p.timers[t].gen then Stale else Passed(|p.log|))
    case Passed(_) => p.WithTimer(t, Done).(closing := true)
    case _ => p
  }

  /** `close` drops the binding and its timer, once. */
  function CloseStep(p: Peer): Peer
    requires p.WellFormed()
  {
    if p.closing && !p.dropped then
      p.(timers := p.Stopped(), signalConn := None, signalTimer := None, dropped := true, log := p.log + [Drop])
    else
      p
  }

  datatype Turn = OfConnection(c: nat) | OfTimer(t: nat) | CloseStarts | CloseDrops

  function Next(p: Peer, turn: Turn): (p': Peer)
    requires p.WellFormed()
    ensures p'.WellFormed() && |p'.connections| == |p.connections| && |p'.timers| >= |p.timers|
  {
    match turn
    case OfConnection(c) => if c < |p.connections| then ConnectionStep(p, c) else p
    case OfTimer(t) => if t < |p.timers| then TimerStep(p, t) else p
    case CloseStarts => p.(closing := true)
    case CloseDrops => CloseStep(p)
  }

  ghost predicate Initial(p: Peer) {
    && (forall c :: 0 <= c < |p.connections| ==> p.connections[c] == Arriving)
    && p == Peer(p.connections, [], false, false, 0, None, None, [])
  }

  function Run(p: Peer, turns: seq<Turn>): (p': Peer)
    requires p.WellFormed()
    ensures p'.WellFormed() && |p'.connections| == |p.connections|
  {
    if turns == [] then p else Next(Run(p, turns[..|turns| - 1]), turns[|turns| - 1])
  }

  // ---- What generations count ----

  function Binds(log: seq<Deed>): nat {
    if log == [] then 0 else Binds(log[..|log| - 1]) + (if log[|log| - 1].Binding? then 1 else 0)
  }

  lemma {:induction false} BindsSplit(log: seq<Deed>, at: nat)
    requires at <= |log|
    ensures Binds(log[..at]) <= Binds(log)
    ensures Binds(log[..at]) == Binds(log) <==> forall i :: at <= i < |log| ==> !log[i].Binding?
  {
    if at == |log| {
      assert log[..at] == log;
    } else {
      var n := |log| - 1;
      assert log[..n][..at] == log[..at];
      BindsSplit(log[..n], at);
      if Binds(log[..at]) == Binds(log) {
        assert forall i :: at <= i < n ==> log[..n][i] == log[i];
      }
    }
  }

  lemma {:induction false} BindsGrow(log: seq<Deed>, deed: Deed)
    ensures Binds(log + [deed]) == Binds(log) + (if deed.Binding? then 1 else 0)
  {
    assert (log + [deed])[..|log|] == log;
  }

  /** A timer was armed by the release of its generation, `at` in the log. */
  ghost predicate TimerDated(p: Peer, t: nat)
    requires t < |p.timers|
  {
    var timer := p.timers[t];
    timer.at < |p.log| && p.log[timer.at].Release? && Binds(p.log[..timer.at]) == timer.gen
  }

  ghost predicate ConnectionDated(p: Peer, c: nat)
    requires c < |p.connections|
  {
    match p.connections[c]
    case Bound(gen, at) => at < |p.log| && p.log[at] == Binding(c) && Binds(p.log[..at + 1]) == gen
    case Releasing(gen, at) => at < |p.log| && p.log[at] == Binding(c) && Binds(p.log[..at + 1]) == gen
    case _ => true
  }

  ghost predicate Dated(p: Peer) {
    && p.WellFormed()
    && p.signalGen == Binds(p.log)
    && (forall t :: 0 <= t < |p.timers| ==> TimerDated(p, t))
    && (forall c :: 0 <= c < |p.connections| ==> ConnectionDated(p, c))
  }

  lemma {:induction false} TimerDatedLater(p: Peer, p': Peer, t: nat, deeds: seq<Deed>)
    requires t < |p.timers| && t < |p'.timers| && TimerDated(p, t)
    requires p'.log == p.log + deeds && p'.timers[t].at == p.timers[t].at && p'.timers[t].gen == p.timers[t].gen
    ensures TimerDated(p', t)
  {
    assert p'.log[..p.timers[t].at] == p.log[..p.timers[t].at];
  }

  lemma {:induction false} ConnectionDatedLater(p: Peer, p': Peer, c: nat, deeds: seq<Deed>)
    requires c < |p.connections| && c < |p'.connections| && ConnectionDated(p, c)
    requires p'.log == p.log + deeds && p'.connections[c] == p.connections[c]
    ensures ConnectionDated(p', c)
  {
    if p.connections[c].Bound? || p.connections[c].Releasing? {
      assert p'.log[..p.connections[c].at + 1] == p.log[..p.connections[c].at + 1];
    }
  }

  /** Everything dated stays dated while the log only grows. */
  lemma {:induction false} DatedLater(p: Peer, p': Peer, deeds: seq<Deed>)
    requires Dated(p) && p'.WellFormed() && p'.log == p.log + deeds && p'.signalGen == Binds(p'.log)
    requires |p'.timers| >= |p.timers| && |p'.connections| == |p.connections|
    requires forall t :: 0 <= t < |p.timers| ==> p'.timers[t].at == p.timers[t].at && p'.timers[t].gen == p.timers[t].gen
    requires forall t :: |p.timers| <= t < |p'.timers| ==> TimerDated(p', t)
    requires forall c :: 0 <= c < |p.connections| ==> p'.connections[c] == p.connections[c] || ConnectionDated(p', c)
    ensures Dated(p')
  {
    forall t | 0 <= t < |p'.timers| ensures TimerDated(p', t) {
      if t < |p.timers| {
        TimerDatedLater(p, p', t, deeds);
      }
    }
    forall c | 0 <= c < |p'.connections| ensures ConnectionDated(p', c) {
      if p'.connections[c] == p.connections[c] {
        ConnectionDatedLater(p, p', c, deeds);
      }
    }
  }

  lemma {:induction false} BindKeepsDated(p: Peer, c: nat)
    requires Dated(p) && c < |p.connections|
    ensures Dated(BindLocked(p, c))
  {
    var p' := BindLocked(p, c);
    BindsGrow(p.log, Binding(c));
    assert p'.log[..|p.log| + 1] == p'.log;
    assert ConnectionDated(p', c);
    DatedLater(p, p', [Binding(c)]);
  }

  lemma {:induction false} ReleaseKeepsDated(p: Peer, c: nat, gen: nat)
    requires Dated(p) && c < |p.connections|
    ensures Dated(ReleaseLocked(p, c, gen))
  {
    var p' := ReleaseLocked(p, c, gen);
    if p.signalGen == gen {
      BindsGrow(p.log, Release(c));
      assert p'.log[..|p.log|] == p.log;
      assert TimerDated(p', |p.timers|);
      DatedLater(p, p', [Release(c)]);
    } else {
      assert p'.log == p.log + [];
      DatedLater(p, p', []);
    }
  }

  lemma {:induction false} CloseKeepsDated(p: Peer)
    requires Dated(p)
    ensures Dated(CloseStep(p))
  {
    if p.closing && !p.dropped {
      BindsGrow(p.log, Drop);
      DatedLater(p, CloseStep(p), [Drop]);
    }
  }

  lemma {:induction false} ConnectionKeepsDated(p: Peer, c: nat)
    requires Dated(p) && c < |p.connections|
    ensures Dated(ConnectionStep(p, c))
  {
    match p.connections[c]
    case Checked => BindKeepsDated(p, c);
    case Releasing(gen, _) => ReleaseKeepsDated(p, c, gen);
    case _ =>
      var p' := ConnectionStep(p, c);
      assert p'.log == p.log + [] && ConnectionDated(p, c);
      DatedLater(p, p', []);
  }

  lemma {:induction false} TimerStepShape(p: Peer, t: nat)
    requires p.WellFormed() && t < |p.timers|
    ensures var p' := TimerStep(p, t);
      && p'.WellFormed() && p'.log == p.log && p'.signalGen == p.signalGen && p'.connections == p.connections && |p'.timers| == |p.timers|
      && forall u :: 0 <= u < |p.timers| ==> p'.timers[u].at == p.timers[u].at && p'.timers[u].gen == p.timers[u].gen
  {
  }

  /** Steps that write nothing to the log and date nothing anew. */
  lemma {:induction false} DatedSame(p: Peer, p': Peer)
    requires Dated(p) && p'.WellFormed() && p'.log == p.log && p'.signalGen == p.signalGen && p'.connections == p.connections
    requires |p'.timers| == |p.timers|
    requires forall u :: 0 <= u < |p.timers| ==> p'.timers[u].at == p.timers[u].at && p'.timers[u].gen == p.timers[u].gen
    ensures Dated(p')
  {
    assert p'.log == p.log + [];
    DatedLater(p, p', []);
  }

  lemma {:induction false} TimerKeepsDated(p: Peer, t: nat)
    requires Dated(p) && t < |p.timers|
    ensures Dated(TimerStep(p, t))
  {
    TimerStepShape(p, t);
    DatedSame(p, TimerStep(p, t));
  }

  lemma {:induction false} NextKeepsDated(p: Peer, turn: Turn)
    requires Dated(p)
    ensures Dated(Next(p, turn))
  {
    match turn
    case OfConnection(c) => if c < |p.connections| { ConnectionKeepsDated(p, c); }
    case OfTimer(t) => if t < |p.timers| { TimerKeepsDated(p, t); }
    case CloseStarts =>
      assert p.log == p.log + [];
      DatedLater(p, Next(p, turn), []);
    case CloseDrops => CloseKeepsDated(p);
  }

  lemma {:induction false} DatedRun(p: Peer, turns: seq<Turn>)
    requires Initial(p)
    ensures Dated(Run(p, turns))
  {
    if turns != [] {
      DatedRun(p, turns[..|turns| - 1]);
      NextKeepsDated(Run(p, turns[..|turns| - 1]), turns[|turns| - 1]);
    }
  }

  /** The grace timer passes its check exactly when no connection was bound since the release that armed it. */
  lemma {:induction false} TimerPassesExactly(p: Peer, turns: seq<Turn>, t: nat)
    requires Initial(p) && t < |Run(p, turns).timers| && Run(p, turns).timers[t].pc.Fired?
    ensures var q := Run(p, turns);
      TimerStep(q, t).timers[t].pc.Passed? <==> forall i :: q.timers[t].at <= i < |q.log| ==> !q.log[i].Binding?
  {
    DatedRun(p, turns);
    var q := Run(p, turns);
    assert TimerDated(q, t);
    BindsSplit(q.log, q.timers[t].at);
  }

  lemma {:induction false} ReleaseIsCurrent(q: Peer, c: nat)
    requires Dated(q) && c < |q.connections| && q.connections[c].Releasing?
    ensures var at := q.connections[c].at; at < |q.log| && q.log[at] == Binding(c)
    ensures q.signalGen == q.connections[c].gen <==> forall i :: q.connections[c].at < i < |q.log| ==> !q.log[i].Binding?
  {
    assert ConnectionDated(q, c);
    BindsSplit(q.log, q.connections[c].at + 1);
  }

  /** A release detaches the peer and arms a timer exactly when no connection was bound after the one that releases;
      otherwise it leaves the peer as it is. */
  lemma {:induction false} ReleaseCountsExactly(p: Peer, turns: seq<Turn>, c: nat)
    requires Initial(p) && c < |p.connections| && Run(p, turns).connections[c].Releasing?
    ensures var q := Run(p, turns); var q' := ConnectionStep(q, c);
      if forall i :: q.connections[c].at < i < |q.log| ==> !q.log[i].Binding? then
        q'.signalConn == None && |q'.timers| == |q.timers| + 1 && q'.timers[|q.timers|] == Timer(q.signalGen, |q.log|, Armed)
      else
        q' == q.WithConnection(c, Gone)
  {
    DatedRun(p, turns);
    ReleaseIsCurrent(Run(p, turns), c);
  }

  // ---- Nobody is forgotten ----

  ghost predicate Pending(p: Peer, t: nat)
    requires t < |p.timers|
  {
    p.timers[t].gen == p.signalGen && (p.timers[t].pc.Armed? || p.timers[t].pc.Fired? || p.timers[t].pc.Passed?)
  }

  /** Only the current timer can still be armed; an attached connection has a handler that will let go of it, and a
      detached one left a timer behind that will close the peer. */
  ghost predicate Watched(p: Peer) {
    && p.WellFormed()
    && (forall t :: 0 <= t < |p.timers| && p.timers[t].pc.Armed? ==> p.signalTimer == Some(t))
    && (!p.closing && p.signalConn.Some? ==>
          && p.signalConn.value < |p.connections|
          && var pc := p.connections[p.signalConn.value]; (pc.Bound? || pc.Releasing?) && pc.gen == p.signalGen)
    && (!p.closing && p.signalConn.None? && p.signalGen > 0 ==> exists t :: 0 <= t < |p.timers| && Pending(p, t))
    && (p.dropped ==> p.closing)
  }

  lemma {:induction false} BindKeepsWatched(p: Peer, c: nat)
    requires Watched(p) && c < |p.connections|
    ensures Watched(BindLocked(p, c))
  {
  }

  lemma {:induction false} ReleaseKeepsWatched(p: Peer, c: nat)
    requires Watched(p) && c < |p.connections| && p.connections[c].Releasing?
    ensures Watched(ConnectionStep(p, c))
  {
    var p' := ConnectionStep(p, c);
    if p.signalGen == p.connections[c].gen {
      assert Pending(p', |p.timers|);
    } else {
      assert p'.timers == p.timers;
      KeepsPending(p, p');
    }
  }

  lemma {:induction false} KeepsPending(p: Peer, p': Peer)
    requires |p'.timers| == |p.timers| && p'.signalGen == p.signalGen
    requires forall t :: 0 <= t < |p.timers| && Pending(p, t) ==> Pending(p', t)
    ensures (exists t :: 0 <= t < |p.timers| && Pending(p, t)) ==> exists t :: 0 <= t < |p'.timers| && Pending(p', t)
  {
  }

  lemma {:induction false} TimerKeepsWatched(p: Peer, t: nat)
    requires Watched(p) && t < |p.timers|
    ensures Watched(TimerStep(p, t))
  {
    var p' := TimerStep(p, t);
    if !p'.closing {
      forall u | 0 <= u < |p.timers| && Pending(p, u) ensures Pending(p', u) {
        assert u != t ==> p'.timers[u] == p.timers[u];
      }
      KeepsPending(p, p');
    }
  }

  lemma {:induction false} NextKeepsWatched(p: Peer, turn: Turn)
    requires Watched(p)
    ensures Watched(Next(p, turn))
  {
    match turn
    case OfConnection(c) =>
      if c < |p.connections| {
        if p.connections[c].Checked? {
          BindKeepsWatched(p, c);
        } else if p.connections[c].Releasing? {
          ReleaseKeepsWatched(p, c);
        } else {
          assert Next(p, turn).timers == p.timers;
          KeepsPending(p, Next(p, turn));
        }
      }
    case OfTimer(t) =>
      if t < |p.timers| {
        TimerKeepsWatched(p, t);
      }
    case CloseStarts =>
    case CloseDrops =>
  }

  /** In every reachable state at most one timer is armed, the current one; and an open peer that was ever bound has
      either a connection attached that has not let go, or a current grace timer on its way to close it. */
  lemma {:induction false} NeverForgotten(p: Peer, turns: seq<Turn>)
    requires Initial(p)
    ensures Watched(Run(p, turns))
  {
    if turns != [] {
      NeverForgotten(p, turns[..|turns| - 1]);
      NextKeepsWatched(Run(p, turns[..|turns| - 1]), turns[|turns| - 1]);
    }
  }

  // ---- Who gets in ----

  /** A connection that has not passed a check that the peer is open. */
  ghost predicate Outside(p: Peer, c: nat)
    requires c < |p.connections|
  {
    p.connections[c] == Arriving || p.connections[c] == Refused
  }

  /** Such a connection, or one that is attached and has not begun to let go. */
  ghost predicate Barred(p: Peer, c: nat)
    requires c < |p.connections|
  {
    p.closing && (Outside(p, c) || p.connections[c].Bound? || p.connections[c] == Gone)
  }

  ghost predicate SaysNothing(log: seq<Deed>, log': seq<Deed>, c: nat) {
    log <= log' && forall i :: |log| <= i < |log'| ==> log'[i] != Binding(c) && log'[i] != Release(c)
  }

  lemma {:induction false} BarredStep(p: Peer, turn: Turn, c: nat)
    requires p.WellFormed() && c < |p.connections| && Barred(p, c)
    ensures Barred(Next(p, turn), c) && SaysNothing(p.log, Next(p, turn).log, c)
    ensures Outside(p, c) ==> Outside(Next(p, turn), c)
    ensures turn == OfConnection(c) ==> Next(p, turn).connections[c] != Arriving && !Next(p, turn).connections[c].Bound?
  {
  }

  /** Once a peer is closing, whatever interleaves: a connection that arrives is refused, and never attached; and one that
      is attached then goes without a release, so it arms no timer. */
  lemma {:induction false} ClosingPeerBars(p: Peer, turns: seq<Turn>, c: nat)
    requires p.WellFormed() && c < |p.connections| && Barred(p, c)
    ensures Barred(Run(p, turns), c) && SaysNothing(p.log, Run(p, turns).log, c)
    ensures Outside(p, c) ==> Outside(Run(p, turns), c)
    ensures OfConnection(c) in turns ==> Run(p, turns).connections[c] == Refused || Run(p, turns).connections[c] == Gone
  {
    if turns != [] {
      var before, turn := turns[..|turns| - 1], turns[|turns| - 1];
      ClosingPeerBars(p, before, c);
      BarredStep(Run(p, before), turn, c);
      assert turns == before + [turn];
      if turn != OfConnection(c) {
        StaysPut(Run(p, before), turn, c);
      }
    }
  }

  lemma {:induction false} StaysPut(p: Peer, turn: Turn, c: nat)
    requires p.WellFormed() && c < |p.connections| && turn != OfConnection(c)
    ensures Next(p, turn).connections[c] == p.connections[c]
  {
  }

  /** While it is open, a connection that arrives is attached in two steps, and no timer is left armed. */
  lemma {:induction false} OpenPeerAdmits(p: Peer, c: nat)
    requires Watched(p) && c < |p.connections| && p.connections[c].Arriving? && !p.closing
    ensures var q := Next(Next(p, OfConnection(c)), OfConnection(c));
      && q.signalConn == Some(c) && q.log == p.log + [Binding(c)]
      && forall t :: 0 <= t < |q.timers| ==> !q.timers[t].pc.Armed?
  {
  }

  /** `close` drops the binding once, and leaves nothing attached and no timer armed. */
  lemma {:induction false} DropsOnce(p: Peer, turns: seq<Turn>)
    requires Initial(p)
    ensures var q := Run(p, turns); var q' := CloseStep(q);
      && Times(Drop, q.log) == (if q.dropped then 1 else 0)
      && (q.closing ==> q'.dropped)
      && (q.closing && !q.dropped ==> q'.signalConn == None && forall t :: 0 <= t < |q'.timers| ==> !q'.timers[t].pc.Armed?)
  {
    NeverForgotten(p, turns);
    if turns != [] {
      DropsOnce(p, turns[..|turns| - 1]);
      DropStep(Run(p, turns[..|turns| - 1]), turns[|turns| - 1]);
    }
  }

  lemma {:induction false} DropStep(p: Peer, turn: Turn)
    requires p.WellFormed() && Times(Drop, p.log) == (if p.dropped then 1 else 0)
    ensures var q := Next(p, turn); Times(Drop, q.log) == (if q.dropped then 1 else 0)
  {
    var q := Next(p, turn);
    assert |q.log| > |p.log| ==> q.log[..|q.log| - 1] == p.log;
  }

  // ---- What the checks outside the lock leave open ----

  predicate EndsBound(log: seq<Deed>) {
    log != [] && log[|log| - 1].Binding?
  }

  /** A connection is attached exactly while the last thing that happened is a binding; none was when a check passed. */
  ghost predicate Attached(p: Peer) {
    && (p.signalConn.Some? <==> EndsBound(p.log))
    && forall t :: 0 <= t < |p.timers| && p.timers[t].pc.Passed? ==>
         p.timers[t].pc.at <= |p.log| && !EndsBound(p.log[..p.timers[t].pc.at])
  }

  lemma {:induction false} AttachedLater(p: Peer, p': Peer)
    requires Attached(p) && |p'.log| >= |p.log| && p'.log[..|p.log|] == p.log && (p'.signalConn.Some? <==> EndsBound(p'.log))
    requires forall t :: 0 <= t < |p'.timers| && p'.timers[t].pc.Passed? ==> t < |p.timers| && p'.timers[t].pc == p.timers[t].pc
    ensures Attached(p')
  {
    forall t | 0 <= t < |p'.timers| && p'.timers[t].pc.Passed?
      ensures p'.timers[t].pc.at <= |p'.log| && !EndsBound(p'.log[..p'.timers[t].pc.at])
    {
      var at := p.timers[t].pc.at;
      assert p'.log[..at] == p'.log[..|p.log|][..at];
    }
  }

  /** The check passes only while nothing is attached. */
  lemma {:induction false} CheckFindsNothing(p: Peer, t: nat)
    requires Dated(p) && t < |p.timers| && p.timers[t].pc.Fired? && p.signalGen == p.timers[t].gen
    ensures !EndsBound(p.log)
  {
    assert TimerDated(p, t);
    BindsSplit(p.log, p.timers[t].at);
  }

  lemma {:induction false} TimerKeepsAttached(p: Peer, t: nat)
    requires Dated(p) && Attached(p) && t < |p.timers|
    ensures Attached(TimerStep(p, t))
  {
    var p' := TimerStep(p, t);
    if p.timers[t].pc.Fired? && p.signalGen == p.timers[t].gen {
      CheckFindsNothing(p, t);
      assert p.log[..|p.log|] == p.log;
      assert forall u :: 0 <= u < |p.timers| && u != t ==> p'.timers[u] == p.timers[u];
    } else {
      AttachedLater(p, p');
    }
  }

  lemma {:induction false} CloseKeepsAttached(p: Peer)
    requires p.WellFormed() && Attached(p)
    ensures Attached(CloseStep(p))
  {
    AttachedLater(p, CloseStep(p));
  }

  lemma {:induction false} BindKeepsAttached(p: Peer, c: nat)
    requires p.WellFormed() && Attached(p) && c < |p.connections|
    ensures Attached(BindLocked(p, c))
  {
    AttachedLater(p, BindLocked(p, c));
  }

  lemma {:induction false} ReleaseKeepsAttached(p: Peer, c: nat, gen: nat)
    requires p.WellFormed() && Attached(p) && c < |p.connections|
    ensures Attached(ReleaseLocked(p, c, gen))
  {
    var p' := ReleaseLocked(p, c, gen);
    if p.signalGen == gen {
      assert p'.log == p.log + [Release(c)] && p'.signalConn == None;
      assert forall t :: 0 <= t < |p'.timers| && p'.timers[t].pc.Passed? ==> t < |p.timers| && p'.timers[t].pc == p.timers[t].pc;
      AttachedLater(p, p');
    }
  }

  lemma {:induction false} ConnectionKeepsAttached(p: Peer, c: nat)
    requires p.WellFormed() && Attached(p) && c < |p.connections|
    ensures Attached(ConnectionStep(p, c))
  {
    match p.connections[c]
    case Checked => BindKeepsAttached(p, c);
    case Releasing(gen, _) => ReleaseKeepsAttached(p, c, gen);
    case _ => assert ConnectionStep(p, c).log == p.log && ConnectionStep(p, c).timers == p.timers;
  }

  lemma {:induction false} NextKeepsAttached(p: Peer, turn: Turn)
    requires Dated(p) && Attached(p)
    ensures Attached(Next(p, turn))
  {
    match turn
    case OfConnection(c) => if c < |p.connections| { ConnectionKeepsAttached(p, c); }
    case OfTimer(t) => if t < |p.timers| { TimerKeepsAttached(p, t); }
    case CloseStarts =>
    case CloseDrops => CloseKeepsAttached(p);
  }

  lemma {:induction false} AttachedRun(p: Peer, turns: seq<Turn>)
    requires Initial(p)
    ensures Attached(Run(p, turns))
  {
    if turns != [] {
      DatedRun(p, turns[..|turns| - 1]);
      AttachedRun(p, turns[..|turns| - 1]);
      NextKeepsAttached(Run(p, turns[..|turns| - 1]), turns[|turns| - 1]);
    }
  }

  /** The timer's close lands on a peer with a connection attached exactly when one was bound after the check and has
      neither let go nor been dropped since. */
  lemma {:induction false} CloseLandsOnBoundExactly(p: Peer, turns: seq<Turn>, t: nat)
    requires Initial(p) && t < |Run(p, turns).timers| && Run(p, turns).timers[t].pc.Passed?
    ensures var q := Run(p, turns); var q' := TimerStep(q, t);
      q'.closing && (q'.signalConn.Some? <==> q.timers[t].pc.at < |q.log| && q.log[|q.log| - 1].Binding?)
  {
    AttachedRun(p, turns);
    var q := Run(p, turns);
    if q.timers[t].pc.at == |q.log| {
      assert q.log[..q.timers[t].pc.at] == q.log;
    }
  }

  lemma {:induction false} OneMore(p: Peer, turns: seq<Turn>, turn: Turn)
    requires p.WellFormed()
    ensures Run(p, turns + [turn]) == Next(Run(p, turns), turn)
  {
    assert (turns + [turn])[..|turns|] == turns;
  }

  lemma {:induction false} TwoMore(p: Peer, turns: seq<Turn>, first: Turn, second: Turn)
    requires p.WellFormed()
    ensures Run(p, turns + [first] + [second]) == Next(Next(Run(p, turns), first), second)
  {
    OneMore(p, turns, first);
    OneMore(p, turns + [first], second);
  }

  const TWO_CONNECTIONS := Peer([Arriving, Arriving], [], false, false, 0, None, None, [])

  const LEFT_ALONE := Peer([Gone, Arriving], [Timer(1, 1, Armed)], false, false, 1, None, Some(0), [Binding(0), Release(0)])

  lemma {:induction false} FirstConnectionLeaves() returns (turns: seq<Turn>)
    ensures Run(TWO_CONNECTIONS, turns) == LEFT_ALONE
  {
    var connects := [] + [OfConnection(0)] + [OfConnection(0)];
    TwoMore(TWO_CONNECTIONS, [], OfConnection(0), OfConnection(0));
    assert Run(TWO_CONNECTIONS, connects) == Peer([Bound(1, 0), Arriving], [], false, false, 1, Some(0), None, [Binding(0)]);
    turns := connects + [OfConnection(0)] + [OfConnection(0)];
    TwoMore(TWO_CONNECTIONS, connects, OfConnection(0), OfConnection(0));
  }

  /** A connection that binds between the timer's check and its close is attached to a peer that closes under it. */
  lemma {:induction false} BoundPeerCanBeClosed() returns (turns: seq<Turn>)
    ensures Initial(TWO_CONNECTIONS)
    ensures Run(TWO_CONNECTIONS, turns).closing && Run(TWO_CONNECTIONS, turns).signalConn == Some(1)
  {
    var leaves := FirstConnectionLeaves();
    var passes := leaves + [OfTimer(0)] + [OfTimer(0)];
    TwoMore(TWO_CONNECTIONS, leaves, OfTimer(0), OfTimer(0));
    var q := LEFT_ALONE.WithTimer(0, Passed(2));
    assert Run(TWO_CONNECTIONS, passes) == q;
    var adopts := passes + [OfConnection(1)] + [OfConnection(1)];
    TwoMore(TWO_CONNECTIONS, passes, OfConnection(1), OfConnection(1));
    assert Run(TWO_CONNECTIONS, adopts) == BindLocked(q, 1);
    turns := adopts + [OfTimer(0)];
    OneMore(TWO_CONNECTIONS, adopts, OfTimer(0));
  }
}
