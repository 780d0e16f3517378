/** Recorder slots and port groups over every interleaving of track arrivals, start failures, commit or rollback, and
close, for any number of peers. A step is what the program does without releasing a lock, or one call into the
semaphore or the port pool. */
module IngestLifecycle {
  import opened Counting
  import opened Options
  import opened PortAllocator

  /** Where one call of `noteFFmpegIngestTrack` stands; `group` is the port group its session was given. */
  datatype CallPc =
    | Arriving(video: bool)
    | Claimed
    | Opening
    | Dialing(group: int)
    | Ported(group: int)
    | Slotted(group: int)
    | Running(group: int)
    | GivingUp(group: int)      // no slot, or no supervisor: the session is about to be closed
    | Aborting
    | RollingBack(group: int)   // the peer closed before the commit
    | RolledBack                // its session is closed, its slot still held
    | Returned

  /** Where `close` stands; `Stopping` and `Stopped` hold what it read under the mutex. */
  datatype ClosePc =
    | Open
    | Marked
    | Stopping(session: Option<int>, slotHeld: bool)
    | Stopped(session: Option<int>)
    | Closed

  datatype Peer = Peer(video: bool, audio: bool, starting: bool, session: Option<int>, slotHeld: bool, closing: ClosePc) {
    predicate Done() {
      !closing.Open?
    }
  }

  datatype Call = Call(peer: nat, pc: CallPc)

  datatype Deed = TookSlot | ReturnedSlot | TookPorts(group: int) | ReturnedPorts(group: int)

  datatype System = System(peers: seq<Peer>, calls: seq<Call>, slots: nat, capacity: nat, free: seq<int>, log: seq<Deed>) {
    ghost predicate WellFormed() {
      forall i :: 0 <= i < |calls| ==> calls[i].peer < |peers|
    }

    function WithCall(i: nat, pc: CallPc): System
      requires i < |calls|
    {
      this.(calls := calls[i := calls[i].(pc := pc)])
    }

    function WithPeer(j: nat, peer: Peer): System
      requires j < |peers|
    {
      this.(peers := peers[j := peer])
    }

    function TakeSlot(): System {
      this.(slots := slots + 1, log := log + [TookSlot])
    }

    /** Receiving from the semaphore channel, which would block while it is empty. */
    function ReturnSlot(): System
      requires slots > 0
    {
      this.(slots := slots - 1, log := log + [ReturnedSlot])
    }

    function ReturnPorts(group: int): System {
      this.(free := free + [group], log := log + [ReturnedPorts(group)])
    }
  }

  /** One call's next step; `ok` is the outcome of the foreign call the step makes, if it makes one. */
  function CallStep(s: System, i: nat, ok: bool): (s': System)
    requires s.WellFormed() && i < |s.calls|
    ensures s'.WellFormed() && |s'.calls| == |s.calls| && |s'.peers| == |s.peers|
  {
    var j := s.calls[i].peer;
    var peer := s.peers[j];
    match s.calls[i].pc
    case Arriving(video) =>
      var seen := if video then peer.(video := true) else peer.(audio := true);
      if seen.video && seen.audio && peer.session.None? && !peer.starting then
        s.WithPeer(j, seen.(starting := true)).WithCall(i, Claimed)
      else
        s.WithPeer(j, seen).WithCall(i, Returned)
    case Claimed =>
      s.WithCall(i, if peer.Done() then Aborting else Opening)
    case Opening =>
      if !ok || s.free == [] then
        s.WithCall(i, Aborting)
      else
        var g := s.free[|s.free| - 1];
        s.(free := s.free[..|s.free| - 1], log := s.log + [TookPorts(g)]).WithCall(i, Dialing(g))
    case Dialing(g) =>
      if ok then s.WithCall(i, Ported(g)) else s.ReturnPorts(g).WithCall(i, Aborting)
    case Ported(g) =>
      if s.slots < s.capacity then s.TakeSlot().WithCall(i, Slotted(g)) else s.WithCall(i, GivingUp(g))
    case Slotted(g) =>
      if ok then s.WithCall(i, Running(g))
      else if s.slots > 0 then s.ReturnSlot().WithCall(i, GivingUp(g))
      else s
    case Running(g) =>
      if peer.Done() then s.WithPeer(j, peer.(starting := false)).WithCall(i, RollingBack(g))
      else s.WithPeer(j, peer.(session := Some(g), slotHeld := true)).WithCall(i, Returned)
    case GivingUp(g) =>
      s.ReturnPorts(g).WithCall(i, Aborting)
    case Aborting =>
      s.WithPeer(j, peer.(starting := false)).WithCall(i, Returned)
    case RollingBack(g) =>
      s.ReturnPorts(g).WithCall(i, RolledBack)
    case RolledBack =>
      if s.slots > 0 then s.ReturnSlot().WithCall(i, Returned) else s
    case Returned => s
  }

  /** The next step of peer `j`'s `close`. */
  function CloseStep(s: System, j: nat): (s': System)
    requires s.WellFormed() && j < |s.peers|
    ensures s'.WellFormed() && |s'.calls| == |s.calls| && |s'.peers| == |s.peers|
  {
    var peer := s.peers[j];
    match peer.closing
    case Open => s.WithPeer(j, peer.(closing := Marked))
    case Marked => s.WithPeer(j, peer.(closing := Stopping(peer.session, peer.slotHeld)))
    case Stopping(session, slotHeld) =>
      var s' := s.WithPeer(j, peer.(closing := Stopped(session)));
      if !slotHeld then s'
      else if s.slots > 0 then s'.ReturnSlot()
      else s
    case Stopped(session) =>
      var s' := s.WithPeer(j, peer.(closing := Closed));
      if session.Some? then s'.ReturnPorts(session.value) else s'
    case Closed => s
  }

  datatype Turn = OfCall(call: nat, ok: bool) | OfClose(peer: nat)

  function Next(s: System, turn: Turn): (s': System)
    requires s.WellFormed()
    ensures s'.WellFormed() && |s'.calls| == |s.calls| && |s'.peers| == |s.peers|
  {
    match turn
    case OfCall(i, ok) => if i < |s.calls| then CallStep(s, i, ok) else s
    case OfClose(j) => if j < |s.peers| then CloseStep(s, j) else s
  }

  // ---- Who holds what ----

  datatype Holding = Holding(slot: bool, ports: Option<int>)

  function CallHolding(call: Call): Holding {
    match call.pc
    case Dialing(g) => Holding(false, Some(g))
    case Ported(g) => Holding(false, Some(g))
    case GivingUp(g) => Holding(false, Some(g))
    case Slotted(g) => Holding(true, Some(g))
    case Running(g) => Holding(true, Some(g))
    case RollingBack(g) => Holding(true, Some(g))
    case RolledBack => Holding(true, None)
    case _ => Holding(false, None)
  }

  function PeerHolding(peer: Peer): Holding {
    match peer.closing
    case Stopped(_) => Holding(false, peer.session)
    case Closed => Holding(false, None)
    case _ => Holding(peer.slotHeld, peer.session)
  }

  function Holdings(s: System): seq<Holding> {
    seq(|s.peers| + |s.calls|, k requires 0 <= k < |s.peers| + |s.calls| =>
      if k < |s.peers| then PeerHolding(s.peers[k]) else CallHolding(s.calls[k - |s.peers|]))
  }

  lemma {:induction false} HoldingAt(s: System, k: nat)
    requires k < |Holdings(s)|
    ensures k < |s.peers| ==> Holdings(s)[k] == PeerHolding(s.peers[k])
    ensures k >= |s.peers| ==> Holdings(s)[k] == CallHolding(s.calls[k - |s.peers|])
  {
  }

  function SlotsHeld(hs: seq<Holding>): nat {
    if hs == [] then 0 else SlotsHeld(hs[..|hs| - 1]) + (if hs[|hs| - 1].slot then 1 else 0)
  }

  function PortsHeld(hs: seq<Holding>, g: int): nat {
    if hs == [] then 0 else PortsHeld(hs[..|hs| - 1], g) + (if hs[|hs| - 1].ports == Some(g) then 1 else 0)
  }

  lemma {:induction false} HeldChanges(hs: seq<Holding>, k: nat, h: Holding, g: int)
    requires k < |hs|
    ensures SlotsHeld(hs[k := h]) == SlotsHeld(hs) - (if hs[k].slot then 1 else 0) + (if h.slot then 1 else 0)
    ensures PortsHeld(hs[k := h], g)
      == PortsHeld(hs, g) - (if hs[k].ports == Some(g) then 1 else 0) + (if h.ports == Some(g) then 1 else 0)
  {
    var n := |hs| - 1;
    if k == n {
      assert hs[k := h][..n] == hs[..n];
    } else {
      assert hs[k := h][..n] == hs[..n][k := h];
      HeldChanges(hs[..n], k, h, g);
    }
  }

  // ---- One start at a time ----

  predicate Starting(pc: CallPc) {
    !pc.Arriving? && !pc.RollingBack? && !pc.RolledBack? && !pc.Returned?
  }

  /** A committed session came with a slot, shuts out further starts, and is what `close` finds. */
  ghost predicate PeerSane(peer: Peer) {
    && peer.slotHeld == peer.session.Some?
    && (peer.session.Some? ==> peer.starting)
    && (peer.closing.Stopping? ==> peer.closing == Stopping(peer.session, peer.slotHeld))
    && (peer.closing.Stopped? ==> peer.closing == Stopped(peer.session))
  }

  /** Every start under way owns its peer's `sessionStarting` claim, and nothing is committed yet. */
  ghost predicate StartsClaimed(s: System)
    requires s.WellFormed()
  {
    forall i :: 0 <= i < |s.calls| && Starting(s.calls[i].pc) ==>
      s.peers[s.calls[i].peer].starting && s.peers[s.calls[i].peer].session.None?
  }

  ghost predicate OneStart(s: System) {
    forall i, k :: 0 <= i < k < |s.calls| && Starting(s.calls[i].pc) && Starting(s.calls[k].pc) ==> s.calls[i].peer != s.calls[k].peer
  }

  ghost predicate Exclusive(s: System) {
    && s.WellFormed() && StartsClaimed(s) && OneStart(s)
    && forall j :: 0 <= j < |s.peers| ==> PeerSane(s.peers[j])
  }

  /** Another call of the same peer is not starting. */
  lemma {:induction false} NoOtherStart(s: System, i: nat, k: nat)
    requires Exclusive(s) && i < |s.calls| && k < |s.calls| && i != k
    requires s.calls[i].peer == s.calls[k].peer
    requires Starting(s.calls[i].pc) || s.peers[s.calls[i].peer].session.Some? || !s.peers[s.calls[i].peer].starting
    ensures !Starting(s.calls[k].pc)
  {
  }

  lemma {:induction false} CallStepShape(s: System, i: nat, ok: bool)
    requires Exclusive(s) && i < |s.calls|
    ensures var s' := CallStep(s, i, ok); var j := s.calls[i].peer;
      && |s'.peers| == |s.peers| && |s'.calls| == |s.calls|
      && s'.peers == s.peers[j := s'.peers[j]]
      && s'.calls == s.calls[i := s'.calls[i]] && s'.calls[i].peer == j
      && PeerSane(s'.peers[j]) && s'.peers[j].closing == s.peers[j].closing
  {
  }

  /** What a step may do to the claim. */
  lemma {:induction false} CallStepClaim(s: System, i: nat, ok: bool)
    requires Exclusive(s) && i < |s.calls|
    ensures var s' := CallStep(s, i, ok); var j := s.calls[i].peer;
      && |s'.peers| == |s.peers| && |s'.calls| == |s.calls|
      && (Starting(s'.calls[i].pc) ==> s'.peers[j].starting && s'.peers[j].session.None?)
      && (Starting(s'.calls[i].pc) && !Starting(s.calls[i].pc) ==> !s.peers[j].starting)
      && (!Starting(s.calls[i].pc) && s.peers[j].starting ==> s'.peers[j].starting)
      && (!Starting(s.calls[i].pc) ==> s'.peers[j].session == s.peers[j].session)
  {
  }

  lemma {:induction false} CallStepKeepsClaims(s: System, i: nat, ok: bool, k: nat)
    requires Exclusive(s) && i < |s.calls| && k < |s.calls|
    ensures var s' := CallStep(s, i, ok); var j := s.calls[i].peer;
      && |s'.peers| == |s.peers| && |s'.calls| == |s.calls| && s'.calls[k].peer == s.calls[k].peer
      && (Starting(s'.calls[k].pc) ==> s'.peers[s.calls[k].peer].starting && s'.peers[s.calls[k].peer].session.None?)
      && (k != i && s.calls[k].peer == j && Starting(s'.calls[k].pc) ==> !Starting(s'.calls[i].pc))
  {
    CallStepShape(s, i, ok);
    CallStepClaim(s, i, ok);
    if k != i && s.calls[k].peer == s.calls[i].peer && Starting(s.calls[k].pc) {
      NoOtherStart(s, k, i);
    }
  }

  lemma {:induction false} CallStepExclusive(s: System, i: nat, ok: bool)
    requires Exclusive(s) && i < |s.calls|
    ensures Exclusive(CallStep(s, i, ok))
  {
    var s' := CallStep(s, i, ok);
    CallStepShape(s, i, ok);
    forall k | 0 <= k < |s.calls|
      ensures s'.calls[k].peer == s.calls[k].peer
      ensures Starting(s'.calls[k].pc) ==> s'.peers[s.calls[k].peer].starting && s'.peers[s.calls[k].peer].session.None?
      ensures k != i && s.calls[k].peer == s.calls[i].peer && Starting(s'.calls[k].pc) ==> !Starting(s'.calls[i].pc)
    {
      CallStepKeepsClaims(s, i, ok, k);
    }
    assert s'.WellFormed();
  }

  lemma {:induction false} CloseStepExclusive(s: System, j: nat)
    requires Exclusive(s) && j < |s.peers|
    ensures Exclusive(CloseStep(s, j))
  {
    var s' := CloseStep(s, j);
    assert s'.calls == s.calls && s'.peers == s.peers[j := s'.peers[j]];
    assert s'.peers[j].starting == s.peers[j].starting && s'.peers[j].session == s.peers[j].session;
  }

  // ---- Conservation ----

  function SlotBalance(log: seq<Deed>): int {
    if log == [] then 0 else
      SlotBalance(log[..|log| - 1]) + (match log[|log| - 1] case TookSlot => 1 case ReturnedSlot => -1 case _ => 0)
  }

  /** How often group `g` was taken, less how often it was returned. */
  function PortBalance(log: seq<Deed>, g: int): int {
    if log == [] then 0 else
      PortBalance(log[..|log| - 1], g)
      + (if log[|log| - 1] == TookPorts(g) then 1 else if log[|log| - 1] == ReturnedPorts(g) then -1 else 0)
  }

  lemma {:induction false} LogGrows(log: seq<Deed>, deed: Deed, g: int)
    ensures SlotBalance(log + [deed]) == SlotBalance(log) + (match deed case TookSlot => 1 case ReturnedSlot => -1 case _ => 0)
    ensures PortBalance(log + [deed], g)
      == PortBalance(log, g) + (if deed == TookPorts(g) then 1 else if deed == ReturnedPorts(g) then -1 else 0)
  {
    assert (log + [deed])[..|log|] == log;
  }

  lemma {:induction false} FreeGrows(free: seq<int>, group: int, g: int)
    ensures Times(g, free + [group]) == Times(g, free) + (if group == g then 1 else 0)
  {
    TimesSplit(g, free, [group]);
    TimesOne(g, group);
  }

  /** The slots taken are the slots held, and group `g` is in the pool or held, as often as in `all`. */
  ghost predicate Balanced(s: System, all: seq<int>, g: int) {
    && s.slots == SlotsHeld(Holdings(s)) == SlotBalance(s.log)
    && s.slots <= s.capacity
    && PortsHeld(Holdings(s), g) == PortBalance(s.log, g)
    && Times(g, s.free) + PortsHeld(Holdings(s), g) == Times(g, all)
  }

  /** The holding of call `i`, and nothing else, changed. */
  ghost predicate CallMoved(s: System, s': System, i: nat)
    requires i < |s.calls|
  {
    && |s'.calls| == |s.calls|
    && Holdings(s') == Holdings(s)[|s.peers| + i := CallHolding(s'.calls[i])]
  }

  lemma {:induction false} CallStepMoves(s: System, i: nat, ok: bool)
    requires Exclusive(s) && i < |s.calls|
    requires s.calls[i].pc.Running? ==> s.peers[s.calls[i].peer].Done()
    ensures CallMoved(s, CallStep(s, i, ok), i)
  {
    CallStepShape(s, i, ok);
    var s' := CallStep(s, i, ok);
    var j := s.calls[i].peer;
    assert PeerHolding(s'.peers[j]) == PeerHolding(s.peers[j]);
  }

  /** The books: slots taken, the log's balances, and how often `g` is in the pool. */
  datatype Books = Books(slots: int, slotBalance: int, portBalance: int, free: int)

  function BooksOf(s: System, g: int): Books {
    Books(s.slots, SlotBalance(s.log), PortBalance(s.log, g), Times(g, s.free))
  }

  function Rebooked(books: Books, before: Holding, after: Holding, g: int): Books {
    var slots := (if after.slot then 1 else 0) - (if before.slot then 1 else 0);
    var ports := (if after.ports == Some(g) then 1 else 0) - (if before.ports == Some(g) then 1 else 0);
    Books(books.slots + slots, books.slotBalance + slots, books.portBalance + ports, books.free - ports)
  }

  /** The books changed as the holding did. */
  ghost predicate Settles(s: System, s': System, before: Holding, after: Holding, g: int) {
    && s'.capacity == s.capacity && s'.slots <= s'.capacity
    && BooksOf(s', g) == Rebooked(BooksOf(s, g), before, after, g)
  }

  lemma {:induction false} BooksTakeSlot(s: System, g: int)
    ensures BooksOf(s.TakeSlot(), g) == BooksOf(s, g).(slots := s.slots + 1, slotBalance := SlotBalance(s.log) + 1)
  {
    LogGrows(s.log, TookSlot, g);
  }

  lemma {:induction false} BooksReturnSlot(s: System, g: int)
    requires s.slots > 0
    ensures BooksOf(s.ReturnSlot(), g) == BooksOf(s, g).(slots := s.slots - 1, slotBalance := SlotBalance(s.log) - 1)
  {
    LogGrows(s.log, ReturnedSlot, g);
  }

  lemma {:induction false} BooksReturnPorts(s: System, h: int, g: int)
    ensures BooksOf(s.ReturnPorts(h), g) == if h == g then
      BooksOf(s, g).(portBalance := PortBalance(s.log, g) - 1, free := Times(g, s.free) + 1) else BooksOf(s, g)
  {
    LogGrows(s.log, ReturnedPorts(h), g);
    FreeGrows(s.free, h, g);
  }

  lemma {:induction false} TakeSlotSettles(s: System, ports: Option<int>, g: int)
    requires s.slots < s.capacity
    ensures Settles(s, s.TakeSlot(), Holding(false, ports), Holding(true, ports), g)
  {
    BooksTakeSlot(s, g);
  }

  lemma {:induction false} ReturnSlotSettles(s: System, ports: Option<int>, g: int)
    requires 0 < s.slots <= s.capacity
    ensures Settles(s, s.ReturnSlot(), Holding(true, ports), Holding(false, ports), g)
  {
    BooksReturnSlot(s, g);
  }

  lemma {:induction false} ReturnSettles(s: System, slot: bool, h: int, g: int)
    requires s.slots <= s.capacity
    ensures Settles(s, s.ReturnPorts(h), Holding(slot, Some(h)), Holding(slot, None), g)
  {
    BooksReturnPorts(s, h, g);
  }

  lemma {:induction false} TakingSettles(s: System, i: nat, ok: bool, g: int)
    requires Exclusive(s) && i < |s.calls| && s.slots <= s.capacity && s.calls[i].pc.Opening?
    ensures var s' := CallStep(s, i, ok);
      Settles(s, s', CallHolding(s.calls[i]), CallHolding(s'.calls[i]), g)
  {
    if ok && s.free != [] {
      LogGrows(s.log, TookPorts(s.free[|s.free| - 1]), g);
    }
  }

  lemma {:induction false} ReturningSettles(s: System, i: nat, ok: bool, g: int)
    requires Exclusive(s) && i < |s.calls| && s.slots <= s.capacity
    requires s.calls[i].pc.Dialing? || s.calls[i].pc.GivingUp? || s.calls[i].pc.RollingBack?
    ensures var s' := CallStep(s, i, ok);
      Settles(s, s', CallHolding(s.calls[i]), CallHolding(s'.calls[i]), g)
  {
    ReturnSettles(s, s.calls[i].pc.RollingBack?, s.calls[i].pc.group, g);
  }

  lemma {:induction false} CallStepSettles(s: System, i: nat, ok: bool, g: int)
    requires Exclusive(s) && i < |s.calls| && s.slots <= s.capacity
    requires CallHolding(s.calls[i]).slot ==> s.slots > 0
    requires s.calls[i].pc.Running? ==> s.peers[s.calls[i].peer].Done()
    ensures var s' := CallStep(s, i, ok);
      Settles(s, s', CallHolding(s.calls[i]), CallHolding(s'.calls[i]), g)
  {
    var pc := s.calls[i].pc;
    if pc.Opening? {
      TakingSettles(s, i, ok, g);
    } else if pc.Dialing? || pc.GivingUp? || pc.RollingBack? {
      ReturningSettles(s, i, ok, g);
    } else if pc.Ported? && s.slots < s.capacity {
      TakeSlotSettles(s, Some(pc.group), g);
    } else if pc.Slotted? && !ok {
      ReturnSlotSettles(s, Some(pc.group), g);
    } else if pc.RolledBack? {
      ReturnSlotSettles(s, None, g);
    }
  }

  lemma {:induction false} SettlingKeepsBalance(s: System, s': System, k: nat, after: Holding, all: seq<int>, g: int)
    requires Balanced(s, all, g) && k < |Holdings(s)|
    requires Holdings(s') == Holdings(s)[k := after]
    requires Settles(s, s', Holdings(s)[k], after, g)
    ensures Balanced(s', all, g)
  {
    HeldChanges(Holdings(s), k, after, g);
  }

  lemma {:induction false} HolderCounted(hs: seq<Holding>, k: nat)
    requires k < |hs| && hs[k].slot
    ensures SlotsHeld(hs) > 0
  {
    HeldChanges(hs, k, Holding(false, None), 0);
  }

  /** The commit hands what the call holds to its peer. */
  lemma {:induction false} CommitMoves(s: System, i: nat, ok: bool)
    requires Exclusive(s) && i < |s.calls| && s.calls[i].pc.Running? && !s.peers[s.calls[i].peer].Done()
    ensures Holdings(s)[s.calls[i].peer] == Holding(false, None)
    ensures Holdings(CallStep(s, i, ok))
      == Holdings(s)[s.calls[i].peer := CallHolding(s.calls[i])][|s.peers| + i := Holding(false, None)]
  {
    var s' := CallStep(s, i, ok);
    var j := s.calls[i].peer;
    var moved := Holdings(s)[j := CallHolding(s.calls[i])][|s.peers| + i := Holding(false, None)];
    assert s.peers[j].session.None? && !s.peers[j].slotHeld;
    forall k | 0 <= k < |moved| ensures Holdings(s')[k] == moved[k] {
      HoldingAt(s, k);
      HoldingAt(s', k);
    }
    assert Holdings(s') == moved;
  }

  lemma {:induction false} CommitKeepsBalance(s: System, i: nat, ok: bool, all: seq<int>, g: int)
    requires Exclusive(s) && i < |s.calls| && s.calls[i].pc.Running? && !s.peers[s.calls[i].peer].Done()
    requires Balanced(s, all, g)
    ensures Balanced(CallStep(s, i, ok), all, g)
  {
    var j := s.calls[i].peer;
    var held := CallHolding(s.calls[i]);
    var hs := Holdings(s);
    HoldingAt(s, |s.peers| + i);
    HeldChanges(hs, j, held, g);
    HeldChanges(hs[j := held], |s.peers| + i, Holding(false, None), g);
    CommitMoves(s, i, ok);
  }

  lemma {:induction false} CallStepBalanced(s: System, i: nat, ok: bool, all: seq<int>, g: int)
    requires Exclusive(s) && i < |s.calls| && Balanced(s, all, g)
    ensures Balanced(CallStep(s, i, ok), all, g)
  {
    if s.calls[i].pc.Running? && !s.peers[s.calls[i].peer].Done() {
      CommitKeepsBalance(s, i, ok, all, g);
    } else {
      var k := |s.peers| + i;
      if CallHolding(s.calls[i]).slot {
        HolderCounted(Holdings(s), k);
      }
      CallStepMoves(s, i, ok);
      CallStepSettles(s, i, ok, g);
      SettlingKeepsBalance(s, CallStep(s, i, ok), k, CallHolding(CallStep(s, i, ok).calls[i]), all, g);
    }
  }

  lemma {:induction false} CloseStepSettles(s: System, j: nat, g: int)
    requires Exclusive(s) && j < |s.peers| && s.slots <= s.capacity
    requires PeerHolding(s.peers[j]).slot ==> s.slots > 0
    ensures var s' := CloseStep(s, j);
      Settles(s, s', PeerHolding(s.peers[j]), PeerHolding(s'.peers[j]), g)
  {
    match s.peers[j].closing
    case Stopping(session, slotHeld) =>
      if slotHeld {
        ReturnSlotSettles(s, session, g);
      }
    case Stopped(session) =>
      if session.Some? {
        ReturnSettles(s, false, session.value, g);
      }
    case _ =>
  }

  lemma {:induction false} CloseStepShape(s: System, j: nat)
    requires s.WellFormed() && j < |s.peers|
    ensures var s' := CloseStep(s, j);
      s'.calls == s.calls && |s'.peers| == |s.peers| && forall k :: 0 <= k < |s.peers| && k != j ==> s'.peers[k] == s.peers[k]
  {
  }

  /** A step of a close changes what its own peer holds, and no other holding. */
  lemma {:induction false} CloseStepMoves(s: System, j: nat)
    requires s.WellFormed() && j < |s.peers|
    ensures var s' := CloseStep(s, j);
      |s'.peers| == |s.peers| && j < |Holdings(s)| && Holdings(s') == Holdings(s)[j := PeerHolding(s'.peers[j])]
  {
    var s' := CloseStep(s, j);
    CloseStepShape(s, j);
    var moved := Holdings(s)[j := PeerHolding(s'.peers[j])];
    forall k | 0 <= k < |moved| ensures Holdings(s')[k] == moved[k] {
      HoldingAt(s, k);
      HoldingAt(s', k);
    }
    assert Holdings(s') == moved;
  }

  lemma {:induction false} CloseStepBalanced(s: System, j: nat, all: seq<int>, g: int)
    requires Exclusive(s) && j < |s.peers| && Balanced(s, all, g)
    ensures Balanced(CloseStep(s, j), all, g)
  {
    var s' := CloseStep(s, j);
    if PeerHolding(s.peers[j]).slot {
      HolderCounted(Holdings(s), j);
    }
    CloseStepSettles(s, j, g);
    CloseStepMoves(s, j);
    SettlingKeepsBalance(s, s', j, PeerHolding(s'.peers[j]), all, g);
  }

  // ---- Runs ----

  const FRESH_PEER := Peer(false, false, false, None, false, Open)

  /** Any number of peers, any number of track callbacks to come, every slot and every port group free. */
  ghost predicate Initial(s: System) {
    && s.WellFormed()
    && (forall j :: 0 <= j < |s.peers| ==> s.peers[j] == FRESH_PEER)
    && (forall i :: 0 <= i < |s.calls| ==> s.calls[i].pc.Arriving?)
    && s.slots == 0 && s.log == []
  }

  function Run(s: System, turns: seq<Turn>): (s': System)
    requires s.WellFormed()
    ensures s'.WellFormed() && |s'.calls| == |s.calls| && |s'.peers| == |s.peers|
  {
    if turns == [] then s else Next(Run(s, turns[..|turns| - 1]), turns[|turns| - 1])
  }

  lemma {:induction false} NothingHeldAtFirst(hs: seq<Holding>, g: int)
    requires forall k :: 0 <= k < |hs| ==> hs[k] == Holding(false, None)
    ensures SlotsHeld(hs) == 0 && PortsHeld(hs, g) == 0
  {
    if hs != [] {
      NothingHeldAtFirst(hs[..|hs| - 1], g);
    }
  }

  lemma {:induction false} InitiallyBalanced(s: System, g: int)
    requires Initial(s)
    ensures Exclusive(s) && Balanced(s, s.free, g)
  {
    forall k | 0 <= k < |Holdings(s)| ensures Holdings(s)[k] == Holding(false, None) {
      HoldingAt(s, k);
      if k < |s.peers| {
        assert s.peers[k] == FRESH_PEER;
        assert PeerHolding(s.peers[k]) == Holding(false, None);
      } else {
        assert s.calls[k - |s.peers|].pc.Arriving?;
        assert CallHolding(s.calls[k - |s.peers|]) == Holding(false, None);
      }
    }
    NothingHeldAtFirst(Holdings(s), g);
  }

  /** In every interleaving: the slots taken are those held and never more than the capacity; every port group is
      free or held by one call or peer, never both and never twice; and every prefix of the log has taken each group
      at most once more than it returned it. */
  lemma {:induction false} EveryRunBalanced(s: System, turns: seq<Turn>, g: int)
    requires Initial(s)
    ensures Exclusive(Run(s, turns)) && Balanced(Run(s, turns), s.free, g)
  {
    if turns == [] {
      InitiallyBalanced(s, g);
    } else {
      var before, turn := Run(s, turns[..|turns| - 1]), turns[|turns| - 1];
      EveryRunBalanced(s, turns[..|turns| - 1], g);
      match turn
      case OfCall(i, ok) =>
        if i < |before.calls| {
          CallStepExclusive(before, i, ok);
          CallStepBalanced(before, i, ok, s.free, g);
        }
      case OfClose(j) =>
        if j < |before.peers| {
          CloseStepExclusive(before, j);
          CloseStepBalanced(before, j, s.free, g);
        }
    }
  }

  lemma {:induction false} HoldersCounted(hs: seq<Holding>, k: nat, m: nat, g: int)
    requires k < |hs| && m < |hs| && hs[k].ports == Some(g)
    ensures PortsHeld(hs, g) >= 1
    ensures k != m && hs[m].ports == Some(g) ==> PortsHeld(hs, g) >= 2
  {
    var without := hs[k := Holding(false, None)];
    HeldChanges(hs, k, Holding(false, None), g);
    HeldChanges(without, m, Holding(false, None), g);
  }

  /** The port groups of any two calls or peers are disjoint ranges of four ports inside the configured range. */
  lemma {:induction false} OutstandingGroupsDisjoint(s: System, turns: seq<Turn>, rangeStart: int, rangeEnd: int, k: nat, m: nat)
    requires Initial(s) && s.free == Groups(rangeStart, rangeEnd)
    requires k < |Holdings(Run(s, turns))| && m < |Holdings(Run(s, turns))| && k != m
    requires Holdings(Run(s, turns))[k].ports.Some? && Holdings(Run(s, turns))[m].ports.Some?
    ensures var g, h := Holdings(Run(s, turns))[k].ports.value, Holdings(Run(s, turns))[m].ports.value;
      && (g + PORTS_PER_STREAM <= h || h + PORTS_PER_STREAM <= g)
      && rangeStart <= g && g + PORTS_PER_STREAM - 1 <= rangeEnd
  {
    var hs := Holdings(Run(s, turns));
    var g, h := hs[k].ports.value, hs[m].ports.value;
    EveryRunBalanced(s, turns, g);
    EveryRunBalanced(s, turns, h);
    HoldersCounted(hs, k, m, g);
    HoldersCounted(hs, m, k, h);
    GroupsExactly(g, rangeStart, rangeEnd);
    GroupsExactly(h, rangeStart, rangeEnd);
    GroupsDisjoint(g, h, rangeStart, rangeEnd);
  }

  // ---- Every start and every close finishes, and then nothing is held ----

  function CallRank(pc: CallPc): nat {
    match pc
    case Arriving(_) => 11
    case Claimed => 10
    case Opening => 9
    case Dialing(_) => 8
    case Ported(_) => 7
    case Slotted(_) => 6
    case Running(_) => 5
    case RollingBack(_) => 4
    case RolledBack => 3
    case GivingUp(_) => 2
    case Aborting => 1
    case Returned => 0
  }

  function CloseRank(pc: ClosePc): nat {
    match pc
    case Open => 4
    case Marked => 3
    case Stopping(_, _) => 2
    case Stopped(_) => 1
    case Closed => 0
  }

  function CallTurns(turns: seq<Turn>, i: nat): nat {
    if turns == [] then 0 else
      var last := turns[|turns| - 1];
      CallTurns(turns[..|turns| - 1], i) + (if last.OfCall? && last.call == i then 1 else 0)
  }

  function CloseTurns(turns: seq<Turn>, j: nat): nat {
    if turns == [] then 0 else
      CloseTurns(turns[..|turns| - 1], j) + (if turns[|turns| - 1] == OfClose(j) then 1 else 0)
  }

  /** No turn is ever wasted: the one whose turn it is gets further, */
  lemma {:induction false} OwnTurnAdvances(s: System, i: nat, ok: bool)
    requires Exclusive(s) && s.slots == SlotsHeld(Holdings(s)) && i < |s.calls| && !s.calls[i].pc.Returned?
    ensures CallRank(CallStep(s, i, ok).calls[i].pc) < CallRank(s.calls[i].pc)
  {
    if CallHolding(s.calls[i]).slot {
      HoldingAt(s, |s.peers| + i);
      HolderCounted(Holdings(s), |s.peers| + i);
    }
  }

  /** and nobody else is set back. */
  lemma {:induction false} OtherTurnKeeps(s: System, turn: Turn, i: nat)
    requires Exclusive(s) && i < |s.calls| && !(turn.OfCall? && turn.call == i)
    ensures Next(s, turn).calls[i] == s.calls[i]
  {
    if turn.OfCall? && turn.call < |s.calls| {
      CallStepShape(s, turn.call, turn.ok);
    }
  }

  lemma {:induction false} CloseAdvances(s: System, turn: Turn, j: nat)
    requires Exclusive(s) && s.slots == SlotsHeld(Holdings(s)) && j < |s.peers|
    ensures var before, after := s.peers[j].closing, Next(s, turn).peers[j].closing;
      if turn == OfClose(j) && !before.Closed? then CloseRank(after) < CloseRank(before) else after == before
  {
    if turn == OfClose(j) && PeerHolding(s.peers[j]).slot {
      HoldingAt(s, j);
      HolderCounted(Holdings(s), j);
    } else if turn.OfCall? && turn.call < |s.calls| {
      CallStepShape(s, turn.call, turn.ok);
    }
  }

  lemma {:induction false} CallFinishes(s: System, turns: seq<Turn>, i: nat)
    requires Initial(s) && i < |s.calls|
    ensures CallRank(Run(s, turns).calls[i].pc) == 0 || CallRank(Run(s, turns).calls[i].pc) + CallTurns(turns, i) <= 11
  {
    if turns != [] {
      var before := turns[..|turns| - 1];
      CallFinishes(s, before, i);
      EveryRunBalanced(s, before, 0);
      var turn := turns[|turns| - 1];
      if turn.OfCall? && turn.call == i {
        if !Run(s, before).calls[i].pc.Returned? {
          OwnTurnAdvances(Run(s, before), i, turn.ok);
        }
      } else {
        OtherTurnKeeps(Run(s, before), turn, i);
      }
    }
  }

  lemma {:induction false} CloseFinishes(s: System, turns: seq<Turn>, j: nat)
    requires Initial(s) && j < |s.peers|
    ensures CloseRank(Run(s, turns).peers[j].closing) == 0 || CloseRank(Run(s, turns).peers[j].closing) + CloseTurns(turns, j) <= 4
  {
    if turns != [] {
      var before := turns[..|turns| - 1];
      CloseFinishes(s, before, j);
      EveryRunBalanced(s, before, 0);
      CloseAdvances(Run(s, before), turns[|turns| - 1], j);
    }
  }

  /** No start is under way, and every peer that has a session is closed. */
  ghost predicate Quiet(s: System) {
    && (forall i :: 0 <= i < |s.calls| ==> s.calls[i].pc.Returned?)
    && (forall j :: 0 <= j < |s.peers| ==> s.peers[j].session.None? || s.peers[j].closing.Closed?)
  }

  /** Whatever the interleaving was: once starts and closes have finished, every slot is back, every group is in the
      pool again, and everything taken was returned exactly once. */
  lemma {:induction false} QuietHoldsNothing(s: System, turns: seq<Turn>, g: int)
    requires Initial(s) && Quiet(Run(s, turns))
    ensures var s' := Run(s, turns);
      && s'.slots == 0 && SlotBalance(s'.log) == 0
      && Times(g, s'.free) == Times(g, s.free) && PortBalance(s'.log, g) == 0
  {
    var s' := Run(s, turns);
    EveryRunBalanced(s, turns, g);
    forall k | 0 <= k < |Holdings(s')| ensures Holdings(s')[k] == Holding(false, None) {
      HoldingAt(s', k);
      if k < |s'.peers| {
        assert PeerSane(s'.peers[k]);
      }
    }
    NothingHeldAtFirst(Holdings(s'), g);
  }

  /** Every schedule that keeps giving turns to every call and every close gets there. */
  lemma {:induction false} FairRunsSettle(s: System, turns: seq<Turn>)
    requires Initial(s)
    requires forall i :: 0 <= i < |s.calls| ==> CallTurns(turns, i) >= 11
    requires forall j :: 0 <= j < |s.peers| ==> CloseTurns(turns, j) >= 4
    ensures Quiet(Run(s, turns))
  {
    forall i | 0 <= i < |Run(s, turns).calls| ensures Run(s, turns).calls[i].pc.Returned? {
      CallFinishes(s, turns, i);
    }
    forall j | 0 <= j < |Run(s, turns).peers| ensures Run(s, turns).peers[j].closing.Closed? {
      CloseFinishes(s, turns, j);
    }
  }

  // ---- A start that nothing stands in the way of ----

  /** Nothing stands in the way of call `i`'s next step. */
  ghost predicate Clear(s: System, i: nat)
    requires s.WellFormed() && i < |s.calls|
  {
    && !s.peers[s.calls[i].peer].Done()
    && (s.calls[i].pc.Opening? ==> s.free != [])
    && (s.calls[i].pc.Ported? ==> s.slots < s.capacity)
  }

  /** Nor does anything whenever it takes a turn, and no call it makes fails; the turns of others are free. */
  ghost predicate Unhindered(s: System, turns: seq<Turn>, i: nat)
    requires s.WellFormed() && i < |s.calls|
  {
    turns == [] ||
    (var last, before := turns[|turns| - 1], turns[..|turns| - 1];
      Unhindered(s, before, i) && (last.OfCall? && last.call == i ==> last.ok && Clear(Run(s, before), i)))
  }

  ghost predicate OnItsWay(s: System, i: nat, taken: nat)
    requires s.WellFormed() && i < |s.calls|
  {
    var pc, peer := s.calls[i].pc, s.peers[s.calls[i].peer];
    if pc.Returned? then peer.session.Some? && peer.slotHeld
    else Starting(pc) && !pc.GivingUp? && !pc.Aborting? && CallRank(pc) + taken <= 10
  }

  lemma {:induction false} OwnStepOnItsWay(s: System, i: nat, taken: nat)
    requires Exclusive(s) && i < |s.calls| && OnItsWay(s, i, taken) && Clear(s, i)
    ensures var s' := CallStep(s, i, true);
      |s'.calls| == |s.calls| && s'.calls[i].peer == s.calls[i].peer && OnItsWay(s', i, taken + 1)
  {
  }

  lemma {:induction false} OtherStepOnItsWay(s: System, turn: Turn, i: nat, taken: nat)
    requires Exclusive(s) && i < |s.calls| && OnItsWay(s, i, taken) && !(turn.OfCall? && turn.call == i)
    ensures OnItsWay(Next(s, turn), i, taken)
  {
    OtherTurnKeeps(s, turn, i);
    if s.calls[i].pc.Returned? {
      SessionStays(s, turn, s.calls[i].peer);
    } else if turn.OfCall? && turn.call < |s.calls| {
      CallStepKeepsClaims(s, turn.call, turn.ok, i);
    }
  }

  lemma {:induction false} SessionStays(s: System, turn: Turn, j: nat)
    requires Exclusive(s) && j < |s.peers| && s.peers[j].session.Some?
    ensures var s' := Next(s, turn);
      |s'.peers| == |s.peers| && s'.peers[j].session == s.peers[j].session && s'.peers[j].slotHeld == s.peers[j].slotHeld
  {
    if turn.OfCall? && turn.call < |s.calls| && s.calls[turn.call].peer == j {
      CallStepClaim(s, turn.call, turn.ok);
    }
  }

  lemma {:induction false} NextExclusive(s: System, turn: Turn)
    requires Exclusive(s)
    ensures Exclusive(Next(s, turn))
  {
    match turn
    case OfCall(i, ok) => if i < |s.calls| { CallStepExclusive(s, i, ok); }
    case OfClose(j) => if j < |s.peers| { CloseStepExclusive(s, j); }
  }

  lemma {:induction false} UnhinderedOnItsWay(s: System, turns: seq<Turn>, i: nat)
    requires Exclusive(s) && i < |s.calls| && OnItsWay(s, i, 0) && Unhindered(s, turns, i)
    ensures Exclusive(Run(s, turns)) && Run(s, turns).calls[i].peer == s.calls[i].peer && OnItsWay(Run(s, turns), i, CallTurns(turns, i))
  {
    if turns != [] {
      var before, turn := turns[..|turns| - 1], turns[|turns| - 1];
      UnhinderedOnItsWay(s, before, i);
      NextExclusive(Run(s, before), turn);
      if turn.OfCall? && turn.call == i {
        OwnStepOnItsWay(Run(s, before), i, CallTurns(before, i));
      } else {
        OtherTurnKeeps(Run(s, before), turn, i);
        OtherStepOnItsWay(Run(s, before), turn, i, CallTurns(before, i));
      }
    }
  }

  /** The track that makes the pair complete starts the recording: unless the peer closes, a call fails, or no ports or no
      slot are left when the start asks for them, its peer has a session and a slot after seven turns of its own,
      whatever the others do in between. */
  lemma {:induction false} UnhinderedStartCommits(s: System, i: nat, turns: seq<Turn>)
    requires Exclusive(s) && i < |s.calls| && s.calls[i].pc.Arriving?
    requires var peer := s.peers[s.calls[i].peer];
      (if s.calls[i].pc.video then peer.audio else peer.video) && peer.session.None? && !peer.starting
    requires Unhindered(CallStep(s, i, true), turns, i) && CallTurns(turns, i) >= 6
    ensures var s' := Run(CallStep(s, i, true), turns);
      s'.calls[i].pc.Returned? && var peer := s'.peers[s.calls[i].peer]; peer.session.Some? && peer.slotHeld
  {
    CallStepExclusive(s, i, true);
    UnhinderedOnItsWay(CallStep(s, i, true), turns, i);
  }
}
