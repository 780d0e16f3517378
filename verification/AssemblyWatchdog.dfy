/** The watchdog's sweeps over the due-set, when no Redis call fails: nothing waits forever, nothing is early. */
module AssemblyWatchdog {
  import opened AssemblyRegistry

  const BATCH_LIMIT := 32
  const RETRY_INTERVAL := 120 * SECOND
  const MAX_ATTEMPTS := 5

  /** How handling one stream turns out: its segments cannot be listed, it has none, it is assembled, it fails. */
  datatype Outcome = ListFailed | NoSegments | Assembled | Failed

  function Handled(r: Registry, p: Pending, outcome: Outcome, at: nat): Registry {
    match outcome
    case ListFailed => r
    case NoSegments => Cancelled(r, p.id)
    case Assembled => Cancelled(r, p.id)
    case Failed =>
      if p.attempts + 1 >= MAX_ATTEMPTS then Cancelled(r, p.id)
      else Scheduled(r, p.(attempts := p.attempts + 1, dueAt := at + RETRY_INTERVAL))
  }

  function HandledAll(r: Registry, ps: seq<Pending>, world: nat -> Outcome, at: nat): Registry {
    if ps == [] then r else
      var n := |ps| - 1;
      Handled(HandledAll(r, ps[..n], world, at), ps[n], world(ps[n].id), at)
  }

  /** One sweep at time `now`; failed attempts are rescheduled from time `at` on. */
  function Sweep(r: Registry, now: nat, world: nat -> Outcome, at: nat): Registry {
    var loaded := LoadedAll(r, Batch(r.due, now, BATCH_LIMIT));
    HandledAll(loaded.0, loaded.1, world, at)
  }

  class AssemblyWatchdog {
    const pending: PendingAssemblyRegistry

    constructor (pending: PendingAssemblyRegistry)
      ensures this.pending == pending
    {
      this.pending := pending;
    }

    method SweepOnce(now: nat, world: nat -> Outcome, at: nat)
      modifies pending
      ensures pending.View() == Sweep(old(pending.View()), now, world, at)
    {
      var due := pending.Due(now, BATCH_LIMIT);
      ghost var loaded := pending.View();
      var i := 0;
      while i < |due|
        invariant 0 <= i <= |due|
        invariant pending.View() == HandledAll(loaded, due[..i], world, at)
      {
        assert due[..i + 1][..i] == due[..i];
        Handle(due[i], world(due[i].id), at);
        i := i + 1;
      }
      assert due[..|due|] == due;
    }

    method Handle(p: Pending, outcome: Outcome, at: nat)
      modifies pending
      ensures pending.View() == Handled(old(pending.View()), p, outcome, at)
    {
      if outcome.ListFailed? {
        return;
      }
      if outcome.NoSegments? {
        pending.Cancel(p.id);
        return;
      }
      if outcome.Assembled? {
        pending.Cancel(p.id);
        return;
      }
      if p.attempts + 1 >= MAX_ATTEMPTS {
        pending.Cancel(p.id);
        return;
      }
      pending.Schedule(p.(attempts := p.attempts + 1, dueAt := at + RETRY_INTERVAL));
    }
  }

  // ---- Never early ----

  /** Detail keys are stored under their own id, with the score the sorted set has for it. */
  ghost predicate Keyed(r: Registry) {
    && Ordered(r.due)
    && (forall id :: id in r.details && r.details[id].Readable? ==> r.details[id].pending.id == id)
    && (forall x :: x in r.due && x.id in r.details && r.details[x.id].Readable? ==> x.score == Score(r.details[x.id].pending.dueAt))
  }

  lemma {:induction false} ScheduledKeyed(r: Registry, p: Pending)
    requires Keyed(r)
    ensures Keyed(Scheduled(r, p))
  {
    var e := Entry(Score(p.dueAt), p.id);
    WithoutMembers(r.due, p.id);
    WithoutOrdered(r.due, p.id);
    InsertMembers(Without(r.due, p.id), e);
    InsertOrdered(Without(r.due, p.id), e);
  }

  lemma {:induction false} CancelledKeyed(r: Registry, id: nat)
    requires Keyed(r)
    ensures Keyed(Cancelled(r, id)) && Keyed(r.(due := Without(r.due, id)))
  {
    WithoutMembers(r.due, id);
    WithoutOrdered(r.due, id);
  }

  lemma {:induction false} LoadedAllKeyed(r: Registry, batch: seq<Entry>)
    requires Keyed(r)
    ensures Keyed(LoadedAll(r, batch).0)
  {
    if batch != [] {
      LoadedAllKeyed(r, batch[..|batch| - 1]);
      CancelledKeyed(LoadedAll(r, batch[..|batch| - 1]).0, batch[|batch| - 1].id);
    }
  }

  lemma {:induction false} HandledKeyed(r: Registry, p: Pending, outcome: Outcome, at: nat)
    requires Keyed(r)
    ensures Keyed(Handled(r, p, outcome, at))
  {
    CancelledKeyed(r, p.id);
    ScheduledKeyed(r, p.(attempts := p.attempts + 1, dueAt := at + RETRY_INTERVAL));
  }

  lemma {:induction false} HandledAllKeyed(r: Registry, ps: seq<Pending>, world: nat -> Outcome, at: nat)
    requires Keyed(r)
    ensures Keyed(HandledAll(r, ps, world, at))
  {
    if ps != [] {
      var n := |ps| - 1;
      HandledAllKeyed(r, ps[..n], world, at);
      HandledKeyed(HandledAll(r, ps[..n], world, at), ps[n], world(ps[n].id), at);
    }
  }

  lemma {:induction false} SweepKeyed(r: Registry, now: nat, world: nat -> Outcome, at: nat)
    requires Keyed(r)
    ensures Keyed(Sweep(r, now, world, at))
  {
    var batch := Batch(r.due, now, BATCH_LIMIT);
    LoadedAllKeyed(r, batch);
    HandledAllKeyed(LoadedAll(r, batch).0, LoadedAll(r, batch).1, world, at);
  }

  /** What happens to the registry: calls from outside, a sweep as a whole or stream by stream, and expiry. */
  datatype Deed =
    | Schedules(p: Pending)
    | Cancels(id: nat)
    | WholeSweep(now: nat, world: nat -> Outcome, at: nat)
    | Loads(id: nat)
    | Handles(p: Pending, outcome: Outcome, at: nat)
    | DetailExpires(id: nat)
    | DetailSpoils(id: nat)
    | SetExpires

  function Done(r: Registry, deed: Deed): Registry {
    match deed
    case Schedules(p) => Scheduled(r, p)
    case Cancels(id) => Cancelled(r, id)
    case WholeSweep(now, world, at) => Sweep(r, now, world, at)
    case Loads(id) => Loaded(r, id).0
    case Handles(p, outcome, at) => Handled(r, p, outcome, at)
    case DetailExpires(id) => r.(details := r.details - {id})
    case DetailSpoils(id) => r.(details := r.details[id := Undecodable])
    case SetExpires => r.(due := [])
  }

  function After(deeds: seq<Deed>, n: nat): Registry
    requires n <= |deeds|
  {
    if n == 0 then Registry([], map[]) else Done(After(deeds, n - 1), deeds[n - 1])
  }

  lemma {:induction false} DoneKeyed(r: Registry, deed: Deed)
    requires Keyed(r)
    ensures Keyed(Done(r, deed))
  {
    match deed
    case Schedules(p) => ScheduledKeyed(r, p);
    case Cancels(id) => CancelledKeyed(r, id);
    case WholeSweep(now, world, at) => SweepKeyed(r, now, world, at);
    case Loads(id) => CancelledKeyed(r, id);
    case Handles(p, outcome, at) => HandledKeyed(r, p, outcome, at);
    case _ =>
  }

  /** Every registry that calls, sweeps and expiry can produce, in any order, has one entry per stream, in due order,
      scored by the detail stored for it. */
  lemma {:induction false} AlwaysKeyed(deeds: seq<Deed>, n: nat)
    requires n <= |deeds|
    ensures Keyed(After(deeds, n))
  {
    if n > 0 {
      AlwaysKeyed(deeds, n - 1);
      DoneKeyed(After(deeds, n - 1), deeds[n - 1]);
    }
  }

  /** The batch is the front of the set: as many as allowed, or all that are due. */
  lemma {:induction false} BatchIsFront(due: seq<Entry>, now: nat, limit: nat)
    ensures var n := |Batch(due, now, limit)|;
      && n <= limit && n <= |due| && Batch(due, now, limit) == due[..n]
      && (forall i :: 0 <= i < n ==> due[i].score <= Score(now))
      && (n == limit || n == |due| || due[n].score > Score(now))
    decreases limit
  {
    if due != [] && due[0].score <= Score(now) && limit > 0 {
      BatchIsFront(due[1..], now, limit - 1);
      var m := |Batch(due[1..], now, limit - 1)|;
      assert due[..m + 1] == [due[0]] + due[1..][..m];
      forall i | 0 <= i < m + 1 ensures due[i].score <= Score(now) {
        assert i > 0 ==> due[i] == due[1..][i - 1];
      }
    }
  }

  /** Entry `x` has `p` for its detail. */
  predicate Describes(r: Registry, x: Entry, p: Pending) {
    x.id in r.details && r.details[x.id] == Readable(p)
  }

  ghost predicate FromBatch(r: Registry, batch: seq<Entry>, p: Pending) {
    exists k :: 0 <= k < |batch| && Describes(r, batch[k], p)
  }

  lemma {:induction false} LoadingKeepsDetails(r: Registry, batch: seq<Entry>, id: nat)
    ensures var l := LoadedAll(r, batch).0; id in l.details ==> id in r.details && l.details[id] == r.details[id]
  {
    if batch != [] {
      LoadingKeepsDetails(r, batch[..|batch| - 1], id);
    }
  }

  lemma {:induction false} LoadedFromBatch(r: Registry, batch: seq<Entry>, i: nat)
    requires i < |LoadedAll(r, batch).1|
    ensures FromBatch(r, batch, LoadedAll(r, batch).1[i])
  {
    var n := |batch| - 1;
    var before := LoadedAll(r, batch[..n]);
    var p := LoadedAll(r, batch).1[i];
    if i < |before.1| {
      LoadedFromBatch(r, batch[..n], i);
      var k :| 0 <= k < n && Describes(r, batch[..n][k], p);
      assert Describes(r, batch[k], p);
    } else {
      LoadingKeepsDetails(r, batch[..n], batch[n].id);
      assert Describes(r, batch[n], p);
    }
  }

  /** No stream is handled a full second or more before the due time it carries. */
  lemma {:induction false} NeverEarly(r: Registry, now: nat, i: nat)
    requires Keyed(r) && i < |LoadedAll(r, Batch(r.due, now, BATCH_LIMIT)).1|
    ensures LoadedAll(r, Batch(r.due, now, BATCH_LIMIT)).1[i].dueAt < now + SECOND
  {
    var batch := Batch(r.due, now, BATCH_LIMIT);
    BatchIsFront(r.due, now, BATCH_LIMIT);
    LoadedFromBatch(r, batch, i);
    var p := LoadedAll(r, batch).1[i];
    var k :| 0 <= k < |batch| && Describes(r, batch[k], p);
    assert batch[k] == r.due[k] && r.due[k] in r.due;
    assert p.dueAt / SECOND <= now / SECOND;
  }

  // ---- Never starved ----

  /** Only entries of these ids changed. */
  ghost predicate OthersKept(r: Registry, r': Registry, ids: set<nat>) {
    forall x :: x in r.due && x.id !in ids ==> x in r'.due
  }

  ghost predicate Waits(r: Registry, e: Entry, ahead: nat) {
    Ordered(r.due) && e in r.due && Ahead(r.due, e) == ahead
  }

  /** `x` no longer waits before `e`; all others stay. */
  ghost predicate Overtaken(r: Registry, r': Registry, x: Entry, e: Entry, ahead: nat) {
    ahead > 0 && Waits(r', e, ahead - 1) && OthersKept(r, r', {x.id})
  }

  lemma {:induction false} WithoutOvertakes(r: Registry, x: Entry, e: Entry, ahead: nat)
    requires Waits(r, e, ahead) && x in r.due && Less(x, e)
    ensures Overtaken(r, r.(due := Without(r.due, x.id)), x, e, ahead) && Overtaken(r, Cancelled(r, x.id), x, e, ahead)
  {
    WithoutMembers(r.due, x.id);
    WithoutOrdered(r.due, x.id);
    AheadWithout(r.due, x, e);
    SameIdSameEntry(r.due, x, e);
  }

  lemma {:induction false} ReturnOvertakes(r: Registry, r1: Registry, x: Entry, e: Entry, ahead: nat, again: Entry)
    requires Overtaken(r, r1, x, e, ahead) && again.id == x.id && again.score > e.score
    requires forall y :: y in r1.due ==> y.id != x.id
    ensures Overtaken(r, r1.(due := Insert(r1.due, again)), x, e, ahead)
  {
    InsertMembers(r1.due, again);
    AheadInsert(r1.due, again, e);
    InsertOrdered(r1.due, again);
  }

  lemma {:induction false} ScheduledOvertakes(r: Registry, x: Entry, e: Entry, ahead: nat, p: Pending)
    requires Waits(r, e, ahead) && x in r.due && Less(x, e) && p.id == x.id && Score(p.dueAt) > e.score
    ensures Overtaken(r, Scheduled(r, p), x, e, ahead)
  {
    WithoutOvertakes(r, x, e, ahead);
    WithoutMembers(r.due, x.id);
    ReturnOvertakes(r, r.(due := Without(r.due, x.id)), x, e, ahead, Entry(Score(p.dueAt), p.id));
  }

  lemma {:induction false} SameIdSameEntry(due: seq<Entry>, x: Entry, e: Entry)
    requires Ordered(due) && x in due && e in due && Less(x, e)
    ensures x.id != e.id
  {
  }

  function Ids(ps: seq<Pending>): set<nat> {
    if ps == [] then {} else Ids(ps[..|ps| - 1]) + {ps[|ps| - 1].id}
  }

  lemma {:induction false} IdsMember(ps: seq<Pending>, i: nat)
    requires i < |ps|
    ensures ps[i].id in Ids(ps)
  {
    if i < |ps| - 1 {
      IdsMember(ps[..|ps| - 1], i);
    }
  }

  ghost predicate Distinct(ps: seq<Pending>) {
    forall i, j :: 0 <= i < j < |ps| ==> ps[i].id != ps[j].id
  }

  lemma {:induction false} DistinctLast(ps: seq<Pending>, n: nat)
    requires n < |ps| && Distinct(ps)
    ensures ps[n].id !in Ids(ps[..n])
  {
    IdsArePositions(ps[..n], ps[n].id);
  }

  lemma {:induction false} IdsArePositions(ps: seq<Pending>, id: nat)
    ensures id in Ids(ps) ==> exists i :: 0 <= i < |ps| && ps[i].id == id
  {
    if ps != [] {
      var n := |ps| - 1;
      IdsArePositions(ps[..n], id);
      if id in Ids(ps[..n]) {
        var i :| 0 <= i < n && ps[..n][i].id == id;
        assert ps[i].id == id;
      } else if id in Ids(ps) {
        assert ps[n].id == id;
      }
    }
  }

  /** The entry of `p` is still in the set, ahead of `e`. */
  ghost predicate EntryAhead(r: Registry, p: Pending, e: Entry) {
    exists x :: x in r.due && x.id == p.id && Less(x, e)
  }

  ghost predicate NoListFails(world: nat -> Outcome, ps: seq<Pending>) {
    forall i :: 0 <= i < |ps| ==> !world(ps[i].id).ListFailed?
  }

  lemma {:induction false} OthersKeptBoth(r: Registry, before: Registry, after: Registry, done: set<nat>, id: nat)
    requires OthersKept(r, before, done) && OthersKept(before, after, {id})
    ensures OthersKept(r, after, done + {id})
  {
  }

  lemma {:induction false} HandleOne(before: Registry, p: Pending, outcome: Outcome, at: nat, x: Entry, e: Entry, ahead: nat)
    requires Waits(before, e, ahead) && x in before.due && x.id == p.id && Less(x, e)
    requires !outcome.ListFailed? && Score(at + RETRY_INTERVAL) > e.score
    ensures Overtaken(before, Handled(before, p, outcome, at), x, e, ahead)
  {
    var later := p.(attempts := p.attempts + 1, dueAt := at + RETRY_INTERVAL);
    if outcome.Failed? && p.attempts + 1 < MAX_ATTEMPTS {
      assert Handled(before, p, outcome, at) == Scheduled(before, later);
      ScheduledOvertakes(before, x, e, ahead, later);
    } else {
      assert Handled(before, p, outcome, at) == Cancelled(before, x.id);
      WithoutOvertakes(before, x, e, ahead);
    }
  }

  lemma {:induction false} HandleNext(r: Registry, before: Registry, p: Pending, outcome: Outcome, at: nat, e: Entry, ahead: nat, done: set<nat>)
    requires Waits(before, e, ahead) && OthersKept(r, before, done) && EntryAhead(r, p, e) && p.id !in done
    requires !outcome.ListFailed? && Score(at + RETRY_INTERVAL) > e.score
    ensures ahead > 0 && Waits(Handled(before, p, outcome, at), e, ahead - 1)
    ensures OthersKept(r, Handled(before, p, outcome, at), done + {p.id})
  {
    var x :| x in r.due && x.id == p.id && Less(x, e);
    HandleOne(before, p, outcome, at, x, e, ahead);
    OthersKeptBoth(r, before, Handled(before, p, outcome, at), done, p.id);
  }

  lemma {:induction false} HandleAdvances(r: Registry, ps: seq<Pending>, world: nat -> Outcome, at: nat, e: Entry, ahead: nat)
    requires Waits(r, e, ahead) && Distinct(ps) && NoListFails(world, ps) && Score(at + RETRY_INTERVAL) > e.score
    requires forall i :: 0 <= i < |ps| ==> EntryAhead(r, ps[i], e)
    ensures |ps| <= ahead && Waits(HandledAll(r, ps, world, at), e, ahead - |ps|)
    ensures OthersKept(r, HandledAll(r, ps, world, at), Ids(ps))
  {
    if ps != [] {
      var n := |ps| - 1;
      HandleAdvances(r, ps[..n], world, at, e, ahead);
      DistinctLast(ps, n);
      HandleNext(r, HandledAll(r, ps[..n], world, at), ps[n], world(ps[n].id), at, e, ahead - n, Ids(ps[..n]));
    }
  }

  function EntryIds(batch: seq<Entry>): set<nat> {
    if batch == [] then {} else EntryIds(batch[..|batch| - 1]) + {batch[|batch| - 1].id}
  }

  lemma {:induction false} EntryIdsMember(batch: seq<Entry>, id: nat)
    ensures id in EntryIds(batch) <==> exists i :: 0 <= i < |batch| && batch[i].id == id
  {
    if batch != [] {
      var n := |batch| - 1;
      EntryIdsMember(batch[..n], id);
      if id in EntryIds(batch[..n]) {
        var i :| 0 <= i < n && batch[..n][i].id == id;
        assert batch[i].id == id;
      } else if id in EntryIds(batch) {
        assert batch[n].id == id;
      }
      if i :| 0 <= i < |batch| && batch[i].id == id {
        assert i < n ==> batch[..n][i].id == id;
      }
    }
  }

  /** Every entry loaded so far is either left for handling or out of the way. */
  ghost predicate Drained(r': Registry, left: nat, loaded: nat, e: Entry, ahead: nat) {
    left <= loaded <= ahead + left && Keyed(r') && Waits(r', e, ahead + left - loaded)
  }

  /** The entries left for handling are distinct, and still ahead of `e`. */
  ghost predicate Sourced(r': Registry, ps: seq<Pending>, batch: seq<Entry>, e: Entry) {
    && Distinct(ps)
    && (forall i :: 0 <= i < |ps| ==> ps[i].id in EntryIds(batch) && EntryAhead(r', ps[i], e))
  }

  lemma {:induction false} LoadDrains(r1: Registry, left: nat, loaded: nat, x: Entry, e: Entry, ahead: nat)
    requires Drained(r1, left, loaded, e, ahead) && x in r1.due && Less(x, e)
    ensures Drained(Loaded(r1, x.id).0, left + |Loaded(r1, x.id).1|, loaded + 1, e, ahead)
    ensures OthersKept(r1, Loaded(r1, x.id).0, {x.id})
  {
    WithoutOvertakes(r1, x, e, ahead + left - loaded);
    CancelledKeyed(r1, x.id);
  }

  lemma {:induction false} OthersStayAhead(r1: Registry, r2: Registry, p: Pending, x: Entry, e: Entry)
    requires EntryAhead(r1, p, e) && p.id != x.id && OthersKept(r1, r2, {x.id})
    ensures EntryAhead(r2, p, e)
  {
    var y :| y in r1.due && y.id == p.id && Less(y, e);
    assert y in r2.due;
  }

  lemma {:induction false} LoadSources(r1: Registry, ps: seq<Pending>, batch: seq<Entry>, x: Entry, e: Entry)
    requires Keyed(r1) && Sourced(r1, ps, batch, e) && x in r1.due && Less(x, e) && x.id !in EntryIds(batch)
    requires OthersKept(r1, Loaded(r1, x.id).0, {x.id})
    ensures Sourced(Loaded(r1, x.id).0, ps + Loaded(r1, x.id).1, batch + [x], e)
  {
    var l := Loaded(r1, x.id);
    assert (batch + [x])[..|batch|] == batch;
    forall i | 0 <= i < |ps| ensures ps[i].id != x.id && EntryAhead(l.0, ps[i], e) {
      OthersStayAhead(r1, l.0, ps[i], x, e);
    }
    if l.1 == [] {
      assert ps + l.1 == ps;
    } else {
      assert l.1[0].id == x.id && EntryAhead(l.0, l.1[0], e);
    }
  }

  lemma {:induction false} OthersKeptOn(r: Registry, r1: Registry, r2: Registry, batch: seq<Entry>, x: Entry)
    requires OthersKept(r, r1, EntryIds(batch)) && OthersKept(r1, r2, {x.id})
    ensures OthersKept(r, r2, EntryIds(batch + [x]))
  {
    assert (batch + [x])[..|batch|] == batch;
  }

  lemma {:induction false} LoadNext(r: Registry, r1: Registry, ps: seq<Pending>, batch: seq<Entry>, x: Entry, e: Entry, ahead: nat)
    requires Drained(r1, |ps|, |batch|, e, ahead) && Sourced(r1, ps, batch, e) && OthersKept(r, r1, EntryIds(batch))
    requires x in r.due && Less(x, e) && x.id !in EntryIds(batch)
    ensures var l := Loaded(r1, x.id);
      && Drained(l.0, |ps + l.1|, |batch + [x]|, e, ahead) && Sourced(l.0, ps + l.1, batch + [x], e)
      && OthersKept(r, l.0, EntryIds(batch + [x]))
  {
    assert x in r1.due;
    LoadDrains(r1, |ps|, |batch|, x, e, ahead);
    LoadSources(r1, ps, batch, x, e);
    OthersKeptOn(r, r1, Loaded(r1, x.id).0, batch, x);
  }

  lemma {:induction false} NewId(batch: seq<Entry>, n: nat)
    requires Ordered(batch) && n < |batch|
    ensures batch[n].id !in EntryIds(batch[..n])
  {
    EntryIdsMember(batch[..n], batch[n].id);
  }

  lemma {:induction false} LoadedSnoc(r: Registry, front: seq<Entry>, x: Entry)
    ensures var l := LoadedAll(r, front); var one := Loaded(l.0, x.id);
      LoadedAll(r, front + [x]) == (one.0, l.1 + one.1)
  {
    assert (front + [x])[..|front|] == front;
  }

  /** After loading `batch` from `r`. */
  ghost predicate LoadedWell(r: Registry, batch: seq<Entry>, e: Entry, ahead: nat) {
    var l := LoadedAll(r, batch);
    Drained(l.0, |l.1|, |batch|, e, ahead) && Sourced(l.0, l.1, batch, e) && OthersKept(r, l.0, EntryIds(batch))
  }

  lemma {:induction false} LoadsOneMore(r: Registry, front: seq<Entry>, x: Entry, e: Entry, ahead: nat)
    requires LoadedWell(r, front, e, ahead) && x in r.due && Less(x, e) && x.id !in EntryIds(front)
    ensures LoadedWell(r, front + [x], e, ahead)
  {
    var l := LoadedAll(r, front);
    LoadNext(r, l.0, l.1, front, x, e, ahead);
    LoadedSnoc(r, front, x);
  }

  lemma {:induction false} LoadAdvances(r: Registry, batch: seq<Entry>, e: Entry, ahead: nat, n: nat)
    requires Keyed(r) && Waits(r, e, ahead) && Ordered(batch) && n <= |batch|
    requires forall i :: 0 <= i < |batch| ==> batch[i] in r.due && Less(batch[i], e)
    ensures LoadedWell(r, batch[..n], e, ahead)
  {
    if n > 0 {
      LoadAdvances(r, batch, e, ahead, n - 1);
      NewId(batch, n - 1);
      assert batch[..n] == batch[..n - 1] + [batch[n - 1]];
      assert batch[n - 1] in r.due && Less(batch[n - 1], e);
      LoadsOneMore(r, batch[..n - 1], batch[n - 1], e, ahead);
    }
  }

  lemma {:induction false} PositionIsAhead(due: seq<Entry>, k: nat)
    requires Ordered(due) && k < |due|
    ensures Ahead(due, due[k]) == k
  {
    AheadAt(due, k, |due|);
    assert due[..|due|] == due;
  }

  lemma {:induction false} AheadAt(due: seq<Entry>, k: nat, n: nat)
    requires Ordered(due) && k < |due| && n <= |due|
    ensures Ahead(due[..n], due[k]) == if n <= k then n else k
  {
    if n > 0 {
      AheadAt(due, k, n - 1);
      assert due[..n][..n - 1] == due[..n - 1];
      assert n - 1 < k ==> Less(due[n - 1], due[k]);
      assert n - 1 > k ==> Less(due[k], due[n - 1]);
    }
  }

  lemma {:induction false} RetriesComeLater(now: nat, at: nat, e: Entry)
    requires now <= at && e.score <= Score(now)
    ensures Score(at + RETRY_INTERVAL) > e.score
  {
    assert (at + RETRY_INTERVAL) / SECOND >= now / SECOND + 120;
  }

  /** Entry number `k`, if due, is in the batch or behind a full one. */
  lemma {:induction false} BatchTakesOrFills(due: seq<Entry>, now: nat, k: nat)
    requires Ordered(due) && k < |due| && due[k].score <= Score(now)
    ensures var batch := Batch(due, now, BATCH_LIMIT);
      if k < BATCH_LIMIT then due[k] in batch
      else |batch| == BATCH_LIMIT && Ordered(batch) && forall i :: 0 <= i < |batch| ==> batch[i] in due && Less(batch[i], due[k])
  {
    BatchIsFront(due, now, BATCH_LIMIT);
    var batch := Batch(due, now, BATCH_LIMIT);
    if k < BATCH_LIMIT {
      assert batch[k] == due[k];
    } else {
      forall i | 0 <= i < |batch| ensures batch[i] in due && Less(batch[i], due[k]) {
        assert batch[i] == due[i];
      }
    }
  }

  lemma {:induction false} FullBatchMovesUp(r: Registry, batch: seq<Entry>, world: nat -> Outcome, at: nat, e: Entry, ahead: nat)
    requires Keyed(r) && Waits(r, e, ahead) && Ordered(batch)
    requires forall i :: 0 <= i < |batch| ==> batch[i] in r.due && Less(batch[i], e)
    requires Score(at + RETRY_INTERVAL) > e.score && forall id: nat :: !world(id).ListFailed?
    ensures var l := LoadedAll(r, batch);
      |batch| <= ahead && Waits(HandledAll(l.0, l.1, world, at), e, ahead - |batch|)
  {
    LoadAdvances(r, batch, e, ahead, |batch|);
    assert batch[..|batch|] == batch;
    var l := LoadedAll(r, batch);
    HandleAdvances(l.0, l.1, world, at, e, ahead + |l.1| - |batch|);
  }

  /** A due entry is in the batch, or the sweep takes the 32 entries first in line out of its way. */
  lemma {:induction false} SweepMovesUp(r: Registry, now: nat, world: nat -> Outcome, at: nat, e: Entry)
    requires Keyed(r) && e in r.due && e.score <= Score(now) && now <= at && forall id: nat :: !world(id).ListFailed?
    ensures var ahead := Ahead(r.due, e);
      if ahead < BATCH_LIMIT then e in Batch(r.due, now, BATCH_LIMIT)
      else Waits(Sweep(r, now, world, at), e, ahead - BATCH_LIMIT)
  {
    var k :| 0 <= k < |r.due| && r.due[k] == e;
    PositionIsAhead(r.due, k);
    BatchTakesOrFills(r.due, now, k);
    if k >= BATCH_LIMIT {
      RetriesComeLater(now, at, e);
      FullBatchMovesUp(r, Batch(r.due, now, BATCH_LIMIT), world, at, e, k);
    }
  }

  /** Sweeps at increasing times: `regs[i]` is the registry before sweep `i`. */
  datatype Sweeps = Sweeps(regs: seq<Registry>, nows: seq<nat>, worlds: seq<nat -> Outcome>, ats: seq<nat>) {
    ghost predicate Valid(e: Entry) {
      && |regs| == |nows| == |worlds| == |ats|
      && forall i :: 0 <= i < |regs| ==>
           Keyed(regs[i]) && e.score <= Score(nows[i]) && nows[i] <= ats[i] && forall id: nat :: !worlds[i](id).ListFailed?
    }

    function After(i: nat): Registry
      requires i < |regs| == |nows| == |worlds| == |ats|
    {
      Sweep(regs[i], nows[i], worlds[i], ats[i])
    }

    /** Sweep `i` takes `e`. */
    ghost predicate Takes(i: nat, e: Entry)
      requires i < |regs| == |nows|
    {
      e in Batch(regs[i].due, nows[i], BATCH_LIMIT)
    }

    /** Between sweeps `e` stays where it is, and nothing is put before it. */
    ghost predicate NoEarlierArrivals(e: Entry)
      requires Valid(e)
    {
      forall i :: 0 <= i < |regs| - 1 && e in After(i).due ==>
        e in regs[i + 1].due && Ahead(regs[i + 1].due, e) <= Ahead(After(i).due, e)
    }
  }

  lemma {:induction false} StillWaiting(s: Sweeps, e: Entry, n: nat)
    requires s.Valid(e) && s.NoEarlierArrivals(e) && n < |s.regs| && e in s.regs[0].due
    ensures (exists i :: 0 <= i < n && s.Takes(i, e))
      || (e in s.regs[n].due && Ahead(s.regs[n].due, e) + BATCH_LIMIT * n <= Ahead(s.regs[0].due, e))
  {
    if n > 0 {
      StillWaiting(s, e, n - 1);
      if !exists i :: 0 <= i < n && s.Takes(i, e) {
        assert !s.Takes(n - 1, e);
        SweepMovesUp(s.regs[n - 1], s.nows[n - 1], s.worlds[n - 1], s.ats[n - 1], e);
        assert e in s.After(n - 1).due;
      }
    }
  }

  /** A due entry with `rank` entries before it is taken within rank / 32 + 1 sweeps. */
  lemma {:induction false} HandledInTime(s: Sweeps, e: Entry)
    requires s.Valid(e) && s.regs != [] && s.NoEarlierArrivals(e) && e in s.regs[0].due
    requires |s.regs| == Ahead(s.regs[0].due, e) / BATCH_LIMIT + 1
    ensures exists i :: 0 <= i < |s.regs| && s.Takes(i, e)
  {
    var n := |s.regs| - 1;
    StillWaiting(s, e, n);
    if e in s.regs[n].due && Ahead(s.regs[n].due, e) < BATCH_LIMIT {
      SweepMovesUp(s.regs[n], s.nows[n], s.worlds[n], s.ats[n], e);
      assert s.Takes(n, e);
    }
  }
}
