/** What the watchdog's sweeps do to one stream: its failures are counted, it is given up after five, and nobody else is
touched. And this is what the watchdog of `AssemblyTriggers` does. */
module WatchdogRefines {
  import opened AssemblyRegistry
  import opened AssemblyWatchdog
  import T = AssemblyTriggers

  ghost predicate InSet(r: Registry, id: nat) {
    exists x :: x in r.due && x.id == id
  }

  /** The stream has this detail and is in the set. */
  ghost predicate Owed(r: Registry, id: nat, p: Pending) {
    InSet(r, id) && id in r.details && r.details[id] == Readable(p)
  }

  /** Nothing is left of it. */
  ghost predicate Gone(r: Registry, id: nat) {
    !InSet(r, id) && id !in r.details
  }

  /** The stream is as it was. */
  ghost predicate SameFor(r: Registry, r': Registry, id: nat) {
    && (InSet(r', id) <==> InSet(r, id)) && (id in r'.details <==> id in r.details)
    && (id in r.details ==> r'.details[id] == r.details[id])
  }

  // ---- The registry's calls, seen from one stream ----

  lemma {:induction false} ScheduledFor(r: Registry, p: Pending, id: nat)
    ensures if id == p.id then Owed(Scheduled(r, p), id, p) else SameFor(r, Scheduled(r, p), id)
  {
    var e := Entry(Score(p.dueAt), p.id);
    WithoutMembers(r.due, p.id);
    InsertMembers(Without(r.due, p.id), e);
    if id == p.id {
      assert e in Scheduled(r, p).due;
    } else {
      SameMembers(r, Scheduled(r, p), id);
    }
  }

  lemma {:induction false} SameMembers(r: Registry, r': Registry, id: nat)
    requires forall x: Entry :: x.id == id ==> (x in r'.due <==> x in r.due)
    ensures InSet(r', id) <==> InSet(r, id)
  {
  }

  lemma {:induction false} CancelledFor(r: Registry, gone: nat, id: nat)
    ensures if id == gone then Gone(Cancelled(r, gone), id) else SameFor(r, Cancelled(r, gone), id)
    ensures var dropped := r.(due := Without(r.due, gone));
      if id == gone then !InSet(dropped, id) else SameFor(r, dropped, id)
  {
    WithoutMembers(r.due, gone);
    if id != gone {
      SameMembers(r, Cancelled(r, gone), id);
      SameMembers(r, r.(due := Without(r.due, gone)), id);
    }
  }

  /** What becomes of a stream that is handled with detail `p`. */
  ghost predicate Treated(r: Registry, r': Registry, p: Pending, outcome: Outcome, at: nat) {
    match outcome
    case ListFailed => SameFor(r, r', p.id)
    case NoSegments => Gone(r', p.id)
    case Assembled => Gone(r', p.id)
    case Failed =>
      if p.attempts >= 4 then Gone(r', p.id)
      else Owed(r', p.id, p.(attempts := p.attempts + 1, dueAt := at + 120 * SECOND))
  }

  lemma {:induction false} HandledFor(r: Registry, p: Pending, outcome: Outcome, at: nat, id: nat)
    ensures var r' := Handled(r, p, outcome, at); if id == p.id then Treated(r, r', p, outcome, at) else SameFor(r, r', id)
  {
    CancelledFor(r, p.id, id);
    ScheduledFor(r, p.(attempts := p.attempts + 1, dueAt := at + RETRY_INTERVAL), id);
  }

  lemma {:induction false} SameForTwice(a: Registry, b: Registry, c: Registry, id: nat)
    requires SameFor(a, b, id) && SameFor(b, c, id)
    ensures SameFor(a, c, id)
  {
  }

  ghost predicate Names(ps: seq<Pending>, id: nat) {
    exists i :: 0 <= i < |ps| && ps[i].id == id
  }

  lemma {:induction false} HandledAllOthers(r: Registry, ps: seq<Pending>, world: nat -> Outcome, at: nat, id: nat)
    requires !Names(ps, id)
    ensures SameFor(r, HandledAll(r, ps, world, at), id)
  {
    if ps != [] {
      var n := |ps| - 1;
      assert !Names(ps[..n], id) && ps[n].id != id;
      HandledAllOthers(r, ps[..n], world, at, id);
      HandledFor(HandledAll(r, ps[..n], world, at), ps[n], world(ps[n].id), at, id);
      SameForTwice(r, HandledAll(r, ps[..n], world, at), HandledAll(r, ps, world, at), id);
    }
  }

  lemma {:induction false} TreatedAfter(r: Registry, before: Registry, after: Registry, p: Pending, outcome: Outcome, at: nat)
    requires SameFor(r, before, p.id) && Treated(before, after, p, outcome, at)
    ensures Treated(r, after, p, outcome, at)
  {
  }

  lemma {:induction false} TreatedThen(r: Registry, before: Registry, after: Registry, p: Pending, outcome: Outcome, at: nat)
    requires Treated(r, before, p, outcome, at) && SameFor(before, after, p.id)
    ensures Treated(r, after, p, outcome, at)
  {
  }

  /** The one that carries the stream is what counts. */
  lemma {:induction false} HandledAllFor(r: Registry, ps: seq<Pending>, world: nat -> Outcome, at: nat, i: nat)
    requires Distinct(ps) && i < |ps|
    ensures Treated(r, HandledAll(r, ps, world, at), ps[i], world(ps[i].id), at)
  {
    var n := |ps| - 1;
    var before := HandledAll(r, ps[..n], world, at);
    HandledFor(before, ps[n], world(ps[n].id), at, ps[i].id);
    if i < n {
      HandledAllFor(r, ps[..n], world, at, i);
      assert ps[n].id != ps[i].id;
      TreatedThen(r, before, HandledAll(r, ps, world, at), ps[i], world(ps[i].id), at);
    } else {
      assert !Names(ps[..n], ps[n].id);
      HandledAllOthers(r, ps[..n], world, at, ps[n].id);
      TreatedAfter(r, before, HandledAll(r, ps, world, at), ps[n], world(ps[n].id), at);
    }
  }

  // ---- Loading a batch ----

  ghost predicate InBatch(batch: seq<Entry>, id: nat) {
    exists k :: 0 <= k < |batch| && batch[k].id == id
  }

  /** The detail of the stream, if it can be read. */
  ghost predicate HasDetail(r: Registry, id: nat, p: Pending) {
    id in r.details && r.details[id] == Readable(p)
  }

  ghost predicate Detailed(r: Registry, id: nat) {
    id in r.details && r.details[id].Readable?
  }

  lemma {:induction false} LoadedOther(r: Registry, loaded: nat, id: nat)
    requires Keyed(r) && id != loaded
    ensures SameFor(r, Loaded(r, loaded).0, id) && !Names(Loaded(r, loaded).1, id)
  {
    CancelledFor(r, loaded, id);
  }

  lemma {:induction false} NamesBoth(a: seq<Pending>, b: seq<Pending>, id: nat)
    ensures Names(a + b, id) <==> Names(a, id) || Names(b, id)
  {
    if i :| 0 <= i < |a| && a[i].id == id {
      assert (a + b)[i].id == id;
    }
    if i :| 0 <= i < |b| && b[i].id == id {
      assert (a + b)[|a| + i].id == id;
    }
  }

  lemma {:induction false} LoadedAllOther(r: Registry, batch: seq<Entry>, id: nat)
    requires Keyed(r) && !InBatch(batch, id)
    ensures SameFor(r, LoadedAll(r, batch).0, id) && !Names(LoadedAll(r, batch).1, id)
  {
    if batch != [] {
      var n := |batch| - 1;
      var before := LoadedAll(r, batch[..n]);
      assert !InBatch(batch[..n], id) && batch[n].id != id;
      LoadedAllOther(r, batch[..n], id);
      LoadedAllKeyed(r, batch[..n]);
      LoadedOther(before.0, batch[n].id, id);
      SameForTwice(r, before.0, LoadedAll(r, batch).0, id);
      NamesBoth(before.1, Loaded(before.0, batch[n].id).1, id);
    }
  }

  ghost predicate DistinctIds(batch: seq<Entry>) {
    forall i, j :: 0 <= i < j < |batch| ==> batch[i].id != batch[j].id
  }

  lemma {:induction false} DistinctMore(ps: seq<Pending>, more: seq<Pending>)
    requires Distinct(ps) && |more| <= 1 && (more != [] ==> !Names(ps, more[0].id))
    ensures Distinct(ps + more)
  {
  }

  lemma {:induction false} LoadedDistinct(r: Registry, batch: seq<Entry>)
    requires Keyed(r) && DistinctIds(batch)
    ensures Distinct(LoadedAll(r, batch).1)
  {
    if batch != [] {
      var n := |batch| - 1;
      var before := LoadedAll(r, batch[..n]);
      LoadedDistinct(r, batch[..n]);
      LoadedAllKeyed(r, batch[..n]);
      LoadedAllOther(r, batch[..n], batch[n].id);
      DistinctMore(before.1, Loaded(before.0, batch[n].id).1);
    }
  }

  /** What loading does to a stream of the batch: it is handed over once with its detail, or dropped for want of one. */
  ghost predicate HandedOver(r: Registry, l: (Registry, seq<Pending>), id: nat) {
    if Detailed(r, id) then SameFor(r, l.0, id) && r.details[id].pending in l.1
    else Gone(l.0, id) && !Names(l.1, id)
  }

  lemma {:induction false} LoadedSelf(r: Registry, id: nat)
    ensures HandedOver(r, Loaded(r, id), id)
  {
    CancelledFor(r, id, id);
  }

  lemma {:induction false} HandedOverLater(r: Registry, front: (Registry, seq<Pending>), one: (Registry, seq<Pending>), id: nat)
    requires HandedOver(r, front, id) && SameFor(front.0, one.0, id) && !Names(one.1, id)
    ensures HandedOver(r, (one.0, front.1 + one.1), id)
  {
    NamesBoth(front.1, one.1, id);
  }

  lemma {:induction false} HandedOverNow(r: Registry, front: (Registry, seq<Pending>), one: (Registry, seq<Pending>), id: nat)
    requires SameFor(r, front.0, id) && !Names(front.1, id) && HandedOver(front.0, one, id)
    ensures HandedOver(r, (one.0, front.1 + one.1), id)
  {
    NamesBoth(front.1, one.1, id);
  }

  lemma {:induction false} LoadedAllFor(r: Registry, batch: seq<Entry>, k: nat)
    requires Keyed(r) && DistinctIds(batch) && k < |batch|
    ensures HandedOver(r, LoadedAll(r, batch), batch[k].id)
  {
    var n := |batch| - 1;
    var before, id := LoadedAll(r, batch[..n]), batch[k].id;
    LoadedAllKeyed(r, batch[..n]);
    if k < n {
      LoadedAllFor(r, batch[..n], k);
      LoadedOther(before.0, batch[n].id, id);
      HandedOverLater(r, before, Loaded(before.0, batch[n].id), id);
    } else {
      LoadedAllOther(r, batch[..n], id);
      LoadedSelf(before.0, id);
      HandedOverNow(r, before, Loaded(before.0, id), id);
    }
  }

  // ---- A sweep, seen from one stream ----

  /** A sweep at `now` takes the stream. */
  ghost predicate Takes(r: Registry, now: nat, id: nat) {
    InBatch(Batch(r.due, now, BATCH_LIMIT), id)
  }

  lemma {:induction false} BatchDistinct(r: Registry, now: nat)
    requires Keyed(r)
    ensures DistinctIds(Batch(r.due, now, BATCH_LIMIT))
  {
    BatchIsFront(r.due, now, BATCH_LIMIT);
  }

  lemma {:induction false} OwnId(r: Registry, id: nat)
    requires Keyed(r) && Detailed(r, id)
    ensures r.details[id].pending.id == id
  {
  }

  lemma {:induction false} TreatedInSweep(r: Registry, l: (Registry, seq<Pending>), world: nat -> Outcome, at: nat, id: nat, p: Pending)
    requires HandedOver(r, l, id) && HasDetail(r, id, p) && p.id == id && Distinct(l.1)
    ensures Treated(r, HandledAll(l.0, l.1, world, at), p, world(id), at)
  {
    var i :| 0 <= i < |l.1| && l.1[i] == p;
    HandledAllFor(l.0, l.1, world, at, i);
    TreatedAfter(r, l.0, HandledAll(l.0, l.1, world, at), p, world(id), at);
  }

  /** A stream that a sweep does not take stays as it is; one that it takes is treated by its own outcome, or dropped for
      want of a readable detail. */
  lemma {:induction false} SweepFor(r: Registry, now: nat, world: nat -> Outcome, at: nat, id: nat)
    requires Keyed(r)
    ensures var r' := Sweep(r, now, world, at);
      if !Takes(r, now, id) then SameFor(r, r', id)
      else if Detailed(r, id) then Treated(r, r', r.details[id].pending, world(id), at)
      else Gone(r', id)
  {
    var batch := Batch(r.due, now, BATCH_LIMIT);
    var l := LoadedAll(r, batch);
    BatchDistinct(r, now);
    LoadedDistinct(r, batch);
    if !Takes(r, now, id) {
      LoadedAllOther(r, batch, id);
      HandledAllOthers(l.0, l.1, world, at, id);
      SameForTwice(r, l.0, HandledAll(l.0, l.1, world, at), id);
    } else {
      var k :| 0 <= k < |batch| && batch[k].id == id;
      LoadedAllFor(r, batch, k);
      if Detailed(r, id) {
        OwnId(r, id);
        TreatedInSweep(r, l, world, at, id, r.details[id].pending);
      } else {
        HandledAllOthers(l.0, l.1, world, at, id);
      }
    }
  }

  // ---- Failures are counted ----

  datatype Round = Round(now: nat, world: nat -> Outcome, at: nat)

  /** After the first `n` sweeps. */
  function Swept(r: Registry, rounds: seq<Round>, n: nat): Registry
    requires n <= |rounds|
  {
    if n == 0 then r else Sweep(Swept(r, rounds, n - 1), rounds[n - 1].now, rounds[n - 1].world, rounds[n - 1].at)
  }

  lemma {:induction false} SweptKeyed(r: Registry, rounds: seq<Round>, n: nat)
    requires Keyed(r) && n <= |rounds|
    ensures Keyed(Swept(r, rounds, n))
  {
    if n > 0 {
      SweptKeyed(r, rounds, n - 1);
      SweepKeyed(Swept(r, rounds, n - 1), rounds[n - 1].now, rounds[n - 1].world, rounds[n - 1].at);
    }
  }

  /** Each of the first `n` sweeps takes the stream, and its assembly fails. */
  ghost predicate AllFail(r: Registry, rounds: seq<Round>, n: nat, id: nat)
    requires n <= |rounds|
  {
    forall i :: 0 <= i < n ==> FailsAt(r, rounds, i, id)
  }

  ghost predicate FailsAt(r: Registry, rounds: seq<Round>, i: nat, id: nat)
    requires i < |rounds|
  {
    Takes(Swept(r, rounds, i), rounds[i].now, id) && rounds[i].world(id).Failed?
  }

  /** The detail after `n` failures. */
  function Retried(p: Pending, rounds: seq<Round>, n: nat): Pending
    requires n <= |rounds|
  {
    if n == 0 then p else p.(attempts := p.attempts + n, dueAt := rounds[n - 1].at + 120 * SECOND)
  }

  lemma {:induction false} TakenIsInSet(r: Registry, now: nat, id: nat)
    requires Takes(r, now, id)
    ensures InSet(r, id)
  {
    BatchIsFront(r.due, now, BATCH_LIMIT);
    var batch := Batch(r.due, now, BATCH_LIMIT);
    var k :| 0 <= k < |batch| && batch[k].id == id;
    assert batch[k] == r.due[k] && r.due[k] in r.due;
  }

  lemma {:induction false} FailureCounted(r: Registry, now: nat, world: nat -> Outcome, at: nat, id: nat, p: Pending)
    requires Keyed(r) && Owed(r, id, p) && Takes(r, now, id) && world(id).Failed?
    ensures var r' := Sweep(r, now, world, at);
      if p.attempts >= 4 then Gone(r', id) else Owed(r', id, p.(attempts := p.attempts + 1, dueAt := at + 120 * SECOND))
  {
    OwnId(r, id);
    SweepFor(r, now, world, at, id);
  }

  /** `n` failures after the detail was `p`. */
  ghost predicate AfterFailures(r: Registry, id: nat, p: Pending, rounds: seq<Round>, n: nat)
    requires n <= |rounds|
  {
    p.attempts + n <= 5 && if p.attempts + n < 5 then Owed(r, id, Retried(p, rounds, n)) else Gone(r, id)
  }

  lemma {:induction false} OneFailureMore(r: Registry, id: nat, p: Pending, rounds: seq<Round>, n: nat)
    requires n < |rounds| && Keyed(r) && AfterFailures(r, id, p, rounds, n)
    requires Takes(r, rounds[n].now, id) && rounds[n].world(id).Failed?
    ensures AfterFailures(Sweep(r, rounds[n].now, rounds[n].world, rounds[n].at), id, p, rounds, n + 1)
  {
    TakenIsInSet(r, rounds[n].now, id);
    FailureCounted(r, rounds[n].now, rounds[n].world, rounds[n].at, id, Retried(p, rounds, n));
  }

  /** A stream due with at most four failures so far: every further sweep that takes it and fails adds one to its detail
      and makes it due again 120 s later, until the one that makes five leaves nothing of it. */
  lemma {:induction false} FailuresCounted(r: Registry, rounds: seq<Round>, n: nat, id: nat, p: Pending)
    requires Keyed(r) && Owed(r, id, p) && p.attempts < 5 && n <= |rounds| && AllFail(r, rounds, n, id)
    ensures AfterFailures(Swept(r, rounds, n), id, p, rounds, n)
  {
    if n > 0 {
      FailuresCounted(r, rounds, n - 1, id, p);
      SweptKeyed(r, rounds, n - 1);
      assert FailsAt(r, rounds, n - 1, id);
      OneFailureMore(Swept(r, rounds, n - 1), id, p, rounds, n - 1);
    }
  }

  /** One sweep that takes a stream and assembles it, or finds no segments, leaves nothing of it. */
  lemma {:induction false} SettledIsGone(r: Registry, now: nat, world: nat -> Outcome, at: nat, id: nat)
    requires Keyed(r) && Takes(r, now, id) && (world(id).Assembled? || world(id).NoSegments?)
    ensures Gone(Sweep(r, now, world, at), id)
  {
    SweepFor(r, now, world, at, id);
    if Detailed(r, id) {
      OwnId(r, id);
    }
  }

  // ---- The watchdog of the interleavings ----

  /** The registry holds for the stream what `store` says. */
  ghost predicate SeenAs(r: Registry, id: nat, store: T.Store) {
    && (store.inSet <==> InSet(r, id))
    && (store.detail.Missing? <==> id !in r.details)
    && (store.detail.Undecodable? <==> id in r.details && r.details[id].Undecodable?)
    && (store.detail.Readable? ==> Detailed(r, id) && r.details[id].pending.attempts == store.detail.attempts)
  }

  /** A watchdog's steps, while the foreign calls in them answer `oks`. */
  function Acting(w: T.World, actor: T.Actor, head: nat, made: bool, oks: seq<bool>): (T.World, T.Actor)
    decreases oks
  {
    if oks == [] then (w, actor) else
      var next := T.Act(w, actor, head, oks[0], made);
      Acting(next.0, next.1, head, made, oks[1..])
  }

  /** The answers that make the outcome: the listing, entering the assembler, its run, and what is written afterwards. */
  function Answers(outcome: Outcome, attempts: nat, inFlight: bool): seq<bool> {
    match outcome
    case ListFailed => [false]
    case NoSegments => [true, true]
    case Assembled => if inFlight then [true, true, true] else [true, true, true, true]
    case Failed => if attempts + 1 >= T.MAX_ATTEMPTS then [true, true, false, true, true] else [true, true, false, true]
  }

  /** The outcome is one that handling the stream in this store can have; meeting another run in flight is a success. */
  ghost predicate Fits(outcome: Outcome, store: T.Store) {
    match outcome
    case ListFailed => true
    case NoSegments => !store.segments
    case Assembled => store.segments
    case Failed => store.segments && !store.inFlight
  }

  /** What a watchdog's steps leave behind, from reading the entry to being idle again. */
  ghost predicate Left(w: T.World, w': T.World, attempts: nat, outcome: Outcome) {
    && (w'.past.failures == w.past.failures + if outcome.Failed? then 1 else 0)
    && match outcome
       case ListFailed => w' == w
       case NoSegments => w'.store.inSet == false && w'.store.detail.Missing?
       case Assembled => w'.store.inSet == false && w'.store.detail.Missing? && (w.store.inFlight || w'.store.recording)
       case Failed =>
         if attempts >= 4 then w'.store.inSet == false && w'.store.detail.Missing?
         else w'.store.inSet && w'.store.detail == T.Readable(attempts + 1)
  }

  lemma {:induction false} ActingOnce(w: T.World, actor: T.Actor, head: nat, made: bool, ok: bool, rest: seq<bool>, oks: seq<bool>)
    requires oks == [ok] + rest
    ensures var next := T.Act(w, actor, head, ok, made);
      Acting(w, actor, head, made, oks) == Acting(next.0, next.1, head, made, rest)
  {
    assert oks[1..] == rest;
  }

  lemma {:induction false} ActingTwice(w: T.World, actor: T.Actor, head: nat, made: bool, one: bool, two: bool, rest: seq<bool>, oks: seq<bool>)
    requires oks == [one, two] + rest
    ensures var next := T.Act(w, actor, head, one, made); var after := T.Act(next.0, next.1, head, two, made);
      Acting(w, actor, head, made, oks) == Acting(after.0, after.1, head, made, rest)
  {
    var next := T.Act(w, actor, head, one, made);
    ActingOnce(w, actor, head, made, one, [two] + rest, oks);
    ActingOnce(next.0, next.1, head, made, two, rest, [two] + rest);
  }

  lemma {:induction false} ActsLeave(w: T.World, attempts: nat, outcome: Outcome, head: nat, made: bool)
    requires Fits(outcome, w.store)
    ensures var end := Acting(w, T.Read(attempts), head, made, Answers(outcome, attempts, w.store.inFlight));
      end.1.Idle? && Left(w, end.0, attempts, outcome)
  {
    var oks := Answers(outcome, attempts, w.store.inFlight);
    match outcome {
      case ListFailed => ActingOnce(w, T.Read(attempts), head, made, false, [], oks);
      case NoSegments => ActingTwice(w, T.Read(attempts), head, made, true, true, [], oks);
      case _ =>
        var entered := T.Enter(w, T.Attempting(attempts), T.Removing(T.Overlapped, true));
        ActingTwice(w, T.Read(attempts), head, made, true, true, oks[2..], oks);
        if w.store.inFlight {
          ActingOnce(entered.0, entered.1, head, made, true, [], [true]);
        } else {
          AttemptLeaves(w, attempts, outcome, head, made);
        }
    }
  }

  lemma {:induction false} AttemptLeaves(w: T.World, attempts: nat, outcome: Outcome, head: nat, made: bool)
    requires Fits(outcome, w.store) && !w.store.inFlight && (outcome.Assembled? || outcome.Failed?)
    ensures var entered := T.Enter(w, T.Attempting(attempts), T.Removing(T.Overlapped, true));
      var end := Acting(entered.0, entered.1, head, made, Answers(outcome, attempts, false)[2..]);
      end.1.Idle? && Left(w, end.0, attempts, outcome)
  {
    var entered := T.Enter(w, T.Attempting(attempts), T.Removing(T.Overlapped, true));
    var oks := Answers(outcome, attempts, false)[2..];
    ActingTwice(entered.0, entered.1, head, made, oks[0], true, oks[2..], oks);
    if |oks| == 3 {
      var ran := T.Act(entered.0, entered.1, head, oks[0], made);
      var gaveUp := T.Act(ran.0, ran.1, head, true, made);
      ActingOnce(gaveUp.0, gaveUp.1, head, made, true, [], oks[2..]);
    }
  }

  lemma {:induction false} TreatedRefines(r: Registry, r': Registry, p: Pending, outcome: Outcome, at: nat, w: T.World, w': T.World)
    requires SeenAs(r, p.id, w.store) && Treated(r, r', p, outcome, at) && Left(w, w', p.attempts, outcome)
    ensures SeenAs(r', p.id, w'.store)
  {
  }

  /** Handling an entry is the watchdog's steps from the copy it read to being idle again. */
  lemma {:induction false} HandleRefines(r: Registry, p: Pending, outcome: Outcome, at: nat, w: T.World, head: nat, made: bool)
    requires SeenAs(r, p.id, w.store) && Fits(outcome, w.store)
    ensures var end := Acting(w, T.Read(p.attempts), head, made, Answers(outcome, p.attempts, w.store.inFlight));
      end.1.Idle? && SeenAs(Handled(r, p, outcome, at), p.id, end.0.store)
  {
    HandledFor(r, p, outcome, at, p.id);
    ActsLeave(w, p.attempts, outcome, head, made);
    TreatedRefines(r, Handled(r, p, outcome, at), p, outcome, at, w,
                   Acting(w, T.Read(p.attempts), head, made, Answers(outcome, p.attempts, w.store.inFlight)).0);
  }

  /** Scheduling a stream anew is an arming. */
  lemma {:induction false} ScheduleRefines(r: Registry, p: Pending, w: T.World, head: nat)
    requires p.attempts == 0
    ensures SeenAs(Scheduled(r, p), p.id, T.Arm(w, head).store)
  {
    ScheduledFor(r, p, p.id);
  }

  /** The answers of a whole sweep that takes the stream. */
  function SweepAnswers(store: T.Store, outcome: Outcome): seq<bool> {
    if store.detail.Readable? then [true] + Answers(outcome, store.detail.attempts, store.inFlight) else [true]
  }

  lemma {:induction false} FirstStep(w: T.World, head: nat, made: bool)
    requires w.store.inSet
    ensures var next := T.Act(w, T.Idle, head, true, made);
      if w.store.detail.Readable? then next == (w, T.Read(w.store.detail.attempts))
      else next.1.Idle? && !next.0.store.inSet && next.0.store.detail.Missing?
  {
  }

  /** A sweep that takes the stream is the idle watchdog's steps until it is idle again; one that does not, none. */
  lemma {:induction false} SweepRefines(r: Registry, now: nat, world: nat -> Outcome, at: nat, id: nat, w: T.World, head: nat, made: bool)
    requires Keyed(r) && SeenAs(r, id, w.store) && Fits(world(id), w.store)
    ensures var end := Acting(w, T.Idle, head, made, if Takes(r, now, id) then SweepAnswers(w.store, world(id)) else []);
      end.1.Idle? && SeenAs(Sweep(r, now, world, at), id, end.0.store)
  {
    SweepFor(r, now, world, at, id);
    if Takes(r, now, id) {
      TakenIsInSet(r, now, id);
      FirstStep(w, head, made);
      if w.store.detail.Readable? {
        OwnId(r, id);
        var a := w.store.detail.attempts;
        ActingOnce(w, T.Idle, head, made, true, Answers(world(id), a, w.store.inFlight), SweepAnswers(w.store, world(id)));
        ActsLeave(w, a, world(id), head, made);
        TreatedRefines(r, Sweep(r, now, world, at), r.details[id].pending, world(id), at, w,
                       Acting(w, T.Read(a), head, made, Answers(world(id), a, w.store.inFlight)).0);
      } else {
        ActingOnce(w, T.Idle, head, made, true, [], [true]);
      }
    }
  }
}
