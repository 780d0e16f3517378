/** One stream between its segments and its recording: the watchdog, `OnStreamEnded`, `/complete`, queued requests and
re-arming, in every interleaving and with every Redis call, upload and publication free to fail. */
module AssemblyTriggers {

  const MAX_ATTEMPTS := 5

  datatype Detail = Missing | Undecodable | Readable(attempts: nat)

  datatype Reason = Empty | Overlapped | Recorded | GaveUp | Queued

  datatype Actor =
    // the watchdog, holding a copy of the entry with `attempts` failures so far
    | Idle
    | Read(attempts: nat)
    | Listed(attempts: nat)
    | Attempting(attempts: nat)
    | Failing(attempts: nat)
    // OnStreamEnded
    | Ended
    | EndedComplete
    | EndedRunning
    | EndedWaiting
    // POST /complete
    | Completing
    | Publishing
    // a queued assembly request
    | Requested
    | RequestRunning
    // about to take the stream off the due-set
    | Removing(reason: Reason, watchdog: bool)
    | Done

  /** The stream's keys, its recording, and the in-flight guard. */
  datatype Store = Store(armed: bool, inSet: bool, detail: Detail, segments: bool, complete: bool, recording: bool, queued: bool, inFlight: bool)

  /** What has happened: `overlapped`, that a run found another one in flight; `empty`, that a listing found no segment;
      `lost`, that the detail or the whole set expired or was spoilt. `sinceArm` counts the failed watchdog attempts since
      the stream was last armed from outside, `missed` the reschedules and the removals after giving up that Redis refused
      since then, `head` the failures on the copy that a watchdog held at that moment. */
  datatype History = History(failures: nat, sinceArm: nat, missed: nat, head: nat, overlapped: bool, empty: bool, lost: bool)

  datatype World = World(store: Store, past: History)

  datatype Stream = Stream(world: World, actors: seq<Actor>)

  /** The failures that whoever handles a copy of the entry will count on from. */
  function Charge(actor: Actor): nat {
    match actor
    case Read(a) => a
    case Listed(a) => a
    case Attempting(a) => a
    case Failing(a) => a + 1
    case Removing(GaveUp, _) => MAX_ATTEMPTS
    case _ => 0
  }

  function Charged(actors: seq<Actor>): nat {
    if actors == [] then 0 else
      var before, last := Charged(actors[..|actors| - 1]), Charge(actors[|actors| - 1]);
      if before < last then last else before
  }

  function Arm(w: World, head: nat): World {
    World(w.store.(armed := true, inSet := true, detail := Readable(0)), w.past.(sinceArm := 0, missed := 0, head := head))
  }

  /** Entering `assemble`: a run in flight makes it return at once, without error. */
  function Enter(w: World, running: Actor, otherwise: Actor): (World, Actor) {
    if w.store.inFlight then (w.(past := w.past.(overlapped := true)), otherwise)
    else (w.(store := w.store.(inFlight := true)), running)
  }

  /** Leaving it: success means the recording is there; a failed run may have left one too. */
  function Leave(w: World, ok: bool, made: bool): World {
    w.(store := w.store.(inFlight := false, recording := w.store.recording || ok || made))
  }

  function Removed(w: World): World {
    w.(store := w.store.(inSet := false, detail := Missing))
  }

  function Missed(w: World): World {
    w.(past := w.past.(missed := w.past.missed + 1))
  }

  /** One actor's next step; `ok` and `made` are what the foreign calls in it answer, `head` what an arming is charged. */
  function Act(w: World, actor: Actor, head: nat, ok: bool, made: bool): (World, Actor) {
    match actor
    case Idle =>
      if !ok || !w.store.inSet then (w, Idle)
      else if w.store.detail.Missing? then (w.(store := w.store.(inSet := false)), Idle)
      else if w.store.detail.Undecodable? then (Removed(w), Idle)
      else (w, Read(w.store.detail.attempts))
    case Read(a) =>
      if !ok then (w, Idle)
      else if w.store.segments then (w, Listed(a))
      else (w.(past := w.past.(empty := true)), Removing(Empty, true))
    case Listed(a) => Enter(w, Attempting(a), Removing(Overlapped, true))
    case Attempting(a) =>
      var w' := Leave(w, ok, made);
      if ok then (w', Removing(Recorded, true))
      else (w'.(past := w'.past.(failures := w'.past.failures + 1, sinceArm := w'.past.sinceArm + 1)), Failing(a))
    case Failing(a) =>
      if a + 1 >= MAX_ATTEMPTS then (w, Removing(GaveUp, true))
      else if ok then (w.(store := w.store.(inSet := true, detail := Readable(a + 1))), Idle)
      else (Missed(w), Idle)
    case Ended => if !ok then (w, Ended) else if w.store.complete then (w, EndedComplete) else (w, EndedWaiting)
    case EndedComplete => Enter(w, EndedRunning, Removing(Overlapped, false))
    case EndedRunning => (Leave(w, ok, made), if ok then Removing(Recorded, false) else Ended)
    case EndedWaiting => if ok then (Arm(w, head), Done) else (w, Ended)
    case Completing => if ok then (w.(store := w.store.(complete := true)), Publishing) else (w, Done)
    case Publishing => if ok then (w.(store := w.store.(queued := true)), Removing(Queued, false)) else (w, Done)
    case Requested => Enter(w, RequestRunning, Done)
    case RequestRunning => (Leave(w, ok, made), if ok then Done else Requested)
    case Removing(reason, watchdog) =>
      (if ok then Removed(w) else if reason.GaveUp? then Missed(w) else w, if watchdog then Idle else Done)
    case Done => (w, Done)
  }

  datatype Turn = Arms | SegmentArrives | SegmentsExpire | DetailExpires | DetailSpoils | SetExpires | Acts(i: nat, ok: bool, made: bool)

  function Outside(w: World, turn: Turn, head: nat): World {
    match turn
    case Arms => Arm(w, head)
    case SegmentArrives => w.(store := w.store.(segments := true))
    case SegmentsExpire => w.(store := w.store.(segments := false))
    case DetailExpires => World(w.store.(detail := Missing), w.past.(lost := true))
    case DetailSpoils => World(w.store.(detail := Undecodable), w.past.(lost := true))
    case SetExpires => World(w.store.(inSet := false), w.past.(lost := true))
    case Acts(_, _, _) => w
  }

  function Next(s: Stream, turn: Turn): Stream {
    if turn.Acts? && turn.i < |s.actors| then
      var r := Act(s.world, s.actors[turn.i], Charged(s.actors), turn.ok, turn.made);
      Stream(r.0, s.actors[turn.i := r.1])
    else
      s.(world := Outside(s.world, turn, Charged(s.actors)))
  }

  function Run(s: Stream, turns: seq<Turn>): Stream {
    if turns == [] then s else Next(Run(s, turns[..|turns| - 1]), turns[|turns| - 1])
  }

  const UNTOUCHED := World(Store(false, false, Missing, false, false, false, false, false), History(0, 0, 0, 0, false, false, false))

  ghost predicate Initial(s: Stream) {
    && s.world == UNTOUCHED
    && forall i :: 0 <= i < |s.actors| ==> s.actors[i].Idle? || s.actors[i].Ended? || s.actors[i].Completing? || s.actors[i].Requested?
  }

  // ---- One run at a time ----

  predicate Running(actor: Actor) {
    actor.Attempting? || actor.EndedRunning? || actor.RequestRunning?
  }

  ghost predicate OneRun(s: Stream) {
    && (forall i :: 0 <= i < |s.actors| && Running(s.actors[i]) ==> s.world.store.inFlight)
    && (forall i, j :: 0 <= i < j < |s.actors| ==> !(Running(s.actors[i]) && Running(s.actors[j])))
    && (s.world.store.inFlight ==> exists i :: 0 <= i < |s.actors| && Running(s.actors[i]))
  }

  /** A run starts only while none is in flight, and clears the guard when it ends. */
  lemma {:induction false} ActGuards(w: World, actor: Actor, head: nat, ok: bool, made: bool)
    ensures var r := Act(w, actor, head, ok, made);
      && (!Running(actor) && Running(r.1) ==> !w.store.inFlight && r.0.store.inFlight)
      && (!Running(actor) && !Running(r.1) ==> r.0.store.inFlight == w.store.inFlight)
      && (Running(actor) ==> !Running(r.1) && !r.0.store.inFlight)
  {
  }

  lemma {:induction false} NextKeepsOneRun(s: Stream, turn: Turn)
    requires OneRun(s)
    ensures OneRun(Next(s, turn))
  {
    var s' := Next(s, turn);
    if turn.Acts? && turn.i < |s.actors| {
      var i := turn.i;
      ActGuards(s.world, s.actors[i], Charged(s.actors), turn.ok, turn.made);
      if s'.world.store.inFlight && !Running(s'.actors[i]) {
        var k :| 0 <= k < |s.actors| && Running(s.actors[k]);
        assert Running(s'.actors[k]);
      }
    } else if s.world.store.inFlight {
      var k :| 0 <= k < |s.actors| && Running(s.actors[k]);
      assert Running(s'.actors[k]);
    }
  }

  /** Whatever triggers coincide, at most one run works in the stream's directory, and the guard is set exactly then. */
  lemma {:induction false} RunsNeverOverlap(s: Stream, turns: seq<Turn>)
    requires Initial(s)
    ensures OneRun(Run(s, turns))
  {
    if turns != [] {
      RunsNeverOverlap(s, turns[..|turns| - 1]);
      NextKeepsOneRun(Run(s, turns[..|turns| - 1]), turns[|turns| - 1]);
    }
  }

  // ---- Nothing is forgotten ----

  /** `n` failed attempts lie behind: those since the last arming, after the ones it was charged. */
  ghost predicate Counted(w: World, n: nat) {
    n <= w.past.failures && n <= w.past.head + w.past.sinceArm
  }

  ghost predicate Excused(w: World) {
    w.store.recording || w.store.queued || w.past.overlapped || w.past.empty || w.past.lost || Counted(w, MAX_ATTEMPTS)
  }

  /** What the actor is about to do is justified. */
  ghost predicate Justified(w: World, actor: Actor) {
    match actor
    case Read(a) => Counted(w, a)
    case Listed(a) => Counted(w, a)
    case Attempting(a) => Counted(w, a)
    case Failing(a) => Counted(w, a + 1)
    case Removing(Empty, _) => w.past.empty
    case Removing(Overlapped, _) => w.past.overlapped
    case Removing(Recorded, _) => w.store.recording
    case Removing(GaveUp, _) => Counted(w, MAX_ATTEMPTS)
    case Removing(Queued, _) => w.store.queued
    case _ => true
  }

  ghost predicate Accounted(w: World) {
    && (w.store.armed && !w.store.inSet ==> Excused(w))
    && (w.store.detail.Readable? ==> Counted(w, w.store.detail.attempts))
    && (w.store.inSet && !w.store.detail.Readable? ==> Excused(w))
  }

  ghost predicate Kept(s: Stream) {
    Accounted(s.world) && forall i :: 0 <= i < |s.actors| ==> Justified(s.world, s.actors[i])
  }

  lemma {:induction false} ChargedCovers(actors: seq<Actor>, i: nat)
    requires i < |actors|
    ensures Charge(actors[i]) <= Charged(actors)
  {
    if i < |actors| - 1 {
      ChargedCovers(actors[..|actors| - 1], i);
    }
  }

  lemma {:induction false} ArmKeeps(w: World, head: nat, other: Actor)
    requires Justified(w, other) && Charge(other) <= head
    ensures Accounted(Arm(w, head)) && Justified(Arm(w, head), other)
  {
  }

  lemma {:induction false} ActJustified(w: World, actor: Actor, head: nat, ok: bool, made: bool)
    requires Accounted(w) && Justified(w, actor)
    ensures var r := Act(w, actor, head, ok, made); Justified(r.0, r.1)
  {
  }

  /** Steps that write neither the due-set nor its detail, and take back no excuse. */
  lemma {:induction false} ActAccountsSame(w: World, w': World)
    requires Accounted(w) && w'.store.armed == w.store.armed && w'.store.inSet == w.store.inSet && w'.store.detail == w.store.detail
    requires Excused(w) ==> Excused(w')
    requires w'.past.failures >= w.past.failures && w'.past.sinceArm >= w.past.sinceArm && w'.past.head == w.past.head
    ensures Accounted(w')
  {
  }

  lemma {:induction false} RemovingAccounts(w: World, actor: Actor, head: nat, ok: bool, made: bool)
    requires Accounted(w) && Justified(w, actor) && (actor.Removing? || actor.Failing?)
    ensures Accounted(Act(w, actor, head, ok, made).0)
  {
  }

  lemma {:induction false} IdleAccounts(w: World, ok: bool, head: nat, made: bool)
    requires Accounted(w)
    ensures Accounted(Act(w, Idle, head, ok, made).0)
  {
  }

  lemma {:induction false} ActAccounts(w: World, actor: Actor, head: nat, ok: bool, made: bool)
    requires Accounted(w) && Justified(w, actor)
    ensures Accounted(Act(w, actor, head, ok, made).0)
  {
    if actor.Removing? || actor.Failing? {
      RemovingAccounts(w, actor, head, ok, made);
    } else if actor.Idle? {
      IdleAccounts(w, ok, head, made);
    } else if !actor.EndedWaiting? {
      ActAccountsSame(w, Act(w, actor, head, ok, made).0);
    }
  }

  lemma {:induction false} ActSparesOthers(w: World, actor: Actor, head: nat, ok: bool, made: bool, other: Actor)
    requires Justified(w, other) && Charge(other) <= head
    ensures Justified(Act(w, actor, head, ok, made).0, other)
  {
    ArmKeeps(w, head, other);
  }

  lemma {:induction false} OutsideKeeps(w: World, turn: Turn, head: nat, other: Actor)
    requires Justified(w, other) && Charge(other) <= head
    ensures Justified(Outside(w, turn, head), other)
  {
  }

  lemma {:induction false} OutsideAccounts(w: World, turn: Turn, head: nat)
    requires Accounted(w)
    ensures Accounted(Outside(w, turn, head))
  {
  }

  lemma {:induction false} NextKeeps(s: Stream, turn: Turn)
    requires Kept(s)
    ensures Kept(Next(s, turn))
  {
    var s', head := Next(s, turn), Charged(s.actors);
    if turn.Acts? && turn.i < |s.actors| {
      ActJustified(s.world, s.actors[turn.i], head, turn.ok, turn.made);
      ActAccounts(s.world, s.actors[turn.i], head, turn.ok, turn.made);
      forall k | 0 <= k < |s.actors| ensures Justified(s'.world, s'.actors[k]) {
        if k != turn.i {
          ChargedCovers(s.actors, k);
          ActSparesOthers(s.world, s.actors[turn.i], head, turn.ok, turn.made, s.actors[k]);
        }
      }
    } else {
      OutsideAccounts(s.world, turn, head);
      forall k | 0 <= k < |s.actors| ensures Justified(s'.world, s.actors[k]) {
        ChargedCovers(s.actors, k);
        OutsideKeeps(s.world, turn, head, s.actors[k]);
      }
    }
  }

  /** In every reachable state, a stream that was armed and is no longer in the due-set has a recording, has an assembly
      request queued, met another run in flight, was found without segments, lost its entry to expiry, or failed five
      times: since it was last armed, after the failures on the copy that arming found in a watchdog's hands. */
  lemma {:induction false} NothingForgotten(s: Stream, turns: seq<Turn>)
    requires Initial(s)
    ensures Kept(Run(s, turns))
  {
    if turns != [] {
      NothingForgotten(s, turns[..|turns| - 1]);
      NextKeeps(Run(s, turns[..|turns| - 1]), turns[|turns| - 1]);
    }
  }

  ghost predicate Otherwise(w: World) {
    w.store.recording || w.store.queued || w.past.overlapped || w.past.empty || w.past.lost
  }

  ghost predicate Due(w: World) {
    w.store.inSet && w.store.detail.Readable?
  }

  /** Hence, whatever interleaves: with segments, without overlapping runs or expiry, an armed stream stays due until it
      is recorded, its request is queued, or five attempts have failed, those its arming was charged included. */
  lemma {:induction false} StaysDue(s: Stream, turns: seq<Turn>)
    requires Initial(s)
    ensures var w := Run(s, turns).world;
      w.store.armed && !Otherwise(w) && w.past.head + w.past.sinceArm < MAX_ATTEMPTS ==> Due(w)
  {
    NothingForgotten(s, turns);
  }

  // ---- No trigger is dropped ----

  /** What an actor that began as `origin` may be by now, `early` saying that the stream was complete when it began. */
  ghost predicate Answered(w: World, origin: Actor, early: bool, actor: Actor) {
    var ended := w.store.complete && (w.store.recording || w.past.overlapped);
    match origin
    case Ended =>
      match actor {
        case Ended => true
        case EndedComplete => w.store.complete
        case EndedRunning => w.store.complete
        case EndedWaiting => !early
        case Removing(reason, watchdog) => !watchdog && ended
        case Done => ended || (w.store.armed && !early)
        case _ => false
      }
    case Completing =>
      match actor {
        case Completing => true
        case Publishing => w.store.complete
        case Removing(reason, watchdog) => !watchdog && w.store.complete && w.store.queued
        case Done => true
        case _ => false
      }
    case Requested =>
      match actor {
        case Requested => true
        case RequestRunning => true
        case Done => w.store.recording || w.past.overlapped
        case _ => false
      }
    case _ => true
  }

  ghost predicate Lasting(w: World, w': World) {
    && (w.store.armed ==> w'.store.armed) && (w.store.complete ==> w'.store.complete) && (w.store.queued ==> w'.store.queued)
    && (w.store.recording ==> w'.store.recording) && (w.past.overlapped ==> w'.past.overlapped)
  }

  lemma {:induction false} ActLasts(w: World, actor: Actor, head: nat, ok: bool, made: bool)
    ensures Lasting(w, Act(w, actor, head, ok, made).0)
  {
  }

  lemma {:induction false} ActAnswers(w: World, origin: Actor, early: bool, actor: Actor, head: nat, ok: bool, made: bool)
    requires Answered(w, origin, early, actor) && (early ==> w.store.complete)
    ensures var r := Act(w, actor, head, ok, made); Answered(r.0, origin, early, r.1)
  {
  }

  lemma {:induction false} StillAnswered(w: World, w': World, origin: Actor, early: bool, actor: Actor)
    requires Answered(w, origin, early, actor) && Lasting(w, w')
    ensures Answered(w', origin, early, actor)
  {
  }

  lemma {:induction false} NextAnswers(s: Stream, turn: Turn, origin: Actor, early: bool, i: nat)
    requires i < |s.actors| && Answered(s.world, origin, early, s.actors[i]) && (early ==> s.world.store.complete)
    ensures var s' := Next(s, turn);
      |s'.actors| == |s.actors| && Answered(s'.world, origin, early, s'.actors[i]) && (early ==> s'.world.store.complete)
  {
    var s', head := Next(s, turn), Charged(s.actors);
    if turn.Acts? && turn.i < |s.actors| {
      ActLasts(s.world, s.actors[turn.i], head, turn.ok, turn.made);
      ActAnswers(s.world, origin, early, s.actors[i], head, turn.ok, turn.made);
    }
    if !(turn.Acts? && turn.i == i) {
      StillAnswered(s.world, s'.world, origin, early, s.actors[i]);
    }
  }

  lemma {:induction false} RunAnswers(s: Stream, turns: seq<Turn>, i: nat)
    requires i < |s.actors| && (s.actors[i].Ended? || s.actors[i].Completing? || s.actors[i].Requested?)
    ensures var s' := Run(s, turns);
      |s'.actors| == |s.actors| && Answered(s'.world, s.actors[i], s.world.store.complete, s'.actors[i])
      && (s.world.store.complete ==> s'.world.store.complete)
  {
    if turns != [] {
      RunAnswers(s, turns[..|turns| - 1], i);
      NextAnswers(Run(s, turns[..|turns| - 1]), turns[|turns| - 1], s.actors[i], s.world.store.complete, i);
    }
  }

  /** From any state, whatever interleaves: once the end of a stream has been handled, the stream has been assembled or
      met a run in flight, if it was complete, and otherwise armed, unless it became complete meanwhile. A
      queued request is done with only once there is a recording or it met a run. */
  lemma {:induction false} EndIsAnswered(s: Stream, turns: seq<Turn>, i: nat)
    requires i < |s.actors|
    ensures var s' := Run(s, turns);
      var assembled := s'.world.store.recording || s'.world.past.overlapped;
      |s'.actors| == |s.actors| && (s'.actors[i].Done? ==>
        && (s.actors[i].Ended? ==> (assembled && s'.world.store.complete) || (s'.world.store.armed && !s.world.store.complete))
        && (s.actors[i].Requested? ==> assembled))
  {
    if s.actors[i].Ended? || s.actors[i].Completing? || s.actors[i].Requested? {
      RunAnswers(s, turns, i);
    } else {
      RunLength(s, turns);
    }
  }

  lemma {:induction false} RunLength(s: Stream, turns: seq<Turn>)
    ensures |Run(s, turns).actors| == |s.actors|
  {
    if turns != [] {
      RunLength(s, turns[..|turns| - 1]);
    }
  }

  ghost predicate Published(w: World, actor: Actor) {
    && (w.store.queued ==> w.store.complete)
    && (actor.Publishing? ==> w.store.complete)
    && (actor.Removing? && actor.reason.Queued? ==> w.store.complete && w.store.queued)
  }

  lemma {:induction false} ActPublishes(w: World, actor: Actor, head: nat, ok: bool, made: bool)
    requires Published(w, actor)
    ensures var r := Act(w, actor, head, ok, made); Published(r.0, r.1)
  {
  }

  lemma {:induction false} StillPublished(w: World, w': World, actor: Actor)
    requires Published(w, actor) && Lasting(w, w') && (w'.store.queued ==> w'.store.complete)
    ensures Published(w', actor)
  {
  }

  ghost predicate Publishers(s: Stream) {
    (s.world.store.queued ==> s.world.store.complete) && forall i :: 0 <= i < |s.actors| ==> Published(s.world, s.actors[i])
  }

  lemma {:induction false} NextPublishes(s: Stream, turn: Turn)
    requires Publishers(s)
    ensures Publishers(Next(s, turn))
  {
    var s', head := Next(s, turn), Charged(s.actors);
    if turn.Acts? && turn.i < |s.actors| {
      ActLasts(s.world, s.actors[turn.i], head, turn.ok, turn.made);
      ActPublishes(s.world, s.actors[turn.i], head, turn.ok, turn.made);
    }
    forall k | 0 <= k < |s.actors| && !(turn.Acts? && turn.i == k) ensures Published(s'.world, s'.actors[k]) {
      StillPublished(s.world, s'.world, s.actors[k]);
    }
  }

  /** A request is queued only for a stream marked complete, and /complete takes the stream off the due-set only behind a
      queued request. */
  lemma {:induction false} QueuedIsComplete(s: Stream, turns: seq<Turn>)
    requires Initial(s)
    ensures Publishers(Run(s, turns))
  {
    if turns != [] {
      QueuedIsComplete(s, turns[..|turns| - 1]);
      NextPublishes(Run(s, turns[..|turns| - 1]), turns[|turns| - 1]);
    }
  }

  // ---- One watchdog, and no Redis call fails ----

  predicate IsWatchdog(actor: Actor) {
    match actor
    case Idle => true
    case Read(_) => true
    case Listed(_) => true
    case Attempting(_) => true
    case Failing(_) => true
    case Removing(_, watchdog) => watchdog
    case _ => false
  }

  /** The calls whose failure is an attempt's failure, and not Redis'. */
  predicate Reliable(actor: Actor, ok: bool) {
    ok || actor.Attempting? || actor.EndedRunning? || actor.RequestRunning?
  }

  /** The `n` first turns of `turns` from `s` find Redis answering. */
  ghost predicate AllReliable(s: Stream, turns: seq<Turn>) {
    turns == [] ||
    (var last, before := turns[|turns| - 1], turns[..|turns| - 1];
      && AllReliable(s, before)
      && (last.Acts? && last.i < |Run(s, before).actors| ==> Reliable(Run(s, before).actors[last.i], last.ok)))
  }

  ghost predicate OneWatchdog(s: Stream) {
    |s.actors| > 0 && IsWatchdog(s.actors[0]) && forall i :: 1 <= i < |s.actors| ==> !IsWatchdog(s.actors[i]) && Charge(s.actors[i]) == 0
  }

  /** What the watchdog holds is the charge of the last arming and the failures since, to the unit. */
  ghost predicate Exact(w: World, dog: Actor) {
    var total := w.past.head + w.past.sinceArm;
    && total <= MAX_ATTEMPTS
    && match dog
       case Idle => w.store.detail.Readable? ==> w.store.detail.attempts == total < MAX_ATTEMPTS
       case Read(a) => a == total < MAX_ATTEMPTS
       case Listed(a) => a == total < MAX_ATTEMPTS
       case Attempting(a) => a == total < MAX_ATTEMPTS
       case Failing(a) => a + 1 == total
       case Removing(GaveUp, _) => total == MAX_ATTEMPTS
       case _ => true
  }

  lemma {:induction false} ChargedOne(actors: seq<Actor>)
    requires |actors| > 0 && forall i :: 1 <= i < |actors| ==> Charge(actors[i]) == 0
    ensures Charged(actors) == Charge(actors[0])
  {
    if |actors| > 1 {
      ChargedOne(actors[..|actors| - 1]);
    }
  }

  lemma {:induction false} WatchdogExact(w: World, dog: Actor, ok: bool, made: bool)
    requires Exact(w, dog) && IsWatchdog(dog) && Reliable(dog, ok)
    ensures var r := Act(w, dog, Charge(dog), ok, made); Exact(r.0, r.1) && IsWatchdog(r.1)
  {
  }

  lemma {:induction false} OtherExact(w: World, dog: Actor, other: Actor, ok: bool, made: bool)
    requires Exact(w, dog) && IsWatchdog(dog) && !IsWatchdog(other) && Charge(other) == 0
    ensures var r := Act(w, other, Charge(dog), ok, made); Exact(r.0, dog) && !IsWatchdog(r.1) && Charge(r.1) == 0
  {
  }

  lemma {:induction false} OutsideExact(w: World, dog: Actor, turn: Turn)
    requires Exact(w, dog) && IsWatchdog(dog)
    ensures Exact(Outside(w, turn, Charge(dog)), dog)
  {
  }

  ghost predicate ExactStream(s: Stream) {
    OneWatchdog(s) && Exact(s.world, s.actors[0])
  }

  lemma {:induction false} NextExact(s: Stream, turn: Turn)
    requires ExactStream(s) && (turn.Acts? && turn.i < |s.actors| ==> Reliable(s.actors[turn.i], turn.ok))
    ensures ExactStream(Next(s, turn))
  {
    ChargedOne(s.actors);
    if turn.Acts? && turn.i < |s.actors| {
      if turn.i == 0 {
        WatchdogExact(s.world, s.actors[0], turn.ok, turn.made);
      } else {
        OtherExact(s.world, s.actors[0], s.actors[turn.i], turn.ok, turn.made);
      }
    } else {
      OutsideExact(s.world, s.actors[0], turn);
    }
  }

  lemma {:induction false} RunExact(s: Stream, turns: seq<Turn>)
    requires Initial(s) && OneWatchdog(s) && AllReliable(s, turns)
    ensures ExactStream(Run(s, turns))
  {
    if turns != [] {
      RunExact(s, turns[..|turns| - 1]);
      NextExact(Run(s, turns[..|turns| - 1]), turns[|turns| - 1]);
    }
  }

  /** With one watchdog and Redis answering, in every reachable state at most five attempts have failed since the last
      arming, less those that arming was charged: none beyond an idle watchdog's, `a` if it landed on an attempt with
      copy `a`. */
  lemma {:induction false} AtMostFiveAttempts(s: Stream, turns: seq<Turn>)
    requires Initial(s) && OneWatchdog(s) && AllReliable(s, turns)
    ensures Run(s, turns).world.past.head + Run(s, turns).world.past.sinceArm <= MAX_ATTEMPTS
  {
    RunExact(s, turns);
  }

  /** How an arming is honoured: while nothing else takes the stream off, it is due exactly until 5 - `head` attempts
      have failed after it. */
  lemma {:induction false} ArmingHonouredExactly(s: Stream, turns: seq<Turn>)
    requires Initial(s) && OneWatchdog(s) && AllReliable(s, turns)
    ensures var w, dog := Run(s, turns).world, Run(s, turns).actors;
      |dog| > 0 && (w.store.armed && !Otherwise(w) && dog[0].Idle? ==> (Due(w) <==> w.past.sinceArm < MAX_ATTEMPTS - w.past.head))
  {
    RunExact(s, turns);
    StaysDue(s, turns);
  }

  // ---- One watchdog, whatever Redis does ----

  /** The copy a watchdog holds, and the one stored, lag behind the failures by no more than what Redis refused. */
  ghost predicate Lags(w: World, dog: Actor) {
    var failed, refused, stored := w.past.sinceArm, w.past.missed, w.store.detail;
    && failed <= MAX_ATTEMPTS + refused
    && (stored.Readable? ==> stored.attempts < MAX_ATTEMPTS && failed <= stored.attempts + refused + Pending(dog))
    && (Holds(dog) ==> Charge(dog) <= MAX_ATTEMPTS && failed <= Charge(dog) + refused)
    && (dog.Read? || dog.Listed? || dog.Attempting? ==> dog.attempts < MAX_ATTEMPTS)
  }

  /** A failure has been counted, and is not stored yet. */
  function Pending(dog: Actor): nat {
    if dog.Failing? || (dog.Removing? && dog.reason.GaveUp?) then 1 else 0
  }

  predicate Holds(dog: Actor) {
    dog.Read? || dog.Listed? || dog.Attempting? || dog.Failing?
  }

  lemma {:induction false} WatchdogLags(w: World, dog: Actor, ok: bool, made: bool)
    requires Lags(w, dog) && IsWatchdog(dog)
    ensures var r := Act(w, dog, Charge(dog), ok, made); Lags(r.0, r.1) && IsWatchdog(r.1)
  {
  }

  lemma {:induction false} OtherLags(w: World, dog: Actor, other: Actor, ok: bool, made: bool)
    requires Lags(w, dog) && !IsWatchdog(other) && Charge(other) == 0
    ensures var r := Act(w, other, Charge(dog), ok, made); Lags(r.0, dog) && !IsWatchdog(r.1) && Charge(r.1) == 0
  {
  }

  lemma {:induction false} OutsideLags(w: World, dog: Actor, turn: Turn)
    requires Lags(w, dog)
    ensures Lags(Outside(w, turn, Charge(dog)), dog)
  {
  }

  ghost predicate LagsStream(s: Stream) {
    OneWatchdog(s) && Lags(s.world, s.actors[0])
  }

  lemma {:induction false} NextLags(s: Stream, turn: Turn)
    requires LagsStream(s)
    ensures LagsStream(Next(s, turn))
  {
    ChargedOne(s.actors);
    if turn.Acts? && turn.i < |s.actors| {
      if turn.i == 0 {
        WatchdogLags(s.world, s.actors[0], turn.ok, turn.made);
      } else {
        OtherLags(s.world, s.actors[0], s.actors[turn.i], turn.ok, turn.made);
      }
    } else {
      OutsideLags(s.world, s.actors[0], turn);
    }
  }

  lemma {:induction false} RunLags(s: Stream, turns: seq<Turn>)
    requires Initial(s) && OneWatchdog(s)
    ensures LagsStream(Run(s, turns))
  {
    if turns != [] {
      RunLags(s, turns[..|turns| - 1]);
      NextLags(Run(s, turns[..|turns| - 1]), turns[|turns| - 1]);
    }
  }

  /** With one watchdog, and any Redis call free to fail: since the last arming at most five attempts have failed, and one
      more for every reschedule and every removal after giving up that Redis refused. */
  lemma {:induction false} AttemptsBounded(s: Stream, turns: seq<Turn>)
    requires Initial(s) && OneWatchdog(s)
    ensures Run(s, turns).world.past.sinceArm <= MAX_ATTEMPTS + Run(s, turns).world.past.missed
  {
    RunLags(s, turns);
  }

  // ---- Armings that land on an attempt ----

  const FIRST := Stream(UNTOUCHED, [Idle])

  ghost predicate Reachable(s: Stream) {
    exists turns: seq<Turn> :: Run(FIRST, turns) == s
  }

  lemma {:induction false} ReachableNext(s: Stream, turn: Turn, s': Stream)
    requires Reachable(s) && Next(s, turn) == s'
    ensures Reachable(s')
  {
    var turns: seq<Turn> :| Run(FIRST, turns) == s;
    assert (turns + [turn])[..|turns|] == turns;
    assert Run(FIRST, turns + [turn]) == s';
  }

  /** One watchdog, a stream with segments, last armed on `head` failures and failed `since` times after it. */
  function Waiting(head: nat, since: nat, detail: nat, actor: Actor): Stream {
    Stream(World(Store(true, true, Readable(detail), true, false, false, false, actor.Attempting?),
                 History(head + since, since, 0, head, false, false, false)), [actor])
  }

  const Goes := Acts(0, true, false)
  const Fails := Acts(0, false, false)

  lemma {:induction false} AttemptSteps(head: nat, since: nat)
    ensures var n := head + since;
      && Next(Waiting(head, since, n, Idle), Goes) == Waiting(head, since, n, Read(n))
      && Next(Waiting(head, since, n, Read(n)), Goes) == Waiting(head, since, n, Listed(n))
      && Next(Waiting(head, since, n, Listed(n)), Goes) == Waiting(head, since, n, Attempting(n))
  {
  }

  lemma {:induction false} ReachesAttempt(head: nat, since: nat)
    requires Reachable(Waiting(head, since, head + since, Idle))
    ensures Reachable(Waiting(head, since, head + since, Attempting(head + since)))
  {
    var n := head + since;
    AttemptSteps(head, since);
    ReachableNext(Waiting(head, since, n, Idle), Goes, Waiting(head, since, n, Read(n)));
    ReachableNext(Waiting(head, since, n, Read(n)), Goes, Waiting(head, since, n, Listed(n)));
    ReachableNext(Waiting(head, since, n, Listed(n)), Goes, Waiting(head, since, n, Attempting(n)));
  }

  lemma {:induction false} FailSteps(head: nat, since: nat, detail: nat)
    ensures var n := head + since;
      && Next(Waiting(head, since, detail, Attempting(n)), Fails) == Waiting(head, since + 1, detail, Failing(n))
      && (n + 1 < MAX_ATTEMPTS ==> Next(Waiting(head, since + 1, detail, Failing(n)), Goes) == Waiting(head, since + 1, n + 1, Idle))
      && (n + 1 >= MAX_ATTEMPTS ==> Next(Waiting(head, since + 1, detail, Failing(n)), Goes) == Waiting(head, since + 1, detail, Removing(GaveUp, true)))
  {
  }

  lemma {:induction false} ReachesRetry(head: nat, since: nat, detail: nat)
    requires head + since + 1 < MAX_ATTEMPTS && Reachable(Waiting(head, since, detail, Attempting(head + since)))
    ensures Reachable(Waiting(head, since + 1, head + since + 1, Attempting(head + since + 1)))
  {
    ReachesFailing(head, since, detail);
    ReachesIdle(head, since, detail);
    ReachesAttempt(head, since + 1);
  }

  lemma {:induction false} ReachesFailing(head: nat, since: nat, detail: nat)
    requires Reachable(Waiting(head, since, detail, Attempting(head + since)))
    ensures Reachable(Waiting(head, since + 1, detail, Failing(head + since)))
  {
    FailSteps(head, since, detail);
    ReachableNext(Waiting(head, since, detail, Attempting(head + since)), Fails, Waiting(head, since + 1, detail, Failing(head + since)));
  }

  lemma {:induction false} ReachesIdle(head: nat, since: nat, detail: nat)
    requires head + since + 1 < MAX_ATTEMPTS && Reachable(Waiting(head, since + 1, detail, Failing(head + since)))
    ensures Reachable(Waiting(head, since + 1, head + since + 1, Idle))
  {
    FailSteps(head, since, detail);
    ReachableNext(Waiting(head, since + 1, detail, Failing(head + since)), Goes, Waiting(head, since + 1, head + since + 1, Idle));
  }

  /** On to the attempt with `head + later` failures. */
  lemma {:induction false} ReachesLater(head: nat, since: nat, detail: nat, later: nat) returns (kept: nat)
    requires Reachable(Waiting(head, since, detail, Attempting(head + since)))
    requires since <= later && head + later < MAX_ATTEMPTS
    ensures Reachable(Waiting(head, later, kept, Attempting(head + later)))
    decreases later - since
  {
    if since == later {
      kept := detail;
    } else {
      ReachesRetry(head, since, detail);
      kept := ReachesLater(head, since + 1, head + since + 1, later);
    }
  }

  lemma {:induction false} ReachesFirst()
    ensures Reachable(Waiting(0, 0, 0, Attempting(0)))
  {
    var none: seq<Turn> := [];
    assert Run(FIRST, none) == FIRST;
    ReachableNext(FIRST, SegmentArrives, Next(FIRST, SegmentArrives));
    ReachableNext(Next(FIRST, SegmentArrives), Arms, Waiting(0, 0, 0, Idle));
    ReachesAttempt(0, 0);
  }

  lemma {:induction false} RaceStep(a: nat, detail: nat)
    ensures Next(Waiting(0, a, detail, Attempting(a)), Arms) == Waiting(a, 0, 0, Attempting(a))
  {
    ChargedOne([Attempting(a)]);
  }

  lemma {:induction false} ReachesRace(a: nat)
    requires a < MAX_ATTEMPTS
    ensures Reachable(Waiting(a, 0, 0, Attempting(a)))
  {
    ReachesFirst();
    var detail := ReachesLater(0, 0, 0, a);
    RaceStep(a, detail);
    ReachableNext(Waiting(0, a, detail, Attempting(a)), Arms, Waiting(a, 0, 0, Attempting(a)));
  }

  /** Taken off after giving up. */
  function Gone(head: nat, since: nat): Stream {
    Stream(Removed(Waiting(head, since, 0, Idle).world), [Idle])
  }

  lemma {:induction false} ReachesRemoved(head: nat, since: nat, detail: nat)
    requires Reachable(Waiting(head, since, detail, Removing(GaveUp, true)))
    ensures Reachable(Gone(head, since))
  {
    ReachableNext(Waiting(head, since, detail, Removing(GaveUp, true)), Goes, Gone(head, since));
  }

  lemma {:induction false} ReachesRemoval(head: nat, since: nat, detail: nat)
    requires head + since == MAX_ATTEMPTS - 1 && Reachable(Waiting(head, since, detail, Attempting(head + since)))
    ensures Reachable(Gone(head, since + 1))
  {
    ReachesFailing(head, since, detail);
    FailSteps(head, since, detail);
    ReachableNext(Waiting(head, since + 1, detail, Failing(head + since)), Goes, Waiting(head, since + 1, detail, Removing(GaveUp, true)));
    ReachesRemoved(head, since + 1, detail);
  }

  lemma {:induction false} ReachesGone(a: nat)
    requires a < MAX_ATTEMPTS
    ensures Reachable(Gone(a, MAX_ATTEMPTS - a))
  {
    ReachesRace(a);
    var detail := ReachesLater(a, 0, 0, MAX_ATTEMPTS - 1 - a);
    ReachesRemoval(a, MAX_ATTEMPTS - 1 - a, detail);
  }

  /** An arming that lands on an attempt with copy `a` is undone after 5 - `a` failures, however recently it was made: the
      stream has segments and no recording, and nothing is left to assemble it. On the fifth attempt one is enough. */
  lemma {:induction false} RacingArmIsLost(a: nat) returns (turns: seq<Turn>)
    requires a < MAX_ATTEMPTS
    ensures Initial(FIRST) && OneWatchdog(FIRST)
    ensures var w := Run(FIRST, turns).world;
      w.store.armed && w.store.segments && !w.store.inSet && !Otherwise(w) && w.past.sinceArm == MAX_ATTEMPTS - a
  {
    ReachesGone(a);
    turns :| Run(FIRST, turns) == Gone(a, MAX_ATTEMPTS - a);
  }

  // ---- Reschedules that fail ----

  /** After `n` attempts, `missed` of them not rescheduled, the entry still has none to show. */
  function Forgotten(n: nat, missed: nat, actor: Actor): Stream {
    Stream(World(Store(true, true, Readable(0), true, false, false, false, actor.Attempting?),
                 History(n, n, missed, 0, false, false, false)), [actor])
  }

  lemma {:induction false} ForgetfulSteps(n: nat)
    ensures Next(Forgotten(n, n, Attempting(0)), Fails) == Forgotten(n + 1, n, Failing(0))
    ensures Next(Forgotten(n + 1, n, Failing(0)), Fails) == Forgotten(n + 1, n + 1, Idle)
    ensures Next(Forgotten(n + 1, n + 1, Idle), Goes) == Forgotten(n + 1, n + 1, Read(0))
    ensures Next(Forgotten(n + 1, n + 1, Read(0)), Goes) == Forgotten(n + 1, n + 1, Listed(0))
    ensures Next(Forgotten(n + 1, n + 1, Listed(0)), Goes) == Forgotten(n + 1, n + 1, Attempting(0))
  {
  }

  lemma {:induction false} ForgetfulAttempt(n: nat)
    requires Reachable(Forgotten(n, n, Attempting(0)))
    ensures Reachable(Forgotten(n + 1, n + 1, Attempting(0)))
  {
    ForgetfulSteps(n);
    ReachableNext(Forgotten(n, n, Attempting(0)), Fails, Forgotten(n + 1, n, Failing(0)));
    ReachableNext(Forgotten(n + 1, n, Failing(0)), Fails, Forgotten(n + 1, n + 1, Idle));
    ReachableNext(Forgotten(n + 1, n + 1, Idle), Goes, Forgotten(n + 1, n + 1, Read(0)));
    ReachableNext(Forgotten(n + 1, n + 1, Read(0)), Goes, Forgotten(n + 1, n + 1, Listed(0)));
    ReachableNext(Forgotten(n + 1, n + 1, Listed(0)), Goes, Forgotten(n + 1, n + 1, Attempting(0)));
  }

  /** While rescheduling fails nothing counts the attempts: one watchdog makes any number of them after one arming. */
  lemma {:induction false} AttemptsUncounted(n: nat)
    ensures Reachable(Forgotten(n, n, Attempting(0)))
  {
    if n == 0 {
      ReachesFirst();
      assert Waiting(0, 0, 0, Attempting(0)) == Forgotten(0, 0, Attempting(0));
    } else {
      AttemptsUncounted(n - 1);
      ForgetfulAttempt(n - 1);
    }
  }
}
