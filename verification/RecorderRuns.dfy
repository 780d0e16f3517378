/** The supervisor as it runs: the loop, ffmpeg processes, the two forwarders of each attempt and a concurrent stop, one
step at a time and in any order. A step is one channel operation, one look at a channel, or one critical section. */
module RecorderRuns {
  import opened RecorderSupervisor

  datatype Output = Segments | Fragments

  /** A forwarder: not spawned, following the list, told that ffmpeg has exited, past its last read of the list (which
      may fail), and returned. */
  datatype Stage = Absent | Watching | Cancelled | LastRead(ok: bool) | Drained(ok: bool)

  /** One output of one attempt: entries ffmpeg has listed, entries its forwarder has read, and entries it has sent on. */
  datatype Lane = Lane(listed: nat, seen: nat, sent: nat, stage: Stage)

  datatype Recorder = Recorder(running: bool, stopped: bool, segments: Lane, fragments: Lane) {
    function Of(o: Output): Lane {
      if o.Segments? then segments else fragments
    }

    function With(o: Output, lane: Lane): Recorder {
      if o.Segments? then this.(segments := lane) else this.(fragments := lane)
    }
  }

  datatype Deed = Started(attempt: nat) | Exited(attempt: nat) | Sent(attempt: nat, output: Output, index: nat) | Joined(attempt: nat)

  datatype Loop = Publishing | Checking | Stopping | Waiting | Asking | BackingOff | Starting | Finished(gaveUp: bool)

  /** `StopProcess`, at most once: it closes the channel, reads the current recorder, stops it and waits for its exit.
      `had` recorders were started before it; `late` says that the loop was past its last look at the channel when
      recorder `of` was read. */
  datatype Stop =
    | NotAsked
    | Closed(had: nat)
    | Read(had: nat, of: nat, late: bool)
    | Killing(had: nat, of: nat, late: bool)
    | Returned(had: nat, of: nat, late: bool)

  /** Attempt n is `recorders[n - 1]`; `past` is how the finished passes of the loop went. */
  datatype World = World(recorders: seq<Recorder>, loop: Loop, streak: nat, cur: nat, stop: Stop, past: seq<Attempt>, log: seq<Deed>) {
    ghost predicate WellFormed() {
      |recorders| > 0 && 1 <= cur <= |recorders| && (stop.Read? || stop.Killing? || stop.Returned? ==> 1 <= stop.of <= |recorders|)
    }

    function Last(): Recorder
      requires |recorders| > 0
    {
      recorders[|recorders| - 1]
    }

    function WithLast(r: Recorder): World
      requires |recorders| > 0
    {
      this.(recorders := recorders[|recorders| - 1 := r])
    }

    /** The pass of the loop ends here. */
    function Ending(pass: Attempt, next: Loop): World {
      this.(past := past + [pass], loop := next)
    }
  }

  datatype Setup = Setup(maxAttempts: nat, hls: bool)

  const Unborn := Lane(0, 0, 0, Absent)
  const Born := Recorder(true, false, Unborn, Unborn)

  const Begun := World([Born], Publishing, 0, 1, NotAsked, [], [Started(1)])

  // ---- Steps ----

  datatype Move = List | Poll(ok: bool) | SeeExit | ReadLast(ok: bool) | Send | Return

  function LaneStep(lane: Lane, running: bool, m: Move): Lane {
    match m
    case List => if running then lane.(listed := lane.listed + 1) else lane
    case Poll(ok) =>
      if (lane.stage.Watching? || lane.stage.Cancelled?) && lane.sent == lane.seen && ok then lane.(seen := lane.listed) else lane
    case SeeExit => if lane.stage.Watching? && !running then lane.(stage := Cancelled) else lane
    case ReadLast(ok) =>
      if lane.stage.Cancelled? && lane.sent == lane.seen then
        lane.(stage := LastRead(ok), seen := if ok then lane.listed else lane.seen)
      else
        lane
    case Send => if lane.sent < lane.seen && !lane.stage.Absent? && !lane.stage.Drained? then lane.(sent := lane.sent + 1) else lane
    case Return => if lane.stage.LastRead? && lane.sent == lane.seen then lane.(stage := Drained(lane.stage.ok)) else lane
  }

  function OutputStep(w: World, n: nat, o: Output, m: Move): World
    requires 1 <= n <= |w.recorders|
  {
    var r := w.recorders[n - 1];
    var lane := LaneStep(r.Of(o), r.running, m);
    w.(recorders := w.recorders[n - 1 := r.With(o, lane)],
       log := if lane.sent > r.Of(o).sent then w.log + [Sent(n, o, r.Of(o).sent)] else w.log)
  }

  function ExitStep(w: World, n: nat): World
    requires 1 <= n <= |w.recorders|
  {
    if w.recorders[n - 1].running then
      w.(recorders := w.recorders[n - 1 := w.recorders[n - 1].(running := false)], log := w.log + [Exited(n)])
    else
      w
  }

  function Spawned(r: Recorder, hls: bool): Recorder {
    r.(segments := r.segments.(stage := Watching), fragments := r.fragments.(stage := if hls then Watching else Absent))
  }

  predicate BothDrained(r: Recorder, hls: bool) {
    r.segments.stage.Drained? && (hls ==> r.fragments.stage.Drained?)
  }

  /** After the join: stop, give up, or back off before the next recorder. */
  function Judged(w: World, s: Setup): World
    requires w.WellFormed()
  {
    var sent := w.Last().segments.sent;
    var streak := if sent > 0 then 0 else w.streak + 1;
    if !w.stop.NotAsked? then
      w.Ending(Attempt(sent, false, true, false, false), Finished(false))
    else if streak >= s.maxAttempts || |w.recorders| >= s.maxAttempts * MAX_TOTAL_RESTART_MULTIPLIER then
      w.Ending(Attempt(sent, false, false, false, false), Finished(true))
    else
      w.(streak := streak, loop := BackingOff)
  }

  /** `go` says that the backoff has elapsed, or that the next recorder starts. */
  function LoopStep(w: World, s: Setup, go: bool): World
    requires w.WellFormed()
  {
    var n := |w.recorders|;
    var sent := w.Last().segments.sent;
    match w.loop
    case Publishing => w.(cur := n, loop := Checking)
    case Checking =>
      if w.stop.NotAsked? then w.WithLast(Spawned(w.Last(), s.hls)).(loop := Waiting)
      else w.WithLast(w.Last().(stopped := true)).(loop := Stopping)
    case Stopping => if w.Last().running then w else w.WithLast(Spawned(w.Last(), s.hls)).(loop := Waiting)
    case Waiting =>
      if !BothDrained(w.Last(), s.hls) then w
      else if w.Last().stopped then
        w.(log := w.log + [Joined(n)]).Ending(Attempt(sent, true, false, false, false), Finished(false))
      else w.(log := w.log + [Joined(n)], loop := Asking)
    case Asking => Judged(w, s)
    case BackingOff =>
      if go then w.(loop := Starting)
      else if !w.stop.NotAsked? then w.Ending(Attempt(sent, false, false, true, false), Finished(false))
      else w
    case Starting =>
      if go then
        w.(recorders := w.recorders + [Born], log := w.log + [Started(n + 1)]).Ending(Attempt(sent, false, false, false, true), Publishing)
      else
        w.Ending(Attempt(sent, false, false, false, false), Finished(true))
    case Finished(_) => w
  }

  /** The loop has looked at the stop channel for the last time before it starts another recorder. */
  predicate PastCheck(w: World) {
    w.loop.BackingOff? || w.loop.Starting? || (w.loop.Publishing? && w.cur < |w.recorders|)
  }

  function StopStep(w: World): World
    requires w.WellFormed()
  {
    match w.stop
    case NotAsked => w.(stop := Closed(|w.recorders|))
    case Closed(had) => w.(stop := Read(had, w.cur, PastCheck(w)))
    case Read(had, of, late) =>
      w.(stop := Killing(had, of, late), recorders := w.recorders[of - 1 := w.recorders[of - 1].(stopped := true)])
    case Killing(had, of, late) => if w.recorders[of - 1].running then w else w.(stop := Returned(had, of, late))
    case Returned(_, _, _) => w
  }

  datatype Step = OfOutput(n: nat, output: Output, move: Move) | OfProcess(n: nat) | OfLoop(go: bool) | OfStop

  function Next(w: World, s: Setup, step: Step): (w': World)
    requires w.WellFormed()
    ensures w'.WellFormed()
  {
    match step
    case OfOutput(n, o, m) => if 1 <= n <= |w.recorders| && (o.Fragments? ==> s.hls) then OutputStep(w, n, o, m) else w
    case OfProcess(n) => if 1 <= n <= |w.recorders| then ExitStep(w, n) else w
    case OfLoop(go) => LoopStep(w, s, go)
    case OfStop => StopStep(w)
  }

  function Run(w: World, s: Setup, steps: seq<Step>, k: nat): (w': World)
    requires w.WellFormed() && k <= |steps|
    ensures w'.WellFormed()
  {
    if k == 0 then w else Next(Run(w, s, steps, k - 1), s, steps[k - 1])
  }

  // ---- Each attempt is over before the next one begins ----

  predicate Over(r: Recorder, hls: bool) {
    !r.running && BothDrained(r, hls)
  }

  predicate LaneSane(lane: Lane, running: bool) {
    && lane.sent <= lane.seen <= lane.listed
    && (lane.stage.Cancelled? || lane.stage.LastRead? || lane.stage.Drained? ==> !running)
    && (lane.stage.Drained? ==> lane.sent == lane.seen)
    && (lane.stage.LastRead? || lane.stage.Drained? ==> lane.stage.ok ==> lane.seen == lane.listed)
    && (lane.stage.Absent? ==> lane.seen == 0)
  }

  predicate Sane(r: Recorder) {
    LaneSane(r.segments, r.running) && LaneSane(r.fragments, r.running)
  }

  predicate PastJoin(loop: Loop) {
    loop.Asking? || loop.BackingOff? || loop.Starting? || loop.Finished?
  }

  predicate Unspawned(loop: Loop) {
    loop.Publishing? || loop.Checking? || loop.Stopping?
  }

  predicate LastFits(r: Recorder, loop: Loop, hls: bool) {
    && (PastJoin(loop) ==> Over(r, hls))
    && (Unspawned(loop) ==> r.segments.stage.Absent? && r.fragments.stage.Absent?)
    && (loop.Waiting? ==> !r.segments.stage.Absent? && (hls ==> !r.fragments.stage.Absent?))
  }

  ghost predicate Layout(w: World, hls: bool) {
    && w.WellFormed()
    && (forall i :: 0 <= i < |w.recorders| ==> Sane(w.recorders[i]))
    && (forall i :: 0 <= i < |w.recorders| - 1 ==> Over(w.recorders[i], hls))
    && LastFits(w.Last(), w.loop, hls)
  }

  lemma {:induction false} LaneStepSane(lane: Lane, running: bool, m: Move)
    requires LaneSane(lane, running)
    ensures var lane' := LaneStep(lane, running, m);
      && LaneSane(lane', running)
      && (lane'.stage.Absent? <==> lane.stage.Absent?)
      && (lane.stage.Drained? && !running ==> lane' == lane)
      && lane.sent <= lane'.sent <= lane.sent + 1
      && (lane'.sent > lane.sent ==> !lane.stage.Drained? && !lane.stage.Absent?)
  {
  }

  /** One recorder changes, and the loop may move, without disturbing the others. */
  lemma {:induction false} LayoutChanged(w: World, w': World, hls: bool, n: nat, r: Recorder)
    requires Layout(w, hls) && w'.WellFormed() && 1 <= n <= |w.recorders| && w'.recorders == w.recorders[n - 1 := r]
    requires Sane(r) && (n < |w.recorders| ==> Over(r, hls))
    requires LastFits(if n == |w.recorders| then r else w.Last(), w'.loop, hls)
    ensures Layout(w', hls)
  {
  }

  lemma {:induction false} OutputStepLayout(w: World, hls: bool, n: nat, o: Output, m: Move)
    requires Layout(w, hls) && 1 <= n <= |w.recorders| && (o.Fragments? ==> hls)
    ensures Layout(OutputStep(w, n, o, m), hls)
    ensures OutputStep(w, n, o, m).log != w.log ==> n == |w.recorders| && !PastJoin(w.loop)
  {
    var r := w.recorders[n - 1];
    LaneStepSane(r.Of(o), r.running, m);
    LayoutChanged(w, OutputStep(w, n, o, m), hls, n, r.With(o, LaneStep(r.Of(o), r.running, m)));
  }

  lemma {:induction false} ExitStepLayout(w: World, hls: bool, n: nat)
    requires Layout(w, hls) && 1 <= n <= |w.recorders|
    ensures Layout(ExitStep(w, n), hls)
    ensures ExitStep(w, n).log != w.log ==> n == |w.recorders| && !PastJoin(w.loop)
  {
    var r := w.recorders[n - 1];
    LayoutChanged(w, ExitStep(w, n), hls, n, r.(running := false));
  }

  lemma {:induction false} StopStepLayout(w: World, hls: bool)
    requires Layout(w, hls)
    ensures Layout(StopStep(w), hls)
  {
    if w.stop.Read? {
      LayoutChanged(w, StopStep(w), hls, w.stop.of, w.recorders[w.stop.of - 1].(stopped := true));
    }
  }

  /** Steps of the loop that change no recorder. */
  lemma {:induction false} LayoutMoved(w: World, w': World, hls: bool)
    requires Layout(w, hls) && w'.WellFormed() && w'.recorders == w.recorders && LastFits(w.Last(), w'.loop, hls)
    ensures Layout(w', hls)
  {
  }

  lemma {:induction false} LayoutStarts(w: World, w': World, hls: bool)
    requires Layout(w, hls) && w'.WellFormed() && w'.recorders == w.recorders + [Born] && w.loop.Starting? && w'.loop.Publishing?
    ensures Layout(w', hls)
  {
    assert w.Last() == w.recorders[|w.recorders| - 1] && Over(w.Last(), hls);
    forall i | 0 <= i < |w'.recorders| ensures Sane(w'.recorders[i]) && (i < |w'.recorders| - 1 ==> Over(w'.recorders[i], hls)) {
      if i < |w.recorders| {
        assert w'.recorders[i] == w.recorders[i];
      }
    }
  }

  lemma {:induction false} LoopStepLayout(w: World, s: Setup, go: bool)
    requires Layout(w, s.hls)
    ensures Layout(LoopStep(w, s, go), s.hls)
  {
    var w' := LoopStep(w, s, go);
    if w.loop.Checking? || w.loop.Stopping? {
      LayoutChanged(w, w', s.hls, |w.recorders|, w'.Last());
    } else if w.loop.Starting? && go {
      LayoutStarts(w, w', s.hls);
    } else {
      LayoutMoved(w, w', s.hls);
    }
  }

  lemma {:induction false} LayoutNext(w: World, s: Setup, step: Step)
    requires Layout(w, s.hls)
    ensures Layout(Next(w, s, step), s.hls)
  {
    match step
    case OfOutput(n, o, m) => if 1 <= n <= |w.recorders| && (o.Fragments? ==> s.hls) { OutputStepLayout(w, s.hls, n, o, m); }
    case OfProcess(n) => if 1 <= n <= |w.recorders| { ExitStepLayout(w, s.hls, n); }
    case OfLoop(go) => LoopStepLayout(w, s, go);
    case OfStop => StopStepLayout(w, s.hls);
  }

  // ---- The log, attempt by attempt ----

  /** No deed of an attempt before one of an earlier attempt, and none of it after its join. */
  ghost predicate Ordered(log: seq<Deed>) {
    forall i, k :: 0 <= i < k < |log| ==> log[i].attempt <= log[k].attempt && (log[i].Joined? ==> log[i].attempt < log[k].attempt)
  }

  /** The deeds are of attempts 1 to `n`; all before `n`, and `n` if `past`, are joined. */
  ghost predicate UpTo(log: seq<Deed>, n: nat, past: bool) {
    && (forall i :: 0 <= i < |log| ==> 1 <= log[i].attempt <= n && (log[i].Joined? && log[i].attempt == n ==> past))
    && (forall k :: 1 <= k < n || (k == n && past) ==> Joined(k) in log)
  }

  ghost predicate InOrder(w: World) {
    Ordered(w.log) && UpTo(w.log, |w.recorders|, PastJoin(w.loop)) && |w.recorders| > 0
  }

  lemma {:induction false} LogGrows(log: seq<Deed>, n: nat, d: Deed)
    requires Ordered(log) && UpTo(log, n, false) && d.attempt == n && n > 0
    ensures Ordered(log + [d]) && UpTo(log + [d], n, d.Joined?)
  {
    var all := log + [d];
    assert all[|log|] == d && forall k :: Joined(k) in log ==> Joined(k) in all;
  }

  lemma {:induction false} LogMovesOn(log: seq<Deed>, n: nat)
    requires Ordered(log) && UpTo(log, n, true)
    ensures Ordered(log + [Started(n + 1)]) && UpTo(log + [Started(n + 1)], n + 1, false)
  {
    var all := log + [Started(n + 1)];
    assert forall k :: Joined(k) in log ==> Joined(k) in all;
  }

  /** What one step adds to the log: nothing, a deed of the attempt under way, or the start of the next one. */
  ghost predicate LogStep(w: World, w': World) {
    var n := |w.recorders|;
    || (w'.log == w.log && |w'.recorders| == n && (PastJoin(w'.loop) <==> PastJoin(w.loop)))
    || (!PastJoin(w.loop) && |w'.log| == |w.log| + 1 && w'.log == w.log + [w'.log[|w.log|]] && w'.log[|w.log|].attempt == n
        && |w'.recorders| == n && (PastJoin(w'.loop) <==> w'.log[|w.log|].Joined?))
    || (PastJoin(w.loop) && w'.log == w.log + [Started(n + 1)] && |w'.recorders| == n + 1 && !PastJoin(w'.loop))
  }

  lemma {:induction false} LoopStepLog(w: World, s: Setup, go: bool)
    requires w.WellFormed()
    ensures LogStep(w, LoopStep(w, s, go))
  {
  }

  lemma {:induction false} LogNext(w: World, s: Setup, step: Step)
    requires Layout(w, s.hls)
    ensures LogStep(w, Next(w, s, step))
  {
    match step
    case OfOutput(n, o, m) => if 1 <= n <= |w.recorders| && (o.Fragments? ==> s.hls) { OutputStepLayout(w, s.hls, n, o, m); }
    case OfProcess(n) => if 1 <= n <= |w.recorders| { ExitStepLayout(w, s.hls, n); }
    case OfLoop(go) => LoopStepLog(w, s, go);
    case OfStop =>
  }

  lemma {:induction false} InOrderStep(w: World, w': World)
    requires InOrder(w) && LogStep(w, w')
    ensures InOrder(w')
  {
    if |w'.recorders| > |w.recorders| {
      LogMovesOn(w.log, |w.recorders|);
    } else if w'.log != w.log {
      LogGrows(w.log, |w.recorders|, w'.log[|w.log|]);
    }
  }

  ghost predicate ExitsLogged(w: World) {
    forall i :: 0 <= i < |w.recorders| ==> (Exited(i + 1) in w.log <==> !w.recorders[i].running)
  }

  lemma {:induction false} ExitsLoggedSame(w: World, w': World, d: Deed)
    requires ExitsLogged(w) && !d.Exited? && (w'.log == w.log || w'.log == w.log + [d]) && |w'.recorders| == |w.recorders|
    requires forall i :: 0 <= i < |w.recorders| ==> w'.recorders[i].running == w.recorders[i].running
    ensures ExitsLogged(w')
  {
    forall i | 0 <= i < |w'.recorders| ensures Exited(i + 1) in w'.log <==> !w'.recorders[i].running {
      assert Exited(i + 1) in w'.log <==> Exited(i + 1) in w.log;
    }
  }

  lemma {:induction false} ExitsLoggedExit(w: World, n: nat)
    requires ExitsLogged(w) && 1 <= n <= |w.recorders|
    ensures ExitsLogged(ExitStep(w, n))
  {
    var w' := ExitStep(w, n);
    forall i | 0 <= i < |w'.recorders| ensures Exited(i + 1) in w'.log <==> !w'.recorders[i].running {
      assert Exited(i + 1) in w'.log <==> Exited(i + 1) in w.log || i + 1 == n;
    }
  }

  lemma {:induction false} ExitsLoggedStart(w: World, w': World)
    requires ExitsLogged(w) && InOrder(w) && w'.recorders == w.recorders + [Born] && w'.log == w.log + [Started(|w.recorders| + 1)]
    ensures ExitsLogged(w')
  {
    forall i | 0 <= i < |w'.recorders| ensures Exited(i + 1) in w'.log <==> !w'.recorders[i].running {
      assert Exited(i + 1) in w'.log <==> Exited(i + 1) in w.log;
      if i < |w.recorders| {
        assert w'.recorders[i] == w.recorders[i];
      }
    }
  }

  lemma {:induction false} ExitsLoggedLoop(w: World, s: Setup, go: bool)
    requires ExitsLogged(w) && InOrder(w) && w.WellFormed()
    ensures ExitsLogged(LoopStep(w, s, go))
  {
    if w.loop.Starting? && go {
      ExitsLoggedStart(w, LoopStep(w, s, go));
    } else {
      ExitsLoggedSame(w, LoopStep(w, s, go), Joined(|w.recorders|));
    }
  }

  lemma {:induction false} ExitsLoggedNext(w: World, s: Setup, step: Step)
    requires ExitsLogged(w) && InOrder(w) && w.WellFormed()
    ensures ExitsLogged(Next(w, s, step))
  {
    match step
    case OfOutput(n, o, m) =>
      if 1 <= n <= |w.recorders| && (o.Fragments? ==> s.hls) {
        ExitsLoggedSame(w, OutputStep(w, n, o, m), Sent(n, o, w.recorders[n - 1].Of(o).sent));
      }
    case OfProcess(n) => if 1 <= n <= |w.recorders| { ExitsLoggedExit(w, n); }
    case OfLoop(go) => ExitsLoggedLoop(w, s, go);
    case OfStop => ExitsLoggedSame(w, StopStep(w), Joined(1));
  }

  /** The log and the recorders agree, in every run. */
  ghost predicate Agrees(w: World, hls: bool) {
    Layout(w, hls) && InOrder(w) && ExitsLogged(w) && ChannelsMatch(w)
  }

  predicate Before(log: seq<Deed>, first: Deed, i: nat) {
    exists k :: 0 <= k < i && k < |log| && log[k] == first
  }

  lemma {:induction false} InLogBefore(log: seq<Deed>, d: Deed, i: nat)
    requires Ordered(log) && i < |log| && d in log && d.attempt < log[i].attempt
    ensures Before(log, d, i)
  {
    var k :| 0 <= k < |log| && log[k] == d;
    assert k < i;
  }

  // ---- Everything is forwarded once, in order ----

  /** What was sent on one channel: attempt and place in its list. */
  function Channel(log: seq<Deed>, o: Output): seq<(nat, nat)> {
    if log == [] then [] else
      var d := log[|log| - 1];
      Channel(log[..|log| - 1], o) + (if d.Sent? && d.output == o then [(d.attempt, d.index)] else [])
  }

  function Numbered(n: nat, count: nat): seq<(nat, nat)> {
    seq(count, i => (n, i))
  }

  /** The first `sent` entries of every attempt, attempt after attempt. */
  function Prefixes(recorders: seq<Recorder>, o: Output): seq<(nat, nat)> {
    if recorders == [] then [] else
      var n := |recorders|;
      Prefixes(recorders[..n - 1], o) + Numbered(n, recorders[n - 1].Of(o).sent)
  }

  ghost predicate ChannelsMatch(w: World) {
    forall o: Output :: Channel(w.log, o) == Prefixes(w.recorders, o)
  }

  lemma {:induction false} ChannelStep(log: seq<Deed>, d: Deed, o: Output)
    ensures Channel(log + [d], o) == Channel(log, o) + (if d.Sent? && d.output == o then [(d.attempt, d.index)] else [])
  {
    assert (log + [d])[..|log|] == log;
  }

  lemma {:induction false} PrefixesSame(a: seq<Recorder>, b: seq<Recorder>, o: Output)
    requires |a| == |b| && forall i :: 0 <= i < |a| ==> a[i].Of(o).sent == b[i].Of(o).sent
    ensures Prefixes(a, o) == Prefixes(b, o)
  {
    if a != [] {
      PrefixesSame(a[..|a| - 1], b[..|a| - 1], o);
    }
  }

  lemma {:induction false} PrefixesLast(a: seq<Recorder>, b: seq<Recorder>, o: Output)
    requires |a| == |b| > 0 && a[..|a| - 1] == b[..|a| - 1] && b[|a| - 1].Of(o).sent == a[|a| - 1].Of(o).sent + 1
    ensures Prefixes(b, o) == Prefixes(a, o) + [(|a|, a[|a| - 1].Of(o).sent)]
  {
    var n, c := |a|, a[|a| - 1].Of(o).sent;
    assert Numbered(n, c + 1) == Numbered(n, c) + [(n, c)];
  }

  lemma {:induction false} ChannelsSame(w: World, w': World, d: Deed)
    requires ChannelsMatch(w) && !d.Sent? && (w'.log == w.log || w'.log == w.log + [d]) && |w'.recorders| == |w.recorders|
    requires forall i :: 0 <= i < |w.recorders| ==> w'.recorders[i].segments.sent == w.recorders[i].segments.sent && w'.recorders[i].fragments.sent == w.recorders[i].fragments.sent
    ensures ChannelsMatch(w')
  {
    forall o: Output ensures Channel(w'.log, o) == Prefixes(w'.recorders, o) {
      ChannelStep(w.log, d, o);
      PrefixesSame(w.recorders, w'.recorders, o);
    }
  }

  lemma {:induction false} ChannelsStart(w: World, w': World)
    requires ChannelsMatch(w) && w'.recorders == w.recorders + [Born] && w'.log == w.log + [Started(|w.recorders| + 1)]
    ensures ChannelsMatch(w')
  {
    forall o: Output ensures Channel(w'.log, o) == Prefixes(w'.recorders, o) {
      ChannelStep(w.log, Started(|w.recorders| + 1), o);
      assert w'.recorders[..|w.recorders|] == w.recorders && Numbered(|w.recorders| + 1, 0) == [];
    }
  }

  lemma {:induction false} ChannelsSend(w: World, w': World, r: Recorder, o: Output)
    requires ChannelsMatch(w) && |w.recorders| > 0 && w'.recorders == w.recorders[|w.recorders| - 1 := r]
    requires r.Of(o).sent == w.Last().Of(o).sent + 1 && (forall q: Output :: q != o ==> r.Of(q).sent == w.Last().Of(q).sent)
    requires w'.log == w.log + [Sent(|w.recorders|, o, w.Last().Of(o).sent)]
    ensures ChannelsMatch(w')
  {
    forall q: Output ensures Channel(w'.log, q) == Prefixes(w'.recorders, q) {
      ChannelStep(w.log, Sent(|w.recorders|, o, w.Last().Of(o).sent), q);
      if q == o {
        PrefixesLast(w.recorders, w'.recorders, o);
      } else {
        PrefixesSame(w.recorders, w'.recorders, q);
      }
    }
  }

  lemma {:induction false} ChannelsOutput(w: World, hls: bool, n: nat, o: Output, m: Move)
    requires Layout(w, hls) && ChannelsMatch(w) && 1 <= n <= |w.recorders| && (o.Fragments? ==> hls)
    ensures ChannelsMatch(OutputStep(w, n, o, m))
  {
    var r := w.recorders[n - 1];
    LaneStepSane(r.Of(o), r.running, m);
    OutputStepLayout(w, hls, n, o, m);
    var lane := LaneStep(r.Of(o), r.running, m);
    if lane.sent > r.Of(o).sent {
      ChannelsSend(w, OutputStep(w, n, o, m), r.With(o, lane), o);
    } else {
      ChannelsSame(w, OutputStep(w, n, o, m), Joined(n));
    }
  }

  lemma {:induction false} ChannelsNext(w: World, s: Setup, step: Step)
    requires Layout(w, s.hls) && ChannelsMatch(w)
    ensures ChannelsMatch(Next(w, s, step))
  {
    var w', n := Next(w, s, step), |w.recorders|;
    if step.OfOutput? {
      if 1 <= step.n <= n && (step.output.Fragments? ==> s.hls) {
        ChannelsOutput(w, s.hls, step.n, step.output, step.move);
      }
    } else if step.OfLoop? && w.loop.Starting? && step.go {
      ChannelsStart(w, w');
    } else {
      ChannelsSame(w, w', if step.OfProcess? then Exited(step.n) else Joined(n));
    }
  }

  predicate WholeIfRead(r: Recorder, hls: bool) {
    && r.segments.stage.Drained? && r.segments.sent == r.segments.seen <= r.segments.listed
    && (r.segments.stage.ok ==> r.segments.sent == r.segments.listed)
    && (hls ==> r.fragments.stage.Drained? && r.fragments.sent == r.fragments.seen <= r.fragments.listed)
    && (hls && r.fragments.stage.ok ==> r.fragments.sent == r.fragments.listed)
  }

  lemma {:induction false} AgreesNext(w: World, s: Setup, step: Step)
    requires Agrees(w, s.hls)
    ensures Agrees(Next(w, s, step), s.hls)
  {
    LayoutNext(w, s, step);
    LogNext(w, s, step);
    InOrderStep(w, Next(w, s, step));
    ExitsLoggedNext(w, s, step);
    ChannelsNext(w, s, step);
  }

  lemma {:induction false} AgreesBegun(hls: bool)
    ensures Agrees(Begun, hls)
  {
    forall o: Output ensures Channel(Begun.log, o) == Prefixes(Begun.recorders, o) {
      assert Begun.log[..0] == [] && Begun.recorders[..0] == [] && Numbered(1, 0) == [];
    }
  }

  lemma {:induction false} AgreesFrom(w: World, s: Setup, steps: seq<Step>, k: nat)
    requires Agrees(w, s.hls) && k <= |steps|
    ensures Agrees(Run(w, s, steps, k), s.hls)
  {
    if k > 0 {
      AgreesFrom(w, s, steps, k - 1);
      AgreesNext(Run(w, s, steps, k - 1), s, steps[k - 1]);
    }
  }

  lemma {:induction false} AgreesRun(s: Setup, steps: seq<Step>, k: nat)
    requires k <= |steps|
    ensures Agrees(Run(Begun, s, steps, k), s.hls)
  {
    AgreesBegun(s.hls);
    AgreesFrom(Begun, s, steps, k);
  }

  // ---- The results ----

  /** Whatever is started or forwarded for an attempt comes after the previous ffmpeg exited and after the join. */
  ghost predicate PredecessorOver(log: seq<Deed>) {
    forall i :: 0 <= i < |log| && log[i].attempt > 1 ==>
      Before(log, Exited(log[i].attempt - 1), i) && Before(log, Joined(log[i].attempt - 1), i)
  }

  ghost predicate OnlyLastRuns(w: World) {
    forall i :: 0 <= i < |w.recorders| && w.recorders[i].running ==> i == |w.recorders| - 1 && !w.loop.Finished?
  }

  lemma {:induction false} AgreesOrders(w: World, hls: bool)
    requires Agrees(w, hls)
    ensures PredecessorOver(w.log)
  {
    forall i | 0 <= i < |w.log| && w.log[i].attempt > 1
      ensures Before(w.log, Exited(w.log[i].attempt - 1), i) && Before(w.log, Joined(w.log[i].attempt - 1), i)
    {
      var n := w.log[i].attempt - 1;
      assert 1 <= n < |w.recorders| && Over(w.recorders[n - 1], hls) && Joined(n) in w.log;
      assert Exited(n - 1 + 1) in w.log;
      InLogBefore(w.log, Exited(n), i);
      InLogBefore(w.log, Joined(n), i);
    }
  }

  /** In every interleaving no recorder starts, and nothing of an attempt is forwarded, before the previous ffmpeg has
      exited and its forwarders have been joined; nothing of an attempt follows its join. So at most one ffmpeg runs,
      and none once the loop has ended. */
  lemma {:induction false} OneAtATime(s: Setup, steps: seq<Step>, k: nat)
    requires k <= |steps|
    ensures PredecessorOver(Run(Begun, s, steps, k).log) && Ordered(Run(Begun, s, steps, k).log)
    ensures OnlyLastRuns(Run(Begun, s, steps, k))
  {
    AgreesRun(s, steps, k);
    AgreesOrders(Run(Begun, s, steps, k), s.hls);
  }

  ghost predicate JoinedAreWhole(w: World, hls: bool) {
    forall i :: 0 <= i < |w.recorders| && Joined(i + 1) in w.log ==> WholeIfRead(w.recorders[i], hls)
  }

  lemma {:induction false} AgreesWhole(w: World, hls: bool)
    requires Agrees(w, hls)
    ensures JoinedAreWhole(w, hls)
  {
    forall i | 0 <= i < |w.recorders| && Joined(i + 1) in w.log ensures WholeIfRead(w.recorders[i], hls) {
      assert i < |w.recorders| - 1 || PastJoin(w.loop);
      assert Over(w.recorders[i], hls) && Sane(w.recorders[i]);
    }
  }

  /** In every interleaving each channel carries, attempt after attempt, the first entries of each list, each once and in
      order. Once an attempt is joined that is every entry read, and the whole list if the last read of it succeeded. */
  lemma {:induction false} ForwardedOnceInOrder(s: Setup, steps: seq<Step>, k: nat, o: Output)
    requires k <= |steps|
    ensures Channel(Run(Begun, s, steps, k).log, o) == Prefixes(Run(Begun, s, steps, k).recorders, o)
    ensures JoinedAreWhole(Run(Begun, s, steps, k), s.hls)
  {
    AgreesRun(s, steps, k);
    AgreesWhole(Run(Begun, s, steps, k), s.hls);
  }

  // ---- Passes of the loop ----

  /** The finished passes as `Supervise` sees them. */
  function WorldOf(past: seq<Attempt>): nat -> Attempt {
    n => if 1 <= n <= |past| then past[n - 1] else Attempt(0, false, false, false, false)
  }

  lemma {:induction false} StreakKept(past: seq<Attempt>, pass: Attempt, n: nat)
    requires n <= |past|
    ensures Streak(WorldOf(past + [pass]), n) == Streak(WorldOf(past), n)
  {
    if n > 0 {
      StreakKept(past, pass, n - 1);
    }
  }

  /** The first `n` passes were each followed by a restart. */
  ghost predicate AllRestart(past: seq<Attempt>, max: nat, n: nat) {
    forall i :: 1 <= i <= n ==> Restarts(WorldOf(past), max, i)
  }

  lemma {:induction false} AllRestartKept(past: seq<Attempt>, pass: Attempt, max: nat, n: nat)
    requires n <= |past| && AllRestart(past, max, n)
    ensures AllRestart(past + [pass], max, n)
  {
    forall i | 1 <= i <= n ensures Restarts(WorldOf(past + [pass]), max, i) {
      assert Restarts(WorldOf(past), max, i);
      StreakKept(past, pass, i);
    }
  }

  function NextStreak(streak: nat, sent: nat): nat {
    if sent > 0 then 0 else streak + 1
  }

  /** What `streak` and the passes so far say during attempt `n`, of which `sent` segments have been forwarded. */
  ghost predicate Passes(past: seq<Attempt>, loop: Loop, streak: nat, n: nat, sent: nat, max: nat) {
    && n >= 1 && |past| == (if loop.Finished? then n else n - 1) && AllRestart(past, max, n - 1)
    && match loop
       case BackingOff => streak == NextStreak(Streak(WorldOf(past), n - 1), sent) < max && n < max * MAX_TOTAL_RESTART_MULTIPLIER
       case Starting => streak == NextStreak(Streak(WorldOf(past), n - 1), sent) < max && n < max * MAX_TOTAL_RESTART_MULTIPLIER
       case Finished(gaveUp) =>
         !Restarts(WorldOf(past), max, n) && (gaveUp <==> GivesUp(WorldOf(past), max, n)) && n <= max * MAX_TOTAL_RESTART_MULTIPLIER
       case _ => streak == Streak(WorldOf(past), n - 1) < max && n <= max * MAX_TOTAL_RESTART_MULTIPLIER
  }

  /** The pass just finished, as the sequential loop reads it. */
  lemma {:induction false} PassEnds(past: seq<Attempt>, pass: Attempt, max: nat)
    requires AllRestart(past, max, |past|)
    ensures AllRestart(past + [pass], max, |past|)
    ensures WorldOf(past + [pass])(|past| + 1) == pass
    ensures Streak(WorldOf(past + [pass]), |past| + 1) == NextStreak(Streak(WorldOf(past), |past|), pass.segments)
  {
    AllRestartKept(past, pass, max, |past|);
    StreakKept(past, pass, |past|);
  }

  lemma {:induction false} PassesJudged(w: World, s: Setup)
    requires w.WellFormed() && s.maxAttempts >= 1 && w.loop.Asking?
    requires Passes(w.past, w.loop, w.streak, |w.recorders|, w.Last().segments.sent, s.maxAttempts)
    ensures var w' := Judged(w, s);
      Passes(w'.past, w'.loop, w'.streak, |w.recorders|, w.Last().segments.sent, s.maxAttempts)
  {
    var w' := Judged(w, s);
    if |w'.past| > |w.past| {
      PassEnds(w.past, w'.past[|w.past|], s.maxAttempts);
    }
  }

  lemma {:induction false} PassesStart(w: World, s: Setup, go: bool)
    requires w.WellFormed() && s.maxAttempts >= 1 && w.loop.Starting?
    requires Passes(w.past, w.loop, w.streak, |w.recorders|, w.Last().segments.sent, s.maxAttempts)
    ensures var w' := LoopStep(w, s, go);
      Passes(w'.past, w'.loop, w'.streak, |w'.recorders|, w'.Last().segments.sent, s.maxAttempts)
  {
    PassEnds(w.past, Attempt(w.Last().segments.sent, false, false, false, go), s.maxAttempts);
  }

  /** The join of a stopped recorder, and a stop during the backoff. */
  lemma {:induction false} PassesStopped(w: World, s: Setup, go: bool)
    requires w.WellFormed() && s.maxAttempts >= 1 && (w.loop.Waiting? || w.loop.BackingOff?)
    requires Passes(w.past, w.loop, w.streak, |w.recorders|, w.Last().segments.sent, s.maxAttempts)
    ensures var w' := LoopStep(w, s, go);
      Passes(w'.past, w'.loop, w'.streak, |w'.recorders|, w'.Last().segments.sent, s.maxAttempts)
  {
    PassEnds(w.past, Attempt(w.Last().segments.sent, w.loop.Waiting?, false, w.loop.BackingOff?, false), s.maxAttempts);
  }

  lemma {:induction false} PassesLoop(w: World, s: Setup, go: bool)
    requires w.WellFormed() && s.maxAttempts >= 1
    requires Passes(w.past, w.loop, w.streak, |w.recorders|, w.Last().segments.sent, s.maxAttempts)
    ensures var w' := LoopStep(w, s, go);
      Passes(w'.past, w'.loop, w'.streak, |w'.recorders|, w'.Last().segments.sent, s.maxAttempts)
  {
    match w.loop
    case Asking => PassesJudged(w, s);
    case Starting => PassesStart(w, s, go);
    case Waiting => PassesStopped(w, s, go);
    case BackingOff => PassesStopped(w, s, go);
    case _ =>
  }

  ghost predicate PassesOf(w: World, max: nat) {
    |w.recorders| > 0 && exists n: nat :: n == |w.recorders| && Passes(w.past, w.loop, w.streak, n, w.Last().segments.sent, max)
  }

  /** The segments a pass is said to have forwarded are those its forwarder sent. */
  ghost predicate FactsHold(w: World) {
    && (if w.loop.Finished? then |w.past| == |w.recorders| else |w.past| == |w.recorders| - 1)
    && forall i :: 0 <= i < |w.past| ==> w.past[i].segments == w.recorders[i].segments.sent
  }

  /** A step that is not the loop's leaves what earlier attempts forwarded, and the last one once it is joined. */
  lemma {:induction false} OthersKeepSent(w: World, s: Setup, step: Step, i: nat)
    requires Layout(w, s.hls) && !step.OfLoop? && i < |w.recorders| && (i < |w.recorders| - 1 || PastJoin(w.loop))
    ensures |Next(w, s, step).recorders| == |w.recorders| && Next(w, s, step).recorders[i].segments.sent == w.recorders[i].segments.sent
  {
    if step.OfOutput? && step.n == i + 1 {
      var r := w.recorders[i];
      assert Over(r, s.hls) && Sane(r);
      LaneStepSane(r.Of(step.output), r.running, step.move);
    }
  }

  lemma {:induction false} PassesOther(w: World, s: Setup, step: Step)
    requires Layout(w, s.hls) && !step.OfLoop? && PassesOf(w, s.maxAttempts)
    ensures PassesOf(Next(w, s, step), s.maxAttempts)
  {
    var w', n := Next(w, s, step), |w.recorders|;
    assert |w'.recorders| == n && w'.past == w.past && w'.loop == w.loop && w'.streak == w.streak;
    if PastJoin(w.loop) {
      OthersKeepSent(w, s, step, n - 1);
    }
    assert Passes(w'.past, w'.loop, w'.streak, n, w'.Last().segments.sent, s.maxAttempts);
  }

  lemma {:induction false} PassesNext(w: World, s: Setup, step: Step)
    requires Layout(w, s.hls) && s.maxAttempts >= 1 && PassesOf(w, s.maxAttempts)
    ensures PassesOf(Next(w, s, step), s.maxAttempts)
  {
    if step.OfLoop? {
      PassesLoop(w, s, step.go);
    } else {
      PassesOther(w, s, step);
    }
  }

  lemma {:induction false} FactsLoop(w: World, s: Setup, go: bool)
    requires Layout(w, s.hls) && FactsHold(w)
    ensures FactsHold(LoopStep(w, s, go))
  {
    var w' := LoopStep(w, s, go);
    forall i | 0 <= i < |w'.past| ensures w'.past[i].segments == w'.recorders[i].segments.sent {
      if i < |w.past| {
        assert w'.past[i] == w.past[i];
      }
    }
  }

  lemma {:induction false} FactsNext(w: World, s: Setup, step: Step)
    requires Layout(w, s.hls) && FactsHold(w)
    ensures FactsHold(Next(w, s, step))
  {
    if step.OfLoop? {
      FactsLoop(w, s, step.go);
    } else {
      forall i | 0 <= i < |w.past| ensures w.past[i].segments == Next(w, s, step).recorders[i].segments.sent {
        OthersKeepSent(w, s, step, i);
      }
    }
  }

  ghost predicate Tallies(w: World, max: nat) {
    PassesOf(w, max) && FactsHold(w)
  }

  lemma {:induction false} TalliesNext(w: World, s: Setup, step: Step)
    requires Layout(w, s.hls) && s.maxAttempts >= 1 && Tallies(w, s.maxAttempts)
    ensures Tallies(Next(w, s, step), s.maxAttempts)
  {
    PassesNext(w, s, step);
    FactsNext(w, s, step);
  }

  lemma {:induction false} TalliesBegun(max: nat)
    requires max >= 1
    ensures Tallies(Begun, max)
  {
    assert Passes(Begun.past, Begun.loop, Begun.streak, 1, Begun.Last().segments.sent, max);
  }

  lemma {:induction false} TalliesRun(s: Setup, steps: seq<Step>, k: nat)
    requires k <= |steps| && s.maxAttempts >= 1
    ensures Tallies(Run(Begun, s, steps, k), s.maxAttempts)
  {
    if k == 0 {
      TalliesBegun(s.maxAttempts);
    } else {
      TalliesRun(s, steps, k - 1);
      AgreesRun(s, steps, k - 1);
      TalliesNext(Run(Begun, s, steps, k - 1), s, steps[k - 1]);
    }
  }

  /** In every interleaving there are at most five times the configured number of recorders, and once the loop has ended
      any outcome that meets the promise of `Supervise`, given how the passes went, is the outcome of the run. */
  lemma {:induction false} EndsAsSupervised(s: Setup, steps: seq<Step>, k: nat, recorders: nat, gaveUp: bool)
    requires k <= |steps| && s.maxAttempts >= 1
    requires var world := WorldOf(Run(Begun, s, steps, k).past);
      && recorders >= 1 && (forall n :: 1 <= n < recorders ==> Restarts(world, s.maxAttempts, n))
      && !Restarts(world, s.maxAttempts, recorders) && (gaveUp <==> GivesUp(world, s.maxAttempts, recorders))
    ensures var w := Run(Begun, s, steps, k);
      && |w.recorders| <= s.maxAttempts * MAX_TOTAL_RESTART_MULTIPLIER && FactsHold(w)
      && (w.loop.Finished? ==> |w.recorders| == recorders && w.loop.gaveUp == gaveUp)
  {
    var w := Run(Begun, s, steps, k);
    TalliesRun(s, steps, k);
    if w.loop.Finished? {
      OneOutcome(WorldOf(w.past), s.maxAttempts, |w.recorders|, recorders);
    }
  }

  lemma {:induction false} OneOutcome(world: nat -> Attempt, max: nat, n: nat, m: nat)
    requires 1 <= n && 1 <= m && !Restarts(world, max, n) && !Restarts(world, max, m)
    requires forall i :: 1 <= i < n ==> Restarts(world, max, i)
    requires forall i :: 1 <= i < m ==> Restarts(world, max, i)
    ensures n == m
  {
  }

  // ---- Stopping ----

  predicate HasRead(stop: Stop) {
    stop.Read? || stop.Killing? || stop.Returned?
  }

  /** Where the loop can be, `n` recorders started, once the channel is closed and once the current recorder is read. */
  predicate LoopFits(loop: Loop, n: nat, cur: nat, stop: Stop) {
    && (if loop.Publishing? then cur == n || cur == n - 1 else cur == n)
    && (!stop.NotAsked? ==> n <= stop.had + 1 && (n == stop.had + 1 ==> !loop.BackingOff? && !loop.Starting?))
    && (HasRead(stop) ==>
          && stop.of <= n <= stop.of + 1
          && (n == stop.of + 1 ==> stop.late && !loop.BackingOff? && !loop.Starting?)
          && (!stop.late ==> !loop.BackingOff? && !loop.Starting?))
  }

  ghost predicate StopFits(w: World) {
    && w.WellFormed() && LoopFits(w.loop, |w.recorders|, w.cur, w.stop) && (w.loop.Stopping? ==> w.Last().stopped)
    && (w.stop.Returned? ==> !w.recorders[w.stop.of - 1].running)
    && (!w.stop.NotAsked? && w.loop.Waiting? && w.Last().running && !w.Last().stopped ==>
          w.stop.Closed? || (w.stop.Read? && w.stop.of == |w.recorders|))
  }

  lemma {:induction false} LoopFitsLoop(w: World, s: Setup, go: bool)
    requires w.WellFormed() && LoopFits(w.loop, |w.recorders|, w.cur, w.stop)
    ensures var w' := LoopStep(w, s, go);
      LoopFits(w'.loop, |w'.recorders|, w'.cur, w'.stop)
  {
  }

  lemma {:induction false} StopFitsLoop(w: World, s: Setup, go: bool)
    requires StopFits(w)
    ensures StopFits(LoopStep(w, s, go))
  {
    LoopFitsLoop(w, s, go);
  }

  lemma {:induction false} StopFitsNext(w: World, s: Setup, step: Step)
    requires StopFits(w)
    ensures StopFits(Next(w, s, step))
  {
    if step.OfLoop? {
      StopFitsLoop(w, s, step.go);
    }
  }

  lemma {:induction false} StopFitsRun(w: World, s: Setup, steps: seq<Step>, k: nat)
    requires StopFits(w) && k <= |steps|
    ensures StopFits(Run(w, s, steps, k))
  {
    if k > 0 {
      StopFitsRun(w, s, steps, k - 1);
      StopFitsNext(Run(w, s, steps, k - 1), s, steps[k - 1]);
    }
  }

  /** Recorder `i` is stopped, or the stop or the loop is still to look at it. */
  predicate InReach(w: World, i: nat)
    requires i < |w.recorders|
  {
    || w.recorders[i].stopped
    || w.stop.NotAsked? || w.stop.Closed? || (w.stop.Read? && w.stop.of == i + 1)
    || w.loop.Publishing? || w.loop.Checking?
  }

  ghost predicate AllInReach(w: World) {
    forall i :: 0 <= i < |w.recorders| && w.recorders[i].running ==> InReach(w, i)
  }

  lemma {:induction false} StopFitsReach(w: World, hls: bool)
    requires Layout(w, hls) && StopFits(w)
    ensures AllInReach(w)
  {
  }

  /** In every interleaving at most one recorder starts once the stop has begun, and none escapes: a running one has been
      told to stop, or the stop or the loop is still to look at it. */
  lemma {:induction false} StopReachesAll(s: Setup, steps: seq<Step>, k: nat)
    requires k <= |steps|
    ensures var w := Run(Begun, s, steps, k);
      AllInReach(w) && (!w.stop.NotAsked? ==> |w.recorders| <= w.stop.had + 1)
  {
    AgreesRun(s, steps, k);
    StopFitsRun(Begun, s, steps, k);
    StopFitsReach(Run(Begun, s, steps, k), s.hls);
  }

  // ---- When the stop returns too early ----

  /** A recorder that the stop does not know of runs, or can still be started. */
  predicate Exposed(w: World)
    requires w.WellFormed()
  {
    PastCheck(w) && (w.loop.Publishing? ==> w.Last().running)
  }

  ghost predicate Sealed(w: World) {
    && StopFits(w) && !w.stop.NotAsked? && !Exposed(w)
    && (HasRead(w.stop) ==> w.stop.of == |w.recorders| || !w.Last().running)
  }

  lemma {:induction false} SealedLoop(w: World, s: Setup, go: bool)
    requires Sealed(w)
    ensures Sealed(LoopStep(w, s, go))
  {
    StopFitsLoop(w, s, go);
  }

  lemma {:induction false} SealedNext(w: World, s: Setup, step: Step)
    requires Sealed(w)
    ensures Sealed(Next(w, s, step))
  {
    if step.OfLoop? {
      SealedLoop(w, s, step.go);
    } else {
      StopFitsNext(w, s, step);
    }
  }

  lemma {:induction false} SealedRun(w: World, s: Setup, steps: seq<Step>, k: nat)
    requires Sealed(w) && k <= |steps|
    ensures Sealed(Run(w, s, steps, k))
  {
    if k > 0 {
      SealedRun(w, s, steps, k - 1);
      SealedNext(Run(w, s, steps, k - 1), s, steps[k - 1]);
    }
  }

  /** The stop has returned and a recorder runs. */
  predicate RunsAfterStop(w: World) {
    w.stop.Returned? && exists i :: 0 <= i < |w.recorders| && w.recorders[i].running
  }

  ghost predicate CanRunAfterStop(w: World, s: Setup)
    requires w.WellFormed()
  {
    exists steps: seq<Step> :: RunsAfterStop(Run(w, s, steps, |steps|))
  }

  /** Runs of equal steps from equal worlds end alike. */
  lemma {:induction false} RunFirst(w: World, s: Setup, all: seq<Step>, rest: seq<Step>, k: nat)
    requires w.WellFormed() && k <= |rest| && all != [] && all[1..] == rest
    ensures Run(w, s, all, k + 1) == Run(Next(w, s, all[0]), s, rest, k)
  {
    if k == 0 {
      RunOne(w, s, all, 0);
    } else {
      RunFirst(w, s, all, rest, k - 1);
      RunOne(w, s, all, k);
      RunOne(Next(w, s, all[0]), s, rest, k - 1);
      assert all[k] == all[1..][k - 1];
    }
  }

  lemma {:induction false} RunOne(w: World, s: Setup, steps: seq<Step>, k: nat)
    requires w.WellFormed() && k < |steps|
    ensures Run(w, s, steps, k + 1) == Next(Run(w, s, steps, k), s, steps[k])
  {
  }

  lemma {:induction false} StepLeads(w: World, s: Setup, step: Step)
    requires w.WellFormed() && CanRunAfterStop(Next(w, s, step), s)
    ensures CanRunAfterStop(w, s)
  {
    var rest: seq<Step> :| RunsAfterStop(Run(Next(w, s, step), s, rest, |rest|));
    var all := [step] + rest;
    assert all[1..] == rest && |all| == |rest| + 1;
    RunFirst(w, s, all, rest, |rest|);
    assert RunsAfterStop(Run(w, s, all, |all|));
  }

  lemma {:induction false} MissedLeads(w: World, s: Setup)
    requires w.WellFormed() && w.stop.Closed? && w.cur < |w.recorders| && w.Last().running && !w.recorders[w.cur - 1].running
    ensures CanRunAfterStop(w, s)
  {
    var read := Next(w, s, OfStop);
    var killing := Next(read, s, OfStop);
    var returned := Next(killing, s, OfStop);
    var none: seq<Step> := [];
    assert returned.recorders[|w.recorders| - 1].running && RunsAfterStop(Run(returned, s, none, |none|));
    StepLeads(killing, s, OfStop);
    StepLeads(read, s, OfStop);
    StepLeads(w, s, OfStop);
  }

  lemma {:induction false} StartingLeads(w: World, s: Setup)
    requires w.WellFormed() && w.stop.Closed? && w.loop.Starting? && !w.Last().running && w.cur == |w.recorders|
    ensures CanRunAfterStop(w, s)
  {
    MissedLeads(Next(w, s, OfLoop(true)), s);
    StepLeads(w, s, OfLoop(true));
  }

  /** In every reachable state in which the stop is about to read the current recorder: it can return with a recorder
      running if and only if the loop is past its last look at the channel, and what it has started has not ended. */
  lemma {:induction false} ReturnsEarlyExactly(s: Setup, steps: seq<Step>, k: nat)
    requires k <= |steps| && Run(Begun, s, steps, k).stop.Closed?
    ensures CanRunAfterStop(Run(Begun, s, steps, k), s) <==> Exposed(Run(Begun, s, steps, k))
  {
    var w := Run(Begun, s, steps, k);
    AgreesRun(s, steps, k);
    StopFitsRun(Begun, s, steps, k);
    if Exposed(w) {
      ExposedLeads(w, s);
    } else {
      SealedHolds(w, s);
    }
  }

  lemma {:induction false} ExposedLeads(w: World, s: Setup)
    requires Layout(w, s.hls) && StopFits(w) && w.stop.Closed? && Exposed(w)
    ensures CanRunAfterStop(w, s)
  {
    if w.loop.BackingOff? {
      StartingLeads(Next(w, s, OfLoop(true)), s);
      StepLeads(w, s, OfLoop(true));
    } else if w.loop.Starting? {
      StartingLeads(w, s);
    } else {
      MissedLeads(w, s);
    }
  }

  lemma {:induction false} SealedHolds(w: World, s: Setup)
    requires Agrees(w, s.hls) && Sealed(w)
    ensures !CanRunAfterStop(w, s)
  {
    forall steps: seq<Step> ensures !RunsAfterStop(Run(w, s, steps, |steps|)) {
      AgreesFrom(w, s, steps, |steps|);
      SealedRun(w, s, steps, |steps|);
      SealedQuiet(Run(w, s, steps, |steps|), s.hls);
    }
  }

  lemma {:induction false} SealedQuiet(w: World, hls: bool)
    requires Layout(w, hls) && Sealed(w)
    ensures !RunsAfterStop(w)
  {
  }
}
