/** A run of the supervisor in which the stop returns while a recorder runs. */
module EarlyReturn {
  import opened RecorderSupervisor
  import opened RecorderRuns

  ghost predicate Reached(s: Setup, w: World) {
    exists steps: seq<Step> :: Run(Begun, s, steps, |steps|) == w
  }

  /** A run depends on the steps taken so far only. */
  lemma {:induction false} RunPrefix(s: Setup, steps: seq<Step>, step: Step, k: nat)
    requires k <= |steps|
    ensures Run(Begun, s, steps + [step], k) == Run(Begun, s, steps, k)
  {
    var j := 0;
    while j < k
      invariant 0 <= j <= k && Run(Begun, s, steps + [step], j) == Run(Begun, s, steps, j)
    {
      RunOne(Begun, s, steps + [step], j);
      RunOne(Begun, s, steps, j);
      assert (steps + [step])[j] == steps[j];
      j := j + 1;
    }
  }

  lemma {:induction false} RunLast(s: Setup, steps: seq<Step>, step: Step)
    ensures var all := steps + [step]; Run(Begun, s, all, |all|) == Next(Run(Begun, s, steps, |steps|), s, step)
  {
    var all := steps + [step];
    assert |all| == |steps| + 1 && all[|steps|] == step;
    RunPrefix(s, steps, step, |steps|);
    RunOne(Begun, s, all, |steps|);
  }

  lemma {:induction false} ReachedNext(s: Setup, w: World, step: Step)
    requires w.WellFormed() && Reached(s, w)
    ensures Reached(s, Next(w, s, step))
  {
    var steps: seq<Step> :| Run(Begun, s, steps, |steps|) == w;
    RunLast(s, steps, step);
  }

  /** The first attempt, before any stop. */
  function Alone(r: Recorder, loop: Loop, log: seq<Deed>): World {
    World([r], loop, 0, 1, NotAsked, [], log)
  }

  /** One move of a forwarder that sends nothing. */
  lemma {:induction false} AloneMoves(s: Setup, r: Recorder, loop: Loop, log: seq<Deed>, o: Output, m: Move, lane: Lane)
    requires Reached(s, Alone(r, loop, log)) && (o.Fragments? ==> s.hls)
    requires lane == LaneStep(r.Of(o), r.running, m) && lane.sent == r.Of(o).sent
    ensures Reached(s, Alone(r.With(o, lane), loop, log))
  {
    AloneMove(s, r, loop, log, o, m);
    ReachedNext(s, Alone(r, loop, log), OfOutput(1, o, m));
  }

  lemma {:induction false} AloneMove(s: Setup, r: Recorder, loop: Loop, log: seq<Deed>, o: Output, m: Move)
    requires o.Fragments? ==> s.hls
    ensures var lane := LaneStep(r.Of(o), r.running, m);
      Next(Alone(r, loop, log), s, OfOutput(1, o, m))
        == Alone(r.With(o, lane), loop, if lane.sent > r.Of(o).sent then log + [Sent(1, o, r.Of(o).sent)] else log)
  {
  }

  const SEGMENT: Lane := Lane(1, 1, 1, Watching)

  const Forwarding: seq<Deed> := [Started(1)] + [Sent(1, Segments, 0)]

  lemma {:induction false} ReachesSpawned(s: Setup)
    ensures Reached(s, Alone(Spawned(Born, s.hls), Waiting, [Started(1)]))
  {
    var none: seq<Step> := [];
    assert Run(Begun, s, none, |none|) == Begun;
    var published := Begun.(loop := Checking);
    assert Next(Begun, s, OfLoop(false)) == published;
    ReachedNext(s, Begun, OfLoop(false));
    assert Next(published, s, OfLoop(false)) == Alone(Spawned(Born, s.hls), Waiting, [Started(1)]);
    ReachedNext(s, published, OfLoop(false));
  }

  lemma {:induction false} ReachesListed(s: Setup)
    ensures Reached(s, Alone(Spawned(Born, s.hls).(segments := Lane(1, 1, 0, Watching)), Waiting, [Started(1)]))
  {
    var r := Spawned(Born, s.hls);
    var listed := r.With(Segments, Lane(1, 0, 0, Watching));
    ReachesSpawned(s);
    AloneMoves(s, r, Waiting, [Started(1)], Segments, List, Lane(1, 0, 0, Watching));
    AloneMoves(s, listed, Waiting, [Started(1)], Segments, Poll(true), Lane(1, 1, 0, Watching));
    assert listed.With(Segments, Lane(1, 1, 0, Watching)) == r.(segments := Lane(1, 1, 0, Watching));
  }

  lemma {:induction false} SegmentSent(s: Setup, r: Recorder)
    requires r.segments == Lane(1, 1, 0, Watching)
    ensures Next(Alone(r, Waiting, [Started(1)]), s, OfOutput(1, Segments, Send)) == Alone(r.(segments := SEGMENT), Waiting, Forwarding)
  {
  }

  lemma {:induction false} ReachesForwarding(s: Setup)
    ensures Reached(s, Alone(Spawned(Born, s.hls).(segments := SEGMENT), Waiting, Forwarding))
  {
    var r := Spawned(Born, s.hls).(segments := Lane(1, 1, 0, Watching));
    ReachesListed(s);
    SegmentSent(s, r);
    ReachedNext(s, Alone(r, Waiting, [Started(1)]), OfOutput(1, Segments, Send));
  }

  lemma {:induction false} ReachesExited(s: Setup)
    ensures Reached(s, Alone(Spawned(Born, s.hls).(segments := SEGMENT, running := false), Waiting, Forwarding + [Exited(1)]))
  {
    var r := Spawned(Born, s.hls).(segments := SEGMENT);
    ReachesForwarding(s);
    assert Next(Alone(r, Waiting, Forwarding), s, OfProcess(1)) == Alone(r.(running := false), Waiting, Forwarding + [Exited(1)]);
    ReachedNext(s, Alone(r, Waiting, Forwarding), OfProcess(1));
  }

  lemma {:induction false} LaneCancels(s: Setup, r: Recorder, loop: Loop, log: seq<Deed>, o: Output)
    requires Reached(s, Alone(r, loop, log)) && (o.Fragments? ==> s.hls) && !r.running && r.Of(o).stage.Watching?
    ensures Reached(s, Alone(r.With(o, r.Of(o).(stage := Cancelled)), loop, log))
  {
    AloneMoves(s, r, loop, log, o, SeeExit, r.Of(o).(stage := Cancelled));
  }

  lemma {:induction false} LaneReadsLast(s: Setup, r: Recorder, loop: Loop, log: seq<Deed>, o: Output)
    requires Reached(s, Alone(r, loop, log)) && (o.Fragments? ==> s.hls) && r.Of(o).stage.Cancelled?
    requires r.Of(o).listed == r.Of(o).seen == r.Of(o).sent
    ensures Reached(s, Alone(r.With(o, r.Of(o).(stage := LastRead(true))), loop, log))
  {
    AloneMoves(s, r, loop, log, o, ReadLast(true), r.Of(o).(stage := LastRead(true)));
  }

  lemma {:induction false} LaneReturns(s: Setup, r: Recorder, loop: Loop, log: seq<Deed>, o: Output)
    requires Reached(s, Alone(r, loop, log)) && (o.Fragments? ==> s.hls) && r.Of(o).stage == LastRead(true) && r.Of(o).seen == r.Of(o).sent
    ensures Reached(s, Alone(r.With(o, r.Of(o).(stage := Drained(true))), loop, log))
  {
    AloneMoves(s, r, loop, log, o, Return, r.Of(o).(stage := Drained(true)));
  }

  /** A forwarder with nothing left to read returns once ffmpeg has exited. */
  lemma {:induction false} LaneDrains(s: Setup, r: Recorder, loop: Loop, log: seq<Deed>, o: Output)
    requires Reached(s, Alone(r, loop, log)) && (o.Fragments? ==> s.hls)
    requires !r.running && r.Of(o).stage.Watching? && r.Of(o).listed == r.Of(o).seen == r.Of(o).sent
    ensures Reached(s, Alone(r.With(o, r.Of(o).(stage := Drained(true))), loop, log))
  {
    LaneCancels(s, r, loop, log, o);
    var cancelled := r.With(o, r.Of(o).(stage := Cancelled));
    LaneReadsLast(s, cancelled, loop, log, o);
    var read := cancelled.With(o, cancelled.Of(o).(stage := LastRead(true)));
    LaneReturns(s, read, loop, log, o);
    assert read.With(o, read.Of(o).(stage := Drained(true))) == r.With(o, r.Of(o).(stage := Drained(true)));
  }

  lemma {:induction false} ReachesDrained(s: Setup) returns (r: Recorder)
    ensures Reached(s, Alone(r, Waiting, Forwarding + [Exited(1)])) && !r.running && !r.stopped && r.segments.sent == 1 && BothDrained(r, s.hls)
  {
    r := Spawned(Born, s.hls).(segments := SEGMENT, running := false);
    ReachesExited(s);
    LaneDrains(s, r, Waiting, Forwarding + [Exited(1)], Segments);
    r := r.With(Segments, SEGMENT.(stage := Drained(true)));
    if s.hls {
      LaneDrains(s, r, Waiting, Forwarding + [Exited(1)], Fragments);
      r := r.With(Fragments, r.fragments.(stage := Drained(true)));
    }
  }

  lemma {:induction false} ReachesBackoff(s: Setup) returns (w: World)
    requires s.maxAttempts >= 1
    ensures w.WellFormed() && Reached(s, w) && w.loop.BackingOff? && w.stop.NotAsked?
  {
    var r := ReachesDrained(s);
    var log := Forwarding + [Exited(1)];
    var joined := Alone(r, Asking, log + [Joined(1)]);
    assert Next(Alone(r, Waiting, log), s, OfLoop(false)) == joined;
    ReachedNext(s, Alone(r, Waiting, log), OfLoop(false));
    assert Next(joined, s, OfLoop(false)) == joined.(loop := BackingOff);
    ReachedNext(s, joined, OfLoop(false));
    w := joined.(loop := BackingOff);
  }

  /** Whatever the configuration, some run brings the stop to its read while the loop backs off after a first attempt that
      forwarded a segment; from there it can return with a recorder running. */
  lemma {:induction false} EarlyReturnReached(s: Setup) returns (steps: seq<Step>)
    requires s.maxAttempts >= 1
    ensures var w := Run(Begun, s, steps, |steps|); w.stop.Closed? && Exposed(w) && CanRunAfterStop(w, s)
  {
    var w := ReachesBackoff(s);
    ReachedNext(s, w, OfStop);
    var closed := Next(w, s, OfStop);
    steps :| Run(Begun, s, steps, |steps|) == closed;
    ReturnsEarlyExactly(s, steps, |steps|);
  }
}
