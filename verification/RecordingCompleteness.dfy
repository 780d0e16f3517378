/** When `close` marks a recording complete: the segment uploader, the drain timeout and the segment registry. */
module RecordingCompleteness {
  import Coverage

  const UPLOAD_MAX_ATTEMPTS := 3

  /** One segment file the supervisor emitted: when the uploader receives it, its size and storage key, whether it can be
      read, how each try at uploading it would go, and when the upload is over. */
  datatype Emitted = Emitted(receivedAt: int, size: nat, key: string, readable: bool, tries: seq<bool>, uploadedAt: int) {
    predicate Uploads() {
      readable && exists i :: 0 <= i < UPLOAD_MAX_ATTEMPTS && i < |tries| && tries[i]
    }
  }

  datatype Segment = Segment(number: int, key: string, startedAt: int, endedAt: int, size: nat, uploadedAt: int)

  /** A segment is taken to start when the file before it was received, uploaded or not. */
  function SegmentOf(files: seq<Emitted>, begun: int, i: nat): Segment
    requires i < |files|
  {
    Segment(i, files[i].key, if i == 0 then begun else files[i - 1].receivedAt, files[i].receivedAt, files[i].size, files[i].uploadedAt)
  }

  /** The segments recorded for the first `n` files, the uploader having begun at `begun`. */
  function Recorded(files: seq<Emitted>, begun: int, n: nat): seq<Segment>
    requires n <= |files|
  {
    if n == 0 then [] else Recorded(files, begun, n - 1) + (if files[n - 1].Uploads() then [SegmentOf(files, begun, n - 1)] else [])
  }

  ghost predicate AllUpload(files: seq<Emitted>, n: nat)
    requires n <= |files|
  {
    forall i :: 0 <= i < n ==> files[i].Uploads()
  }

  /** What `Add` leaves in the registry; `results[i]` is whether the `i`-th call reached it. */
  function Registered(stored: map<int, Segment>, segs: seq<Segment>, results: seq<bool>): map<int, Segment>
    requires |results| == |segs|
  {
    if segs == [] then stored else
      var n := |segs| - 1;
      var before := Registered(stored, segs[..n], results[..n]);
      if results[n] then before[segs[n].number := segs[n]] else before
  }

  class SegmentRegistry {
    var stored: map<int, Segment>
    var complete: bool

    constructor ()
      ensures stored == map[] && !complete
    {
      stored, complete := map[], false;
    }
  }

  class IngestRecording {
    var segs: seq<Segment>
    var incomplete: bool

    constructor ()
      ensures segs == [] && !incomplete
    {
      segs, incomplete := [], false;
    }

    method UploadWithRetry(file: Emitted) returns (ok: bool)
      ensures ok == file.Uploads()
    {
      if !file.readable {
        return false;
      }
      var attempt := 0;
      while attempt < UPLOAD_MAX_ATTEMPTS
        invariant 0 <= attempt <= UPLOAD_MAX_ATTEMPTS
        invariant forall i :: 0 <= i < attempt && i < |file.tries| ==> !file.tries[i]
      {
        if attempt < |file.tries| && file.tries[attempt] {
          return true;
        }
        attempt := attempt + 1;
      }
      return false;
    }

    /** The uploader's loop over the first `n` files: all of them once the supervisor's channel is closed, fewer if
        `close` stops waiting. */
    method RunSegmentUploader(files: seq<Emitted>, begun: int, n: nat)
      requires n <= |files| && segs == [] && !incomplete
      modifies this
      ensures segs == Recorded(files, begun, n)
      ensures incomplete <==> !AllUpload(files, n)
    {
      var number, prevAt := 0, begun;
      while number < n
        invariant 0 <= number <= n
        invariant prevAt == if number == 0 then begun else files[number - 1].receivedAt
        invariant segs == Recorded(files, begun, number)
        invariant incomplete <==> !AllUpload(files, number)
      {
        var file := files[number];
        var startedAt, endedAt := prevAt, file.receivedAt;
        prevAt := endedAt;
        var ok := UploadWithRetry(file);
        if !ok {
          incomplete := true;
        } else {
          segs := segs + [Segment(number, file.key, startedAt, endedAt, file.size, file.uploadedAt)];
        }
        number := number + 1;
      }
    }

    /** The end of `close`: `drained` is whether the uploader finished in time, `results` what registering answers. */
    method Finish(registry: SegmentRegistry, drained: bool, forceKilled: bool, gaveUp: bool, closedByFailure: bool,
        results: seq<bool>, markOk: bool)
      requires |results| == |segs|
      modifies this, registry
      ensures registry.stored == Registered(old(registry.stored), old(segs), results)
      ensures registry.complete <==> (old(registry.complete) ||
        (markOk && !closedByFailure && !gaveUp && segs != [] && !old(incomplete) && drained && forall i :: 0 <= i < |results| ==> results[i]))
      ensures segs == old(segs)
    {
      if !drained {
        incomplete := true;
      }
      if forceKilled && |segs| == 0 {
        incomplete := true;
      }
      var i := 0;
      ghost var before := incomplete;
      while i < |segs|
        invariant 0 <= i <= |segs| && segs == old(segs) && registry.complete == old(registry.complete)
        invariant registry.stored == Registered(old(registry.stored), segs[..i], results[..i])
        invariant incomplete <==> before || exists k :: 0 <= k < i && !results[k]
      {
        assert segs[..i + 1][..i] == segs[..i] && results[..i + 1][..i] == results[..i];
        if results[i] {
          registry.stored := registry.stored[segs[i].number := segs[i]];
        } else {
          incomplete := true;
        }
        i := i + 1;
      }
      assert segs[..|segs|] == segs && results[..|segs|] == results;
      if !closedByFailure && !gaveUp && !incomplete && |segs| > 0 && markOk {
        registry.complete := true;
      }
    }
  }

  lemma {:induction false} RecordedAll(files: seq<Emitted>, begun: int, n: nat)
    requires n <= |files|
    ensures |Recorded(files, begun, n)| <= n
    ensures AllUpload(files, n) ==>
      |Recorded(files, begun, n)| == n && forall i :: 0 <= i < n ==> Recorded(files, begun, n)[i] == SegmentOf(files, begun, i)
  {
    if n > 0 {
      RecordedAll(files, begun, n - 1);
    }
  }

  function UploadsBefore(files: seq<Emitted>, n: nat): nat
    requires n <= |files|
  {
    if n == 0 then 0 else UploadsBefore(files, n - 1) + (if files[n - 1].Uploads() then 1 else 0)
  }

  /** The segment of file `k`: when it was received, and the file before it, its key and size, and when it was uploaded. */
  ghost predicate Describes(s: Segment, files: seq<Emitted>, begun: int, k: nat)
    requires k < |files|
  {
    && s.number == k && s.key == files[k].key && s.size == files[k].size && s.uploadedAt == files[k].uploadedAt
    && s.endedAt == files[k].receivedAt
    && (k == 0 ==> s.startedAt == begun) && (k > 0 ==> s.startedAt == files[k - 1].receivedAt)
  }

  /** The call that registers file `k`, if it was uploaded, reached the registry. */
  predicate Reached(files: seq<Emitted>, results: seq<bool>, k: nat)
    requires k < |files|
  {
    files[k].Uploads() && var j := UploadsBefore(files, k); j < |results| && results[j]
  }

  /** The registry holds the files uploaded and registered among the first `n`, each under its number. */
  ghost predicate Holds(stored: map<int, Segment>, files: seq<Emitted>, begun: int, n: nat, results: seq<bool>)
    requires n <= |files|
  {
    && (forall k :: k in stored <==> 0 <= k < n && Reached(files, results, k))
    && (forall k :: k in stored ==> 0 <= k < n && Describes(stored[k], files, begun, k))
  }

  lemma {:induction false} RecordedLength(files: seq<Emitted>, begun: int, n: nat)
    requires n <= |files|
    ensures |Recorded(files, begun, n)| == UploadsBefore(files, n)
  {
    if n > 0 {
      RecordedLength(files, begun, n - 1);
    }
  }

  lemma {:induction false} ReachedBefore(files: seq<Emitted>, results: seq<bool>, n: nat, m: nat)
    requires n <= |files| && m <= |results| && UploadsBefore(files, n) <= m
    ensures forall k :: 0 <= k < n ==> Reached(files, results[..m], k) == Reached(files, results, k)
  {
    if n > 0 {
      ReachedBefore(files, results, n - 1, m);
    }
  }

  /** Whatever fails: a segment is stored exactly if its file was uploaded and its registration got through, and then as
      its file's. */
  lemma {:induction false} RegisteredExactly(files: seq<Emitted>, begun: int, n: nat, results: seq<bool>)
    requires n <= |files| && |results| == |Recorded(files, begun, n)|
    ensures Holds(Registered(map[], Recorded(files, begun, n), results), files, begun, n, results)
  {
    if n > 0 {
      var segs, before := Recorded(files, begun, n), Recorded(files, begun, n - 1);
      RecordedLength(files, begun, n);
      RecordedLength(files, begun, n - 1);
      var m := |before|;
      RegisteredExactly(files, begun, n - 1, results[..m]);
      ReachedBefore(files, results, n - 1, m);
      if files[n - 1].Uploads() {
        assert segs[..m] == before;
      } else {
        assert segs == before && results[..m] == results;
      }
    }
  }

  lemma {:induction false} RegisteredAll(segs: seq<Segment>, results: seq<bool>)
    requires |results| == |segs| && forall i :: 0 <= i < |segs| ==> segs[i].number == i && results[i]
    ensures var stored := Registered(map[], segs, results);
      && (forall k :: k in stored <==> 0 <= k < |segs|)
      && (forall k :: 0 <= k < |segs| ==> stored[k] == segs[k])
  {
    if segs != [] {
      RegisteredAll(segs[..|segs| - 1], results[..|segs| - 1]);
    }
  }

  /** The registry of a recording of which nothing failed. */
  ghost predicate Whole(stored: map<int, Segment>, files: seq<Emitted>, begun: int) {
    && (forall k :: k in stored <==> 0 <= k < |files|)
    && (forall k :: 0 <= k < |files| ==> stored[k] == SegmentOf(files, begun, k))
  }

  lemma {:induction false} NothingFailed(files: seq<Emitted>, begun: int, results: seq<bool>)
    requires AllUpload(files, |files|) && |results| == |Recorded(files, begun, |files|)| && forall i :: 0 <= i < |results| ==> results[i]
    ensures Whole(Registered(map[], Recorded(files, begun, |files|), results), files, begun)
  {
    RecordedAll(files, begun, |files|);
    RegisteredAll(Recorded(files, begun, |files|), results);
  }

  /** What the registry lists, in the order of the numbers. */
  function Metas(stored: map<int, Segment>, n: nat): seq<Coverage.Meta>
    requires forall k :: 0 <= k < n ==> k in stored
  {
    seq(n, k requires 0 <= k < n => Coverage.Meta(stored[k].number, stored[k].startedAt, stored[k].endedAt))
  }

  /** Segments that each start where the one before ends, from `begun` on. */
  ghost predicate Contiguous(metas: seq<Coverage.Meta>, begun: int) {
    forall k {:trigger metas[k]} :: 0 <= k < |metas| ==> metas[k].startedAt == EndBefore(metas, begun, k)
  }

  function EndBefore(metas: seq<Coverage.Meta>, begun: int, k: nat): int
    requires k <= |metas|
  {
    if k == 0 then begun else metas[k - 1].endedAt
  }

  lemma {:induction false} ContiguousHasNoGaps(metas: seq<Coverage.Meta>, begun: int, n: nat)
    requires Contiguous(metas, begun) && n <= |metas|
    ensures Coverage.Gaps(metas, n) == [] && Coverage.Recorded(metas, n) == EndBefore(metas, begun, n) - begun
  {
    if n > 0 {
      ContiguousHasNoGaps(metas, begun, n - 1);
      assert metas[n - 1].startedAt == EndBefore(metas, begun, n - 1);
    }
  }

  lemma {:induction false} WholeIsContiguous(stored: map<int, Segment>, files: seq<Emitted>, begun: int)
    requires Whole(stored, files, begun)
    ensures Contiguous(Metas(stored, |files|), begun)
  {
    var metas := Metas(stored, |files|);
    forall k {:trigger metas[k]} | 0 <= k < |metas| ensures metas[k].startedAt == EndBefore(metas, begun, k) {
      assert stored[k] == SegmentOf(files, begun, k);
      if k > 0 {
        assert stored[k - 1] == SegmentOf(files, begun, k - 1);
      }
    }
  }

  /** The audit of a whole recording finds no gap, and all the time up to the last segment received recorded. */
  ghost predicate AuditsClean(stored: map<int, Segment>, files: seq<Emitted>, begun: int)
    requires Whole(stored, files, begun) && files != []
  {
    var metas := Metas(stored, |files|);
    Coverage.Gaps(metas, |metas|) == [] && Coverage.Recorded(metas, |metas|) == files[|files| - 1].receivedAt - begun
  }

  lemma {:induction false} WholeAuditsClean(stored: map<int, Segment>, files: seq<Emitted>, begun: int)
    requires Whole(stored, files, begun) && files != []
    ensures AuditsClean(stored, files, begun)
  {
    WholeIsContiguous(stored, files, begun);
    ContiguousHasNoGaps(Metas(stored, |files|), begun, |files|);
    assert stored[|files| - 1] == SegmentOf(files, begun, |files| - 1);
  }

  /** A stream from its first segment to the end of `close`. The recording is marked complete exactly when the stream
      did not fail, the supervisor did not give up, the uploader finished in time, something was recorded, and every
      upload and every registration succeeded; and then the registry holds exactly the segments 0 to n - 1, where n is
      how many the supervisor emitted, and the audit of their timestamps finds no gap: all the time from the start of the
      uploader to the last segment received is recorded. */
  method RecordStream(files: seq<Emitted>, begun: int, drained: bool, seen: nat, forceKilled: bool, gaveUp: bool, closedByFailure: bool,
      results: seq<bool>, markOk: bool) returns (stored: map<int, Segment>, complete: bool)
    requires if drained then seen == |files| else seen <= |files|
    requires |results| == |Recorded(files, begun, seen)|
    ensures complete <==>
      && markOk && !closedByFailure && !gaveUp && drained && files != []
      && (forall i :: 0 <= i < |files| ==> files[i].Uploads())
      && (forall i :: 0 <= i < |results| ==> results[i])
    ensures complete ==> Whole(stored, files, begun) && AuditsClean(stored, files, begun)
    ensures Holds(stored, files, begun, seen, results)
  {
    var recording := new IngestRecording();
    var registry := new SegmentRegistry();
    recording.RunSegmentUploader(files, begun, seen);
    recording.Finish(registry, drained, forceKilled, gaveUp, closedByFailure, results, markOk);
    stored, complete := registry.stored, registry.complete;
    RecordedAll(files, begun, seen);
    RegisteredExactly(files, begun, seen, results);
    if complete {
      NothingFailed(files, begun, results);
      WholeAuditsClean(stored, files, begun);
    }
  }
}
