/** Reading ffmpeg's growing lists by polling: the HLS playlist and the archival segment list. */
module PlaylistTailing {
  import opened Options

  // ---- Polling in general ----

  /** Everything emitted so far, and how much of the list that was. */
  datatype Tail<T> = Tail(sent: nat, out: seq<T>)

  /** One poll of a list; it emits what lies beyond what was sent. */
  function Poll<T>(t: Tail<T>, list: seq<T>): Tail<T> {
    if t.sent >= |list| then t else Tail(|list|, t.out + list[t.sent..])
  }

  /** Polls of successive snapshots; a snapshot that cannot be read is skipped. */
  function PollAll<T>(snapshots: seq<Option<seq<T>>>): Tail<T> {
    if snapshots == [] then Tail(0, []) else
      var t := PollAll(snapshots[..|snapshots| - 1]);
      var last := snapshots[|snapshots| - 1];
      if last.None? then t else Poll(t, last.value)
  }

  /** The last snapshot that could be read. */
  function LastRead<T>(snapshots: seq<Option<seq<T>>>): seq<T> {
    if snapshots == [] then [] else
      var last := snapshots[|snapshots| - 1];
      if last.None? then LastRead(snapshots[..|snapshots| - 1]) else last.value
  }

  ghost predicate Extend<T>(snapshots: seq<Option<seq<T>>>) {
    forall i, j :: 0 <= i < j < |snapshots| && snapshots[i].Some? && snapshots[j].Some? ==> snapshots[i].value <= snapshots[j].value
  }

  lemma {:induction false} LastReadIsOne<T>(snapshots: seq<Option<seq<T>>>)
    ensures LastRead(snapshots) == [] || exists i :: 0 <= i < |snapshots| && snapshots[i] == Some(LastRead(snapshots))
  {
    if snapshots != [] && snapshots[|snapshots| - 1].None? {
      var front := snapshots[..|snapshots| - 1];
      LastReadIsOne(front);
      if LastRead(front) != [] {
        var i :| 0 <= i < |front| && front[i] == Some(LastRead(front));
        assert snapshots[i] == front[i];
      }
    }
  }

  /** Polling equals reading once: while snapshots extend each other, everything emitted over all polls is exactly the
      last snapshot that could be read. */
  lemma {:induction false} PollingReadsOnce<T>(snapshots: seq<Option<seq<T>>>)
    requires Extend(snapshots)
    ensures PollAll(snapshots) == Tail(|LastRead(snapshots)|, LastRead(snapshots))
  {
    if snapshots != [] {
      var n := |snapshots| - 1;
      PollingReadsOnce(snapshots[..n]);
      var before := LastRead(snapshots[..n]);
      if snapshots[n].Some? {
        var list := snapshots[n].value;
        LastReadIsOne(snapshots[..n]);
        if before != [] {
          var i :| 0 <= i < n && snapshots[..n][i] == Some(before);
          assert snapshots[i].value <= list;
        }
        assert before <= list;
        assert before + list[|before|..] == list;
      }
    }
  }

  // ---- The HLS playlist ----

  /** A line of ffmpeg's playlist, told apart by its prefix. */
  datatype Line = Blank | MapTag(uri: string) | ExtInf(duration: int) | OtherTag | Name(name: string)

  datatype Fragment = Fragment(name: string, duration: int)

  datatype Event = InitEvent(uri: string, epoch: int) | FragmentEvent(name: string, epoch: int, duration: int)

  /** The duration a name line at position `n` is paired with: that of the last EXTINF since the name before it. */
  function PendingDuration(lines: seq<Line>, n: nat): int
    requires n <= |lines|
  {
    if n == 0 then 0
    else match lines[n - 1]
      case ExtInf(d) => d
      case Name(_) => 0
      case _ => PendingDuration(lines, n - 1)
  }

  function Fragments(lines: seq<Line>, n: nat): seq<Fragment>
    requires n <= |lines|
  {
    if n == 0 then []
    else if lines[n - 1].Name? then Fragments(lines, n - 1) + [Fragment(lines[n - 1].name, PendingDuration(lines, n - 1))]
    else Fragments(lines, n - 1)
  }

  /** The first map line with a URI; later ones are other tags. */
  function InitUri(lines: seq<Line>, n: nat): string
    requires n <= |lines|
  {
    if n == 0 then ""
    else if InitUri(lines, n - 1) == "" && lines[n - 1].MapTag? then lines[n - 1].uri
    else InitUri(lines, n - 1)
  }

  function Events(frags: seq<Fragment>, epoch: int): seq<Event> {
    if frags == [] then [] else
      var last := frags[|frags| - 1];
      Events(frags[..|frags| - 1], epoch) + [FragmentEvent(last.name, epoch, last.duration)]
  }

  function Names(lines: seq<Line>, n: nat): nat
    requires n <= |lines|
  {
    if n == 0 then 0 else Names(lines, n - 1) + (if lines[n - 1].Name? then 1 else 0)
  }

  /** Nothing on the lines from `a` to `b` ends or renews a duration. */
  ghost predicate Plain(lines: seq<Line>, a: int, b: nat)
    requires 0 <= a && b <= |lines|
  {
    forall k :: a <= k < b ==> !lines[k].Name? && !lines[k].ExtInf?
  }

  lemma {:induction false} PendingExactly(lines: seq<Line>, n: nat, e: nat)
    requires e < n <= |lines| && Plain(lines, e + 1, n)
    ensures lines[e].ExtInf? ==> PendingDuration(lines, n) == lines[e].duration
    ensures lines[e].Name? || (e == 0 && !lines[e].ExtInf?) ==> PendingDuration(lines, n) == 0
  {
    if e < n - 1 {
      PendingExactly(lines, n - 1, e);
    }
  }

  lemma {:induction false} FragmentOfName(lines: seq<Line>, n: nat, k: nat)
    requires k < n <= |lines| && lines[k].Name?
    ensures Names(lines, k) < Names(lines, n) == |Fragments(lines, n)|
    ensures Fragments(lines, n)[Names(lines, k)] == Fragment(lines[k].name, PendingDuration(lines, k))
  {
    FragmentsCounted(lines, k);
    FragmentsCounted(lines, n);
    if k < n - 1 {
      FragmentOfName(lines, n - 1, k);
    }
  }

  lemma {:induction false} FragmentsCounted(lines: seq<Line>, n: nat)
    requires n <= |lines|
    ensures |Fragments(lines, n)| == Names(lines, n)
  {
    if n > 0 {
      FragmentsCounted(lines, n - 1);
    }
  }

  /** The fragments are the name lines, in order; each has the duration of the EXTINF line before it, whatever other
      lines stand between, and none if another name or nothing but other lines comes before. */
  lemma {:induction false} FragmentsExactly(lines: seq<Line>, k: nat, e: nat)
    requires e < k < |lines| && lines[k].Name? && Plain(lines, e + 1, k)
    ensures |Fragments(lines, |lines|)| == Names(lines, |lines|) > Names(lines, k)
    ensures var f := Fragments(lines, |lines|)[Names(lines, k)];
      f.name == lines[k].name && (lines[e].ExtInf? ==> f.duration == lines[e].duration)
      && (lines[e].Name? || (e == 0 && !lines[e].ExtInf?) ==> f.duration == 0)
  {
    FragmentOfName(lines, |lines|, k);
    PendingExactly(lines, k, e);
  }

  ghost predicate NamesInit(lines: seq<Line>, n: nat)
    requires n <= |lines|
  {
    exists k :: 0 <= k < n && lines[k].MapTag? && lines[k].uri != ""
  }

  /** The init segment is that of the first map line that names one. */
  lemma {:induction false} InitUriExactly(lines: seq<Line>, n: nat)
    requires n <= |lines|
    ensures InitUri(lines, n) == "" <==> !NamesInit(lines, n)
    ensures forall k :: 0 <= k < n && lines[k].MapTag? && lines[k].uri != "" && !NamesInit(lines, k) ==> InitUri(lines, n) == lines[k].uri
  {
    if n > 0 {
      InitUriExactly(lines, n - 1);
      if NamesInit(lines, n) && !NamesInit(lines, n - 1) {
        assert lines[n - 1].MapTag? && lines[n - 1].uri != "";
      }
      if lines[n - 1].MapTag? && lines[n - 1].uri != "" {
        assert NamesInit(lines, n);
      }
      forall k | 0 <= k < n - 1 && lines[k].MapTag? && lines[k].uri != "" && !NamesInit(lines, k) ensures InitUri(lines, n) == lines[k].uri {
        assert NamesInit(lines, n - 1);
      }
    }
  }

  /** One event for each fragment, with its name, its duration and the watcher's epoch. */
  lemma {:induction false} EventsInOrder(frags: seq<Fragment>, epoch: int, i: nat)
    ensures |Events(frags, epoch)| == |frags|
    ensures i < |frags| ==> Events(frags, epoch)[i] == FragmentEvent(frags[i].name, epoch, frags[i].duration)
  {
    if frags != [] {
      EventsInOrder(frags[..|frags| - 1], epoch, i);
    }
  }

  class HLSWatcher {
    const epoch: int
    var sentInit: bool
    var sentFrags: nat
    ghost var frags: seq<Fragment>    // every fragment emitted
    ghost var inits: seq<string>      // every init segment emitted

    ghost predicate Valid()
      reads this
    {
      |inits| == if sentInit then 1 else 0
    }

    constructor (epoch: int)
      ensures this.epoch == epoch && Valid() && sentFrags == 0 && frags == [] && inits == []
    {
      this.epoch := epoch;
      sentInit, sentFrags, frags, inits := false, 0, [], [];
    }

    /** One poll; `initExists` is whether the init segment is on disk yet. */
    method EmitNewHLSEntries(lines: seq<Line>, initExists: bool) returns (out: seq<Event>)
      requires Valid()
      modifies this
      ensures Valid()
      ensures Tail(sentFrags, frags) == Poll(Tail(old(sentFrags), old(frags)), Fragments(lines, |lines|))
      ensures var uri := InitUri(lines, |lines|);
        if !old(sentInit) && uri != "" && initExists then inits == old(inits) + [uri] && out == [InitEvent(uri, epoch)] + Events(frags[|old(frags)|..], epoch)
        else inits == old(inits) && out == Events(frags[|old(frags)|..], epoch)
    {
      var initUri := "";
      var entries := [];
      var pendingDuration := 0;
      var i := 0;
      while i < |lines|
        invariant 0 <= i <= |lines|
        invariant initUri == InitUri(lines, i)
        invariant entries == Fragments(lines, i)
        invariant pendingDuration == PendingDuration(lines, i)
      {
        match lines[i] {
          case Blank =>
          case MapTag(uri) =>
            if initUri == "" {
              initUri := uri;
            }
          case ExtInf(d) => pendingDuration := d;
          case OtherTag =>
          case Name(name) =>
            entries := entries + [Fragment(name, pendingDuration)];
            pendingDuration := 0;
        }
        i := i + 1;
      }
      out := [];
      if !sentInit && initUri != "" && initExists {
        out := [InitEvent(initUri, epoch)];
        sentInit := true;
        inits := inits + [initUri];
      }
      if sentFrags >= |entries| {
        assert frags[|frags|..] == [];
        return;
      }
      ghost var before := frags;
      var added := entries[sentFrags..];
      var k := 0;
      ghost var head := out;
      while k < |added|
        invariant 0 <= k <= |added|
        invariant out == head + Events(added[..k], epoch)
      {
        assert added[..k + 1][..k] == added[..k];
        out := out + [FragmentEvent(added[k].name, epoch, added[k].duration)];
        k := k + 1;
      }
      sentFrags := |entries|;
      frags := frags + added;
      assert added[..|added|] == added == frags[|before|..];
    }
  }

  // ---- The segment list ----

  /** The lines that are not blank. */
  function Filled(lines: seq<string>, n: nat): seq<string>
    requires n <= |lines|
  {
    if n == 0 then [] else Filled(lines, n - 1) + (if lines[n - 1] != "" then [lines[n - 1]] else [])
  }

  function Entries(lines: seq<string>, n: nat): nat
    requires n <= |lines|
  {
    if n == 0 then 0 else Entries(lines, n - 1) + (if lines[n - 1] == "" then 0 else 1)
  }

  /** They are the list's entries, in order. */
  lemma {:induction false} FilledExactly(lines: seq<string>, n: nat, k: nat)
    requires n <= |lines|
    ensures |Filled(lines, n)| == Entries(lines, n)
    ensures k < n && lines[k] != "" ==> Entries(lines, k) < Entries(lines, n) && Filled(lines, n)[Entries(lines, k)] == lines[k]
  {
    if n > 0 {
      FilledExactly(lines, n - 1, k);
    }
  }

  class SegmentWatcher {
    var sent: nat
    ghost var emitted: seq<string>

    constructor ()
      ensures sent == 0 && emitted == []
    {
      sent, emitted := 0, [];
    }

    method EmitNewLines(snapshot: seq<string>) returns (out: seq<string>)
      modifies this
      ensures Tail(sent, emitted) == Poll(Tail(old(sent), old(emitted)), Filled(snapshot, |snapshot|))
      ensures emitted == old(emitted) + out
    {
      var lines := [];
      var i := 0;
      while i < |snapshot|
        invariant 0 <= i <= |snapshot|
        invariant lines == Filled(snapshot, i)
      {
        if snapshot[i] != "" {
          lines := lines + [snapshot[i]];
        }
        i := i + 1;
      }
      if sent >= |lines| {
        return [];
      }
      out := lines[sent..];
      sent := |lines|;
      emitted := emitted + out;
    }
  }

  lemma {:induction false} FragmentsGrow(lines: seq<Line>, a: nat, b: nat)
    requires a <= b <= |lines|
    ensures Fragments(lines, a) <= Fragments(lines, b)
    decreases b
  {
    if a < b {
      FragmentsGrow(lines, a, b - 1);
    }
  }

  /** The lists read off a file that only grows by whole lines. */
  function Reads(file: seq<Line>, lengths: seq<Option<nat>>): seq<Option<seq<Fragment>>>
    requires forall i :: 0 <= i < |lengths| ==> lengths[i].Some? ==> lengths[i].value <= |file|
  {
    seq(|lengths|, i requires 0 <= i < |lengths| => if lengths[i].None? then None else Some(Fragments(file, lengths[i].value)))
  }

  /** Hence, whenever the file is polled while it grows, the fragments emitted are those of the last poll, each once, in
      order, with its own duration. */
  lemma {:induction false} TailedPlaylistReadsOnce(file: seq<Line>, lengths: seq<Option<nat>>, last: nat)
    requires forall i :: 0 <= i < |lengths| ==> lengths[i].Some? ==> lengths[i].value <= |file|
    requires forall i, j :: 0 <= i < j < |lengths| && lengths[i].Some? && lengths[j].Some? ==> lengths[i].value <= lengths[j].value
    requires lengths != [] && lengths[|lengths| - 1] == Some(last)
    ensures PollAll(Reads(file, lengths)).out == Fragments(file, last)
  {
    var polls := Reads(file, lengths);
    forall i, j | 0 <= i < j < |polls| && polls[i].Some? && polls[j].Some? ensures polls[i].value <= polls[j].value {
      FragmentsGrow(file, lengths[i].value, lengths[j].value);
    }
    PollingReadsOnce(polls);
  }

  lemma {:induction false} FilledGrow(lines: seq<string>, a: nat, b: nat)
    requires a <= b <= |lines|
    ensures Filled(lines, a) <= Filled(lines, b)
    decreases b
  {
    if a < b {
      FilledGrow(lines, a, b - 1);
    }
  }

  function ListReads(file: seq<string>, lengths: seq<Option<nat>>): seq<Option<seq<string>>>
    requires forall i :: 0 <= i < |lengths| ==> lengths[i].Some? ==> lengths[i].value <= |file|
  {
    seq(|lengths|, i requires 0 <= i < |lengths| => if lengths[i].None? then None else Some(Filled(file, lengths[i].value)))
  }

  /** The same of the segment list: each segment comes out once, in order, whenever the growing list is polled. */
  lemma {:induction false} TailedListReadsOnce(file: seq<string>, lengths: seq<Option<nat>>, last: nat)
    requires forall i :: 0 <= i < |lengths| ==> lengths[i].Some? ==> lengths[i].value <= |file|
    requires forall i, j :: 0 <= i < j < |lengths| && lengths[i].Some? && lengths[j].Some? ==> lengths[i].value <= lengths[j].value
    requires lengths != [] && lengths[|lengths| - 1] == Some(last)
    ensures PollAll(ListReads(file, lengths)).out == Filled(file, last)
  {
    var polls := ListReads(file, lengths);
    forall i, j | 0 <= i < j < |polls| && polls[i].Some? && polls[j].Some? ensures polls[i].value <= polls[j].value {
      FilledGrow(file, lengths[i].value, lengths[j].value);
    }
    PollingReadsOnce(polls);
  }
}
