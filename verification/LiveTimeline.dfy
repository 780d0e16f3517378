/** How fragments get their dates, and what remains of them after a trip through the playlist. */
module LiveTimeline {
  import opened LiveManifest

  /** A fragment event as the uploader receives it; `uploads` is whether its upload and registration succeed, `now` the
      time at which it is handled. */
  datatype Event = Event(epoch: int, duration: int, uploads: bool, now: int)

  // ---- The uploader ----

  function StartOf(events: seq<Event>, i: nat): int
    requires i < |events|
  {
    if i == 0 || events[i].epoch != events[i - 1].epoch then events[i].now - events[i].duration
    else StartOf(events, i - 1) + events[i - 1].duration
  }

  function FragmentOf(events: seq<Event>, i: nat): Fragment
    requires i < |events|
  {
    Fragment(i, events[i].epoch, StartOf(events, i), StartOf(events, i) + events[i].duration)
  }

  /** What is registered of the first `n` events. */
  function Registered(events: seq<Event>, n: nat): seq<Fragment>
    requires n <= |events|
  {
    if n == 0 then [] else Registered(events, n - 1) + (if events[n - 1].uploads then [FragmentOf(events, n - 1)] else [])
  }

  /** Media time of the events from `a` up to but not including `b`. */
  function Time(events: seq<Event>, a: nat, b: nat): int
    requires a <= b <= |events|
  {
    if a == b then 0 else Time(events, a, b - 1) + events[b - 1].duration
  }

  /** The event that begins the epoch of event `m`. */
  function HeadOf(events: seq<Event>, m: nat): (h: nat)
    requires m < |events|
    ensures h <= m && (forall k :: h <= k <= m ==> events[k].epoch == events[m].epoch)
    ensures h == 0 || events[h - 1].epoch != events[m].epoch
  {
    if m == 0 || events[m].epoch != events[m - 1].epoch then m else HeadOf(events, m - 1)
  }

  /** When the media of event `m` ended: its epoch's first fragment when it was closed, and then by media time. */
  function MediaEnd(events: seq<Event>, m: nat): int
    requires m < |events|
  {
    var h := HeadOf(events, m);
    events[h].now + Time(events, h + 1, m + 1)
  }

  /** A fragment is dated by that, and lasts as long as ffmpeg says. */
  ghost predicate Dated(events: seq<Event>, f: Fragment) {
    && 0 <= f.number < |events| && f.epoch == events[f.number].epoch
    && f.endedAt == MediaEnd(events, f.number) && f.endedAt - f.startedAt == events[f.number].duration
  }

  method RunHLSFragmentUploader(events: seq<Event>) returns (frags: seq<Fragment>)
    requires forall i :: 0 <= i < |events| ==> events[i].epoch >= 0
    ensures frags == Registered(events, |events|)
    ensures forall j :: 0 <= j < |frags| ==> Dated(events, frags[j])
    ensures forall m :: 0 <= m < |events| ==> (events[m].uploads <==> exists j :: 0 <= j < |frags| && frags[j].number == m)
  {
    frags := [];
    var number, baseTime, cumulative, lastEpoch := 0, 0, 0, -1;
    while number < |events|
      invariant 0 <= number <= |events|
      invariant frags == Registered(events, number)
      invariant lastEpoch == if number == 0 then -1 else events[number - 1].epoch
      invariant number > 0 ==> baseTime + cumulative == StartOf(events, number - 1) + events[number - 1].duration
    {
      var evt := events[number];
      if evt.epoch != lastEpoch {
        baseTime := evt.now - evt.duration;
        cumulative := 0;
        lastEpoch := evt.epoch;
      }
      var startedAt := baseTime + cumulative;
      cumulative := cumulative + evt.duration;
      var endedAt := baseTime + cumulative;
      if evt.uploads {
        frags := frags + [Fragment(number, evt.epoch, startedAt, endedAt)];
      }
      number := number + 1;
    }
    forall j | 0 <= j < |frags| ensures Dated(events, frags[j]) {
      RegisteredDated(events, |events|, j);
    }
    forall m | 0 <= m < |events| ensures events[m].uploads <==> exists j :: 0 <= j < |frags| && frags[j].number == m {
      UploadedIsRegistered(events, |events|, m);
    }
  }

  lemma {:induction false} FragmentDated(events: seq<Event>, m: nat)
    requires m < |events|
    ensures Dated(events, FragmentOf(events, m))
  {
    if m > 0 && events[m].epoch == events[m - 1].epoch {
      FragmentDated(events, m - 1);
    }
  }

  lemma {:induction false} RegisteredDated(events: seq<Event>, n: nat, j: nat)
    requires n <= |events| && j < |Registered(events, n)|
    ensures Dated(events, Registered(events, n)[j])
  {
    RegisteredAt(events, n, j);
    FragmentDated(events, Registered(events, n)[j].number);
  }

  /** Registered are the fragments that were uploaded, and no others. */
  lemma {:induction false} UploadedIsRegistered(events: seq<Event>, n: nat, m: nat)
    requires m < n <= |events|
    ensures events[m].uploads <==> exists j :: 0 <= j < |Registered(events, n)| && Registered(events, n)[j].number == m
  {
    var frags := Registered(events, n);
    if events[m].uploads {
      RegisteredGrows(events, m + 1, n);
      var j := |Registered(events, m)|;
      assert frags[j] == frags[..|Registered(events, m + 1)|][j] == FragmentOf(events, m);
    } else if j :| 0 <= j < |frags| && frags[j].number == m {
      RegisteredAt(events, n, j);
    }
  }

  /** Every registered fragment is the event of its number, in the place the earlier registered ones leave it. */
  lemma {:induction false} RegisteredAt(events: seq<Event>, n: nat, j: nat)
    requires n <= |events| && j < |Registered(events, n)|
    ensures var m := Registered(events, n)[j].number;
      && 0 <= m < n && events[m].uploads && Registered(events, n)[j] == FragmentOf(events, m)
      && |Registered(events, m)| == j
  {
    if j < |Registered(events, n - 1)| {
      RegisteredAt(events, n - 1, j);
    }
  }

  lemma {:induction false} UploadsBetween(events: seq<Event>, a: nat, b: nat)
    requires a <= b <= |events|
    ensures 0 <= |Registered(events, b)| - |Registered(events, a)| <= b - a
    ensures |Registered(events, b)| - |Registered(events, a)| == b - a <==> forall n :: a <= n < b ==> events[n].uploads
  {
    if a < b {
      UploadsBetween(events, a, b - 1);
    }
  }

  lemma {:induction false} RegisteredNumbered(events: seq<Event>, n: nat)
    requires n <= |events| && forall i :: 0 <= i < |events| ==> events[i].epoch >= 0
    ensures Numbered(Registered(events, n))
    ensures forall j :: 0 <= j < |Registered(events, n)| ==> Registered(events, n)[j].number < n
  {
    if n > 0 {
      RegisteredNumbered(events, n - 1);
    }
  }

  // ---- Media sequence numbers ----

  lemma {:induction false} RegisteredGrows(events: seq<Event>, n: nat, m: nat)
    requires n <= m <= |events|
    ensures |Registered(events, n)| <= |Registered(events, m)| && Registered(events, m)[..|Registered(events, n)|] == Registered(events, n)
  {
    if n < m {
      RegisteredGrows(events, n, m - 1);
    }
  }

  lemma {:induction false} MediaNumber(frags: seq<Fragment>, start: nat, ended: bool, i: nat)
    requires start <= i < |frags|
    ensures var seen := Play(ATTACHED, Rendered(frags, start, ended)).seen;
      i - start < |seen| && seen[i - start].name == frags[i].number && seen[i - start].media == frags[start].number + i - start
  {
    PlayerSees(frags, start, ended);
  }

  /** How far apart two registered fragments are numbered. */
  lemma {:induction false} NumbersApart(events: seq<Event>, n: nat, i: nat, k: nat)
    requires n <= |events| && i <= k < |Registered(events, n)|
    ensures var a, b := Registered(events, n)[i].number, Registered(events, n)[k].number;
      && 0 <= a <= b < n && (b - a == k - i <==> forall m :: a <= m < b ==> events[m].uploads)
  {
    RegisteredAt(events, n, i);
    RegisteredAt(events, n, k);
    var a, b := Registered(events, n)[i].number, Registered(events, n)[k].number;
    if b < a {
      UploadsBetween(events, b, b + 1);
      UploadsBetween(events, b + 1, a);
      assert false;
    }
    UploadsBetween(events, a, b);
  }

  /** The number a player gives a fragment is the one it was uploaded under exactly when no upload failed between the
      first fragment served and it. */
  lemma {:induction false} MediaNumberExactly(events: seq<Event>, start: nat, ended: bool, i: nat)
    requires start + i < |Registered(events, |events|)|
    ensures var frags := Registered(events, |events|); var seen := Play(ATTACHED, Rendered(frags, start, ended)).seen;
      i < |seen| && 0 <= frags[start].number <= frags[start + i].number < |events| &&
      (seen[i].media == frags[start + i].number <==>
        forall n :: frags[start].number <= n <= frags[start + i].number ==> events[n].uploads)
  {
    var frags := Registered(events, |events|);
    MediaNumber(frags, start, ended, start + i);
    NumbersApart(events, |events|, start, start + i);
    RegisteredAt(events, |events|, start + i);
  }

  /** RFC 8216 section 6.2.2 wants a fragment to keep its media sequence number in every reload. Between a load of the
      first `n` events' fragments from `start` on and a later one, of `m` events, from `later` on, fragment `i` keeps its
      number exactly when no upload failed between the two fragments that head the loads. */
  lemma {:induction false} MediaNumberKeptExactly(events: seq<Event>, n: nat, m: nat, start: nat, later: nat, i: nat, ended: bool)
    requires n <= m <= |events| && start <= later <= i < |Registered(events, n)|
    ensures var frags := Registered(events, n);
      var seen := Play(ATTACHED, Rendered(frags, start, false)).seen;
      |frags| <= |Registered(events, m)| &&
      var again := Play(ATTACHED, Rendered(Registered(events, m), later, ended)).seen;
      && i - start < |seen| && i - later < |again| && seen[i - start].name == again[i - later].name
      && 0 <= frags[start].number <= frags[later].number < n
      && (seen[i - start].media == again[i - later].media <==>
            forall k :: frags[start].number <= k < frags[later].number ==> events[k].uploads)
  {
    var frags, more := Registered(events, n), Registered(events, m);
    RegisteredGrows(events, n, m);
    assert more[later] == more[..|frags|][later] == frags[later] && more[i] == more[..|frags|][i] == frags[i];
    MediaNumber(frags, start, false, i);
    MediaNumber(more, later, ended, i);
    NumbersApart(events, n, start, later);
  }

  // ---- Dates ----

  /** Fragments played since the last printed date. */
  function Played(frags: seq<Fragment>, i: nat): nat
    requires i < |frags|
  {
    if i == 0 || frags[i].epoch != frags[i - 1].epoch then 0 else Played(frags, i - 1) + 1
  }

  /** Time between the end of each fragment and the start of the next, since the last printed date. */
  function Gaps(frags: seq<Fragment>, i: nat): int
    requires i < |frags|
  {
    if i == 0 || frags[i].epoch != frags[i - 1].epoch then 0
    else Gaps(frags, i - 1) + frags[i].startedAt - frags[i - 1].endedAt
  }

  /** The date a player computes is the stored one less the gaps since the last printed date, to within the millisecond
      cut off there and half a microsecond for every printed duration added. */
  lemma {:induction false} DateDrift(frags: seq<Fragment>, i: nat)
    requires i < |frags|
    ensures -MILLISECOND - 500 * Played(frags, i) < Date(frags, i) + Gaps(frags, i) - frags[i].startedAt <= 500 * Played(frags, i)
  {
    if i > 0 && frags[i].epoch == frags[i - 1].epoch {
      DateDrift(frags, i - 1);
    }
  }

  lemma {:induction false} SameEpochStart(events: seq<Event>, a: nat, b: nat)
    requires a <= b < |events| && forall n :: a <= n <= b ==> events[n].epoch == events[a].epoch
    ensures StartOf(events, b) == StartOf(events, a) + Time(events, a, b)
  {
    if a < b {
      SameEpochStart(events, a, b - 1);
    }
  }

  ghost predicate EpochsAscend(events: seq<Event>) {
    forall i, j :: 0 <= i < j < |events| ==> 0 <= events[i].epoch <= events[j].epoch
  }

  /** The gap between two registered neighbours of one epoch is the media time of the uploads that failed in between. */
  lemma {:induction false} GapIsLostTime(events: seq<Event>, j: nat)
    requires EpochsAscend(events) && j + 1 < |Registered(events, |events|)|
    ensures var frags := Registered(events, |events|); var a, b := frags[j].number, frags[j + 1].number;
      && 0 <= a < b < |events| && (forall n :: a < n < b ==> !events[n].uploads)
      && (frags[j].epoch == frags[j + 1].epoch ==> frags[j + 1].startedAt - frags[j].endedAt == Time(events, a + 1, b))
  {
    var frags := Registered(events, |events|);
    RegisteredAt(events, |events|, j);
    RegisteredAt(events, |events|, j + 1);
    var a, b := frags[j].number, frags[j + 1].number;
    if b <= a {
      UploadsBetween(events, b, a);
      assert false;
    }
    NothingBetween(events, a, b);
    if events[a].epoch == events[b].epoch {
      assert a == b - 1 || events[a + 1].epoch == events[a].epoch;
      SameEpochStart(events, a + 1, b);
      SameEpochStart(events, a, a + 1);
      assert Time(events, a, a + 1) == Time(events, a, a) + events[a].duration;
    }
  }

  lemma {:induction false} NothingBetween(events: seq<Event>, a: nat, b: nat)
    requires a < b <= |events| && events[a].uploads && |Registered(events, b)| == |Registered(events, a)| + 1
    ensures forall n :: a < n < b ==> !events[n].uploads
  {
    if b > a + 1 {
      UploadsBetween(events, a, b - 1);
      UploadsBetween(events, a, a + 1);
      UploadsBetween(events, a + 1, b - 1);
      NothingBetween(events, a, b - 1);
    }
  }

  ghost predicate AllUpload(events: seq<Event>) {
    forall i :: 0 <= i < |events| ==> events[i].uploads
  }

  lemma {:induction false} NoGaps(events: seq<Event>, start: nat, i: nat)
    requires EpochsAscend(events) && AllUpload(events) && start + i < |Registered(events, |events|)|
    ensures Gaps(Registered(events, |events|)[start..], i) == 0
  {
    if i > 0 {
      NoGaps(events, start, i - 1);
      GapIsLostTime(events, start + i - 1);
      var frags := Registered(events, |events|);
      var a, b := frags[start + i - 1].number, frags[start + i].number;
      RegisteredAt(events, |events|, start + i - 1);
      RegisteredAt(events, |events|, start + i);
      UploadsBetween(events, a, b);
      assert b == a + 1;
    }
  }

  /** While no upload fails, wherever the window starts, a player's date for the end of a fragment is within a millisecond,
      plus half a microsecond for every duration added since the last printed date, of the moment at which its epoch's
      first fragment was closed plus the media time since; the one for its start is as close to the date stored. */
  lemma {:induction false} DatesAccurate(events: seq<Event>, start: nat, ended: bool, i: nat)
    requires EpochsAscend(events) && AllUpload(events) && start + i < |Registered(events, |events|)|
    ensures var frags := Registered(events, |events|); var seen := Play(ATTACHED, Rendered(frags, start, ended)).seen;
      && i < |seen| && seen[i].name == frags[start + i].number
      && var m, k := frags[start + i].number, Played(frags[start..], i);
      && 0 <= m < |events| && -MILLISECOND - 500 * k < seen[i].date - frags[start + i].startedAt <= 500 * k
      && -MILLISECOND - 500 * k < seen[i].date + events[m].duration - MediaEnd(events, m) <= 500 * k
  {
    var frags := Registered(events, |events|);
    RegisteredDated(events, |events|, start + i);
    PlayerSees(frags, start, ended);
    NoGaps(events, start, i);
    DateDrift(frags[start..], i);
  }
}
