/** The live-rewind playlist (RFC 8216 sections 4.3.2, 4.3.3 and 6.2.2), as lines of tags, and what a player reads off
it. Times and durations count nanoseconds. */
module LiveManifest {

  const MILLISECOND := 1_000_000
  const SECOND := 1_000_000_000

  datatype Fragment = Fragment(number: int, epoch: int, startedAt: int, endedAt: int) {
    function Duration(): int {
      endedAt - startedAt
    }
  }

  datatype Line =
    | TargetDuration(seconds: int)
    | MediaSequence(number: int)
    | DiscontinuitySequence(count: int)
    | Discontinuity
    | Map(epoch: int)
    | ProgramDateTime(milliseconds: int)
    | Inf(microseconds: int, number: int)
    | EndList

  datatype Manifest = NoFragments | MissingInit | Playlist(lines: seq<Line>)

  // ---- The window ----

  function Span(frags: seq<Fragment>, start: nat): int
    requires start <= |frags|
    decreases |frags| - start
  {
    if start == |frags| then 0 else frags[start].Duration() + Span(frags, start + 1)
  }

  /** The first fragment served is the last one from which the rest reaches the window, or the very first. */
  ghost predicate StartsWindow(frags: seq<Fragment>, window: int, start: nat) {
    start <= |frags| &&
    if window <= 0 then start == 0
    else
      && (start == 0 || Span(frags, start) >= window)
      && (forall k :: start < k < |frags| ==> Span(frags, k) < window)
      && (frags != [] ==> start < |frags|)
  }

  method WindowFragments(frags: seq<Fragment>, window: int) returns (windowed: seq<Fragment>)
    ensures |windowed| <= |frags| && windowed == frags[|frags| - |windowed|..]
    ensures StartsWindow(frags, window, |frags| - |windowed|)
  {
    if window <= 0 {
      return frags;
    }
    var total := 0;
    var first := |frags|;
    var i := |frags| - 1;
    while i >= 0
      invariant -1 <= i < |frags| && first == i + 1
      invariant total == Span(frags, first)
      invariant forall k :: first <= k < |frags| ==> Span(frags, k) < window
    {
      total := total + frags[i].Duration();
      first := i;
      if total >= window {
        return frags[first..];
      }
      i := i - 1;
    }
    return frags[first..];
  }

  lemma {:induction false} SpanAppend(frags: seq<Fragment>, f: Fragment, start: nat)
    requires start <= |frags|
    ensures Span(frags + [f], start) == Span(frags, start) + f.Duration()
    decreases |frags| - start
  {
    if start < |frags| {
      SpanAppend(frags, f, start + 1);
    }
  }

  /** A new fragment never brings back what has scrolled out. */
  lemma {:induction false} WindowNeverMovesBack(frags: seq<Fragment>, f: Fragment, window: int, before: nat, after: nat)
    requires f.Duration() >= 0
    requires StartsWindow(frags, window, before) && StartsWindow(frags + [f], window, after)
    ensures before <= after
  {
    if after < before && window > 0 {
      SpanAppend(frags, f, before);
    }
  }

  // ---- Rendering ----

  /** `Format` with three decimals cuts off. */
  function Milliseconds(t: int): int {
    t / MILLISECOND
  }

  /** `%.6f` of seconds rounds to the nearest microsecond. */
  function Microseconds(d: int): int {
    (d + 500) / 1000
  }

  function Ceiling(d: int): int {
    (d + SECOND - 1) / SECOND
  }

  function Longest(frags: seq<Fragment>): (d: int)
    ensures d >= 0
    ensures forall i :: 0 <= i < |frags| ==> frags[i].Duration() <= d
    ensures d > 0 ==> exists i :: 0 <= i < |frags| && frags[i].Duration() == d
  {
    if frags == [] then 0 else
      var rest := Longest(frags[..|frags| - 1]);
      assert forall i :: 0 <= i < |frags| - 1 ==> frags[i] == frags[..|frags| - 1][i];
      if frags[|frags| - 1].Duration() > rest then frags[|frags| - 1].Duration() else rest
  }

  /** Epoch changes between neighbours among the first `n` fragments. */
  function Changes(frags: seq<Fragment>, n: nat): nat
    requires n <= |frags|
  {
    if n <= 1 then 0 else Changes(frags, n - 1) + (if frags[n - 1].epoch != frags[n - 2].epoch then 1 else 0)
  }

  function Head(frags: seq<Fragment>, i: nat): seq<Line>
    requires i < |frags|
  {
    if i == 0 then [Map(frags[i].epoch), ProgramDateTime(Milliseconds(frags[i].startedAt))]
    else if frags[i].epoch != frags[i - 1].epoch then
      [Discontinuity, Map(frags[i].epoch), ProgramDateTime(Milliseconds(frags[i].startedAt))]
    else []
  }

  function Body(frags: seq<Fragment>, n: nat): seq<Line>
    requires n <= |frags|
  {
    if n == 0 then [] else
      Body(frags, n - 1) + Head(frags, n - 1) + [Inf(Microseconds(frags[n - 1].Duration()), frags[n - 1].number)]
  }

  function Rendered(frags: seq<Fragment>, start: nat, ended: bool): seq<Line>
    requires start < |frags|
  {
    [TargetDuration(Ceiling(Longest(frags[start..]))), MediaSequence(frags[start].number), DiscontinuitySequence(Changes(frags, start + 1))]
    + Body(frags[start..], |frags| - start) + (if ended then [EndList] else [])
  }

  ghost predicate Numbered(frags: seq<Fragment>) {
    && (forall i, j :: 0 <= i < j < |frags| ==> frags[i].number < frags[j].number)
    && (forall i :: 0 <= i < |frags| ==> frags[i].epoch >= 0)
  }

  method DiscontinuitiesBefore(frags: seq<Fragment>, ghost start: nat, firstWindowed: int) returns (count: int)
    requires Numbered(frags) && start < |frags| && firstWindowed == frags[start].number
    ensures count == Changes(frags, start + 1)
  {
    count := 0;
    var prevEpoch := -1;
    var i := 0;
    while i < |frags|
      invariant 0 <= i <= start
      invariant prevEpoch == if i == 0 then -1 else frags[i - 1].epoch
      invariant count == Changes(frags, i)
    {
      if frags[i].number >= firstWindowed {
        break;
      }
      if prevEpoch != -1 && frags[i].epoch != prevEpoch {
        count := count + 1;
      }
      prevEpoch := frags[i].epoch;
      i := i + 1;
    }
    if prevEpoch != -1 {
      var k := 0;
      while k < |frags|
        invariant 0 <= k <= start
      {
        if frags[k].number == firstWindowed {
          if frags[k].epoch != prevEpoch {
            count := count + 1;
          }
          break;
        }
        k := k + 1;
      }
    }
  }

  method LongestFragment(frags: seq<Fragment>) returns (longest: int)
    ensures longest == Longest(frags)
  {
    longest := 0;
    var i := 0;
    while i < |frags|
      invariant 0 <= i <= |frags|
      invariant longest == Longest(frags[..i])
    {
      assert frags[..i + 1][..i] == frags[..i];
      if frags[i].Duration() > longest {
        longest := frags[i].Duration();
      }
      i := i + 1;
    }
    assert frags[..|frags|] == frags;
  }

  method RenderBody(inits: set<int>, windowed: seq<Fragment>) returns (ok: bool, body: seq<Line>)
    requires forall i :: 0 <= i < |windowed| ==> windowed[i].epoch >= 0
    ensures ok <==> forall i :: 0 <= i < |windowed| ==> windowed[i].epoch in inits
    ensures ok ==> body == Body(windowed, |windowed|)
  {
    body := [];
    var prevEpoch := -1;
    var i := 0;
    while i < |windowed|
      invariant 0 <= i <= |windowed|
      invariant prevEpoch == if i == 0 then -1 else windowed[i - 1].epoch
      invariant body == Body(windowed, i)
      invariant forall k :: 0 <= k < i ==> windowed[k].epoch in inits
    {
      ghost var before := body;
      if windowed[i].epoch != prevEpoch {
        if prevEpoch != -1 {
          body := body + [Discontinuity];
        }
        if windowed[i].epoch !in inits {
          return false, [];
        }
        body := body + [Map(windowed[i].epoch)] + [ProgramDateTime(Milliseconds(windowed[i].startedAt))];
        prevEpoch := windowed[i].epoch;
      }
      assert body == before + Head(windowed, i);
      body := body + [Inf(Microseconds(windowed[i].Duration()), windowed[i].number)];
      i := i + 1;
    }
    ok := true;
  }

  method BuildLiveManifest(inits: set<int>, frags: seq<Fragment>, window: int, ended: bool) returns (m: Manifest, ghost start: nat)
    requires Numbered(frags)
    ensures StartsWindow(frags, window, start)
    ensures m.NoFragments? <==> frags == []
    ensures m.MissingInit? <==> exists i :: 0 <= i < |frags[start..]| && frags[start..][i].epoch !in inits
    ensures m.Playlist? ==> m.lines == Rendered(frags, start, ended)
    ensures m.Playlist? ==> EndsIff(m.lines, ended)
  {
    if |frags| == 0 {
      return NoFragments, 0;
    }
    var windowed := WindowFragments(frags, window);
    start := |frags| - |windowed|;
    var targetDuration := LongestFragment(windowed);
    var skipped := DiscontinuitiesBefore(frags, start, windowed[0].number);
    var header := [TargetDuration(Ceiling(targetDuration)), MediaSequence(windowed[0].number), DiscontinuitySequence(skipped)];
    var ok, body := RenderBody(inits, windowed);
    if !ok {
      return MissingInit, start;
    }
    m := Playlist(header + body + (if ended then [EndList] else []));
    EndListLast(frags, start, ended);
  }

  /** The playlist ends, with its last line and with no other, exactly if `ended`. */
  predicate EndsIff(lines: seq<Line>, ended: bool) {
    lines != [] && forall k :: 0 <= k < |lines| ==> (lines[k].EndList? <==> ended && k == |lines| - 1)
  }

  lemma {:induction false} EndListLast(frags: seq<Fragment>, start: nat, ended: bool)
    requires start < |frags|
    ensures EndsIff(Rendered(frags, start, ended), ended)
  {
    var body, lines := Body(frags[start..], |frags| - start), Rendered(frags, start, ended);
    BodyGoesOn(frags[start..], |frags| - start);
    forall k | 0 <= k < |lines| ensures lines[k].EndList? <==> ended && k == |lines| - 1 {
      if 3 <= k < 3 + |body| {
        assert lines[k] == body[k - 3] && body[k - 3] in body;
      }
    }
  }

  lemma {:induction false} BodyGoesOn(frags: seq<Fragment>, n: nat)
    requires n <= |frags|
    ensures forall line :: line in Body(frags, n) ==> !line.EndList?
  {
    if n > 0 {
      BodyGoesOn(frags, n - 1);
      assert forall line :: line in Head(frags, n - 1) ==> !line.EndList?;
    }
  }

  lemma {:induction false} TargetCovers(frags: seq<Fragment>, start: nat, i: nat)
    requires start <= i < |frags|
    ensures frags[i].Duration() <= Ceiling(Longest(frags[start..])) * SECOND
  {
    assert frags[start..][i - start] == frags[i];
  }

  lemma {:induction false} BodyWithin(frags: seq<Fragment>, n: nat, limit: int)
    requires n <= |frags| && limit >= 0 && forall i :: 0 <= i < |frags| ==> frags[i].Duration() <= limit * SECOND
    ensures forall line :: line in Body(frags, n) && line.Inf? ==> line.microseconds <= limit * 1_000_000
  {
    if n > 0 {
      BodyWithin(frags, n - 1, limit);
      assert frags[n - 1].Duration() <= limit * SECOND;
      assert forall line :: line in Head(frags, n - 1) ==> !line.Inf?;
    }
  }

  /** The target is no longer than it has to be: some fragment served lasts more than a second less. */
  lemma {:induction false} TargetTight(frags: seq<Fragment>, start: nat, ended: bool)
    requires start < |frags|
    ensures Rendered(frags, start, ended)[0].TargetDuration?
    ensures var target := Rendered(frags, start, ended)[0].seconds;
      target >= 0 && (target > 0 ==> exists i :: start <= i < |frags| && frags[i].Duration() > (target - 1) * SECOND)
  {
    var served := frags[start..];
    if Longest(served) > 0 {
      var i :| 0 <= i < |served| && served[i].Duration() == Longest(served);
      assert served[i] == frags[start + i];
    }
  }

  /** RFC 8216 section 4.3.3.1: no printed duration, rounded to the nearest second, exceeds the target duration. */
  lemma {:induction false} TargetDurationHolds(frags: seq<Fragment>, start: nat, ended: bool, line: Line)
    requires start < |frags| && line in Rendered(frags, start, ended) && line.Inf?
    ensures Rendered(frags, start, ended)[0].TargetDuration?
    ensures (line.microseconds + 500_000) / 1_000_000 <= Rendered(frags, start, ended)[0].seconds
  {
    var served, target := frags[start..], Ceiling(Longest(frags[start..]));
    forall i | 0 <= i < |served| ensures served[i].Duration() <= target * SECOND {
      TargetCovers(frags, start, start + i);
    }
    BodyWithin(served, |served|, target);
    assert line in Body(served, |served|);
  }

  // ---- What a player makes of it ----

  /** A fragment as a player sees it: its name, the number and discontinuity number it gives it, the date it computes for
      its start, its length, and the epoch of the init segment it decodes it with. */
  datatype Seen = Seen(name: int, media: int, discontinuity: int, date: int, microseconds: int, init: int)

  /** `init` is the init segment in force, if any; `over`, that there is nothing to reload for. */
  datatype Player = Player(nextMedia: int, discontinuity: int, date: int, init: int, seen: seq<Seen>, over: bool)

  function Read(p: Player, line: Line): Player {
    match line
    case MediaSequence(n) => p.(nextMedia := n)
    case DiscontinuitySequence(n) => p.(discontinuity := n)
    case Discontinuity => p.(discontinuity := p.discontinuity + 1)
    case ProgramDateTime(ms) => p.(date := ms * MILLISECOND)
    case Map(epoch) => p.(init := epoch)
    case Inf(us, name) =>
      p.(nextMedia := p.nextMedia + 1, date := p.date + us * 1000,
         seen := p.seen + [Seen(name, p.nextMedia, p.discontinuity, p.date, us, p.init)])
    case EndList => p.(over := true)
    case TargetDuration(_) => p
  }

  function Play(p: Player, lines: seq<Line>): Player {
    if lines == [] then p else Read(Play(p, lines[..|lines| - 1]), lines[|lines| - 1])
  }

  const ATTACHED := Player(0, 0, 0, NO_INIT, [], false)
  const NO_INIT := -1

  lemma {:induction false} PlaySplit(p: Player, a: seq<Line>, b: seq<Line>)
    ensures Play(p, a + b) == Play(Play(p, a), b)
  {
    if b == [] {
      assert a + b == a;
    } else {
      assert (a + b)[..|a + b| - 1] == a + b[..|b| - 1];
      PlaySplit(p, a, b[..|b| - 1]);
    }
  }

  lemma {:induction false} PlayOne(p: Player, line: Line)
    ensures Play(p, [line]) == Read(p, line)
  {
    assert [line][..0] == [];
  }

  /** The date a player computes for fragment `i` of the window: the printed start of its epoch, or of the window, plus
      the printed durations since. */
  function Date(frags: seq<Fragment>, i: nat): int
    requires i < |frags|
  {
    if i == 0 || frags[i].epoch != frags[i - 1].epoch then Milliseconds(frags[i].startedAt) * MILLISECOND
    else Date(frags, i - 1) + Microseconds(frags[i - 1].Duration()) * 1000
  }

  lemma {:induction false} PlayHead(p: Player, frags: seq<Fragment>, i: nat)
    requires i < |frags|
    requires i > 0 ==> p.date == Date(frags, i - 1) + Microseconds(frags[i - 1].Duration()) * 1000 && p.init == frags[i - 1].epoch
    ensures var q := Play(p, Head(frags, i));
      && q.nextMedia == p.nextMedia && q.seen == p.seen && q.date == Date(frags, i) && q.init == frags[i].epoch && q.over == p.over
      && q.discontinuity == p.discontinuity + (if i > 0 && frags[i].epoch != frags[i - 1].epoch then 1 else 0)
  {
    var head := Head(frags, i);
    if head != [] {
      var n := |head|;
      assert head == head[..n - 2] + [head[n - 2]] + [head[n - 1]];
      PlaySplit(p, head[..n - 2] + [head[n - 2]], [head[n - 1]]);
      PlaySplit(p, head[..n - 2], [head[n - 2]]);
      PlayOne(p, Discontinuity);
      if n == 3 {
        assert head[..1] == [Discontinuity];
      }
      PlayOne(Play(p, head[..n - 2]), head[n - 2]);
      PlayOne(Play(p, head[..n - 2] + [head[n - 2]]), head[n - 1]);
    }
  }

  /** Fragment `i` as seen by a player that reads `media` and `skipped` in the header. */
  function Expected(media: int, skipped: int, frags: seq<Fragment>, i: nat): Seen
    requires i < |frags|
  {
    Seen(frags[i].number, media + i, skipped + Changes(frags, i + 1), Date(frags, i), Microseconds(frags[i].Duration()), frags[i].epoch)
  }

  /** The player after `n` fragments. */
  ghost predicate Followed(q: Player, p: Player, frags: seq<Fragment>, n: nat)
    requires n <= |frags|
  {
    && |q.seen| == n && q.nextMedia == p.nextMedia + n && q.discontinuity == p.discontinuity + Changes(frags, n) && q.over == p.over
    && (n > 0 ==> q.date == Date(frags, n - 1) + Microseconds(frags[n - 1].Duration()) * 1000 && q.init == frags[n - 1].epoch)
    && forall i {:trigger q.seen[i]} :: 0 <= i < n ==> q.seen[i] == Expected(p.nextMedia, p.discontinuity, frags, i)
  }

  lemma {:induction false} PlayBodyStep(p: Player, frags: seq<Fragment>, m: nat)
    requires m < |frags|
    ensures Play(p, Body(frags, m + 1))
      == Read(Play(Play(p, Body(frags, m)), Head(frags, m)), Inf(Microseconds(frags[m].Duration()), frags[m].number))
  {
    var inf := Inf(Microseconds(frags[m].Duration()), frags[m].number);
    PlaySplit(p, Body(frags, m), Head(frags, m));
    PlaySplit(p, Body(frags, m) + Head(frags, m), [inf]);
    PlayOne(Play(p, Body(frags, m) + Head(frags, m)), inf);
  }

  lemma {:induction false} FollowedInf(mid: Player, p: Player, frags: seq<Fragment>, m: nat)
    requires m < |frags| && |mid.seen| == m && mid.nextMedia == p.nextMedia + m && mid.over == p.over
    requires mid.discontinuity == p.discontinuity + Changes(frags, m + 1) && mid.date == Date(frags, m) && mid.init == frags[m].epoch
    requires forall i {:trigger mid.seen[i]} :: 0 <= i < m ==> mid.seen[i] == Expected(p.nextMedia, p.discontinuity, frags, i)
    ensures Followed(Read(mid, Inf(Microseconds(frags[m].Duration()), frags[m].number)), p, frags, m + 1)
  {
  }

  lemma {:induction false} FollowedHead(before: Player, mid: Player, p: Player, frags: seq<Fragment>, m: nat)
    requires m < |frags| && Followed(before, p, frags, m)
    requires mid == Play(before, Head(frags, m))
    ensures mid.nextMedia == p.nextMedia + m && mid.seen == before.seen && mid.date == Date(frags, m)
    ensures mid.discontinuity == p.discontinuity + Changes(frags, m + 1) && mid.init == frags[m].epoch && mid.over == p.over
  {
    PlayHead(before, frags, m);
  }

  lemma {:induction false} FollowedNext(before: Player, p: Player, frags: seq<Fragment>, m: nat)
    requires m < |frags| && Followed(before, p, frags, m)
    ensures Followed(Read(Play(before, Head(frags, m)), Inf(Microseconds(frags[m].Duration()), frags[m].number)), p, frags, m + 1)
  {
    var mid := Play(before, Head(frags, m));
    FollowedHead(before, mid, p, frags, m);
    FollowedInf(mid, p, frags, m);
  }

  lemma {:induction false} PlayBody(p: Player, frags: seq<Fragment>, n: nat)
    requires n <= |frags| && p.seen == []
    ensures Followed(Play(p, Body(frags, n)), p, frags, n)
  {
    if n > 0 {
      PlayBody(p, frags, n - 1);
      PlayBodyStep(p, frags, n - 1);
      FollowedNext(Play(p, Body(frags, n - 1)), p, frags, n - 1);
    }
  }

  lemma {:induction false} ChangesShift(frags: seq<Fragment>, start: nat, n: nat)
    requires start + n < |frags|
    ensures Changes(frags, start + 1) + Changes(frags[start..], n + 1) == Changes(frags, start + n + 1)
  {
    if n > 0 {
      ChangesShift(frags, start, n - 1);
    }
  }

  /** A player that has read the header. */
  function Joined(media: int, skipped: int): Player {
    Player(media, skipped, 0, NO_INIT, [], false)
  }

  lemma {:induction false} PlayHeader(target: int, media: int, skipped: int)
    ensures Play(ATTACHED, [TargetDuration(target), MediaSequence(media), DiscontinuitySequence(skipped)]) == Joined(media, skipped)
  {
    var lines := [TargetDuration(target), MediaSequence(media), DiscontinuitySequence(skipped)];
    assert lines[..2][..1][..0] == [] && lines[..2][..1] == [TargetDuration(target)] && lines[..2] == [TargetDuration(target), MediaSequence(media)];
    PlayOne(ATTACHED, TargetDuration(target));
  }

  lemma {:induction false} PlayEnd(p: Player, ended: bool)
    ensures Play(p, if ended then [EndList] else []) == p.(over := p.over || ended)
  {
    PlayOne(p, EndList);
  }

  lemma {:induction false} PlayRendered(frags: seq<Fragment>, start: nat, ended: bool)
    requires start < |frags|
    ensures Play(ATTACHED, Rendered(frags, start, ended))
      == Play(Joined(frags[start].number, Changes(frags, start + 1)), Body(frags[start..], |frags[start..]|)).(over := ended)
  {
    var target := Ceiling(Longest(frags[start..]));
    var header := [TargetDuration(target), MediaSequence(frags[start].number), DiscontinuitySequence(Changes(frags, start + 1))];
    var body, tail := Body(frags[start..], |frags| - start), if ended then [EndList] else [];
    PlayHeader(target, frags[start].number, Changes(frags, start + 1));
    PlaySplit(ATTACHED, header + body, tail);
    PlaySplit(ATTACHED, header, body);
    PlayEnd(Play(ATTACHED, header + body), ended);
    PlayBody(Joined(frags[start].number, Changes(frags, start + 1)), frags[start..], |frags| - start);
  }

  ghost predicate Looks(seen: seq<Seen>, frags: seq<Fragment>, media: int, skipped: int) {
    |seen| == |frags| && forall i {:trigger seen[i]} :: 0 <= i < |frags| ==> seen[i] == Expected(media, skipped, frags, i)
  }

  lemma {:induction false} BodyLooks(frags: seq<Fragment>, media: int, skipped: int)
    ensures Looks(Play(Joined(media, skipped), Body(frags, |frags|)).seen, frags, media, skipped)
  {
    PlayBody(Joined(media, skipped), frags, |frags|);
  }

  /** What a player sees of each fragment served: it decodes it with the init segment of its epoch, and stops reloading
      exactly when the stream has ended. The discontinuity number is the number of epoch changes before it in the stream's
      full history, so it is the same in every reload. */
  lemma {:induction false} PlayerSees(frags: seq<Fragment>, start: nat, ended: bool)
    requires start < |frags|
    ensures var player := Play(ATTACHED, Rendered(frags, start, ended)); var seen := player.seen;
      && player.over == ended
      && |seen| == |frags| - start
      && forall i :: 0 <= i < |seen| ==>
           seen[i] == Seen(frags[start + i].number, frags[start].number + i, Changes(frags, start + i + 1), Date(frags[start..], i),
                           Microseconds(frags[start + i].Duration()), frags[start + i].epoch)
  {
    var seen := Play(ATTACHED, Rendered(frags, start, ended)).seen;
    PlayRendered(frags, start, ended);
    BodyLooks(frags[start..], frags[start].number, Changes(frags, start + 1));
    assert Looks(seen, frags[start..], frags[start].number, Changes(frags, start + 1));
    forall i | 0 <= i < |seen|
      ensures seen[i] == Seen(frags[start + i].number, frags[start].number + i, Changes(frags, start + i + 1), Date(frags[start..], i),
                              Microseconds(frags[start + i].Duration()), frags[start + i].epoch)
    {
      ChangesShift(frags, start, i);
    }
  }

  lemma {:induction false} ChangesPrefix(frags: seq<Fragment>, more: seq<Fragment>, n: nat)
    requires n <= |frags|
    ensures Changes(frags + more, n) == Changes(frags, n)
  {
    if n > 1 {
      ChangesPrefix(frags, more, n - 1);
    }
  }

  lemma {:induction false} PlayerSeesOne(frags: seq<Fragment>, start: nat, ended: bool, i: nat)
    requires start <= i < |frags|
    ensures var seen := Play(ATTACHED, Rendered(frags, start, ended)).seen;
      i - start < |seen| && seen[i - start].name == frags[i].number && seen[i - start].discontinuity == Changes(frags, i + 1)
  {
    PlayerSees(frags, start, ended);
  }

  /** However the window moves as fragments are added, a fragment keeps its name and its discontinuity number. */
  lemma {:induction false} DiscontinuityNumberKept(frags: seq<Fragment>, more: seq<Fragment>, start: nat, later: nat, ended: bool, i: nat)
    requires start <= i < |frags| && later <= i
    ensures var seen := Play(ATTACHED, Rendered(frags, start, false)).seen;
      var again := Play(ATTACHED, Rendered(frags + more, later, ended)).seen;
      && i - start < |seen| && i - later < |again|
      && seen[i - start].name == again[i - later].name && seen[i - start].discontinuity == again[i - later].discontinuity
  {
    PlayerSeesOne(frags, start, false, i);
    PlayerSeesOne(frags + more, later, ended, i);
    ChangesPrefix(frags, more, i + 1);
  }
}
