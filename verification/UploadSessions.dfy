/** Upload sessions: the two Redis scripts and the segment upload, each request one step. A token is represented by its
hash. */
module UploadSessions {
  import opened Options

  /** Schedule, exam session, candidate and stream type. */
  type Key = (string, string, string, string)

  datatype Session = Session(id: nat, key: Key, tokenHash: nat, expiresAt: int, completed: bool, stopReason: string) {
    /** Live, and this owner's. */
    predicate Admits(token: nat, now: int) {
      now < expiresAt && tokenHash == token
    }
  }

  datatype Error = NotFound | Expired | Ownership | AlreadyCompleted | Conflict | StorageFailed | MarkFailed

  datatype Outcome<T> = Ok(value: T) | Err(error: Error)

  /** `marked` are the streams marked complete beside their segments, which is what the assembler looks at; `used` are the
      stream ids ever registered, `closed` those whose session was ever completed. */
  datatype Store = Store(sessions: map<nat, Session>, index: map<Key, nat>, segments: map<(nat, int), string>, marked: set<nat>, used: set<nat>, closed: set<nat>)

  // ---- The requests ----

  /** `registerUploadScript`: resume the unfinished session of this key, or start a new one. */
  function Registered(s: Store, offer: Session): (Store, Session) {
    var existing := if offer.key in s.index then s.index[offer.key] else offer.id;
    if offer.key in s.index && existing in s.sessions && !s.sessions[existing].completed then
      var refreshed := s.sessions[existing].(tokenHash := offer.tokenHash, expiresAt := offer.expiresAt);
      (s.(sessions := s.sessions[existing := refreshed]), refreshed)
    else
      (s.(sessions := s.sessions[offer.id := offer], index := s.index[offer.key := offer.id], used := s.used + {offer.id}), offer)
  }

  /** `LookupUpload` with the ownership check: a session past its expiry is deleted on the way. */
  function LookedUp(s: Store, id: nat, token: nat, now: int): (Store, Outcome<Session>) {
    if id !in s.sessions then (s, Err(NotFound))
    else if now >= s.sessions[id].expiresAt then (s.(sessions := s.sessions - {id}), Err(Expired))
    else if s.sessions[id].tokenHash != token then (s, Err(Ownership))
    else (s, Ok(s.sessions[id]))
  }

  /** `markUploadCompleteScript`: the first stop reason stays. */
  function Completed(s: Store, id: nat, reason: string): Store
    requires id in s.sessions
  {
    var session := s.sessions[id];
    var reason' := if session.stopReason == "" then reason else session.stopReason;
    s.(sessions := s.sessions[id := session.(completed := true, stopReason := reason')], closed := s.closed + {id})
  }

  /** Both writes of a completion; `marks` is whether the second one, beside the segments, succeeds. */
  function MarkedComplete(s: Store, id: nat, token: nat, reason: string, now: int, marks: bool): (Store, Outcome<(Session, bool)>) {
    var r := LookedUp(s, id, token, now);
    if r.1.Err? then (r.0, Err(r.1.error)) else
      var s' := Completed(s, id, reason);
      if !marks then (s', Err(MarkFailed))
      else (s'.(marked := s'.marked + {id}), Ok((s'.sessions[id], !r.1.value.completed)))
  }

  function Uploaded(s: Store, id: nat, token: nat, number: int, hash: string, now: int, stored: bool): (Store, Outcome<bool>) {
    var r := LookedUp(s, id, token, now);
    if r.1.Err? then (r.0, Err(r.1.error))
    else if r.1.value.completed then (s, Err(AlreadyCompleted))
    else if (id, number) in s.segments then (s, if s.segments[(id, number)] == hash then Ok(false) else Err(Conflict))
    else if !stored then (s, Err(StorageFailed))
    else (s.(segments := s.segments[(id, number) := hash]), Ok(true))
  }

  class UploadRegistry {
    var sessions: map<nat, Session>
    var index: map<Key, nat>
    var segments: map<(nat, int), string>
    var marked: set<nat>
    ghost var used: set<nat>
    ghost var closed: set<nat>

    ghost function View(): Store
      reads this
    {
      Store(sessions, index, segments, marked, used, closed)
    }

    constructor ()
      ensures View() == Store(map[], map[], map[], {}, {}, {})
    {
      sessions, index, segments, marked, used, closed := map[], map[], map[], {}, {}, {};
    }

    method RegisterOrGetUpload(offer: Session, now: int) returns (r: Outcome<(Session, bool)>)
      modifies this
      ensures r.Err? <==> offer.expiresAt <= now
      ensures r.Err? ==> r.error == Expired && View() == old(View())
      ensures r.Ok? ==> (View(), r.value.0) == Registered(old(View()), offer) && r.value.1 == (r.value.0.id == offer.id)
      ensures r.Ok? ==> var session := r.value.0;
        var resumed := offer.key in old(index) && old(index)[offer.key] in old(sessions) && !old(sessions)[old(index)[offer.key]].completed;
        var at := if resumed then old(index)[offer.key] else offer.id;
        && sessions == old(sessions)[at := session] && index == old(index)[offer.key := at]
        && session == if resumed then old(sessions)[at].(tokenHash := offer.tokenHash, expiresAt := offer.expiresAt) else offer
    {
      if offer.expiresAt - now <= 0 {
        return Err(Expired);
      }
      if offer.key in index {
        var existing := index[offer.key];
        if existing in sessions {
          var session := sessions[existing];
          if !session.completed {
            session := session.(tokenHash := offer.tokenHash, expiresAt := offer.expiresAt);
            sessions := sessions[existing := session];
            return Ok((session, session.id == offer.id));
          }
        }
      }
      sessions := sessions[offer.id := offer];
      index := index[offer.key := offer.id];
      used := used + {offer.id};
      return Ok((offer, true));
    }

    method LookupUpload(id: nat, token: nat, now: int) returns (r: Outcome<Session>)
      modifies this
      ensures (View(), r) == LookedUp(old(View()), id, token, now)
      ensures r.Ok? <==> id in old(sessions) && old(sessions)[id].Admits(token, now)
      ensures r.Ok? ==> r.value == old(sessions)[id]
      ensures r == Err(NotFound) <==> id !in old(sessions)
      ensures r == Err(Expired) <==> id in old(sessions) && now >= old(sessions)[id].expiresAt
      ensures sessions == if r == Err(Expired) then old(sessions) - {id} else old(sessions)
      ensures r.Err? ==> r.error == NotFound || r.error == Expired || r.error == Ownership
    {
      if id !in sessions {
        return Err(NotFound);
      }
      var session := sessions[id];
      if now >= session.expiresAt {
        sessions := sessions - {id};
        return Err(Expired);
      }
      if session.tokenHash != token {
        return Err(Ownership);
      }
      return Ok(session);
    }

    /** `markUploadCompleteScript`. */
    method MarkUploadComplete(id: nat, reason: string) returns (newly: bool)
      requires id in sessions
      modifies this`sessions, this`closed
      ensures View() == Completed(old(View()), id, reason) && newly == !old(sessions)[id].completed
    {
      var session := sessions[id];
      newly := !session.completed;
      if reason != "" && session.stopReason == "" {
        session := session.(stopReason := reason);
      }
      session := session.(completed := true);
      sessions := sessions[id := session];
      closed := closed + {id};
    }

    /** `marks` is whether the write beside the segments succeeds. */
    method MarkComplete(id: nat, token: nat, reason: string, now: int, marks: bool) returns (r: Outcome<(Session, bool)>)
      modifies this
      ensures (View(), r) == MarkedComplete(old(View()), id, token, reason, now, marks)
      ensures r.Ok? <==> marks && id in old(sessions) && old(sessions)[id].Admits(token, now)
      ensures r == Err(MarkFailed) <==> !marks && id in old(sessions) && old(sessions)[id].Admits(token, now)
      ensures r.Ok? || r == Err(MarkFailed) ==>
        var was := old(sessions)[id];
        id in sessions && sessions[id] == was.(completed := true, stopReason := if was.stopReason == "" then reason else was.stopReason)
      ensures r.Ok? ==> r.value == (sessions[id], !old(sessions)[id].completed)
      ensures marked == if r.Ok? then old(marked) + {id} else old(marked)
    {
      var found := LookupUpload(id, token, now);
      if found.Err? {
        return Err(found.error);
      }
      var session := found.value;
      var newly := MarkUploadComplete(id, reason);
      if !marks {
        return Err(MarkFailed);
      }
      marked := marked + {id};
      session := session.(completed := true);
      if session.stopReason == "" {
        session := session.(stopReason := reason);
      }
      return Ok((session, newly));
    }

    method Upload(id: nat, token: nat, number: int, hash: string, now: int, stored: bool) returns (r: Outcome<bool>)
      modifies this
      ensures (View(), r) == Uploaded(old(View()), id, token, number, hash, now, stored)
      ensures r.Ok? ==> segments == old(segments)[(id, number) := hash] && (r.value <==> (id, number) !in old(segments))
      ensures r.Err? ==> segments == old(segments)
      ensures r.Ok? ==> id in sessions && sessions[id].Admits(token, now) && !sessions[id].completed
      ensures id in old(sessions) && old(sessions)[id].Admits(token, now) ==>
        && (r == Err(AlreadyCompleted) <==> old(sessions)[id].completed)
        && (r == Err(Conflict) <==> !old(sessions)[id].completed && (id, number) in old(segments) && old(segments)[(id, number)] != hash)
        && (r == Err(StorageFailed) <==> !old(sessions)[id].completed && (id, number) !in old(segments) && !stored)
        && (r == Ok(true) <==> !old(sessions)[id].completed && (id, number) !in old(segments) && stored)
      ensures r.Err? && (id !in old(sessions) || !old(sessions)[id].Admits(token, now)) ==>
        r.error == NotFound || r.error == Expired || r.error == Ownership
    {
      var found := LookupUpload(id, token, now);
      if found.Err? {
        return Err(found.error);
      }
      if found.value.completed {
        return Err(AlreadyCompleted);
      }
      if (id, number) in segments {
        if segments[(id, number)] == hash {
          return Ok(false);
        }
        return Err(Conflict);
      }
      if !stored {
        return Err(StorageFailed);
      }
      segments := segments[(id, number) := hash];
      return Ok(true);
    }
  }

  // ---- Runs ----

  /** `Expire`: the session key and the index key that points to it, which always share their time to live. */
  datatype Turn =
    | Register(session: Session, now: int)
    | Complete(id: nat, token: nat, reason: string, now: int, marks: bool)
    | Upload(id: nat, token: nat, number: int, hash: string, now: int, stored: bool)
    | Expire(id: nat)

  /** A session is registered open, under a stream id nobody has used. */
  predicate Admissible(s: Store, turn: Turn) {
    turn.Register? ==> turn.session.id !in s.used && !turn.session.completed && turn.session.stopReason == ""
  }

  function Next(s: Store, turn: Turn): Store {
    match turn
    case Register(session, now) => if session.expiresAt <= now || !Admissible(s, turn) then s else Registered(s, session).0
    case Complete(id, token, reason, now, marks) => MarkedComplete(s, id, token, reason, now, marks).0
    case Upload(id, token, number, hash, now, stored) => Uploaded(s, id, token, number, hash, now, stored).0
    case Expire(id) => s.(sessions := s.sessions - {id}, index := map k | k in s.index && s.index[k] != id :: s.index[k])
  }

  function Run(s: Store, turns: seq<Turn>): Store {
    if turns == [] then s else Next(Run(s, turns[..|turns| - 1]), turns[|turns| - 1])
  }

  /** An unfinished session is the one its key leads to; completed ones stay completed, and nothing uses an id early. */
  ghost predicate Consistent(s: Store) {
    && (forall id :: id in s.sessions ==> s.sessions[id].id == id && id in s.used)
    && (forall id :: id in s.sessions && !s.sessions[id].completed ==> s.sessions[id].key in s.index && s.index[s.sessions[id].key] == id)
    && (forall id :: id in s.sessions ==> (s.sessions[id].completed <==> id in s.closed))
    && (forall key :: key in s.index ==> s.index[key] in s.used && (s.index[key] in s.sessions ==> s.sessions[s.index[key]].key == key))
    && s.marked <= s.closed <= s.used
    && (forall p :: p in s.segments ==> p.0 in s.used)
  }

  lemma {:induction false} RegisterConsistent(s: Store, offer: Session)
    requires Consistent(s) && offer.id !in s.used && !offer.completed
    ensures Consistent(Registered(s, offer).0)
  {
  }

  lemma {:induction false} CompleteConsistent(s: Store, id: nat, token: nat, reason: string, now: int, marks: bool)
    requires Consistent(s)
    ensures Consistent(MarkedComplete(s, id, token, reason, now, marks).0)
  {
  }

  lemma {:induction false} UploadConsistent(s: Store, id: nat, token: nat, number: int, hash: string, now: int, stored: bool)
    requires Consistent(s)
    ensures Consistent(Uploaded(s, id, token, number, hash, now, stored).0)
  {
  }

  lemma {:induction false} NextConsistent(s: Store, turn: Turn)
    requires Consistent(s)
    ensures Consistent(Next(s, turn))
  {
    match turn
    case Register(session, now) =>
      if session.expiresAt > now && Admissible(s, turn) {
        RegisterConsistent(s, session);
      }
    case Complete(id, token, reason, now, marks) => CompleteConsistent(s, id, token, reason, now, marks);
    case Upload(id, token, number, hash, now, stored) => UploadConsistent(s, id, token, number, hash, now, stored);
    case Expire(id) =>
  }

  lemma {:induction false} RunConsistent(s: Store, turns: seq<Turn>)
    requires Consistent(s)
    ensures Consistent(Run(s, turns))
  {
    if turns != [] {
      RunConsistent(s, turns[..|turns| - 1]);
      NextConsistent(Run(s, turns[..|turns| - 1]), turns[|turns| - 1]);
    }
  }

  const EMPTY := Store(map[], map[], map[], {}, {}, {})

  /** In every reachable state a candidate has at most one unfinished upload session per schedule, exam session and
      stream type. */
  lemma {:induction false} OneUnfinishedSession(turns: seq<Turn>, a: nat, b: nat)
    requires a in Run(EMPTY, turns).sessions && b in Run(EMPTY, turns).sessions
    requires !Run(EMPTY, turns).sessions[a].completed && !Run(EMPTY, turns).sessions[b].completed
    requires Run(EMPTY, turns).sessions[a].key == Run(EMPTY, turns).sessions[b].key
    ensures a == b
  {
    RunConsistent(EMPTY, turns);
  }

  /** In every reachable state the assembler takes for complete only streams whose session is closed, so that nothing is
      uploaded any more; and a completion whose second write failed can be repeated until its session expires, keeps its
      first stop reason, and is then not reported as new. */
  lemma {:induction false} CompletionRepeats(turns: seq<Turn>, id: nat, token: nat, reason: string, now: int, again: string, later: int)
    requires MarkedComplete(Run(EMPTY, turns), id, token, reason, now, false).1 == Err(MarkFailed)
    requires later < Run(EMPTY, turns).sessions[id].expiresAt
    ensures var s := Run(EMPTY, turns); var failed := MarkedComplete(s, id, token, reason, now, false).0;
      && s.marked <= s.closed
      && id in failed.closed && failed.marked == s.marked && id in failed.sessions
      && var r := MarkedComplete(failed, id, token, again, later, true);
      && id in r.0.marked && r.1.Ok? && !r.1.value.1
      && (failed.sessions[id].stopReason != "" ==> r.1.value.0.stopReason == failed.sessions[id].stopReason)
  {
    RunConsistent(EMPTY, turns);
  }

  /** What one request leaves as it is. */
  ghost predicate Settled(s: Store, s': Store, id: nat) {
    && s.used <= s'.used && s.closed <= s'.closed && s.marked <= s'.marked
    && (id in s.used && id in s'.sessions ==> id in s.sessions)
    && (id in s.sessions && id in s'.sessions && s.sessions[id].stopReason != "" ==> s'.sessions[id].stopReason == s.sessions[id].stopReason)
    && (forall n :: (id, n) in s.segments ==> (id, n) in s'.segments && s'.segments[(id, n)] == s.segments[(id, n)])
    && (id in s.closed ==> forall n :: (id, n) in s'.segments ==> (id, n) in s.segments)
  }

  lemma {:induction false} NextSettled(s: Store, turn: Turn, id: nat)
    requires Consistent(s)
    ensures Settled(s, Next(s, turn), id)
  {
  }

  lemma {:induction false} SettledOn(a: Store, b: Store, c: Store, id: nat)
    requires Consistent(a) && Consistent(b) && Settled(a, b, id) && Settled(b, c, id)
    ensures Settled(a, c, id)
  {
  }

  /** From any reachable state on, whatever follows: a completed session never reopens and never takes another segment, a
      stop reason once given never changes, and a stored segment keeps its hash. */
  lemma {:induction false} HistoryIsSettled(turns: seq<Turn>, more: seq<Turn>, id: nat)
    ensures var s, s' := Run(EMPTY, turns), Run(Run(EMPTY, turns), more);
      && Settled(s, s', id)
      && (id in s.sessions && s.sessions[id].completed && id in s'.sessions ==> s'.sessions[id].completed)
  {
    var s := Run(EMPTY, turns);
    RunConsistent(EMPTY, turns);
    RunConsistent(s, more);
    if more != [] {
      var before := more[..|more| - 1];
      HistoryIsSettled(turns, before, id);
      RunConsistent(s, before);
      NextSettled(Run(s, before), more[|more| - 1], id);
      SettledOn(s, Run(s, before), Run(s, more), id);
    }
  }

  lemma {:induction false} RunOneMore(turns: seq<Turn>, turn: Turn)
    ensures Run(EMPTY, turns + [turn]) == Next(Run(EMPTY, turns), turn)
  {
    assert (turns + [turn])[..|turns|] == turns;
  }

  /** After an accepted upload, whatever follows, while the session is open to whoever asks: the same segment is taken as
      stored, and any other content under its number is a conflict. */
  lemma {:induction false} AcceptedStays(turns: seq<Turn>, id: nat, token: nat, number: int, hash: string, now: int, more: seq<Turn>,
      again: nat, content: string, later: int, stored: bool)
    requires Uploaded(Run(EMPTY, turns), id, token, number, hash, now, true).1.Ok?
    requires var s' := Run(Run(EMPTY, turns + [Upload(id, token, number, hash, now, true)]), more);
      id in s'.sessions && s'.sessions[id].Admits(again, later) && !s'.sessions[id].completed
    ensures var s' := Run(Run(EMPTY, turns + [Upload(id, token, number, hash, now, true)]), more);
      && (id, number) in s'.segments && s'.segments[(id, number)] == hash
      && Uploaded(s', id, again, number, content, later, stored).1 == if content == hash then Ok(false) else Err(Conflict)
  {
    RunOneMore(turns, Upload(id, token, number, hash, now, true));
    HistoryIsSettled(turns + [Upload(id, token, number, hash, now, true)], more, id);
  }

  /** Registering again resumes the one unfinished session of the key under its own id: from then on the new credential
      opens it until the new expiry, and any other is refused. */
  lemma {:induction false} ResumedBySuccessor(turns: seq<Turn>, id: nat, offer: Session, token: nat, now: int)
    requires id in Run(EMPTY, turns).sessions && !Run(EMPTY, turns).sessions[id].completed && Run(EMPTY, turns).sessions[id].key == offer.key
    ensures var s := Run(EMPTY, turns); var r := Registered(s, offer);
      && r.1 == s.sessions[id].(tokenHash := offer.tokenHash, expiresAt := offer.expiresAt)
      && r.0.segments == s.segments && r.0.sessions.Keys == s.sessions.Keys
      && LookedUp(r.0, id, token, now).1 ==
           (if now >= offer.expiresAt then Err(Expired) else if token != offer.tokenHash then Err(Ownership) else Ok(r.1))
  {
    RunConsistent(EMPTY, turns);
  }
}
