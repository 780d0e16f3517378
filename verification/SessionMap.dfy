/** Which peer a student's session key addresses, while peers are replaced, closed and reaped in any order. */
module SessionMap {
  import opened Options

  /** A schedule, participant and stream type. */
  type Key = (string, string, string)

  class SessionManager {
    var sessions: map<Key, nat>

    constructor ()
      ensures sessions == map[]
    {
      sessions := map[];
    }

    method Get(key: Key) returns (p: Option<nat>)
      ensures p == if key in sessions then Some(sessions[key]) else None
    {
      if key in sessions {
        return Some(sessions[key]);
      }
      return None;
    }

    method Replace(key: Key, p: nat) returns (previous: Option<nat>)
      modifies this
      ensures sessions == old(sessions)[key := p]
      ensures previous == if key in old(sessions) then Some(old(sessions)[key]) else None
    {
      previous := if key in sessions then Some(sessions[key]) else None;
      sessions := sessions[key := p];
    }

    method RemoveIfSame(key: Key, p: nat)
      modifies this
      ensures sessions == WithoutIfSame(old(sessions), key, p)
    {
      if key in sessions && sessions[key] == p {
        sessions := sessions - {key};
      }
    }
  }

  function WithoutIfSame(sessions: map<Key, nat>, key: Key, p: nat): map<Key, nat> {
    if key in sessions && sessions[key] == p then sessions - {key} else sessions
  }

  /** How far the request that creates a peer, and the goroutine that outlives it, have got. */
  datatype Stage = Created | Registered | Reaped

  /** `closeRequested`: somebody has called `close`; `done`: it has started. */
  datatype Peer = Peer(key: Key, stage: Stage, closeRequested: bool, done: bool)

  datatype Server = Server(sessions: map<Key, nat>, peers: seq<Peer>) {
    function WithPeer(p: nat, peer: Peer): Server
      requires p < |peers|
    {
      this.(peers := peers[p := peer])
    }
  }

  datatype Turn =
    | Create(key: Key)
    | Register(p: nat)      // Replace, and a detached close for the peer it displaces
    | RequestClose(p: nat)  // any of the other reasons to close
    | Close(p: nat)
    | Reap(p: nat)          // RemoveIfSame, once the peer is done

  function Next(s: Server, turn: Turn): Server {
    match turn
    case Create(key) => s.(peers := s.peers + [Peer(key, Created, false, false)])
    case Register(p) =>
      if p < |s.peers| && s.peers[p].stage.Created? then
        var key := s.peers[p].key;
        var s' := s.(sessions := s.sessions[key := p]).WithPeer(p, s.peers[p].(stage := Registered));
        if key in s.sessions && s.sessions[key] < |s.peers| && s.sessions[key] != p then
          var previous := s.sessions[key];
          s'.WithPeer(previous, s.peers[previous].(closeRequested := true))
        else s'
      else s
    case RequestClose(p) =>
      if p < |s.peers| then s.WithPeer(p, s.peers[p].(closeRequested := true)) else s
    case Close(p) =>
      if p < |s.peers| && s.peers[p].closeRequested then s.WithPeer(p, s.peers[p].(done := true)) else s
    case Reap(p) =>
      if p < |s.peers| && s.peers[p].stage.Registered? && s.peers[p].done then
        s.(sessions := WithoutIfSame(s.sessions, s.peers[p].key, p)).WithPeer(p, s.peers[p].(stage := Reaped))
      else s
  }

  function Run(turns: seq<Turn>): Server {
    if turns == [] then Server(map[], []) else Next(Run(turns[..|turns| - 1]), turns[|turns| - 1])
  }

  /** The map addresses registered, unreaped peers under their own keys; a registered peer it does not address is
      on its way out. */
  ghost predicate Consistent(s: Server) {
    && (forall key :: key in s.sessions ==>
          s.sessions[key] < |s.peers| && s.peers[s.sessions[key]].key == key && s.peers[s.sessions[key]].stage.Registered?)
    && (forall p :: 0 <= p < |s.peers| && s.peers[p].stage.Registered? ==>
          s.peers[p].closeRequested || (s.peers[p].key in s.sessions && s.sessions[s.peers[p].key] == p))
    && (forall p :: 0 <= p < |s.peers| && s.peers[p].stage.Reaped? ==> s.peers[p].done)
    && (forall p :: 0 <= p < |s.peers| && s.peers[p].done ==> s.peers[p].closeRequested)
  }

  lemma {:induction false} RegisterConsistent(s: Server, p: nat)
    requires Consistent(s)
    ensures Consistent(Next(s, Register(p)))
  {
    var s' := Next(s, Register(p));
    if p < |s.peers| && s.peers[p].stage.Created? {
      forall q | 0 <= q < |s.peers| && s'.peers[q].stage.Registered?
        ensures s'.peers[q].closeRequested || (s'.peers[q].key in s'.sessions && s'.sessions[s'.peers[q].key] == q)
      {
        assert s'.peers[q].key == s.peers[q].key;
      }
    }
  }

  lemma {:induction false} ReapConsistent(s: Server, p: nat)
    requires Consistent(s)
    ensures Consistent(Next(s, Reap(p)))
  {
    var s' := Next(s, Reap(p));
    if p < |s.peers| {
      forall q | 0 <= q < |s.peers| && s'.peers[q].stage.Registered?
        ensures s'.peers[q].closeRequested || (s'.peers[q].key in s'.sessions && s'.sessions[s'.peers[q].key] == q)
      {
        assert s'.peers[q] == s.peers[q];
      }
    }
  }

  lemma {:induction false} RunConsistent(turns: seq<Turn>)
    ensures Consistent(Run(turns))
  {
    if turns != [] {
      var s, turn := Run(turns[..|turns| - 1]), turns[|turns| - 1];
      RunConsistent(turns[..|turns| - 1]);
      match turn
      case Register(p) => RegisterConsistent(s, p);
      case Reap(p) => ReapConsistent(s, p);
      case _ =>
    }
  }

  /** The peer registered last under `key`, read off the history alone. */
  function Newest(turns: seq<Turn>, key: Key): Option<nat> {
    if turns == [] then None else
      var before, turn := turns[..|turns| - 1], turns[|turns| - 1];
      var peers := Run(before).peers;
      if turn.Register? && turn.p < |peers| && peers[turn.p].stage.Created? && peers[turn.p].key == key then Some(turn.p)
      else Newest(before, key)
  }

  /** `newest` is in the map under `key` until its own reaper removes it, and nobody else is. */
  ghost predicate Addresses(s: Server, key: Key, newest: Option<nat>) {
    && (newest.Some? ==> newest.value < |s.peers| && s.peers[newest.value].key == key && !s.peers[newest.value].stage.Created?)
    && (key in s.sessions <==> newest.Some? && s.peers[newest.value].stage.Registered?)
    && (key in s.sessions ==> s.sessions[key] == newest.value)
  }

  lemma {:induction false} RegisterAddresses(s: Server, p: nat, key: Key, newest: Option<nat>)
    requires Consistent(s) && Addresses(s, key, newest)
    ensures var effective := p < |s.peers| && s.peers[p].stage.Created? && s.peers[p].key == key;
      Addresses(Next(s, Register(p)), key, if effective then Some(p) else newest)
  {
  }

  lemma {:induction false} OtherAddresses(s: Server, turn: Turn, key: Key, newest: Option<nat>)
    requires Consistent(s) && Addresses(s, key, newest) && !turn.Register?
    ensures Addresses(Next(s, turn), key, newest)
  {
  }

  /** In every reachable state a key addresses the peer registered last under it, from its registration until its own
      reaper has run: the reaper of a displaced peer, whenever it runs, never takes its replacement out. */
  lemma {:induction false} MapAddressesNewest(turns: seq<Turn>, key: Key)
    ensures Addresses(Run(turns), key, Newest(turns, key))
  {
    if turns != [] {
      var before, turn := turns[..|turns| - 1], turns[|turns| - 1];
      RunConsistent(before);
      MapAddressesNewest(before, key);
      if turn.Register? {
        RegisterAddresses(Run(before), turn.p, key, Newest(before, key));
      } else {
        OtherAddresses(Run(before), turn, key, Newest(before, key));
      }
    }
  }

  /** Every requested close has started, and every reaper that can run has run. */
  ghost predicate Settled(s: Server) {
    forall p :: 0 <= p < |s.peers| ==>
      && (s.peers[p].closeRequested ==> s.peers[p].done)
      && !s.peers[p].stage.Created?
      && (s.peers[p].done ==> s.peers[p].stage.Reaped?)
  }

  /** Once closes and reapers have caught up, a key addresses a peer exactly when that peer is alive: no closed peer is
      left in the map, no live one is missing from it, and no two live peers share a key. */
  lemma {:induction false} MapIsTheLivePeers(turns: seq<Turn>, p: nat)
    requires p < |Run(turns).peers| && Settled(Run(turns))
    ensures var s := Run(turns);
      !s.peers[p].done <==> s.peers[p].key in s.sessions && s.sessions[s.peers[p].key] == p
  {
    RunConsistent(turns);
  }
}
