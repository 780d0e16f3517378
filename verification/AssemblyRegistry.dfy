/** The durable due-set of streams that still owe a recording: a sorted set of ids by due second, and one detail key
for each. */
module AssemblyRegistry {

  const SECOND := 1_000_000_000

  /** `dueAt` counts nanoseconds; the identifiers the assembler needs travel along unchanged. */
  datatype Pending = Pending(id: nat, dueAt: nat, attempts: nat)

  /** What a detail key holds. */
  datatype Detail = Readable(pending: Pending) | Undecodable

  datatype Entry = Entry(score: nat, id: nat)

  datatype Registry = Registry(due: seq<Entry>, details: map<nat, Detail>)

  function Score(t: nat): nat {
    t / SECOND
  }

  // ---- The sorted set ----

  predicate Less(a: Entry, b: Entry) {
    a.score < b.score || (a.score == b.score && a.id < b.id)
  }

  ghost predicate Ordered(due: seq<Entry>) {
    && (forall i, j :: 0 <= i < j < |due| ==> Less(due[i], due[j]))
    && (forall i, j :: 0 <= i < j < |due| ==> due[i].id != due[j].id)
  }

  function Without(due: seq<Entry>, id: nat): seq<Entry> {
    if due == [] then [] else
      Without(due[..|due| - 1], id) + (if due[|due| - 1].id == id then [] else [due[|due| - 1]])
  }

  function Insert(due: seq<Entry>, e: Entry): seq<Entry> {
    if due == [] || Less(due[|due| - 1], e) then due + [e]
    else Insert(due[..|due| - 1], e) + [due[|due| - 1]]
  }

  /** How many entries come before `e`. */
  function Ahead(due: seq<Entry>, e: Entry): nat {
    if due == [] then 0 else Ahead(due[..|due| - 1], e) + (if Less(due[|due| - 1], e) then 1 else 0)
  }

  lemma {:induction false} WithoutMembers(due: seq<Entry>, id: nat)
    ensures forall x :: x in Without(due, id) <==> x in due && x.id != id
  {
    if due != [] {
      WithoutMembers(due[..|due| - 1], id);
      assert due == due[..|due| - 1] + [due[|due| - 1]];
    }
  }

  lemma {:induction false} OrderedAppend(front: seq<Entry>, last: Entry)
    requires Ordered(front) && forall x :: x in front ==> Less(x, last) && x.id != last.id
    ensures Ordered(front + [last])
  {
  }

  lemma {:induction false} OrderedFront(due: seq<Entry>)
    requires Ordered(due) && due != []
    ensures var front, last := due[..|due| - 1], due[|due| - 1];
      Ordered(front) && due == front + [last] && forall x :: x in front ==> Less(x, last) && x.id != last.id
  {
  }

  lemma {:induction false} WithoutOrdered(due: seq<Entry>, id: nat)
    requires Ordered(due)
    ensures Ordered(Without(due, id))
  {
    if due != [] {
      var front, last := due[..|due| - 1], due[|due| - 1];
      OrderedFront(due);
      WithoutOrdered(front, id);
      WithoutMembers(front, id);
      if last.id == id {
        assert Without(due, id) == Without(front, id);
      } else {
        OrderedAppend(Without(front, id), last);
      }
    }
  }

  lemma {:induction false} InsertMembers(due: seq<Entry>, e: Entry)
    ensures forall x :: x in Insert(due, e) <==> x in due || x == e
  {
    if due != [] && !Less(due[|due| - 1], e) {
      InsertMembers(due[..|due| - 1], e);
      assert due == due[..|due| - 1] + [due[|due| - 1]];
    }
  }

  lemma {:induction false} InsertOrdered(due: seq<Entry>, e: Entry)
    requires Ordered(due) && forall x :: x in due ==> x.id != e.id
    ensures Ordered(Insert(due, e))
  {
    if due == [] {
    } else {
      var front, last := due[..|due| - 1], due[|due| - 1];
      OrderedFront(due);
      if Less(last, e) {
        forall x | x in due ensures Less(x, e) {
        }
        OrderedAppend(due, e);
      } else {
        InsertOrdered(front, e);
        InsertMembers(front, e);
        OrderedAppend(Insert(front, e), last);
      }
    }
  }

  lemma {:induction false} AheadInsert(due: seq<Entry>, x: Entry, e: Entry)
    ensures Ahead(Insert(due, x), e) == Ahead(due, e) + (if Less(x, e) then 1 else 0)
  {
    var longer := Insert(due, x);
    if due == [] || Less(due[|due| - 1], x) {
      assert longer[..|longer| - 1] == due;
    } else {
      AheadInsert(due[..|due| - 1], x, e);
      assert longer[..|longer| - 1] == Insert(due[..|due| - 1], x);
    }
  }

  lemma {:induction false} WithoutAbsent(due: seq<Entry>, id: nat)
    requires forall x :: x in due ==> x.id != id
    ensures Without(due, id) == due
  {
    if due != [] {
      assert due == due[..|due| - 1] + [due[|due| - 1]];
      WithoutAbsent(due[..|due| - 1], id);
    }
  }

  lemma {:induction false} AheadWithout(due: seq<Entry>, x: Entry, e: Entry)
    requires Ordered(due) && x in due
    ensures Ahead(Without(due, x.id), e) == Ahead(due, e) - (if Less(x, e) then 1 else 0)
  {
    var front, last := due[..|due| - 1], due[|due| - 1];
    assert due == front + [last];
    if last == x {
      forall y | y in front ensures y.id != x.id {
        var i :| 0 <= i < |front| && front[i] == y;
        assert due[i] == y;
      }
      WithoutAbsent(front, x.id);
      assert Without(due, x.id) == front;
    } else {
      assert x in front;
      assert last.id != x.id;
      AheadWithout(front, x, e);
      var shorter := Without(due, x.id);
      assert shorter == Without(front, x.id) + [last];
      assert shorter[..|shorter| - 1] == Without(front, x.id);
    }
  }

  // ---- The registry ----

  function Scheduled(r: Registry, p: Pending): Registry {
    Registry(Insert(Without(r.due, p.id), Entry(Score(p.dueAt), p.id)), r.details[p.id := Readable(p)])
  }

  function Cancelled(r: Registry, id: nat): Registry {
    Registry(Without(r.due, id), r.details - {id})
  }

  /** Range by score: the first `limit` of those due. */
  function Batch(due: seq<Entry>, now: nat, limit: nat): seq<Entry> {
    if due == [] || due[0].score > Score(now) || limit == 0 then [] else [due[0]] + Batch(due[1..], now, limit - 1)
  }

  /** One member of the batch: its detail is loaded, or it is dropped for want of one. */
  function Loaded(r: Registry, id: nat): (Registry, seq<Pending>) {
    if id !in r.details then (r.(due := Without(r.due, id)), [])
    else if r.details[id].Undecodable? then (Cancelled(r, id), [])
    else (r, [r.details[id].pending])
  }

  function LoadedAll(r: Registry, batch: seq<Entry>): (Registry, seq<Pending>) {
    if batch == [] then (r, []) else
      var before := LoadedAll(r, batch[..|batch| - 1]);
      var one := Loaded(before.0, batch[|batch| - 1].id);
      (one.0, before.1 + one.1)
  }

  class PendingAssemblyRegistry {
    var due: seq<Entry>
    var details: map<nat, Detail>

    ghost function View(): Registry
      reads this
    {
      Registry(due, details)
    }

    method Schedule(p: Pending)
      modifies this
      ensures View() == Scheduled(old(View()), p)
    {
      due := Insert(Without(due, p.id), Entry(Score(p.dueAt), p.id));
      details := details[p.id := Readable(p)];
    }

    method Due(now: nat, limit: nat) returns (pendings: seq<Pending>)
      modifies this
      ensures (View(), pendings) == LoadedAll(old(View()), Batch(old(due), now, limit))
    {
      var members := Batch(due, now, limit);
      pendings := [];
      var i := 0;
      while i < |members|
        invariant 0 <= i <= |members|
        invariant (View(), pendings) == LoadedAll(old(View()), members[..i])
      {
        assert members[..i + 1][..i] == members[..i];
        var id := members[i].id;
        assert pendings + [] == pendings;
        if id !in details {
          due := Without(due, id);
        } else if details[id].Undecodable? {
          Cancel(id);
        } else {
          pendings := pendings + [details[id].pending];
        }
        i := i + 1;
      }
      assert members[..|members|] == members;
    }

    method Cancel(id: nat)
      modifies this
      ensures View() == Cancelled(old(View()), id)
    {
      due := Without(due, id);
      details := details - {id};
    }
  }
}
