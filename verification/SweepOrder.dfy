/** Which open investigations the stale sweep sees, and in what order. */
module SweepOrder {
  import opened Text
  import opened StoreState
  import Investigation

  predicate Open(s: State, id: Str) {
    id in s.investigations && Investigation.IsInProgress(s.investigations[id].state)
  }

  /** An open row of a live chat that nothing has revised since `olderThan`. */
  predicate Stale(s: State, id: Str, olderThan: Time) {
    && Open(s, id)
    && Live(s, s.investigations[id].chatId)
    && s.investigations[id].updatedAt <= olderThan
  }

  function Candidates(s: State, olderThan: Time): set<Str> {
    set id | id in s.investigations && Stale(s, id, olderThan)
  }

  /** The sweep order: never attempted first, then by last attempt, then by last update. */
  predicate NoLater(a: Inquiry, b: Inquiry) {
    match a.lastSweepAttemptAt
    case None => b.lastSweepAttemptAt.Some? || a.updatedAt <= b.updatedAt
    case Some(x) =>
      match b.lastSweepAttemptAt
      case None => false
      case Some(y) => x < y || (x == y && a.updatedAt <= b.updatedAt)
  }

  predicate Precedes(s: State, id: Str, other: Str) {
    id in s.investigations && other in s.investigations && NoLater(s.investigations[id], s.investigations[other])
  }

  predicate PrecedesAll(s: State, id: Str, others: set<Str>) {
    forall o :: o in others ==> Precedes(s, id, o)
  }

  /** `ids` is in order, and comes before all of `rest`. */
  predicate InOrder(s: State, ids: seq<Str>, rest: set<Str>) {
    && (forall i, j :: 0 <= i < j < |ids| ==> ids[i] != ids[j] && Precedes(s, ids[i], ids[j]))
    && (forall i :: 0 <= i < |ids| ==> ids[i] !in rest && PrecedesAll(s, ids[i], rest))
  }

  function Elements(ids: seq<Str>): set<Str> {
    set id | id in ids
  }

  /** What `order by ... limit` may return: the first candidates, ties broken arbitrarily. */
  ghost predicate IsListing(s: State, olderThan: Time, limit: nat, ids: seq<Str>) {
    var all := Candidates(s, olderThan);
    && Elements(ids) <= all
    && InOrder(s, ids, all - Elements(ids))
    && |ids| == if limit <= |all| then limit else |all|
  }

  lemma OrderIsTotal(a: Inquiry, b: Inquiry, c: Inquiry)
    ensures NoLater(a, b) || NoLater(b, a)
    ensures NoLater(a, b) && NoLater(b, c) ==> NoLater(a, c)
  {
  }

  lemma {:induction false} FirstExists(s: State, rows: set<Str>) returns (first: Str)
    requires rows != {} && forall id :: id in rows ==> id in s.investigations
    ensures first in rows && PrecedesAll(s, first, rows)
    decreases rows
  {
    hide NoLater;
    var id :| id in rows;
    first := id;
    OrderIsTotal(s.investigations[id], s.investigations[id], s.investigations[id]);
    if rows != {id} {
      var other := FirstExists(s, rows - {id});
      OrderIsTotal(s.investigations[id], s.investigations[other], s.investigations[id]);
      first := if Precedes(s, id, other) then id else other;
      forall o | o in rows ensures Precedes(s, first, o) {
        if o != id {
          assert o in rows - {id} && Precedes(s, other, o);
          OrderIsTotal(s.investigations[id], s.investigations[other], s.investigations[o]);
        }
      }
    }
  }

  lemma {:induction false} DistinctElements(s: State, ids: seq<Str>, rest: set<Str>)
    requires InOrder(s, ids, rest)
    ensures |Elements(ids)| == |ids|
  {
    hide NoLater, PrecedesAll, Precedes;
    if ids != [] {
      var n := |ids| - 1;
      assert ids == ids[..n] + [ids[n]];
      DistinctElements(s, ids[..n], rest);
      assert Elements(ids) == Elements(ids[..n]) + {ids[n]};
    }
  }

  lemma ListOneMore(s: State, ids: seq<Str>, left: set<Str>, id: Str)
    requires InOrder(s, ids, left) && id in left && PrecedesAll(s, id, left)
    ensures InOrder(s, ids + [id], left - {id})
    ensures Elements(ids + [id]) == Elements(ids) + {id}
  {
    hide NoLater, Precedes;
    assert forall i :: 0 <= i < |ids| ==> PrecedesAll(s, ids[i], left);
  }
}
