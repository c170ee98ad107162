/** What becomes of each row of the offline buffer: it is present, has been removed, or has been dropped. */
module QueueFates {
  import opened Options
  import opened OfflineQueue

  ghost function IdSet<T>(rows: seq<Row<T>>): set<nat> {
    set r | r in rows :: r.id
  }

  /** The oldest rows, which an enqueue drops to make room. */
  function Overflow<T>(rows: seq<Row<T>>, maxEntries: nat): seq<Row<T>> {
    if |rows| < maxEntries then [] else rows[..if maxEntries == 0 then |rows| else |rows| + 1 - maxEntries]
  }

  /** The ids listed for removal while their rows were there, and the ids dropped, in the order of the drops. */
  datatype Fates = Fates(removed: set<nat>, dropped: seq<nat>)

  ghost function FatesNext<T>(f: Fates, before: State<T>, maxEntries: nat, op: Op<T>): Fates {
    match op
    case Put(_) => f.(dropped := f.dropped + Ids(Overflow(before.rows, maxEntries)))
    case Take(ids) => f.(removed := f.removed + set id | id in ids && id in IdSet(before.rows))
    case Fail(_, _) => f
  }

  ghost function FatesOf<T>(s: State<T>, maxEntries: nat, ops: seq<Op<T>>): Fates
    decreases |ops|
  {
    if ops == [] then Fates({}, [])
    else
      var front := ops[..|ops| - 1];
      FatesNext(FatesOf(s, maxEntries, front), ApplyAll(s, maxEntries, front), maxEntries, ops[|ops| - 1])
  }

  /** An id of a row that was there at the start, or that has been handed out since. */
  ghost predicate Issued<T>(s: State<T>, lastId: nat, id: nat) {
    id in IdSet(s.rows) || s.lastId < id <= lastId
  }

  predicate AtMostOne(a: bool, b: bool, c: bool) {
    !(a && b) && !(a && c) && !(b && c)
  }

  predicate ExactlyOne(a: bool, b: bool, c: bool) {
    (a || b || c) && AtMostOne(a, b, c)
  }

  /** An id has exactly one of the three fates if it was issued, and none otherwise. */
  ghost predicate HasOneFate<T>(s: State<T>, after: State<T>, f: Fates, id: nat) {
    if Issued(s, after.lastId, id) then ExactlyOne(id in IdSet(after.rows), id in f.removed, id in f.dropped)
    else id !in IdSet(after.rows) && id !in f.removed && id !in f.dropped
  }

  lemma InIdSet<T>(rows: seq<Row<T>>, i: nat)
    requires i < |rows|
    ensures rows[i].id in IdSet(rows)
  {
    assert rows[i] in rows;
  }

  lemma IdsAreIdSet<T>(rows: seq<Row<T>>, id: nat)
    ensures id in Ids(rows) <==> id in IdSet(rows)
  {
    if id in Ids(rows) {
      var i :| 0 <= i < |rows| && Ids(rows)[i] == id;
      InIdSet(rows, i);
    }
    if id in IdSet(rows) {
      var r :| r in rows && r.id == id;
      var i :| 0 <= i < |rows| && rows[i] == r;
      assert Ids(rows)[i] == id;
    }
  }

  /** A cut divides the ids of an ascending table: each is on one side only. */
  lemma CutIds<T>(rows: seq<Row<T>>, k: nat, id: nat)
    requires Ascending(rows) && k <= |rows|
    ensures id in IdSet(rows) <==> id in IdSet(rows[..k]) || id in IdSet(rows[k..])
    ensures !(id in IdSet(rows[..k]) && id in IdSet(rows[k..]))
  {
    assert rows == rows[..k] + rows[k..];
    if id in IdSet(rows[..k]) {
      var r :| r in rows[..k] && r.id == id;
      var i :| 0 <= i < k && rows[i] == r;
      assert forall q <- rows[k..] :: rows[i].id < q.id;
    }
  }

  lemma EnqueuedIds<T>(before: State<T>, maxEntries: nat, item: T, id: nat)
    requires maxEntries >= 1 && Valid(before)
    ensures var (after, gone) := (Enqueued(before, maxEntries, item), Overflow(before.rows, maxEntries));
      && (id in IdSet(after.rows) <==>
            id == after.lastId || (id in IdSet(before.rows) && id !in Ids(gone)))
      && (id in Ids(gone) ==> id in IdSet(before.rows))
  {
    var latest := Row(before.lastId + 1, item, 0, None);
    var k := |Overflow(before.rows, maxEntries)|;
    var after := Enqueued(before, maxEntries, item);
    assert Overflow(before.rows, maxEntries) == before.rows[..k];
    assert after.rows == before.rows[k..] + [latest];
    assert id in IdSet(after.rows) <==> id in IdSet(before.rows[k..]) || id == latest.id by {
      assert latest in after.rows;
    }
    CutIds(before.rows, k, id);
    IdsAreIdSet(before.rows[..k], id);
  }

  lemma IdsBounded<T>(s: State<T>, id: nat)
    requires Valid(s) && id in IdSet(s.rows)
    ensures id <= s.lastId
  {
    var r :| r in s.rows && r.id == id;
    var i :| 0 <= i < |s.rows| && s.rows[i] == r;
  }

  lemma TakenIds<T>(rows: seq<Row<T>>, ids: seq<nat>, id: nat)
    requires Ascending(rows)
    ensures id in IdSet(DeleteAll(rows, ids)) <==> id in IdSet(rows) && id !in ids
  {
    DeleteAllRemoves(rows, ids);
  }

  lemma FailedIds<T>(rows: seq<Row<T>>, id: nat, error: int, x: nat)
    ensures x in IdSet(Failed(rows, id, error)) <==> x in IdSet(rows)
  {
    IdsAreIdSet(rows, x);
    IdsAreIdSet(Failed(rows, id, error), x);
    assert Ids(rows) == Ids(Failed(rows, id, error));
  }

  lemma OneFateNext<T>(s: State<T>, before: State<T>, f: Fates, maxEntries: nat, op: Op<T>, id: nat)
    requires maxEntries >= 1 && Valid(s) && Valid(before) && s.lastId <= before.lastId
    requires HasOneFate(s, before, f, id)
    ensures HasOneFate(s, Apply(before, maxEntries, op), FatesNext(f, before, maxEntries, op), id)
  {
    if id in IdSet(s.rows) { IdsBounded(s, id); }
    match op
    case Put(item) => EnqueuedIds(before, maxEntries, item, id);
    case Take(ids) => TakenIds(before.rows, ids, id);
    case Fail(x, error) => FailedIds(before.rows, x, error, id);
  }

  /** After any history each id ever issued is exactly one of present, removed or dropped, and no other id is any. */
  lemma {:induction false} HistoryFates<T>(s: State<T>, maxEntries: nat, ops: seq<Op<T>>, id: nat)
    requires maxEntries >= 1 && Valid(s)
    ensures HasOneFate(s, ApplyAll(s, maxEntries, ops), FatesOf(s, maxEntries, ops), id)
    decreases |ops|
  {
    if ops != [] {
      var front := ops[..|ops| - 1];
      HistoryFates(s, maxEntries, front, id);
      HistoryKeepsValid(s, maxEntries, front);
      OneFateNext(s, ApplyAll(s, maxEntries, front), FatesOf(s, maxEntries, front), maxEntries, ops[|ops| - 1], id);
    }
  }

  // ---------------------------------------------------------------- the order of the drops

  predicate StrictlyAscending(ids: seq<nat>) {
    forall i, j | 0 <= i < j < |ids| :: ids[i] < ids[j]
  }

  /** Rows are dropped in the order of their ids, and all before any row that is still there. */
  ghost predicate OldestFirst<T>(after: State<T>, dropped: seq<nat>) {
    && StrictlyAscending(dropped)
    && (forall d <- dropped :: d <= after.lastId)
    && forall d <- dropped, r <- after.rows :: d < r.id
  }

  lemma ConcatAscending(a: seq<nat>, b: seq<nat>)
    requires StrictlyAscending(a) && StrictlyAscending(b) && forall x <- a, y <- b :: x < y
    ensures StrictlyAscending(a + b)
  {
    forall i, j | 0 <= i < j < |a + b| ensures (a + b)[i] < (a + b)[j] {
      if i < |a| <= j { assert a[i] in a && b[j - |a|] in b; }
    }
  }

  /** What an enqueue drops comes before what it leaves. */
  lemma GoneBeforeKept<T>(before: State<T>, maxEntries: nat, item: T)
    requires maxEntries >= 1 && Valid(before)
    ensures forall d <- Ids(Overflow(before.rows, maxEntries)), r <- Enqueued(before, maxEntries, item).rows :: d < r.id
  {
    var k := |Overflow(before.rows, maxEntries)|;
    var kept, latest := before.rows[k..], Row(before.lastId + 1, item, 0, None);
    assert Overflow(before.rows, maxEntries) == before.rows[..k];
    assert Enqueued(before, maxEntries, item).rows == kept + [latest];
    forall d <- Ids(before.rows[..k]), r <- kept + [latest] ensures d < r.id {
      var i :| 0 <= i < k && Ids(before.rows[..k])[i] == d;
      if r != latest {
        var j :| 0 <= j < |kept| && kept[j] == r;
        assert before.rows[k + j] == r;
      }
    }
  }

  lemma DroppedBeforeGone<T>(before: State<T>, dropped: seq<nat>, maxEntries: nat)
    requires Valid(before) && OldestFirst(before, dropped)
    ensures StrictlyAscending(dropped + Ids(Overflow(before.rows, maxEntries)))
    ensures forall d <- Ids(Overflow(before.rows, maxEntries)) :: d <= before.lastId
  {
    var gone := Overflow(before.rows, maxEntries);
    forall g <- Ids(gone) ensures g <= before.lastId && forall d <- dropped :: d < g {
      var i :| 0 <= i < |gone| && Ids(gone)[i] == g;
      assert before.rows[i] == gone[i] && before.rows[i] in before.rows;
    }
    ConcatAscending(dropped, Ids(gone));
  }

  lemma OldestFirstPut<T>(before: State<T>, dropped: seq<nat>, maxEntries: nat, item: T)
    requires maxEntries >= 1 && Valid(before) && OldestFirst(before, dropped)
    ensures OldestFirst(Enqueued(before, maxEntries, item), dropped + Ids(Overflow(before.rows, maxEntries)))
  {
    GoneBeforeKept(before, maxEntries, item);
    DroppedBeforeGone(before, dropped, maxEntries);
    forall d <- dropped, r <- Enqueued(before, maxEntries, item).rows ensures d < r.id {
      assert r in before.rows + [Row(before.lastId + 1, item, 0, None)];
    }
  }

  lemma OldestFirstTake<T>(before: State<T>, dropped: seq<nat>, ids: seq<nat>)
    requires Valid(before) && OldestFirst(before, dropped)
    ensures OldestFirst(before.(rows := DeleteAll(before.rows, ids)), dropped)
  {
    DeleteAllRemoves(before.rows, ids);
  }

  lemma OldestFirstFail<T>(before: State<T>, dropped: seq<nat>, id: nat, error: int)
    requires OldestFirst(before, dropped)
    ensures OldestFirst(before.(rows := Failed(before.rows, id, error)), dropped)
  {
    forall d <- dropped, r <- Failed(before.rows, id, error) ensures d < r.id {
      var i :| 0 <= i < |before.rows| && Failed(before.rows, id, error)[i] == r;
      assert before.rows[i] in before.rows && before.rows[i].id == r.id;
    }
  }

  /** Over any history the rows that are dropped leave oldest first, and before every row that stays. */
  lemma {:induction false} HistoryDropsOldest<T>(s: State<T>, maxEntries: nat, ops: seq<Op<T>>)
    requires maxEntries >= 1 && Valid(s)
    ensures OldestFirst(ApplyAll(s, maxEntries, ops), FatesOf(s, maxEntries, ops).dropped)
    decreases |ops|
  {
    if ops != [] {
      var front := ops[..|ops| - 1];
      var before, dropped := ApplyAll(s, maxEntries, front), FatesOf(s, maxEntries, front).dropped;
      HistoryDropsOldest(s, maxEntries, front);
      HistoryKeepsValid(s, maxEntries, front);
      match ops[|ops| - 1]
      case Put(item) => OldestFirstPut(before, dropped, maxEntries, item);
      case Take(ids) => OldestFirstTake(before, dropped, ids);
      case Fail(id, error) => OldestFirstFail(before, dropped, id, error);
    }
  }

  // ---------------------------------------------------------------- what a row holds

  /** The items enqueued, in order. */
  function PutItems<T>(ops: seq<Op<T>>): seq<T>
    decreases |ops|
  {
    if ops == [] then []
    else
      var front := PutItems(ops[..|ops| - 1]);
      if ops[|ops| - 1].Put? then front + [ops[|ops| - 1].item] else front
  }

  /** The row holds what was there under its id at the start, or the item of the enqueue that handed out its id. */
  ghost predicate HoldsItsItem<T>(s: State<T>, items: seq<T>, r: Row<T>) {
    if r.id <= s.lastId then exists q :: q in s.rows && q.id == r.id && q.item == r.item
    else r.id - s.lastId <= |items| && items[r.id - s.lastId - 1] == r.item
  }

  ghost predicate AllHoldTheirs<T>(s: State<T>, after: State<T>, items: seq<T>) {
    after.lastId == s.lastId + |items| && forall r <- after.rows :: HoldsItsItem(s, items, r)
  }

  lemma HoldsNext<T>(s: State<T>, before: State<T>, items: seq<T>, maxEntries: nat, op: Op<T>)
    requires Valid(before) && AllHoldTheirs(s, before, items)
    ensures AllHoldTheirs(s, Apply(before, maxEntries, op), if op.Put? then items + [op.item] else items)
  {
    var after := Apply(before, maxEntries, op);
    forall r <- after.rows ensures HoldsItsItem(s, if op.Put? then items + [op.item] else items, r) {
      match op
      case Put(item) =>
        assert r in before.rows + [Row(before.lastId + 1, item, 0, None)];
        if r in before.rows { assert HoldsItsItem(s, items, r); }
      case Take(ids) =>
        DeleteAllRemoves(before.rows, ids);
        assert HoldsItsItem(s, items, r);
      case Fail(id, error) =>
        var i :| 0 <= i < |before.rows| && after.rows[i] == r;
        assert before.rows[i] in before.rows && HoldsItsItem(s, items, before.rows[i]);
    }
  }

  /** Over any history ids are handed out one by one, and each row present holds the item enqueued under its id. */
  lemma {:induction false} HistoryKeepsItems<T>(s: State<T>, maxEntries: nat, ops: seq<Op<T>>)
    requires Valid(s)
    ensures AllHoldTheirs(s, ApplyAll(s, maxEntries, ops), PutItems(ops))
    decreases |ops|
  {
    if ops == [] {
      forall r <- s.rows ensures HoldsItsItem(s, [], r) {
        InIdSetOf(s.rows, r);
        IdsBounded(s, r.id);
      }
    } else {
      var front := ops[..|ops| - 1];
      HistoryKeepsItems(s, maxEntries, front);
      HistoryKeepsValid(s, maxEntries, front);
      HoldsNext(s, ApplyAll(s, maxEntries, front), PutItems(front), maxEntries, ops[|ops| - 1]);
    }
  }

  lemma InIdSetOf<T>(rows: seq<Row<T>>, r: Row<T>)
    requires r in rows
    ensures r.id in IdSet(rows)
  {
  }

  // ---------------------------------------------------------------- how many

  lemma {:induction false} IdSetSize<T>(rows: seq<Row<T>>)
    requires Ascending(rows)
    ensures |IdSet(rows)| == |rows|
    decreases |rows|
  {
    if rows != [] {
      var n := |rows| - 1;
      IdSetSize(rows[..n]);
      assert rows == rows[..n] + [rows[n]];
      assert IdSet(rows) == IdSet(rows[..n]) + {rows[n].id};
      assert forall r <- rows[..n] :: r.id < rows[n].id;
    }
  }

  ghost function Elements(ids: seq<nat>): set<nat> {
    set id | id in ids
  }

  lemma {:induction false} ElementsSize(ids: seq<nat>)
    requires StrictlyAscending(ids)
    ensures |Elements(ids)| == |ids|
    decreases |ids|
  {
    if ids != [] {
      var n := |ids| - 1;
      ElementsSize(ids[..n]);
      assert ids == ids[..n] + [ids[n]];
      assert Elements(ids) == Elements(ids[..n]) + {ids[n]};
    }
  }

  function HandedOut(first: nat, last: nat): (ids: set<nat>)
    ensures forall id :: id in ids <==> first < id <= last
    decreases last
  {
    if last <= first then {} else HandedOut(first, last - 1) + {last}
  }

  lemma {:induction false} HandedOutSize(first: nat, last: nat)
    requires first <= last
    ensures |HandedOut(first, last)| == last - first
    decreases last
  {
    if first < last { HandedOutSize(first, last - 1); }
  }

  /** The counts that follow: rows at the start and enqueues make up the rows present, removed and dropped. */
  lemma HistoryAccounts<T>(s: State<T>, maxEntries: nat, ops: seq<Op<T>>)
    requires maxEntries >= 1 && Valid(s)
    ensures var (after, f) := (ApplyAll(s, maxEntries, ops), FatesOf(s, maxEntries, ops));
      |s.rows| + |PutItems(ops)| == |after.rows| + |f.removed| + |f.dropped|
  {
    var after, f := ApplyAll(s, maxEntries, ops), FatesOf(s, maxEntries, ops);
    var present, dropped, issued := IdSet(after.rows), Elements(f.dropped), HandedOut(s.lastId, after.lastId);
    HistoryKeepsValid(s, maxEntries, ops);
    HistoryDropsOldest(s, maxEntries, ops);
    HistoryKeepsItems(s, maxEntries, ops);
    forall id: nat
      ensures id in IdSet(s.rows) + issued <==> id in present + f.removed + dropped
      ensures AtMostOne(id in present, id in f.removed, id in dropped)
      ensures !(id in IdSet(s.rows) && id in issued)
    {
      HistoryFates(s, maxEntries, ops, id);
      if id in IdSet(s.rows) { IdsBounded(s, id); }
    }
    assert IdSet(s.rows) + issued == present + f.removed + dropped;
    assert |IdSet(s.rows) + issued| == |IdSet(s.rows)| + |issued|;
    assert |present + f.removed + dropped| == |present| + |f.removed| + |dropped|;
    IdSetSize(s.rows);
    IdSetSize(after.rows);
    ElementsSize(f.dropped);
    HandedOutSize(s.lastId, after.lastId);
  }
}
