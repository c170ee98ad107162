/** The reporter's offline buffer: a bounded first-in first-out table with ever-increasing ids. */
module OfflineQueue {
  import opened Options

  datatype Row<T> = Row(id: nat, item: T, attempts: nat, lastError: Option<int>)

  /** The table in id order, and the largest id it has ever handed out. */
  datatype State<T> = State(rows: seq<Row<T>>, lastId: nat)

  ghost predicate Ascending<T>(rows: seq<Row<T>>) {
    forall i, j | 0 <= i < j < |rows| :: rows[i].id < rows[j].id
  }

  ghost predicate Valid<T>(s: State<T>) {
    Ascending(s.rows) && forall i | 0 <= i < |s.rows| :: s.rows[i].id <= s.lastId
  }

  function Last<T>(rows: seq<T>, n: nat): seq<T> {
    if |rows| <= n then rows else rows[|rows| - n..]
  }

  function First<T>(rows: seq<T>, n: int): seq<T> {
    if n <= 0 then [] else if |rows| <= n then rows else rows[..n]
  }

  /** The bounded queue an enqueue leaves: the last `maxEntries` of the old rows and the new one. */
  function Enqueued<T>(s: State<T>, maxEntries: nat, item: T): State<T> {
    State(Last(s.rows + [Row(s.lastId + 1, item, 0, None)], maxEntries), s.lastId + 1)
  }

  function Delete<T>(rows: seq<Row<T>>, id: nat): seq<Row<T>>
    decreases |rows|
  {
    if rows == [] then []
    else if rows[0].id == id then Delete(rows[1..], id)
    else [rows[0]] + Delete(rows[1..], id)
  }

  function DeleteAll<T>(rows: seq<Row<T>>, ids: seq<nat>): seq<Row<T>>
    decreases |ids|
  {
    if ids == [] then rows else Delete(DeleteAll(rows, ids[..|ids| - 1]), ids[|ids| - 1])
  }

  /** Every row keeps its place, and the one with the given id records a failed attempt. */
  function Failed<T>(rows: seq<Row<T>>, id: nat, error: int): (r: seq<Row<T>>)
    ensures |r| == |rows|
    ensures forall i | 0 <= i < |rows| ::
      r[i] == if rows[i].id == id then rows[i].(attempts := rows[i].attempts + 1, lastError := Some(error)) else rows[i]
  {
    seq(|rows|, i requires 0 <= i < |rows| =>
      if rows[i].id == id then rows[i].(attempts := rows[i].attempts + 1, lastError := Some(error)) else rows[i])
  }

  /** The table behind an open queue; `maxEntries` is at least 1, without which the drop loop cannot end. */
  class Queue<T> {
    var rows: seq<Row<T>>
    var lastId: nat
    const maxEntries: nat

    function Snapshot(): State<T>
      reads this
    {
      State(rows, lastId)
    }

    constructor (maxEntries: nat)
      requires maxEntries >= 1
      ensures Snapshot() == State([], 0) && this.maxEntries == maxEntries
    {
      rows, lastId := [], 0;
      this.maxEntries := maxEntries;
    }

    /** Drop the oldest rows while the table is at or over capacity, then insert. */
    method Enqueue(item: T) returns (dropped: nat)
      requires maxEntries >= 1
      modifies this
      ensures Snapshot() == Enqueued(old(Snapshot()), maxEntries, item)
      ensures dropped == |old(rows)| + 1 - |rows|
    {
      dropped := 0;
      while |rows| >= maxEntries
        invariant dropped <= |old(rows)| && rows == old(rows)[dropped..] && lastId == old(lastId)
        invariant dropped == 0 || |rows| >= maxEntries - 1
      {
        rows := rows[1..];
        dropped := dropped + 1;
      }
      lastId := lastId + 1;
      rows := rows + [Row(lastId, item, 0, None)];
      assert rows == Last(old(rows) + [Row(lastId, item, 0, None)], maxEntries);
    }

    method DequeueOldest(limit: int) returns (oldest: seq<Row<T>>)
      ensures oldest == First(rows, limit)
      ensures |oldest| == if limit <= 0 then 0 else if limit <= |rows| then limit else |rows|
    {
      if limit <= 0 { return []; }
      oldest := if |rows| <= limit then rows else rows[..limit];
    }

    /** Delete the listed ids one after another; ids that are not there are ignored. */
    method Remove(ids: seq<nat>)
      modifies this
      ensures Snapshot() == old(Snapshot()).(rows := DeleteAll(old(rows), ids))
    {
      for i := 0 to |ids|
        invariant Snapshot() == old(Snapshot()).(rows := DeleteAll(old(rows), ids[..i]))
      {
        assert ids[..i + 1][..i] == ids[..i];
        rows := Delete(rows, ids[i]);
      }
      assert ids[..|ids|] == ids;
    }

    method RecordFailure(id: nat, error: int)
      modifies this
      ensures Snapshot() == old(Snapshot()).(rows := Failed(old(rows), id, error))
    {
      rows := Failed(rows, id, error);
    }

    method Size() returns (n: nat)
      ensures n == |rows|
    {
      n := |rows|;
    }
  }

  // ---------------------------------------------------------------- histories

  datatype Op<T> = Put(item: T) | Take(ids: seq<nat>) | Fail(id: nat, error: int)

  function Apply<T>(s: State<T>, maxEntries: nat, op: Op<T>): State<T> {
    match op
    case Put(item) => Enqueued(s, maxEntries, item)
    case Take(ids) => s.(rows := DeleteAll(s.rows, ids))
    case Fail(id, error) => s.(rows := Failed(s.rows, id, error))
  }

  function ApplyAll<T>(s: State<T>, maxEntries: nat, ops: seq<Op<T>>): State<T>
    decreases |ops|
  {
    if ops == [] then s else Apply(ApplyAll(s, maxEntries, ops[..|ops| - 1]), maxEntries, ops[|ops| - 1])
  }

  lemma AscendingCons<T>(r: Row<T>, rest: seq<Row<T>>)
    requires Ascending(rest) && forall q <- rest :: r.id < q.id
    ensures Ascending([r] + rest)
  {
    assert forall i | 0 <= i < |rest| :: rest[i] in rest;
  }

  lemma {:induction false} DeleteMembers<T>(rows: seq<Row<T>>, id: nat)
    ensures |Delete(rows, id)| <= |rows|
    ensures forall r <- Delete(rows, id) :: r in rows && r.id != id
    ensures forall r <- rows :: r.id != id ==> r in Delete(rows, id)
    decreases |rows|
  {
    if rows != [] {
      DeleteMembers(rows[1..], id);
      assert rows == [rows[0]] + rows[1..];
    }
  }

  lemma {:induction false} DeleteAscends<T>(rows: seq<Row<T>>, id: nat)
    requires Ascending(rows)
    ensures Ascending(Delete(rows, id))
    decreases |rows|
  {
    if rows != [] {
      var rest := Delete(rows[1..], id);
      DeleteAscends(rows[1..], id);
      DeleteMembers(rows[1..], id);
      assert forall q <- rows[1..] :: rows[0].id < q.id;
      AscendingCons(rows[0], rest);
    }
  }

  lemma DeleteRemoves<T>(rows: seq<Row<T>>, id: nat)
    requires Ascending(rows)
    ensures Ascending(Delete(rows, id)) && |Delete(rows, id)| <= |rows|
    ensures forall r <- Delete(rows, id) :: r in rows && r.id != id
    ensures forall r <- rows :: r.id != id ==> r in Delete(rows, id)
  {
    DeleteMembers(rows, id);
    DeleteAscends(rows, id);
  }

  lemma {:induction false} DeleteAllRemoves<T>(rows: seq<Row<T>>, ids: seq<nat>)
    requires Ascending(rows)
    ensures Ascending(DeleteAll(rows, ids)) && |DeleteAll(rows, ids)| <= |rows|
    ensures forall r <- DeleteAll(rows, ids) :: r in rows && r.id !in ids
    ensures forall r <- rows :: r.id !in ids ==> r in DeleteAll(rows, ids)
    decreases |ids|
  {
    if ids != [] {
      var n := |ids| - 1;
      DeleteAllRemoves(rows, ids[..n]);
      DeleteRemoves(DeleteAll(rows, ids[..n]), ids[n]);
      assert ids == ids[..n] + [ids[n]];
    }
  }

  lemma ApplyKeepsValid<T>(s: State<T>, maxEntries: nat, op: Op<T>)
    requires Valid(s)
    ensures Valid(Apply(s, maxEntries, op)) && s.lastId <= Apply(s, maxEntries, op).lastId
  {
    match op
    case Put(item) =>
    case Take(ids) =>
      DeleteAllRemoves(s.rows, ids);
      var rows := DeleteAll(s.rows, ids);
      forall i | 0 <= i < |rows|
        ensures rows[i].id <= s.lastId
      {
        assert rows[i] in rows;
        assert rows[i] in s.rows;
      }
    case Fail(id, error) =>
  }

  ghost predicate Puts<T>(ops: seq<Op<T>>) {
    exists i :: 0 <= i < |ops| && ops[i].Put?
  }

  /** After any history of operations on a valid table ids still strictly increase. */
  lemma {:induction false} HistoryKeepsValid<T>(s: State<T>, maxEntries: nat, ops: seq<Op<T>>)
    requires Valid(s)
    ensures var after := ApplyAll(s, maxEntries, ops); Valid(after) && s.lastId <= after.lastId
    decreases |ops|
  {
    if ops != [] {
      HistoryKeepsValid(s, maxEntries, ops[..|ops| - 1]);
      ApplyKeepsValid(ApplyAll(s, maxEntries, ops[..|ops| - 1]), maxEntries, ops[|ops| - 1]);
    }
  }

  /** The bound holds from the first enqueue on, whatever the table held before. */
  lemma {:induction false} HistoryBounded<T>(s: State<T>, maxEntries: nat, ops: seq<Op<T>>)
    requires maxEntries >= 1 && Valid(s)
    requires |s.rows| <= maxEntries || Puts(ops)
    ensures |ApplyAll(s, maxEntries, ops).rows| <= maxEntries
    decreases |ops|
  {
    if ops != [] {
      var n := |ops| - 1;
      HistoryKeepsValid(s, maxEntries, ops[..n]);
      var before := ApplyAll(s, maxEntries, ops[..n]);
      if !ops[n].Put? {
        if Puts(ops) {
          var i :| 0 <= i < |ops| && ops[i].Put?;
          assert ops[..n][i].Put?;
        }
        HistoryBounded(s, maxEntries, ops[..n]);
        if ops[n].Take? { DeleteAllRemoves(before.rows, ops[n].ids); }
      }
    }
  }

  // ---------------------------------------------------------------- the bounded FIFO it refines

  function Items<T>(rows: seq<Row<T>>): (items: seq<T>)
    ensures |items| == |rows| && forall i | 0 <= i < |rows| :: items[i] == rows[i].item
  {
    seq(|rows|, i requires 0 <= i < |rows| => rows[i].item)
  }

  /** Enqueueing is appending an item and keeping the last `maxEntries` items; the new row has the next id, no attempts
      and no error. */
  lemma EnqueueRefinesFifo<T>(s: State<T>, maxEntries: nat, item: T)
    ensures Items(Enqueued(s, maxEntries, item).rows) == Last(Items(s.rows) + [item], maxEntries)
    ensures maxEntries >= 1 ==>
      var rows := Enqueued(s, maxEntries, item).rows;
      && rows != [] && rows[|rows| - 1] == Row(s.lastId + 1, item, 0, None)
      && Enqueued(s, maxEntries, item).lastId == s.lastId + 1
  {
    var more := s.rows + [Row(s.lastId + 1, item, 0, None)];
    assert Items(more) == Items(s.rows) + [item];
    assert Items(Last(more, maxEntries)) == Last(Items(more), maxEntries);
  }

  /** Removing the rows `dequeueOldest` returned is taking that many items off the front. */
  lemma DrainRefinesFifo<T>(s: State<T>, limit: int)
    requires Valid(s)
    ensures var oldest := First(s.rows, limit);
      && Items(oldest) == First(Items(s.rows), limit)
      && DeleteAll(s.rows, Ids(oldest)) == s.rows[|oldest|..]
  {
    var n := |First(s.rows, limit)|;
    assert First(s.rows, limit) == s.rows[..n];
    DeleteFirst(s.rows, n);
  }

  function Ids<T>(rows: seq<Row<T>>): (ids: seq<nat>)
    ensures |ids| == |rows| && forall i | 0 <= i < |rows| :: ids[i] == rows[i].id
  {
    seq(|rows|, i requires 0 <= i < |rows| => rows[i].id)
  }

  lemma {:induction false} DeleteFirst<T>(rows: seq<Row<T>>, n: nat)
    requires Ascending(rows) && n <= |rows|
    ensures DeleteAll(rows, Ids(rows[..n])) == rows[n..]
    decreases n
  {
    if n > 0 {
      var ids := Ids(rows[..n]);
      assert ids[..n - 1] == Ids(rows[..n - 1]);
      DeleteFirst(rows, n - 1);
      assert rows[n - 1..] == [rows[n - 1]] + rows[n..];
      DeleteMissing(rows[n..], rows[n - 1].id);
    }
  }

  lemma {:induction false} DeleteMissing<T>(rows: seq<Row<T>>, id: nat)
    requires forall r <- rows :: r.id != id
    ensures Delete(rows, id) == rows
    decreases |rows|
  {
    if rows != [] { DeleteMissing(rows[1..], id); }
  }

  // ---------------------------------------------------------------- the drop loop

  /** The guard of the drop loop. */
  predicate Full<T>(rows: seq<Row<T>>, maxEntries: int) {
    |rows| >= maxEntries
  }

  /** The table after `n` iterations of the drop loop; deleting the oldest row of an empty table deletes nothing. */
  function Dropped<T>(rows: seq<Row<T>>, n: nat): seq<Row<T>> {
    if n == 0 then rows
    else
      var before := Dropped(rows, n - 1);
      if before == [] then [] else before[1..]
  }

  lemma {:induction false} DroppedLength<T>(rows: seq<Row<T>>, n: nat)
    ensures |Dropped(rows, n)| == if n <= |rows| then |rows| - n else 0
  {
    if n > 0 { DroppedLength(rows, n - 1); }
  }

  /** How often the body of the drop loop runs before the guard fails. */
  ghost predicate EndsAfter<T>(rows: seq<Row<T>>, maxEntries: int, n: nat) {
    !Full(Dropped(rows, n), maxEntries) && forall m: nat | m < n :: Full(Dropped(rows, m), maxEntries)
  }

  /** For a bound of at least 1 the loop runs once for every row from the bound on. */
  lemma DropLoopIterations<T>(rows: seq<Row<T>>, maxEntries: int)
    requires maxEntries >= 1
    ensures EndsAfter(rows, maxEntries, if |rows| < maxEntries then 0 else |rows| + 1 - maxEntries)
  {
    forall m: nat ensures |Dropped(rows, m)| == if m <= |rows| then |rows| - m else 0 {
      DroppedLength(rows, m);
    }
  }

  /** The drop loop ends if and only if the bound is at least 1; for any other, its guard holds for ever. */
  lemma DropLoopEndsIff<T>(rows: seq<Row<T>>, maxEntries: int)
    ensures (exists n: nat :: EndsAfter(rows, maxEntries, n)) <==> maxEntries >= 1
    ensures maxEntries < 1 ==> forall n: nat :: Full(Dropped(rows, n), maxEntries)
  {
    if maxEntries >= 1 { DropLoopIterations(rows, maxEntries); }
  }
}
