/** The four statements that restore sequences and rollups from the stored rows: for one session, or for
    all sessions in one grouped pass. The methods carry out the SQL; the functions say what it leaves behind. */
module ReconcileSql {
  import opened Tables

  // ---------------------------------------------------------------- what the statements leave behind

  ghost function Renumber(turns: map<Id, Turn>, sid: Id): map<Id, Turn> {
    map id | id in turns ::
      if turns[id].sessionId == sid then turns[id].(sequence := Rank(turns, id)) else turns[id]
  }

  ghost function RenumberEvery(turns: map<Id, Turn>): map<Id, Turn> {
    map id | id in turns :: turns[id].(sequence := Rank(turns, id))
  }

  ghost function Rollup(db: Rows, sid: Id): Rows {
    if sid in db.sessions then db.(sessions := db.sessions[sid := RollupOf(db, sid)]) else db
  }

  ghost predicate HasTurns(db: Rows, sid: Id) {
    TurnsOf(db.turns, sid) != map[]
  }

  ghost function RollupEvery(db: Rows): Rows {
    db.(sessions := map sid | sid in db.sessions ::
      if HasTurns(db, sid) then RollupOf(db, sid) else db.sessions[sid])
  }

  // ---------------------------------------------------------------- ranks

  lemma EarlierGrows(turns: map<Id, Turn>, a: Id, b: Id)
    requires a in turns && b in turns && turns[a].sessionId == turns[b].sessionId
    requires Before(turns, a, b)
    ensures Rank(turns, a) < Rank(turns, b)
  {
    var below := Earlier(turns, a);
    assert a !in below && below + {a} <= Earlier(turns, b);
    SubsetSize(below + {a}, Earlier(turns, b));
  }

  lemma {:induction false} SubsetSize<T>(a: set<T>, b: set<T>)
    requires a <= b
    ensures |a| <= |b|
    ensures |a| == |b| ==> a == b
  {
    assert b == a + (b - a);
  }

  /** Rows that agree on session and timestamp are ranked alike, whatever their other columns. */
  ghost predicate SameOrder(a: map<Id, Turn>, b: map<Id, Turn>) {
    && a.Keys == b.Keys
    && forall id <- a :: a[id].sessionId == b[id].sessionId && a[id].timestamp == b[id].timestamp
  }

  lemma RankSameOrder(a: map<Id, Turn>, b: map<Id, Turn>)
    requires SameOrder(a, b)
    ensures forall id <- a :: Rank(a, id) == Rank(b, id)
  {
    forall id <- a
      ensures Rank(a, id) == Rank(b, id)
    {
      assert Earlier(a, id) == Earlier(b, id);
    }
  }

  ghost function OneTo(n: nat): (s: set<int>)
    ensures forall k :: k in s <==> 1 <= k <= n
    ensures |s| == n
  {
    if n == 0 then {} else OneTo(n - 1) + {n}
  }

  ghost function SequencesIn(rows: map<Id, Turn>): set<int> {
    set id | id in rows :: rows[id].sequence
  }

  lemma {:induction false} SequencesInSize(rows: map<Id, Turn>)
    requires forall a, b | a in rows && b in rows && a != b :: rows[a].sequence != rows[b].sequence
    ensures |SequencesIn(rows)| == |rows|
    decreases |rows.Keys|
  {
    if rows.Keys == {} {
      assert rows == map[] && SequencesIn(rows) == {};
    } else {
      var k := Pick(rows.Keys);
      var less := rows - {k};
      assert less.Keys == rows.Keys - {k};
      SequencesInSize(less);
      assert forall id <- less :: less[id].sequence == rows[id].sequence;
      assert rows[k].sequence !in SequencesIn(less);
      assert SequencesIn(rows) == SequencesIn(less) + {rows[k].sequence};
      assert |rows| == |less| + 1;
    }
  }

  /** Of two turns the one with the smaller sequence has the smaller timestamp, or the smaller id if those are equal. */
  ghost predicate InTimeOrder(rows: map<Id, Turn>) {
    forall a, b | a in rows && b in rows ::
      rows[a].sequence < rows[b].sequence <==>
        rows[a].timestamp < rows[b].timestamp || (rows[a].timestamp == rows[b].timestamp && a < b)
  }

  lemma SequenceOrder(turns: map<Id, Turn>, sid: Id)
    requires Sequenced(turns)
    ensures InTimeOrder(TurnsOf(turns, sid))
  {
    var rows := TurnsOf(turns, sid);
    forall a, b | a in rows && b in rows
      ensures rows[a].sequence < rows[b].sequence <==>
        rows[a].timestamp < rows[b].timestamp || (rows[a].timestamp == rows[b].timestamp && a < b)
    {
      if Before(turns, a, b) { EarlierGrows(turns, a, b); }
      if Before(turns, b, a) { EarlierGrows(turns, b, a); }
    }
  }

  lemma RankInRange(turns: map<Id, Turn>, id: Id)
    requires id in turns
    ensures Rank(turns, id) in OneTo(|TurnsOf(turns, turns[id].sessionId)|)
  {
    var others := TurnsOf(turns, turns[id].sessionId).Keys - {id};
    assert Earlier(turns, id) <= others;
    SubsetSize(Earlier(turns, id), others);
  }

  lemma OrderedAreDistinct(rows: map<Id, Turn>)
    requires InTimeOrder(rows)
    ensures forall a, b | a in rows && b in rows && a != b :: rows[a].sequence != rows[b].sequence
  {
  }

  /** Sequences that equal the ranks number each session's turns exactly 1..N, in (timestamp, id) order. */
  lemma SequencesAreOneToN(turns: map<Id, Turn>, sid: Id)
    requires Sequenced(turns)
    ensures var rows := TurnsOf(turns, sid); SequencesIn(rows) == OneTo(|rows|) && InTimeOrder(rows)
  {
    var rows := TurnsOf(turns, sid);
    SequenceOrder(turns, sid);
    OrderedAreDistinct(rows);
    forall id <- rows
      ensures rows[id].sequence in OneTo(|rows|)
    {
      RankInRange(turns, id);
    }
    SequencesInSize(rows);
    SubsetSize(SequencesIn(rows), OneTo(|rows|));
  }

  // ---------------------------------------------------------------- the statements themselves

  /** `ORDER BY session_id, timestamp, id`, the order a partitioned window function reads rows in. */
  predicate Ahead(turns: map<Id, Turn>, a: Id, b: Id)
    requires a in turns && b in turns
  {
    turns[a].sessionId < turns[b].sessionId || (turns[a].sessionId == turns[b].sessionId && Before(turns, a, b))
  }

  predicate IsFirst(turns: map<Id, Turn>, ids: set<Id>, id: Id)
    requires ids <= turns.Keys
  {
    id in ids && forall o {:trigger Ahead(turns, id, o)} | o in ids :: o == id || Ahead(turns, id, o)
  }

  lemma {:induction false} FirstExists(turns: map<Id, Turn>, ids: set<Id>)
    requires ids != {} && ids <= turns.Keys
    ensures exists id :: IsFirst(turns, ids, id)
  {
    var first :| first in ids;
    if ids == {first} {
      assert IsFirst(turns, ids, first);
    } else {
      FirstExists(turns, ids - {first});
      var second :| IsFirst(turns, ids - {first}, second);
      var least := if Ahead(turns, first, second) then first else second;
      forall o <- ids
        ensures o == least || Ahead(turns, least, o)
      {
        assert o == first || o == second || Ahead(turns, second, o);
      }
      assert IsFirst(turns, ids, least);
    }
  }

  ghost function InPartition(turns: map<Id, Turn>, ids: set<Id>, sid: Id): set<Id>
    requires ids <= turns.Keys
  {
    set d | d in ids && turns[d].sessionId == sid
  }

  /** The rows of `done` come first in the order, those of `todo` after them. */
  ghost predicate Split(turns: map<Id, Turn>, done: set<Id>, todo: set<Id>) {
    && done + todo <= turns.Keys && done !! todo
    && forall d, o {:trigger Ahead(turns, d, o)} | d in done && o in todo :: Ahead(turns, d, o)
  }

  lemma SplitNext(turns: map<Id, Turn>, done: set<Id>, todo: set<Id>, id: Id)
    requires Split(turns, done, todo) && IsFirst(turns, todo, id)
    ensures Split(turns, done + {id}, todo - {id})
  {
    forall d, o | d in done + {id} && o in todo - {id}
      ensures Ahead(turns, d, o)
    {
    }
  }

  /** The rows of its session taken so far are exactly the ones earlier than the next. */
  lemma TakenAreEarlier(turns: map<Id, Turn>, done: set<Id>, todo: set<Id>, id: Id)
    requires Split(turns, done, todo) && IsFirst(turns, todo, id)
    requires TurnsOf(turns, turns[id].sessionId).Keys <= done + todo
    ensures Earlier(turns, id) == InPartition(turns, done, turns[id].sessionId)
  {
    var sid := turns[id].sessionId;
    forall o | o in turns && turns[o].sessionId == sid
      ensures Before(turns, o, id) <==> o in done
    {
      assert o in TurnsOf(turns, sid).Keys;
      if o in done {
        assert Ahead(turns, o, id);
      } else {
        assert o == id || Ahead(turns, id, o);
      }
    }
  }

  /** The partition being numbered: nothing taken lies beyond it, nothing left lies before it. */
  ghost predicate AtPartition(turns: map<Id, Turn>, done: set<Id>, todo: set<Id>, sid: Id)
    requires done + todo <= turns.Keys
  {
    && (forall d <- done :: turns[d].sessionId <= sid)
    && (forall o <- todo :: sid <= turns[o].sessionId)
  }

  ghost predicate Ranked(turns: map<Id, Turn>, done: set<Id>, ranks: map<Id, int>) {
    ranks.Keys == done && done <= turns.Keys && forall id <- done :: ranks[id] == Rank(turns, id)
  }

  lemma RankedNext(turns: map<Id, Turn>, done: set<Id>, ranks: map<Id, int>, id: Id)
    requires Ranked(turns, done, ranks) && id in turns
    ensures Ranked(turns, done + {id}, ranks[id := Rank(turns, id)])
  {
  }

  /** Ranking in progress: `done` and `todo` split `all`, and the rows of `done` carry their ranks. */
  ghost predicate Ranking(turns: map<Id, Turn>, all: set<Id>, done: set<Id>, todo: set<Id>, ranks: map<Id, int>) {
    Split(turns, done, todo) && done + todo == all && Ranked(turns, done, ranks)
  }

  lemma RankNext(turns: map<Id, Turn>, all: set<Id>, done: set<Id>, todo: set<Id>, ranks: map<Id, int>, id: Id)
    requires Ranking(turns, all, done, todo, ranks) && IsFirst(turns, todo, id)
    requires TurnsOf(turns, turns[id].sessionId).Keys <= all
    ensures Rank(turns, id) == |InPartition(turns, done, turns[id].sessionId)| + 1
    ensures Ranking(turns, all, done + {id}, todo - {id}, ranks[id := Rank(turns, id)])
    ensures |InPartition(turns, done + {id}, turns[id].sessionId)| == Rank(turns, id)
    ensures AtPartition(turns, done + {id}, todo - {id}, turns[id].sessionId)
  {
    var sid := turns[id].sessionId;
    TakenAreEarlier(turns, done, todo, id);
    SplitNext(turns, done, todo, id);
    assert (done + {id}) + (todo - {id}) == all;
    assert InPartition(turns, done + {id}, sid) == InPartition(turns, done, sid) + {id};
    RankedNext(turns, done, ranks, id);
    PartitionNext(turns, done, todo, id);
  }

  lemma PartitionNext(turns: map<Id, Turn>, done: set<Id>, todo: set<Id>, id: Id)
    requires Split(turns, done, todo) && IsFirst(turns, todo, id)
    ensures AtPartition(turns, done + {id}, todo - {id}, turns[id].sessionId)
  {
    assert forall d | d in done :: Ahead(turns, d, id);
    assert forall o | o in todo :: o == id || Ahead(turns, id, o);
  }

  /** Counting restarts at a new partition, because none of its rows has been taken. */
  lemma RestartsAtPartition(turns: map<Id, Turn>, done: set<Id>, todo: set<Id>, sid: Id, id: Id)
    requires Split(turns, done, todo) && id in todo && AtPartition(turns, done, todo, sid)
    requires turns[id].sessionId != sid
    ensures |InPartition(turns, done, turns[id].sessionId)| == 0
  {
    assert InPartition(turns, done, turns[id].sessionId) == {};
  }

  /** The next row in `ORDER BY session_id, timestamp, id`. */
  method NextRow(turns: map<Id, Turn>, todo: set<Id>) returns (id: Id)
    requires todo != {} && todo <= turns.Keys
    ensures IsFirst(turns, todo, id)
  {
    FirstExists(turns, todo);
    id :| id in todo && IsFirst(turns, todo, id);
  }

  lemma AllInPartition(turns: map<Id, Turn>, sid: Id, done: set<Id>)
    requires done <= TurnsOf(turns, sid).Keys
    ensures InPartition(turns, done, sid) == done
  {
    assert forall id <- done :: id in TurnsOf(turns, sid) && turns[id].sessionId == sid;
  }

  lemma RankNextInSession(turns: map<Id, Turn>, sid: Id, done: set<Id>, todo: set<Id>, ranks: map<Id, int>, id: Id)
    requires Ranking(turns, TurnsOf(turns, sid).Keys, done, todo, ranks) && IsFirst(turns, todo, id)
    ensures Rank(turns, id) == |ranks| + 1
    ensures Ranking(turns, TurnsOf(turns, sid).Keys, done + {id}, todo - {id}, ranks[id := Rank(turns, id)])
  {
    assert id in TurnsOf(turns, sid) && turns[id].sessionId == sid;
    RankNext(turns, TurnsOf(turns, sid).Keys, done, todo, ranks, id);
    AllInPartition(turns, sid, done);
    assert |ranks| == |ranks.Keys|;
  }

  /** `SELECT id, ROW_NUMBER() OVER (ORDER BY timestamp, id) ... WHERE session_id = ?` */
  method RankedOne(turns: map<Id, Turn>, sid: Id) returns (ranks: map<Id, int>)
    ensures Ranked(turns, TurnsOf(turns, sid).Keys, ranks)
  {
    ranks := map[];
    var todo := set id | id in turns && turns[id].sessionId == sid;
    ghost var done: set<Id> := {};
    assert todo == TurnsOf(turns, sid).Keys;
    while todo != {}
      invariant Ranking(turns, TurnsOf(turns, sid).Keys, done, todo, ranks)
    {
      var id := NextRow(turns, todo);
      RankNextInSession(turns, sid, done, todo, ranks, id);
      ranks := ranks[id := |ranks| + 1];
      todo, done := todo - {id}, done + {id};
    }
  }

  /** `SELECT id, ROW_NUMBER() OVER (PARTITION BY session_id ORDER BY timestamp, id) FROM turns` */
  method RankedAll(turns: map<Id, Turn>) returns (ranks: map<Id, int>)
    ensures Ranked(turns, turns.Keys, ranks)
  {
    ranks := map[];
    var todo := turns.Keys;
    ghost var all, done: set<Id> := todo, {};
    var partition: Id, rn := 0, 0;
    while todo != {}
      invariant all == turns.Keys && Ranking(turns, all, done, todo, ranks)
      invariant AtPartition(turns, done, todo, partition)
      invariant rn == |InPartition(turns, done, partition)|
    {
      var id := NextRow(turns, todo);
      if turns[id].sessionId != partition {
        RestartsAtPartition(turns, done, todo, partition, id);
        rn := 0;
      }
      assert rn == |InPartition(turns, done, turns[id].sessionId)|;
      RankNext(turns, all, done, todo, ranks, id);
      assert rn + 1 == Rank(turns, id);
      partition, rn := turns[id].sessionId, rn + 1;
      ranks := ranks[id := rn];
      todo, done := todo - {id}, done + {id};
    }
  }

  method RenumberOneSql(db: Database, sid: Id)
    modifies db
    ensures db.Snapshot() == old(db.Snapshot()).(turns := Renumber(old(db.turns), sid))
  {
    var ranked := RankedOne(db.turns, sid);
    db.turns := map id | id in db.turns ::
      if id in ranked then db.turns[id].(sequence := ranked[id]) else db.turns[id];
    assert db.turns == Renumber(old(db.turns), sid);
  }

  method RenumberAllSql(db: Database)
    modifies db
    ensures db.Snapshot() == old(db.Snapshot()).(turns := RenumberEvery(old(db.turns)))
  {
    var ranked := RankedAll(db.turns);
    db.turns := map id | id in db.turns :: db.turns[id].(sequence := ranked[id]);
    assert db.turns == RenumberEvery(old(db.turns));
  }

  // ---------------------------------------------------------------- rollup, one session

  /** `SELECT SUM(c) FROM turns WHERE session_id = ?`, with 0 for no rows. */
  method SelectSum(rows: map<Id, Turn>, c: Column) returns (sum: nat)
    ensures sum == Sum(rows, c)
  {
    sum := 0;
    var todo := rows.Keys;
    ghost var done: map<Id, Turn> := map[];
    while todo != {}
      invariant done == rows - todo && todo <= rows.Keys
      invariant sum == Sum(done, c)
    {
      var id :| id in todo;
      SumInsert(done, c, id, rows[id]);
      sum := sum + Value(rows[id], c);
      todo, done := todo - {id}, done[id := rows[id]];
    }
    assert done == rows;
  }

  method SelectMin(rows: map<Id, Turn>) returns (least: int)
    requires rows != map[]
    ensures least == MinTimestamp(rows)
  {
    var first :| first in rows;
    least := rows[first].timestamp;
    var todo := rows.Keys - {first};
    while todo != {}
      invariant todo <= rows.Keys && exists id <- rows :: rows[id].timestamp == least
      invariant forall id <- rows.Keys - todo :: least <= rows[id].timestamp
    {
      var id :| id in todo;
      if rows[id].timestamp < least { least := rows[id].timestamp; }
      todo := todo - {id};
    }
  }

  method SelectMax(rows: map<Id, Turn>) returns (most: int)
    requires rows != map[]
    ensures most == MaxTimestamp(rows)
  {
    var first :| first in rows;
    most := rows[first].timestamp;
    var todo := rows.Keys - {first};
    while todo != {}
      invariant todo <= rows.Keys && exists id <- rows :: rows[id].timestamp == most
      invariant forall id <- rows.Keys - todo :: rows[id].timestamp <= most
    {
      var id :| id in todo;
      if most < rows[id].timestamp { most := rows[id].timestamp; }
      todo := todo - {id};
    }
  }

  /** The per-session rollup: one subquery a column, over the turns of that session. */
  method RollupOneSql(db: Database, sid: Id)
    modifies db
    ensures db.Snapshot() == Rollup(old(db.Snapshot()), sid)
  {
    if sid !in db.sessions { return; }
    var s, rows := db.sessions[sid], TurnsOf(db.turns, sid);
    var startedAt, endedAt := s.startedAt, s.endedAt;
    if rows != map[] {
      startedAt := SelectMin(rows);
      endedAt := SelectMax(rows);
    }
    var input := SelectSum(rows, Input);
    var output := SelectSum(rows, Output);
    var cacheRead := SelectSum(rows, CacheRead);
    var cacheCreation := SelectSum(rows, CacheCreation);
    var cost := SelectSum(rows, Cost);
    var calls := |ToolCallsOf(db.toolCalls, db.turns, sid)|;
    db.sessions := db.sessions[sid := Session(s.meta, startedAt, endedAt,
      Totals(input, output, cacheRead, cacheCreation, cost), |rows|, calls)];
  }

  // ---------------------------------------------------------------- rollup, all sessions in one pass

  /** One group of `GROUP BY session_id` over the turns. */
  datatype Group = Group(minTs: int, maxTs: int, totals: Totals, count: nat)

  function Alone(t: Turn): Group {
    Group(t.timestamp, t.timestamp,
          Totals(t.usage.input, t.usage.output, t.usage.cacheRead, t.usage.cacheCreation, t.cost), 1)
  }

  function Join(g: Group, t: Turn): Group {
    Group(if t.timestamp < g.minTs then t.timestamp else g.minTs,
          if g.maxTs < t.timestamp then t.timestamp else g.maxTs,
          Totals(g.totals.input + t.usage.input, g.totals.output + t.usage.output,
                 g.totals.cacheRead + t.usage.cacheRead, g.totals.cacheCreation + t.usage.cacheCreation,
                 g.totals.cost + t.cost),
          g.count + 1)
  }

  ghost function GroupOf(rows: map<Id, Turn>): Group
    requires rows != map[]
  {
    Group(MinTimestamp(rows), MaxTimestamp(rows), TotalsOf(rows), |rows|)
  }

  lemma TotalsInsert(rows: map<Id, Turn>, id: Id, t: Turn)
    requires id !in rows
    ensures var more := rows[id := t];
      TotalsOf(more) == Totals(Value(t, Input) + Sum(rows, Input), Value(t, Output) + Sum(rows, Output),
                               Value(t, CacheRead) + Sum(rows, CacheRead),
                               Value(t, CacheCreation) + Sum(rows, CacheCreation), Value(t, Cost) + Sum(rows, Cost))
  {
    SumInsert(rows, Input, id, t);
    SumInsert(rows, Output, id, t);
    SumInsert(rows, CacheRead, id, t);
    SumInsert(rows, CacheCreation, id, t);
    SumInsert(rows, Cost, id, t);
  }

  lemma GroupInsert(rows: map<Id, Turn>, id: Id, t: Turn)
    requires id !in rows
    ensures var more := rows[id := t];
      id in more && GroupOf(more) == if rows == map[] then Alone(t) else Join(GroupOf(rows), t)
  {
    var more := rows[id := t];
    TotalsInsert(rows, id, t);
    assert more[id] == t && forall o <- rows :: more[o] == rows[o];
    if rows == map[] {
      assert forall c: Column :: Sum(rows, c) == 0;
    } else {
      MinInsert(rows, id, t);
      MaxInsert(rows, id, t);
    }
  }

  lemma MinInsert(rows: map<Id, Turn>, id: Id, t: Turn)
    requires rows != map[] && id !in rows
    ensures var more := rows[id := t];
      id in more && MinTimestamp(more) == if t.timestamp < MinTimestamp(rows) then t.timestamp else MinTimestamp(rows)
  {
    var more := rows[id := t];
    var a :| a in rows && rows[a].timestamp == MinTimestamp(rows);
    assert more[a] == rows[a] && more[id] == t;
  }

  lemma MaxInsert(rows: map<Id, Turn>, id: Id, t: Turn)
    requires rows != map[] && id !in rows
    ensures var more := rows[id := t];
      id in more && MaxTimestamp(more) == if MaxTimestamp(rows) < t.timestamp then t.timestamp else MaxTimestamp(rows)
  {
    var more := rows[id := t];
    var a :| a in rows && rows[a].timestamp == MaxTimestamp(rows);
    assert more[a] == rows[a] && more[id] == t;
  }

  /** Session `sid` has a group exactly if it has a row in `done`, and then it is the group of its rows. */
  ghost predicate GroupFits(done: map<Id, Turn>, groups: map<Id, Group>, sid: Id) {
    var rows := TurnsOf(done, sid);
    if rows == map[] then sid !in groups else sid in groups && groups[sid] == GroupOf(rows)
  }

  ghost predicate Grouped(done: map<Id, Turn>, groups: map<Id, Group>) {
    forall sid :: GroupFits(done, groups, sid)
  }

  function AddToGroup(groups: map<Id, Group>, t: Turn): map<Id, Group> {
    groups[t.sessionId := if t.sessionId in groups then Join(groups[t.sessionId], t) else Alone(t)]
  }

  lemma TurnsOfInsert(done: map<Id, Turn>, id: Id, t: Turn, sid: Id)
    requires id !in done
    ensures TurnsOf(done[id := t], sid)
         == if t.sessionId == sid then TurnsOf(done, sid)[id := t] else TurnsOf(done, sid)
    ensures TurnsOf(done[id := t], t.sessionId) != map[]
  {
    assert id in TurnsOf(done[id := t], t.sessionId);
  }

  lemma GroupedNext(done: map<Id, Turn>, groups: map<Id, Group>, id: Id, t: Turn)
    requires id !in done && Grouped(done, groups)
    ensures Grouped(done[id := t], AddToGroup(groups, t))
  {
    var more, next := done[id := t], AddToGroup(groups, t);
    forall sid
      ensures GroupFits(more, next, sid)
    {
      TurnsOfInsert(done, id, t, sid);
      assert GroupFits(done, groups, sid);
      if sid == t.sessionId { GroupInsert(TurnsOf(done, sid), id, t); }
    }
  }

  /** The inner query over `turns`: a single pass that adds each row to its group. */
  method GroupTurns(turns: map<Id, Turn>) returns (groups: map<Id, Group>)
    ensures Grouped(turns, groups)
  {
    groups := map[];
    var todo := turns.Keys;
    ghost var done: map<Id, Turn> := map[];
    while todo != {}
      invariant done == turns - todo && todo <= turns.Keys
      invariant Grouped(done, groups)
    {
      var id :| id in todo;
      var t := turns[id];
      GroupedNext(done, groups, id, t);
      groups := AddToGroup(groups, t);
      todo, done := todo - {id}, done[id := t];
    }
    assert done == turns;
  }

  function CountIn(counts: map<Id, nat>, sid: Id): nat {
    if sid in counts then counts[sid] else 0
  }

  ghost predicate CountFits(done: map<Id, ToolCall>, turns: map<Id, Turn>, counts: map<Id, nat>, sid: Id) {
    CountIn(counts, sid) == |ToolCallsOf(done, turns, sid)|
  }

  ghost predicate Counted(done: map<Id, ToolCall>, turns: map<Id, Turn>, counts: map<Id, nat>) {
    forall sid :: CountFits(done, turns, counts, sid)
  }

  /** Count a call for the session its turn belongs to; the inner join drops a call without a turn. */
  function AddToCount(counts: map<Id, nat>, turns: map<Id, Turn>, call: ToolCall): map<Id, nat> {
    if call.turnId in turns then
      var sid := turns[call.turnId].sessionId;
      counts[sid := CountIn(counts, sid) + 1]
    else counts
  }

  lemma CountFitsNext(done: map<Id, ToolCall>, turns: map<Id, Turn>, counts: map<Id, nat>, id: Id,
                      call: ToolCall, sid: Id)
    requires id !in done && CountFits(done, turns, counts, sid)
    ensures CountFits(done[id := call], turns, AddToCount(counts, turns, call), sid)
  {
    assert ToolCallsOf(done[id := call], turns, sid)
        == if BelongsTo(call, turns, sid) then ToolCallsOf(done, turns, sid) + {id} else ToolCallsOf(done, turns, sid);
  }

  lemma CountedNext(done: map<Id, ToolCall>, turns: map<Id, Turn>, counts: map<Id, nat>, id: Id, call: ToolCall)
    requires id !in done && Counted(done, turns, counts)
    ensures Counted(done[id := call], turns, AddToCount(counts, turns, call))
  {
    var more, next := done[id := call], AddToCount(counts, turns, call);
    forall sid
      ensures CountFits(more, turns, next, sid)
    {
      CountFitsNext(done, turns, counts, id, call, sid);
    }
  }

  /** The inner query over `tool_calls JOIN turns`, counted before it meets the turn totals. */
  method GroupToolCalls(calls: map<Id, ToolCall>, turns: map<Id, Turn>) returns (counts: map<Id, nat>)
    ensures Counted(calls, turns, counts)
  {
    counts := map[];
    var todo := calls.Keys;
    ghost var done: map<Id, ToolCall> := map[];
    assert forall sid :: ToolCallsOf(done, turns, sid) == {};
    while todo != {}
      invariant done == calls - todo && todo <= calls.Keys
      invariant Counted(done, turns, counts)
    {
      var id :| id in todo;
      CountedNext(done, turns, counts, id, calls[id]);
      counts := AddToCount(counts, turns, calls[id]);
      todo, done := todo - {id}, done[id := calls[id]];
    }
    assert done == calls;
  }

  /** The left join of both groupings onto the session rows: only sessions that have a group are updated. */
  function ApplyGroups(sessions: map<Id, Session>, groups: map<Id, Group>, counts: map<Id, nat>): map<Id, Session> {
    map sid | sid in sessions ::
      if sid in groups then
        Session(sessions[sid].meta, groups[sid].minTs, groups[sid].maxTs, groups[sid].totals,
                groups[sid].count, CountIn(counts, sid))
      else sessions[sid]
  }

  lemma ApplyGroupsRollsUp(db: Rows, groups: map<Id, Group>, counts: map<Id, nat>)
    requires Grouped(db.turns, groups) && Counted(db.toolCalls, db.turns, counts)
    ensures ApplyGroups(db.sessions, groups, counts) == RollupEvery(db).sessions
  {
    forall sid <- db.sessions
      ensures ApplyGroups(db.sessions, groups, counts)[sid] == RollupEvery(db).sessions[sid]
    {
      assert GroupFits(db.turns, groups, sid) && CountFits(db.toolCalls, db.turns, counts, sid);
    }
  }

  /** The global rollup: both inner queries are grouped on their own before they are joined. */
  method RollupAllSql(db: Database)
    modifies db
    ensures db.Snapshot() == RollupEvery(old(db.Snapshot()))
  {
    var groups := GroupTurns(db.turns);
    var counts := GroupToolCalls(db.toolCalls, db.turns);
    ApplyGroupsRollsUp(db.Snapshot(), groups, counts);
    db.sessions := ApplyGroups(db.sessions, groups, counts);
  }
}
