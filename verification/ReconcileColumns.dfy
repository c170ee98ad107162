/** What reconciling leaves in the columns, said without the definitions the statements are modelled with. */
module ReconcileColumns {
  import opened Tables
  import opened Reconcile
  import ReconcileSql

  /** The turns of a session. */
  function TurnIds(turns: map<Id, Turn>, sid: Id): set<Id> {
    set id | id in turns && turns[id].sessionId == sid
  }

  /** The result of any of the three entry points that reconciles this session. */
  ghost predicate Reconciles(db: Rows, after: Rows, sid: Id) {
    || after == One(db, sid)
    || (exists ids :: sid in ids && after == ByIds(db, ids))
    || (after == Every(db) && exists id <- db.turns :: db.turns[id].sessionId == sid)
  }

  lemma ReconcilesSome(db: Rows, after: Rows, sid: Id) returns (sids: set<Id>)
    requires Reconciles(db, after, sid)
    ensures sid in sids && after == Reconciled(db, sids)
  {
    if after == One(db, sid) {
      OneIsReconciled(db, sid);
      sids := {sid};
    } else if ids :| sid in ids && after == ByIds(db, ids) {
      ByIdsIsReconciled(db, ids);
      sids := Elements(ids);
    } else {
      EveryIsReconciled(db);
      sids := Active(db);
    }
  }

  lemma RankOrder(turns: map<Id, Turn>, a: Id, b: Id)
    requires a in turns && b in turns && turns[a].sessionId == turns[b].sessionId
    ensures Rank(turns, a) < Rank(turns, b) <==>
      turns[a].timestamp < turns[b].timestamp || (turns[a].timestamp == turns[b].timestamp && a < b)
  {
    if Before(turns, a, b) { ReconcileSql.EarlierGrows(turns, a, b); }
    if Before(turns, b, a) { ReconcileSql.EarlierGrows(turns, b, a); }
  }

  /** Sequences of a reconciled session follow the timestamps, and the ids where those are equal. */
  lemma SequenceFollowsTime(db: Rows, after: Rows, sid: Id, a: Id, b: Id)
    requires Reconciles(db, after, sid)
    requires a in db.turns && b in db.turns && db.turns[a].sessionId == sid == db.turns[b].sessionId
    ensures a in after.turns && b in after.turns
    ensures after.turns[a].sequence < after.turns[b].sequence <==>
      db.turns[a].timestamp < db.turns[b].timestamp || (db.turns[a].timestamp == db.turns[b].timestamp && a < b)
  {
    var sids := ReconcilesSome(db, after, sid);
    RankOrder(db.turns, a, b);
  }

  /** They run from 1 to the number of the session's turns, and no two are equal. */
  lemma SequenceInRange(db: Rows, after: Rows, sid: Id, a: Id)
    requires Reconciles(db, after, sid) && a in db.turns && db.turns[a].sessionId == sid
    ensures a in after.turns
    ensures 1 <= after.turns[a].sequence <= |TurnIds(db.turns, sid)|
    ensures forall b <- db.turns :: db.turns[b].sessionId == sid && b != a ==>
      b in after.turns && after.turns[b].sequence != after.turns[a].sequence
  {
    var sids := ReconcilesSome(db, after, sid);
    ReconcileSql.RankInRange(db.turns, a);
    assert TurnsOf(db.turns, sid).Keys == TurnIds(db.turns, sid);
    forall b <- db.turns | db.turns[b].sessionId == sid && b != a
      ensures b in after.turns && after.turns[b].sequence != after.turns[a].sequence
    {
      SequenceFollowsTime(db, after, sid, a, b);
      SequenceFollowsTime(db, after, sid, b, a);
    }
  }

  // ---------------------------------------------------------------- rollups

  function InputTokens(t: Turn): nat { t.usage.input }

  function OutputTokens(t: Turn): nat { t.usage.output }

  function CacheReadTokens(t: Turn): nat { t.usage.cacheRead }

  function CacheCreationTokens(t: Turn): nat { t.usage.cacheCreation }

  function CostOf(t: Turn): nat { t.cost }

  /** A column added up over some turns. */
  ghost function Added(turns: map<Id, Turn>, ids: set<Id>, column: Turn -> nat): nat
    requires ids <= turns.Keys
    decreases |ids|
  {
    if ids == {} then 0
    else
      var k := Pick(ids);
      column(turns[k]) + Added(turns, ids - {k}, column)
  }

  lemma {:induction false} SumIsAdded(turns: map<Id, Turn>, ids: set<Id>, rows: map<Id, Turn>, c: Column,
                                      column: Turn -> nat)
    requires ids <= turns.Keys && rows.Keys == ids && forall id <- ids :: rows[id] == turns[id]
    requires forall t :: Value(t, c) == column(t)
    ensures Sum(rows, c) == Added(turns, ids, column)
    decreases |ids|
  {
    if ids != {} {
      var k := Pick(ids);
      assert (rows - {k}).Keys == ids - {k};
      SumIsAdded(turns, ids - {k}, rows - {k}, c, column);
    }
  }

  lemma SessionSum(turns: map<Id, Turn>, sid: Id, c: Column, column: Turn -> nat)
    requires forall t :: Value(t, c) == column(t)
    ensures Sum(TurnsOf(turns, sid), c) == Added(turns, TurnIds(turns, sid), column)
  {
    SumIsAdded(turns, TurnIds(turns, sid), TurnsOf(turns, sid), c, column);
  }

  lemma RowIsRollup(db: Rows, after: Rows, sid: Id)
    requires Reconciles(db, after, sid) && sid in db.sessions
    ensures sid in after.sessions && after.sessions[sid] == RollupOf(db, sid)
  {
    var sids := ReconcilesSome(db, after, sid);
  }

  /** The five totals of a reconciled session add up the columns of its stored turns. */
  lemma TotalsAddUp(db: Rows, after: Rows, sid: Id)
    requires Reconciles(db, after, sid) && sid in db.sessions
    ensures sid in after.sessions
    ensures var (sums, ids) := (after.sessions[sid].totals, TurnIds(db.turns, sid));
      && sums.input == Added(db.turns, ids, InputTokens)
      && sums.output == Added(db.turns, ids, OutputTokens)
      && sums.cacheRead == Added(db.turns, ids, CacheReadTokens)
      && sums.cacheCreation == Added(db.turns, ids, CacheCreationTokens)
      && sums.cost == Added(db.turns, ids, CostOf)
  {
    RowIsRollup(db, after, sid);
    SessionSum(db.turns, sid, Input, InputTokens);
    SessionSum(db.turns, sid, Output, OutputTokens);
    SessionSum(db.turns, sid, CacheRead, CacheReadTokens);
    SessionSum(db.turns, sid, CacheCreation, CacheCreationTokens);
    SessionSum(db.turns, sid, Cost, CostOf);
  }

  lemma CallsOfTurns(db: Rows, sid: Id)
    ensures ToolCallsOf(db.toolCalls, db.turns, sid)
         == set c | c in db.toolCalls && db.toolCalls[c].turnId in TurnIds(db.turns, sid)
  {
  }

  lemma BoundsOfTurns(db: Rows, sid: Id)
    requires sid in db.sessions && TurnIds(db.turns, sid) != {}
    ensures var (s, ids) := (RollupOf(db, sid), TurnIds(db.turns, sid));
      && (forall id <- ids :: s.startedAt <= db.turns[id].timestamp <= s.endedAt)
      && (exists id <- ids :: db.turns[id].timestamp == s.startedAt)
      && (exists id <- ids :: db.turns[id].timestamp == s.endedAt)
  {
    var rows, ids := TurnsOf(db.turns, sid), TurnIds(db.turns, sid);
    assert rows.Keys == ids;
    var a :| a in rows && rows[a].timestamp == MinTimestamp(rows);
    var b :| b in rows && rows[b].timestamp == MaxTimestamp(rows);
    assert db.turns[a].timestamp == MinTimestamp(rows) && db.turns[b].timestamp == MaxTimestamp(rows);
  }

  /** The counts of a reconciled session are those of its stored turns and of the tool calls of those turns; its bounds
      are the first and the last timestamp, or as they were without turns; the other columns stay. */
  lemma CountsAndBounds(db: Rows, after: Rows, sid: Id)
    requires Reconciles(db, after, sid) && sid in db.sessions
    ensures sid in after.sessions
    ensures var (s, ids) := (after.sessions[sid], TurnIds(db.turns, sid));
      && s.turnCount == |ids| && s.meta == db.sessions[sid].meta
      && s.toolCallCount == |set c | c in db.toolCalls && db.toolCalls[c].turnId in ids|
      && (forall id <- ids :: s.startedAt <= db.turns[id].timestamp <= s.endedAt)
      && (ids != {} ==> exists id <- ids :: db.turns[id].timestamp == s.startedAt)
      && (ids != {} ==> exists id <- ids :: db.turns[id].timestamp == s.endedAt)
      && (ids == {} ==> s.startedAt == db.sessions[sid].startedAt && s.endedAt == db.sessions[sid].endedAt)
  {
    RowIsRollup(db, after, sid);
    CallsOfTurns(db, sid);
    assert TurnsOf(db.turns, sid).Keys == TurnIds(db.turns, sid);
    if TurnIds(db.turns, sid) != {} { BoundsOfTurns(db, sid); }
  }
}
