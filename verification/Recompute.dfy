/** Recomputing the cost of stored turns from the price table, for all turns, for the sessions started since
    a given time or for one session, with a dry run that rolls everything back. */
module Recompute {
  import opened Tables
  import opened Pricing
  import opened Reconcile
  import ReconcileSql
  import IngestLaws
  import Writer

  datatype Scope = All | Since(ms: int) | OneSession(id: Id)

  datatype Summary = Summary(total: nat, updated: nat, kept: nat, zeroedBefore: nat, zeroedAfter: nat)

  // ---------------------------------------------------------------- what a run does

  predicate InScope(db: Rows, scope: Scope, id: Id)
    requires id in db.turns
  {
    match scope
    case All => true
    case Since(ms) => db.turns[id].sessionId in db.sessions && ms <= db.sessions[db.turns[id].sessionId].startedAt
    case OneSession(sid) => db.turns[id].sessionId == sid
  }

  function Selected(db: Rows, scope: Scope): set<Id> {
    set id | id in db.turns && InScope(db, scope, id)
  }

  function NewCost(t: Turn): nat {
    RecomputeCost(t.model, t.usage)
  }

  function Repriced(turns: map<Id, Turn>, ids: set<Id>): map<Id, Turn> {
    map id | id in turns :: if id in ids then turns[id].(cost := NewCost(turns[id])) else turns[id]
  }

  /** The turns whose stored cost is not what the price table says. */
  function Stale(turns: map<Id, Turn>, ids: set<Id>): set<Id> {
    set id | id in ids && id in turns && turns[id].cost != NewCost(turns[id])
  }

  function SessionsOf(turns: map<Id, Turn>, ids: set<Id>): set<Id> {
    set id | id in ids && id in turns :: turns[id].sessionId
  }

  /** The database after a real run: every session is reconciled in scope `All`, the touched ones otherwise. */
  ghost function Recomputed(db: Rows, scope: Scope): Rows {
    var ids := Selected(db, scope);
    var priced := db.(turns := Repriced(db.turns, ids));
    if scope.All? then Every(priced) else Reconciled(priced, SessionsOf(db.turns, Stale(db.turns, ids)))
  }

  function ZeroBefore(turns: map<Id, Turn>, ids: set<Id>): set<Id> {
    set id | id in ids && id in turns && turns[id].cost == 0
  }

  function ZeroAfter(turns: map<Id, Turn>, ids: set<Id>): set<Id> {
    set id | id in ids && id in turns && NewCost(turns[id]) == 0
  }

  ghost function SummaryOf(db: Rows, scope: Scope): Summary {
    var ids := Selected(db, scope);
    Summary(|ids|, |Stale(db.turns, ids)|, |ids - Stale(db.turns, ids)|,
            |ZeroBefore(db.turns, ids)|, |ZeroAfter(db.turns, ids)|)
  }

  // ---------------------------------------------------------------- the script

  /** The counters and the touched sessions after the rows in `done`. */
  ghost predicate Counted(turns: map<Id, Turn>, done: set<Id>, s: Summary, touched: seq<Id>) {
    && s == Summary(|done|, |Stale(turns, done)|, |done - Stale(turns, done)|,
                    |ZeroBefore(turns, done)|, |ZeroAfter(turns, done)|)
    && Elements(touched) == SessionsOf(turns, Stale(turns, done))
  }

  function Count(s: Summary, t: Turn): Summary {
    Summary(s.total + 1,
            if NewCost(t) != t.cost then s.updated + 1 else s.updated,
            if NewCost(t) != t.cost then s.kept else s.kept + 1,
            if t.cost == 0 then s.zeroedBefore + 1 else s.zeroedBefore,
            if NewCost(t) == 0 then s.zeroedAfter + 1 else s.zeroedAfter)
  }

  function Touch(touched: seq<Id>, t: Turn): seq<Id> {
    if NewCost(t) != t.cost && t.sessionId !in touched then touched + [t.sessionId] else touched
  }

  lemma StaleNext(turns: map<Id, Turn>, done: set<Id>, id: Id)
    requires id in turns && id !in done
    ensures Stale(turns, done + {id})
         == if NewCost(turns[id]) != turns[id].cost then Stale(turns, done) + {id} else Stale(turns, done)
  {
  }

  lemma KeptNext(turns: map<Id, Turn>, done: set<Id>, id: Id)
    requires id in turns && id !in done
    ensures |done + {id} - Stale(turns, done + {id})|
         == |done - Stale(turns, done)| + if NewCost(turns[id]) != turns[id].cost then 0 else 1
  {
    StaleNext(turns, done, id);
    if NewCost(turns[id]) != turns[id].cost {
      assert done + {id} - Stale(turns, done + {id}) == done - Stale(turns, done);
    } else {
      assert done + {id} - Stale(turns, done + {id}) == (done - Stale(turns, done)) + {id};
    }
  }

  lemma ZeroBeforeNext(turns: map<Id, Turn>, done: set<Id>, id: Id)
    requires id in turns && id !in done
    ensures |ZeroBefore(turns, done + {id})| == |ZeroBefore(turns, done)| + if turns[id].cost == 0 then 1 else 0
  {
    assert ZeroBefore(turns, done + {id})
        == if turns[id].cost == 0 then ZeroBefore(turns, done) + {id} else ZeroBefore(turns, done);
  }

  lemma ZeroAfterNext(turns: map<Id, Turn>, done: set<Id>, id: Id)
    requires id in turns && id !in done
    ensures |ZeroAfter(turns, done + {id})| == |ZeroAfter(turns, done)| + if NewCost(turns[id]) == 0 then 1 else 0
  {
    assert ZeroAfter(turns, done + {id})
        == if NewCost(turns[id]) == 0 then ZeroAfter(turns, done) + {id} else ZeroAfter(turns, done);
  }

  lemma CountedNext(turns: map<Id, Turn>, done: set<Id>, s: Summary, touched: seq<Id>, id: Id)
    requires Counted(turns, done, s, touched) && id in turns && id !in done
    ensures Counted(turns, done + {id}, Count(s, turns[id]), Touch(touched, turns[id]))
  {
    StaleNext(turns, done, id);
    KeptNext(turns, done, id);
    ZeroBeforeNext(turns, done, id);
    ZeroAfterNext(turns, done, id);
    TouchedNext(turns, done, touched, id);
  }

  lemma TouchedNext(turns: map<Id, Turn>, done: set<Id>, touched: seq<Id>, id: Id)
    requires Elements(touched) == SessionsOf(turns, Stale(turns, done)) && id in turns && id !in done
    ensures Elements(Touch(touched, turns[id])) == SessionsOf(turns, Stale(turns, done + {id}))
  {
    var t := turns[id];
    assert Elements(touched + [t.sessionId]) == Elements(touched) + {t.sessionId};
    assert t.sessionId in touched ==> t.sessionId in Elements(touched);
    assert SessionsOf(turns, Stale(turns, done) + {id}) == SessionsOf(turns, Stale(turns, done)) + {t.sessionId};
    StaleNext(turns, done, id);
  }

  lemma RepricedNext(turns: map<Id, Turn>, done: set<Id>, id: Id)
    requires id in turns && id !in done
    ensures Repriced(turns, done + {id}) == Repriced(turns, done)[id := turns[id].(cost := NewCost(turns[id]))]
    ensures Repriced(turns, done)[id] == turns[id]
    ensures NewCost(turns[id]) == turns[id].cost ==> Repriced(turns, done + {id}) == Repriced(turns, done)
  {
  }

  lemma RowRepriced(was: map<Id, Turn>, done: set<Id>, now: map<Id, Turn>, id: Id)
    requires id in was && id !in done && now == Repriced(was, done)
    ensures id in now && now[id] == was[id]
    ensures Repriced(was, done + {id}) ==
            if NewCost(was[id]) != was[id].cost then now[id := was[id].(cost := NewCost(was[id]))] else now
  {
    RepricedNext(was, done, id);
  }

  lemma OneMoreDone(done: set<Id>, todo: set<Id>, ids: set<Id>, id: Id)
    requires done !! todo && done + todo == ids && id in todo
    ensures (done + {id}) !! (todo - {id}) && (done + {id}) + (todo - {id}) == ids
  {
  }

  /** The row loop: update the rows whose cost is off by more than half a micro-dollar, and count. */
  method RepriceRows(db: Database, ids: set<Id>) returns (s: Summary, touched: seq<Id>)
    requires ids <= db.turns.Keys
    modifies db`turns
    ensures db.turns == Repriced(old(db.turns), ids)
    ensures Counted(old(db.turns), ids, s, touched)
  {
    s, touched := Summary(0, 0, 0, 0, 0), [];
    ghost var was, done: set<Id> := db.turns, {};
    var todo := ids;
    while todo != {}
      invariant done !! todo && done + todo == ids
      invariant db.turns == Repriced(was, done)
      invariant Counted(was, done, s, touched)
    {
      var id :| id in todo;
      RowRepriced(was, done, db.turns, id);
      var t := db.turns[id];
      CountedNext(was, done, s, touched, id);
      s, touched := Count(s, t), Touch(touched, t);
      if NewCost(t) != t.cost {
        db.turns := db.turns[id := t.(cost := NewCost(t))];
      }
      OneMoreDone(done, todo, ids, id);
      todo, done := todo - {id}, done + {id};
    }
  }

  method RecomputeTurnsDefault(db: Database, scope: Scope, dryRun: bool) returns (s: Summary)
    modifies db
    ensures s == SummaryOf(old(db.Snapshot()), scope)
    ensures s.updated + s.kept == s.total
    ensures db.Snapshot() == if dryRun then old(db.Snapshot()) else Recomputed(old(db.Snapshot()), scope)
  {
    var saved := db.Snapshot();
    var ids := Selected(saved, scope);
    var touched;
    s, touched := RepriceRows(db, ids);
    CountsAddUp(ids, Stale(saved.turns, ids));
    ghost var priced := saved.(turns := Repriced(saved.turns, ids));
    if scope.All? {
      ReconcileAllSessions(db);
    } else {
      ByIdsIsReconciled(priced, touched);
      ReconcileSessionsByIds(db, touched);
    }
    if dryRun { db.Restore(saved); }
  }

  lemma CountsAddUp(all: set<Id>, some: set<Id>)
    requires some <= all
    ensures |some| + |all - some| == |all|
  {
    assert all == some + (all - some);
  }

  // ---------------------------------------------------------------- what a run keeps

  ghost function Priced(db: Rows, scope: Scope): Rows {
    db.(turns := Repriced(db.turns, Selected(db, scope)))
  }

  /** The sessions a run reconciles. */
  ghost function Settled(db: Rows, scope: Scope): set<Id> {
    if scope.All? then Active(Priced(db, scope)) else SessionsOf(db.turns, Stale(db.turns, Selected(db, scope)))
  }

  lemma RecomputedIsReconciled(db: Rows, scope: Scope)
    ensures Recomputed(db, scope) == Reconciled(Priced(db, scope), Settled(db, scope))
  {
    EveryIsReconciled(Priced(db, scope));
  }

  /** What the three scopes select: every turn, the turns of sessions that started at or after the given time, the turns
      of one session. */
  lemma ScopesSelect(db: Rows, scope: Scope, id: Id)
    ensures id in Selected(db, scope) <==>
      id in db.turns && match scope
        case All => true
        case Since(ms) =>
          exists sid :: sid in db.sessions && sid == db.turns[id].sessionId && db.sessions[sid].startedAt >= ms
        case OneSession(sid) => sid == db.turns[id].sessionId
  {
  }

  /** A real run gives the selected turns the cost of the price table, and changes no other column but sequences. */
  lemma RunReprices(db: Rows, scope: Scope, id: Id)
    requires id in db.turns
    ensures id in Recomputed(db, scope).turns
    ensures var (t, after) := (db.turns[id], Recomputed(db, scope).turns[id]);
      after == t.(sequence := after.sequence,
                  cost := if id in Selected(db, scope) then RecomputeCost(t.model, t.usage) else t.cost)
  {
    RecomputedIsReconciled(db, scope);
  }

  ghost predicate IsRepriced(db: Rows, scope: Scope, sid: Id) {
    exists id :: id in Selected(db, scope) && id in db.turns && db.turns[id].sessionId == sid
                 && db.turns[id].cost != RecomputeCost(db.turns[id].model, db.turns[id].usage)
  }

  /** A run reconciles the sessions with a repriced turn, in scope `All` every session with turns, and no other: its
      row stays as it is. */
  lemma RunSettles(db: Rows, scope: Scope, sid: Id)
    requires sid in db.sessions
    ensures var after := Recomputed(db, scope);
      && sid in after.sessions
      && (if IsRepriced(db, scope, sid) || (scope.All? && exists id <- db.turns :: db.turns[id].sessionId == sid)
          then after.sessions[sid] == RollupOf(after, sid)
          else after.sessions[sid] == db.sessions[sid])
  {
    var sids := Settled(db, scope);
    RecomputedIsReconciled(db, scope);
    RollupAfter(Priced(db, scope), sids, sid);
    SettledIff(db, scope, sid);
  }

  lemma SettledIff(db: Rows, scope: Scope, sid: Id)
    ensures sid in Settled(db, scope) <==>
      IsRepriced(db, scope, sid) || (scope.All? && exists id <- db.turns :: db.turns[id].sessionId == sid)
  {
    var stale := Stale(db.turns, Selected(db, scope));
    if IsRepriced(db, scope, sid) {
      var id :| id in Selected(db, scope) && id in db.turns && db.turns[id].sessionId == sid
        && db.turns[id].cost != RecomputeCost(db.turns[id].model, db.turns[id].usage);
      assert id in stale;
      SettledCoversTouched(db, scope);
    }
    if scope.All? {
      assert forall id <- db.turns :: Priced(db, scope).turns[id].sessionId == db.turns[id].sessionId;
      if id :| id in db.turns && db.turns[id].sessionId == sid {
        assert Priced(db, scope).turns[id].sessionId == sid;
      }
    } else if sid in Settled(db, scope) {
      var id :| id in stale && db.turns[id].sessionId == sid;
      assert IsRepriced(db, scope, sid);
    }
  }

  /** The counters: turns selected, turns whose cost is not that of the price table, and turns that cost nothing before
      and after. */
  lemma CountersAre(db: Rows, scope: Scope)
    ensures var (s, ids) := (SummaryOf(db, scope), Selected(db, scope));
      && s.total == |ids|
      && s.updated == |set id | id in ids && id in db.turns
                               && db.turns[id].cost != RecomputeCost(db.turns[id].model, db.turns[id].usage)|
      && s.zeroedBefore == |set id | id in ids && id in db.turns && db.turns[id].cost == 0|
      && s.zeroedAfter == |set id | id in ids && id in db.turns
                                    && RecomputeCost(db.turns[id].model, db.turns[id].usage) == 0|
  {
    var ids := Selected(db, scope);
    assert Stale(db.turns, ids) == set id | id in ids && id in db.turns
      && db.turns[id].cost != RecomputeCost(db.turns[id].model, db.turns[id].usage);
    assert ZeroBefore(db.turns, ids) == set id | id in ids && id in db.turns && db.turns[id].cost == 0;
    assert ZeroAfter(db.turns, ids)
        == set id | id in ids && id in db.turns && RecomputeCost(db.turns[id].model, db.turns[id].usage) == 0;
  }

  lemma SameRows(a: map<Id, Turn>, b: map<Id, Turn>, calls: map<Id, ToolCall>, sid: Id)
    requires a.Keys == b.Keys && forall id <- a :: a[id].sessionId == b[id].sessionId
    requires forall id <- a :: a[id].sessionId == sid ==> a[id] == b[id]
    ensures TurnsOf(a, sid) == TurnsOf(b, sid)
    ensures ToolCallsOf(calls, a, sid) == ToolCallsOf(calls, b, sid)
  {
  }

  /** A session whose turns all keep their cost reads the same before and after repricing. */
  lemma UntouchedSession(db: Rows, scope: Scope, sid: Id)
    requires sid !in SessionsOf(db.turns, Stale(db.turns, Selected(db, scope)))
    ensures TurnsOf(Priced(db, scope).turns, sid) == TurnsOf(db.turns, sid)
    ensures ToolCallsOf(db.toolCalls, Priced(db, scope).turns, sid) == ToolCallsOf(db.toolCalls, db.turns, sid)
  {
    var stale := Stale(db.turns, Selected(db, scope));
    forall id <- db.turns | db.turns[id].sessionId == sid
      ensures id !in stale
    {
    }
    SameRows(Priced(db, scope).turns, db.turns, db.toolCalls, sid);
  }

  lemma SettledCoversTouched(db: Rows, scope: Scope)
    ensures SessionsOf(db.turns, Stale(db.turns, Selected(db, scope))) <= Settled(db, scope)
  {
    forall id <- Stale(db.turns, Selected(db, scope))
      ensures db.turns[id].sessionId in Active(Priced(db, scope))
    {
      assert Priced(db, scope).turns[id].sessionId == db.turns[id].sessionId;
    }
  }

  lemma RepricedSameOrder(turns: map<Id, Turn>, ids: set<Id>)
    ensures ReconcileSql.SameOrder(Repriced(turns, ids), turns)
    ensures forall id <- turns :: Repriced(turns, ids)[id].sequence == turns[id].sequence
  {
  }

  /** From a state that satisfies the rollup invariant, a real run keeps it. */
  lemma RecomputeKeepsConsistent(db: Rows, scope: Scope)
    requires Consistent(db)
    ensures Consistent(Recomputed(db, scope))
  {
    var priced, sids := Priced(db, scope), Settled(db, scope);
    RecomputedIsReconciled(db, scope);
    RepricedSameOrder(db.turns, Selected(db, scope));
    ReconcileSql.RankSameOrder(priced.turns, db.turns);
    SettledCoversTouched(db, scope);
    forall sid <- priced.sessions
      ensures sid in sids || priced.sessions[sid] == RollupOf(priced, sid)
    {
      if sid !in sids { UntouchedSession(db, scope, sid); }
    }
    IngestLaws.ReconciledConsistent(priced, sids);
  }

  /** Costs do not move a session's start, so a run does not change what is in scope. */
  lemma SameStart(db: Rows, scope: Scope, sid: Id)
    requires Consistent(db) && sid in db.sessions
    ensures sid in Recomputed(db, scope).sessions
    ensures Recomputed(db, scope).sessions[sid].startedAt == db.sessions[sid].startedAt
  {
    RecomputedIsReconciled(db, scope);
    RepricedSameOrder(db.turns, Selected(db, scope));
    SameStartAfterRollup(db, Priced(db, scope), sid);
  }

  lemma SameStartAfterRollup(db: Rows, priced: Rows, sid: Id)
    requires sid in db.sessions && sid in priced.sessions
    requires priced.sessions[sid] == db.sessions[sid] == RollupOf(db, sid)
    requires ReconcileSql.SameOrder(priced.turns, db.turns)
    ensures RollupOf(priced, sid).startedAt == db.sessions[sid].startedAt
  {
    var a, b := TurnsOf(priced.turns, sid), TurnsOf(db.turns, sid);
    assert a.Keys == b.Keys;
    if b != map[] { SameBounds(b, a); }
  }

  lemma SameScope(db: Rows, scope: Scope)
    requires scope.Since? ==> Consistent(db)
    ensures Selected(Recomputed(db, scope), scope) == Selected(db, scope)
  {
    var after := Recomputed(db, scope);
    RecomputedIsReconciled(db, scope);
    forall id <- db.turns
      ensures id in after.turns && after.turns[id].sessionId == db.turns[id].sessionId
      ensures InScope(after, scope, id) <==> InScope(db, scope, id)
    {
      assert Priced(db, scope).turns[id].sessionId == db.turns[id].sessionId;
      if scope.Since? && db.turns[id].sessionId in db.sessions { SameStart(db, scope, db.turns[id].sessionId); }
    }
  }

  lemma NothingStaleAfter(db: Rows, scope: Scope)
    ensures Stale(Recomputed(db, scope).turns, Selected(db, scope)) == {}
  {
    RecomputedIsReconciled(db, scope);
    var after := Recomputed(db, scope);
    forall id <- Selected(db, scope)
      ensures after.turns[id].cost == NewCost(after.turns[id])
    {
      assert Priced(db, scope).turns[id].cost == NewCost(db.turns[id]);
    }
  }

  /** A run with nothing stale in scope updates no row, and from a consistent state changes nothing at all. */
  lemma NothingStaleNoOp(db: Rows, scope: Scope)
    requires Stale(db.turns, Selected(db, scope)) == {}
    ensures SummaryOf(db, scope).updated == 0
    ensures ForeignKeys(db) && Consistent(db) ==> Recomputed(db, scope) == db
  {
    var ids := Selected(db, scope);
    forall id <- ids
      ensures db.turns[id].cost == NewCost(db.turns[id])
    {
      assert id !in Stale(db.turns, ids);
    }
    assert Repriced(db.turns, ids) == db.turns;
    assert Priced(db, scope) == db;
    RecomputedIsReconciled(db, scope);
    if ForeignKeys(db) && Consistent(db) { ReconcilingConsistentIsNoOp(db, Settled(db, scope)); }
  }

  lemma ReconcilingConsistentIsNoOp(db: Rows, sids: set<Id>)
    requires Consistent(db)
    ensures Reconciled(db, sids) == db
  {
    assert Resequenced(db.turns, sids) == db.turns;
    assert Rerolled(db, sids) == db.sessions;
  }

  lemma RecomputeKeepsForeignKeys(db: Rows, scope: Scope)
    requires ForeignKeys(db)
    ensures ForeignKeys(Recomputed(db, scope))
  {
    RecomputedIsReconciled(db, scope);
    IngestLaws.ReconciledKeepsForeignKeys(Priced(db, scope), Settled(db, scope));
  }

  /** A second run right after a real one updates nothing. */
  lemma SecondRunUpdatesNothing(db: Rows, scope: Scope)
    requires scope.Since? ==> Consistent(db)
    ensures SummaryOf(Recomputed(db, scope), scope).updated == 0
    ensures ForeignKeys(db) && Consistent(db) ==>
      Recomputed(Recomputed(db, scope), scope) == Recomputed(db, scope)
  {
    SameScope(db, scope);
    NothingStaleAfter(db, scope);
    NothingStaleNoOp(Recomputed(db, scope), scope);
    if ForeignKeys(db) && Consistent(db) {
      RecomputeKeepsConsistent(db, scope);
      RecomputeKeepsForeignKeys(db, scope);
    }
  }

  // ---------------------------------------------------------------- right after ingest

  /** Every stored cost is the one ingest recorded. */
  ghost predicate FreshCosts(turns: map<Id, Turn>) {
    forall id <- turns :: turns[id].cost == IngestCost(turns[id].model, turns[id].usage, turns[id].tier)
  }

  lemma UpsertKeepsFreshCosts(db: Rows, p: Writer.ParsedSession, file: Path, now: int)
    requires FreshCosts(db.turns)
    ensures FreshCosts(Writer.Upserted(db, p, file, now).turns)
  {
    forall id <- Writer.TurnMap(p)
      ensures var t := Writer.TurnMap(p)[id]; t.cost == IngestCost(t.model, t.usage, t.tier)
    {
      Writer.MapOfHolds(Writer.TurnRows(p.id, p.turns), id);
    }
  }

  lemma ReconciledKeepsFreshCosts(db: Rows, sids: set<Id>)
    requires FreshCosts(db.turns)
    ensures FreshCosts(Reconciled(db, sids).turns)
  {
  }

  lemma StoringKeepsFreshCosts(db: Rows, p: Writer.ParsedSession, file: Path, now: int, reconciled: bool)
    requires FreshCosts(db.turns)
    ensures FreshCosts(Writer.Stored(db, p, file, now, reconciled).turns)
  {
    UpsertKeepsFreshCosts(db, p, file, now);
    if reconciled {
      IngestLaws.WrittenIsReconciled(db, p, file, now);
      ReconciledKeepsFreshCosts(Writer.Upserted(db, p, file, now), {p.id});
    }
  }

  /** Any ingest run leaves the costs ingest computes. */
  lemma {:induction false} IngestKeepsFreshCosts(db: Rows, es: seq<Writer.FileEvent>)
    requires FreshCosts(db.turns)
    ensures FreshCosts(Writer.IngestedAll(db, es).turns)
    decreases |es|
  {
    if es != [] {
      var front, e := es[..|es| - 1], es[|es| - 1];
      IngestKeepsFreshCosts(db, front);
      if e.Accepted().Some? {
        StoringKeepsFreshCosts(Writer.IngestedAll(db, front), e.Accepted().value, e.path, e.now,
                               !e.fault.InReconcile?);
      }
    }
  }

  /** Right after ingest a run updates nothing exactly if no turn in scope is billed differently by the
      script, which bills the aggregate when both split buckets are zero and ignores the service tier. */
  lemma RunAfterIngest(db: Rows, scope: Scope)
    requires FreshCosts(db.turns)
    ensures SummaryOf(db, scope).updated == 0
       <==> forall id <- Selected(db, scope) :: NoDrift(db.turns[id].model, db.turns[id].usage, db.turns[id].tier)
  {
    var ids := Selected(db, scope);
    forall id <- ids
      ensures id in Stale(db.turns, ids) <==> !NoDrift(db.turns[id].model, db.turns[id].usage, db.turns[id].tier)
    {
      RecomputeMatchesIngest(db.turns[id].model, db.turns[id].usage, db.turns[id].tier);
    }
    assert Stale(db.turns, ids) == {} <==> |Stale(db.turns, ids)| == 0;
  }
}
