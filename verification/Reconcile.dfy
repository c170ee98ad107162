/** Reconciling a session, a list of sessions or all of them, and how the three agree. */
module Reconcile {
  import opened Tables
  import opened ReconcileSql

  // ---------------------------------------------------------------- the exported functions

  ghost function One(db: Rows, sid: Id): Rows {
    Rollup(db.(turns := Renumber(db.turns, sid)), sid)
  }

  ghost function ByIds(db: Rows, ids: seq<Id>): Rows
    decreases |ids|
  {
    if ids == [] then db else One(ByIds(db, ids[..|ids| - 1]), ids[|ids| - 1])
  }

  ghost function Every(db: Rows): Rows {
    RollupEvery(db.(turns := RenumberEvery(db.turns)))
  }

  method ReconcileSession(db: Database, sid: Id)
    modifies db
    ensures db.Snapshot() == One(old(db.Snapshot()), sid)
  {
    RenumberOneSql(db, sid);
    RollupOneSql(db, sid);
  }

  method ReconcileAllSessions(db: Database)
    modifies db
    ensures db.Snapshot() == Every(old(db.Snapshot()))
  {
    RenumberAllSql(db);
    RollupAllSql(db);
  }

  method ReconcileSessionsByIds(db: Database, ids: seq<Id>)
    modifies db
    ensures db.Snapshot() == ByIds(old(db.Snapshot()), ids)
  {
    for i := 0 to |ids|
      invariant db.Snapshot() == ByIds(old(db.Snapshot()), ids[..i])
    {
      assert ids[..i + 1][..i] == ids[..i];
      ReconcileSession(db, ids[i]);
    }
    assert ids[..|ids|] == ids;
  }

  // ---------------------------------------------------------------- one closed form for all three

  ghost function Resequenced(turns: map<Id, Turn>, sids: set<Id>): map<Id, Turn> {
    map id | id in turns ::
      if turns[id].sessionId in sids then turns[id].(sequence := Rank(turns, id)) else turns[id]
  }

  ghost function Rerolled(db: Rows, sids: set<Id>): map<Id, Session> {
    map sid | sid in db.sessions :: if sid in sids then RollupOf(db, sid) else db.sessions[sid]
  }

  /** The database with the sessions in `sids` reconciled, and nothing else touched. */
  ghost function Reconciled(db: Rows, sids: set<Id>): Rows {
    db.(turns := Resequenced(db.turns, sids), sessions := Rerolled(db, sids))
  }

  /** Rows that differ at most in their sequence numbers. */
  ghost predicate SameButSequence(a: map<Id, Turn>, b: map<Id, Turn>) {
    && a.Keys == b.Keys
    && forall id <- a :: a[id] == b[id].(sequence := a[id].sequence)
  }

  lemma RollupIgnoresSequence(a: Rows, b: Rows, sid: Id)
    requires SameButSequence(a.turns, b.turns) && a.toolCalls == b.toolCalls
    requires sid in a.sessions && sid in b.sessions
    requires a.sessions[sid] == b.sessions[sid] || a.sessions[sid] == RollupOf(b, sid)
    ensures RollupOf(a, sid) == RollupOf(b, sid)
  {
    var ra, rb := TurnsOf(a.turns, sid), TurnsOf(b.turns, sid);
    assert ra.Keys == rb.Keys;
    forall c: Column
      ensures Sum(ra, c) == Sum(rb, c)
    {
      SumSameValues(ra, rb, c);
    }
    assert TotalsOf(ra) == TotalsOf(rb);
    assert |ra| == |ra.Keys| == |rb.Keys| == |rb|;
    assert ToolCallsOf(a.toolCalls, a.turns, sid) == ToolCallsOf(b.toolCalls, b.turns, sid);
    if ra != map[] { SameBounds(ra, rb); }
  }

  lemma SameBounds(a: map<Id, Turn>, b: map<Id, Turn>)
    requires a.Keys == b.Keys && a != map[] && forall id <- a :: a[id].timestamp == b[id].timestamp
    ensures b != map[] && MinTimestamp(a) == MinTimestamp(b) && MaxTimestamp(a) == MaxTimestamp(b)
  {
    var k :| k in a;
    assert k in b;
  }

  lemma ResequencedTwice(turns: map<Id, Turn>, first: set<Id>, second: set<Id>)
    ensures Resequenced(Resequenced(turns, first), second) == Resequenced(turns, first + second)
  {
    var mid := Resequenced(turns, first);
    RankSameOrder(mid, turns);
    forall id <- turns
      ensures Resequenced(mid, second)[id] == Resequenced(turns, first + second)[id]
    {
      assert Rank(mid, id) == Rank(turns, id);
    }
  }

  lemma RollupAfter(db: Rows, sids: set<Id>, sid: Id)
    requires sid in db.sessions
    ensures RollupOf(Reconciled(db, sids), sid) == RollupOf(db, sid)
  {
    RollupIgnoresSequence(Reconciled(db, sids), db, sid);
  }

  /** Reconciling some sessions and then others is reconciling all of them at once. */
  lemma ReconciledTwice(db: Rows, first: set<Id>, second: set<Id>)
    ensures Reconciled(Reconciled(db, first), second) == Reconciled(db, first + second)
  {
    ResequencedTwice(db.turns, first, second);
    var mid := Reconciled(db, first);
    forall sid <- db.sessions
      ensures Rerolled(mid, second)[sid] == Rerolled(db, first + second)[sid]
    {
      RollupAfter(db, first, sid);
    }
    assert Rerolled(mid, second) == Rerolled(db, first + second);
  }

  lemma OneIsReconciled(db: Rows, sid: Id)
    ensures One(db, sid) == Reconciled(db, {sid})
  {
    var mid := db.(turns := Renumber(db.turns, sid));
    assert mid.turns == Resequenced(db.turns, {sid});
    if sid in db.sessions {
      RollupIgnoresSequence(mid, db, sid);
      assert Rerolled(db, {sid}) == db.sessions[sid := RollupOf(db, sid)];
    } else {
      assert Rerolled(db, {sid}) == db.sessions;
    }
  }

  ghost function Elements(ids: seq<Id>): set<Id> {
    set id | id in ids
  }

  /** Any order of the ids, with any repetitions and any unknown ids, gives the same database. */
  lemma {:induction false} ByIdsIsReconciled(db: Rows, ids: seq<Id>)
    ensures ByIds(db, ids) == Reconciled(db, Elements(ids))
    decreases |ids|
  {
    if ids == [] {
      assert Resequenced(db.turns, {}) == db.turns && Rerolled(db, {}) == db.sessions;
    } else {
      var front, last := ids[..|ids| - 1], ids[|ids| - 1];
      ByIdsIsReconciled(db, front);
      OneIsReconciled(Reconciled(db, Elements(front)), last);
      ReconciledTwice(db, Elements(front), {last});
      assert ids == front + [last];
      assert Elements(ids) == Elements(front) + {last};
    }
  }

  /** The sessions that have turns, whether or not their own row exists. */
  ghost function Active(db: Rows): set<Id> {
    set id | id in db.turns :: db.turns[id].sessionId
  }

  lemma ActiveHasTurns(db: Rows, sid: Id)
    ensures sid in Active(db) <==> HasTurns(db, sid)
  {
    if sid in Active(db) {
      var id :| id in db.turns && db.turns[id].sessionId == sid;
      assert id in TurnsOf(db.turns, sid);
    }
    if HasTurns(db, sid) {
      var id :| id in TurnsOf(db.turns, sid);
      assert db.turns[id].sessionId in Active(db);
    }
  }

  lemma RenumberEveryKeepsTurns(db: Rows, sid: Id)
    requires sid in db.sessions
    ensures var mid := db.(turns := RenumberEvery(db.turns));
      RollupOf(mid, sid) == RollupOf(db, sid) && (HasTurns(mid, sid) <==> HasTurns(db, sid))
  {
    var mid := db.(turns := RenumberEvery(db.turns));
    RollupIgnoresSequence(mid, db, sid);
    assert TurnsOf(mid.turns, sid).Keys == TurnsOf(db.turns, sid).Keys;
  }

  lemma EveryIsReconciled(db: Rows)
    ensures Every(db) == Reconciled(db, Active(db))
  {
    assert RenumberEvery(db.turns) == Resequenced(db.turns, Active(db));
    forall sid <- db.sessions
      ensures Every(db).sessions[sid] == Rerolled(db, Active(db))[sid]
    {
      ActiveHasTurns(db, sid);
      RenumberEveryKeepsTurns(db, sid);
    }
    assert Every(db).sessions == Rerolled(db, Active(db));
  }

  // ---------------------------------------------------------------- what the repository promises

  lemma RanksRestored(turns: map<Id, Turn>, sid: Id)
    ensures var after := Resequenced(turns, {sid});
      && SameButSequence(after, turns)
      && (forall id <- after :: after[id].sessionId == sid ==> after[id].sequence == Rank(after, id))
      && (forall id <- turns :: turns[id].sessionId != sid ==> after[id] == turns[id])
  {
    RankSameOrder(Resequenced(turns, {sid}), turns);
  }

  /** Reconciling a session makes its sequences and its rollup right, and leaves all others alone. */
  lemma ReconcileSessionRestores(db: Rows, sid: Id)
    ensures var after := One(db, sid);
      && (sid in after.sessions ==> after.sessions[sid] == RollupOf(after, sid))
      && (forall id <- after.turns :: after.turns[id].sessionId == sid ==>
            after.turns[id].sequence == Rank(after.turns, id))
      && SameButSequence(after.turns, db.turns)
      && (forall id <- db.turns :: db.turns[id].sessionId != sid ==> after.turns[id] == db.turns[id])
      && after == db.(turns := after.turns, sessions := after.sessions)
      && after.sessions.Keys == db.sessions.Keys
      && (forall other <- db.sessions :: other != sid ==> after.sessions[other] == db.sessions[other])
  {
    OneIsReconciled(db, sid);
    if sid in db.sessions { RollupAfter(db, {sid}, sid); }
    RanksRestored(db.turns, sid);
  }

  lemma SameTurnsOfSession(turns: map<Id, Turn>, sid: Id)
    ensures TurnsOf(RenumberEvery(turns), sid) == TurnsOf(Renumber(turns, sid), sid)
  {
    var every, one := RenumberEvery(turns), Renumber(turns, sid);
    forall id <- turns
      ensures every[id].sessionId == one[id].sessionId == turns[id].sessionId
      ensures turns[id].sessionId == sid ==> every[id] == one[id]
    {
    }
  }

  /** The grouped pass gives every session with turns exactly what the per-session form gives it,
      and leaves a session without turns unchanged. */
  lemma GlobalRefinesPerSession(db: Rows, sid: Id)
    requires sid in db.sessions
    ensures HasTurns(db, sid) ==> Every(db).sessions[sid] == One(db, sid).sessions[sid]
    ensures TurnsOf(Every(db).turns, sid) == TurnsOf(One(db, sid).turns, sid)
    ensures !HasTurns(db, sid) ==> Every(db).sessions[sid] == db.sessions[sid]
  {
    ActiveHasTurns(db, sid);
    OneIsReconciled(db, sid);
    EveryIsReconciled(db);
    SameTurnsOfSession(db.turns, sid);
  }

  /** The grouped pass is the per-session form run over the sessions that have turns, in any order. */
  lemma GlobalIsAnyOrderOfSessions(db: Rows, ids: seq<Id>)
    requires Elements(ids) == Active(db)
    ensures Every(db) == ByIds(db, ids)
  {
    ByIdsIsReconciled(db, ids);
    EveryIsReconciled(db);
  }

  /** Both forms are idempotent. */
  lemma ReconcileIdempotent(db: Rows, ids: seq<Id>)
    ensures ByIds(ByIds(db, ids), ids) == ByIds(db, ids)
    ensures Every(Every(db)) == Every(db)
  {
    var some, active := Elements(ids), Active(db);
    ByIdsIsReconciled(db, ids);
    ByIdsIsReconciled(Reconciled(db, some), ids);
    ReconciledTwice(db, some, some);
    assert some + some == some && active + active == active;
    EveryIsReconciled(db);
    EveryIsReconciled(Reconciled(db, active));
    SameActive(db, active);
    ReconciledTwice(db, active, active);
  }

  lemma SameActive(db: Rows, sids: set<Id>)
    ensures Active(Reconciled(db, sids)) == Active(db)
  {
    var after := Reconciled(db, sids);
    forall id <- db.turns
      ensures after.turns[id].sessionId == db.turns[id].sessionId
    {
    }
  }

  ghost predicate Zeroed(s: Session) {
    s.totals == Totals(0, 0, 0, 0, 0) && s.turnCount == 0 && s.toolCallCount == 0
  }

  lemma RollupWithoutTurns(db: Rows, sid: Id)
    requires sid in db.sessions && !HasTurns(db, sid)
    ensures RollupOf(db, sid) == db.sessions[sid].(totals := Totals(0, 0, 0, 0, 0), turnCount := 0, toolCallCount := 0)
  {
    assert TurnsOf(db.turns, sid).Keys == {};
    assert forall id <- db.turns :: db.turns[id].sessionId == sid ==> id in TurnsOf(db.turns, sid).Keys;
    assert ToolCallsOf(db.toolCalls, db.turns, sid) == {};
  }

  lemma AllRowsAreActive(db: Rows, all: set<Id>)
    requires ForeignKeys(db) && all == db.sessions.Keys
    ensures Resequenced(db.turns, all) == Resequenced(db.turns, Active(db))
  {
    forall id <- db.turns
      ensures db.turns[id].sessionId in all && db.turns[id].sessionId in Active(db)
    {
    }
  }

  /** Reconciling all session rows rather than the active ones shows on a row exactly if it is turnless and not zero. */
  lemma TurnlessRowShows(db: Rows, all: set<Id>, sid: Id)
    requires sid in db.sessions && sid in all
    ensures Rerolled(db, all)[sid] == Rerolled(db, Active(db))[sid]
       <==> HasTurns(db, sid) || Zeroed(db.sessions[sid])
  {
    ActiveHasTurns(db, sid);
    if !HasTurns(db, sid) { RollupWithoutTurns(db, sid); }
  }

  lemma SameRollsIff(db: Rows, all: set<Id>)
    requires all == db.sessions.Keys
    ensures Rerolled(db, all) == Rerolled(db, Active(db))
       <==> forall sid <- db.sessions :: HasTurns(db, sid) || Zeroed(db.sessions[sid])
  {
    var a, b := Rerolled(db, all), Rerolled(db, Active(db));
    forall sid <- db.sessions
      ensures a[sid] == b[sid] <==> HasTurns(db, sid) || Zeroed(db.sessions[sid])
    {
      TurnlessRowShows(db, all, sid);
    }
    assert a == b <==> forall sid <- db.sessions :: a[sid] == b[sid];
  }

  lemma SameReconciledIff(db: Rows, all: set<Id>, some: set<Id>)
    requires Resequenced(db.turns, all) == Resequenced(db.turns, some)
    ensures Reconciled(db, all) == Reconciled(db, some) <==> Rerolled(db, all) == Rerolled(db, some)
  {
  }

  /** Where the two forms part: running the per-session form over every session row equals the grouped
      pass exactly if the rows of the sessions without turns are already all zero. */
  lemma FormsDivergeOnTurnlessRows(db: Rows, ids: seq<Id>)
    requires ForeignKeys(db) && Elements(ids) == db.sessions.Keys
    ensures ByIds(db, ids) == Every(db)
       <==> forall sid <- db.sessions :: HasTurns(db, sid) || Zeroed(db.sessions[sid])
  {
    ByIdsIsReconciled(db, ids);
    EveryIsReconciled(db);
    AllRowsAreActive(db, Elements(ids));
    SameReconciledIff(db, Elements(ids), Active(db));
    SameRollsIff(db, Elements(ids));
  }

  /** A session row without turns whose sums are not zero: the per-session form clears it, the global form keeps it. */
  lemma TurnlessRowDiverges(row: Session)
    requires !Zeroed(row)
    ensures var db := Rows(map[1 := row], map[], map[], map[], map[], map[]);
      ForeignKeys(db) && Every(db) == db && ByIds(db, [1]) != Every(db)
  {
    var db := Rows(map[1 := row], map[], map[], map[], map[], map[]);
    assert Elements([1]) == db.sessions.Keys;
    assert !HasTurns(db, 1);
    FormsDivergeOnTurnlessRows(db, [1]);
    EveryIsReconciled(db);
    assert Active(db) == {};
  }

  /** A database is consistent exactly if reconciling all of its sessions would change nothing. */
  lemma ConsistentIsFixedPoint(db: Rows)
    requires ForeignKeys(db)
    ensures Consistent(db) <==> Reconciled(db, db.sessions.Keys) == db
  {
    var all := db.sessions.Keys;
    assert Sequenced(db.turns) <==> Resequenced(db.turns, all) == db.turns by {
      if Resequenced(db.turns, all) == db.turns {
        forall id <- db.turns
          ensures db.turns[id].sequence == Rank(db.turns, id)
        {
          assert Resequenced(db.turns, all)[id] == db.turns[id];
        }
      }
    }
    assert (forall sid <- db.sessions :: db.sessions[sid] == RollupOf(db, sid)) <==>
        Rerolled(db, all) == db.sessions by {
      if Rerolled(db, all) == db.sessions {
        forall sid <- db.sessions
          ensures db.sessions[sid] == RollupOf(db, sid)
        {
          assert Rerolled(db, all)[sid] == db.sessions[sid];
        }
      }
    }
  }
}
