/** What ingest keeps: the rollup invariant after every write and over whole runs, and exactly when a
    write breaks it. */
module IngestLaws {
  import opened Options
  import opened Tables
  import opened Writer
  import opened Reconcile
  import ReconcileSql

  // ---------------------------------------------------------------- the rows of one file

  lemma {:induction false} CallRowsTurns(ts: seq<ParsedTurn>, r: (Id, ToolCall))
    requires r in CallRows(ts)
    ensures exists i :: 0 <= i < |ts| && ts[i].id == r.1.turnId
    decreases |ts|
  {
    var n := |ts| - 1;
    if r in CallRows(ts[..n]) {
      CallRowsTurns(ts[..n], r);
      var i :| 0 <= i < n && ts[..n][i].id == r.1.turnId;
      assert ts[i].id == r.1.turnId;
    } else {
      assert ts[n].id == r.1.turnId;
    }
  }

  /** A file's turns all go to its session, and its tool calls to its turns. */
  lemma FileRows(p: ParsedSession)
    ensures forall id <- TurnMap(p) :: TurnMap(p)[id].sessionId == p.id
    ensures forall c <- CallMap(p) :: CallMap(p)[c].turnId in TurnMap(p)
  {
    forall id <- TurnMap(p)
      ensures TurnMap(p)[id].sessionId == p.id
    {
      MapOfHolds(TurnRows(p.id, p.turns), id);
    }
    forall c <- CallMap(p)
      ensures CallMap(p)[c].turnId in TurnMap(p)
    {
      MapOfHolds(CallRows(p.turns), c);
      CallRowsTurns(p.turns, (c, CallMap(p)[c]));
      MapOfHolds(TurnRows(p.id, p.turns), CallMap(p)[c].turnId);
    }
  }

  // ---------------------------------------------------------------- one write

  /** No turn and no tool call of the file is stored under another session. */
  ghost predicate Unclaimed(db: Rows, p: ParsedSession)
    requires ForeignKeys(db)
  {
    && (forall id <- TurnMap(p) :: id in db.turns ==> db.turns[id].sessionId == p.id)
    && (forall c <- CallMap(p) :: c in db.toolCalls ==> db.turns[db.toolCalls[c].turnId].sessionId == p.id)
  }

  lemma UpsertKeepsForeignKeys(db: Rows, p: ParsedSession, file: Path, now: int)
    requires ForeignKeys(db)
    ensures ForeignKeys(Upserted(db, p, file, now))
  {
    FileRows(p);
  }

  /** The other sessions' turns after the upserts: the ones the file did not take. */
  lemma OthersTurns(db: Rows, p: ParsedSession, file: Path, now: int, sid: Id)
    requires sid != p.id
    ensures TurnsOf(Upserted(db, p, file, now).turns, sid) == TurnsOf(db.turns, sid) - TurnMap(p).Keys
  {
    FileRows(p);
  }

  lemma OthersCalls(db: Rows, p: ParsedSession, file: Path, now: int, sid: Id)
    requires ForeignKeys(db) && sid != p.id
    requires forall id <- TurnMap(p) :: id in db.turns ==> db.turns[id].sessionId == p.id
    ensures var after := Upserted(db, p, file, now);
      ToolCallsOf(after.toolCalls, after.turns, sid) == ToolCallsOf(db.toolCalls, db.turns, sid) - CallMap(p).Keys
  {
    FileRows(p);
    var after := Upserted(db, p, file, now);
    forall c <- after.toolCalls
      ensures BelongsTo(after.toolCalls[c], after.turns, sid)
         <==> c in db.toolCalls && BelongsTo(db.toolCalls[c], db.turns, sid) && c !in CallMap(p)
    {
      if c in CallMap(p) {
        assert after.turns[after.toolCalls[c].turnId].sessionId == p.id;
      }
    }
  }

  /** A file that takes nothing leaves the rows of every other session, and their ranks, as they were. */
  lemma OthersUntouched(db: Rows, p: ParsedSession, file: Path, now: int, sid: Id)
    requires ForeignKeys(db) && Unclaimed(db, p) && sid != p.id
    ensures var after := Upserted(db, p, file, now);
      && TurnsOf(after.turns, sid) == TurnsOf(db.turns, sid)
      && ToolCallsOf(after.toolCalls, after.turns, sid) == ToolCallsOf(db.toolCalls, db.turns, sid)
  {
    OthersTurns(db, p, file, now, sid);
    OthersCalls(db, p, file, now, sid);
    assert TurnsOf(db.turns, sid) - TurnMap(p).Keys == TurnsOf(db.turns, sid);
    forall c <- ToolCallsOf(db.toolCalls, db.turns, sid)
      ensures c !in CallMap(p)
    {
    }
  }

  /** The rank of a turn depends only on the turns of its session. */
  lemma RankWithinSession(a: map<Id, Turn>, b: map<Id, Turn>, id: Id)
    requires id in a && id in b && a[id].sessionId == b[id].sessionId
    requires TurnsOf(a, a[id].sessionId) == TurnsOf(b, a[id].sessionId)
    ensures Rank(a, id) == Rank(b, id)
  {
    var rows := TurnsOf(a, a[id].sessionId);
    assert forall o <- Earlier(a, id) + Earlier(b, id) :: o in rows && a[o] == rows[o] == b[o];
    assert id in rows && a[id] == rows[id] == b[id];
    assert Earlier(a, id) == Earlier(b, id);
  }

  lemma WrittenIsReconciled(db: Rows, p: ParsedSession, file: Path, now: int)
    ensures Written(db, p, file, now) == Reconciled(Upserted(db, p, file, now), {p.id})
  {
    OneIsReconciled(Upserted(db, p, file, now), p.id);
  }

  lemma ReconciledKeepsForeignKeys(db: Rows, sids: set<Id>)
    requires ForeignKeys(db)
    ensures ForeignKeys(Reconciled(db, sids))
  {
    var turns := Resequenced(db.turns, sids);
    assert turns.Keys == db.turns.Keys && Rerolled(db, sids).Keys == db.sessions.Keys;
    assert forall id <- turns :: turns[id].sessionId == db.turns[id].sessionId;
  }

  lemma StoringKeepsForeignKeys(db: Rows, p: ParsedSession, file: Path, now: int, reconciled: bool)
    requires ForeignKeys(db)
    ensures ForeignKeys(Stored(db, p, file, now, reconciled))
  {
    UpsertKeepsForeignKeys(db, p, file, now);
    if reconciled { WriteKeepsForeignKeys(db, p, file, now); }
  }

  lemma WriteKeepsForeignKeys(db: Rows, p: ParsedSession, file: Path, now: int)
    requires ForeignKeys(db)
    ensures ForeignKeys(Written(db, p, file, now))
  {
    UpsertKeepsForeignKeys(db, p, file, now);
    WrittenIsReconciled(db, p, file, now);
    ReconciledKeepsForeignKeys(Upserted(db, p, file, now), {p.id});
  }

  /** The stored sequences and rollups are right, except perhaps for some sessions. */
  ghost predicate ConsistentBut(db: Rows, dirty: set<Id>) {
    && (forall id <- db.turns ::
          db.turns[id].sessionId in dirty || db.turns[id].sequence == Rank(db.turns, id))
    && (forall sid <- db.sessions :: sid in dirty || db.sessions[sid] == RollupOf(db, sid))
  }

  lemma CleanIsConsistent(db: Rows)
    ensures ConsistentBut(db, {}) <==> Consistent(db)
  {
  }

  /** Reconciling puts the reconciled sessions right and breaks none. */
  lemma ReconciledSettles(db: Rows, dirty: set<Id>, sids: set<Id>)
    requires ConsistentBut(db, dirty)
    ensures ConsistentBut(Reconciled(db, sids), dirty - sids)
  {
    var after := Reconciled(db, sids);
    ReconcileSql.RankSameOrder(after.turns, db.turns);
    forall sid <- after.sessions
      ensures sid in dirty - sids || after.sessions[sid] == RollupOf(after, sid)
    {
      RollupAfter(db, sids, sid);
    }
  }

  lemma ReconciledConsistent(db: Rows, sids: set<Id>)
    requires ConsistentBut(db, sids)
    ensures Consistent(Reconciled(db, sids))
  {
    ReconciledSettles(db, sids, sids);
  }

  lemma OtherSequenceKept(db: Rows, dirty: set<Id>, p: ParsedSession, file: Path, now: int, id: Id)
    requires ForeignKeys(db) && ConsistentBut(db, dirty) && Unclaimed(db, p)
    requires var mid := Upserted(db, p, file, now); id in mid.turns && mid.turns[id].sessionId !in dirty + {p.id}
    ensures var mid := Upserted(db, p, file, now); mid.turns[id].sequence == Rank(mid.turns, id)
  {
    var mid := Upserted(db, p, file, now);
    FileRows(p);
    OthersUntouched(db, p, file, now, mid.turns[id].sessionId);
    RankWithinSession(mid.turns, db.turns, id);
  }

  lemma OtherRollupKept(db: Rows, dirty: set<Id>, p: ParsedSession, file: Path, now: int, sid: Id)
    requires ForeignKeys(db) && ConsistentBut(db, dirty) && Unclaimed(db, p)
    requires sid in db.sessions && sid !in dirty + {p.id}
    ensures var mid := Upserted(db, p, file, now); sid in mid.sessions && mid.sessions[sid] == RollupOf(mid, sid)
  {
    OthersUntouched(db, p, file, now, sid);
  }

  /** The upserts unsettle no session but the written one. */
  lemma UpsertUnsettles(db: Rows, dirty: set<Id>, p: ParsedSession, file: Path, now: int)
    requires ForeignKeys(db) && ConsistentBut(db, dirty) && Unclaimed(db, p)
    ensures ConsistentBut(Upserted(db, p, file, now), dirty + {p.id})
  {
    var mid := Upserted(db, p, file, now);
    forall id <- mid.turns
      ensures mid.turns[id].sessionId in dirty + {p.id} || mid.turns[id].sequence == Rank(mid.turns, id)
    {
      if mid.turns[id].sessionId !in dirty + {p.id} { OtherSequenceKept(db, dirty, p, file, now, id); }
    }
    forall sid <- mid.sessions
      ensures sid in dirty + {p.id} || mid.sessions[sid] == RollupOf(mid, sid)
    {
      if sid !in dirty + {p.id} { OtherRollupKept(db, dirty, p, file, now, sid); }
    }
  }

  /** The sessions left to be put right: the reconcile of a write settles its session, its failure unsettles it. */
  function UnsettledBy(dirty: set<Id>, sid: Id, reconciled: bool): set<Id> {
    if reconciled then dirty - {sid} else dirty + {sid}
  }

  lemma StoringSettles(db: Rows, dirty: set<Id>, p: ParsedSession, file: Path, now: int, reconciled: bool)
    requires ForeignKeys(db) && ConsistentBut(db, dirty) && Unclaimed(db, p)
    ensures ConsistentBut(Stored(db, p, file, now, reconciled), UnsettledBy(dirty, p.id, reconciled))
  {
    UpsertUnsettles(db, dirty, p, file, now);
    if reconciled {
      WrittenIsReconciled(db, p, file, now);
      ReconciledSettles(Upserted(db, p, file, now), dirty + {p.id}, {p.id});
      assert dirty + {p.id} - {p.id} == dirty - {p.id};
    }
  }

  lemma WriteKeepsConsistent(db: Rows, p: ParsedSession, file: Path, now: int)
    requires ForeignKeys(db) && Consistent(db) && Unclaimed(db, p)
    ensures Consistent(Written(db, p, file, now))
  {
    StoringSettles(db, {}, p, file, now, true);
    assert UnsettledBy({}, p.id, true) == {};
  }

  /** A row of another session is untouched by a write, though what it should say may have changed. */
  lemma OtherSessionRow(db: Rows, p: ParsedSession, file: Path, now: int, sid: Id)
    requires sid in db.sessions && sid != p.id
    ensures var mid, after := Upserted(db, p, file, now), Written(db, p, file, now);
      sid in after.sessions && after.sessions[sid] == db.sessions[sid] && RollupOf(after, sid) == RollupOf(mid, sid)
  {
    WrittenIsReconciled(db, p, file, now);
    RollupAfter(Upserted(db, p, file, now), {p.id}, sid);
  }

  lemma TakingTurnLeavesStale(db: Rows, p: ParsedSession, file: Path, now: int, id: Id)
    requires ForeignKeys(db) && Consistent(db)
    requires id in TurnMap(p) && id in db.turns && db.turns[id].sessionId != p.id
    ensures !Consistent(Written(db, p, file, now))
  {
    var sid := db.turns[id].sessionId;
    var was, now' := TurnsOf(db.turns, sid), TurnsOf(Upserted(db, p, file, now).turns, sid);
    OthersTurns(db, p, file, now, sid);
    assert id in was && now'.Keys == was.Keys - TurnMap(p).Keys;
    CountsDrop(was.Keys, TurnMap(p).Keys, id);
    assert |now'| == |now'.Keys| < |was.Keys| == |was|;
    OtherSessionRow(db, p, file, now, sid);
    assert RollupOf(db, sid).turnCount == |was|;
  }

  lemma TakingCallLeavesStale(db: Rows, p: ParsedSession, file: Path, now: int, c: Id)
    requires ForeignKeys(db) && Consistent(db)
    requires forall id <- TurnMap(p) :: id in db.turns ==> db.turns[id].sessionId == p.id
    requires c in CallMap(p) && c in db.toolCalls && db.turns[db.toolCalls[c].turnId].sessionId != p.id
    ensures !Consistent(Written(db, p, file, now))
  {
    var sid := db.turns[db.toolCalls[c].turnId].sessionId;
    OthersCalls(db, p, file, now, sid);
    CountsDrop(ToolCallsOf(db.toolCalls, db.turns, sid), CallMap(p).Keys, c);
    OtherSessionRow(db, p, file, now, sid);
    assert RollupOf(db, sid).toolCallCount == |ToolCallsOf(db.toolCalls, db.turns, sid)|;
  }

  lemma CountsDrop(all: set<Id>, taken: set<Id>, id: Id)
    requires id in all && id in taken
    ensures |all - taken| < |all|
  {
    assert all - taken <= all - {id};
    ReconcileSql.SubsetSize(all - taken, all - {id});
  }

  // ---------------------------------------------------------------- a write that is tried again

  lemma LaidTwice<K, V>(rows: map<K, V>, layer: map<K, V>)
    ensures (rows + layer) + layer == rows + layer
  {
  }

  lemma RowReplaced(db: Rows, sid: Id, first: Session, second: Session)
    requires sid in db.sessions && db.sessions[sid] == first
    ensures Rerolled(db, {sid})[sid := second] == db.sessions[sid := second]
  {
  }

  lemma ResequencedThenLaid(turns: map<Id, Turn>, layer: map<Id, Turn>, sid: Id)
    ensures var again, once := Resequenced(turns + layer, {sid}) + layer, turns + layer;
      SameButSequence(again, once) && forall id <- again :: again[id].sessionId != sid ==> again[id] == once[id]
  {
  }

  /** Tables that differ in the sequences of one session alone. */
  ghost predicate SameButSequencesOf(a: Rows, b: Rows, sid: Id) {
    && SameButSequence(a.turns, b.turns) && a == b.(turns := a.turns)
    && forall id <- a.turns :: a.turns[id].sessionId != sid ==> a.turns[id] == b.turns[id]
  }

  /** The upserts of a file read nothing of what they replace. */
  lemma UpsertedTwice(db: Rows, p: ParsedSession, file: Path, now: int, later: int)
    ensures Upserted(Upserted(db, p, file, now), p, file, later) == Upserted(db, p, file, later)
  {
    LaidTwice(db.turns, TurnMap(p));
    LaidTwice(db.toolCalls, CallMap(p));
    LaidTwice(db.events, EventMap(p, file));
    assert db.sessions[p.id := SessionRow(p, file, now)][p.id := SessionRow(p, file, later)]
        == db.sessions[p.id := SessionRow(p, file, later)];
  }

  /** Reconciling before the same rows are upserted again can only change sequences of their session. */
  lemma UpsertedAfterReconcile(db: Rows, p: ParsedSession, file: Path, now: int, later: int)
    ensures SameButSequencesOf(Upserted(Written(db, p, file, now), p, file, later), Upserted(db, p, file, later), p.id)
  {
    var mid := Upserted(db, p, file, now);
    WrittenIsReconciled(db, p, file, now);
    ResequencedThenLaid(db.turns, TurnMap(p), p.id);
    RowReplaced(mid, p.id, SessionRow(p, file, now), SessionRow(p, file, later));
    UpsertedTwice(db, p, file, now, later);
  }

  lemma ReconciledForgetsSequences(a: Rows, b: Rows, sid: Id)
    requires SameButSequencesOf(a, b, sid)
    ensures Reconciled(a, {sid}) == Reconciled(b, {sid})
  {
    ResequencedForgets(a.turns, b.turns, sid);
    if sid in b.sessions { RollupIgnoresSequence(a, b, sid); }
    assert Rerolled(a, {sid}) == Rerolled(b, {sid});
  }

  lemma ResequencedForgets(a: map<Id, Turn>, b: map<Id, Turn>, sid: Id)
    requires SameButSequence(a, b)
    requires forall id <- a :: a[id].sessionId != sid ==> a[id] == b[id]
    ensures Resequenced(a, {sid}) == Resequenced(b, {sid})
  {
    ReconcileSql.RankSameOrder(a, b);
  }

  /** A file stored again, whatever of its first write was completed, is as if it had been stored only then. */
  lemma StoredAgain(db: Rows, p: ParsedSession, file: Path, now: int, reconciled: bool, later: int)
    ensures Written(Stored(db, p, file, now, reconciled), p, file, later) == Written(db, p, file, later)
  {
    var was := Stored(db, p, file, now, reconciled);
    WrittenIsReconciled(was, p, file, later);
    WrittenIsReconciled(db, p, file, later);
    if reconciled {
      UpsertedAfterReconcile(db, p, file, now, later);
      ReconciledForgetsSequences(Upserted(was, p, file, later), Upserted(db, p, file, later), p.id);
    } else {
      UpsertedTwice(db, p, file, now, later);
    }
  }

  // ---------------------------------------------------------------- what a write may break

  /** From a consistent database, a write leaves a consistent database exactly if no turn and no tool call
      of the file is stored under another session: only the written session is reconciled. */
  lemma WriteConsistentIff(db: Rows, p: ParsedSession, file: Path, now: int)
    requires ForeignKeys(db) && Consistent(db)
    ensures Consistent(Written(db, p, file, now)) <==> Unclaimed(db, p)
  {
    if Unclaimed(db, p) {
      WriteKeepsConsistent(db, p, file, now);
    } else if id :| id in TurnMap(p) && id in db.turns && db.turns[id].sessionId != p.id {
      TakingTurnLeavesStale(db, p, file, now, id);
    } else {
      var c :| c in CallMap(p) && c in db.toolCalls && db.turns[db.toolCalls[c].turnId].sessionId != p.id;
      TakingCallLeavesStale(db, p, file, now, c);
    }
  }

  lemma OneFileStored(p: ParsedSession, turn: ParsedTurn, now: int)
    requires p.turns == [turn]
    ensures var db := Written(Rows(map[], map[], map[], map[], map[], map[]), p, 1, now);
      && ForeignKeys(db) && Consistent(db)
      && turn.id in db.turns && db.turns[turn.id].sessionId == p.id
  {
    var none := Rows(map[], map[], map[], map[], map[], map[]);
    WriteKeepsForeignKeys(none, p, 1, now);
    WriteConsistentIff(none, p, 1, now);
    OneTurnMap(p, turn);
    WrittenIsReconciled(none, p, 1, now);
  }

  /** Two files that claim the same turn for different sessions: the second leaves the first session's row stale. */
  lemma SharedTurnLeavesStale(p: ParsedSession, q: ParsedSession, turn: ParsedTurn, now: int)
    requires p.id != q.id && p.turns == q.turns == [turn]
    ensures var db := Written(Rows(map[], map[], map[], map[], map[], map[]), p, 1, now);
      ForeignKeys(db) && Consistent(db) && !Unclaimed(db, q) && !Consistent(Written(db, q, 2, now))
  {
    OneFileStored(p, turn, now);
    OneTurnMap(q, turn);
    WriteConsistentIff(Written(Rows(map[], map[], map[], map[], map[], map[]), p, 1, now), q, 2, now);
  }

  /** A reconcile that throws leaves its session wrong: the one turn of a new session has the number its file gave it,
      or 0, and not 1. */
  lemma LostReconcileLeavesStale(p: ParsedSession, turn: ParsedTurn, now: int)
    requires p.turns == [turn] && turn.sequence != Some(1)
    ensures var db := Stored(Rows(map[], map[], map[], map[], map[], map[]), p, 1, now, false);
      !Consistent(db) && ConsistentBut(db, {p.id})
  {
    var none := Rows(map[], map[], map[], map[], map[], map[]);
    OneTurnMap(p, turn);
    MapOfHolds(TurnRows(p.id, p.turns), turn.id);
    UpsertUnsettles(none, {}, p, 1, now);
    var turns := Upserted(none, p, 1, now).turns;
    assert turns[turn.id].sequence != 1;
    assert Earlier(turns, turn.id) == {} by {
      forall id <- turns { MapOfHolds(TurnRows(p.id, p.turns), id); }
    }
    assert Rank(turns, turn.id) == 1;
  }

  lemma OneTurnMap(p: ParsedSession, turn: ParsedTurn)
    requires p.turns == [turn]
    ensures turn.id in TurnMap(p) && TurnMap(p)[turn.id].sessionId == p.id
  {
    MapOfHolds(TurnRows(p.id, p.turns), turn.id);
    assert TurnRows(p.id, p.turns)[0].0 == turn.id;
  }
}
