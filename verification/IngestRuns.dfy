/** The rollup invariant over whole ingest runs. */
module IngestRuns {
  import opened Tables
  import opened Writer
  import opened IngestLaws
  import Reconcile

  /** Two files that share a turn or a tool call belong to the same session. */
  ghost predicate Disjoint(p: ParsedSession, q: ParsedSession) {
    p.id == q.id || (TurnMap(p).Keys !! TurnMap(q).Keys && CallMap(p).Keys !! CallMap(q).Keys)
  }

  lemma UpsertLeavesUnclaimed(db: Rows, p: ParsedSession, file: Path, now: int, q: ParsedSession)
    requires ForeignKeys(db) && Unclaimed(db, p) && Unclaimed(db, q) && Disjoint(p, q)
    ensures ForeignKeys(Upserted(db, p, file, now)) && Unclaimed(Upserted(db, p, file, now), q)
  {
    UpsertKeepsForeignKeys(db, p, file, now);
    FileRows(p);
    var mid := Upserted(db, p, file, now);
    forall c <- CallMap(q)
      ensures c in mid.toolCalls ==> mid.turns[mid.toolCalls[c].turnId].sessionId == q.id
    {
      if c in mid.toolCalls && c !in CallMap(p) {
        assert db.turns[db.toolCalls[c].turnId].sessionId == q.id;
      }
    }
  }

  lemma ReconciledLeavesUnclaimed(db: Rows, sids: set<Id>, q: ParsedSession)
    requires ForeignKeys(db) && Unclaimed(db, q)
    ensures ForeignKeys(Reconcile.Reconciled(db, sids)) && Unclaimed(Reconcile.Reconciled(db, sids), q)
  {
    ReconciledKeepsForeignKeys(db, sids);
    var after := Reconcile.Reconciled(db, sids);
    assert forall id <- db.turns :: after.turns[id].sessionId == db.turns[id].sessionId;
  }

  lemma StoringLeavesUnclaimed(db: Rows, p: ParsedSession, file: Path, now: int, reconciled: bool, q: ParsedSession)
    requires ForeignKeys(db) && Unclaimed(db, p) && Unclaimed(db, q) && Disjoint(p, q)
    ensures var after := Stored(db, p, file, now, reconciled); ForeignKeys(after) && Unclaimed(after, q)
  {
    UpsertLeavesUnclaimed(db, p, file, now, q);
    if reconciled {
      WrittenIsReconciled(db, p, file, now);
      ReconciledLeavesUnclaimed(Upserted(db, p, file, now), {p.id}, q);
    }
  }

  /** No turn and no tool call is claimed by two sessions, among the files of a run and the database. */
  ghost predicate ClaimedOnce(db: Rows, es: seq<FileEvent>)
    requires ForeignKeys(db)
  {
    && (forall i | 0 <= i < |es| && es[i].Accepted().Some? :: Unclaimed(db, es[i].Accepted().value))
    && (forall i, j | 0 <= i < j < |es| && es[i].Accepted().Some? && es[j].Accepted().Some? ::
          Disjoint(es[i].Accepted().value, es[j].Accepted().value))
  }

  lemma {:induction false} RunLeavesUnclaimed(db: Rows, es: seq<FileEvent>, q: ParsedSession)
    requires ForeignKeys(db) && ClaimedOnce(db, es) && Unclaimed(db, q)
    requires forall i | 0 <= i < |es| && es[i].Accepted().Some? :: Disjoint(es[i].Accepted().value, q)
    ensures ForeignKeys(IngestedAll(db, es)) && Unclaimed(IngestedAll(db, es), q)
    decreases |es|
  {
    if es != [] {
      var front, e := es[..|es| - 1], es[|es| - 1];
      var mid := IngestedAll(db, front);
      RunLeavesUnclaimed(db, front, q);
      if !Unchanged(mid.files, e) && e.Accepted().Some? {
        RunLeavesUnclaimed(db, front, e.Accepted().value);
        StoringLeavesUnclaimed(mid, e.Accepted().value, e.path, e.now, !e.fault.InReconcile?, q);
      }
    }
  }

  predicate Passes(files: map<Path, FileRow>, e: FileEvent) {
    !Unchanged(files, e) && e.Accepted().Some?
  }

  /** The sessions a run leaves unreconciled, of those that were and those it stores. */
  ghost function Unsettled(db: Rows, dirty: set<Id>, es: seq<FileEvent>): set<Id>
    decreases |es|
  {
    if es == [] then dirty
    else
      var front, e := es[..|es| - 1], es[|es| - 1];
      var was := Unsettled(db, dirty, front);
      if !Passes(IngestedAll(db, front).files, e) then was
      else UnsettledBy(was, e.Accepted().value.id, !e.fault.InReconcile?)
  }

  lemma StoringKeepsRatings(db: Rows, p: ParsedSession, file: Path, now: int, reconciled: bool)
    ensures Stored(db, p, file, now, reconciled).ratings == db.ratings
    ensures Stored(db, p, file, now, reconciled).files == db.files
  {
    if reconciled { WrittenIsReconciled(db, p, file, now); }
  }

  lemma FilesDoNotMatter(db: Rows, files: map<Path, FileRow>, dirty: set<Id>)
    requires ForeignKeys(db) && ConsistentBut(db, dirty)
    ensures ForeignKeys(db.(files := files)) && ConsistentBut(db.(files := files), dirty)
  {
    assert forall sid <- db.sessions :: RollupOf(db.(files := files), sid) == RollupOf(db, sid);
  }

  lemma StepKeepsInvariant(db: Rows, dirty: set<Id>, e: FileEvent)
    requires ForeignKeys(db) && ConsistentBut(db, dirty) && Passes(db.files, e) && Unclaimed(db, e.Accepted().value)
    ensures ForeignKeys(Ingested(db, e)) && Ingested(db, e).ratings == db.ratings
    ensures ConsistentBut(Ingested(db, e), UnsettledBy(dirty, e.Accepted().value.id, !e.fault.InReconcile?))
  {
    var p, reconciled := e.Accepted().value, !e.fault.InReconcile?;
    var after := Stored(db, p, e.path, e.now, reconciled);
    StoringKeepsForeignKeys(db, p, e.path, e.now, reconciled);
    StoringSettles(db, dirty, p, e.path, e.now, reconciled);
    StoringKeepsRatings(db, p, e.path, e.now, reconciled);
    FilesDoNotMatter(after, FilesAfter(db.files, e), UnsettledBy(dirty, p.id, reconciled));
  }

  /** After any run of ingest steps, wherever writes throw, the stored sequences and rollups of every session are right
      but for those whose last reconcile threw; and no rating has changed. */
  lemma {:induction false} RunKeepsInvariant(db: Rows, dirty: set<Id>, es: seq<FileEvent>)
    requires ForeignKeys(db) && ConsistentBut(db, dirty) && ClaimedOnce(db, es)
    ensures var after := IngestedAll(db, es);
      ForeignKeys(after) && ConsistentBut(after, Unsettled(db, dirty, es)) && after.ratings == db.ratings
    decreases |es|
  {
    if es != [] {
      var front, e := es[..|es| - 1], es[|es| - 1];
      var mid := IngestedAll(db, front);
      RunKeepsInvariant(db, dirty, front);
      if Passes(mid.files, e) {
        RunLeavesUnclaimed(db, front, e.Accepted().value);
        StepKeepsInvariant(mid, Unsettled(db, dirty, front), e);
      }
    }
  }

  // ---------------------------------------------------------------- sessions whose reconcile threw

  /** The i-th file of the run gets past the gate, parses and is stored under this session. */
  ghost predicate Stores(db: Rows, es: seq<FileEvent>, i: nat, sid: Id)
    requires i < |es|
  {
    Passes(IngestedAll(db, es[..i]).files, es[i]) && es[i].Accepted().value.id == sid
  }

  /** The last file of the run that is stored under this session is the i-th. */
  ghost predicate LastStored(db: Rows, es: seq<FileEvent>, i: nat, sid: Id) {
    i < |es| && Stores(db, es, i, sid) && forall j: nat | i < j < |es| :: !Stores(db, es, j, sid)
  }

  lemma StoresInFront(db: Rows, es: seq<FileEvent>, i: nat, sid: Id)
    requires i + 1 < |es|
    ensures Stores(db, es, i, sid) == Stores(db, es[..|es| - 1], i, sid)
  {
    assert es[..|es| - 1][..i] == es[..i];
  }

  lemma LastStoredStep(db: Rows, es: seq<FileEvent>, i: nat, sid: Id)
    requires i < |es|
    ensures var n := |es| - 1;
      LastStored(db, es, i, sid) <==>
        if Stores(db, es, n, sid) then i == n else i < n && LastStored(db, es[..n], i, sid)
  {
    var n := |es| - 1;
    var front := es[..n];
    forall j: nat | j < n
      ensures Stores(db, es, j, sid) == Stores(db, front, j, sid)
    {
      StoresInFront(db, es, j, sid);
    }
    if i < n && !Stores(db, es, n, sid) {
      assert LastStored(db, front, i, sid) ==> forall j: nat | i < j < |es| :: !Stores(db, es, j, sid);
      assert LastStored(db, es, i, sid) ==> forall j: nat | i < j < n :: !Stores(db, front, j, sid);
    }
  }

  /** Starting from a settled database, a session is unsettled after a run exactly if the last file stored under it
      lost its reconcile. So the next write of any file of the session settles it. */
  lemma {:induction false} UnsettledIff(db: Rows, es: seq<FileEvent>, sid: Id)
    ensures sid in Unsettled(db, {}, es)
       <==> exists i: nat :: LastStored(db, es, i, sid) && es[i].fault.InReconcile?
    decreases |es|
  {
    if es != [] {
      var n := |es| - 1;
      UnsettledIff(db, es[..n], sid);
      if Stores(db, es, n, sid) {
        LastStoredStep(db, es, n, sid);
        forall i: nat | LastStored(db, es, i, sid) { LastStoredStep(db, es, i, sid); }
      } else {
        forall i: nat | i < |es|
          ensures LastStored(db, es, i, sid) <==> i < n && LastStored(db, es[..n], i, sid)
          ensures i < n ==> es[..n][i] == es[i]
        {
          LastStoredStep(db, es, i, sid);
        }
      }
    }
  }

  /** A run that throws in no reconcile leaves no session unsettled. */
  lemma {:induction false} SettledRun(db: Rows, es: seq<FileEvent>)
    requires forall e <- es :: !e.fault.InReconcile?
    ensures Unsettled(db, {}, es) == {}
  {
    forall sid: Id
      ensures sid !in Unsettled(db, {}, es)
    {
      UnsettledIff(db, es, sid);
    }
  }

  ghost predicate SettledSession(db: Rows, sid: Id) {
    && sid in db.sessions && db.sessions[sid] == RollupOf(db, sid)
    && forall id <- TurnsOf(db.turns, sid) :: db.turns[id].sequence == Rank(db.turns, id)
  }

  lemma StoredSessionExists(db: Rows, e: FileEvent)
    requires Passes(db.files, e)
    ensures e.Accepted().value.id in Ingested(db, e).sessions
  {
    WrittenIsReconciled(db, e.Accepted().value, e.path, e.now);
  }

  /** Whatever threw before, a session is right after the next file of it that is stored and reconciled. */
  lemma NextStoreSettles(db: Rows, es: seq<FileEvent>, e: FileEvent)
    requires ForeignKeys(db) && Consistent(db) && ClaimedOnce(db, es + [e])
    requires Passes(IngestedAll(db, es).files, e) && !e.fault.InReconcile?
    ensures SettledSession(IngestedAll(db, es + [e]), e.Accepted().value.id)
  {
    var all := es + [e];
    assert all[..|all| - 1] == es;
    CleanIsConsistent(db);
    RunKeepsInvariant(db, {}, all);
    StoredSessionExists(IngestedAll(db, es), e);
    assert e.Accepted().value.id !in Unsettled(db, {}, all);
  }

  /** A file that is stored but does not get to its end is not recorded. */
  lemma FailedIsStored(db: Rows, e: FileEvent)
    requires Passes(db.files, e) && !e.Completes()
    ensures Ingested(db, e) == Stored(db, e.parsed.value, e.path, e.now, !e.fault.InReconcile?)
    ensures Ingested(db, e).files == db.files
  {
    StoringKeepsRatings(db, e.parsed.value, e.path, e.now, !e.fault.InReconcile?);
  }

  lemma RetryStores(db: Rows, e: FileEvent)
    requires Passes(db.files, e) && e.fault.NoFault?
    ensures Ingested(db, e)
         == Written(db, e.parsed.value, e.path, e.now).(files := FilesAfter(db.files, e))
  {
  }

  lemma FailedRolledBack(db: Rows, e: FileEvent)
    requires !Passes(db.files, e)
    ensures Ingested(db, e) == db
  {
  }

  /** Trying again after a write that threw, wherever it did: the gate lets the file through as before, and the result
      is that of the second attempt alone. */
  lemma RetryHeals(db: Rows, e: FileEvent, later: int)
    requires !e.Completes() && e.parsed.Some?
    ensures var retry := e.(fault := NoFault, now := later);
      && Unchanged(Ingested(db, e).files, retry) == Unchanged(db.files, e)
      && Ingested(Ingested(db, e), retry) == Ingested(db, retry)
  {
    var retry := e.(fault := NoFault, now := later);
    if Passes(db.files, e) {
      FailedIsStored(db, e);
      StoredAgain(db, e.parsed.value, e.path, e.now, !e.fault.InReconcile?, later);
      RetryStores(Ingested(db, e), retry);
      RetryStores(db, retry);
    } else {
      FailedRolledBack(db, e);
    }
  }
}
