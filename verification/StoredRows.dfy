/** What a write stores of a parsed file, column by column. */
module StoredRows {
  import opened Options
  import opened Tables
  import opened Pricing
  import opened Writer
  import opened IngestLaws
  import opened IngestRuns
  import opened ReconcileColumns
  import Reconcile

  // ---------------------------------------------------------------- the last of several upserts

  /** The last row with a key decides. */
  lemma {:induction false} LastRowDecides<K, V>(rows: seq<(K, V)>, i: nat)
    requires i < |rows| && forall j | i < j < |rows| :: rows[j].0 != rows[i].0
    ensures rows[i].0 in MapOf(rows) && MapOf(rows)[rows[i].0] == rows[i].1
    decreases |rows|
  {
    if i < |rows| - 1 { LastRowDecides(rows[..|rows| - 1], i); }
  }

  lemma {:induction false} MapOfKeys<K, V>(rows: seq<(K, V)>, k: K)
    ensures k in MapOf(rows) <==> exists i | 0 <= i < |rows| :: rows[i].0 == k
    decreases |rows|
  {
    if rows != [] {
      var n := |rows| - 1;
      MapOfKeys(rows[..n], k);
      assert forall i | 0 <= i < n :: rows[..n][i] == rows[i];
    }
  }

  lemma {:induction false} LastPlace<K, V>(rows: seq<(K, V)>, k: K) returns (i: nat)
    requires exists j | 0 <= j < |rows| :: rows[j].0 == k
    ensures i < |rows| && rows[i].0 == k && forall j | i < j < |rows| :: rows[j].0 != k
    decreases |rows|
  {
    var n := |rows| - 1;
    if rows[n].0 == k {
      i := n;
    } else {
      var j :| 0 <= j < |rows| && rows[j].0 == k;
      assert rows[..n][j].0 == k;
      i := LastPlace(rows[..n], k);
    }
  }

  // ---------------------------------------------------------------- turns

  /** The i-th turn of the file, which no later turn of the file replaces. */
  predicate LastTurn(p: ParsedSession, i: nat, id: Id) {
    i < |p.turns| && p.turns[i].id == id && forall j | i < j < |p.turns| :: p.turns[j].id != id
  }

  /** The row holds what the file says of its i-th turn. */
  predicate ColumnsOfTurn(row: Turn, p: ParsedSession, i: nat)
    requires i < |p.turns|
  {
    var t := p.turns[i];
    && row.sessionId == p.id && row.timestamp == t.timestamp && row.model == t.model && row.usage == t.usage
    && row.tier == t.tier && row.text == t.text && row.cost == IngestCost(t.model, t.usage, t.tier)
  }

  /** Before the reconcile its sequence is the file's, or its place in the file. */
  predicate RowOfTurn(row: Turn, p: ParsedSession, i: nat)
    requires i < |p.turns|
  {
    ColumnsOfTurn(row, p, i) && row.sequence == (match p.turns[i].sequence case Some(n) => n case None => i)
  }

  lemma MapOfTurn(p: ParsedSession, id: Id) returns (i: nat)
    requires exists j | 0 <= j < |p.turns| :: p.turns[j].id == id
    ensures LastTurn(p, i, id) && id in TurnMap(p) && RowOfTurn(TurnMap(p)[id], p, i)
  {
    var rows := TurnRows(p.id, p.turns);
    var j :| 0 <= j < |p.turns| && p.turns[j].id == id;
    assert rows[j].0 == id;
    i := LastPlace(rows, id);
    LastRowDecides(rows, i);
    forall j | i < j < |p.turns| ensures p.turns[j].id != id { assert rows[j].0 != id; }
  }

  /** After the upserts each turn id of the file has the columns of the last turn with that id; the reconcile changes
      the sequence alone. */
  lemma TurnIsStored(db: Rows, p: ParsedSession, file: Path, now: int, id: Id) returns (i: nat)
    requires exists j | 0 <= j < |p.turns| :: p.turns[j].id == id
    ensures LastTurn(p, i, id)
    ensures id in Upserted(db, p, file, now).turns && RowOfTurn(Upserted(db, p, file, now).turns[id], p, i)
    ensures id in Written(db, p, file, now).turns
    ensures Written(db, p, file, now).turns[id] ==
      Upserted(db, p, file, now).turns[id].(sequence := Written(db, p, file, now).turns[id].sequence)
  {
    i := MapOfTurn(p, id);
    WrittenIsReconciled(db, p, file, now);
  }

  lemma TurnMapKeys(p: ParsedSession, id: Id)
    ensures id in TurnMap(p) <==> exists j | 0 <= j < |p.turns| :: p.turns[j].id == id
  {
    var rows := TurnRows(p.id, p.turns);
    MapOfKeys(rows, id);
    if i :| 0 <= i < |rows| && rows[i].0 == id { assert p.turns[i].id == id; }
    if j :| 0 <= j < |p.turns| && p.turns[j].id == id { assert rows[j].0 == id; }
  }

  /** A turn the file does not mention is left alone; the reconcile may number it anew if it is of the same session. */
  lemma OtherTurnsStay(db: Rows, p: ParsedSession, file: Path, now: int, id: Id)
    requires forall j | 0 <= j < |p.turns| :: p.turns[j].id != id
    ensures id in Upserted(db, p, file, now).turns <==> id in db.turns
    ensures id in Written(db, p, file, now).turns <==> id in db.turns
    ensures id in db.turns ==> var row := Written(db, p, file, now).turns[id];
      && Upserted(db, p, file, now).turns[id] == db.turns[id]
      && row == db.turns[id].(sequence := row.sequence) && (row.sessionId != p.id ==> row == db.turns[id])
  {
    TurnMapKeys(p, id);
    WrittenIsReconciled(db, p, file, now);
  }

  // ---------------------------------------------------------------- tool calls

  /** The k-th call of the i-th turn of the file. */
  predicate CallAt(p: ParsedSession, i: nat, k: nat) {
    i < |p.turns| && k < |p.turns[i].calls|
  }

  /** No later call of the file, in the same turn or another, has the id. */
  ghost predicate LastCall(p: ParsedSession, i: nat, k: nat, id: Id) {
    && CallAt(p, i, k) && p.turns[i].calls[k].id == id
    && forall j: nat, l: nat | CallAt(p, j, l) && (i < j || (i == j && k < l)) :: p.turns[j].calls[l].id != id
  }

  predicate RowOfCall(row: ToolCall, p: ParsedSession, i: nat, k: nat)
    requires CallAt(p, i, k)
  {
    var c := p.turns[i].calls[k];
    row.turnId == p.turns[i].id && row.name == c.name && row.path == c.path && row.isError == c.isError
    && row.json == c.json
  }

  ghost predicate MentionsCall(p: ParsedSession, id: Id) {
    exists i: nat, k: nat :: CallAt(p, i, k) && p.turns[i].calls[k].id == id
  }

  /** The calls of the first n turns. */
  function FirstTurns(p: ParsedSession, n: nat): ParsedSession
    requires n <= |p.turns|
  {
    p.(turns := p.turns[..n])
  }

  lemma CallsOfLastTurn(p: ParsedSession, id: Id)
    requires p.turns != []
    ensures var n := |p.turns| - 1;
      CallRows(p.turns) == CallRows(p.turns[..n]) + CallRowsOf(p.turns[n].id, p.turns[n].calls)
  {
  }

  lemma {:induction false} MapOfConcat<K, V>(a: seq<(K, V)>, b: seq<(K, V)>)
    ensures MapOf(a + b) == MapOf(a) + MapOf(b)
    decreases |b|
  {
    if b == [] {
      assert a + b == a;
    } else {
      var n := |b| - 1;
      MapOfConcat(a, b[..n]);
      assert (a + b)[..|a + b| - 1] == a + b[..n];
    }
  }

  lemma {:induction false} MapOfCall(p: ParsedSession, id: Id) returns (i: nat, k: nat)
    requires MentionsCall(p, id)
    ensures LastCall(p, i, k, id) && id in CallMap(p) && RowOfCall(CallMap(p)[id], p, i, k)
    decreases |p.turns|
  {
    var n := |p.turns| - 1;
    var t := p.turns[n];
    var rows := CallRowsOf(t.id, t.calls);
    MapOfConcat(CallRows(p.turns[..n]), rows);
    MapOfKeys(rows, id);
    if exists l | 0 <= l < |rows| :: rows[l].0 == id {
      i := n;
      k := LastPlace(rows, id);
      LastRowDecides(rows, k);
      forall l | k < l < |t.calls| ensures t.calls[l].id != id { assert rows[l].0 != id; }
    } else {
      var j: nat, l: nat :| CallAt(p, j, l) && p.turns[j].calls[l].id == id;
      forall l | 0 <= l < |t.calls| ensures t.calls[l].id != id { assert rows[l].0 != id; }
      var front := FirstTurns(p, n);
      assert CallAt(front, j, l) && front.turns[j].calls[l].id == id;
      i, k := MapOfCall(front, id);
      forall j: nat, l: nat | CallAt(p, j, l) && (i < j || (i == j && k < l))
        ensures p.turns[j].calls[l].id != id
      {
        if j < n { assert CallAt(front, j, l); } else { assert rows[l].0 != id; }
      }
    }
  }

  lemma {:induction false} MapOfNoCall(p: ParsedSession, id: Id)
    requires !MentionsCall(p, id)
    ensures id !in CallMap(p)
    decreases |p.turns|
  {
    if p.turns != [] {
      var n := |p.turns| - 1;
      var front, rows := FirstTurns(p, n), CallRowsOf(p.turns[n].id, p.turns[n].calls);
      MapOfConcat(CallRows(p.turns[..n]), rows);
      MapOfKeys(rows, id);
      forall l | 0 <= l < |rows| ensures rows[l].0 != id { assert CallAt(p, n, l); }
      forall i: nat, k: nat | CallAt(front, i, k) ensures front.turns[i].calls[k].id != id { assert CallAt(p, i, k); }
      MapOfNoCall(front, id);
    }
  }

  lemma WrittenKeepsCalls(db: Rows, p: ParsedSession, file: Path, now: int, reconciled: bool)
    ensures Stored(db, p, file, now, reconciled).toolCalls == db.toolCalls + CallMap(p)
    ensures Stored(db, p, file, now, reconciled).events == db.events + EventMap(p, file)
  {
    if reconciled { WrittenIsReconciled(db, p, file, now); }
  }

  /** Each tool-call id of the file has the columns of the last call with that id, and goes to the turn it stands in;
      all other calls stay. */
  lemma CallIsStored(db: Rows, p: ParsedSession, file: Path, now: int, reconciled: bool, id: Id)
    returns (i: nat, k: nat)
    ensures var after := Stored(db, p, file, now, reconciled).toolCalls;
      if MentionsCall(p, id) then LastCall(p, i, k, id) && id in after && RowOfCall(after[id], p, i, k)
      else (id in after <==> id in db.toolCalls) && (id in after ==> after[id] == db.toolCalls[id])
  {
    WrittenKeepsCalls(db, p, file, now, reconciled);
    if MentionsCall(p, id) {
      i, k := MapOfCall(p, id);
    } else {
      i, k := 0, 0;
      MapOfNoCall(p, id);
    }
  }

  // ---------------------------------------------------------------- events

  predicate LastEvent(p: ParsedSession, i: nat, n: nat) {
    && i < |p.events| && p.events[i].sequenceInFile == n
    && forall j | i < j < |p.events| :: p.events[j].sequenceInFile != n
  }

  /** An event is stored under its session, its file and its number; all other events stay. */
  lemma EventIsStored(db: Rows, p: ParsedSession, file: Path, now: int, reconciled: bool, key: EventKey)
    returns (i: nat)
    ensures var after := Stored(db, p, file, now, reconciled).events;
      if key.sessionId == p.id && key.sourceFile == file
         && exists j | 0 <= j < |p.events| :: p.events[j].sequenceInFile == key.sequenceInFile
      then LastEvent(p, i, key.sequenceInFile) && key in after && after[key] == p.events[i].data
      else (key in after <==> key in db.events) && (key in after ==> after[key] == db.events[key])
  {
    var rows := EventRows(p.id, file, p.events);
    WrittenKeepsCalls(db, p, file, now, reconciled);
    MapOfKeys(rows, key);
    i := 0;
    if exists j | 0 <= j < |rows| :: rows[j].0 == key {
      i := LastPlace(rows, key);
      LastRowDecides(rows, i);
      assert p.events[i].sequenceInFile == key.sequenceInFile;
      forall j | i < j < |p.events| ensures p.events[j].sequenceInFile != key.sequenceInFile {
        assert rows[j].0 != key;
      }
    } else {
      forall j | 0 <= j < |p.events| ensures EventKey(p.id, file, p.events[j].sequenceInFile) != key {
        assert rows[j].0 != key;
      }
    }
  }

  // ---------------------------------------------------------------- the session row

  /** The session row says which file wrote it last and when; until the reconcile it has the bounds and the number of
      turns of that file. No other session's row changes. */
  lemma SessionIsStored(db: Rows, p: ParsedSession, file: Path, now: int, reconciled: bool)
    ensures var after := Stored(db, p, file, now, reconciled).sessions;
      && after.Keys == db.sessions.Keys + {p.id}
      && (forall sid <- db.sessions :: sid != p.id ==> after[sid] == db.sessions[sid])
      && var s := after[p.id];
         && s.meta.descriptor == p.descriptor && s.meta.sourceFile == file && s.meta.ingestedAt == now
         && (!reconciled ==> s.startedAt == p.startedAt && s.endedAt == p.endedAt && s.turnCount == |p.turns|)
  {
    if reconciled { WrittenIsReconciled(db, p, file, now); }
  }

  predicate DistinctTurns(p: ParsedSession) {
    forall i, j | 0 <= i < j < |p.turns| :: p.turns[i].id != p.turns[j].id
  }

  ghost predicate DistinctCalls(p: ParsedSession) {
    forall i: nat, k: nat, j: nat, l: nat | CallAt(p, i, k) && CallAt(p, j, l) && (i, k) != (j, l) ::
      p.turns[i].calls[k].id != p.turns[j].calls[l].id
  }

  lemma TurnMapNext(p: ParsedSession)
    requires p.turns != []
    ensures var n := |p.turns| - 1;
      TurnMap(p) == TurnMap(FirstTurns(p, n))[p.turns[n].id := TurnRow(p.id, p.turns[n], n)]
  {
    var n := |p.turns| - 1;
    assert TurnRows(p.id, p.turns)[..n] == TurnRows(p.id, p.turns[..n]);
  }

  lemma TotalsNext(rows: map<Id, Turn>, id: Id, t: Turn)
    requires id !in rows
    ensures var (was, now) := (TotalsOf(rows), TotalsOf(rows[id := t]));
      now == Totals(was.input + t.usage.input, was.output + t.usage.output, was.cacheRead + t.usage.cacheRead,
                    was.cacheCreation + t.usage.cacheCreation, was.cost + t.cost)
  {
    SumInsert(rows, Input, id, t);
    SumInsert(rows, Output, id, t);
    SumInsert(rows, CacheRead, id, t);
    SumInsert(rows, CacheCreation, id, t);
    SumInsert(rows, Cost, id, t);
  }

  lemma {:induction false} FileTotalsAreRows(p: ParsedSession)
    requires DistinctTurns(p)
    ensures FileTotals(p.turns) == TotalsOf(TurnMap(p)) && |TurnMap(p)| == |p.turns|
    decreases |p.turns|
  {
    if p.turns != [] {
      var n := |p.turns| - 1;
      var front := FirstTurns(p, n);
      FileTotalsAreRows(front);
      TurnMapNext(p);
      TurnMapKeys(front, p.turns[n].id);
      TotalsNext(TurnMap(front), p.turns[n].id, TurnRow(p.id, p.turns[n], n));
    } else {
      assert TurnMap(p) == map[];
    }
  }

  lemma {:induction false} DistinctRowsSize<K, V>(rows: seq<(K, V)>)
    requires forall i, j | 0 <= i < j < |rows| :: rows[i].0 != rows[j].0
    ensures |MapOf(rows)| == |rows|
    decreases |rows|
  {
    if rows != [] {
      var n := |rows| - 1;
      DistinctRowsSize(rows[..n]);
      MapOfKeys(rows[..n], rows[n].0);
    }
  }

  lemma DisjointSize<K, V>(a: map<K, V>, b: map<K, V>)
    requires a.Keys !! b.Keys
    ensures |a + b| == |a| + |b|
  {
    assert (a + b).Keys == a.Keys + b.Keys;
    assert |a.Keys + b.Keys| == |a.Keys| + |b.Keys|;
  }

  /** The calls of the last turn are as many rows, none of which replaces one of an earlier turn. */
  lemma LastTurnsCalls(p: ParsedSession)
    requires p.turns != [] && DistinctCalls(p)
    ensures var n := |p.turns| - 1;
      var added := MapOf(CallRowsOf(p.turns[n].id, p.turns[n].calls));
      |added| == |p.turns[n].calls| && CallMap(FirstTurns(p, n)).Keys !! added.Keys
  {
    var n := |p.turns| - 1;
    var front, rows := FirstTurns(p, n), CallRowsOf(p.turns[n].id, p.turns[n].calls);
    forall i, j | 0 <= i < j < |rows| ensures rows[i].0 != rows[j].0 { assert CallAt(p, n, i) && CallAt(p, n, j); }
    DistinctRowsSize(rows);
    forall id <- MapOf(rows) ensures id !in CallMap(front) {
      MapOfKeys(rows, id);
      var l :| 0 <= l < |rows| && rows[l].0 == id;
      assert CallAt(p, n, l);
      forall i: nat, k: nat | CallAt(front, i, k) ensures front.turns[i].calls[k].id != id { assert CallAt(p, i, k); }
      MapOfNoCall(front, id);
    }
  }

  lemma {:induction false} CallsAreRows(p: ParsedSession)
    requires DistinctCalls(p)
    ensures |CallMap(p)| == FileCalls(p.turns)
    decreases |p.turns|
  {
    if p.turns != [] {
      var n := |p.turns| - 1;
      var t, front := p.turns[n], FirstTurns(p, n);
      var rows := CallRowsOf(t.id, t.calls);
      CallsInFront(p);
      CallsAreRows(front);
      LastTurnsCalls(p);
      MapOfConcat(CallRows(front.turns), rows);
      DisjointSize(CallMap(front), MapOf(rows));
    }
  }

  lemma CallsInFront(p: ParsedSession)
    requires p.turns != [] && DistinctCalls(p)
    ensures DistinctCalls(FirstTurns(p, |p.turns| - 1))
  {
    var front := FirstTurns(p, |p.turns| - 1);
    forall i: nat, k: nat, j: nat, l: nat | CallAt(front, i, k) && CallAt(front, j, l) && (i, k) != (j, l)
      ensures front.turns[i].calls[k].id != front.turns[j].calls[l].id
    {
      assert CallAt(p, i, k) && CallAt(p, j, l);
    }
  }

  lemma FreshSessionRows(db: Rows, p: ParsedSession, file: Path, now: int)
    requires ForeignKeys(db) && TurnIds(db.turns, p.id) == {} && forall id <- TurnMap(p) :: id !in db.turns
    requires forall c <- CallMap(p) :: c !in db.toolCalls
    ensures var mid := Upserted(db, p, file, now);
      TurnsOf(mid.turns, p.id) == TurnMap(p) && ToolCallsOf(mid.toolCalls, mid.turns, p.id) == CallMap(p).Keys
  {
    var mid := Upserted(db, p, file, now);
    FileRows(p);
    assert forall id <- db.turns :: db.turns[id].sessionId != p.id by {
      forall id <- db.turns ensures db.turns[id].sessionId != p.id { assert id !in TurnIds(db.turns, p.id); }
    }
    forall c <- mid.toolCalls
      ensures BelongsTo(mid.toolCalls[c], mid.turns, p.id) <==> c in CallMap(p)
    {
      if c !in CallMap(p) { assert db.toolCalls[c].turnId in db.turns; }
    }
  }

  /** For a new session that is wholly in one file, the sums and counts that ingest adds up in memory are those the
      reconcile then computes from the stored rows. */
  lemma InMemoryRollup(db: Rows, p: ParsedSession, file: Path, now: int)
    requires ForeignKeys(db) && DistinctTurns(p) && DistinctCalls(p)
    requires TurnIds(db.turns, p.id) == {} && forall id <- TurnMap(p) :: id !in db.turns
    requires forall c <- CallMap(p) :: c !in db.toolCalls
    ensures p.id in Upserted(db, p, file, now).sessions && p.id in Written(db, p, file, now).sessions
    ensures var (mid, after) := (Upserted(db, p, file, now).sessions[p.id], Written(db, p, file, now).sessions[p.id]);
      mid.totals == after.totals && mid.turnCount == after.turnCount && mid.toolCallCount == after.toolCallCount
  {
    FreshSessionRows(db, p, file, now);
    FileTotalsAreRows(p);
    CallsAreRows(p);
    WrittenIsReconciled(db, p, file, now);
  }

  // ---------------------------------------------------------------- the gate

  lemma ProcessedIsRecorded(db: Rows, e: FileEvent)
    requires OutcomeOf(db.files, e).Processed? && e.mtime.Some?
    ensures Ingested(db, e).files == db.files[e.path := FileRow(e.mtime.value, e.now)]
  {
  }

  /** A file whose mtime has been recorded is turned away, and changes nothing, as long as its mtime is not later; with
      a later one, or if it cannot be read, it is let through. */
  lemma RecordedIsGated(db: Rows, e: FileEvent, later: FileEvent)
    requires OutcomeOf(db.files, e).Processed? && e.mtime.Some? && later.path == e.path
    ensures var mid := Ingested(db, e);
      && (OutcomeOf(mid.files, later).SkippedUnchanged? <==>
            later.mtime.Some? && later.mtime.value <= e.mtime.value)
      && (OutcomeOf(mid.files, later).SkippedUnchanged? ==> Ingested(mid, later) == mid)
  {
    ProcessedIsRecorded(db, e);
  }

  /** What becomes of a file that is let through: an error if it does not parse or if anything it gets to throws, where
      an mtime that could not be read is not recorded. Unless its upserts throw, its rows are stored, but only a
      processed file is recorded. */
  lemma OutcomeByFault(db: Rows, e: FileEvent)
    requires !OutcomeOf(db.files, e).SkippedUnchanged?
    ensures OutcomeOf(db.files, e).Processed? <==>
      e.parsed.Some? && (e.fault == NoFault || (e.fault == InRecord && e.mtime == None))
    ensures OutcomeOf(db.files, e).Processed? || OutcomeOf(db.files, e).SkippedError?
    ensures !OutcomeOf(db.files, e).Processed? ==> Ingested(db, e).files == db.files
    ensures Ingested(db, e) ==
      if e.parsed.None? || e.fault == InTransaction then db
      else Stored(db, e.parsed.value, e.path, e.now, e.fault != InReconcile).(files := Ingested(db, e).files)
  {
    if e.parsed.Some? && e.fault != InTransaction {
      StoringKeepsRatings(db, e.parsed.value, e.path, e.now, !e.fault.InReconcile?);
    }
  }

  /** Whatever is offered under a path that has no record is let through. */
  lemma UnrecordedIsNotGated(db: Rows, e: FileEvent)
    requires e.path !in db.files
    ensures !OutcomeOf(db.files, e).SkippedUnchanged?
  {
  }

  /** A processed file was parsed, and its session and its turns are counted. */
  lemma ProcessedCounts(db: Rows, e: FileEvent)
    requires OutcomeOf(db.files, e).Processed?
    ensures e.parsed.Some?
    ensures var (o, p) := (OutcomeOf(db.files, e), e.parsed.value);
      o.sessionId == p.id && o.turns == |p.turns| && (DistinctCalls(p) ==> o.calls == |CallMap(p)|)
  {
    if DistinctCalls(e.parsed.value) { CallsAreRows(e.parsed.value); }
  }

  // ---------------------------------------------------------------- whole runs

  /** A stored turn comes from the database before the run, or from a file of the run. */
  ghost predicate Comes(db: Rows, es: seq<FileEvent>, id: Id, row: Turn) {
    || (id in db.turns && row == db.turns[id].(sequence := row.sequence))
    || exists k, i: nat :: FromFile(es, k, i, id, row)
  }

  predicate FromFile(es: seq<FileEvent>, k: int, i: nat, id: Id, row: Turn) {
    && 0 <= k < |es| && es[k].Accepted().Some? && LastTurn(es[k].Accepted().value, i, id)
    && ColumnsOfTurn(row, es[k].Accepted().value, i)
  }

  lemma StoredTurnComes(db: Rows, p: ParsedSession, file: Path, now: int, reconciled: bool, id: Id) returns (i: nat)
    requires id in Stored(db, p, file, now, reconciled).turns
    ensures var row := Stored(db, p, file, now, reconciled).turns[id];
      || (id in db.turns && row == db.turns[id].(sequence := row.sequence))
      || (LastTurn(p, i, id) && ColumnsOfTurn(row, p, i))
  {
    i := 0;
    if exists j | 0 <= j < |p.turns| :: p.turns[j].id == id {
      i := TurnIsStored(db, p, file, now, id);
    } else {
      OtherTurnsStay(db, p, file, now, id);
    }
  }

  lemma ComesNext(db: Rows, es: seq<FileEvent>, e: FileEvent, id: Id, was: Turn, row: Turn)
    requires Comes(db, es, id, was) && row == was.(sequence := row.sequence)
    ensures Comes(db, es + [e], id, row)
  {
    if k, i: nat :| FromFile(es, k, i, id, was) { assert FromFile(es + [e], k, i, id, row); }
  }

  lemma IngestedTurnComes(db: Rows, es: seq<FileEvent>, mid: Rows, e: FileEvent, id: Id)
    requires id in Ingested(mid, e).turns
    requires id in mid.turns ==> Comes(db, es, id, mid.turns[id])
    ensures Comes(db, es + [e], id, Ingested(mid, e).turns[id])
  {
    var row := Ingested(mid, e).turns[id];
    if Passes(mid.files, e) {
      var p := e.Accepted().value;
      var i := StoredTurnComes(mid, p, e.path, e.now, !e.fault.InReconcile?, id);
      if LastTurn(p, i, id) && ColumnsOfTurn(row, p, i) {
        assert FromFile(es + [e], |es|, i, id, row);
      } else {
        ComesNext(db, es, e, id, mid.turns[id], row);
      }
    } else {
      ComesNext(db, es, e, id, row, row);
    }
  }

  /** After any run every stored turn has the columns it had before, or those of a turn in a file of the run. */
  lemma {:induction false} RunStoresFiles(db: Rows, es: seq<FileEvent>, id: Id)
    requires id in IngestedAll(db, es).turns
    ensures Comes(db, es, id, IngestedAll(db, es).turns[id])
    decreases |es|
  {
    if es != [] {
      var front, e := es[..|es| - 1], es[|es| - 1];
      var mid := IngestedAll(db, front);
      assert es == front + [e];
      if id in mid.turns { RunStoresFiles(db, front, id); }
      IngestedTurnComes(db, front, mid, e, id);
    }
  }
}
