/** Writing parsed transcript files: the upserts, the reconcile that follows them, and the mtime gate. */
module Writer {
  import opened Options
  import opened Tables
  import opened Pricing
  import Reconcile

  // ---------------------------------------------------------------- parsed files

  datatype ParsedCall = ParsedCall(id: Id, name: ToolName, path: Option<Path>, isError: bool, json: int)

  datatype ParsedTurn = ParsedTurn(id: Id, sequence: Option<int>, timestamp: int, model: Model, usage: Usage,
                                   tier: Tier, text: int, calls: seq<ParsedCall>)

  datatype ParsedEvent = ParsedEvent(sequenceInFile: nat, data: int)

  datatype ParsedSession = ParsedSession(id: Id, descriptor: int, startedAt: int, endedAt: int,
                                         turns: seq<ParsedTurn>, events: seq<ParsedEvent>)

  /** The row a parsed turn becomes; a turn the parser left unnumbered takes its place in the file. */
  function TurnRow(sid: Id, t: ParsedTurn, idx: nat): Turn {
    Turn(sid, if t.sequence.Some? then t.sequence.value else idx, t.timestamp, t.model, t.usage, t.tier,
         IngestCost(t.model, t.usage, t.tier), t.text)
  }

  function CallRow(turnId: Id, c: ParsedCall): ToolCall {
    ToolCall(turnId, c.name, c.path, c.isError, c.json)
  }

  /** Rows upserted one after another: a later row with the same key replaces an earlier one. */
  function MapOf<K, V>(rows: seq<(K, V)>): map<K, V>
    decreases |rows|
  {
    if rows == [] then map[]
    else MapOf(rows[..|rows| - 1])[rows[|rows| - 1].0 := rows[|rows| - 1].1]
  }

  lemma {:induction false} MapOfHolds<K, V>(rows: seq<(K, V)>, k: K)
    ensures k in MapOf(rows) ==> (k, MapOf(rows)[k]) in rows
    ensures k !in MapOf(rows) ==> forall i | 0 <= i < |rows| :: rows[i].0 != k
    decreases |rows|
  {
    if rows != [] { MapOfHolds(rows[..|rows| - 1], k); }
  }

  lemma MapOfStep<K, V>(rows: seq<(K, V)>, i: nat)
    requires i < |rows|
    ensures MapOf(rows[..i + 1]) == MapOf(rows[..i])[rows[i].0 := rows[i].1]
  {
    assert rows[..i + 1][..i] == rows[..i];
  }

  function TurnRows(sid: Id, ts: seq<ParsedTurn>): (rows: seq<(Id, Turn)>)
    ensures |rows| == |ts| && forall i | 0 <= i < |ts| :: rows[i] == (ts[i].id, TurnRow(sid, ts[i], i))
  {
    seq(|ts|, i requires 0 <= i < |ts| => (ts[i].id, TurnRow(sid, ts[i], i)))
  }

  function CallRowsOf(turnId: Id, cs: seq<ParsedCall>): (rows: seq<(Id, ToolCall)>)
    ensures |rows| == |cs| && forall i | 0 <= i < |cs| :: rows[i] == (cs[i].id, CallRow(turnId, cs[i]))
  {
    seq(|cs|, i requires 0 <= i < |cs| => (cs[i].id, CallRow(turnId, cs[i])))
  }

  function CallRows(ts: seq<ParsedTurn>): seq<(Id, ToolCall)>
    decreases |ts|
  {
    if ts == [] then []
    else CallRows(ts[..|ts| - 1]) + CallRowsOf(ts[|ts| - 1].id, ts[|ts| - 1].calls)
  }

  function EventRows(sid: Id, file: Path, es: seq<ParsedEvent>): (rows: seq<(EventKey, int)>)
    ensures |rows| == |es|
  {
    seq(|es|, i requires 0 <= i < |es| => (EventKey(sid, file, es[i].sequenceInFile), es[i].data))
  }

  function TurnMap(p: ParsedSession): map<Id, Turn> {
    MapOf(TurnRows(p.id, p.turns))
  }

  function CallMap(p: ParsedSession): map<Id, ToolCall> {
    MapOf(CallRows(p.turns))
  }

  function EventMap(p: ParsedSession, file: Path): map<EventKey, int> {
    MapOf(EventRows(p.id, file, p.events))
  }

  function AddTurn(sum: Totals, t: ParsedTurn): Totals {
    Totals(sum.input + t.usage.input, sum.output + t.usage.output, sum.cacheRead + t.usage.cacheRead,
           sum.cacheCreation + t.usage.cacheCreation, sum.cost + IngestCost(t.model, t.usage, t.tier))
  }

  function FileTotals(ts: seq<ParsedTurn>): Totals
    decreases |ts|
  {
    if ts == [] then Totals(0, 0, 0, 0, 0) else AddTurn(FileTotals(ts[..|ts| - 1]), ts[|ts| - 1])
  }

  function FileCalls(ts: seq<ParsedTurn>): nat
    decreases |ts|
  {
    if ts == [] then 0 else FileCalls(ts[..|ts| - 1]) + |ts[|ts| - 1].calls|
  }

  function SessionRow(p: ParsedSession, file: Path, now: int): Session {
    Session(Meta(p.descriptor, file, now), p.startedAt, p.endedAt, FileTotals(p.turns), |p.turns|, FileCalls(p.turns))
  }

  // ---------------------------------------------------------------- writeSession

  /** The database after the upsert transaction. */
  function Upserted(db: Rows, p: ParsedSession, file: Path, now: int): Rows {
    db.(sessions := db.sessions[p.id := SessionRow(p, file, now)],
        turns := db.turns + TurnMap(p),
        toolCalls := db.toolCalls + CallMap(p),
        events := db.events + EventMap(p, file))
  }

  /** The database after the session has been reconciled as well. */
  ghost function Written(db: Rows, p: ParsedSession, file: Path, now: int): Rows {
    Reconcile.One(Upserted(db, p, file, now), p.id)
  }

  /** Where writing a file throws, if anywhere. The upserts and the reconcile are a transaction each. */
  datatype Fault = NoFault | InTransaction | InReconcile | InOtelUpdate | InRecord

  /** The database once the upserts are committed; a reconcile that throws is rolled back and leaves it at that. */
  ghost function Stored(db: Rows, p: ParsedSession, file: Path, now: int, reconciled: bool): Rows {
    if reconciled then Written(db, p, file, now) else Upserted(db, p, file, now)
  }

  /** The pass over the parsed turns: one row a turn, and the totals of this file. */
  method PrepareTurns(p: ParsedSession) returns (rows: seq<(Id, Turn)>, sum: Totals, calls: nat)
    ensures rows == TurnRows(p.id, p.turns) && sum == FileTotals(p.turns) && calls == FileCalls(p.turns)
  {
    rows, sum, calls := [], Totals(0, 0, 0, 0, 0), 0;
    for i := 0 to |p.turns|
      invariant sum == FileTotals(p.turns[..i]) && calls == FileCalls(p.turns[..i])
      invariant rows == TurnRows(p.id, p.turns)[..i]
    {
      assert p.turns[..i + 1][..i] == p.turns[..i];
      sum, calls := AddTurn(sum, p.turns[i]), calls + |p.turns[i].calls|;
      rows := rows + [(p.turns[i].id, TurnRow(p.id, p.turns[i], i))];
    }
    assert p.turns[..|p.turns|] == p.turns;
  }

  /** The pass over the tool calls of every turn. */
  method PrepareCalls(ts: seq<ParsedTurn>) returns (rows: seq<(Id, ToolCall)>)
    ensures rows == CallRows(ts)
  {
    rows := [];
    for i := 0 to |ts|
      invariant rows == CallRows(ts[..i])
    {
      var turnId, calls := ts[i].id, ts[i].calls;
      for j := 0 to |calls|
        invariant rows == CallRows(ts[..i]) + CallRowsOf(turnId, calls)[..j]
      {
        rows := rows + [(calls[j].id, CallRow(turnId, calls[j]))];
      }
      assert ts[..i + 1][..i] == ts[..i];
    }
    assert ts[..|ts|] == ts;
  }

  method InsertTurns(db: Database, rows: seq<(Id, Turn)>)
    modifies db`turns
    ensures db.turns == old(db.turns) + MapOf(rows)
  {
    for i := 0 to |rows|
      invariant db.turns == old(db.turns) + MapOf(rows[..i])
    {
      MapOfStep(rows, i);
      db.turns := db.turns[rows[i].0 := rows[i].1];
    }
    assert rows[..|rows|] == rows;
  }

  method InsertToolCalls(db: Database, rows: seq<(Id, ToolCall)>)
    modifies db`toolCalls
    ensures db.toolCalls == old(db.toolCalls) + MapOf(rows)
  {
    for i := 0 to |rows|
      invariant db.toolCalls == old(db.toolCalls) + MapOf(rows[..i])
    {
      MapOfStep(rows, i);
      db.toolCalls := db.toolCalls[rows[i].0 := rows[i].1];
    }
    assert rows[..|rows|] == rows;
  }

  method InsertEvents(db: Database, sid: Id, file: Path, es: seq<ParsedEvent>)
    modifies db`events
    ensures db.events == old(db.events) + MapOf(EventRows(sid, file, es))
  {
    ghost var rows := EventRows(sid, file, es);
    for i := 0 to |es|
      invariant db.events == old(db.events) + MapOf(rows[..i])
    {
      MapOfStep(rows, i);
      db.events := db.events[EventKey(sid, file, es[i].sequenceInFile) := es[i].data];
    }
    assert rows[..|es|] == rows;
  }

  /** The upserts are one transaction, the reconcile after its commit is another; each is rolled back if it throws. */
  method WriteSession(db: Database, p: ParsedSession, file: Path, now: int, fault: Fault) returns (ok: bool)
    modifies db
    ensures ok <==> fault.NoFault? || fault.InRecord?
    ensures db.Snapshot() ==
            if fault.InTransaction? then old(db.Snapshot())
            else Stored(old(db.Snapshot()), p, file, now, !fault.InReconcile?)
  {
    var saved := db.Snapshot();
    var turnRows, sum, calls := PrepareTurns(p);
    var callRows := PrepareCalls(p.turns);
    db.sessions := db.sessions[p.id := Session(Meta(p.descriptor, file, now), p.startedAt, p.endedAt,
                                               sum, |p.turns|, calls)];
    InsertTurns(db, turnRows);
    InsertToolCalls(db, callRows);
    InsertEvents(db, p.id, file, p.events);
    var committed := db.Snapshot();
    assert committed == Upserted(saved, p, file, now);
    if fault.InTransaction? {
      db.Restore(saved);
      return false;
    }
    Reconcile.ReconcileSession(db, p.id);
    if fault.InReconcile? {
      db.Restore(committed);
      return false;
    }
    return !fault.InOtelUpdate?;
  }

  // ---------------------------------------------------------------- ingestSingleFile and ingestAll

  /**
   * A file offered for ingest: its mtime if it could be read, what the parser made of it, and where writing it
   * throws.
   */
  datatype FileEvent = FileEvent(path: Path, mtime: Option<int>, parsed: Option<ParsedSession>, fault: Fault,
                                 now: int) {
    /** The session whose rows end up stored, if the file gets past the gate. */
    function Accepted(): Option<ParsedSession> {
      if fault.InTransaction? then None else parsed
    }

    /** Nothing throws; the mtime is recorded only if it could be read. */
    predicate Completes() {
      parsed.Some? && (fault.NoFault? || (fault.InRecord? && mtime.None?))
    }
  }

  datatype Outcome = Processed(sessionId: Id, turns: nat, calls: nat) | SkippedUnchanged | SkippedError

  predicate Unchanged(files: map<Path, FileRow>, e: FileEvent) {
    e.mtime.Some? && e.path in files && e.mtime.value <= files[e.path].mtime
  }

  function FilesAfter(files: map<Path, FileRow>, e: FileEvent): map<Path, FileRow> {
    if e.mtime.Some? && e.Completes() then files[e.path := FileRow(e.mtime.value, e.now)] else files
  }

  ghost function Ingested(db: Rows, e: FileEvent): Rows {
    if Unchanged(db.files, e) || e.Accepted().None? then db
    else Stored(db, e.Accepted().value, e.path, e.now, !e.fault.InReconcile?).(files := FilesAfter(db.files, e))
  }

  ghost function IngestedAll(db: Rows, es: seq<FileEvent>): Rows
    decreases |es|
  {
    if es == [] then db else Ingested(IngestedAll(db, es[..|es| - 1]), es[|es| - 1])
  }

  function OutcomeOf(files: map<Path, FileRow>, e: FileEvent): Outcome {
    if Unchanged(files, e) then SkippedUnchanged
    else if !e.Completes() then SkippedError
    else Processed(e.parsed.value.id, |e.parsed.value.turns|, FileCalls(e.parsed.value.turns))
  }

  method CountCalls(ts: seq<ParsedTurn>) returns (calls: nat)
    ensures calls == FileCalls(ts)
  {
    calls := 0;
    for i := 0 to |ts|
      invariant calls == FileCalls(ts[..i])
    {
      assert ts[..i + 1][..i] == ts[..i];
      calls := calls + |ts[i].calls|;
    }
    assert ts[..|ts|] == ts;
  }

  method IngestSingleFile(db: Database, e: FileEvent) returns (o: Outcome)
    modifies db
    ensures db.Snapshot() == Ingested(old(db.Snapshot()), e)
    ensures o == OutcomeOf(old(db.files), e)
  {
    if e.mtime.Some? && e.path in db.files && e.mtime.value <= db.files[e.path].mtime {
      return SkippedUnchanged;
    }
    if e.parsed.None? { return SkippedError; }
    var ok := WriteSession(db, e.parsed.value, e.path, e.now, e.fault);
    if !ok { return SkippedError; }
    if e.mtime.Some? {
      if e.fault.InRecord? { return SkippedError; }
      db.files := db.files[e.path := FileRow(e.mtime.value, e.now)];
    }
    var calls := CountCalls(e.parsed.value.turns);
    o := Processed(e.parsed.value.id, |e.parsed.value.turns|, calls);
  }

  datatype Summary = Summary(processed: nat, errors: nat, untouched: nat, turnsUpserted: nat, callsUpserted: nat)

  function CountOutcome(s: Summary, o: Outcome): Summary {
    match o
    case SkippedUnchanged => s.(untouched := s.untouched + 1)
    case SkippedError => s.(errors := s.errors + 1)
    case Processed(_, turns, calls) =>
      s.(processed := s.processed + 1, turnsUpserted := s.turnsUpserted + turns,
         callsUpserted := s.callsUpserted + calls)
  }

  /** The counters of a run: the outcome of each file is that of the database the files before it leave. */
  ghost function SummaryAll(db: Rows, es: seq<FileEvent>): Summary
    decreases |es|
  {
    if es == [] then Summary(0, 0, 0, 0, 0)
    else
      var front := es[..|es| - 1];
      CountOutcome(SummaryAll(db, front), OutcomeOf(IngestedAll(db, front).files, es[|es| - 1]))
  }

  lemma SummaryNext(db: Rows, es: seq<FileEvent>, i: nat)
    requires i < |es|
    ensures IngestedAll(db, es[..i + 1]) == Ingested(IngestedAll(db, es[..i]), es[i])
    ensures SummaryAll(db, es[..i + 1]) ==
            CountOutcome(SummaryAll(db, es[..i]), OutcomeOf(IngestedAll(db, es[..i]).files, es[i]))
  {
    assert es[..i + 1][..i] == es[..i];
  }

  /** The per-file loop. */
  method IngestAll(db: Database, es: seq<FileEvent>) returns (s: Summary)
    modifies db
    ensures db.Snapshot() == IngestedAll(old(db.Snapshot()), es)
    ensures s == SummaryAll(old(db.Snapshot()), es)
  {
    ghost var was := db.Snapshot();
    s := Summary(0, 0, 0, 0, 0);
    for i := 0 to |es|
      invariant db.Snapshot() == IngestedAll(was, es[..i]) && s == SummaryAll(was, es[..i])
    {
      SummaryNext(was, es, i);
      var o := IngestSingleFile(db, es[i]);
      s := CountOutcome(s, o);
    }
    assert es[..|es|] == es;
  }
}
