/** Ingest is independent of the order and the repetition of files, and skipping files whose mtime has not
    advanced cannot be seen, as long as equal keys carry equal content. */
module Confluence {
  import opened Options
  import opened Tables
  import opened Writer
  import opened IngestLaws
  import opened IngestRuns
  import opened Overlays
  import Reconcile
  import ReconcileSql

  // ---------------------------------------------------------------- contents

  /** Turns without the sequence numbers that reconciling derives. */
  function Plain(turns: map<Id, Turn>): map<Id, Turn> {
    map id | id in turns :: turns[id].(sequence := 0)
  }

  /** One file stored without looking at its mtime; its reconcile may have thrown. */
  datatype FileWrite = FileWrite(file: Path, parsed: ParsedSession, now: int, reconciled: bool)

  ghost function WriteOf(db: Rows, w: FileWrite): Rows {
    Stored(db, w.parsed, w.file, w.now, w.reconciled)
  }

  ghost function WrittenAll(db: Rows, ws: seq<FileWrite>): Rows
    decreases |ws|
  {
    if ws == [] then db
    else WriteOf(WrittenAll(db, ws[..|ws| - 1]), ws[|ws| - 1])
  }

  function TurnLayers(ws: seq<FileWrite>): (ms: seq<map<Id, Turn>>)
    ensures |ms| == |ws| && forall i | 0 <= i < |ws| :: ms[i] == Plain(TurnMap(ws[i].parsed))
  {
    seq(|ws|, i requires 0 <= i < |ws| => Plain(TurnMap(ws[i].parsed)))
  }

  function CallLayers(ws: seq<FileWrite>): (ms: seq<map<Id, ToolCall>>)
    ensures |ms| == |ws| && forall i | 0 <= i < |ws| :: ms[i] == CallMap(ws[i].parsed)
  {
    seq(|ws|, i requires 0 <= i < |ws| => CallMap(ws[i].parsed))
  }

  function EventLayers(ws: seq<FileWrite>): (ms: seq<map<EventKey, int>>)
    ensures |ms| == |ws| && forall i | 0 <= i < |ws| :: ms[i] == EventMap(ws[i].parsed, ws[i].file)
  {
    seq(|ws|, i requires 0 <= i < |ws| => EventMap(ws[i].parsed, ws[i].file))
  }

  function SessionLayers(ws: seq<FileWrite>): (ms: seq<map<Id, bool>>)
    ensures |ms| == |ws| && forall i | 0 <= i < |ws| :: ms[i] == map[ws[i].parsed.id := true]
  {
    seq(|ws|, i requires 0 <= i < |ws| => map[ws[i].parsed.id := true])
  }

  function Present(sessions: map<Id, Session>): map<Id, bool> {
    map sid | sid in sessions :: true
  }

  lemma PlainUpsert(a: map<Id, Turn>, b: map<Id, Turn>)
    ensures Plain(a + b) == Plain(a) + Plain(b)
  {
  }

  lemma PlainResequenced(turns: map<Id, Turn>, sids: set<Id>)
    ensures Plain(Reconcile.Resequenced(turns, sids)) == Plain(turns)
  {
  }

  lemma WrittenTurns(db: Rows, w: FileWrite)
    ensures Plain(WriteOf(db, w).turns) == Plain(db.turns) + Plain(TurnMap(w.parsed))
  {
    if w.reconciled {
      WrittenIsReconciled(db, w.parsed, w.file, w.now);
      PlainResequenced(Upserted(db, w.parsed, w.file, w.now).turns, {w.parsed.id});
    }
    PlainUpsert(db.turns, TurnMap(w.parsed));
  }

  lemma PresentUpsert(sessions: map<Id, Session>, sid: Id, row: Session)
    ensures Present(sessions[sid := row]) == Present(sessions) + map[sid := true]
  {
  }

  lemma PresentSameKeys(a: map<Id, Session>, b: map<Id, Session>)
    requires a.Keys == b.Keys
    ensures Present(a) == Present(b)
  {
  }

  lemma ReconciledOthers(db: Rows, sids: set<Id>)
    ensures var after := Reconcile.Reconciled(db, sids);
      after.toolCalls == db.toolCalls && after.events == db.events && after.sessions.Keys == db.sessions.Keys
  {
  }

  lemma WrittenOthers(db: Rows, w: FileWrite)
    ensures WriteOf(db, w).toolCalls == db.toolCalls + CallMap(w.parsed)
    ensures WriteOf(db, w).events == db.events + EventMap(w.parsed, w.file)
    ensures Present(WriteOf(db, w).sessions) == Present(db.sessions) + map[w.parsed.id := true]
  {
    if w.reconciled {
      var mid := Upserted(db, w.parsed, w.file, w.now);
      WrittenIsReconciled(db, w.parsed, w.file, w.now);
      ReconciledOthers(mid, {w.parsed.id});
      PresentSameKeys(Reconcile.Reconciled(mid, {w.parsed.id}).sessions, mid.sessions);
    }
    PresentUpsert(db.sessions, w.parsed.id, SessionRow(w.parsed, w.file, w.now));
  }

  /** A run of writes lays each file's rows over the tables. */
  ghost predicate Layered(db: Rows, after: Rows, ws: seq<FileWrite>) {
    && Plain(after.turns) == Overlay(Plain(db.turns), TurnLayers(ws))
    && after.toolCalls == Overlay(db.toolCalls, CallLayers(ws))
    && after.events == Overlay(db.events, EventLayers(ws))
    && Present(after.sessions) == Overlay(Present(db.sessions), SessionLayers(ws))
  }

  lemma LayersStep(ws: seq<FileWrite>, n: nat)
    requires |ws| == n + 1
    ensures TurnLayers(ws) == TurnLayers(ws[..n]) + [Plain(TurnMap(ws[n].parsed))]
    ensures CallLayers(ws) == CallLayers(ws[..n]) + [CallMap(ws[n].parsed)]
    ensures EventLayers(ws) == EventLayers(ws[..n]) + [EventMap(ws[n].parsed, ws[n].file)]
    ensures SessionLayers(ws) == SessionLayers(ws[..n]) + [map[ws[n].parsed.id := true]]
  {
  }

  lemma {:induction false} WrittenAllLayered(db: Rows, ws: seq<FileWrite>)
    ensures Layered(db, WrittenAll(db, ws), ws)
    decreases |ws|
  {
    if ws != [] {
      var n := |ws| - 1;
      var front, w := ws[..n], ws[n];
      WrittenAllLayered(db, front);
      WrittenTurns(WrittenAll(db, front), w);
      WrittenOthers(WrittenAll(db, front), w);
      LayersStep(ws, n);
      OverlayOne(Plain(db.turns), TurnLayers(front), Plain(TurnMap(w.parsed)));
      OverlayOne(db.toolCalls, CallLayers(front), CallMap(w.parsed));
      OverlayOne(db.events, EventLayers(front), EventMap(w.parsed, w.file));
      OverlayOne(Present(db.sessions), SessionLayers(front), map[w.parsed.id := true]);
    }
  }

  // ---------------------------------------------------------------- files that agree

  /** Equal turn ids, tool-call ids and event keys carry equal content in the two files. */
  ghost predicate Agree(w: FileWrite, v: FileWrite) {
    && Compatible(Plain(TurnMap(w.parsed)), Plain(TurnMap(v.parsed)))
    && Compatible(CallMap(w.parsed), CallMap(v.parsed))
    && Compatible(EventMap(w.parsed, w.file), EventMap(v.parsed, v.file))
  }

  ghost predicate AgreeAll(ws: seq<FileWrite>) {
    forall i, j | 0 <= i < |ws| && 0 <= j < |ws| :: Agree(ws[i], ws[j])
  }

  lemma AgreeDisjoint(w: FileWrite, v: FileWrite)
    requires Agree(w, v)
    ensures Disjoint(w.parsed, v.parsed)
  {
    var p, q := w.parsed, v.parsed;
    FileRows(p);
    FileRows(q);
    forall id | id in TurnMap(p) && id in TurnMap(q)
      ensures p.id == q.id
    {
      assert Plain(TurnMap(p))[id] == Plain(TurnMap(q))[id];
    }
    forall c | c in CallMap(p) && c in CallMap(q)
      ensures p.id == q.id
    {
      var id := CallMap(p)[c].turnId;
      assert id in TurnMap(p) && id in TurnMap(q);
      assert Plain(TurnMap(p))[id] == Plain(TurnMap(q))[id];
    }
  }

  function AsEvent(w: FileWrite): FileEvent {
    FileEvent(w.file, None, Some(w.parsed), if w.reconciled then NoFault else InReconcile, w.now)
  }

  function AsEvents(ws: seq<FileWrite>): (es: seq<FileEvent>)
    ensures |es| == |ws| && forall i | 0 <= i < |ws| :: es[i] == AsEvent(ws[i])
  {
    seq(|ws|, i requires 0 <= i < |ws| => AsEvent(ws[i]))
  }

  /** The sessions whose last file in the list lost its reconcile. */
  function Dirty(ws: seq<FileWrite>): set<Id>
    decreases |ws|
  {
    if ws == [] then {} else UnsettledBy(Dirty(ws[..|ws| - 1]), ws[|ws| - 1].parsed.id, ws[|ws| - 1].reconciled)
  }

  lemma StoredAsEvent(db: Rows, w: FileWrite)
    ensures Ingested(db, AsEvent(w)) == WriteOf(db, w) && Passes(db.files, AsEvent(w))
  {
    StoringKeepsRatings(db, w.parsed, w.file, w.now, w.reconciled);
  }

  /** Storing files without looking at mtimes is a run whose mtimes could not be read. */
  lemma {:induction false} WrittenAllIsRun(db: Rows, ws: seq<FileWrite>)
    ensures IngestedAll(db, AsEvents(ws)) == WrittenAll(db, ws)
    ensures Unsettled(db, {}, AsEvents(ws)) == Dirty(ws)
    decreases |ws|
  {
    if ws != [] {
      var n := |ws| - 1;
      WrittenAllIsRun(db, ws[..n]);
      assert AsEvents(ws)[..n] == AsEvents(ws[..n]);
      StoredAsEvent(WrittenAll(db, ws[..n]), ws[n]);
    }
  }

  /** Every file of the run may be stored in the database: it takes nothing that is stored elsewhere. */
  ghost predicate Admissible(db: Rows, ws: seq<FileWrite>) {
    && ForeignKeys(db) && Consistent(db) && AgreeAll(ws)
    && forall i | 0 <= i < |ws| :: Unclaimed(db, ws[i].parsed)
  }

  lemma AdmissibleIsClaimedOnce(db: Rows, ws: seq<FileWrite>)
    requires Admissible(db, ws)
    ensures ClaimedOnce(db, AsEvents(ws))
  {
    var es := AsEvents(ws);
    forall i, j | 0 <= i < j < |es|
      ensures Disjoint(es[i].Accepted().value, es[j].Accepted().value)
    {
      AgreeDisjoint(ws[i], ws[j]);
    }
  }

  lemma WritesKeepInvariant(db: Rows, ws: seq<FileWrite>)
    requires Admissible(db, ws)
    ensures ForeignKeys(WrittenAll(db, ws)) && ConsistentBut(WrittenAll(db, ws), Dirty(ws))
  {
    WrittenAllIsRun(db, ws);
    AdmissibleIsClaimedOnce(db, ws);
    RunKeepsInvariant(db, {}, AsEvents(ws));
  }

  // ---------------------------------------------------------------- contents determine what is derived

  /** Equal but for last-writer columns: of a session without turns, its stored bounds are such columns too. */
  predicate SameDerived(s: Session, t: Session) {
    && s.totals == t.totals && s.turnCount == t.turnCount && s.toolCallCount == t.toolCallCount
    && (s.turnCount > 0 ==> s.startedAt == t.startedAt && s.endedAt == t.endedAt)
  }

  /** The same turns, tool calls, events and sessions; and but for these sessions, the same sequences and rollups. */
  ghost predicate SameView(a: Rows, b: Rows, but: set<Id>) {
    && Plain(a.turns) == Plain(b.turns) && a.toolCalls == b.toolCalls && a.events == b.events
    && a.sessions.Keys == b.sessions.Keys
    && (forall id <- a.turns :: a.turns[id].sessionId in but || SameTurn(a.turns, b.turns, id))
    && (forall sid <- a.sessions :: sid in but || SameDerived(a.sessions[sid], b.sessions[sid]))
  }

  predicate SameTurn(a: map<Id, Turn>, b: map<Id, Turn>, id: Id)
    requires id in a
  {
    id in b && a[id] == b[id]
  }

  /** Without exceptions: equal tables of turns. */
  lemma SameViewSameTurns(a: Rows, b: Rows)
    requires SameView(a, b, {})
    ensures a.turns == b.turns
  {
    assert a.turns.Keys == Plain(a.turns).Keys == Plain(b.turns).Keys == b.turns.Keys;
    assert forall id <- a.turns :: SameTurn(a.turns, b.turns, id);
  }

  lemma PlainIsAllButSequence(a: map<Id, Turn>, b: map<Id, Turn>)
    requires Plain(a) == Plain(b)
    ensures a.Keys == b.Keys && forall id <- a :: a[id] == b[id].(sequence := a[id].sequence)
  {
    assert a.Keys == Plain(a).Keys == Plain(b).Keys == b.Keys;
    forall id <- a
      ensures a[id] == b[id].(sequence := a[id].sequence)
    {
      assert Plain(a)[id] == Plain(b)[id];
    }
  }

  lemma PlainDeterminesTurns(a: Rows, b: Rows, dirty: set<Id>)
    requires Plain(a.turns) == Plain(b.turns) && ConsistentBut(a, dirty) && ConsistentBut(b, dirty)
    ensures forall id <- a.turns :: a.turns[id].sessionId in dirty || SameTurn(a.turns, b.turns, id)
  {
    PlainIsAllButSequence(a.turns, b.turns);
    ReconcileSql.RankSameOrder(a.turns, b.turns);
  }

  lemma SameRowsSameDerived(a: Rows, b: Rows, sid: Id)
    requires sid in a.sessions && sid in b.sessions
    requires TurnsOf(a.turns, sid) == TurnsOf(b.turns, sid)
    requires ToolCallsOf(a.toolCalls, a.turns, sid) == ToolCallsOf(b.toolCalls, b.turns, sid)
    requires a.sessions[sid] == RollupOf(a, sid) && b.sessions[sid] == RollupOf(b, sid)
    ensures SameDerived(a.sessions[sid], b.sessions[sid])
  {
  }

  lemma SettledRowsSame(a: Rows, b: Rows, dirty: set<Id>, sid: Id)
    requires Plain(a.turns) == Plain(b.turns) && a.toolCalls == b.toolCalls && sid !in dirty
    requires forall id <- a.turns :: a.turns[id].sessionId in dirty || SameTurn(a.turns, b.turns, id)
    ensures TurnsOf(a.turns, sid) == TurnsOf(b.turns, sid)
    ensures ToolCallsOf(a.toolCalls, a.turns, sid) == ToolCallsOf(b.toolCalls, b.turns, sid)
  {
    PlainIsAllButSequence(a.turns, b.turns);
    assert forall id <- a.turns :: a.turns[id].sessionId == sid ==> SameTurn(a.turns, b.turns, id);
  }

  lemma ContentsDetermineView(a: Rows, b: Rows, dirty: set<Id>)
    requires ConsistentBut(a, dirty) && ConsistentBut(b, dirty)
    requires Plain(a.turns) == Plain(b.turns) && a.toolCalls == b.toolCalls && a.events == b.events
    requires Present(a.sessions) == Present(b.sessions)
    ensures SameView(a, b, dirty)
  {
    PlainDeterminesTurns(a, b, dirty);
    assert a.sessions.Keys == Present(a.sessions).Keys == Present(b.sessions).Keys == b.sessions.Keys;
    forall sid <- a.sessions
      ensures sid in dirty || SameDerived(a.sessions[sid], b.sessions[sid])
    {
      if sid !in dirty {
        SettledRowsSame(a, b, dirty, sid);
        SameRowsSameDerived(a, b, sid);
      }
    }
  }

  lemma DirtierIsWeaker(db: Rows, few: set<Id>, many: set<Id>)
    requires ConsistentBut(db, few) && few <= many
    ensures ConsistentBut(db, many)
  {
  }

  // ---------------------------------------------------------------- the same files

  predicate SameFile(w: FileWrite, v: FileWrite) {
    w.file == v.file && w.parsed == v.parsed
  }

  ghost predicate Among(w: FileWrite, ws: seq<FileWrite>) {
    exists i :: 0 <= i < |ws| && SameFile(w, ws[i])
  }

  /** Everything the file would write is stored already. */
  ghost predicate Absorbed(db: Rows, w: FileWrite) {
    && Within(Plain(TurnMap(w.parsed)), Plain(db.turns)) && Within(CallMap(w.parsed), db.toolCalls)
    && Within(EventMap(w.parsed, w.file), db.events) && w.parsed.id in db.sessions
  }

  lemma LayersOfFile(w: FileWrite, ws: seq<FileWrite>)
    requires Among(w, ws)
    ensures Plain(TurnMap(w.parsed)) in TurnLayers(ws) && CallMap(w.parsed) in CallLayers(ws)
    ensures EventMap(w.parsed, w.file) in EventLayers(ws) && map[w.parsed.id := true] in SessionLayers(ws)
  {
    var i :| 0 <= i < |ws| && SameFile(w, ws[i]);
    assert TurnLayers(ws)[i] == Plain(TurnMap(w.parsed)) && CallLayers(ws)[i] == CallMap(w.parsed);
    assert EventLayers(ws)[i] == EventMap(w.parsed, w.file) && SessionLayers(ws)[i] == map[w.parsed.id := true];
  }

  /** `some` leaves out of `all` only files whose content is stored already, and repeats. */
  ghost predicate Suffices(db: Rows, some: seq<FileWrite>, all: seq<FileWrite>) {
    && (forall w <- some :: Among(w, all))
    && (forall w <- all :: Among(w, some) || Absorbed(db, w))
  }

  lemma SufficesLayers(db: Rows, some: seq<FileWrite>, all: seq<FileWrite>)
    requires Suffices(db, some, all)
    ensures forall m <- TurnLayers(some) :: m in TurnLayers(all)
    ensures forall m <- CallLayers(some) :: m in CallLayers(all)
    ensures forall m <- EventLayers(some) :: m in EventLayers(all)
    ensures forall m <- SessionLayers(some) :: m in SessionLayers(all)
    ensures forall m <- TurnLayers(all) :: m in TurnLayers(some) || Within(m, Plain(db.turns))
    ensures forall m <- CallLayers(all) :: m in CallLayers(some) || Within(m, db.toolCalls)
    ensures forall m <- EventLayers(all) :: m in EventLayers(some) || Within(m, db.events)
    ensures forall m <- SessionLayers(all) :: m in SessionLayers(some) || Within(m, Present(db.sessions))
  {
    forall w <- some { LayersOfFile(w, all); }
    forall w <- all | Among(w, some) { LayersOfFile(w, some); }
  }

  lemma LayersCompatible(ws: seq<FileWrite>)
    requires AgreeAll(ws)
    ensures AllCompatible(TurnLayers(ws)) && AllCompatible(CallLayers(ws))
    ensures AllCompatible(EventLayers(ws)) && AllCompatible(SessionLayers(ws))
  {
    forall i, j | 0 <= i < |ws| && 0 <= j < |ws|
      ensures Compatible(TurnLayers(ws)[i], TurnLayers(ws)[j]) && Compatible(CallLayers(ws)[i], CallLayers(ws)[j])
      ensures Compatible(EventLayers(ws)[i], EventLayers(ws)[j])
      ensures Compatible(SessionLayers(ws)[i], SessionLayers(ws)[j])
    {
      assert Agree(ws[i], ws[j]);
    }
  }

  lemma AdmissibleSome(db: Rows, some: seq<FileWrite>, all: seq<FileWrite>)
    requires Admissible(db, all) && forall w <- some :: Among(w, all)
    ensures Admissible(db, some)
  {
    forall i, j | 0 <= i < |some| && 0 <= j < |some|
      ensures Agree(some[i], some[j])
    {
      assert Among(some[i], all) && Among(some[j], all);
      var k, l :| 0 <= k < |all| && SameFile(some[i], all[k]) && 0 <= l < |all| && SameFile(some[j], all[l]);
      assert Agree(all[k], all[l]);
    }
    forall i | 0 <= i < |some|
      ensures Unclaimed(db, some[i].parsed)
    {
      assert Among(some[i], all);
    }
  }

  /** Files that repeat others, or whose content is stored already, make no difference, but for what a lost reconcile
      leaves behind. */
  lemma SufficientFilesSameView(db: Rows, some: seq<FileWrite>, all: seq<FileWrite>)
    requires Admissible(db, all) && Suffices(db, some, all)
    ensures SameView(WrittenAll(db, some), WrittenAll(db, all), Dirty(some) + Dirty(all))
  {
    AdmissibleSome(db, some, all);
    WritesKeepInvariant(db, some);
    WritesKeepInvariant(db, all);
    WrittenAllLayered(db, some);
    WrittenAllLayered(db, all);
    SufficesLayers(db, some, all);
    LayersCompatible(all);
    OverlaySame(Plain(db.turns), TurnLayers(some), TurnLayers(all));
    OverlaySame(db.toolCalls, CallLayers(some), CallLayers(all));
    OverlaySame(db.events, EventLayers(some), EventLayers(all));
    OverlaySame(Present(db.sessions), SessionLayers(some), SessionLayers(all));
    DirtierIsWeaker(WrittenAll(db, some), Dirty(some), Dirty(some) + Dirty(all));
    DirtierIsWeaker(WrittenAll(db, all), Dirty(all), Dirty(some) + Dirty(all));
    ContentsDetermineView(WrittenAll(db, some), WrittenAll(db, all), Dirty(some) + Dirty(all));
  }

  // ---------------------------------------------------------------- the mtime gate

  function FilesAfterAll(files: map<Path, FileRow>, es: seq<FileEvent>): map<Path, FileRow>
    decreases |es|
  {
    if es == [] then files
    else
      var front, e := FilesAfterAll(files, es[..|es| - 1]), es[|es| - 1];
      if Passes(front, e) then FilesAfter(front, e) else front
  }

  function AsWrite(e: FileEvent): FileWrite
    requires e.Accepted().Some?
  {
    FileWrite(e.path, e.Accepted().value, e.now, !e.fault.InReconcile?)
  }

  /** The files of a run whose rows are stored: they pass the gate, parse, and their upserts are committed. */
  function Passed(files: map<Path, FileRow>, es: seq<FileEvent>): seq<FileWrite>
    decreases |es|
  {
    if es == [] then []
    else
      var front, e := es[..|es| - 1], es[|es| - 1];
      if Passes(FilesAfterAll(files, front), e) then Passed(files, front) + [AsWrite(e)] else Passed(files, front)
  }

  /** The files of a run that parse and whose upserts can be committed, as if nothing after that threw. */
  function Parsed(es: seq<FileEvent>): seq<FileWrite>
    decreases |es|
  {
    if es == [] then []
    else
      var front, e := es[..|es| - 1], es[|es| - 1];
      if e.Accepted().None? then Parsed(front) else Parsed(front) + [AsWrite(e).(reconciled := true)]
  }

  lemma ReconciledIgnoresFiles(db: Rows, files: map<Path, FileRow>, sids: set<Id>)
    ensures Reconcile.Reconciled(db.(files := files), sids) == Reconcile.Reconciled(db, sids).(files := files)
  {
    assert Reconcile.Rerolled(db.(files := files), sids) == Reconcile.Rerolled(db, sids);
  }

  lemma WrittenIgnoresFiles(db: Rows, files: map<Path, FileRow>, w: FileWrite)
    ensures WriteOf(db.(files := files), w) == WriteOf(db, w).(files := files)
  {
    if w.reconciled {
      WrittenIsReconciled(db, w.parsed, w.file, w.now);
      WrittenIsReconciled(db.(files := files), w.parsed, w.file, w.now);
      ReconciledIgnoresFiles(Upserted(db, w.parsed, w.file, w.now), files, {w.parsed.id});
    }
  }

  lemma PassedThrough(before: Rows, files: map<Path, FileRow>, e: FileEvent)
    requires Passes(files, e)
    ensures Ingested(before.(files := files), e) == WriteOf(before, AsWrite(e)).(files := FilesAfter(files, e))
  {
    WrittenIgnoresFiles(before, files, AsWrite(e));
  }

  lemma WrittenAllSnoc(db: Rows, ws: seq<FileWrite>, w: FileWrite)
    ensures WrittenAll(db, ws + [w]) == WriteOf(WrittenAll(db, ws), w)
    ensures Dirty(ws + [w]) == UnsettledBy(Dirty(ws), w.parsed.id, w.reconciled)
  {
    assert (ws + [w])[..|ws|] == ws;
  }

  lemma {:induction false} RunIsPassedWrites(db: Rows, es: seq<FileEvent>)
    ensures IngestedAll(db, es)
         == WrittenAll(db, Passed(db.files, es)).(files := FilesAfterAll(db.files, es))
    ensures Unsettled(db, {}, es) == Dirty(Passed(db.files, es))
    decreases |es|
  {
    if es == [] {
      assert db.(files := db.files) == db;
    } else {
      var front, e := es[..|es| - 1], es[|es| - 1];
      var before, files := WrittenAll(db, Passed(db.files, front)), FilesAfterAll(db.files, front);
      RunIsPassedWrites(db, front);
      assert IngestedAll(db, es) == Ingested(before.(files := files), e);
      if Passes(files, e) {
        PassedThrough(before, files, e);
        WrittenAllSnoc(db, Passed(db.files, front), AsWrite(e));
      }
    }
  }

  /** What the files of a run add up to. */
  function UpsertedTurns(ws: seq<FileWrite>): nat
    decreases |ws|
  {
    if ws == [] then 0 else UpsertedTurns(ws[..|ws| - 1]) + |ws[|ws| - 1].parsed.turns|
  }

  function UpsertedCalls(ws: seq<FileWrite>): nat
    decreases |ws|
  {
    if ws == [] then 0 else UpsertedCalls(ws[..|ws| - 1]) + |CallRows(ws[|ws| - 1].parsed.turns)|
  }

  lemma {:induction false} FileCallsAreRows(ts: seq<ParsedTurn>)
    ensures FileCalls(ts) == |CallRows(ts)|
    decreases |ts|
  {
    if ts != [] { FileCallsAreRows(ts[..|ts| - 1]); }
  }

  /** How many files of a run the gate turns away. */
  function TurnedAway(files: map<Path, FileRow>, es: seq<FileEvent>): nat
    decreases |es|
  {
    if es == [] then 0
    else
      var (front, e) := (es[..|es| - 1], es[|es| - 1]);
      TurnedAway(files, front) + if Unchanged(FilesAfterAll(files, front), e) then 1 else 0
  }

  lemma UpsertedTurnsSnoc(ws: seq<FileWrite>, w: FileWrite)
    ensures UpsertedTurns(ws + [w]) == UpsertedTurns(ws) + |w.parsed.turns|
    ensures UpsertedCalls(ws + [w]) == UpsertedCalls(ws) + |CallRows(w.parsed.turns)|
  {
    assert (ws + [w])[..|ws|] == ws;
  }

  lemma RunFiles(db: Rows, es: seq<FileEvent>)
    ensures IngestedAll(db, es).files == FilesAfterAll(db.files, es)
  {
    RunIsPassedWrites(db, es);
  }

  /** The files of a run that are stored, reconciled and recorded. */
  function Completed(files: map<Path, FileRow>, es: seq<FileEvent>): seq<FileWrite>
    decreases |es|
  {
    if es == [] then []
    else
      var front, e := es[..|es| - 1], es[|es| - 1];
      if Passes(FilesAfterAll(files, front), e) && e.Completes() then Completed(files, front) + [AsWrite(e)]
      else Completed(files, front)
  }

  ghost predicate CountsWrites(s: Summary, ws: seq<FileWrite>, away: nat, n: nat) {
    && s.processed == |ws| && s.turnsUpserted == UpsertedTurns(ws) && s.callsUpserted == UpsertedCalls(ws)
    && s.untouched == away && s.processed + s.errors + s.untouched == n
  }

  lemma CountsNextWrite(s: Summary, files: map<Path, FileRow>, ws: seq<FileWrite>, away: nat, n: nat, e: FileEvent)
    requires CountsWrites(s, ws, away, n)
    ensures CountsWrites(CountOutcome(s, OutcomeOf(files, e)),
                         if Passes(files, e) && e.Completes() then ws + [AsWrite(e)] else ws,
                         away + if Unchanged(files, e) then 1 else 0, n + 1)
  {
    if e.Accepted().Some? {
      UpsertedTurnsSnoc(ws, AsWrite(e));
      FileCallsAreRows(e.Accepted().value.turns);
    }
  }

  /** The counters of a run: a file is counted as processed exactly if it is stored, reconciled and recorded, and every
      file is counted once. */
  lemma {:induction false} SummaryCountsWrites(db: Rows, es: seq<FileEvent>)
    ensures CountsWrites(SummaryAll(db, es), Completed(db.files, es), TurnedAway(db.files, es), |es|)
    decreases |es|
  {
    if es != [] {
      var front, e := es[..|es| - 1], es[|es| - 1];
      SummaryCountsWrites(db, front);
      RunFiles(db, front);
      CountsNextWrite(SummaryAll(db, front), FilesAfterAll(db.files, front), Completed(db.files, front),
                      TurnedAway(db.files, front), |front|, e);
    }
  }

  /** An mtime that has not advanced means unchanged content: between two files of the run at one path, and
      between a file of the run and what was recorded for its path before the run. */
  ghost predicate HonestMtimes(db: Rows, es: seq<FileEvent>) {
    && (forall i, j | 0 <= i < j < |es| && es[i].path == es[j].path && es[i].mtime.Some? && es[j].mtime.Some?
          && es[j].mtime.value <= es[i].mtime.value && es[i].Accepted().Some? && es[j].Accepted().Some? ::
          es[j].Accepted() == es[i].Accepted())
    && (forall i | 0 <= i < |es| && es[i].Accepted().Some? && Unchanged(db.files, es[i]) ::
          Absorbed(db, AsWrite(es[i])))
  }

  /** A recorded mtime is either the one recorded before the run, or that of a file that passed the gate. */
  lemma {:induction false} RecordedMtime(files: map<Path, FileRow>, es: seq<FileEvent>, path: Path)
    requires path in FilesAfterAll(files, es)
    ensures var row := FilesAfterAll(files, es)[path];
      || (path in files && row == files[path])
      || (exists i :: 0 <= i < |es| && es[i].path == path && es[i].mtime == Some(row.mtime)
            && es[i].Accepted().Some? && AsWrite(es[i]) in Passed(files, es))
    decreases |es|
  {
    if es != [] {
      var front, e := es[..|es| - 1], es[|es| - 1];
      var was := FilesAfterAll(files, front);
      if Passes(was, e) && e.mtime.Some? && e.Completes() && e.path == path {
        assert AsWrite(e) in Passed(files, es);
      } else {
        RecordedMtime(files, front, path);
        if !(path in files && was[path] == files[path]) {
          var i :| 0 <= i < |front| && front[i].path == path && front[i].mtime == Some(was[path].mtime)
            && front[i].Accepted().Some? && AsWrite(front[i]) in Passed(files, front);
          assert es[i] == front[i] && AsWrite(es[i]) in Passed(files, es);
        }
      }
    }
  }

  lemma {:induction false} PassedAmongParsed(files: map<Path, FileRow>, es: seq<FileEvent>)
    ensures forall w <- Passed(files, es) :: Among(w, Parsed(es))
    decreases |es|
  {
    if es != [] {
      var front, e := es[..|es| - 1], es[|es| - 1];
      PassedAmongParsed(files, front);
      forall w <- Passed(files, es)
        ensures Among(w, Parsed(es))
      {
        if w in Passed(files, front) {
          var i :| 0 <= i < |Parsed(front)| && SameFile(w, Parsed(front)[i]);
          assert SameFile(w, Parsed(es)[i]);
        } else {
          assert SameFile(w, Parsed(es)[|Parsed(front)|]);
        }
      }
    }
  }

  lemma ParsedAreClean(es: seq<FileEvent>)
    ensures Dirty(Parsed(es)) == {}
    decreases |es|
  {
    if es != [] {
      var front, e := es[..|es| - 1], es[|es| - 1];
      ParsedAreClean(front);
      if e.Accepted().Some? {
        assert Parsed(es)[..|Parsed(front)|] == Parsed(front);
      }
    }
  }

  /** Every file the gate turns away repeats one that passed, or was stored before the run. */
  lemma {:induction false} GateSuffices(db: Rows, es: seq<FileEvent>, w: FileWrite)
    requires HonestMtimes(db, es) && w in Parsed(es)
    ensures Among(w, Passed(db.files, es)) || Absorbed(db, w)
    decreases |es|
  {
    var n := |es| - 1;
    var front, e := es[..n], es[n];
    var was, passed := FilesAfterAll(db.files, front), Passed(db.files, front);
    if w in Parsed(front) {
      GateSuffices(db, front, w);
      if Among(w, passed) {
        var i :| 0 <= i < |passed| && SameFile(w, passed[i]);
        assert Passed(db.files, es)[i] == passed[i];
      }
    } else if Unchanged(was, e) {
      RecordedMtime(db.files, front, e.path);
      if e.path in db.files && was[e.path] == db.files[e.path] {
        assert Unchanged(db.files, es[n]);
      } else {
        var i :| 0 <= i < n && front[i].path == e.path && front[i].mtime == Some(was[e.path].mtime)
          && front[i].Accepted().Some? && AsWrite(front[i]) in passed;
        assert es[i] == front[i] && es[n].Accepted() == es[i].Accepted();
        var k :| 0 <= k < |passed| && passed[k] == AsWrite(front[i]);
        assert SameFile(w, Passed(db.files, es)[k]);
      }
    } else {
      assert SameFile(w, Passed(db.files, es)[|passed|]);
    }
  }

  /** The gate and the errors after a commit are invisible but in the sessions left unsettled: the run gives the same
      view as storing and reconciling every file that can be stored. */
  lemma GateInvisible(db: Rows, es: seq<FileEvent>)
    requires HonestMtimes(db, es) && Admissible(db, Parsed(es))
    ensures SameView(IngestedAll(db, es), WrittenAll(db, Parsed(es)), Unsettled(db, {}, es))
  {
    var passed, parsed := Passed(db.files, es), Parsed(es);
    PassedAmongParsed(db.files, es);
    forall w <- parsed { GateSuffices(db, es, w); }
    SufficientFilesSameView(db, passed, parsed);
    ParsedAreClean(es);
    RunIsPassedWrites(db, es);
  }

  lemma ViewsCompose(a: Rows, b: Rows, c: Rows, d: Rows, ab: set<Id>, cd: set<Id>)
    requires SameView(a, b, ab) && SameView(b, c, {}) && SameView(d, c, cd)
    ensures SameView(a, d, ab + cd)
  {
    PlainIsAllButSequence(a.turns, d.turns);
    SameViewSameTurns(b, c);
    forall id <- a.turns
      ensures a.turns[id].sessionId in ab + cd || SameTurn(a.turns, d.turns, id)
    {
      assert SameTurn(d.turns, c.turns, id) || d.turns[id].sessionId in cd;
    }
  }

  /** Two runs over the same files, in any order and with any repetitions, give the same view of every session that
      neither leaves unsettled. */
  lemma IngestConfluent(db: Rows, es: seq<FileEvent>, fs: seq<FileEvent>)
    requires HonestMtimes(db, es) && Admissible(db, Parsed(es))
    requires HonestMtimes(db, fs)
    requires forall w <- Parsed(es) :: Among(w, Parsed(fs))
    requires forall w <- Parsed(fs) :: Among(w, Parsed(es))
    ensures SameView(IngestedAll(db, es), IngestedAll(db, fs), Unsettled(db, {}, es) + Unsettled(db, {}, fs))
  {
    AdmissibleSome(db, Parsed(fs), Parsed(es));
    GateInvisible(db, es);
    GateInvisible(db, fs);
    ParsedAreClean(es);
    ParsedAreClean(fs);
    SufficientFilesSameView(db, Parsed(es), Parsed(fs));
    ViewsCompose(IngestedAll(db, es), WrittenAll(db, Parsed(es)), WrittenAll(db, Parsed(fs)), IngestedAll(db, fs),
                 Unsettled(db, {}, es), Unsettled(db, {}, fs));
  }
}
