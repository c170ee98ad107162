/** The tables that ingest writes and every derived figure reads.
    Keys and texts are opaque: a key is a number whose order stands for the collation order of
    the text key, and a cost is a whole number of micro-dollars. */
module Tables {
  import opened Options

  type Id = nat
  type Path = nat

  /** What the price lookup makes of a model name. */
  datatype Model = Opus | Sonnet | Haiku | Claude5 | Unpriced

  datatype Tier = Standard | Batch | Priority | OtherTier

  datatype Usage = Usage(input: nat, output: nat, cacheRead: nat, cacheCreation: nat,
                         cacheCreation5m: nat, cacheCreation1h: nat)

  datatype Turn = Turn(sessionId: Id, sequence: int, timestamp: int, model: Model, usage: Usage,
                       tier: Tier, cost: nat, text: int)

  datatype ToolName = Read | Edit | MultiEdit | Write | OtherTool(name: nat)

  /** `path` is the `file_path` of a well-formed input, if it has one. */
  datatype ToolCall = ToolCall(turnId: Id, name: ToolName, path: Option<Path>, isError: bool, json: int)

  /** The columns of a session row that only record which file wrote it last. */
  datatype Meta = Meta(descriptor: int, sourceFile: Path, ingestedAt: int)

  datatype Totals = Totals(input: nat, output: nat, cacheRead: nat, cacheCreation: nat, cost: nat)

  datatype Session = Session(meta: Meta, startedAt: int, endedAt: int, totals: Totals,
                             turnCount: nat, toolCallCount: nat)

  datatype Rating = Rating(rating: int, ratedAt: int)

  /** Primary key of a compaction event. */
  datatype EventKey = EventKey(sessionId: Id, sourceFile: Path, sequenceInFile: nat)

  datatype FileRow = FileRow(mtime: int, ingestedAt: int)

  datatype Rows = Rows(sessions: map<Id, Session>, turns: map<Id, Turn>, toolCalls: map<Id, ToolCall>,
                       ratings: map<Id, Rating>, events: map<EventKey, int>, files: map<Path, FileRow>)

  /** The database handle: one field a table, each statement updates the fields it names. */
  class Database {
    var sessions: map<Id, Session>
    var turns: map<Id, Turn>
    var toolCalls: map<Id, ToolCall>
    var ratings: map<Id, Rating>
    var events: map<EventKey, int>
    var files: map<Path, FileRow>

    constructor ()
      ensures Snapshot() == Rows(map[], map[], map[], map[], map[], map[])
    {
      sessions, turns, toolCalls, ratings, events, files := map[], map[], map[], map[], map[], map[];
    }

    function Snapshot(): Rows
      reads this
    {
      Rows(sessions, turns, toolCalls, ratings, events, files)
    }

    /** Give every table back the contents it had when a transaction began. */
    method Restore(saved: Rows)
      modifies this
      ensures Snapshot() == saved
    {
      sessions, turns, toolCalls := saved.sessions, saved.turns, saved.toolCalls;
      ratings, events, files := saved.ratings, saved.events, saved.files;
    }
  }

  /** The foreign keys SQLite enforces on the tables modelled here. */
  ghost predicate ForeignKeys(db: Rows) {
    && (forall id <- db.turns :: db.turns[id].sessionId in db.sessions)
    && (forall id <- db.toolCalls :: db.toolCalls[id].turnId in db.turns)
  }

  function TurnsOf(turns: map<Id, Turn>, sid: Id): map<Id, Turn> {
    map id | id in turns && turns[id].sessionId == sid :: turns[id]
  }

  predicate BelongsTo(call: ToolCall, turns: map<Id, Turn>, sid: Id) {
    call.turnId in turns && turns[call.turnId].sessionId == sid
  }

  function ToolCallsOf(calls: map<Id, ToolCall>, turns: map<Id, Turn>, sid: Id): set<Id> {
    set c | c in calls && BelongsTo(calls[c], turns, sid)
  }

  /** `ORDER BY timestamp, id`. */
  predicate Before(turns: map<Id, Turn>, a: Id, b: Id)
    requires a in turns && b in turns
  {
    turns[a].timestamp < turns[b].timestamp || (turns[a].timestamp == turns[b].timestamp && a < b)
  }

  ghost function Earlier(turns: map<Id, Turn>, id: Id): set<Id>
    requires id in turns
  {
    set o | o in turns && turns[o].sessionId == turns[id].sessionId && Before(turns, o, id)
  }

  /** `ROW_NUMBER() OVER (PARTITION BY session_id ORDER BY timestamp, id)`. */
  ghost function Rank(turns: map<Id, Turn>, id: Id): nat
    requires id in turns
  {
    |Earlier(turns, id)| + 1
  }

  datatype Column = Input | Output | CacheRead | CacheCreation | Cost

  function Value(t: Turn, c: Column): nat {
    match c
    case Input => t.usage.input
    case Output => t.usage.output
    case CacheRead => t.usage.cacheRead
    case CacheCreation => t.usage.cacheCreation
    case Cost => t.cost
  }

  ghost function Pick<T>(s: set<T>): (x: T)
    requires s != {}
    ensures x in s
  {
    var x :| x in s; x
  }

  /** `SUM(c)` over a set of rows. */
  ghost function Sum(rows: map<Id, Turn>, c: Column): nat
    decreases |rows.Keys|
  {
    if rows.Keys == {} then 0
    else
      var k := Pick(rows.Keys);
      assert (rows - {k}).Keys == rows.Keys - {k};
      Value(rows[k], c) + Sum(rows - {k}, c)
  }

  lemma {:induction false} SumRemove(rows: map<Id, Turn>, c: Column, id: Id)
    requires id in rows
    ensures Sum(rows, c) == Value(rows[id], c) + Sum(rows - {id}, c)
    decreases |rows.Keys|
  {
    var k := Pick(rows.Keys);
    assert (rows - {k}).Keys == rows.Keys - {k};
    if k != id {
      var less := rows - {id};
      assert less.Keys == rows.Keys - {id};
      SumRemove(rows - {k}, c, id);
      SumRemove(less, c, k);
      assert rows - {k} - {id} == less - {k};
    }
  }

  lemma SumInsert(rows: map<Id, Turn>, c: Column, id: Id, t: Turn)
    requires id !in rows
    ensures Sum(rows[id := t], c) == Value(t, c) + Sum(rows, c)
  {
    SumRemove(rows[id := t], c, id);
    assert rows[id := t] - {id} == rows;
  }

  /** A sum only looks at the column it adds up. */
  lemma {:induction false} SumSameValues(a: map<Id, Turn>, b: map<Id, Turn>, c: Column)
    requires a.Keys == b.Keys
    requires forall id <- a :: Value(a[id], c) == Value(b[id], c)
    ensures Sum(a, c) == Sum(b, c)
    decreases |a.Keys|
  {
    if a.Keys != {} {
      var k := Pick(a.Keys);
      assert (a - {k}).Keys == a.Keys - {k} == (b - {k}).Keys;
      SumSameValues(a - {k}, b - {k}, c);
    }
  }

  lemma LeastTimestampExists(rows: map<Id, Turn>)
    requires rows != map[]
    ensures exists id :: id in rows && forall o <- rows :: rows[id].timestamp <= rows[o].timestamp
  {
    var least: Id :| least in rows;
    var todo := rows.Keys;
    while todo != {}
      invariant least in rows && todo <= rows.Keys
      invariant forall o <- rows.Keys - todo :: rows[least].timestamp <= rows[o].timestamp
    {
      var k :| k in todo;
      if rows[k].timestamp < rows[least].timestamp { least := k; }
      todo := todo - {k};
    }
  }

  lemma GreatestTimestampExists(rows: map<Id, Turn>)
    requires rows != map[]
    ensures exists id :: id in rows && forall o <- rows :: rows[o].timestamp <= rows[id].timestamp
  {
    var most: Id :| most in rows;
    var todo := rows.Keys;
    while todo != {}
      invariant most in rows && todo <= rows.Keys
      invariant forall o <- rows.Keys - todo :: rows[o].timestamp <= rows[most].timestamp
    {
      var k :| k in todo;
      if rows[most].timestamp < rows[k].timestamp { most := k; }
      todo := todo - {k};
    }
  }

  /** `MIN(timestamp)`. */
  ghost function MinTimestamp(rows: map<Id, Turn>): (t: int)
    requires rows != map[]
    ensures exists id <- rows :: rows[id].timestamp == t
    ensures forall id <- rows :: t <= rows[id].timestamp
  {
    LeastTimestampExists(rows);
    var least :| least in rows && forall o <- rows :: rows[least].timestamp <= rows[o].timestamp;
    rows[least].timestamp
  }

  /** `MAX(timestamp)`. */
  ghost function MaxTimestamp(rows: map<Id, Turn>): (t: int)
    requires rows != map[]
    ensures exists id <- rows :: rows[id].timestamp == t
    ensures forall id <- rows :: rows[id].timestamp <= t
  {
    GreatestTimestampExists(rows);
    var most :| most in rows && forall o <- rows :: rows[o].timestamp <= rows[most].timestamp;
    rows[most].timestamp
  }

  ghost function TotalsOf(rows: map<Id, Turn>): Totals {
    Totals(Sum(rows, Input), Sum(rows, Output), Sum(rows, CacheRead), Sum(rows, CacheCreation), Sum(rows, Cost))
  }

  /** A session row with every rollup column recomputed from the stored rows. */
  ghost function RolledUp(s: Session, rows: map<Id, Turn>, calls: nat): Session {
    Session(s.meta,
            if rows == map[] then s.startedAt else MinTimestamp(rows),
            if rows == map[] then s.endedAt else MaxTimestamp(rows),
            TotalsOf(rows), |rows|, calls)
  }

  ghost function RollupOf(db: Rows, sid: Id): Session
    requires sid in db.sessions
  {
    RolledUp(db.sessions[sid], TurnsOf(db.turns, sid), |ToolCallsOf(db.toolCalls, db.turns, sid)|)
  }

  ghost predicate Sequenced(turns: map<Id, Turn>) {
    forall id <- turns :: turns[id].sequence == Rank(turns, id)
  }

  /** The rollup invariant: stored sequences and rollups agree with the stored rows. */
  ghost predicate Consistent(db: Rows) {
    && Sequenced(db.turns)
    && forall sid <- db.sessions :: db.sessions[sid] == RollupOf(db, sid)
  }
}
