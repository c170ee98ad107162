/** Per-session effectiveness metrics, and the batched query whose averages must equal theirs. */
module Effectiveness {
  import opened Options
  import opened Tables
  import ReconcileSql

  // ---------------------------------------------------------------- the per-session queries

  predicate IsEdit(c: ToolCall) {
    c.name == Edit || c.name == MultiEdit || c.name == Write
  }

  predicate IsRead(c: ToolCall) {
    c.name == Read
  }

  predicate ReadsPath(c: ToolCall) {
    c.name == Read && c.path.Some?
  }

  /** Counts over the tool calls of a session. */
  datatype Counts = Counts(readCalls: nat, editCalls: nat, errorCalls: nat, allCalls: nat)

  function Matching(calls: map<Id, ToolCall>, cs: set<Id>, p: ToolCall -> bool): set<Id> {
    set c | c in cs && c in calls && p(calls[c])
  }

  function CountsOf(calls: map<Id, ToolCall>, cs: set<Id>): Counts {
    Counts(|Matching(calls, cs, IsRead)|, |Matching(calls, cs, IsEdit)|,
           |Matching(calls, cs, (c: ToolCall) => c.isError)|, |Matching(calls, cs, (c: ToolCall) => true)|)
  }

  /** The reads of one path: one group of `GROUP BY path`. */
  function PathReads(calls: map<Id, ToolCall>, cs: set<Id>, path: Path): set<Id> {
    set c | c in cs && c in calls && ReadsPath(calls[c]) && calls[c].path.value == path
  }

  function PathsRead(calls: map<Id, ToolCall>, cs: set<Id>): set<Path> {
    set c | c in cs && c in calls && ReadsPath(calls[c]) :: calls[c].path.value
  }

  /** `SUM(reads - 1)` over the groups that read a path more than once. */
  ghost function Excess(calls: map<Id, ToolCall>, cs: set<Id>, paths: set<Path>): nat
    decreases |paths|
  {
    if paths == {} then 0
    else
      var p := Pick(paths);
      var n := |PathReads(calls, cs, p)|;
      (if n > 1 then n - 1 else 0) + Excess(calls, cs, paths - {p})
  }

  ghost function RereadCount(calls: map<Id, ToolCall>, cs: set<Id>): nat {
    Excess(calls, cs, PathsRead(calls, cs))
  }

  function EditSequences(db: Rows, sid: Id): set<int> {
    set c | c in ToolCallsOf(db.toolCalls, db.turns, sid) && IsEdit(db.toolCalls[c]) ::
      db.turns[db.toolCalls[c].turnId].sequence
  }

  lemma {:induction false} LeastExists(s: set<int>)
    requires s != {}
    ensures exists m :: m in s && forall x <- s :: m <= x
  {
    var x := Pick(s);
    var rest := s - {x};
    if rest == {} {
      assert forall y <- s :: y == x || y in rest;
    } else {
      LeastExists(rest);
      var m :| m in rest && forall y <- rest :: m <= y;
      assert forall y <- s :: y == x || y in rest;
      assert (if x < m then x else m) in s;
    }
  }

  ghost function Least(s: set<int>): (m: int)
    requires s != {}
    ensures m in s && forall x <- s :: m <= x
  {
    LeastExists(s);
    var m :| m in s && forall x <- s :: m <= x; m
  }

  function TurnsBefore(turns: map<Id, Turn>, sid: Id, sequence: int): map<Id, Turn> {
    map id | id in turns && turns[id].sessionId == sid && turns[id].sequence < sequence :: turns[id]
  }

  ghost function TokensBefore(turns: map<Id, Turn>, sid: Id, sequence: int): nat {
    var rows := TurnsBefore(turns, sid, sequence);
    Sum(rows, Input) + Sum(rows, Output) + Sum(rows, CacheCreation)
  }

  /** Tokens spent before the first edit: none without an edit, and 0 at once for an edit on the first turn. */
  ghost function TokensUntilFirstEdit(db: Rows, sid: Id): Option<nat> {
    var sequences := EditSequences(db, sid);
    if sequences == {} then None
    else if Least(sequences) <= 1 then Some(0)
    else Some(TokensBefore(db.turns, sid, Least(sequences)))
  }

  function Ratio(n: nat, d: nat): Option<real> {
    if d == 0 then None else Some(n as real / d as real)
  }

  function EventsOf(db: Rows, sid: Id): set<EventKey> {
    set k | k in db.events && k.sessionId == sid
  }

  /** The turns of a session among those with a subagent type, a column that ingest does not write. */
  function AgentTurns(db: Rows, agents: set<Id>, sid: Id): set<Id> {
    set id | id in db.turns && db.turns[id].sessionId == sid && id in agents
  }

  datatype Metrics = Metrics(tokensUntilFirstEdit: Option<nat>, rereadCount: nat, toolErrorRate: Option<real>,
                             readsToEditsRatio: Option<real>, compactionEventCount: nat,
                             subagentUsageRatio: Option<real>)

  /** `getPersonalEffectivenessSession`: one query a metric, for one session. */
  ghost function PersonalSession(db: Rows, agents: set<Id>, sid: Id): Option<Metrics> {
    if sid !in db.sessions then None
    else
      var cs := ToolCallsOf(db.toolCalls, db.turns, sid);
      var counts := CountsOf(db.toolCalls, cs);
      Some(Metrics(TokensUntilFirstEdit(db, sid), RereadCount(db.toolCalls, cs),
                   Ratio(counts.errorCalls, counts.allCalls), Ratio(counts.readCalls, counts.editCalls),
                   |EventsOf(db, sid)|, Ratio(|AgentTurns(db, agents, sid)|, db.sessions[sid].turnCount)))
  }

  /** The shortcut for an edit on the first turn returns what the skipped query would have returned. */
  lemma FirstTurnShortcut(db: Rows, sid: Id)
    requires Sequenced(db.turns) && EditSequences(db, sid) != {} && Least(EditSequences(db, sid)) <= 1
    ensures TokensUntilFirstEdit(db, sid) == Some(TokensBefore(db.turns, sid, Least(EditSequences(db, sid))))
  {
    forall id <- db.turns
      ensures db.turns[id].sequence >= 1
    {
      ReconcileSql.RankInRange(db.turns, id);
    }
    assert TurnsBefore(db.turns, sid, Least(EditSequences(db, sid))).Keys == {};
  }

  // ---------------------------------------------------------------- re-reads

  lemma {:induction false} ExcessRemove(calls: map<Id, ToolCall>, cs: set<Id>, paths: set<Path>, p: Path)
    requires p in paths
    ensures var n := |PathReads(calls, cs, p)|;
      Excess(calls, cs, paths) == (if n > 1 then n - 1 else 0) + Excess(calls, cs, paths - {p})
    decreases |paths|
  {
    var k := Pick(paths);
    if k != p {
      ExcessRemove(calls, cs, paths - {k}, p);
      ExcessRemove(calls, cs, paths - {p}, k);
      assert paths - {k} - {p} == paths - {p} - {k};
    }
  }

  function ReadsIn(calls: map<Id, ToolCall>, cs: set<Id>, paths: set<Path>): set<Id> {
    set c | c in cs && c in calls && ReadsPath(calls[c]) && calls[c].path.value in paths
  }

  lemma {:induction false} ExcessIsReadsMinusPaths(calls: map<Id, ToolCall>, cs: set<Id>, paths: set<Path>)
    requires paths <= PathsRead(calls, cs)
    ensures Excess(calls, cs, paths) + |paths| == |ReadsIn(calls, cs, paths)|
    decreases |paths|
  {
    if paths == {} {
      assert ReadsIn(calls, cs, paths) == {};
    } else {
      var p := Pick(paths);
      ExcessIsReadsMinusPaths(calls, cs, paths - {p});
      assert ReadsIn(calls, cs, paths) == ReadsIn(calls, cs, paths - {p}) + PathReads(calls, cs, p);
      var c :| c in cs && c in calls && ReadsPath(calls[c]) && calls[c].path.value == p;
      assert c in PathReads(calls, cs, p);
    }
  }

  /** The re-read count is the number of reads that name a path less the number of distinct paths. */
  lemma RereadIsReadsMinusPaths(calls: map<Id, ToolCall>, cs: set<Id>)
    ensures RereadCount(calls, cs) == |Matching(calls, cs, ReadsPath)| - |PathsRead(calls, cs)|
  {
    ExcessIsReadsMinusPaths(calls, cs, PathsRead(calls, cs));
    assert ReadsIn(calls, cs, PathsRead(calls, cs)) == Matching(calls, cs, ReadsPath);
  }

  // ---------------------------------------------------------------- the batched query

  function NatIn<K>(m: map<K, nat>, k: K): nat {
    if k in m then m[k] else 0
  }

  function CountsIn(m: map<Id, Counts>, sid: Id): Counts {
    if sid in m then m[sid] else Counts(0, 0, 0, 0)
  }

  function Bump(n: Counts, c: ToolCall): Counts {
    Counts(if IsRead(c) then n.readCalls + 1 else n.readCalls,
           if IsEdit(c) then n.editCalls + 1 else n.editCalls,
           if c.isError then n.errorCalls + 1 else n.errorCalls,
           n.allCalls + 1)
  }

  /** The calls of a session among those a pass over the table has visited. */
  ghost function Visited(db: Rows, done: set<Id>, sid: Id): set<Id> {
    set c | c in done && c in db.toolCalls && BelongsTo(db.toolCalls[c], db.turns, sid)
  }

  lemma VisitedNext(db: Rows, done: set<Id>, c: Id, sid: Id)
    requires c in db.toolCalls && c !in done
    ensures Visited(db, done + {c}, sid)
         == if BelongsTo(db.toolCalls[c], db.turns, sid) then Visited(db, done, sid) + {c} else Visited(db, done, sid)
    ensures c !in Visited(db, done, sid)
  {
  }

  lemma VisitedAll(db: Rows, sid: Id)
    ensures Visited(db, db.toolCalls.Keys, sid) == ToolCallsOf(db.toolCalls, db.turns, sid)
    ensures Visited(db, {}, sid) == {}
  {
  }

  lemma MatchingNext(calls: map<Id, ToolCall>, cs: set<Id>, c: Id, p: ToolCall -> bool)
    requires c in calls && c !in cs
    ensures |Matching(calls, cs + {c}, p)| == |Matching(calls, cs, p)| + if p(calls[c]) then 1 else 0
  {
    assert Matching(calls, cs + {c}, p) == Matching(calls, cs, p) + if p(calls[c]) then {c} else {};
  }

  lemma CountsNext(calls: map<Id, ToolCall>, cs: set<Id>, c: Id)
    requires c in calls && c !in cs
    ensures CountsOf(calls, cs + {c}) == Bump(CountsOf(calls, cs), calls[c])
  {
    MatchingNext(calls, cs, c, IsRead);
    MatchingNext(calls, cs, c, IsEdit);
    MatchingNext(calls, cs, c, (c: ToolCall) => c.isError);
    MatchingNext(calls, cs, c, (c: ToolCall) => true);
  }

  ghost predicate CountsFit(db: Rows, ids: set<Id>, done: set<Id>, groups: map<Id, Counts>, sid: Id) {
    sid in ids ==> CountsIn(groups, sid) == CountsOf(db.toolCalls, Visited(db, done, sid))
  }

  lemma CountsOfNone(calls: map<Id, ToolCall>)
    ensures CountsOf(calls, {}) == Counts(0, 0, 0, 0)
  {
    forall p: ToolCall -> bool
      ensures |Matching(calls, {}, p)| == 0
    {
      assert Matching(calls, {}, p) == {};
    }
  }

  function AddCount(db: Rows, ids: set<Id>, groups: map<Id, Counts>, call: ToolCall): map<Id, Counts> {
    if call.turnId in db.turns && db.turns[call.turnId].sessionId in ids then
      var sid := db.turns[call.turnId].sessionId;
      groups[sid := Bump(CountsIn(groups, sid), call)]
    else groups
  }

  lemma CountsFitNext(db: Rows, ids: set<Id>, done: set<Id>, groups: map<Id, Counts>, c: Id, sid: Id)
    requires c in db.toolCalls && c !in done && CountsFit(db, ids, done, groups, sid)
    ensures CountsFit(db, ids, done + {c}, AddCount(db, ids, groups, db.toolCalls[c]), sid)
  {
    VisitedNext(db, done, c, sid);
    CountsNext(db.toolCalls, Visited(db, done, sid), c);
  }

  lemma NoCountsYet(db: Rows, ids: set<Id>, sid: Id)
    ensures CountsFit(db, ids, {}, map[], sid)
  {
    CountsOfNone(db.toolCalls);
    VisitedAll(db, sid);
  }

  /** `tc_agg`: one pass over `tool_calls JOIN turns JOIN ids`, grouped by session. */
  method GroupCounts(db: Rows, ids: set<Id>) returns (groups: map<Id, Counts>)
    ensures forall sid :: CountsFit(db, ids, db.toolCalls.Keys, groups, sid)
  {
    groups := map[];
    var todo := db.toolCalls.Keys;
    ghost var done: set<Id> := {};
    forall sid { NoCountsYet(db, ids, sid); }
    while todo != {}
      invariant done !! todo && done + todo == db.toolCalls.Keys
      invariant forall sid :: CountsFit(db, ids, done, groups, sid)
    {
      var c :| c in todo;
      ghost var was := groups;
      groups := AddCount(db, ids, groups, db.toolCalls[c]);
      forall sid
        ensures CountsFit(db, ids, done + {c}, groups, sid)
      {
        CountsFitNext(db, ids, done, was, c, sid);
      }
      todo, done := todo - {c}, done + {c};
    }
  }

  ghost predicate ReadsFit(db: Rows, ids: set<Id>, done: set<Id>, groups: map<(Id, Path), nat>, sid: Id, path: Path) {
    var n := |PathReads(db.toolCalls, Visited(db, done, sid), path)|;
    if sid in ids && n > 0 then (sid, path) in groups && groups[(sid, path)] == n else (sid, path) !in groups
  }

  lemma PathReadsNext(calls: map<Id, ToolCall>, cs: set<Id>, c: Id, path: Path)
    requires c in calls && c !in cs
    ensures |PathReads(calls, cs + {c}, path)|
         == |PathReads(calls, cs, path)| + if ReadsPath(calls[c]) && calls[c].path.value == path then 1 else 0
  {
    assert PathReads(calls, cs + {c}, path)
        == PathReads(calls, cs, path) + if ReadsPath(calls[c]) && calls[c].path.value == path then {c} else {};
  }

  function AddRead(db: Rows, ids: set<Id>, groups: map<(Id, Path), nat>, call: ToolCall): map<(Id, Path), nat> {
    if ReadsPath(call) && call.turnId in db.turns && db.turns[call.turnId].sessionId in ids then
      var key := (db.turns[call.turnId].sessionId, call.path.value);
      groups[key := NatIn(groups, key) + 1]
    else groups
  }

  lemma ReadsFitNext(db: Rows, ids: set<Id>, done: set<Id>, groups: map<(Id, Path), nat>, c: Id, sid: Id, path: Path)
    requires c in db.toolCalls && c !in done && ReadsFit(db, ids, done, groups, sid, path)
    ensures ReadsFit(db, ids, done + {c}, AddRead(db, ids, groups, db.toolCalls[c]), sid, path)
  {
    VisitedNext(db, done, c, sid);
    PathReadsNext(db.toolCalls, Visited(db, done, sid), c, path);
  }

  lemma NoReadsYet(db: Rows, ids: set<Id>, sid: Id, path: Path)
    ensures ReadsFit(db, ids, {}, map[], sid, path)
  {
    assert PathReads(db.toolCalls, Visited(db, {}, sid), path) == {};
  }

  /** `reread`: reads grouped by session and path, before the `HAVING`. */
  method GroupReads(db: Rows, ids: set<Id>) returns (groups: map<(Id, Path), nat>)
    ensures forall sid, path :: ReadsFit(db, ids, db.toolCalls.Keys, groups, sid, path)
  {
    groups := map[];
    var todo := db.toolCalls.Keys;
    ghost var done: set<Id> := {};
    forall sid, path { NoReadsYet(db, ids, sid, path); }
    while todo != {}
      invariant done !! todo && done + todo == db.toolCalls.Keys
      invariant forall sid, path :: ReadsFit(db, ids, done, groups, sid, path)
    {
      var c :| c in todo;
      ghost var was := groups;
      groups := AddRead(db, ids, groups, db.toolCalls[c]);
      forall sid, path
        ensures ReadsFit(db, ids, done + {c}, groups, sid, path)
      {
        ReadsFitNext(db, ids, done, was, c, sid, path);
      }
      todo, done := todo - {c}, done + {c};
    }
  }

  ghost function PathsIn(keys: set<(Id, Path)>, sid: Id): set<Path> {
    set k | k in keys && k.0 == sid :: k.1
  }

  lemma PathsInNext(keys: set<(Id, Path)>, key: (Id, Path), sid: Id)
    requires key !in keys
    ensures PathsIn(keys + {key}, sid) == if key.0 == sid then PathsIn(keys, sid) + {key.1} else PathsIn(keys, sid)
    ensures key.0 == sid ==> key.1 !in PathsIn(keys, sid)
  {
    assert forall k <- keys :: k.0 == key.0 ==> k.1 != key.1 by {
      forall k <- keys | k.0 == key.0
        ensures k.1 != key.1
      {
        assert k != key && k == (k.0, k.1);
      }
    }
  }

  ghost predicate ExcessFit(db: Rows, cs: set<Id>, done: set<(Id, Path)>, sums: map<Id, nat>, sid: Id) {
    NatIn(sums, sid) == Excess(db.toolCalls, cs, PathsIn(done, sid))
  }

  lemma ExcessNext(db: Rows, cs: set<Id>, done: set<(Id, Path)>, sums: map<Id, nat>, key: (Id, Path), n: nat, sid: Id)
    requires ExcessFit(db, cs, done, sums, sid) && key !in done
    requires key.0 == sid ==> n == |PathReads(db.toolCalls, cs, key.1)|
    ensures ExcessFit(db, cs, done + {key},
                      if n > 1 then sums[key.0 := NatIn(sums, key.0) + n - 1] else sums, sid)
  {
    PathsInNext(done, key, sid);
    if key.0 == sid {
      ExcessRemove(db.toolCalls, cs, PathsIn(done, sid) + {key.1}, key.1);
      assert PathsIn(done, sid) + {key.1} - {key.1} == PathsIn(done, sid);
    }
  }

  /** The groups of a session are exactly the paths it read. */
  lemma GroupsArePaths(db: Rows, ids: set<Id>, groups: map<(Id, Path), nat>, sid: Id)
    requires sid in ids && forall s, path :: ReadsFit(db, ids, db.toolCalls.Keys, groups, s, path)
    ensures PathsIn(groups.Keys, sid) == PathsRead(db.toolCalls, ToolCallsOf(db.toolCalls, db.turns, sid))
  {
    var cs := ToolCallsOf(db.toolCalls, db.turns, sid);
    VisitedAll(db, sid);
    forall path
      ensures path in PathsIn(groups.Keys, sid) <==> path in PathsRead(db.toolCalls, cs)
    {
      assert ReadsFit(db, ids, db.toolCalls.Keys, groups, sid, path);
      assert path in PathsIn(groups.Keys, sid) <==> (sid, path) in groups;
      if path in PathsRead(db.toolCalls, cs) {
        var c :| c in cs && ReadsPath(db.toolCalls[c]) && db.toolCalls[c].path.value == path;
        assert c in PathReads(db.toolCalls, cs, path);
      } else {
        assert PathReads(db.toolCalls, cs, path) == {};
      }
    }
  }

  /** `reread_agg`: the excess reads of each session, over the groups that pass the `HAVING`. */
  method SumRereads(db: Rows, ids: set<Id>) returns (sums: map<Id, nat>)
    ensures forall sid <- ids ::
      NatIn(sums, sid) == RereadCount(db.toolCalls, ToolCallsOf(db.toolCalls, db.turns, sid))
  {
    var groups := GroupReads(db, ids);
    sums := map[];
    var todo := groups.Keys;
    ghost var done: set<(Id, Path)> := {};
    forall sid ensures PathsIn(done, sid) == {} { }
    while todo != {}
      invariant done !! todo && done + todo == groups.Keys
      invariant forall sid <- ids :: ExcessFit(db, ToolCallsOf(db.toolCalls, db.turns, sid), done, sums, sid)
    {
      var key :| key in todo;
      var n := groups[key];
      ghost var was := sums;
      if n > 1 { sums := sums[key.0 := NatIn(sums, key.0) + n - 1]; }
      forall sid <- ids
        ensures ExcessFit(db, ToolCallsOf(db.toolCalls, db.turns, sid), done + {key}, sums, sid)
      {
        assert ReadsFit(db, ids, db.toolCalls.Keys, groups, key.0, key.1) && key == (key.0, key.1);
        VisitedAll(db, sid);
        ExcessNext(db, ToolCallsOf(db.toolCalls, db.turns, sid), done, was, key, n, sid);
      }
      todo, done := todo - {key}, done + {key};
    }
    forall sid <- ids
      ensures NatIn(sums, sid) == RereadCount(db.toolCalls, ToolCallsOf(db.toolCalls, db.turns, sid))
    {
      GroupsArePaths(db, ids, groups, sid);
      assert ExcessFit(db, ToolCallsOf(db.toolCalls, db.turns, sid), done, sums, sid);
    }
  }

  ghost function VisitedEvents(done: set<EventKey>, sid: Id): set<EventKey> {
    set k | k in done && k.sessionId == sid
  }

  lemma VisitedEventsNext(done: set<EventKey>, key: EventKey, sid: Id)
    requires key !in done
    ensures |VisitedEvents(done + {key}, sid)| == |VisitedEvents(done, sid)| + if key.sessionId == sid then 1 else 0
  {
    assert VisitedEvents(done + {key}, sid) == VisitedEvents(done, sid) + if key.sessionId == sid then {key} else {};
  }

  ghost predicate EventsFit(ids: set<Id>, done: set<EventKey>, counts: map<Id, nat>, sid: Id) {
    sid in ids ==> NatIn(counts, sid) == |VisitedEvents(done, sid)|
  }

  /** `comp_agg`: compaction events counted by session. */
  method GroupEvents(db: Rows, ids: set<Id>) returns (counts: map<Id, nat>)
    ensures forall sid :: EventsFit(ids, db.events.Keys, counts, sid)
  {
    counts := map[];
    var todo := db.events.Keys;
    ghost var done: set<EventKey> := {};
    forall sid ensures EventsFit(ids, done, counts, sid) { assert VisitedEvents(done, sid) == {}; }
    while todo != {}
      invariant done !! todo && done + todo == db.events.Keys
      invariant forall sid :: EventsFit(ids, done, counts, sid)
    {
      var key :| key in todo;
      ghost var was := counts;
      if key.sessionId in ids {
        counts := counts[key.sessionId := NatIn(counts, key.sessionId) + 1];
      }
      forall sid
        ensures EventsFit(ids, done + {key}, counts, sid)
      {
        assert EventsFit(ids, done, was, sid);
        VisitedEventsNext(done, key, sid);
      }
      todo, done := todo - {key}, done + {key};
    }
  }

  ghost function VisitedAgents(db: Rows, agents: set<Id>, done: set<Id>, sid: Id): set<Id> {
    set id | id in done && id in AgentTurns(db, agents, sid)
  }

  ghost predicate AgentsFit(db: Rows, agents: set<Id>, ids: set<Id>, done: set<Id>, counts: map<Id, nat>, sid: Id) {
    sid in ids ==> NatIn(counts, sid) == |VisitedAgents(db, agents, done, sid)|
  }

  function AddAgent(counts: map<Id, nat>, ids: set<Id>, t: Turn, isAgent: bool): map<Id, nat> {
    if t.sessionId in ids then counts[t.sessionId := NatIn(counts, t.sessionId) + if isAgent then 1 else 0] else counts
  }

  lemma AgentsFitNext(db: Rows, agents: set<Id>, ids: set<Id>, done: set<Id>, counts: map<Id, nat>, id: Id, sid: Id)
    requires id in db.turns && id !in done && AgentsFit(db, agents, ids, done, counts, sid)
    ensures AgentsFit(db, agents, ids, done + {id}, AddAgent(counts, ids, db.turns[id], id in agents), sid)
  {
    assert VisitedAgents(db, agents, done + {id}, sid) ==
      VisitedAgents(db, agents, done, sid) + if db.turns[id].sessionId == sid && id in agents then {id} else {};
  }

  /** `sub_agg`: a sum over every turn of the sessions, 1 for a turn with a subagent type and 0 for any other. */
  method GroupAgents(db: Rows, agents: set<Id>, ids: set<Id>) returns (counts: map<Id, nat>)
    ensures forall sid :: AgentsFit(db, agents, ids, db.turns.Keys, counts, sid)
  {
    counts := map[];
    var todo := db.turns.Keys;
    ghost var done: set<Id> := {};
    forall sid ensures AgentsFit(db, agents, ids, done, counts, sid) {
      assert VisitedAgents(db, agents, done, sid) == {};
    }
    while todo != {}
      invariant done !! todo && done + todo == db.turns.Keys
      invariant forall sid :: AgentsFit(db, agents, ids, done, counts, sid)
    {
      var id :| id in todo;
      var next := AddAgent(counts, ids, db.turns[id], id in agents);
      forall sid ensures AgentsFit(db, agents, ids, done + {id}, next, sid) {
        AgentsFitNext(db, agents, ids, done, counts, id, sid);
      }
      counts := next;
      todo, done := todo - {id}, done + {id};
    }
  }

  /** One row of the batched query; `turnCount` is null if the session row is missing. */
  datatype MetricsRow = MetricsRow(turnCount: Option<nat>, rereadCount: nat, counts: Counts, compactionCount: nat,
                                   withAgent: nat)

  ghost function RowOf(db: Rows, agents: set<Id>, sid: Id): MetricsRow {
    var cs := ToolCallsOf(db.toolCalls, db.turns, sid);
    MetricsRow(if sid in db.sessions then Some(db.sessions[sid].turnCount) else None,
               RereadCount(db.toolCalls, cs), CountsOf(db.toolCalls, cs), |EventsOf(db, sid)|,
               |AgentTurns(db, agents, sid)|)
  }

  function AssembleRow(db: Rows, rereads: map<Id, nat>, counts: map<Id, Counts>, events: map<Id, nat>,
                       withAgent: map<Id, nat>, sid: Id): MetricsRow
  {
    MetricsRow(if sid in db.sessions then Some(db.sessions[sid].turnCount) else None,
               NatIn(rereads, sid), CountsIn(counts, sid), NatIn(events, sid), NatIn(withAgent, sid))
  }

  lemma RowAssembled(db: Rows, agents: set<Id>, ids: set<Id>, rereads: map<Id, nat>, counts: map<Id, Counts>,
                     events: map<Id, nat>, withAgent: map<Id, nat>, sid: Id)
    requires sid in ids
    requires NatIn(rereads, sid) == RereadCount(db.toolCalls, ToolCallsOf(db.toolCalls, db.turns, sid))
    requires CountsFit(db, ids, db.toolCalls.Keys, counts, sid)
    requires EventsFit(ids, db.events.Keys, events, sid)
    requires AgentsFit(db, agents, ids, db.turns.Keys, withAgent, sid)
    ensures AssembleRow(db, rereads, counts, events, withAgent, sid) == RowOf(db, agents, sid)
  {
    VisitedAll(db, sid);
    assert VisitedEvents(db.events.Keys, sid) == EventsOf(db, sid);
    assert VisitedAgents(db, agents, db.turns.Keys, sid) == AgentTurns(db, agents, sid);
  }

  /** The batched query: one row for every id, each group left-joined to it. */
  method AggregateMetricsForSessions(db: Rows, agents: set<Id>, ids: set<Id>) returns (rows: map<Id, MetricsRow>)
    ensures rows.Keys == ids
    ensures forall sid <- ids :: rows[sid] == RowOf(db, agents, sid)
  {
    var counts := GroupCounts(db, ids);
    var rereads := SumRereads(db, ids);
    var events := GroupEvents(db, ids);
    var withAgent := GroupAgents(db, agents, ids);
    rows := map sid | sid in ids :: AssembleRow(db, rereads, counts, events, withAgent, sid);
    forall sid <- ids
      ensures rows[sid] == RowOf(db, agents, sid)
    {
      RowAssembled(db, agents, ids, rereads, counts, events, withAgent, sid);
    }
  }

  /** Every per-session metric but the tokens before the first edit can be read off the batched row. */
  lemma RowGivesMetrics(db: Rows, agents: set<Id>, sid: Id)
    ensures var (row, p) := (RowOf(db, agents, sid), PersonalSession(db, agents, sid));
      && (row.turnCount.None? <==> p.None?)
      && (p.Some? ==>
            && p.value.rereadCount == row.rereadCount && p.value.compactionEventCount == row.compactionCount
            && p.value.toolErrorRate == Ratio(row.counts.errorCalls, row.counts.allCalls)
            && p.value.readsToEditsRatio == Ratio(row.counts.readCalls, row.counts.editCalls)
            && p.value.subagentUsageRatio == Ratio(row.withAgent, row.turnCount.value))
  {
  }

  // ---------------------------------------------------------------- averages over the window

  function Total(vals: seq<Option<real>>): real
    decreases |vals|
  {
    if vals == [] then 0.0
    else Total(vals[..|vals| - 1]) + if vals[|vals| - 1].Some? then vals[|vals| - 1].value else 0.0
  }

  function CountPresent(vals: seq<Option<real>>): nat
    decreases |vals|
  {
    if vals == [] then 0 else CountPresent(vals[..|vals| - 1]) + if vals[|vals| - 1].Some? then 1 else 0
  }

  /** The mean of the values that are present; null if none is. */
  function AvgExcludingNull(vals: seq<Option<real>>): Option<real> {
    if CountPresent(vals) == 0 then None else Some(Total(vals) / CountPresent(vals) as real)
  }

  function Without<T>(b: seq<T>, i: nat): seq<T>
    requires i < |b|
  {
    b[..i] + b[i + 1..]
  }

  lemma MultisetWithout<T>(b: seq<T>, i: nat)
    requires i < |b|
    ensures multiset(Without(b, i)) == multiset(b) - multiset{b[i]}
  {
    assert b == b[..i] + [b[i]] + b[i + 1..];
  }

  function Amount(v: Option<real>): real {
    if v.Some? then v.value else 0.0
  }

  lemma {:induction false} TotalWithout(b: seq<Option<real>>, i: nat)
    requires i < |b|
    ensures Total(b) == Total(Without(b, i)) + Amount(b[i])
    ensures CountPresent(b) == CountPresent(Without(b, i)) + if b[i].Some? then 1 else 0
    decreases |b|
  {
    var n := |b| - 1;
    if i == n {
      assert Without(b, i) == b[..n];
    } else {
      TotalWithout(b[..n], i);
      assert Without(b, i)[..n - 1] == Without(b[..n], i) && Without(b, i)[n - 1] == b[n];
    }
  }

  /** The average does not depend on the order in which the window query yields its rows. */
  lemma {:induction false} AverageAnyOrder(a: seq<Option<real>>, b: seq<Option<real>>)
    requires multiset(a) == multiset(b)
    ensures Total(a) == Total(b) && CountPresent(a) == CountPresent(b)
    ensures AvgExcludingNull(a) == AvgExcludingNull(b)
    decreases |a|
  {
    assert |a| == |multiset(a)| == |multiset(b)| == |b|;
    if a != [] {
      assert a[0] in multiset(b);
      var i :| 0 <= i < |b| && b[i] == a[0];
      MultisetWithout(a, 0);
      MultisetWithout(b, i);
      AverageAnyOrder(Without(a, 0), Without(b, i));
      TotalWithout(a, 0);
      TotalWithout(b, i);
    }
  }

  /** Values that are all present. */
  function AllPresent(xs: seq<real>): seq<Option<real>> {
    seq(|xs|, i requires 0 <= i < |xs| => Some(xs[i]))
  }

  function RealSum(xs: seq<real>): real
    decreases |xs|
  {
    if xs == [] then 0.0 else RealSum(xs[..|xs| - 1]) + xs[|xs| - 1]
  }

  lemma {:induction false} TotalPresent(xs: seq<real>)
    ensures Total(AllPresent(xs)) == RealSum(xs) && CountPresent(AllPresent(xs)) == |xs|
    decreases |xs|
  {
    if xs != [] {
      TotalPresent(xs[..|xs| - 1]);
      assert AllPresent(xs)[..|xs| - 1] == AllPresent(xs[..|xs| - 1]);
    }
  }

  /** The average of values that are all present is their plain mean, and there is none of no values. */
  lemma AverageIsMean(xs: seq<real>)
    ensures AvgExcludingNull(AllPresent(xs)) == if xs == [] then None else Some(RealSum(xs) / |xs| as real)
  {
    TotalPresent(xs);
  }

  /** A null leaves the average as it was, wherever it stands. */
  lemma NullIsSkipped(vals: seq<Option<real>>, i: nat)
    requires i < |vals| && vals[i].None?
    ensures AvgExcludingNull(vals) == AvgExcludingNull(Without(vals, i))
  {
    TotalWithout(vals, i);
  }

  /** The values that are present, in order. */
  function Present(vals: seq<Option<real>>): seq<real>
    decreases |vals|
  {
    if vals == [] then []
    else
      var front := Present(vals[..|vals| - 1]);
      match vals[|vals| - 1]
      case None => front
      case Some(x) => front + [x]
  }

  lemma {:induction false} TotalOfPresent(vals: seq<Option<real>>)
    ensures Total(vals) == RealSum(Present(vals)) && CountPresent(vals) == |Present(vals)|
    decreases |vals|
  {
    if vals != [] {
      var front := vals[..|vals| - 1];
      TotalOfPresent(front);
      if vals[|vals| - 1].Some? {
        assert (Present(front) + [vals[|vals| - 1].value])[..|Present(front)|] == Present(front);
      }
    }
  }

  /** For any values the average is the plain mean of those that are present. */
  lemma AverageOfPresent(vals: seq<Option<real>>)
    ensures AvgExcludingNull(vals) ==
      if Present(vals) == [] then None else Some(RealSum(Present(vals)) / |Present(vals)| as real)
  {
    TotalOfPresent(vals);
  }

  method SelectLeast(s: set<int>) returns (m: int)
    requires s != {}
    ensures m == Least(s)
  {
    LeastExists(s);
    m :| m in s && forall x <- s :: m <= x;
  }

  /** The two statements behind `tokensUntilFirstEdit`, the second of which needs the result of the first. */
  method SelectTokensUntilFirstEdit(db: Rows, sid: Id) returns (tokens: Option<nat>)
    ensures tokens == TokensUntilFirstEdit(db, sid)
  {
    var sequences := EditSequences(db, sid);
    if sequences == {} { return None; }
    var first := SelectLeast(sequences);
    if first <= 1 { return Some(0); }
    var rows := TurnsBefore(db.turns, sid, first);
    var input := ReconcileSql.SelectSum(rows, Input);
    var output := ReconcileSql.SelectSum(rows, Output);
    var creation := ReconcileSql.SelectSum(rows, CacheCreation);
    return Some(input + output + creation);
  }

  function Window(db: Rows, cutoff: int): set<Id> {
    set sid | sid in db.sessions && db.sessions[sid].startedAt >= cutoff
  }

  function WithCompaction(db: Rows, window: set<Id>): set<Id> {
    set k | k in db.events && k.sessionId in window :: k.sessionId
  }

  function AsReal(n: Option<nat>): Option<real> {
    if n.None? then None else Some(n.value as real)
  }

  /** Which of the four averaged metrics. */
  datatype Metric = Rereads | Tokens | ReadsToEdits | ToolErrors

  /** A metric of a session, as `getPersonalEffectivenessSession` reports it. */
  ghost function MetricOf(db: Rows, agents: set<Id>, sid: Id, m: Metric): Option<real> {
    match PersonalSession(db, agents, sid)
    case None => None
    case Some(p) =>
      match m
      case Rereads => Some(p.rereadCount as real)
      case Tokens => AsReal(p.tokensUntilFirstEdit)
      case ReadsToEdits => p.readsToEditsRatio
      case ToolErrors => p.toolErrorRate
  }

  ghost function Values(db: Rows, agents: set<Id>, order: seq<Id>, m: Metric): seq<Option<real>> {
    seq(|order|, i requires 0 <= i < |order| => MetricOf(db, agents, order[i], m))
  }

  lemma ValuesNext(db: Rows, agents: set<Id>, order: seq<Id>, i: nat, m: Metric)
    requires i < |order|
    ensures Values(db, agents, order[..i + 1], m)
         == Values(db, agents, order[..i], m) + [MetricOf(db, agents, order[i], m)]
  {
  }

  datatype Aggregates = Aggregates(avgRereadCount: Option<real>, avgTokensUntilFirstEdit: Option<real>,
                                   avgReadsToEditsRatio: Option<real>, avgToolErrorRate: Option<real>,
                                   sessionsWithCompaction: nat, totalSessions: nat)

  lemma WindowIs(db: Rows, cutoff: int, order: seq<Id>)
    requires forall sid :: sid in order <==> sid in db.sessions && db.sessions[sid].startedAt >= cutoff
    ensures Window(db, cutoff) == set sid | sid in db.sessions && db.sessions[sid].startedAt >= cutoff
    ensures forall sid :: sid in order <==> sid in Window(db, cutoff)
    ensures WithCompaction(db, Window(db, cutoff)) == set k | k in db.events && k.sessionId in order :: k.sessionId
    ensures Window(db, cutoff) == {} <==> order == []
  {
    if order != [] { assert order[0] in order; }
  }

  /** The loop over the window: one value a session and metric, read off the batched row. */
  method CollectValues(db: Rows, agents: set<Id>, order: seq<Id>, rows: map<Id, MetricsRow>)
    returns (rereads: seq<Option<real>>, tokens: seq<Option<real>>, ratios: seq<Option<real>>,
             errors: seq<Option<real>>)
    requires forall sid <- order :: sid in db.sessions && sid in rows && rows[sid] == RowOf(db, agents, sid)
    ensures rereads == Values(db, agents, order, Rereads) && tokens == Values(db, agents, order, Tokens)
    ensures ratios == Values(db, agents, order, ReadsToEdits) && errors == Values(db, agents, order, ToolErrors)
  {
    rereads, tokens, ratios, errors := [], [], [], [];
    for i := 0 to |order|
      invariant rereads == Values(db, agents, order[..i], Rereads) && tokens == Values(db, agents, order[..i], Tokens)
      invariant ratios == Values(db, agents, order[..i], ReadsToEdits)
      invariant errors == Values(db, agents, order[..i], ToolErrors)
    {
      var sid := order[i];
      var row := rows[sid];
      ValuesNext(db, agents, order, i, Rereads);
      ValuesNext(db, agents, order, i, Tokens);
      ValuesNext(db, agents, order, i, ReadsToEdits);
      ValuesNext(db, agents, order, i, ToolErrors);
      var untilEdit := SelectTokensUntilFirstEdit(db, sid);
      rereads := rereads + [Some(row.rereadCount as real)];
      tokens := tokens + [AsReal(untilEdit)];
      ratios := ratios + [Ratio(row.counts.readCalls, row.counts.editCalls)];
      errors := errors + [Ratio(row.counts.errorCalls, row.counts.allCalls)];
    }
    assert order[..|order|] == order;
  }

  /** The batched form equals the simple one: every average is the null-skipping average of the per-session
      metric over the sessions of the window, in whatever `order` the window query yields them. */
  method GetPersonalEffectivenessAggregates(db: Rows, agents: set<Id>, cutoff: int, order: seq<Id>)
    returns (r: Aggregates)
    requires forall sid :: sid in order <==> sid in db.sessions && db.sessions[sid].startedAt >= cutoff
    ensures r.avgRereadCount == AvgExcludingNull(Values(db, agents, order, Rereads))
    ensures r.avgTokensUntilFirstEdit == AvgExcludingNull(Values(db, agents, order, Tokens))
    ensures r.avgReadsToEditsRatio == AvgExcludingNull(Values(db, agents, order, ReadsToEdits))
    ensures r.avgToolErrorRate == AvgExcludingNull(Values(db, agents, order, ToolErrors))
    ensures r.sessionsWithCompaction == |set k | k in db.events && k.sessionId in order :: k.sessionId|
    ensures r.totalSessions == |set sid | sid in db.sessions && db.sessions[sid].startedAt >= cutoff|
  {
    var window := Window(db, cutoff);
    var compacted := WithCompaction(db, window);
    WindowIs(db, cutoff, order);
    if window == {} {
      return Aggregates(None, None, None, None, |compacted|, 0);
    }
    var rows := AggregateMetricsForSessions(db, agents, window);
    var rereads, tokens, ratios, errors := CollectValues(db, agents, order, rows);
    r := Aggregates(AvgExcludingNull(rereads), AvgExcludingNull(tokens), AvgExcludingNull(ratios),
                    AvgExcludingNull(errors), |compacted|, |window|);
  }
}
