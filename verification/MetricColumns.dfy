/** What the effectiveness metrics are, said of the columns they are computed from. */
module MetricColumns {
  import opened Options
  import opened Tables
  import opened Effectiveness
  import opened ReconcileColumns

  /** The tool calls in the turns of a session. */
  function CallIds(db: Rows, sid: Id): set<Id> {
    set c | c in db.toolCalls && db.toolCalls[c].turnId in db.turns
            && db.turns[db.toolCalls[c].turnId].sessionId == sid
  }

  /** Those with one of some names. */
  function Named(db: Rows, sid: Id, names: set<ToolName>): set<Id> {
    set c | c in CallIds(db, sid) && c in db.toolCalls && db.toolCalls[c].name in names
  }

  /** A quotient, or null if there is nothing to divide by. */
  predicate IsRatio(r: Option<real>, n: nat, d: nat) {
    if d == 0 then r.None? else r.Some? && r.value * d as real == n as real
  }

  lemma RatioIs(n: nat, d: nat)
    ensures IsRatio(Ratio(n, d), n, d)
  {
  }

  lemma CallsAre(db: Rows, sid: Id)
    ensures ToolCallsOf(db.toolCalls, db.turns, sid) == CallIds(db, sid)
  {
  }

  lemma CountsAre(db: Rows, sid: Id)
    ensures var counts := CountsOf(db.toolCalls, ToolCallsOf(db.toolCalls, db.turns, sid));
      && counts.readCalls == |Named(db, sid, {Read})|
      && counts.editCalls == |Named(db, sid, {Edit, MultiEdit, Write})|
      && counts.errorCalls == |set c | c in CallIds(db, sid) && db.toolCalls[c].isError|
      && counts.allCalls == |CallIds(db, sid)|
  {
    var cs := ToolCallsOf(db.toolCalls, db.turns, sid);
    CallsAre(db, sid);
    assert Matching(db.toolCalls, cs, IsRead) == Named(db, sid, {Read});
    assert Matching(db.toolCalls, cs, IsEdit) == Named(db, sid, {Edit, MultiEdit, Write});
    assert Matching(db.toolCalls, cs, (c: ToolCall) => c.isError)
        == set c | c in CallIds(db, sid) && db.toolCalls[c].isError;
    assert Matching(db.toolCalls, cs, (c: ToolCall) => true) == CallIds(db, sid);
  }

  /** The error rate is failed calls over calls, and reads to edits is Read calls over Edit, MultiEdit and Write calls;
      each is null if there is nothing to divide by. */
  lemma RatesAre(db: Rows, agents: set<Id>, sid: Id)
    requires sid in db.sessions
    ensures IsRatio(MetricOf(db, agents, sid, ToolErrors),
                    |set c | c in CallIds(db, sid) && db.toolCalls[c].isError|, |CallIds(db, sid)|)
    ensures IsRatio(MetricOf(db, agents, sid, ReadsToEdits),
                    |Named(db, sid, {Read})|, |Named(db, sid, {Edit, MultiEdit, Write})|)
  {
    var counts := CountsOf(db.toolCalls, ToolCallsOf(db.toolCalls, db.turns, sid));
    CountsAre(db, sid);
    RatioIs(counts.errorCalls, counts.allCalls);
    RatioIs(counts.readCalls, counts.editCalls);
  }

  function ReadsWithPath(db: Rows, sid: Id): set<Id> {
    set c | c in Named(db, sid, {Read}) && c in db.toolCalls && db.toolCalls[c].path.Some?
  }

  /** The re-reads are the Read calls that name a path less the paths they name; compactions are counted by event. */
  lemma RereadsAre(db: Rows, agents: set<Id>, sid: Id)
    requires sid in db.sessions
    ensures var paths := set c | c in ReadsWithPath(db, sid) :: db.toolCalls[c].path.value;
      MetricOf(db, agents, sid, Rereads) == Some((|ReadsWithPath(db, sid)| - |paths|) as real)
    ensures PersonalSession(db, agents, sid).Some?
    ensures PersonalSession(db, agents, sid).value.compactionEventCount
         == |set k | k in db.events && k.sessionId == sid|
  {
    var cs := ToolCallsOf(db.toolCalls, db.turns, sid);
    CallsAre(db, sid);
    RereadIsReadsMinusPaths(db.toolCalls, cs);
    assert Matching(db.toolCalls, cs, ReadsPath) == ReadsWithPath(db, sid);
    assert PathsRead(db.toolCalls, cs) == set c | c in ReadsWithPath(db, sid) :: db.toolCalls[c].path.value;
    assert EventsOf(db, sid) == set k | k in db.events && k.sessionId == sid;
  }

  /** The subagent ratio is the session's turns with a subagent type over its stored turn count. */
  lemma SubagentRatioIs(db: Rows, agents: set<Id>, sid: Id)
    requires sid in db.sessions
    ensures PersonalSession(db, agents, sid).Some?
    ensures IsRatio(PersonalSession(db, agents, sid).value.subagentUsageRatio,
                    |TurnIds(db.turns, sid) * agents|, db.sessions[sid].turnCount)
  {
    assert AgentTurns(db, agents, sid) == TurnIds(db.turns, sid) * agents;
    RatioIs(|AgentTurns(db, agents, sid)|, db.sessions[sid].turnCount);
  }

  /** The turn of this edit has the least sequence of all edits of the session. */
  ghost predicate IsFirstEdit(db: Rows, sid: Id, c: Id) {
    && c in Named(db, sid, {Edit, MultiEdit, Write})
    && forall d <- Named(db, sid, {Edit, MultiEdit, Write}) ::
         db.turns[db.toolCalls[c].turnId].sequence <= db.turns[db.toolCalls[d].turnId].sequence
  }

  lemma EditsAre(db: Rows, sid: Id)
    ensures EditSequences(db, sid) == set c | c in Named(db, sid, {Edit, MultiEdit, Write}) ::
                                        db.turns[db.toolCalls[c].turnId].sequence
  {
    CallsAre(db, sid);
    forall c <- ToolCallsOf(db.toolCalls, db.turns, sid)
      ensures IsEdit(db.toolCalls[c]) <==> c in Named(db, sid, {Edit, MultiEdit, Write})
    {
    }
  }

  lemma TokensBeforeAre(turns: map<Id, Turn>, sid: Id, sequence: int, before: set<Id>)
    requires before == set id | id in turns && turns[id].sessionId == sid && turns[id].sequence < sequence
    ensures TokensBefore(turns, sid, sequence) ==
      Added(turns, before, InputTokens) + Added(turns, before, OutputTokens)
      + Added(turns, before, CacheCreationTokens)
  {
    var rows := TurnsBefore(turns, sid, sequence);
    assert rows.Keys == before;
    SumIsAdded(turns, before, rows, Input, InputTokens);
    SumIsAdded(turns, before, rows, Output, OutputTokens);
    SumIsAdded(turns, before, rows, CacheCreation, CacheCreationTokens);
  }

  lemma NoEditNoTokens(db: Rows, agents: set<Id>, sid: Id)
    requires sid in db.sessions
    ensures MetricOf(db, agents, sid, Tokens).None? <==> Named(db, sid, {Edit, MultiEdit, Write}) == {}
  {
    EditsAre(db, sid);
    if c :| c in Named(db, sid, {Edit, MultiEdit, Write}) {
      assert db.turns[db.toolCalls[c].turnId].sequence in EditSequences(db, sid);
    }
  }

  lemma FirstEditIsLeast(db: Rows, sid: Id, c: Id)
    requires IsFirstEdit(db, sid, c)
    ensures EditSequences(db, sid) != {}
    ensures Least(EditSequences(db, sid)) == db.turns[db.toolCalls[c].turnId].sequence
  {
    EditsAre(db, sid);
    assert db.turns[db.toolCalls[c].turnId].sequence in EditSequences(db, sid);
  }

  /** The tokens until the first edit: none if its turn is the first, and otherwise the input, output and cache-creation
      tokens of the turns of the session before it. */
  lemma TokensUntilEdit(db: Rows, agents: set<Id>, sid: Id, c: Id, first: int, before: set<Id>)
    requires sid in db.sessions && IsFirstEdit(db, sid, c) && first == db.turns[db.toolCalls[c].turnId].sequence
    requires before == set id | id in db.turns && db.turns[id].sessionId == sid && db.turns[id].sequence < first
    ensures MetricOf(db, agents, sid, Tokens) == Some(
      if first <= 1 then 0.0
      else (Added(db.turns, before, InputTokens) + Added(db.turns, before, OutputTokens)
            + Added(db.turns, before, CacheCreationTokens)) as real)
  {
    FirstEditIsLeast(db, sid, c);
    TokensBeforeAre(db.turns, sid, first, before);
  }
}
