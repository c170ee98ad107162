/** What reporter runs guarantee against a server that answers however it likes. */
module RunnerLaws {
  import opened Options
  import opened Client
  import opened Runner
  import OfflineQueue

  // ---------------------------------------------------------------- accounting

  /** Payloads of batches after the first one that failed. */
  function NeverAttempted(i: Input, prepared: seq<Prepared>): nat {
    var k := AckedBatches(i.servers, |prepared|, 0);
    |prepared| - Min(Start(k + 1), |prepared|)
  }

  /** Every candidate is pushed, skipped, failed or queued, but for those never attempted after a failure. */
  lemma RunAccounts(i: Input, pushed: map<Id, Mark>, order: seq<Id>)
    requires !i.dryRun && forall id <- order :: id in i.infos
    ensures var r := Run(i, pushed, order).result;
      r.pushed + r.skipped + r.failed + r.queued
        + NeverAttempted(i, PrepareAll(i.infos, pushed, order, i.digest).prepared)
        == |order|
  {
  }

  // ---------------------------------------------------------------- what is prepared

  ghost predicate Distinct(order: seq<Id>) {
    forall i, j | 0 <= i < j < |order| :: order[i] != order[j]
  }

  ghost predicate DistinctSessions(ps: seq<Prepared>) {
    forall i, j | 0 <= i < j < |ps| :: ps[i].payload.sessionId != ps[j].payload.sessionId
  }

  lemma {:induction false} PreparedByGate(infos: map<Id, Info>, pushed: map<Id, Mark>, order: seq<Id>,
                                          digest: Payload -> int, e: Prepared)
    requires forall id <- order :: id in infos
    ensures e in PrepareAll(infos, pushed, order, digest).prepared <==>
      e.payload.sessionId in order
      && GateOf(infos[e.payload.sessionId], MarkOf(pushed, e.payload.sessionId), e.payload.sessionId, digest)
         == Sanitized(e)
    decreases |order|
  {
    if order != [] {
      var n := |order| - 1;
      PreparedByGate(infos, pushed, order[..n], digest, e);
      assert order == order[..n] + [order[n]];
    }
  }

  /** The row's mark, if there is one, carries another hash than that of the payload. */
  predicate Differs(pushed: map<Id, Mark>, id: Id, hash: int) {
    id !in pushed || pushed[id].hash != hash
  }

  /** What is prepared is the payload, with its hash, of exactly the candidates that sanitize and whose mark, if they
      have one, does not carry that hash. */
  lemma PreparedIff(infos: map<Id, Info>, pushed: map<Id, Mark>, order: seq<Id>, digest: Payload -> int, e: Prepared)
    requires forall id <- order :: id in infos
    ensures var id := e.payload.sessionId;
      e in PrepareAll(infos, pushed, order, digest).prepared <==>
        && id in order && infos[id].content.Some? && e.payload == Payload(id, infos[id].content.value)
        && e.hash == digest(e.payload) && Differs(pushed, id, e.hash)
  {
    PreparedByGate(infos, pushed, order, digest, e);
  }

  /** Candidates with content whose mark carries the hash of their payload. */
  function UnchangedIds(infos: map<Id, Info>, pushed: map<Id, Mark>, ids: set<Id>, digest: Payload -> int): set<Id> {
    set id | id in ids && id in infos && infos[id].content.Some? && id in pushed
             && pushed[id].hash == digest(Payload(id, infos[id].content.value))
  }

  function UnsanitizedIds(infos: map<Id, Info>, ids: set<Id>): set<Id> {
    set id | id in ids && id in infos && infos[id].content.None?
  }

  lemma OneMoreUnchanged(infos: map<Id, Info>, pushed: map<Id, Mark>, ids: set<Id>, id: Id, digest: Payload -> int)
    requires id !in ids && id in infos
    ensures |UnchangedIds(infos, pushed, ids + {id}, digest)|
         == |UnchangedIds(infos, pushed, ids, digest)|
            + if GateOf(infos[id], MarkOf(pushed, id), id, digest).Skip? then 1 else 0
  {
    var was, now := UnchangedIds(infos, pushed, ids, digest), UnchangedIds(infos, pushed, ids + {id}, digest);
    assert id in now <==> GateOf(infos[id], MarkOf(pushed, id), id, digest).Skip?;
    if id in now { assert now == was + {id}; } else { assert now == was; }
  }

  lemma OneMoreUnsanitized(infos: map<Id, Info>, ids: set<Id>, id: Id)
    requires id !in ids && id in infos
    ensures |UnsanitizedIds(infos, ids + {id})|
         == |UnsanitizedIds(infos, ids)| + if infos[id].content.None? then 1 else 0
  {
    assert UnsanitizedIds(infos, ids + {id})
        == UnsanitizedIds(infos, ids) + if infos[id].content.None? then {id} else {};
  }

  lemma LastCandidate(order: seq<Id>, ids: set<Id>)
    requires order != [] && Distinct(order) && forall id :: id in ids <==> id in order
    ensures var (front, id) := (order[..|order| - 1], order[|order| - 1]);
      Distinct(front) && id in ids && forall o :: o in ids - {id} <==> o in front
  {
    assert order == order[..|order| - 1] + [order[|order| - 1]];
  }

  /** Skipped are exactly the candidates whose mark carries the hash of their payload, failed those that do not
      sanitize. */
  lemma {:induction false} SkippedAndFailed(infos: map<Id, Info>, pushed: map<Id, Mark>, order: seq<Id>, ids: set<Id>,
                                            digest: Payload -> int)
    requires Distinct(order) && (forall id <- order :: id in infos) && forall id :: id in ids <==> id in order
    ensures var b := PrepareAll(infos, pushed, order, digest);
      b.skipped == |UnchangedIds(infos, pushed, ids, digest)| && b.failed == |UnsanitizedIds(infos, ids)|
    decreases |order|
  {
    if order == [] {
      assert ids == {} && UnchangedIds(infos, pushed, ids, digest) == {} && UnsanitizedIds(infos, ids) == {};
    } else {
      var front, id := order[..|order| - 1], order[|order| - 1];
      LastCandidate(order, ids);
      SkippedAndFailed(infos, pushed, front, ids - {id}, digest);
      OneMoreUnchanged(infos, pushed, ids - {id}, id, digest);
      OneMoreUnsanitized(infos, ids - {id}, id);
      assert ids - {id} + {id} == ids;
    }
  }

  /** The candidate of payload `j` stands at place `a` in the answer to the query. */
  predicate PlacedAt(order: seq<Id>, ps: seq<Prepared>, j: nat, a: nat) {
    j < |ps| && a < |order| && order[a] == ps[j].payload.sessionId
  }

  /** Payloads are prepared in the order of the candidates. */
  lemma {:induction false} PreparedInOrder(infos: map<Id, Info>, pushed: map<Id, Mark>, order: seq<Id>,
                                           digest: Payload -> int, i: nat, j: nat) returns (a: nat, b: nat)
    requires forall id <- order :: id in infos
    requires i < j < |PrepareAll(infos, pushed, order, digest).prepared|
    ensures var ps := PrepareAll(infos, pushed, order, digest).prepared;
      a < b && PlacedAt(order, ps, i, a) && PlacedAt(order, ps, j, b)
    decreases |order|
  {
    var n := |order| - 1;
    var ps := PrepareAll(infos, pushed, order[..n], digest).prepared;
    if j < |ps| {
      a, b := PreparedInOrder(infos, pushed, order[..n], digest, i, j);
    } else {
      b := n;
      assert ps[i] in ps;
      PreparedByGate(infos, pushed, order[..n], digest, ps[i]);
      a :| 0 <= a < n && order[..n][a] == ps[i].payload.sessionId;
    }
  }

  /** The candidates: never pushed, started recently, or ingested, rated or evaluated after the mark; each once, the
      earliest start first. */
  lemma CandidatesAnswered(infos: map<Id, Info>, pushed: map<Id, Mark>, cutoff: int, order: seq<Id>, id: Id)
    requires Answers(infos, pushed, cutoff, order)
    ensures id in order <==>
      id in infos &&
      (id !in pushed ||
       var (info, at) := (infos[id], pushed[id].at);
       info.ingestedAt > at || info.startedAt >= cutoff || (exists r <- info.ratedAt :: r > at)
       || (info.lastEvaluatedAt.Some? && info.lastEvaluatedAt.value > at))
    ensures Distinct(order)
    ensures forall i, j | 0 <= i < j < |order| ::
      order[i] in infos && order[j] in infos && infos[order[i]].startedAt <= infos[order[j]].startedAt
  {
    assert id in order <==> id in Elements(order);
  }

  lemma {:induction false} PreparedDistinct(infos: map<Id, Info>, pushed: map<Id, Mark>, order: seq<Id>,
                                            digest: Payload -> int)
    requires Distinct(order) && forall id <- order :: id in infos
    ensures DistinctSessions(PrepareAll(infos, pushed, order, digest).prepared)
    decreases |order|
  {
    if order != [] {
      var n := |order| - 1;
      var front := PrepareAll(infos, pushed, order[..n], digest).prepared;
      PreparedDistinct(infos, pushed, order[..n], digest);
      forall i | 0 <= i < |front|
        ensures front[i].payload.sessionId != order[n]
      {
        PreparedByGate(infos, pushed, order[..n], digest, front[i]);
      }
    }
  }

  // ---------------------------------------------------------------- marks

  lemma {:induction false} MarkBatchKeeps(pushed: map<Id, Mark>, entries: seq<Prepared>, now: int, id: Id)
    requires forall m | 0 <= m < |entries| :: entries[m].payload.sessionId != id
    ensures MarkOf(MarkBatch(pushed, entries, now), id) == MarkOf(pushed, id)
    decreases |entries|
  {
    if entries != [] { MarkBatchKeeps(pushed, entries[..|entries| - 1], now, id); }
  }

  lemma {:induction false} MarkBatchSets(pushed: map<Id, Mark>, entries: seq<Prepared>, now: int, m: nat)
    requires DistinctSessions(entries) && m < |entries|
    ensures MarkOf(MarkBatch(pushed, entries, now), entries[m].payload.sessionId) == Some(Mark(entries[m].hash, now))
    decreases |entries|
  {
    if m < |entries| - 1 { MarkBatchSets(pushed, entries[..|entries| - 1], now, m); }
  }

  /** How many payloads the first `k` batches hold. */
  function MarkedCount(prepared: seq<Prepared>, k: nat): nat {
    Min(Start(k), |prepared|)
  }

  lemma ChunkAt(prepared: seq<Prepared>, k: nat)
    ensures |Chunk(prepared, k)| == MarkedCount(prepared, k + 1) - MarkedCount(prepared, k)
    ensures forall j | 0 <= j < |Chunk(prepared, k)| :: Chunk(prepared, k)[j] == prepared[MarkedCount(prepared, k) + j]
  {
  }

  lemma ChunkDistinct(prepared: seq<Prepared>, k: nat)
    requires DistinctSessions(prepared)
    ensures DistinctSessions(Chunk(prepared, k))
  {
    ChunkAt(prepared, k);
  }

  lemma NotInLaterChunk(prepared: seq<Prepared>, j: nat, k: nat)
    requires DistinctSessions(prepared) && j < Start(k) && j < |prepared|
    ensures forall m | 0 <= m < |Chunk(prepared, k)| ::
              Chunk(prepared, k)[m].payload.sessionId != prepared[j].payload.sessionId
  {
    ChunkAt(prepared, k);
  }

  lemma MarkedByItsBatch(pushed: map<Id, Mark>, prepared: seq<Prepared>, now: int, b: nat, j: nat)
    requires DistinctSessions(prepared) && Start(b) <= j < Start(b + 1) && j < |prepared|
    ensures MarkOf(MarkBatch(pushed, Chunk(prepared, b), now), prepared[j].payload.sessionId)
         == Some(Mark(prepared[j].hash, now))
  {
    ChunkAt(prepared, b);
    ChunkDistinct(prepared, b);
    MarkBatchSets(pushed, Chunk(prepared, b), now, j - Start(b));
  }

  /** Payload `j` of batch `b` keeps the mark that batch gave it. */
  lemma {:induction false} MarkedInBatch(pushed: map<Id, Mark>, prepared: seq<Prepared>, clock: nat -> int,
                                         k: nat, b: nat, j: nat)
    requires DistinctSessions(prepared) && b < k && Start(b) <= j < Start(b + 1) && j < |prepared|
    ensures MarkOf(MarkedAfter(pushed, prepared, clock, k), prepared[j].payload.sessionId)
         == Some(Mark(prepared[j].hash, clock(b)))
    decreases k
  {
    var before := MarkedAfter(pushed, prepared, clock, k - 1);
    assert MarkedAfter(pushed, prepared, clock, k) == MarkBatch(before, Chunk(prepared, k - 1), clock(k - 1));
    if b < k - 1 {
      MarkedInBatch(pushed, prepared, clock, k - 1, b, j);
      NotInLaterChunk(prepared, j, k - 1);
      MarkBatchKeeps(before, Chunk(prepared, k - 1), clock(k - 1), prepared[j].payload.sessionId);
    } else {
      MarkedByItsBatch(before, prepared, clock(b), b, j);
    }
  }

  /** A payload of the first `k` batches is marked with its hash, at the time of its batch. */
  lemma MarkedAt(pushed: map<Id, Mark>, prepared: seq<Prepared>, clock: nat -> int, k: nat, j: nat)
    requires DistinctSessions(prepared) && j < MarkedCount(prepared, k)
    ensures MarkOf(MarkedAfter(pushed, prepared, clock, k), prepared[j].payload.sessionId)
         == Some(Mark(prepared[j].hash, clock(j / 50)))
  {
    MarkedInBatch(pushed, prepared, clock, k, j / 50, j);
  }

  /** A session without a payload in the first `k` batches keeps the mark it had. */
  lemma {:induction false} NotMarked(pushed: map<Id, Mark>, prepared: seq<Prepared>, clock: nat -> int, k: nat, id: Id)
    requires forall j | 0 <= j < MarkedCount(prepared, k) :: prepared[j].payload.sessionId != id
    ensures MarkOf(MarkedAfter(pushed, prepared, clock, k), id) == MarkOf(pushed, id)
    decreases k
  {
    if k > 0 {
      NotMarked(pushed, prepared, clock, k - 1, id);
      ChunkAt(prepared, k - 1);
      MarkBatchKeeps(MarkedAfter(pushed, prepared, clock, k - 1), Chunk(prepared, k - 1), clock(k - 1), id);
    }
  }

  /** The first `n` payloads are marked at the time of their batch, and no other session is. */
  ghost predicate MarksPrefix(before: map<Id, Mark>, after: map<Id, Mark>, ps: seq<Prepared>, clock: nat -> int,
                              n: nat, id: Id)
    requires n <= |ps|
  {
    && (forall j | 0 <= j < n && ps[j].payload.sessionId == id ::
          MarkOf(after, id) == Some(Mark(ps[j].hash, clock(j / 50))))
    && ((forall j | 0 <= j < n :: ps[j].payload.sessionId != id) ==> MarkOf(after, id) == MarkOf(before, id))
  }

  lemma MarkedAfterMarksPrefix(pushed: map<Id, Mark>, ps: seq<Prepared>, clock: nat -> int, k: nat, id: Id)
    requires DistinctSessions(ps)
    ensures MarksPrefix(pushed, MarkedAfter(pushed, ps, clock, k), ps, clock, MarkedCount(ps, k), id)
  {
    var after := MarkedAfter(pushed, ps, clock, k);
    forall j | 0 <= j < MarkedCount(ps, k) && ps[j].payload.sessionId == id
      ensures MarkOf(after, id) == Some(Mark(ps[j].hash, clock(j / 50)))
    {
      MarkedAt(pushed, ps, clock, k, j);
    }
    if forall j | 0 <= j < MarkedCount(ps, k) :: ps[j].payload.sessionId != id {
      NotMarked(pushed, ps, clock, k, id);
    }
  }

  lemma RunMarks(i: Input, pushed: map<Id, Mark>, order: seq<Id>, ps: seq<Prepared>, k: nat)
    requires !i.dryRun && forall id <- order :: id in i.infos
    requires ps == PrepareAll(i.infos, pushed, order, i.digest).prepared && k == AckedBatches(i.servers, |ps|, 0)
    ensures Run(i, pushed, order).pushed == MarkedAfter(pushed, ps, i.clock, k)
  {
  }

  lemma WholeBatches(ps: seq<Prepared>, k: nat)
    ensures MarkedCount(ps, k) == |ps| || MarkedCount(ps, k) % 50 == 0
  {
  }

  /**
   * What a real run marks: the payloads of the whole batches of 50 up to the first that fails, each with its hash at
   * the time of its batch, and no other session.
   */
  lemma RunMarksPrefix(i: Input, pushed: map<Id, Mark>, order: seq<Id>, ps: seq<Prepared>, k: nat, id: Id)
    requires !i.dryRun && Distinct(order) && forall id <- order :: id in i.infos
    requires ps == PrepareAll(i.infos, pushed, order, i.digest).prepared && k == AckedBatches(i.servers, |ps|, 0)
    ensures MarksPrefix(pushed, Run(i, pushed, order).pushed, ps, i.clock, MarkedCount(ps, k), id)
    ensures MarkedCount(ps, k) == |ps| || MarkedCount(ps, k) % 50 == 0
  {
    RunMarks(i, pushed, order, ps, k);
    WholeBatches(ps, k);
    PreparedDistinct(i.infos, pushed, order, i.digest);
    MarkedAfterMarksPrefix(pushed, ps, i.clock, k, id);
  }

  /** The payloads from `a` up to `b`, or up to the end if there are fewer. */
  function Between(ps: seq<Prepared>, a: nat, b: nat): seq<Prepared>
    requires a <= b
  {
    ps[if a < |ps| then a else |ps|..if b < |ps| then b else |ps|]
  }

  /** A real run sends fifty payloads a batch, the last batch being shorter if need be. If the first batch that fails is
      number `k`, it goes into the queue after a transient failure, counts as failed after any other, and no batch after
      it is sent. */
  lemma RunDelivers(i: Input, pushed: map<Id, Mark>, order: seq<Id>, ps: seq<Prepared>, k: nat)
    requires !i.dryRun && forall id <- order :: id in i.infos
    requires ps == PrepareAll(i.infos, pushed, order, i.digest).prepared && k == AckedBatches(i.servers, |ps|, 0)
    ensures var e := Run(i, pushed, order);
      var failed := PrepareAll(i.infos, pushed, order, i.digest).failed;
      && (forall b | 0 <= b < |e.sent| :: e.sent[b] == Between(ps, 50 * b, 50 * b + 50))
      && (forall b | 0 <= b < k :: Outcome(i.servers(b)).Ok?)
      && if 50 * k >= |ps| then
           |e.sent| == k && e.result.pushed == |ps| && e.queued == [] && e.result.failed == failed
         else
           && |e.sent| == k + 1 && e.result.pushed == 50 * k && !Outcome(i.servers(k)).Ok?
           && (if Outcome(i.servers(k)).Transient? then e.queued == e.sent[k] && e.result.failed == failed
               else e.queued == [] && e.result.failed == failed + |e.sent[k]|)
    ensures Run(i, pushed, order).result.queued == |Run(i, pushed, order).queued|
  {
    forall b | 0 <= b < |Run(i, pushed, order).sent|
      ensures Run(i, pushed, order).sent[b] == Between(ps, 50 * b, 50 * b + 50)
    {
      assert Run(i, pushed, order).sent[b] == Chunk(ps, b);
    }
  }

  /** All items, or the last of them if there are more than `max`. */
  function Newest<T>(all: seq<T>, max: nat): seq<T> {
    if |all| <= max then all else all[|all| - max..]
  }

  /** Keeping the newest after each of two steps is keeping the newest once. */
  lemma NewestOfNewest<T>(all: seq<T>, item: T, max: nat)
    requires max >= 1
    ensures OfflineQueue.Last(Newest(all, max) + [item], max) == Newest(all + [item], max)
  {
  }

  lemma QueueTakesOne(q: OfflineQueue.State<Prepared>, maxEntries: nat, all: seq<Prepared>, item: Prepared)
    requires maxEntries >= 1 && OfflineQueue.Items(q.rows) == Newest(all, maxEntries)
    ensures OfflineQueue.Items(OfflineQueue.Enqueued(q, maxEntries, item).rows) == Newest(all + [item], maxEntries)
  {
    OfflineQueue.EnqueueRefinesFifo(q, maxEntries, item);
    NewestOfNewest(all, item, maxEntries);
  }

  lemma LastOfAll(queued: seq<Prepared>, items: seq<Prepared>)
    requires items != []
    ensures queued + items == queued + items[..|items| - 1] + [items[|items| - 1]]
  {
  }

  /** The queue takes the payloads of a failed batch in order, and keeps the newest if there are too many. */
  lemma {:induction false} QueueTakes(q: OfflineQueue.State<Prepared>, maxEntries: nat, items: seq<Prepared>,
                                      all: seq<Prepared>)
    requires maxEntries >= 1 && |q.rows| <= maxEntries && all == OfflineQueue.Items(q.rows) + items
    ensures OfflineQueue.Items(PutAll(q, maxEntries, items).rows) == Newest(all, maxEntries)
    decreases |items|
  {
    if items == [] {
      assert all == OfflineQueue.Items(q.rows);
    } else {
      var front := OfflineQueue.Items(q.rows) + items[..|items| - 1];
      QueueTakes(q, maxEntries, items[..|items| - 1], front);
      LastOfAll(OfflineQueue.Items(q.rows), items);
      QueueTakesOne(PutAll(q, maxEntries, items[..|items| - 1]), maxEntries, front, items[|items| - 1]);
    }
  }

  // ---------------------------------------------------------------- histories

  /** A run of a history: its input and the answer to its candidate query. */
  datatype Past = Past(input: Input, order: seq<Id>)

  ghost predicate Proper(h: seq<Past>) {
    AllKnown(h) && forall k | 0 <= k < |h| :: Distinct(h[k].order)
  }

  /** The candidate query returns sessions. */
  ghost predicate Known(p: Past) {
    forall id <- p.order :: id in p.input.infos
  }

  ghost predicate AllKnown(h: seq<Past>) {
    forall k | 0 <= k < |h| :: Known(h[k])
  }

  /** The marks after one run. */
  ghost function PushedBy(p: Past, pushed: map<Id, Mark>): map<Id, Mark>
    requires Known(p)
  {
    Run(p.input, pushed, p.order).pushed
  }

  ghost function PushedAfter(pushed: map<Id, Mark>, h: seq<Past>): map<Id, Mark>
    requires AllKnown(h)
    decreases |h|
  {
    if h == [] then pushed else PushedBy(h[|h| - 1], PushedAfter(pushed, h[..|h| - 1]))
  }

  /** In that run a batch with a payload of this session and hash was sent, and its push had an ok result. */
  ghost predicate Acknowledged(p: Past, pushed: map<Id, Mark>, id: Id, hash: int)
    requires Known(p)
  {
    exists b, m :: AckedPayload(p, Run(p.input, pushed, p.order).sent, b, m, id, hash)
  }

  /** Payload `m` of batch `b` of those that were sent. */
  predicate AckedPayload(p: Past, sent: seq<seq<Prepared>>, b: int, m: int, id: Id, hash: int) {
    && 0 <= b < |sent| && Outcome(p.input.servers(b)).Ok?
    && 0 <= m < |sent[b]| && sent[b][m].payload.sessionId == id && sent[b][m].hash == hash
  }

  /** The batches a real run sends: the acknowledged ones, and the first that fails if there is one. */
  lemma RunSends(i: Input, pushed: map<Id, Mark>, order: seq<Id>, ps: seq<Prepared>, k: nat)
    requires !i.dryRun && forall id <- order :: id in i.infos
    requires ps == PrepareAll(i.infos, pushed, order, i.digest).prepared && k == AckedBatches(i.servers, |ps|, 0)
    ensures Run(i, pushed, order).sent == Batches(ps, if Start(k) >= |ps| then k else k + 1)
  {
  }

  lemma PlaceInBatch(ps: seq<Prepared>, k: nat, j: nat)
    requires j < MarkedCount(ps, k)
    ensures j / 50 < k && j % 50 < |Chunk(ps, j / 50)| && Chunk(ps, j / 50)[j % 50] == ps[j]
  {
    ChunkAt(ps, j / 50);
  }

  lemma AckedAmongBatches(p: Past, ps: seq<Prepared>, k: nat, n: nat, j: nat)
    requires k == AckedBatches(p.input.servers, |ps|, 0) && j < MarkedCount(ps, k) && k <= n
    ensures AckedPayload(p, Batches(ps, n), j / 50, j % 50, ps[j].payload.sessionId, ps[j].hash)
  {
    AckedBatchOf(p.input.servers, |ps|, j);
    PlaceInBatch(ps, k, j);
  }

  /** A payload of an acknowledged batch is one of those sent. */
  lemma AckedIsSent(p: Past, pushed: map<Id, Mark>, ps: seq<Prepared>, k: nat, j: nat)
    requires Known(p) && !p.input.dryRun
    requires ps == PrepareAll(p.input.infos, pushed, p.order, p.input.digest).prepared
    requires k == AckedBatches(p.input.servers, |ps|, 0) && j < MarkedCount(ps, k)
    ensures Acknowledged(p, pushed, ps[j].payload.sessionId, ps[j].hash)
  {
    RunSends(p.input, pushed, p.order, ps, k);
    AckedAmongBatches(p, ps, k, if Start(k) >= |ps| then k else k + 1, j);
  }

  lemma AckedBatchOf(servers: nat -> (nat -> Response), n: nat, j: nat)
    requires j < Min(Start(AckedBatches(servers, n, 0)), n)
    ensures Outcome(servers(j / 50)).Ok?
  {
    var k := AckedBatches(servers, n, 0);
    assert 0 <= j / 50 < k;
  }

  /** The step of the history theorem: a mark a run changed was acknowledged in that run. */
  lemma ChangedMarkAcknowledged(p: Past, pushed: map<Id, Mark>, id: Id)
    requires Distinct(p.order) && Known(p)
    ensures var after := PushedBy(p, pushed);
      MarkOf(after, id) == MarkOf(pushed, id) || (id in after && Acknowledged(p, pushed, id, after[id].hash))
  {
    if !p.input.dryRun {
      var ps := PrepareAll(p.input.infos, pushed, p.order, p.input.digest).prepared;
      var k := AckedBatches(p.input.servers, |ps|, 0);
      PreparedDistinct(p.input.infos, pushed, p.order, p.input.digest);
      if j :| 0 <= j < MarkedCount(ps, k) && ps[j].payload.sessionId == id {
        MarkedAt(pushed, ps, p.input.clock, k, j);
        AckedIsSent(p, pushed, ps, k, j);
      } else {
        NotMarked(pushed, ps, p.input.clock, k, id);
      }
    }
  }

  /** Run number `k` of the history acknowledged this hash for the session. */
  ghost predicate AcknowledgedIn(h: seq<Past>, k: nat, id: Id, hash: int)
    requires AllKnown(h)
  {
    k < |h| && Acknowledged(h[k], PushedAfter(map[], h[..k]), id, hash)
  }

  lemma AcknowledgedInFront(h: seq<Past>, k: nat, id: Id, hash: int)
    requires AllKnown(h) && h != [] && AcknowledgedIn(h[..|h| - 1], k, id, hash)
    ensures AcknowledgedIn(h, k, id, hash)
  {
    assert h[..|h| - 1][..k] == h[..k];
  }

  /** Over all runs: a session is marked with a hash only if a batch holding that payload got an ok result. */
  lemma {:induction false} MarksWereAcknowledged(h: seq<Past>, id: Id) returns (k: nat)
    requires Proper(h) && id in PushedAfter(map[], h)
    ensures AcknowledgedIn(h, k, id, PushedAfter(map[], h)[id].hash)
    decreases |h|
  {
    var n := |h| - 1;
    var before := PushedAfter(map[], h[..n]);
    ChangedMarkAcknowledged(h[n], before, id);
    k := n;
    if MarkOf(PushedAfter(map[], h), id) == MarkOf(before, id) {
      k := MarksWereAcknowledged(h[..n], id);
      AcknowledgedInFront(h, k, id, before[id].hash);
    }
  }

  /** An ok result means that the last request that was sent was answered with a readable success. */
  lemma OkMeansAnswered(server: nat -> Response)
    requires Outcome(server).Ok?
    ensures exists i :: 0 <= i < RequestsFrom(server, 0) <= MAX_REQUESTS
                        && IsSuccess(server(i)) && !server(i).body.Unreadable?
  {
    var i := RequestsFrom(server, 0) - 1;
    assert IsSuccess(server(i));
  }

  // ---------------------------------------------------------------- the next run

  /** Every prepared payload of the run was acknowledged. */
  ghost predicate FullySuccessful(i: Input, pushed: map<Id, Mark>, order: seq<Id>)
    requires forall id <- order :: id in i.infos
  {
    var n := |PrepareAll(i.infos, pushed, order, i.digest).prepared|;
    !i.dryRun && Start(AckedBatches(i.servers, n, 0)) >= n
  }

  /**
   * A dry run foretells the real one: it changes nothing, skips the same sessions, and the candidates it counts neither
   * as skipped nor as failed are those the real run pushes if every batch is acknowledged.
   */
  lemma DryRunForetells(i: Input, pushed: map<Id, Mark>, order: seq<Id>)
    requires !i.dryRun && forall id <- order :: id in i.infos
    ensures var (dry, full) := (Run(i.(dryRun := true), pushed, order), Run(i, pushed, order));
      && dry.pushed == pushed && dry.queued == [] && dry.result.pushed == dry.result.queued == 0
      && dry.result.skipped == full.result.skipped && dry.result.failed <= full.result.failed
      && (FullySuccessful(i, pushed, order) ==>
            && full.result.pushed == |order| - dry.result.skipped - dry.result.failed
            && full.result.failed == dry.result.failed && full.result.queued == 0)
  {
  }

  lemma {:induction false} NothingPrepared(infos: map<Id, Info>, pushed: map<Id, Mark>, order: seq<Id>,
                                           digest: Payload -> int)
    requires forall id <- order :: id in infos
    requires forall id <- order :: !GateOf(infos[id], MarkOf(pushed, id), id, digest).Sanitized?
    ensures PrepareAll(infos, pushed, order, digest).prepared == []
    decreases |order|
  {
    if order != [] { NothingPrepared(infos, pushed, order[..|order| - 1], digest); }
  }

  /** After a fully successful run no candidate of the next one passes the hash gate. */
  lemma GateClosed(first: Input, pushed: map<Id, Mark>, order: seq<Id>, cutoff: int, id: Id)
    requires Answers(first.infos, pushed, first.now - ONE_HOUR_MS, order) && FullySuccessful(first, pushed, order)
    requires cutoff >= first.now - ONE_HOUR_MS && id in first.infos
    ensures var after := Run(first, pushed, order).pushed;
      IsCandidate(first.infos[id], MarkOf(after, id), cutoff) ==>
        !GateOf(first.infos[id], MarkOf(after, id), id, first.digest).Sanitized?
  {
    var ps := PrepareAll(first.infos, pushed, order, first.digest).prepared;
    var k := AckedBatches(first.servers, |ps|, 0);
    PreparedDistinct(first.infos, pushed, order, first.digest);
    if j :| 0 <= j < |ps| && ps[j].payload.sessionId == id {
      PreparedByGate(first.infos, pushed, order, first.digest, ps[j]);
      MarkedAt(pushed, ps, first.clock, k, j);
    } else {
      NotMarked(pushed, ps, first.clock, k, id);
      var gate := GateOf(first.infos[id], MarkOf(pushed, id), id, first.digest);
      if gate.Sanitized? {
        PreparedByGate(first.infos, pushed, order, first.digest, gate.entry);
        assert id !in Elements(order);
      }
    }
  }

  /** A run after a fully successful one, with unchanged data and a clock that has not gone back, pushes and
      queues nothing, whatever the server would answer. */
  lemma RerunPushesNothing(first: Input, pushed: map<Id, Mark>, order: seq<Id>, second: Input, order': seq<Id>)
    requires Answers(first.infos, pushed, first.now - ONE_HOUR_MS, order) && FullySuccessful(first, pushed, order)
    requires second.infos == first.infos && second.digest == first.digest && second.now >= first.now
    requires Answers(second.infos, Run(first, pushed, order).pushed, second.now - ONE_HOUR_MS, order')
    ensures var (after, e) := (Run(first, pushed, order).pushed, Run(second, Run(first, pushed, order).pushed, order'));
      e.result.pushed == e.result.queued == 0 && e.pushed == after && e.queued == []
  {
    var after := Run(first, pushed, order).pushed;
    forall id <- order'
      ensures !GateOf(second.infos[id], MarkOf(after, id), id, second.digest).Sanitized?
    {
      assert id in Elements(order');
      GateClosed(first, pushed, order, second.now - ONE_HOUR_MS, id);
    }
    NothingPrepared(second.infos, after, order', second.digest);
  }

  /**
   * A payload that was not acknowledged leaves its session's mark as it was, and the copy in the queue plays no part:
   * the next run prepares it again exactly if the candidate query still selects the session by its old mark.
   */
  lemma UnacknowledgedIsPreparedAgain(first: Input, pushed: map<Id, Mark>, order: seq<Id>, second: Input,
                                      order': seq<Id>, j: nat)
    requires Answers(first.infos, pushed, first.now - ONE_HOUR_MS, order) && !first.dryRun
    requires second.infos == first.infos && second.digest == first.digest
    requires Answers(second.infos, Run(first, pushed, order).pushed, second.now - ONE_HOUR_MS, order')
    requires var ps := PrepareAll(first.infos, pushed, order, first.digest).prepared;
      MarkedCount(ps, AckedBatches(first.servers, |ps|, 0)) <= j < |ps|
    ensures var e := PrepareAll(first.infos, pushed, order, first.digest).prepared[j];
      && e.payload.sessionId in first.infos
      && (e in PrepareAll(second.infos, Run(first, pushed, order).pushed, order', second.digest).prepared <==>
            IsCandidate(first.infos[e.payload.sessionId], MarkOf(pushed, e.payload.sessionId),
                        second.now - ONE_HOUR_MS))
  {
    var ps := PrepareAll(first.infos, pushed, order, first.digest).prepared;
    var k, e, after := AckedBatches(first.servers, |ps|, 0), ps[j], Run(first, pushed, order).pushed;
    var id := e.payload.sessionId;
    PreparedDistinct(first.infos, pushed, order, first.digest);
    RunMarks(first, pushed, order, ps, k);
    NotMarked(pushed, ps, first.clock, k, id);
    PreparedByGate(first.infos, pushed, order, first.digest, e);
    PreparedByGate(second.infos, after, order', second.digest, e);
    assert id in order' <==> id in Elements(order');
    assert id in Candidates(second.infos, after, second.now - ONE_HOUR_MS) <==>
        IsCandidate(first.infos[id], MarkOf(pushed, id), second.now - ONE_HOUR_MS);
  }

  /** A session that no run selects is neither prepared nor marked, whatever else the runs deliver. */
  lemma UnselectedKeepsMark(i: Input, pushed: map<Id, Mark>, order: seq<Id>, id: Id)
    requires id !in order && forall id <- order :: id in i.infos
    ensures MarkOf(Run(i, pushed, order).pushed, id) == MarkOf(pushed, id)
  {
    if !i.dryRun {
      var ps := PrepareAll(i.infos, pushed, order, i.digest).prepared;
      var k := AckedBatches(i.servers, |ps|, 0);
      forall j | 0 <= j < |ps| ensures ps[j].payload.sessionId != id {
        PreparedByGate(i.infos, pushed, order, i.digest, ps[j]);
      }
      RunMarks(i, pushed, order, ps, k);
      NotMarked(pushed, ps, i.clock, k, id);
    }
  }

  /** Each run of the history answers its candidate query with the marks the runs before it left. */
  ghost predicate Answered(pushed: map<Id, Mark>, h: seq<Past>)
    requires AllKnown(h)
    decreases |h|
  {
    h == [] ||
    var front, p := h[..|h| - 1], h[|h| - 1];
    && Answered(pushed, front)
    && Answers(p.input.infos, PushedAfter(pushed, front), p.input.now - ONE_HOUR_MS, p.order)
  }

  lemma UnselectedOnce(p: Past, pushed: map<Id, Mark>, id: Id, cutoff: int)
    requires Known(p) && Answers(p.input.infos, pushed, p.input.now - ONE_HOUR_MS, p.order)
    requires id in p.input.infos && !IsCandidate(p.input.infos[id], MarkOf(pushed, id), cutoff)
    requires p.input.now - ONE_HOUR_MS >= cutoff
    ensures !Selects(p, id) && MarkOf(PushedBy(p, pushed), id) == MarkOf(pushed, id)
  {
    assert id !in Elements(p.order);
    UnselectedKeepsMark(p.input, pushed, p.order, id);
  }

  predicate Selects(p: Past, id: Id) {
    id in p.order
  }

  ghost predicate NoneSelects(h: seq<Past>, id: Id) {
    forall k | 0 <= k < |h| :: !Selects(h[k], id)
  }

  lemma NoneSelectsSnoc(h: seq<Past>, id: Id)
    requires h != [] && NoneSelects(h[..|h| - 1], id) && !Selects(h[|h| - 1], id)
    ensures NoneSelects(h, id)
  {
    forall k | 0 <= k < |h| - 1 ensures !Selects(h[k], id) {
      assert h[..|h| - 1][k] == h[k];
    }
  }

  /** The run starts late enough and finds the session's row as given. */
  ghost predicate FindsRow(p: Past, id: Id, info: Info, cutoff: int) {
    p.input.now - ONE_HOUR_MS >= cutoff && id in p.input.infos && p.input.infos[id] == info
  }

  /**
   * A session the query does not select at some cutoff is lost to all later runs until its row changes: none of them
   * selects it, and its mark stays.
   */
  lemma {:induction false} UnselectedForGood(pushed: map<Id, Mark>, h: seq<Past>, id: Id, info: Info, cutoff: int)
    requires AllKnown(h) && Answered(pushed, h) && !IsCandidate(info, MarkOf(pushed, id), cutoff)
    requires forall k | 0 <= k < |h| :: FindsRow(h[k], id, info, cutoff)
    ensures MarkOf(PushedAfter(pushed, h), id) == MarkOf(pushed, id)
    ensures NoneSelects(h, id)
    decreases |h|
  {
    if h != [] {
      var front, p := h[..|h| - 1], h[|h| - 1];
      UnselectedForGood(pushed, front, id, info, cutoff);
      assert FindsRow(p, id, info, cutoff);
      UnselectedOnce(p, PushedAfter(pushed, front), id, cutoff);
      NoneSelectsSnoc(h, id);
    }
  }

  lemma ElementsNonEmpty(order: seq<Id>)
    requires order != []
    ensures Elements(order) != {}
  {
    assert order[0] in Elements(order);
  }

  function ContentItself(p: Payload): int {
    p.content
  }

  /**
   * An update that is lost: session 7 was pushed at 20 and its content has changed since without any column the query
   * looks at. Only its recent start makes it a candidate of the first run, whose server cannot be reached; the payload
   * goes into the queue. One millisecond later the session is no candidate any more.
   */
  lemma QueuedUpdateIsLost(first: Input, second: Input, order': seq<Id>)
    requires first.infos == map[7 := Info(0, 10, {}, None, Some(5))] && first.digest == ContentItself
    requires first.now == 3600000 && !first.dryRun && forall b, i :: first.servers(b)(i) == NetworkError
    requires second == first.(now := 3600001)
    requires Answers(second.infos, Run(first, map[7 := Mark(4, 20)], [7]).pushed, second.now - ONE_HOUR_MS, order')
    ensures Answers(first.infos, map[7 := Mark(4, 20)], first.now - ONE_HOUR_MS, [7])
    ensures Run(first, map[7 := Mark(4, 20)], [7]).queued == [Prepared(Payload(7, 5), 5)]
    ensures order' == [] && Run(second, map[7 := Mark(4, 20)], order') == Effect(ZERO, map[7 := Mark(4, 20)], [], [])
  {
    var pushed := map[7 := Mark(4, 20)];
    assert PrepareAll(first.infos, pushed, [7], first.digest).prepared == [Prepared(Payload(7, 5), 5)];
    assert Run(first, pushed, [7]).pushed == pushed;
    assert Candidates(second.infos, pushed, second.now - ONE_HOUR_MS) == {};
    if order' != [] { ElementsNonEmpty(order'); }
  }
}
