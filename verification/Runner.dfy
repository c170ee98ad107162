/** One reporter run: select candidates, drop those whose payload has not changed, push the rest in batches,
    and mark a batch as pushed only after the server has acknowledged it. */
module Runner {
  import opened Options
  import opened Client
  import OfflineQueue

  type Id = nat

  const ONE_HOUR_MS := 3600000

  /** What the candidate query reads of a session, and its sanitized content, if sanitizing succeeds. */
  datatype Info = Info(startedAt: int, ingestedAt: int, ratedAt: set<int>, lastEvaluatedAt: Option<int>,
                       content: Option<int>)

  /** A row of `reporter_pushed_sessions`. */
  datatype Mark = Mark(hash: int, at: int)

  datatype Payload = Payload(sessionId: Id, content: int)

  datatype Prepared = Prepared(payload: Payload, hash: int)

  datatype Result = Result(pushed: nat, skipped: nat, failed: nat, queued: nat)

  const ZERO := Result(0, 0, 0, 0)

  // ---------------------------------------------------------------- candidates

  predicate IsCandidate(info: Info, mark: Option<Mark>, cutoff: int) {
    || mark.None?
    || info.ingestedAt > mark.value.at
    || info.startedAt >= cutoff
    || (exists t <- info.ratedAt :: t > mark.value.at)
    || (info.lastEvaluatedAt.Some? && info.lastEvaluatedAt.value > mark.value.at)
  }

  function MarkOf(pushed: map<Id, Mark>, id: Id): Option<Mark> {
    if id in pushed then Some(pushed[id]) else None
  }

  function Candidates(infos: map<Id, Info>, pushed: map<Id, Mark>, cutoff: int): set<Id> {
    set id | id in infos && IsCandidate(infos[id], MarkOf(pushed, id), cutoff)
  }

  function Elements(ids: seq<Id>): set<Id> {
    set id | id in ids
  }

  /** An answer to the candidate query: every candidate once, `ORDER BY started_at`. */
  ghost predicate Answers(infos: map<Id, Info>, pushed: map<Id, Mark>, cutoff: int, order: seq<Id>) {
    && Elements(order) == Candidates(infos, pushed, cutoff)
    && (forall i | 0 <= i < |order| :: order[i] in infos)
    && (forall i, j | 0 <= i < j < |order| :: order[i] != order[j])
    && (forall i, j | 0 <= i < j < |order| :: infos[order[i]].startedAt <= infos[order[j]].startedAt)
  }

  predicate IsEarliest(infos: map<Id, Info>, ids: set<Id>, id: Id)
    requires ids <= infos.Keys
  {
    id in ids && forall o | o in ids :: infos[id].startedAt <= infos[o].startedAt
  }

  lemma {:induction false} EarliestExists(infos: map<Id, Info>, ids: set<Id>)
    requires ids != {} && ids <= infos.Keys
    ensures exists id :: IsEarliest(infos, ids, id)
  {
    var first :| first in ids;
    var rest := ids - {first};
    if rest == {} {
      assert ids == {first};
      assert IsEarliest(infos, ids, first);
    } else {
      EarliestExists(infos, rest);
      var second :| IsEarliest(infos, rest, second);
      var id := if infos[first].startedAt <= infos[second].startedAt then first else second;
      forall o | o in ids
        ensures infos[id].startedAt <= infos[o].startedAt
      {
        assert o == first || o in rest;
      }
      assert IsEarliest(infos, ids, id);
    }
  }

  method SelectCandidates(infos: map<Id, Info>, pushed: map<Id, Mark>, cutoff: int) returns (order: seq<Id>)
    ensures Answers(infos, pushed, cutoff, order)
  {
    order := [];
    var all := Candidates(infos, pushed, cutoff);
    var todo := all;
    while todo != {}
      invariant todo <= all && Elements(order) == all - todo
      invariant forall i | 0 <= i < |order| :: order[i] in infos && order[i] !in todo
      invariant forall i, j | 0 <= i < j < |order| :: order[i] != order[j]
      invariant forall i, j | 0 <= i < j < |order| :: infos[order[i]].startedAt <= infos[order[j]].startedAt
      invariant forall i, o | 0 <= i < |order| && o in todo :: infos[order[i]].startedAt <= infos[o].startedAt
    {
      EarliestExists(infos, todo);
      var id :| id in todo && IsEarliest(infos, todo, id);
      assert Elements(order + [id]) == Elements(order) + {id};
      order, todo := order + [id], todo - {id};
    }
  }

  // ---------------------------------------------------------------- the hash gate

  datatype Gate = Sanitized(entry: Prepared) | Skip | Fail

  function GateOf(info: Info, mark: Option<Mark>, id: Id, digest: Payload -> int): Gate {
    if info.content.None? then Fail
    else
      var payload := Payload(id, info.content.value);
      if mark.Some? && mark.value.hash == digest(payload) then Skip else Sanitized(Prepared(payload, digest(payload)))
  }

  /** The outcome of preparing the candidates: payloads to push, and the skipped and failed counts. */
  datatype Batch = Batch(prepared: seq<Prepared>, skipped: nat, failed: nat)

  function PrepareAll(infos: map<Id, Info>, pushed: map<Id, Mark>, order: seq<Id>, digest: Payload -> int): (b: Batch)
    requires forall id <- order :: id in infos
    ensures |b.prepared| + b.skipped + b.failed == |order|
    decreases |order|
  {
    if order == [] then Batch([], 0, 0)
    else
      var id := order[|order| - 1];
      var b := PrepareAll(infos, pushed, order[..|order| - 1], digest);
      match GateOf(infos[id], MarkOf(pushed, id), id, digest)
      case Sanitized(entry) => b.(prepared := b.prepared + [entry])
      case Skip => b.(skipped := b.skipped + 1)
      case Fail => b.(failed := b.failed + 1)
  }

  method Prepare(infos: map<Id, Info>, pushed: map<Id, Mark>, order: seq<Id>, digest: Payload -> int)
    returns (prepared: seq<Prepared>, skipped: nat, failed: nat)
    requires forall id <- order :: id in infos
    ensures Batch(prepared, skipped, failed) == PrepareAll(infos, pushed, order, digest)
  {
    prepared, skipped, failed := [], 0, 0;
    for i := 0 to |order|
      invariant Batch(prepared, skipped, failed) == PrepareAll(infos, pushed, order[..i], digest)
    {
      assert order[..i + 1][..i] == order[..i];
      var id := order[i];
      match infos[id].content {
        case None => failed := failed + 1;
        case Some(content) =>
          var payload := Payload(id, content);
          var hash := digest(payload);
          if id in pushed && pushed[id].hash == hash {
            skipped := skipped + 1;
          } else {
            prepared := prepared + [Prepared(payload, hash)];
          }
      }
    }
    assert order[..|order|] == order;
  }

  // ---------------------------------------------------------------- delivery

  function Min(a: nat, b: nat): nat {
    if a < b then a else b
  }

  /** Where batch number `b` starts: batches hold 50 payloads. */
  function Start(b: nat): nat {
    50 * b
  }

  /** Batch number `b`: at most fifty payloads. */
  function Chunk(prepared: seq<Prepared>, b: nat): (chunk: seq<Prepared>)
    ensures |chunk| <= 50
  {
    prepared[Min(Start(b), |prepared|)..Min(Start(b + 1), |prepared|)]
  }

  /** The first batch from `b` on that is not acknowledged, or the number of batches if all are. */
  function AckedBatches(servers: nat -> (nat -> Response), n: nat, b: nat): (k: nat)
    requires b == 0 || Start(b - 1) < n
    ensures b <= k && (k == 0 || Start(k - 1) < n)
    ensures forall i | b <= i < k :: Outcome(servers(i)).Ok?
    ensures Start(k) < n ==> !Outcome(servers(k)).Ok?
    decreases n - Start(b)
  {
    if Start(b) >= n || !Outcome(servers(b)).Ok? then b else AckedBatches(servers, n, b + 1)
  }

  function MarkBatch(pushed: map<Id, Mark>, entries: seq<Prepared>, now: int): map<Id, Mark>
    decreases |entries|
  {
    if entries == [] then pushed
    else
      var e := entries[|entries| - 1];
      MarkBatch(pushed, entries[..|entries| - 1], now)[e.payload.sessionId := Mark(e.hash, now)]
  }

  /** The marks after the first `k` batches, each marked at its own time. */
  function MarkedAfter(pushed: map<Id, Mark>, prepared: seq<Prepared>, clock: nat -> int, k: nat): map<Id, Mark> {
    if k == 0 then pushed
    else MarkBatch(MarkedAfter(pushed, prepared, clock, k - 1), Chunk(prepared, k - 1), clock(k - 1))
  }

  /** The first `n` batches. */
  function Batches(prepared: seq<Prepared>, n: nat): (batches: seq<seq<Prepared>>)
    ensures |batches| == n && forall b | 0 <= b < n :: batches[b] == Chunk(prepared, b)
  {
    seq(n, b requires 0 <= b < n => Chunk(prepared, b))
  }

  /** What the delivery of the prepared payloads does: marks, counters, payloads put into the queue, batches sent. */
  datatype Delivery = Delivery(pushed: map<Id, Mark>, acked: nat, failed: nat, queued: seq<Prepared>,
                               sent: seq<seq<Prepared>>)

  function Deliver(pushed: map<Id, Mark>, prepared: seq<Prepared>, servers: nat -> (nat -> Response),
                   clock: nat -> int): Delivery {
    var n := |prepared|;
    var k := AckedBatches(servers, n, 0);
    var marks := MarkedAfter(pushed, prepared, clock, k);
    if Start(k) >= n then Delivery(marks, n, 0, [], Batches(prepared, k))
    else if Outcome(servers(k)).Transient? then
      Delivery(marks, Start(k), 0, Chunk(prepared, k), Batches(prepared, k + 1))
    else Delivery(marks, Start(k), |Chunk(prepared, k)|, [], Batches(prepared, k + 1))
  }

  function PutAll(q: OfflineQueue.State<Prepared>, maxEntries: nat, items: seq<Prepared>): OfflineQueue.State<Prepared>
    decreases |items|
  {
    if items == [] then q
    else OfflineQueue.Enqueued(PutAll(q, maxEntries, items[..|items| - 1]), maxEntries, items[|items| - 1])
  }

  /** The dashboard tables the reporter reads and the one it writes. */
  class Store {
    var infos: map<Id, Info>
    var pushed: map<Id, Mark>

    constructor (infos: map<Id, Info>)
      ensures this.infos == infos && pushed == map[]
    {
      this.infos, pushed := infos, map[];
    }
  }

  method MarkBatchPushed(db: Store, entries: seq<Prepared>, now: int)
    modifies db`pushed
    ensures db.pushed == MarkBatch(old(db.pushed), entries, now)
  {
    for i := 0 to |entries|
      invariant db.pushed == MarkBatch(old(db.pushed), entries[..i], now)
    {
      assert entries[..i + 1][..i] == entries[..i];
      db.pushed := db.pushed[entries[i].payload.sessionId := Mark(entries[i].hash, now)];
    }
    assert entries[..|entries|] == entries;
  }

  method EnqueueAll(queue: OfflineQueue.Queue<Prepared>, entries: seq<Prepared>)
    requires queue.maxEntries >= 1
    modifies queue
    ensures queue.Snapshot() == PutAll(old(queue.Snapshot()), queue.maxEntries, entries)
  {
    for i := 0 to |entries|
      invariant queue.Snapshot() == PutAll(old(queue.Snapshot()), queue.maxEntries, entries[..i])
    {
      assert entries[..i + 1][..i] == entries[..i];
      var _ := queue.Enqueue(entries[i]);
    }
    assert entries[..|entries|] == entries;
  }

  /** All batches before `b` have been acknowledged. */
  ghost predicate AckedUpTo(servers: nat -> (nat -> Response), n: nat, b: nat) {
    (b == 0 || Start(b - 1) < n) && AckedBatches(servers, n, b) == AckedBatches(servers, n, 0)
  }

  lemma ChunkDelivered(pushed: map<Id, Mark>, prepared: seq<Prepared>, servers: nat -> (nat -> Response),
                       clock: nat -> int, b: nat)
    requires AckedUpTo(servers, |prepared|, b) && Start(b) < |prepared| && Outcome(servers(b)).Ok?
    ensures AckedUpTo(servers, |prepared|, b + 1)
    ensures MarkedAfter(pushed, prepared, clock, b + 1)
         == MarkBatch(MarkedAfter(pushed, prepared, clock, b), Chunk(prepared, b), clock(b))
    ensures Min(Start(b), |prepared|) + |Chunk(prepared, b)| == Min(Start(b + 1), |prepared|)
  {
  }

  lemma DeliveryEnds(pushed: map<Id, Mark>, prepared: seq<Prepared>, servers: nat -> (nat -> Response),
                     clock: nat -> int, b: nat)
    requires AckedUpTo(servers, |prepared|, b)
    requires Start(b) >= |prepared| || !Outcome(servers(b)).Ok?
    ensures Deliver(pushed, prepared, servers, clock) ==
      if Start(b) >= |prepared| then
        Delivery(MarkedAfter(pushed, prepared, clock, b), |prepared|, 0, [], Batches(prepared, b))
      else if Outcome(servers(b)).Transient? then
        Delivery(MarkedAfter(pushed, prepared, clock, b), Start(b), 0, Chunk(prepared, b), Batches(prepared, b + 1))
      else
        Delivery(MarkedAfter(pushed, prepared, clock, b), Start(b), |Chunk(prepared, b)|, [], Batches(prepared, b + 1))
  {
  }

  /** A failed push: a transient one puts the batch into the queue, any other drops it. */
  method HandleFailure(queue: OfflineQueue.Queue<Prepared>, chunk: seq<Prepared>, result: PushResult)
    returns (failed: nat, queued: nat)
    requires queue.maxEntries >= 1
    modifies queue
    ensures queue.Snapshot()
         == PutAll(old(queue.Snapshot()), queue.maxEntries, if result.Transient? then chunk else [])
    ensures (failed, queued) == if result.Transient? then (0, |chunk|) else (|chunk|, 0)
  {
    failed, queued := 0, 0;
    if result.Transient? {
      EnqueueAll(queue, chunk);
      queued := |chunk|;
    } else {
      failed := |chunk|;
    }
  }

  /** Push one batch, and mark it if it is acknowledged. */
  method PushChunk(db: Store, chunk: seq<Prepared>, server: nat -> Response, now: int) returns (result: PushResult)
    modifies db`pushed
    ensures result == Outcome(server)
    ensures db.pushed == if result.Ok? then MarkBatch(old(db.pushed), chunk, now) else old(db.pushed)
  {
    var answer, _, _ := PushBatch(chunk, server);
    result := answer;
    if result.Ok? { MarkBatchPushed(db, chunk, now); }
  }

  lemma OneMoreBatch(prepared: seq<Prepared>, b: nat)
    ensures Batches(prepared, b + 1) == Batches(prepared, b) + [Chunk(prepared, b)]
  {
  }

  /** The state of the batch loop before batch `b`. */
  ghost predicate Delivering(was: map<Id, Mark>, now: map<Id, Mark>, prepared: seq<Prepared>,
                             servers: nat -> (nat -> Response), clock: nat -> int, b: nat, pushed: nat,
                             sent: seq<seq<Prepared>>) {
    && AckedUpTo(servers, |prepared|, b) && now == MarkedAfter(was, prepared, clock, b)
    && pushed == Min(Start(b), |prepared|) && sent == Batches(prepared, b)
  }

  lemma DeliveringNext(was: map<Id, Mark>, now: map<Id, Mark>, prepared: seq<Prepared>,
                       servers: nat -> (nat -> Response), clock: nat -> int, b: nat, pushed: nat,
                       sent: seq<seq<Prepared>>)
    requires Delivering(was, now, prepared, servers, clock, b, pushed, sent)
    requires Start(b) < |prepared| && Outcome(servers(b)).Ok?
    ensures var chunk := Chunk(prepared, b);
      Delivering(was, MarkBatch(now, chunk, clock(b)), prepared, servers, clock, b + 1, pushed + |chunk|,
                 sent + [chunk])
  {
    ChunkDelivered(was, prepared, servers, clock, b);
    OneMoreBatch(prepared, b);
  }

  /** The batch loop, up to the first push that fails. Batch `b` meets the adversarial server `servers(b)` and
      is marked at time `clock(b)`. */
  method PushWhileAcked(db: Store, prepared: seq<Prepared>, servers: nat -> (nat -> Response), clock: nat -> int)
    returns (b: nat, pushed: nat, result: PushResult, sent: seq<seq<Prepared>>)
    modifies db`pushed
    ensures AckedUpTo(servers, |prepared|, b)
    ensures db.pushed == MarkedAfter(old(db.pushed), prepared, clock, b)
    ensures pushed == Min(Start(b), |prepared|)
    ensures Start(b) < |prepared| ==> result == Outcome(servers(b)) && !result.Ok?
    ensures sent == Batches(prepared, if Start(b) < |prepared| then b + 1 else b)
  {
    ghost var was := db.pushed;
    b, pushed, result, sent := 0, 0, Transient(None, 0), [];
    while Start(b) < |prepared|
      invariant Delivering(was, db.pushed, prepared, servers, clock, b, pushed, sent)
      decreases |prepared| - Start(b)
    {
      var chunk := Chunk(prepared, b);
      ghost var before := db.pushed;
      result := PushChunk(db, chunk, servers(b), clock(b));
      if !result.Ok? {
        OneMoreBatch(prepared, b);
        sent := sent + [chunk];
        break;
      }
      DeliveringNext(was, before, prepared, servers, clock, b, pushed, sent);
      pushed, b, sent := pushed + |chunk|, b + 1, sent + [chunk];
    }
  }

  method DeliverBatches(db: Store, queue: OfflineQueue.Queue<Prepared>, prepared: seq<Prepared>,
                        servers: nat -> (nat -> Response), clock: nat -> int)
    returns (pushed: nat, failed: nat, queued: nat, sent: seq<seq<Prepared>>)
    requires queue.maxEntries >= 1
    modifies db`pushed, queue
    ensures var d := Deliver(old(db.pushed), prepared, servers, clock);
      && db.pushed == d.pushed
      && (pushed, failed, queued) == (d.acked, d.failed, |d.queued|) && sent == d.sent
      && queue.Snapshot() == PutAll(old(queue.Snapshot()), queue.maxEntries, d.queued)
  {
    failed, queued := 0, 0;
    var b, result;
    b, pushed, result, sent := PushWhileAcked(db, prepared, servers, clock);
    DeliveryEnds(old(db.pushed), prepared, servers, clock, b);
    if Start(b) < |prepared| {
      failed, queued := HandleFailure(queue, Chunk(prepared, b), result);
    }
  }

  // ---------------------------------------------------------------- a run

  /** Everything a run depends on besides the marks and the queue. */
  datatype Input = Input(infos: map<Id, Info>, now: int, dryRun: bool, servers: nat -> (nat -> Response),
                         clock: nat -> int, digest: Payload -> int)

  datatype Effect = Effect(result: Result, pushed: map<Id, Mark>, queued: seq<Prepared>, sent: seq<seq<Prepared>>)

  /** The effect of a configured run whose candidate query was answered with `order`. */
  function Run(i: Input, pushed: map<Id, Mark>, order: seq<Id>): Effect
    requires forall id <- order :: id in i.infos
  {
    var b := PrepareAll(i.infos, pushed, order, i.digest);
    if i.dryRun then Effect(Result(0, b.skipped, b.failed, 0), pushed, [], [])
    else
      var d := Deliver(pushed, b.prepared, i.servers, i.clock);
      Effect(Result(d.acked, b.skipped, b.failed + d.failed, |d.queued|), d.pushed, d.queued, d.sent)
  }

  /** `runReporter`: without a configuration it returns at once, with no effect at all. */
  method RunReporter(db: Store, queue: OfflineQueue.Queue<Prepared>, configured: bool, i: Input)
    returns (r: Result, sent: seq<seq<Prepared>>, ghost order: seq<Id>)
    requires queue.maxEntries >= 1 && db.infos == i.infos
    modifies db`pushed, queue
    ensures !configured ==>
              r == ZERO && sent == [] && db.pushed == old(db.pushed) && queue.Snapshot() == old(queue.Snapshot())
    ensures configured ==>
      && Answers(i.infos, old(db.pushed), i.now - ONE_HOUR_MS, order)
      && var e := Run(i, old(db.pushed), order);
         r == e.result && sent == e.sent && db.pushed == e.pushed
         && queue.Snapshot() == PutAll(old(queue.Snapshot()), queue.maxEntries, e.queued)
  {
    r, sent, order := ZERO, [], [];
    if !configured { return; }
    var candidates := SelectCandidates(db.infos, db.pushed, i.now - ONE_HOUR_MS);
    order := candidates;
    var prepared, skipped, failed := Prepare(db.infos, db.pushed, candidates, i.digest);
    if i.dryRun { return Result(0, skipped, failed, 0), [], order; }
    var acked, refused, queued;
    acked, refused, queued, sent := DeliverBatches(db, queue, prepared, i.servers, i.clock);
    return Result(acked, skipped, failed + refused, queued), sent, order;
  }
}
