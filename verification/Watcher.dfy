/** The watcher's per-path task queue: promise chains over a map that cleans up after itself.
    Every job enqueued gets the promise `prev.then(task).catch(log)`, so a promise is the number of its job. */
module Watcher {
  import opened Options
  import Tables

  type Path = Tables.Path

  datatype Phase = Waiting | Running | Settled

  /** `prev` is the promise the job was chained to, or none for a resolved one; `cleaned` says that the
      `finally` callback has run. */
  datatype Job = Job(path: Path, prev: Option<nat>, phase: Phase, cleaned: bool)

  /** `started` lists the jobs in the order their tasks began, `errors` counts the logged rejections. */
  datatype State = State(jobs: seq<Job>, queue: map<Path, nat>, started: seq<nat>, errors: nat)

  const EMPTY := State([], map[], [], 0)

  /** What the event loop may do next. A task settles by fulfilling or by being rejected and caught. */
  datatype Step = Enqueue(path: Path) | Start(job: nat) | Settle(job: nat, ok: bool) | Finally(job: nat)

  predicate Enabled(s: State, e: Step) {
    match e
    case Enqueue(_) => true
    case Start(k) =>
      && k < |s.jobs| && s.jobs[k].phase == Waiting
      && (s.jobs[k].prev.Some? ==> s.jobs[k].prev.value < |s.jobs| && s.jobs[s.jobs[k].prev.value].phase == Settled)
    case Settle(k, _) => k < |s.jobs| && s.jobs[k].phase == Running
    case Finally(k) => k < |s.jobs| && s.jobs[k].phase == Settled && !s.jobs[k].cleaned
  }

  function Next(s: State, e: Step): State
    requires Enabled(s, e)
  {
    match e
    case Enqueue(path) =>
      var prev := if path in s.queue then Some(s.queue[path]) else None;
      s.(jobs := s.jobs + [Job(path, prev, Waiting, false)], queue := s.queue[path := |s.jobs|])
    case Start(k) =>
      s.(jobs := s.jobs[k := s.jobs[k].(phase := Running)], started := s.started + [k])
    case Settle(k, ok) =>
      s.(jobs := s.jobs[k := s.jobs[k].(phase := Settled)], errors := if ok then s.errors else s.errors + 1)
    case Finally(k) =>
      var path := s.jobs[k].path;
      s.(jobs := s.jobs[k := s.jobs[k].(cleaned := true)],
         queue := if path in s.queue && s.queue[path] == k then s.queue - {path} else s.queue)
  }

  /** The module-level map and the promises it refers to. */
  class TaskQueue {
    var jobs: seq<Job>
    var queue: map<Path, nat>
    var started: seq<nat>
    var errors: nat

    function Snapshot(): State
      reads this
    {
      State(jobs, queue, started, errors)
    }

    constructor ()
      ensures Snapshot() == EMPTY
    {
      jobs, queue, started, errors := [], map[], [], 0;
    }

    /** `enqueue`: chain to the path's tail, or to a resolved promise, and become the tail. */
    method Enqueue(path: Path) returns (promise: nat)
      modifies this
      ensures Snapshot() == Next(old(Snapshot()), Step.Enqueue(path)) && promise == |old(jobs)|
    {
      var prev := None;
      if path in queue { prev := Some(queue[path]); }
      promise := |jobs|;
      jobs := jobs + [Job(path, prev, Waiting, false)];
      queue := queue[path := promise];
    }

    method Start(k: nat)
      requires Enabled(Snapshot(), Step.Start(k))
      modifies this
      ensures Snapshot() == Next(old(Snapshot()), Step.Start(k))
    {
      jobs, started := jobs[k := jobs[k].(phase := Running)], started + [k];
    }

    method Settle(k: nat, ok: bool)
      requires Enabled(Snapshot(), Step.Settle(k, ok))
      modifies this
      ensures Snapshot() == Next(old(Snapshot()), Step.Settle(k, ok))
    {
      if !ok { errors := errors + 1; }
      jobs := jobs[k := jobs[k].(phase := Settled)];
    }

    /** The cleanup callback: delete the path's entry only if this promise is still its tail. */
    method Finally(k: nat)
      requires Enabled(Snapshot(), Step.Finally(k))
      modifies this
      ensures Snapshot() == Next(old(Snapshot()), Step.Finally(k))
    {
      var path := jobs[k].path;
      if path in queue && queue[path] == k { queue := queue - {path}; }
      jobs := jobs[k := jobs[k].(cleaned := true)];
    }
  }

  // ---------------------------------------------------------------- interleavings

  ghost predicate Legal(steps: seq<Step>)
    decreases |steps|, 0
  {
    steps != [] ==> Legal(steps[..|steps| - 1]) && Enabled(After(steps[..|steps| - 1]), steps[|steps| - 1])
  }

  ghost function After(steps: seq<Step>): State
    requires Legal(steps)
    decreases |steps|, 1
  {
    if steps == [] then EMPTY else Next(After(steps[..|steps| - 1]), steps[|steps| - 1])
  }

  /** `k` was chained right after the previous job of its path, or to a resolved promise when all of them
      had settled. */
  ghost predicate Chained(s: State, k: nat)
    requires k < |s.jobs|
  {
    match s.jobs[k].prev
    case None => forall j | 0 <= j < k && s.jobs[j].path == s.jobs[k].path :: s.jobs[j].phase == Settled
    case Some(p) =>
      && p < k && s.jobs[p].path == s.jobs[k].path
      && forall j | p < j < k :: s.jobs[j].path != s.jobs[k].path
  }

  /** A job that has begun comes after jobs of its path that have all settled. */
  ghost predicate InTurn(s: State, k: nat)
    requires k < |s.jobs|
  {
    s.jobs[k].phase != Waiting ==>
      forall j | 0 <= j < k && s.jobs[j].path == s.jobs[k].path :: s.jobs[j].phase == Settled
  }

  ghost predicate IsLast(s: State, k: nat)
    requires k < |s.jobs|
  {
    forall j | k < j < |s.jobs| :: s.jobs[j].path != s.jobs[k].path
  }

  /** The map's entry for a path is its last job, and it is there until that job has been cleaned up. */
  ghost predicate Tails(s: State) {
    && (forall p <- s.queue :: s.queue[p] < |s.jobs| && s.jobs[s.queue[p]].path == p)
    && (forall k | 0 <= k < |s.jobs| && IsLast(s, k) && !s.jobs[k].cleaned ::
          s.jobs[k].path in s.queue && s.queue[s.jobs[k].path] == k)
    && (forall p <- s.queue :: IsLast(s, s.queue[p]) && !s.jobs[s.queue[p]].cleaned)
  }

  /** `started` holds the jobs that have begun, each once, those of one path in enqueue order. */
  ghost predicate StartLog(s: State) {
    && (forall a | 0 <= a < |s.started| :: s.started[a] < |s.jobs| && s.jobs[s.started[a]].phase != Waiting)
    && (forall k | 0 <= k < |s.jobs| && s.jobs[k].phase != Waiting :: k in s.started)
    && (forall a, b | 0 <= a < b < |s.started| && s.jobs[s.started[a]].path == s.jobs[s.started[b]].path ::
          s.started[a] < s.started[b])
  }

  ghost predicate Ordered(s: State) {
    forall k | 0 <= k < |s.jobs| :: Chained(s, k) && InTurn(s, k)
  }

  ghost predicate CleanedSettled(s: State) {
    forall k | 0 <= k < |s.jobs| && s.jobs[k].cleaned :: s.jobs[k].phase == Settled
  }

  ghost predicate Inv(s: State) {
    Ordered(s) && CleanedSettled(s) && Tails(s) && StartLog(s)
  }

  lemma {:induction false} PathHasLast(s: State, k: nat) returns (last: nat)
    requires k < |s.jobs|
    ensures k <= last < |s.jobs| && s.jobs[last].path == s.jobs[k].path && IsLast(s, last)
    decreases |s.jobs| - k
  {
    if j :| k < j < |s.jobs| && s.jobs[j].path == s.jobs[k].path {
      last := PathHasLast(s, j);
    } else {
      last := k;
    }
  }

  /** Without an entry in the map, every job of the path has settled. */
  lemma NoEntryAllSettled(s: State, path: Path)
    requires Inv(s) && path !in s.queue
    ensures forall k | 0 <= k < |s.jobs| && s.jobs[k].path == path :: s.jobs[k].phase == Settled
  {
    forall k | 0 <= k < |s.jobs| && s.jobs[k].path == path
      ensures s.jobs[k].phase == Settled
    {
      var last := PathHasLast(s, k);
      assert s.jobs[last].cleaned && InTurn(s, last);
    }
  }

  lemma InvNext(s: State, e: Step)
    requires Inv(s) && Enabled(s, e)
    ensures Inv(Next(s, e))
  {
    match e
    case Enqueue(path) => InvEnqueue(s, path);
    case Start(k) => InvStart(s, k);
    case Settle(k, ok) => InvSettle(s, k, ok);
    case Finally(k) => InvFinally(s, k);
  }

  lemma InvEnqueue(s: State, path: Path)
    requires Inv(s)
    ensures Inv(Next(s, Step.Enqueue(path)))
  {
    var t, n := Next(s, Step.Enqueue(path)), |s.jobs|;
    if path !in s.queue { NoEntryAllSettled(s, path); }
    forall k | 0 <= k < |t.jobs|
      ensures Chained(t, k) && InTurn(t, k)
    {
      if k < n { assert Chained(s, k) && InTurn(s, k); }
    }
    TailsEnqueue(s, path);
  }

  lemma TailsEnqueue(s: State, path: Path)
    requires Tails(s)
    ensures Tails(Next(s, Step.Enqueue(path)))
  {
    var t, n := Next(s, Step.Enqueue(path)), |s.jobs|;
    forall k | 0 <= k < n
      ensures IsLast(t, k) ==> IsLast(s, k) && s.jobs[k].path != path
      ensures IsLast(s, k) && s.jobs[k].path != path ==> IsLast(t, k)
    {
      assert t.jobs[n].path == path;
      if IsLast(t, k) {
        forall j | k < j < n
          ensures s.jobs[j].path != s.jobs[k].path
        {
          assert t.jobs[j] == s.jobs[j];
        }
      }
    }
    assert IsLast(t, n);
  }

  /** A step that adds no job: paths and chains stay, and what has settled stays settled. */
  ghost predicate Advanced(s: State, t: State) {
    && |t.jobs| == |s.jobs|
    && forall i | 0 <= i < |s.jobs| ::
      && t.jobs[i].path == s.jobs[i].path && t.jobs[i].prev == s.jobs[i].prev
      && (s.jobs[i].phase == Settled ==> t.jobs[i].phase == Settled)
  }

  lemma ChainedAdvance(s: State, t: State, k: nat)
    requires Advanced(s, t) && k < |s.jobs| && Chained(s, k)
    ensures Chained(t, k)
  {
  }

  lemma InTurnAdvance(s: State, t: State, k: nat)
    requires Advanced(s, t) && k < |s.jobs| && InTurn(s, k)
    requires t.jobs[k].phase != Waiting ==> s.jobs[k].phase != Waiting
    ensures InTurn(t, k)
  {
  }

  lemma IsLastAdvance(s: State, t: State, k: nat)
    requires Advanced(s, t) && k < |s.jobs|
    ensures IsLast(t, k) <==> IsLast(s, k)
  {
    if IsLast(t, k) {
      forall j | k < j < |s.jobs|
        ensures s.jobs[j].path != s.jobs[k].path
      {
        assert t.jobs[j].path == s.jobs[j].path;
      }
    }
  }

  /** A job whose turn to start has come: every earlier job of its path has settled. */
  lemma TurnHasCome(s: State, k: nat)
    requires Ordered(s) && Enabled(s, Step.Start(k))
    ensures forall j | 0 <= j < k && s.jobs[j].path == s.jobs[k].path :: s.jobs[j].phase == Settled
  {
    assert Chained(s, k);
    if s.jobs[k].prev.Some? {
      var p := s.jobs[k].prev.value;
      assert InTurn(s, p);
    }
  }

  lemma InvStart(s: State, k: nat)
    requires Inv(s) && Enabled(s, Step.Start(k))
    ensures Inv(Next(s, Step.Start(k)))
  {
    var t := Next(s, Step.Start(k));
    TurnHasCome(s, k);
    forall i | 0 <= i < |t.jobs|
      ensures Chained(t, i) && InTurn(t, i)
    {
      ChainedAdvance(s, t, i);
      assert InTurn(s, i);
      if i != k { InTurnAdvance(s, t, i); }
    }
    TailsAdvance(s, t);
    StartLogStart(s, k);
  }

  /** A step that leaves the map and the cleanup flags alone keeps the tails. */
  lemma TailsAdvance(s: State, t: State)
    requires Advanced(s, t) && Tails(s) && t.queue == s.queue
    requires forall i | 0 <= i < |s.jobs| :: t.jobs[i].cleaned == s.jobs[i].cleaned
    ensures Tails(t)
  {
    forall i | 0 <= i < |s.jobs|
      ensures IsLast(t, i) <==> IsLast(s, i)
    {
      IsLastAdvance(s, t, i);
    }
  }

  lemma StartLogStart(s: State, k: nat)
    requires Ordered(s) && StartLog(s) && Enabled(s, Step.Start(k))
    ensures StartLog(Next(s, Step.Start(k)))
  {
    var t := Next(s, Step.Start(k));
    forall a | 0 <= a < |s.started| && s.jobs[s.started[a]].path == s.jobs[k].path
      ensures s.started[a] < k
    {
      var j := s.started[a];
      assert InTurn(s, j);
      assert j != k;
    }
    assert t.started[|s.started|] == k;
    forall i | 0 <= i < |t.jobs| && t.jobs[i].phase != Waiting
      ensures i in t.started
    {
      if i != k { assert i in s.started; }
    }
  }

  lemma StartLogAdvance(s: State, t: State)
    requires Advanced(s, t) && StartLog(s) && t.started == s.started
    requires forall i | 0 <= i < |s.jobs| :: s.jobs[i].phase == Waiting <==> t.jobs[i].phase == Waiting
    ensures StartLog(t)
  {
  }

  lemma OrderedAdvance(s: State, t: State)
    requires Advanced(s, t) && Ordered(s)
    requires forall i | 0 <= i < |s.jobs| :: s.jobs[i].phase == Waiting <==> t.jobs[i].phase == Waiting
    ensures Ordered(t)
  {
    forall i | 0 <= i < |t.jobs|
      ensures Chained(t, i) && InTurn(t, i)
    {
      assert Chained(s, i) && InTurn(s, i);
      ChainedAdvance(s, t, i);
      InTurnAdvance(s, t, i);
    }
  }

  lemma InvSettle(s: State, k: nat, ok: bool)
    requires Inv(s) && Enabled(s, Step.Settle(k, ok))
    ensures Inv(Next(s, Step.Settle(k, ok)))
  {
    var t := Next(s, Step.Settle(k, ok));
    OrderedAdvance(s, t);
    TailsAdvance(s, t);
    StartLogAdvance(s, t);
  }

  lemma InvFinally(s: State, k: nat)
    requires Inv(s) && Enabled(s, Step.Finally(k))
    ensures Inv(Next(s, Step.Finally(k)))
  {
    var t := Next(s, Step.Finally(k));
    OrderedAdvance(s, t);
    StartLogAdvance(s, t);
    TailsFinally(s, k);
  }

  lemma TailsFinally(s: State, k: nat)
    requires Tails(s) && Enabled(s, Step.Finally(k))
    ensures Tails(Next(s, Step.Finally(k)))
  {
    var t := Next(s, Step.Finally(k));
    forall i | 0 <= i < |s.jobs|
      ensures IsLast(t, i) <==> IsLast(s, i)
    {
      IsLastAdvance(s, t, i);
    }
  }

  lemma {:induction false} LegalInv(steps: seq<Step>)
    requires Legal(steps)
    ensures Inv(After(steps))
    decreases |steps|
  {
    if steps != [] {
      LegalInv(steps[..|steps| - 1]);
      InvNext(After(steps[..|steps| - 1]), steps[|steps| - 1]);
    }
  }

  // ---------------------------------------------------------------- every interleaving

  /** At most one task of a path is running. */
  lemma AtMostOneRunning(steps: seq<Step>, j: nat, k: nat)
    requires Legal(steps)
    requires j < |After(steps).jobs| && k < |After(steps).jobs|
    requires After(steps).jobs[j].path == After(steps).jobs[k].path
    requires After(steps).jobs[j].phase == Running && After(steps).jobs[k].phase == Running
    ensures j == k
  {
    LegalInv(steps);
    assert InTurn(After(steps), j) && InTurn(After(steps), k);
  }

  lemma EarlierHasStarted(s: State, a: nat, j: nat) returns (b: nat)
    requires StartLog(s) && a < |s.started| && j < s.started[a] < |s.jobs| && InTurn(s, s.started[a])
    requires s.jobs[j].path == s.jobs[s.started[a]].path
    ensures b < a && s.started[b] == j
  {
    assert s.jobs[s.started[a]].phase != Waiting;
    assert s.jobs[j].phase == Settled && j in s.started;
    assert forall c | a < c < |s.started| && s.jobs[s.started[c]].path == s.jobs[j].path :: s.started[a] < s.started[c];
    b :| 0 <= b < |s.started| && s.started[b] == j;
  }

  /** Tasks of a path start in enqueue order and none is passed over. */
  lemma StartOrder(steps: seq<Step>, a: nat, j: nat)
    requires Legal(steps) && a < |After(steps).started|
    ensures var s := After(steps);
      && s.started[a] < |s.jobs|
      && (j < s.started[a] && s.jobs[j].path == s.jobs[s.started[a]].path ==>
            exists b :: 0 <= b < a && s.started[b] == j)
  {
    LegalInv(steps);
    var s := After(steps);
    var k := s.started[a];
    if j < k && s.jobs[j].path == s.jobs[k].path {
      assert InTurn(s, k);
      var b := EarlierHasStarted(s, a, j);
    }
  }

  /** A task may start exactly if all earlier tasks of its path have settled, however they settled. */
  lemma StartEnabledIff(steps: seq<Step>, k: nat)
    requires Legal(steps) && k < |After(steps).jobs| && After(steps).jobs[k].phase == Waiting
    ensures Enabled(After(steps), Start(k)) <==>
      forall j | 0 <= j < k && After(steps).jobs[j].path == After(steps).jobs[k].path ::
        After(steps).jobs[j].phase == Settled
  {
    LegalInv(steps);
    var s := After(steps);
    assert Chained(s, k);
    if Enabled(s, Start(k)) { TurnHasCome(s, k); }
  }

  /** The cleanup callback deletes the path's entry exactly if no newer job has been enqueued for the path. */
  lemma FinallyKeepsNewerTail(steps: seq<Step>, k: nat)
    requires Legal(steps) && Enabled(After(steps), Finally(k))
    ensures var s := After(steps);
      Next(s, Finally(k)).queue == if IsLast(s, k) then s.queue - {s.jobs[k].path} else s.queue
  {
    LegalInv(steps);
  }

  /** The map has an entry for a path exactly while the path's last job has not been cleaned up. */
  lemma EntryIff(steps: seq<Step>, path: Path)
    requires Legal(steps)
    ensures path in After(steps).queue <==>
      exists k :: 0 <= k < |After(steps).jobs| && After(steps).jobs[k].path == path
        && IsLast(After(steps), k) && !After(steps).jobs[k].cleaned
  {
    LegalInv(steps);
    var s := After(steps);
    if path in s.queue {
      var k := s.queue[path];
      assert s.jobs[k].path == path && IsLast(s, k) && !s.jobs[k].cleaned;
    }
  }

  // ---------------------------------------------------------------- progress

  function Work(j: Job): nat {
    match j.phase
    case Waiting => if j.cleaned then 2 else 3
    case Running => if j.cleaned then 1 else 2
    case Settled => if j.cleaned then 0 else 1
  }

  /** Steps still to come if nothing more is enqueued. */
  function WorkLeft(jobs: seq<Job>): nat
    decreases |jobs|
  {
    if jobs == [] then 0 else WorkLeft(jobs[..|jobs| - 1]) + Work(jobs[|jobs| - 1])
  }

  lemma {:induction false} WorkLeftUpdate(jobs: seq<Job>, k: nat, j: Job)
    requires k < |jobs|
    ensures WorkLeft(jobs[k := j]) + Work(jobs[k]) == WorkLeft(jobs) + Work(j)
    decreases |jobs|
  {
    var n := |jobs| - 1;
    if k == n {
      assert jobs[k := j][..n] == jobs[..n];
    } else {
      assert jobs[k := j][..n] == jobs[..n][k := j];
      WorkLeftUpdate(jobs[..n], k, j);
    }
  }

  lemma {:induction false} NoWorkLeft(jobs: seq<Job>)
    requires WorkLeft(jobs) == 0
    ensures forall k | 0 <= k < |jobs| :: jobs[k].phase == Settled && jobs[k].cleaned
    decreases |jobs|
  {
    if jobs != [] {
      NoWorkLeft(jobs[..|jobs| - 1]);
      forall k | 0 <= k < |jobs|
        ensures jobs[k].phase == Settled && jobs[k].cleaned
      {
        assert k < |jobs| - 1 ==> jobs[k] == jobs[..|jobs| - 1][k];
      }
    }
  }

  lemma StepDoesWork(s: State, e: Step)
    requires CleanedSettled(s) && Enabled(s, e) && !e.Enqueue?
    ensures WorkLeft(Next(s, e).jobs) == WorkLeft(s.jobs) - 1
  {
    match e
    case Start(k) => WorkLeftUpdate(s.jobs, k, s.jobs[k].(phase := Running));
    case Settle(k, _) => WorkLeftUpdate(s.jobs, k, s.jobs[k].(phase := Settled));
    case Finally(k) => WorkLeftUpdate(s.jobs, k, s.jobs[k].(cleaned := true));
  }

  ghost predicate Quiescent(s: State) {
    forall e: Step :: Enabled(s, e) ==> e.Enqueue?
  }

  /** No rejection, and nothing else, can leave the queue stuck: whenever nothing but an enqueue is possible,
      every task has settled and been cleaned up, and the map is empty. */
  lemma QuiescentIsDrained(steps: seq<Step>)
    requires Legal(steps)
    ensures Quiescent(After(steps)) <==> WorkLeft(After(steps).jobs) == 0
    ensures Quiescent(After(steps)) ==> After(steps).queue == map[]
    ensures Quiescent(After(steps)) ==> forall j <- After(steps).jobs :: j.phase == Settled && j.cleaned
  {
    LegalInv(steps);
    var s := After(steps);
    if Quiescent(s) {
      AllSettled(s, |s.jobs|);
      forall k | 0 <= k < |s.jobs|
        ensures s.jobs[k].phase == Settled && s.jobs[k].cleaned
      {
        assert !Enabled(s, Finally(k));
      }
      AllDoneNoWork(s.jobs);
      AllCleanedMapEmpty(s);
    } else {
      var e :| Enabled(s, e) && !e.Enqueue?;
      StepDoesWork(s, e);
    }
  }

  lemma {:induction false} AllDoneNoWork(jobs: seq<Job>)
    requires forall k | 0 <= k < |jobs| :: jobs[k].phase == Settled && jobs[k].cleaned
    ensures WorkLeft(jobs) == 0
    decreases |jobs|
  {
    if jobs != [] { AllDoneNoWork(jobs[..|jobs| - 1]); }
  }

  lemma AllCleanedMapEmpty(s: State)
    requires Tails(s) && forall k | 0 <= k < |s.jobs| :: s.jobs[k].cleaned
    ensures s.queue == map[]
  {
    assert forall p :: p !in s.queue;
  }

  lemma FirstUnsettledCanMove(s: State, k: nat)
    requires Ordered(s) && k < |s.jobs| && s.jobs[k].phase != Settled
    requires forall j | 0 <= j < k :: s.jobs[j].phase == Settled
    ensures Enabled(s, Start(k)) || Enabled(s, Settle(k, true))
  {
    assert Chained(s, k);
  }

  lemma {:induction false} AllSettled(s: State, n: nat)
    requires Ordered(s) && Quiescent(s) && n <= |s.jobs|
    ensures forall k | 0 <= k < n :: s.jobs[k].phase == Settled
    decreases n
  {
    if n > 0 {
      AllSettled(s, n - 1);
      if s.jobs[n - 1].phase != Settled { FirstUnsettledCanMove(s, n - 1); }
    }
  }

  /** From any reachable state, once enqueueing stops, every schedule drains the queue: a run of other steps is
      at most `WorkLeft` long, and it is over exactly when the state is quiescent. */
  lemma {:induction false} DrainsInBoundedSteps(steps: seq<Step>, more: seq<Step>)
    requires Legal(steps + more) && Legal(steps)
    requires forall e <- more :: !e.Enqueue?
    ensures |more| + WorkLeft(After(steps + more).jobs) == WorkLeft(After(steps).jobs)
    decreases |more|
  {
    if more == [] {
      assert steps + more == steps;
    } else {
      var n := |more| - 1;
      assert (steps + more)[..|steps + more| - 1] == steps + more[..n];
      DrainsInBoundedSteps(steps, more[..n]);
      LegalInv(steps + more[..n]);
      StepDoesWork(After(steps + more[..n]), more[n]);
    }
  }

  /** The same steps, but for how tasks settle. */
  ghost predicate SameSchedule(a: seq<Step>, b: seq<Step>) {
    && |a| == |b|
    && forall i | 0 <= i < |a| ::
      if a[i].Settle? then b[i].Settle? && a[i].job == b[i].job else a[i] == b[i]
  }

  /** Rejections are invisible to the schedule: with other outcomes the same steps are possible and lead to
      the same state, but for the count of logged errors. */
  lemma {:induction false} OutcomesDoNotMatter(a: seq<Step>, b: seq<Step>)
    requires Legal(a) && SameSchedule(a, b)
    ensures Legal(b) && After(b) == After(a).(errors := After(b).errors)
    decreases |a|
  {
    if a != [] {
      var n := |a| - 1;
      OutcomesDoNotMatter(a[..n], b[..n]);
      assert Enabled(After(b[..n]), b[n]);
    }
  }

  /** How many of the tasks that settle are rejected. */
  function Rejections(steps: seq<Step>): nat
    decreases |steps|
  {
    if steps == [] then 0
    else
      Rejections(steps[..|steps| - 1]) + if steps[|steps| - 1].Settle? && !steps[|steps| - 1].ok then 1 else 0
  }

  /** Every rejection is logged once, and nothing else is. */
  lemma {:induction false} RejectionsLogged(steps: seq<Step>)
    requires Legal(steps)
    ensures After(steps).errors == Rejections(steps)
    decreases |steps|
  {
    if steps != [] { RejectionsLogged(steps[..|steps| - 1]); }
  }
}
