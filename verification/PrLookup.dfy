/**
 * Looking up the merged pull requests of commits: a cache of good answers, a pause after a rate limit, and the count
 * over the commits of a session. Times are in ms.
 */
module PrLookup {
  import opened Options

  const RATE_LIMIT_WINDOW: int := 3_600_000

  /** An owner with a repository, a commit hash, and a pull request number. */
  type Repo = nat
  type Sha = nat
  type PrNumber = int

  /** An answer of the command, classified. A failure is told apart by whether the command was found at all. */
  datatype Answer = Ok(prNumbers: seq<PrNumber>) | RateLimited | Unauthorized | NotFound | Failed(missing: bool)

  datatype Reason = RateLimitReason | AuthFailure | CliMissing | GhError

  /** One call: what it asks about, the clock when it comes in, and what the command would answer and when. */
  datatype Call = Call(repo: Repo, sha: Sha, asked: int, answered: int, gh: Answer)

  datatype Reply = Reply(answer: Answer, spawned: bool)

  datatype State = State(shaCache: map<Sha, seq<PrNumber>>, limitedUntil: Option<int>, loggedReasons: set<Reason>)

  const EMPTY := State(map[], None, {})

  function ReasonOf(a: Answer): Option<Reason> {
    match a
    case Ok(_) => None
    case RateLimited => Some(RateLimitReason)
    case Unauthorized => Some(AuthFailure)
    case NotFound => None
    case Failed(missing) => Some(if missing then CliMissing else GhError)
  }

  predicate Paused(s: State, now: int) {
    s.limitedUntil.Some? && now < s.limitedUntil.value
  }

  predicate Spawns(s: State, c: Call) {
    c.sha !in s.shaCache && !Paused(s, c.asked)
  }

  function ReplyTo(s: State, c: Call): Reply {
    if c.sha in s.shaCache then Reply(Ok(s.shaCache[c.sha]), false)
    else if Paused(s, c.asked) then Reply(RateLimited, false)
    else Reply(c.gh, true)
  }

  function Next(s: State, c: Call): State {
    if !Spawns(s, c) then s
    else
      State(if c.gh.Ok? then s.shaCache[c.sha := c.gh.prNumbers] else s.shaCache,
            if c.gh.RateLimited? then Some(c.answered + RATE_LIMIT_WINDOW) else s.limitedUntil,
            if ReasonOf(c.gh).Some? then s.loggedReasons + {ReasonOf(c.gh).value} else s.loggedReasons)
  }

  class Lookup {
    var shaCache: map<Sha, seq<PrNumber>>
    var limitedUntil: Option<int>
    var loggedReasons: set<Reason>
    /** The lines logged so far. */
    var lines: seq<Reason>

    constructor ()
      ensures Snapshot() == EMPTY && lines == []
    {
      shaCache, limitedUntil, loggedReasons, lines := map[], None, {}, [];
    }

    ghost function Snapshot(): State
      reads this
    {
      State(shaCache, limitedUntil, loggedReasons)
    }

    /** No reason has been logged twice, and those logged are remembered. */
    ghost predicate Valid()
      reads this
    {
      && (forall r :: r in loggedReasons <==> r in lines)
      && forall i, j | 0 <= i < j < |lines| :: lines[i] != lines[j]
    }

    method LogOnce(reason: Reason)
      requires Valid()
      modifies this`loggedReasons, this`lines
      ensures Valid() && loggedReasons == old(loggedReasons) + {reason}
      ensures lines == if reason in old(loggedReasons) then old(lines) else old(lines) + [reason]
    {
      if reason in loggedReasons { return; }
      loggedReasons := loggedReasons + {reason};
      lines := lines + [reason];
    }

    method LookupMergedPrCount(c: Call) returns (reply: Reply)
      requires Valid()
      modifies this
      ensures Valid() && Snapshot() == Next(old(Snapshot()), c)
      ensures reply == ReplyTo(old(Snapshot()), c)
      ensures old(lines) <= lines
    {
      if c.sha in shaCache {
        return Reply(Ok(shaCache[c.sha]), false);
      }
      if limitedUntil.Some? && c.asked < limitedUntil.value {
        return Reply(RateLimited, false);
      }
      var classified := c.gh;
      match classified {
        case Ok(prNumbers) =>
          shaCache := shaCache[c.sha := prNumbers];
        case RateLimited =>
          limitedUntil := Some(c.answered + RATE_LIMIT_WINDOW);
          LogOnce(RateLimitReason);
        case Unauthorized =>
          LogOnce(AuthFailure);
        case NotFound =>
        case Failed(missing) =>
          if missing { LogOnce(CliMissing); } else { LogOnce(GhError); }
      }
      return Reply(classified, true);
    }

    /**
     * The number of different merged pull requests of the commits. The calls give the clock and the command's answers
     * for the commits one after the other; they all ask about the repository of the remote.
     */
    method ComputeMergedPrCount(flag: bool, repo: Option<Repo>, calls: seq<Call>) returns (count: Option<nat>)
      requires Valid() && forall c <- calls :: repo == Some(c.repo) || repo.None?
      modifies this
      ensures Valid()
      ensures !flag || calls == [] || repo.None? ==> count.None? && Snapshot() == old(Snapshot())
      ensures flag && calls != [] && repo.Some? ==>
                && Snapshot() == StateAfter(old(Snapshot()), calls)
                && (count.None? <==>
                      exists i | 0 <= i < |calls| :: var a := ReplyAt(old(Snapshot()), calls, i).answer;
                        a == RateLimited || a == Unauthorized || a.Failed?)
                && (count.Some? ==> count.value == |PrsOf(old(Snapshot()), calls)|)
    {
      if !flag { return None; }
      if |calls| == 0 { return None; }
      if repo.None? { return None; }
      var prSet: set<PrNumber> := {};
      var anyFailure := false;
      for i := 0 to |calls|
        invariant Valid() && Snapshot() == StateAfter(old(Snapshot()), calls[..i])
        invariant anyFailure <==> exists j | 0 <= j < i :: IsFailure(ReplyAt(old(Snapshot()), calls, j).answer)
        invariant prSet == PrsOf(old(Snapshot()), calls[..i])
      {
        assert calls[..i + 1][..i] == calls[..i];
        var reply := LookupMergedPrCount(calls[i]);
        assert reply == ReplyAt(old(Snapshot()), calls, i);
        if reply.answer.RateLimited? || reply.answer.Unauthorized? || reply.answer.Failed? {
          anyFailure := true;
          continue;
        }
        var prNumbers := if reply.answer.Ok? then reply.answer.prNumbers else [];
        prSet := prSet + set n | n in prNumbers;
      }
      assert calls[..|calls|] == calls;
      return if anyFailure then None else Some(|prSet|);
    }
  }

  // ---------------------------------------------------------------- runs

  function StateAfter(s: State, calls: seq<Call>): State
    decreases |calls|
  {
    if calls == [] then s else Next(StateAfter(s, calls[..|calls| - 1]), calls[|calls| - 1])
  }

  function ReplyAt(s: State, calls: seq<Call>, i: nat): Reply
    requires i < |calls|
  {
    ReplyTo(StateAfter(s, calls[..i]), calls[i])
  }

  predicate IsFailure(a: Answer) {
    a.RateLimited? || a.Unauthorized? || a.Failed?
  }

  function PrsIn(a: Answer): set<PrNumber> {
    if a.Ok? then set n | n in a.prNumbers else {}
  }

  /** All pull requests in the replies. */
  function PrsOf(s: State, calls: seq<Call>): set<PrNumber>
    decreases |calls|
  {
    if calls == [] then {}
    else PrsOf(s, calls[..|calls| - 1]) + PrsIn(ReplyAt(s, calls, |calls| - 1).answer)
  }

  lemma {:induction false} PrsOfIsUnion(s: State, calls: seq<Call>, n: PrNumber)
    ensures n in PrsOf(s, calls) <==>
      exists i | 0 <= i < |calls| :: ReplyAt(s, calls, i).answer.Ok? && n in ReplyAt(s, calls, i).answer.prNumbers
    decreases |calls|
  {
    if calls != [] {
      var front := calls[..|calls| - 1];
      PrsOfIsUnion(s, front, n);
      assert forall i | 0 <= i < |front| :: ReplyAt(s, front, i) == ReplyAt(s, calls, i) by {
        forall i | 0 <= i < |front| ensures ReplyAt(s, front, i) == ReplyAt(s, calls, i) {
          assert front[..i] == calls[..i];
        }
      }
    }
  }

  /** The clock never goes back. */
  ghost predicate Monotone(calls: seq<Call>) {
    && (forall i | 0 <= i < |calls| :: calls[i].asked <= calls[i].answered)
    && forall i, j | 0 <= i < j < |calls| :: calls[i].answered <= calls[j].asked
  }

  /** The i-th call was answered Ok with these pull requests. */
  ghost predicate OkAt(calls: seq<Call>, i: nat, sha: Sha, prs: seq<PrNumber>) {
    i < |calls| && calls[i].sha == sha && ReplyAt(EMPTY, calls, i).answer == Ok(prs)
  }

  /** The i-th call spawned the command and ran into the rate limit. */
  ghost predicate LimitedAt(calls: seq<Call>, i: nat) {
    i < |calls| && ReplyAt(EMPTY, calls, i) == Reply(RateLimited, true)
  }

  lemma ReplyOfPrefix(s: State, calls: seq<Call>, n: nat, i: nat)
    requires i < n <= |calls|
    ensures ReplyAt(s, calls[..n], i) == ReplyAt(s, calls, i)
  {
    assert calls[..n][..i] == calls[..i];
  }

  /** The cache holds exactly the commits that were answered Ok, with the answer they all got. */
  lemma {:induction false} CacheHolds(calls: seq<Call>, n: nat, sha: Sha)
    requires n <= |calls|
    ensures sha in StateAfter(EMPTY, calls[..n]).shaCache <==>
              exists i: nat, prs | i < n :: OkAt(calls, i, sha, prs)
    ensures forall i: nat, prs | i < n && OkAt(calls, i, sha, prs) ::
              sha in StateAfter(EMPTY, calls[..n]).shaCache && StateAfter(EMPTY, calls[..n]).shaCache[sha] == prs
  {
    if n > 0 {
      CacheHolds(calls, n - 1, sha);
      assert calls[..n][..n - 1] == calls[..n - 1];
      var before, after, c := StateAfter(EMPTY, calls[..n - 1]), StateAfter(EMPTY, calls[..n]), calls[n - 1];
      assert after == Next(before, c);
      if sha in after.shaCache && sha !in before.shaCache {
        assert OkAt(calls, n - 1, sha, c.gh.prNumbers);
      }
    }
  }

  /** The pause ends one hour after the last rate-limited answer. */
  lemma {:induction false} PauseHolds(calls: seq<Call>, n: nat)
    requires n <= |calls| && Monotone(calls)
    ensures var until := StateAfter(EMPTY, calls[..n]).limitedUntil;
            && (forall i: nat | i < n && LimitedAt(calls, i) ::
                  until.Some? && calls[i].answered + RATE_LIMIT_WINDOW <= until.value)
            && (until.Some? ==>
                  exists i: nat | i < n && LimitedAt(calls, i) :: until.value == calls[i].answered + RATE_LIMIT_WINDOW)
  {
    if n > 0 {
      PauseHolds(calls, n - 1);
      assert calls[..n][..n - 1] == calls[..n - 1];
      var before, after := StateAfter(EMPTY, calls[..n - 1]), StateAfter(EMPTY, calls[..n]);
      assert after == Next(before, calls[n - 1]);
      if LimitedAt(calls, n - 1) {
        assert after.limitedUntil == Some(calls[n - 1].answered + RATE_LIMIT_WINDOW);
      } else {
        assert after.limitedUntil == before.limitedUntil;
      }
    }
  }

  /** A commit once answered Ok is never asked about again and always gets the same pull requests. */
  lemma OkIsFinal(calls: seq<Call>, i: nat, j: nat, sha: Sha, prs: seq<PrNumber>)
    requires i < j < |calls| && OkAt(calls, i, sha, prs) && calls[j].sha == sha
    ensures ReplyAt(EMPTY, calls, j) == Reply(Ok(prs), false)
  {
    CacheHolds(calls, j, sha);
  }

  /** After a rate-limited answer nothing is spawned for an hour. */
  lemma PauseIsKept(calls: seq<Call>, i: nat, j: nat)
    requires Monotone(calls) && i < j < |calls| && LimitedAt(calls, i)
    requires calls[j].asked < calls[i].answered + 3_600_000
    ensures !ReplyAt(EMPTY, calls, j).spawned
  {
    PauseHolds(calls, j);
  }

  /** The command is spawned exactly when the commit has no good answer yet and no pause is running. */
  lemma SpawnedIff(calls: seq<Call>, j: nat)
    requires Monotone(calls) && j < |calls|
    ensures ReplyAt(EMPTY, calls, j).spawned <==>
              && (forall i: nat, prs | i < j :: !OkAt(calls, i, calls[j].sha, prs))
              && (forall i: nat | i < j && LimitedAt(calls, i) ::
                    calls[i].answered + 3_600_000 <= calls[j].asked)
    ensures var r := ReplyAt(EMPTY, calls, j);
      if r.spawned then r.answer == calls[j].gh else r.answer == RateLimited || r.answer.Ok?
  {
    CacheHolds(calls, j, calls[j].sha);
    PauseHolds(calls, j);
  }

  /** Each kind of failure is logged under its own reason, a good answer or an unknown commit under none. */
  lemma ReasonsLogged(s: State, c: Call)
    requires ReplyTo(s, c).spawned
    ensures Next(s, c).loggedReasons - s.loggedReasons <= match c.gh
      case Ok(_) => {}
      case RateLimited => {RateLimitReason}
      case Unauthorized => {AuthFailure}
      case NotFound => {}
      case Failed(missing) => if missing then {CliMissing} else {GhError}
    ensures s.loggedReasons <= Next(s, c).loggedReasons
    ensures c.gh.RateLimited? ==> RateLimitReason in Next(s, c).loggedReasons
    ensures c.gh.Unauthorized? ==> AuthFailure in Next(s, c).loggedReasons
    ensures c.gh.Failed? ==> (if c.gh.missing then CliMissing else GhError) in Next(s, c).loggedReasons
  {
  }

  /** Looking the same commits up again after good answers spawns nothing and gives the same pull requests. */
  lemma RecountSpawnsNothing(calls: seq<Call>, again: seq<Call>, i: nat)
    requires |again| == |calls| && i < |calls| && again[i].sha == calls[i].sha
    requires ReplyAt(EMPTY, calls, i).answer.Ok?
    ensures ReplyAt(EMPTY, calls + again, |calls| + i) == Reply(ReplyAt(EMPTY, calls, i).answer, false)
  {
    var all := calls + again;
    assert all[..|calls|] == calls;
    ReplyOfPrefix(EMPTY, all, |calls|, i);
    OkIsFinal(all, i, |calls| + i, calls[i].sha, ReplyAt(EMPTY, calls, i).answer.prNumbers);
  }

  // ---------------------------------------------------------------- one commit in two repositories

  /** The i-th call spawned the command and got a good answer. */
  ghost predicate AskedOk(calls: seq<Call>, i: nat, sha: Sha) {
    i < |calls| && calls[i].sha == sha && calls[i].gh.Ok? && ReplyAt(EMPTY, calls, i) == Reply(calls[i].gh, true)
  }

  /** A commit gets a good answer from the command once at most. */
  lemma AskedOkOnce(calls: seq<Call>, i: nat, j: nat, sha: Sha)
    requires AskedOk(calls, i, sha) && AskedOk(calls, j, sha)
    ensures i == j
  {
    if i < j { OkIsFinal(calls, i, j, sha, calls[i].gh.prNumbers); }
    if j < i { OkIsFinal(calls, j, i, sha, calls[j].gh.prNumbers); }
  }

  /** Every good reply is the answer the command gave to the same or an earlier call for the commit. */
  lemma {:induction false} GoodReplyWasAsked(calls: seq<Call>, j: nat) returns (i: nat)
    requires j < |calls| && ReplyAt(EMPTY, calls, j).answer.Ok?
    ensures i <= j && AskedOk(calls, i, calls[j].sha) && ReplyAt(EMPTY, calls, j).answer == calls[i].gh
    decreases j
  {
    var sha := calls[j].sha;
    if ReplyAt(EMPTY, calls, j).spawned {
      i := j;
    } else {
      CacheHolds(calls, j, sha);
      var k: nat, prs :| k < j && OkAt(calls, k, sha, prs);
      OkIsFinal(calls, k, j, sha, prs);
      i := GoodReplyWasAsked(calls, k);
    }
  }

  /** The pull requests that the command would list for a commit of a repository. */
  type World = (Repo, Sha) -> seq<PrNumber>

  /** The good answers the command gave are those of the repositories it was asked about. */
  ghost predicate Truthful(world: World, calls: seq<Call>) {
    forall i: nat, sha | AskedOk(calls, i, sha) :: world(calls[i].repo, sha) == calls[i].gh.prNumbers
  }

  /** The reply has the pull requests of the repository that the call asks about, whatever they are. */
  ghost predicate ReplyOfOwnRepo(calls: seq<Call>, j: nat)
    requires j < |calls| && ReplyAt(EMPTY, calls, j).answer.Ok?
  {
    forall world: World | Truthful(world, calls) ::
      ReplyAt(EMPTY, calls, j).answer.prNumbers == world(calls[j].repo, calls[j].sha)
  }

  /** The good answer of the command for a commit, if there was one. */
  ghost function GoodAnswer(calls: seq<Call>, sha: Sha): seq<PrNumber> {
    if exists i: nat :: AskedOk(calls, i, sha) then
      var i: nat :| AskedOk(calls, i, sha);
      calls[i].gh.prNumbers
    else []
  }

  lemma GoodAnswerOf(calls: seq<Call>, i: nat, sha: Sha)
    requires AskedOk(calls, i, sha)
    ensures GoodAnswer(calls, sha) == calls[i].gh.prNumbers
  {
    forall k: nat | AskedOk(calls, k, sha) { AskedOkOnce(calls, i, k, sha); }
  }

  /** A world that agrees with all good answers but for one commit of one repository. */
  ghost function Otherwise(calls: seq<Call>, repo: Repo, sha: Sha, prs: seq<PrNumber>): World {
    (r: Repo, s: Sha) => if r == repo && s == sha then prs else GoodAnswer(calls, s)
  }

  lemma OtherwiseIsTruthful(calls: seq<Call>, repo: Repo, sha: Sha, prs: seq<PrNumber>)
    requires forall i: nat | AskedOk(calls, i, sha) :: calls[i].repo != repo
    ensures Truthful(Otherwise(calls, repo, sha, prs), calls)
  {
    forall i: nat, s | AskedOk(calls, i, s)
      ensures Otherwise(calls, repo, sha, prs)(calls[i].repo, s) == calls[i].gh.prNumbers
    {
      GoodAnswerOf(calls, i, s);
    }
  }

  /** The cache is keyed by the commit alone. A good reply is that of the repository it is for exactly if the command's
      good answer for the commit was about that repository; if not, it may have any other pull requests. */
  lemma ReplyOfOwnRepoIff(calls: seq<Call>, j: nat)
    requires j < |calls| && ReplyAt(EMPTY, calls, j).answer.Ok?
    ensures ReplyOfOwnRepo(calls, j)
       <==> exists i: nat :: i <= j && AskedOk(calls, i, calls[j].sha) && calls[i].repo == calls[j].repo
  {
    var sha, prs := calls[j].sha, ReplyAt(EMPTY, calls, j).answer.prNumbers;
    var i := GoodReplyWasAsked(calls, j);
    if calls[i].repo != calls[j].repo {
      forall k: nat | AskedOk(calls, k, sha)
        ensures calls[k].repo != calls[j].repo
      {
        AskedOkOnce(calls, i, k, sha);
      }
      OtherwiseIsTruthful(calls, calls[j].repo, sha, prs + [0]);
      assert Otherwise(calls, calls[j].repo, sha, prs + [0])(calls[j].repo, sha) != prs;
    }
  }

  /** The same commit in two repositories, as in a fork: the second gets the pull requests of the first. */
  lemma ForkGetsOthersAnswer(sha: Sha, repo: Repo, fork: Repo, prs: seq<PrNumber>, own: seq<PrNumber>)
    requires repo != fork && prs != own
    ensures var calls := [Call(repo, sha, 0, 0, Ok(prs)), Call(fork, sha, 1, 1, Ok(own))];
      ReplyAt(EMPTY, calls, 1) == Reply(Ok(prs), false) && !ReplyOfOwnRepo(calls, 1)
  {
    var calls := [Call(repo, sha, 0, 0, Ok(prs)), Call(fork, sha, 1, 1, Ok(own))];
    assert calls[..0] == [] && AskedOk(calls, 0, sha);
    OkIsFinal(calls, 0, 1, sha, prs);
    ReplyOfOwnRepoIff(calls, 1);
    assert !AskedOk(calls, 1, sha);
  }
}
