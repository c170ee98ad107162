/**
 * One session between reporter runs. A run reads the payload before it pushes and marks the session after the
 * acknowledgement, and ingest, ratings and evaluations may change the row at any time in between.
 */
module StaleSessions {
  import opened Options
  import opened Runner

  /** What can happen to a session, and when. `Touched` changes the content without any time column. */
  datatype Event =
    | Ingested(at: int, startedAt: int, content: Option<int>)
    | Rated(at: int, replaced: set<int>, content: Option<int>)
    | Evaluated(at: int, content: Option<int>)
    | Touched(at: int, content: Option<int>)
    | Read(at: int)
    | Acknowledged(at: int)
    | Refused(at: int)

  /** The row, the mark, and the hash of the payload that a run has read and not yet delivered. */
  datatype State = State(info: Info, mark: Option<Mark>, inFlight: Option<int>)

  predicate Changes(e: Event) {
    e.Ingested? || e.Rated? || e.Evaluated? || e.Touched?
  }

  /** A change that leaves its time in a column the candidate query compares with the mark. */
  predicate Visible(e: Event) {
    Changes(e) && !e.Touched?
  }

  function Next(s: State, e: Event, id: Id, digest: Payload -> int): State {
    match e
    case Ingested(at, startedAt, content) =>
      s.(info := s.info.(ingestedAt := at, startedAt := startedAt, content := content))
    case Rated(at, replaced, content) =>
      s.(info := s.info.(ratedAt := s.info.ratedAt - replaced + {at}, content := content))
    case Evaluated(at, content) =>
      s.(info := s.info.(lastEvaluatedAt := Some(at), content := content))
    case Touched(_, content) =>
      s.(info := s.info.(content := content))
    case Read(at) =>
      var gate := GateOf(s.info, s.mark, id, digest);
      s.(inFlight := if IsCandidate(s.info, s.mark, at - ONE_HOUR_MS) && gate.Sanitized? then Some(gate.entry.hash)
                     else None)
    case Acknowledged(at) =>
      if s.inFlight.None? then s else s.(mark := Some(Mark(s.inFlight.value, at)), inFlight := None)
    case Refused(_) =>
      s.(inFlight := None)
  }

  /** The state after a history of a session that has never been pushed before. */
  function After(info: Info, h: seq<Event>, id: Id, digest: Payload -> int): State
    decreases |h|
  {
    if h == [] then State(info, None, None)
    else Next(After(info, h[..|h| - 1], id, digest), h[|h| - 1], id, digest)
  }

  /** No time column is later than `t`. */
  predicate UnchangedSince(info: Info, t: int) {
    && info.ingestedAt <= t && (forall r <- info.ratedAt :: r <= t)
    && (info.lastEvaluatedAt.Some? ==> info.lastEvaluatedAt.value <= t)
  }

  /** The clock never goes back, and the row is older than the history. */
  ghost predicate Monotone(info: Info, h: seq<Event>) {
    && (forall i, j | 0 <= i <= j < |h| :: h[i].at <= h[j].at)
    && (h != [] ==> UnchangedSince(info, h[0].at))
  }

  ghost predicate ChangedAfter(h: seq<Event>, t: int) {
    exists k | 0 <= k < |h| :: Visible(h[k]) && h[k].at > t
  }

  lemma ColumnsNext(s: State, e: Event, id: Id, digest: Payload -> int, t: int)
    ensures !Visible(e) ==>
              (UnchangedSince(Next(s, e, id, digest).info, t) <==> UnchangedSince(s.info, t))
    ensures Visible(e) && e.at > t ==> !UnchangedSince(Next(s, e, id, digest).info, t)
    ensures Visible(e) && e.at <= t && UnchangedSince(s.info, t) ==> UnchangedSince(Next(s, e, id, digest).info, t)
  {
    var after := Next(s, e, id, digest).info;
    if e.Rated? { assert e.at in after.ratedAt && forall r <- after.ratedAt :: r == e.at || r in s.info.ratedAt; }
  }

  lemma ChangedAfterSnoc(h: seq<Event>, e: Event, t: int)
    ensures ChangedAfter(h + [e], t) <==> ChangedAfter(h, t) || (Visible(e) && e.at > t)
  {
    if ChangedAfter(h, t) {
      var k :| 0 <= k < |h| && Visible(h[k]) && h[k].at > t;
      assert (h + [e])[k] == h[k];
    }
    if Visible(e) && e.at > t { assert (h + [e])[|h|] == e; }
  }

  lemma NothingBeforeIsLater(info: Info, h: seq<Event>, t: int)
    requires h != [] && Monotone(info, h) && h[|h| - 1].at <= t
    ensures !ChangedAfter(h, t)
  {
  }

  lemma MonotoneFront(info: Info, h: seq<Event>)
    requires h != [] && Monotone(info, h)
    ensures Monotone(info, h[..|h| - 1])
  {
  }

  /** The time columns tell exactly whether there was a visible change after `t`. */
  lemma {:induction false} ColumnsShowChanges(info: Info, h: seq<Event>, id: Id, digest: Payload -> int, t: int)
    requires Monotone(info, h) && UnchangedSince(info, t)
    ensures UnchangedSince(After(info, h, id, digest).info, t) <==> !ChangedAfter(h, t)
    decreases |h|
  {
    if h != [] {
      var front, e := h[..|h| - 1], h[|h| - 1];
      MonotoneFront(info, h);
      ColumnsShowChanges(info, front, id, digest, t);
      ColumnsNext(After(info, front, id, digest), e, id, digest, t);
      assert h == front + [e];
      ChangedAfterSnoc(front, e, t);
      if e.at <= t { NothingBeforeIsLater(info, h, t); }
    }
  }

  // ---------------------------------------------------------------- where a mark comes from

  /** The hash of the session's content, if it can be sanitized. */
  function HashOf(info: Info, id: Id, digest: Payload -> int): Option<int> {
    if info.content.None? then None else Some(digest(Payload(id, info.content.value)))
  }

  /** The payload read at `r` is in flight from then on. */
  ghost predicate InFlightSince(info: Info, h: seq<Event>, id: Id, digest: Payload -> int, r: nat, hash: int) {
    && r < |h| && h[r].Read? && HashOf(After(info, h[..r], id, digest).info, id, digest) == Some(hash)
    && forall k | r < k <= |h| :: After(info, h[..k], id, digest).inFlight == Some(hash)
  }

  lemma {:induction false} InFlightWasRead(info: Info, h: seq<Event>, id: Id, digest: Payload -> int) returns (r: nat)
    requires After(info, h, id, digest).inFlight.Some?
    ensures InFlightSince(info, h, id, digest, r, After(info, h, id, digest).inFlight.value)
    decreases |h|
  {
    var n := |h| - 1;
    var front := h[..n];
    assert h[..|h|] == h;
    if h[n].Read? {
      r := n;
    } else {
      r := InFlightWasRead(info, front, id, digest);
      assert front[..r] == h[..r];
      forall k | r < k <= |h| ensures After(info, h[..k], id, digest).inFlight == After(info, h, id, digest).inFlight {
        if k <= n { assert front[..k] == h[..k]; }
      }
    }
  }

  /** The mark was set at `a`, with the hash of the payload that had been in flight since it was read at `r`. */
  ghost predicate MarkedBy(info: Info, h: seq<Event>, id: Id, digest: Payload -> int, r: nat, a: nat, mark: Mark) {
    && r < a < |h| && h[a].Acknowledged? && h[a].at == mark.at
    && InFlightSince(info, h[..a], id, digest, r, mark.hash)
  }

  lemma {:induction false} MarkWasRead(info: Info, h: seq<Event>, id: Id, digest: Payload -> int)
    returns (r: nat, a: nat)
    requires After(info, h, id, digest).mark.Some?
    ensures MarkedBy(info, h, id, digest, r, a, After(info, h, id, digest).mark.value)
    decreases |h|
  {
    var n := |h| - 1;
    var front := h[..n];
    var before := After(info, front, id, digest);
    if h[n].Acknowledged? && before.inFlight.Some? {
      a := n;
      r := InFlightWasRead(info, front, id, digest);
    } else {
      r, a := MarkWasRead(info, front, id, digest);
      assert front[..a] == h[..a];
    }
  }

  // ---------------------------------------------------------------- stale sessions

  /** The server holds something else than what the session would be sent as now. */
  predicate Stale(s: State, id: Id, digest: Payload -> int) {
    s.mark.Some? && HashOf(s.info, id, digest).Some? && HashOf(s.info, id, digest).value != s.mark.value.hash
  }

  /** A marked session is a candidate exactly if it started recently or was visibly changed after its mark. */
  lemma CandidateIff(info: Info, h: seq<Event>, id: Id, digest: Payload -> int, cutoff: int)
    requires Monotone(info, h) && After(info, h, id, digest).mark.Some?
    ensures var s := After(info, h, id, digest);
      IsCandidate(s.info, s.mark, cutoff) <==> s.info.startedAt >= cutoff || ChangedAfter(h, s.mark.value.at)
  {
    var s := After(info, h, id, digest);
    var r, a := MarkWasRead(info, h, id, digest);
    assert h[0].at <= h[a].at;
    ColumnsShowChanges(info, h, id, digest, s.mark.value.at);
  }

  lemma {:induction false} SameContentWithoutChange(info: Info, h: seq<Event>, id: Id, digest: Payload -> int, r: nat)
    requires r <= |h| && forall k | r <= k < |h| :: !Changes(h[k])
    ensures After(info, h, id, digest).info.content == After(info, h[..r], id, digest).info.content
    decreases |h|
  {
    if r == |h| {
      assert h[..r] == h;
    } else {
      var front := h[..|h| - 1];
      SameContentWithoutChange(info, front, id, digest, r);
      assert front[..r] == h[..r];
    }
  }

  /**
   * What a stale session's history looks like: its content changed after the payload behind its mark was read. The
   * next run misses it exactly if it did not start recently and every such change was either invisible or not later
   * than the acknowledgement.
   */
  lemma StaleIsMissedIff(info: Info, h: seq<Event>, id: Id, digest: Payload -> int, cutoff: int)
    returns (r: nat, a: nat)
    requires Monotone(info, h) && Stale(After(info, h, id, digest), id, digest)
    ensures MarkedBy(info, h, id, digest, r, a, After(info, h, id, digest).mark.value)
    ensures exists k | r < k < |h| :: Changes(h[k])
    ensures var s := After(info, h, id, digest);
      !IsCandidate(s.info, s.mark, cutoff) <==>
        s.info.startedAt < cutoff && forall k | r < k < |h| && Changes(h[k]) :: h[k].Touched? || h[k].at <= h[a].at
  {
    r, a := MarkWasRead(info, h, id, digest);
    CandidateIff(info, h, id, digest, cutoff);
    assert h[..a][..r] == h[..r];
    if forall k | r < k < |h| :: !Changes(h[k]) {
      SameContentWithoutChange(info, h, id, digest, r);
      assert false;
    }
  }

  /** No change falls between reading a payload and hearing about it. */
  ghost predicate Undisturbed(info: Info, h: seq<Event>, id: Id, digest: Payload -> int) {
    forall k | 0 <= k < |h| && Changes(h[k]) :: After(info, h[..k], id, digest).inFlight.None?
  }

  /** Changes after an acknowledgement are visible and strictly later than it. */
  ghost predicate Separated(h: seq<Event>) {
    forall a, k | 0 <= a < k < |h| && h[a].Acknowledged? && Changes(h[k]) :: Visible(h[k]) && h[k].at > h[a].at
  }

  /** Without such overlaps every stale session is a candidate of the next run. */
  lemma QuietRunsMissNothing(info: Info, h: seq<Event>, id: Id, digest: Payload -> int, cutoff: int)
    requires Monotone(info, h) && Undisturbed(info, h, id, digest) && Separated(h)
    requires Stale(After(info, h, id, digest), id, digest)
    ensures var s := After(info, h, id, digest); IsCandidate(s.info, s.mark, cutoff)
  {
    var r, a := StaleIsMissedIff(info, h, id, digest, cutoff);
    forall i | r < i <= a ensures After(info, h[..i], id, digest).inFlight.Some? {
      assert h[..a][..i] == h[..i];
    }
  }

  /** Nothing but a change brings a missed session back: any number of later runs leave it as it is. */
  lemma {:induction false} StaysMissed(info: Info, h: seq<Event>, more: seq<Event>, id: Id, digest: Payload -> int,
                                       cutoff: int)
    requires var s := After(info, h, id, digest); s.inFlight.None? && !IsCandidate(s.info, s.mark, cutoff)
    requires forall e <- more :: !Changes(e) && (e.Read? ==> e.at - ONE_HOUR_MS >= cutoff)
    ensures After(info, h + more, id, digest) == After(info, h, id, digest)
    decreases |more|
  {
    if more == [] {
      assert h + more == h;
    } else {
      var n := |more| - 1;
      StaysMissed(info, h, more[..n], id, digest, cutoff);
      assert (h + more)[..|h + more| - 1] == h + more[..n];
    }
  }

  function ContentItself(p: Payload): int {
    p.content
  }

  /** A session ingested while its batch is being pushed: the mark is later than the change, which is missed. */
  lemma OverlapLosesUpdate(startedAt: int, cutoff: int)
    requires startedAt < cutoff
    ensures var info := Info(startedAt, 5, {}, None, Some(1));
            var s := After(info, [Read(10), Ingested(20, startedAt, Some(2)), Acknowledged(30)], 7, ContentItself);
      Stale(s, 7, ContentItself) && !IsCandidate(s.info, s.mark, cutoff) && s.inFlight.None?
  {
    var info := Info(startedAt, 5, {}, None, Some(1));
    var h := [Read(10), Ingested(20, startedAt, Some(2)), Acknowledged(30)];
    assert h[..0] == [] && h[..1][..0] == [] && h[..2][..1] == h[..1];
    assert After(info, h[..1], 7, ContentItself) == State(info, None, Some(1));
    assert After(info, h[..2], 7, ContentItself) == State(Info(startedAt, 20, {}, None, Some(2)), None, Some(1));
  }
}
