/** When the 5-hour and 7-day quota windows reset next, from the timestamps of the recent turns. Times in ms. */
module Quota {
  import opened Options

  const WINDOW_5H: int := 18_000_000
  const WINDOW_7D: int := 604_800_000

  // ---------------------------------------------------------------- sorted windows

  function Insert(t: int, s: seq<int>): seq<int> {
    if s == [] then [t] else if t <= s[0] then [t] + s else [s[0]] + Insert(t, s[1..])
  }

  /** The timestamps at or after the cutoff, in ascending order. */
  function SortedSince(turns: seq<int>, cutoff: int): seq<int> {
    if turns == [] then []
    else if turns[0] >= cutoff then Insert(turns[0], SortedSince(turns[1..], cutoff))
    else SortedSince(turns[1..], cutoff)
  }

  predicate Ascending(s: seq<int>) {
    forall i, j | 0 <= i < j < |s| :: s[i] <= s[j]
  }

  lemma {:induction false} InsertSorts(t: int, s: seq<int>)
    requires Ascending(s)
    ensures Ascending(Insert(t, s))
    ensures forall x | x in Insert(t, s) :: x == t || x in s
    ensures t in Insert(t, s) && forall x | x in s :: x in Insert(t, s)
    decreases |s|
  {
    if s != [] && t > s[0] {
      InsertSorts(t, s[1..]);
      assert s == [s[0]] + s[1..];
      var rest := Insert(t, s[1..]);
      forall j | 0 <= j < |rest| ensures s[0] <= rest[j] { assert rest[j] in rest; }
    }
  }

  lemma {:induction false} SortedSinceSorts(turns: seq<int>, cutoff: int)
    ensures Ascending(SortedSince(turns, cutoff))
    ensures forall x | x in SortedSince(turns, cutoff) :: x in turns && x >= cutoff
    ensures forall x | x in turns && x >= cutoff :: x in SortedSince(turns, cutoff)
    decreases |turns|
  {
    if turns != [] {
      SortedSinceSorts(turns[1..], cutoff);
      if turns[0] >= cutoff { InsertSorts(turns[0], SortedSince(turns[1..], cutoff)); }
      assert turns == [turns[0]] + turns[1..];
    }
  }

  // ---------------------------------------------------------------- runs of activity

  /** The timestamps a window query sees. */
  ghost function Since(turns: seq<int>, cutoff: int): set<int> {
    set t | t in turns && t >= cutoff
  }

  /** A turn that follows another one within the gap. */
  ghost predicate Continues(turns: set<int>, t: int, gap: int) {
    exists s | s in turns :: s < t && t - s <= gap
  }

  /** The start of the last run: nothing precedes it within the gap, and every later turn continues one. */
  ghost predicate IsAnchor(turns: set<int>, anchor: int, gap: int) {
    && anchor in turns && !Continues(turns, anchor, gap)
    && forall t | t in turns && t > anchor :: Continues(turns, t, gap)
  }

  lemma AnchorUnique(turns: set<int>, a: int, b: int, gap: int)
    requires IsAnchor(turns, a, gap) && IsAnchor(turns, b, gap)
    ensures a == b
  {
  }

  /** Of two turns the later one is the anchor exactly if the gap between them is longer than the limit. */
  lemma AnchorOfTwo(first: int, second: int, gap: int)
    requires first < second && gap >= 0
    ensures IsAnchor({first, second}, second, gap) <==> second - first > gap
    ensures IsAnchor({first, second}, first, gap) <==> second - first <= gap
  {
    assert first in {first, second} && second in {first, second};
    assert Continues({first, second}, second, gap) <==> second - first <= gap;
    assert !Continues({first, second}, first, gap);
  }

  /** Turns in ascending order, each within the gap of the one before. */
  ghost predicate IsRun(turns: set<int>, path: seq<int>, gap: int) {
    && path != [] && (forall i | 0 <= i < |path| :: path[i] in turns)
    && forall i | 1 <= i < |path| :: 0 < path[i] - path[i - 1] <= gap
  }

  /** Between the anchor and a later turn there is a turn to step to that is not before the anchor. */
  lemma StepBack(turns: set<int>, anchor: int, t: int, gap: int) returns (s: int)
    requires IsAnchor(turns, anchor, gap) && t in turns && t > anchor
    ensures s in turns && anchor <= s < t && t - s <= gap
  {
    s :| s in turns && s < t && t - s <= gap;
    if s < anchor { s := anchor; }
  }

  /** Every turn from the anchor on belongs to one run without a long idle gap. */
  lemma {:induction false} AnchorStartsRun(turns: set<int>, anchor: int, t: int, gap: int) returns (path: seq<int>)
    requires IsAnchor(turns, anchor, gap) && t in turns && t >= anchor
    ensures IsRun(turns, path, gap) && path[0] == anchor && path[|path| - 1] == t
    decreases t - anchor
  {
    if t == anchor {
      path := [t];
    } else {
      var s := StepBack(turns, anchor, t, gap);
      path := AnchorStartsRun(turns, anchor, s, gap);
      path := path + [t];
    }
  }

  /** The rows from `i` on that are later than the one before them all continue a run. */
  ghost predicate NoAnchorFrom(rows: seq<int>, window: set<int>, gap: int, i: nat) {
    && i <= |rows| && (i < |rows| ==> i > 0)
    && forall k | i <= k < |rows| && rows[k] > rows[i - 1] :: Continues(window, rows[k], gap)
  }

  lemma NoAnchorAt(rows: seq<int>, window: set<int>, gap: int, i: nat)
    requires Ascending(rows) && NoAnchorFrom(rows, window, gap, i + 1)
    requires 0 < i < |rows| && rows[i] - rows[i - 1] <= gap && rows[i - 1] in window
    ensures NoAnchorFrom(rows, window, gap, i)
  {
    forall k | i <= k < |rows| && rows[k] > rows[i - 1]
      ensures Continues(window, rows[k], gap)
    {
      if k == i || rows[k] <= rows[i] { assert rows[k] == rows[i]; }
    }
  }

  /** The anchor query: newest first, the first row without a predecessor or with one further away than the gap. */
  method SessionAnchor(turns: seq<int>, cutoff: int, gap: int) returns (anchor: Option<int>)
    requires gap >= 0
    ensures anchor.None? <==> forall t | t in turns :: t < cutoff
    ensures anchor.Some? ==> IsAnchor(Since(turns, cutoff), anchor.value, gap)
  {
    var rows := SortedSince(turns, cutoff);
    SortedSinceSorts(turns, cutoff);
    ghost var window := Since(turns, cutoff);
    assert forall t :: t in rows <==> t in window;
    var i: nat := |rows|;
    while i > 0
      invariant NoAnchorFrom(rows, window, gap, i)
    {
      i := i - 1;
      if i == 0 || rows[i] - rows[i - 1] > gap {
        LastRun(rows, i, window, gap);
        return Some(rows[i]);
      }
      assert rows[i - 1] in rows;
      NoAnchorAt(rows, window, gap, i);
    }
    assert rows == [];
    forall t | t in turns ensures t < cutoff { assert t !in rows; }
    return None;
  }

  lemma LastRun(rows: seq<int>, i: nat, window: set<int>, gap: int)
    requires gap >= 0 && Ascending(rows) && i < |rows| && forall t :: t in rows <==> t in window
    requires i == 0 || rows[i] - rows[i - 1] > gap
    requires forall k | i < k < |rows| :: rows[k] > rows[i] ==> Continues(window, rows[k], gap)
    ensures IsAnchor(window, rows[i], gap)
  {
    assert rows[i] in rows;
    forall s | s in window && s < rows[i] ensures rows[i] - s > gap {
      var k :| 0 <= k < |rows| && rows[k] == s;
    }
    forall t | t in window && t > rows[i] ensures Continues(window, t, gap) {
      var k :| 0 <= k < |rows| && rows[k] == t;
    }
  }

  // ---------------------------------------------------------------- resets

  /** The end of the block of the given length, counted from the anchor, that is running now. */
  function BlockEnd(anchor: int, now: int, window: int): int
    requires window > 0
  {
    var passed := (now - anchor) / window;
    anchor + (if passed > 0 then passed else 0) * window + window
  }

  lemma BlockEndBounds(anchor: int, now: int, window: int)
    requires window > 0
    ensures BlockEnd(anchor, now, window) > now
    ensures BlockEnd(anchor, now, window) <= now + window <==> anchor <= now
    ensures WholeWindows(BlockEnd(anchor, now, window) - anchor, window)
    ensures BlockEnd(anchor, now, window) >= anchor + window
  {
    var passed := (now - anchor) / window;
    assert now - anchor == passed * window + (now - anchor) % window;
    var blocks := if passed > 0 then passed else 0;
    assert (blocks + 1) * window == blocks * window + window;
    if passed < 0 {
      AtLeastOne(-passed, window);
      assert passed * window == -(-passed * window);
    } else if passed > 0 {
      AtLeastOne(passed, window);
    }
  }

  lemma AtLeastOne(k: int, window: int)
    requires k >= 1 && window > 0
    ensures k * window >= window
  {
    assert (k - 1) * window >= 0;
  }

  lemma MultiplesApart(k: int, k': int, window: int)
    requires window > 0 && k > k'
    ensures k * window - k' * window >= window
  {
    AtLeastOne(k - k', window);
    assert (k - k') * window == k * window - k' * window;
  }

  /** A whole number of windows. */
  ghost predicate WholeWindows(d: int, window: int) {
    exists k: int :: d == k * window
  }

  /** The least value of a calibrated reset, moved on by whole windows, that lies in the future. */
  ghost predicate IsNextReset(calibrated: int, now: int, window: int, r: int) {
    && r > now && r >= calibrated
    && (exists k: nat :: r == calibrated + k * window)
    && (r > calibrated ==> r - window <= now)
  }

  method AdvanceCalibrated(calibrated: int, now: int, window: int) returns (candidate: int)
    requires window > 0
    ensures IsNextReset(calibrated, now, window, candidate)
  {
    candidate := calibrated;
    ghost var k: nat := 0;
    assert candidate == calibrated + k * window;
    while candidate <= now
      invariant candidate == calibrated + k * window && candidate >= calibrated
      invariant candidate > calibrated ==> candidate - window <= now
      decreases now - candidate
    {
      candidate := candidate + window;
      assert calibrated + (k + 1) * window == calibrated + k * window + window;
      k := k + 1;
    }
  }

  /** Only one value is the next reset. */
  lemma NextResetUnique(calibrated: int, now: int, window: int, r: int, r': int)
    requires window > 0
    requires IsNextReset(calibrated, now, window, r) && IsNextReset(calibrated, now, window, r')
    ensures r == r'
  {
    var k: nat :| r == calibrated + k * window;
    var k': nat :| r' == calibrated + k' * window;
    if k > k' { MultiplesApart(k, k', window); }
    if k < k' { MultiplesApart(k', k, window); }
  }

  datatype Estimates = Estimates(reset5h: Option<int>, reset7d: Option<int>)

  /** The uncalibrated 5-hour estimate. */
  ghost predicate IsBlockReset(turns: seq<int>, now: int, reset: Option<int>) {
    && (reset.Some? <==> exists t | t in turns :: t >= now - WINDOW_5H)
    && (reset.Some? ==>
          exists anchor | IsAnchor(Since(turns, now - WINDOW_7D), anchor, WINDOW_5H) ::
            reset.value == BlockEnd(anchor, now, WINDOW_5H))
  }

  /** The uncalibrated 7-day estimate: one window after the oldest recent turn. */
  ghost predicate IsRollingReset(turns: seq<int>, now: int, reset: Option<int>) {
    && (reset.None? <==> forall t | t in turns :: t < now - WINDOW_7D)
    && (reset.Some? ==>
          var window := Since(turns, now - WINDOW_7D);
          reset.value - WINDOW_7D in window && forall t | t in window :: reset.value - WINDOW_7D <= t)
  }

  /** MAX and MIN of the timestamps at or after a cutoff. */
  method NewestSince(turns: seq<int>, cutoff: int) returns (newest: Option<int>)
    ensures newest.None? <==> forall t | t in turns :: t < cutoff
    ensures newest.Some? ==>
              newest.value in Since(turns, cutoff) && forall t | t in Since(turns, cutoff) :: t <= newest.value
  {
    newest := None;
    for i := 0 to |turns|
      invariant newest.None? <==> forall j | 0 <= j < i :: turns[j] < cutoff
      invariant newest.Some? ==> newest.value in Since(turns, cutoff)
      invariant newest.Some? ==> forall j | 0 <= j < i :: turns[j] <= newest.value
    {
      if turns[i] >= cutoff && (newest.None? || turns[i] > newest.value) { newest := Some(turns[i]); }
    }
  }

  method OldestSince(turns: seq<int>, cutoff: int) returns (oldest: Option<int>)
    ensures oldest.None? <==> forall t | t in turns :: t < cutoff
    ensures oldest.Some? ==>
              oldest.value in Since(turns, cutoff) && forall t | t in Since(turns, cutoff) :: oldest.value <= t
  {
    oldest := None;
    for i := 0 to |turns|
      invariant oldest.None? <==> forall j | 0 <= j < i :: turns[j] < cutoff
      invariant oldest.Some? ==> oldest.value in Since(turns, cutoff)
      invariant oldest.Some? ==> forall j | 0 <= j < i && turns[j] >= cutoff :: oldest.value <= turns[j]
    {
      if turns[i] >= cutoff && (oldest.None? || turns[i] < oldest.value) { oldest := Some(turns[i]); }
    }
  }

  method GetQuotaResetEstimates(turns: seq<int>, now: int, calibrated5h: Option<int>, calibrated7d: Option<int>)
    returns (r: Estimates)
    ensures calibrated5h.Some? ==>
              r.reset5h.Some? && IsNextReset(calibrated5h.value, now, WINDOW_5H, r.reset5h.value)
    ensures calibrated5h.None? ==> IsBlockReset(turns, now, r.reset5h)
    ensures calibrated7d.Some? ==>
              r.reset7d.Some? && IsNextReset(calibrated7d.value, now, WINDOW_7D, r.reset7d.value)
    ensures calibrated7d.None? ==> IsRollingReset(turns, now, r.reset7d)
  {
    var cutoff7d := now - WINDOW_7D;
    var reset5h, reset7d := None, None;
    assert forall t | t in turns && t >= now - WINDOW_5H :: t in Since(turns, cutoff7d);
    if calibrated5h.Some? {
      var candidate := AdvanceCalibrated(calibrated5h.value, now, WINDOW_5H);
      reset5h := Some(candidate);
    } else {
      var mostRecent := NewestSince(turns, cutoff7d);
      if mostRecent.Some? && now - mostRecent.value <= WINDOW_5H {
        var anchor := SessionAnchor(turns, cutoff7d, WINDOW_5H);
        if anchor.Some? {
          var elapsed := now - anchor.value;
          var blocksPassed := if elapsed / WINDOW_5H > 0 then elapsed / WINDOW_5H else 0;
          var currentBlockStart := anchor.value + blocksPassed * WINDOW_5H;
          var candidate := currentBlockStart + WINDOW_5H;
          BlockEndBounds(anchor.value, now, WINDOW_5H);
          if candidate > now {
            reset5h := Some(candidate);
          }
        }
      }
    }
    if calibrated7d.Some? {
      var candidate := AdvanceCalibrated(calibrated7d.value, now, WINDOW_7D);
      reset7d := Some(candidate);
    } else {
      var oldest := OldestSince(turns, cutoff7d);
      reset7d := if oldest.Some? then Some(oldest.value + WINDOW_7D) else None;
    }
    return Estimates(reset5h, reset7d);
  }

  // ---------------------------------------------------------------- what the estimate promises

  /** A calibrated reset is the first time after now that is a whole number of windows after the calibrated one. */
  lemma NextResetIsFirst(calibrated: int, now: int, window: int, r: int, k: nat)
    requires window > 0 && IsNextReset(calibrated, now, window, r)
    ensures now < r && WholeWindows(r - calibrated, window)
    ensures now < calibrated + k * window ==> r <= calibrated + k * window
  {
    var j: nat :| r == calibrated + j * window;
    assert r - calibrated == j * window;
    if j > k { MultiplesApart(j, k, window); }
  }

  /** There is a 5-hour estimate exactly if a turn is at most 18 000 000 ms old. */
  lemma BlockResetIff(turns: seq<int>, now: int, reset: Option<int>)
    requires IsBlockReset(turns, now, reset)
    ensures reset.Some? <==> exists t | t in turns :: now - t <= 18_000_000
  {
    if t :| t in turns && now - t <= 18_000_000 { assert t >= now - WINDOW_5H; }
  }

  /** The 7-day estimate is 604 800 000 ms after the oldest turn that is at most that old; null without one. */
  lemma RollingResetIs(turns: seq<int>, now: int, reset: Option<int>)
    requires IsRollingReset(turns, now, reset)
    ensures match reset
      case None => forall t | t in turns :: now - t > 604_800_000
      case Some(r) =>
        && r >= now && r - 604_800_000 in turns
        && forall t | t in turns && t < r - 604_800_000 :: now - t > 604_800_000
  {
    if reset.Some? {
      forall t | t in turns && t < reset.value - 604_800_000 ensures now - t > 604_800_000 {
        assert t !in Since(turns, now - WINDOW_7D);
      }
    }
  }

  /** With no turn in the future, the reset is at most one window away, and the block started at or before now. */
  lemma ResetWithinOneWindow(turns: seq<int>, now: int, reset: Option<int>)
    requires IsBlockReset(turns, now, reset) && reset.Some? && forall t | t in turns :: t <= now
    ensures now < reset.value <= now + WINDOW_5H
    ensures var window := Since(turns, now - WINDOW_7D);
            exists anchor | IsAnchor(window, anchor, WINDOW_5H) :: WholeWindows(reset.value - anchor, WINDOW_5H)
  {
    var anchor :| IsAnchor(Since(turns, now - WINDOW_7D), anchor, WINDOW_5H)
                  && reset.value == BlockEnd(anchor, now, WINDOW_5H);
    BlockEndBounds(anchor, now, WINDOW_5H);
  }

  /** Every later turn follows another one within the gap. */
  ghost predicate NoLongGap(turns: seq<int>, later: seq<int>) {
    forall t | t in later && t !in turns :: exists s | s in later :: s < t && t - s <= WINDOW_5H
  }

  /** What two successive estimates see: the turns so far, and new ones that leave no long gap. */
  ghost predicate GoesOn(turns: seq<int>, now: int, later: seq<int>, now': int) {
    && now <= now' && NoLongGap(turns, later)
    && (forall t | t in turns :: t in later && t <= now)
    && forall t | t in later && t !in turns :: now < t <= now'
  }

  /** While activity goes on without a long gap, the anchor stays where it was for as long as it is in the window. */
  lemma AnchorStays(turns: seq<int>, now: int, later: seq<int>, now': int, anchor: int)
    requires IsAnchor(Since(turns, now - WINDOW_7D), anchor, WINDOW_5H) && anchor >= now' - WINDOW_7D
    requires GoesOn(turns, now, later, now')
    ensures IsAnchor(Since(later, now' - WINDOW_7D), anchor, WINDOW_5H)
  {
    var before, after := Since(turns, now - WINDOW_7D), Since(later, now' - WINDOW_7D);
    forall t | t in after && t > anchor ensures Continues(after, t, WINDOW_5H) {
      if t in turns {
        var s := StepBack(before, anchor, t, WINDOW_5H);
        assert s in after;
      } else {
        var s :| s in later && s < t && t - s <= WINDOW_5H;
        var step := if s < anchor then anchor else s;
        assert step in after && step < t && t - step <= WINDOW_5H;
      }
    }
    assert !Continues(after, anchor, WINDOW_5H) by {
      forall s | s in after && s < anchor ensures anchor - s > WINDOW_5H {
        assert s in before;
      }
    }
  }

  /** Successive resets of uninterrupted activity never decrease and differ by whole windows. */
  lemma SuccessiveResets(turns: seq<int>, now: int, reset: int, later: seq<int>, now': int, reset': int, anchor: int)
    requires IsBlockReset(turns, now, Some(reset)) && IsBlockReset(later, now', Some(reset'))
    requires GoesOn(turns, now, later, now')
    requires IsAnchor(Since(turns, now - WINDOW_7D), anchor, WINDOW_5H) && anchor >= now' - WINDOW_7D
    ensures reset <= reset' && WholeWindows(reset' - reset, WINDOW_5H)
  {
    AnchorStays(turns, now, later, now', anchor);
    SameAnchorResets(turns, now, reset, anchor);
    SameAnchorResets(later, now', reset', anchor);
    BlockEndGrows(anchor, now, now', WINDOW_5H);
  }

  lemma SameAnchorResets(turns: seq<int>, now: int, reset: int, anchor: int)
    requires IsBlockReset(turns, now, Some(reset)) && IsAnchor(Since(turns, now - WINDOW_7D), anchor, WINDOW_5H)
    ensures reset == BlockEnd(anchor, now, WINDOW_5H)
  {
    var a :| IsAnchor(Since(turns, now - WINDOW_7D), a, WINDOW_5H) && Some(reset).value == BlockEnd(a, now, WINDOW_5H);
    AnchorUnique(Since(turns, now - WINDOW_7D), a, anchor, WINDOW_5H);
  }

  lemma BlockEndGrows(anchor: int, now: int, now': int, window: int)
    requires window > 0 && now <= now'
    ensures BlockEnd(anchor, now, window) <= BlockEnd(anchor, now', window)
    ensures WholeWindows(BlockEnd(anchor, now', window) - BlockEnd(anchor, now, window), window)
  {
    var q, q' := (now - anchor) / window, (now' - anchor) / window;
    QuotientGrows(now - anchor, now' - anchor, window);
    var b, b' := if q > 0 then q else 0, if q' > 0 then q' else 0;
    assert b' * window - b * window == (b' - b) * window;
    if b' > b { AtLeastOne(b' - b, window); }
  }

  lemma QuotientGrows(x: int, y: int, window: int)
    requires window > 0 && x <= y
    ensures x / window <= y / window
  {
    var q, q' := x / window, y / window;
    assert x == q * window + x % window && y == q' * window + y % window;
    if q > q' { MultiplesApart(q, q', window); }
  }

  // ---------------------------------------------------------------- activity that outlasts the window

  ghost predicate IsOldest(turns: set<int>, oldest: int) {
    oldest in turns && forall t | t in turns :: oldest <= t
  }

  /** Once the anchor has left the window, the oldest turn in the window takes its place. */
  lemma AnchorSlides(turns: seq<int>, now: int, later: seq<int>, now': int, anchor: int, oldest: int)
    requires IsAnchor(Since(turns, now - WINDOW_7D), anchor, WINDOW_5H) && anchor < now' - WINDOW_7D
    requires GoesOn(turns, now, later, now') && IsOldest(Since(later, now' - WINDOW_7D), oldest)
    ensures IsAnchor(Since(later, now' - WINDOW_7D), oldest, WINDOW_5H)
  {
    var before, after := Since(turns, now - WINDOW_7D), Since(later, now' - WINDOW_7D);
    forall t | t in after && t > oldest ensures Continues(after, t, WINDOW_5H) {
      if t in turns {
        var s := StepBack(before, anchor, t, WINDOW_5H);
        assert s in later && (s in after || s < oldest);
      } else {
        var s :| s in later && s < t && t - s <= WINDOW_5H;
        assert s in after || s < oldest;
      }
    }
  }

  /** The end of the running block is the first point a whole number of windows from the anchor that is not past. */
  lemma BlockEndIsNext(anchor: int, now: int, window: int, k: int)
    requires window > 0 && anchor <= now && now < anchor + k * window
    ensures BlockEnd(anchor, now, window) <= anchor + k * window
  {
    BlockEndBounds(anchor, now, window);
    var b: int :| BlockEnd(anchor, now, window) - anchor == b * window;
    if b > k { MultiplesApart(b, k, window); }
  }

  lemma WindowsCompose(a: int, b: int, window: int)
    requires WholeWindows(a, window)
    ensures WholeWindows(a + b, window) <==> WholeWindows(b, window)
  {
    var k: int :| a == k * window;
    if WholeWindows(b, window) {
      var l: int :| b == l * window;
      assert a + b == (k + l) * window;
    }
    if WholeWindows(a + b, window) {
      var l: int :| a + b == l * window;
      assert b == (l - k) * window;
    }
  }

  lemma WindowsNegate(a: int, window: int)
    requires WholeWindows(a, window)
    ensures WholeWindows(-a, window)
  {
    var k: int :| a == k * window;
    assert -a == -k * window;
  }

  /** Two block ends are whole windows apart exactly if their anchors are. */
  lemma BlockEndsAlignIff(anchor: int, now: int, anchor': int, now': int, window: int)
    requires window > 0
    ensures WholeWindows(BlockEnd(anchor', now', window) - BlockEnd(anchor, now, window), window)
       <==> WholeWindows(anchor' - anchor, window)
  {
    var r, r' := BlockEnd(anchor, now, window), BlockEnd(anchor', now', window);
    BlockEndBounds(anchor, now, window);
    BlockEndBounds(anchor', now', window);
    WindowsNegate(r - anchor, window);
    WindowsCompose(r' - anchor', anchor' - anchor, window);
    WindowsCompose(-(r - anchor), r' - anchor, window);
    assert (r' - anchor') + (anchor' - anchor) == r' - anchor && -(r - anchor) + (r' - anchor) == r' - r;
  }

  /** A point between two times that is a whole number of windows after the oldest turn. */
  ghost predicate BlockEndsBetween(oldest: int, from: int, to: int, window: int) {
    exists k: int :: from < oldest + k * window < to
  }

  /** Activity without a long gap that has outlasted the window: the next reset is counted from the oldest turn in the
      window. It is whole windows from the previous one exactly if that turn is from the old anchor, and it goes back
      exactly if a block counted from that turn ends before the previous reset. */
  lemma ResetsAfterSliding(turns: seq<int>, now: int, reset: int, later: seq<int>, now': int, reset': int,
                           anchor: int, oldest: int)
    requires IsBlockReset(turns, now, Some(reset)) && IsBlockReset(later, now', Some(reset'))
    requires GoesOn(turns, now, later, now')
    requires IsAnchor(Since(turns, now - WINDOW_7D), anchor, WINDOW_5H) && anchor < now' - WINDOW_7D
    requires IsOldest(Since(later, now' - WINDOW_7D), oldest)
    ensures reset' == BlockEnd(oldest, now', WINDOW_5H)
    ensures WholeWindows(reset' - reset, WINDOW_5H) <==> WholeWindows(oldest - anchor, WINDOW_5H)
    ensures reset' < reset <==> BlockEndsBetween(oldest, now', reset, WINDOW_5H)
  {
    AnchorSlides(turns, now, later, now', anchor, oldest);
    SameAnchorResets(turns, now, reset, anchor);
    SameAnchorResets(later, now', reset', oldest);
    BlockEndsAlignIff(anchor, now, oldest, now', WINDOW_5H);
    BlockEndBounds(oldest, now', WINDOW_5H);
    if reset' < reset {
      var k: int :| reset' - oldest == k * WINDOW_5H;
      assert now' < oldest + k * WINDOW_5H < reset;
    }
    if BlockEndsBetween(oldest, now', reset, WINDOW_5H) {
      var k: int :| now' < oldest + k * WINDOW_5H < reset;
      BlockEndIsNext(oldest, now', WINDOW_5H, k);
    }
  }

  lemma StepsOfFourHours(turns: seq<int>, cutoff: int, first: int)
    requires turns == seq(43, i => i * 14_400_000) && 0 <= first < 43
    requires (first - 1) * 14_400_000 < cutoff <= first * 14_400_000
    ensures IsAnchor(Since(turns, cutoff), first * 14_400_000, WINDOW_5H)
  {
    var window := Since(turns, cutoff);
    assert turns[first] in window;
    forall t | t in window
      ensures t >= first * 14_400_000 && (t > first * 14_400_000 ==> Continues(window, t, WINDOW_5H))
    {
      var i :| 0 <= i < 43 && turns[i] == t;
      if i > first { assert turns[i - 1] in window; }
    }
  }

  /** One turn every four hours for a week: a millisecond after the first turn has left the window, the reset has gone
      back by an hour. */
  lemma ResetGoesBack(turns: seq<int>)
    requires turns == seq(43, i => i * 14_400_000)
    ensures GoesOn(turns, 604_800_000, turns, 604_800_001)
    ensures IsBlockReset(turns, 604_800_000, Some(612_000_000))
    ensures IsBlockReset(turns, 604_800_001, Some(608_400_000))
  {
    assert turns[42] in turns && turns[42] == 604_800_000;
    StepsOfFourHours(turns, 0, 0);
    StepsOfFourHours(turns, 1, 1);
    assert BlockEnd(0, 604_800_000, WINDOW_5H) == Some(612_000_000).value;
    assert BlockEnd(14_400_000, 604_800_001, WINDOW_5H) == Some(608_400_000).value;
  }

  /** After a long idle gap the first new turn opens a fresh block that ends one window after it. */
  lemma FreshBlock(turns: seq<int>, now: int, first: int)
    requires first in turns && now - WINDOW_5H < first <= now
    requires forall t | t in turns && t < first :: first - t > WINDOW_5H
    requires forall t | t in turns && t > first :: first < t <= now
    ensures IsBlockReset(turns, now, Some(first + WINDOW_5H))
  {
    var window := Since(turns, now - WINDOW_7D);
    forall t | t in window && t > first ensures Continues(window, t, WINDOW_5H) {
      assert first in window && t - first <= WINDOW_5H;
    }
    assert (now - first) / WINDOW_5H == 0;
    assert IsAnchor(Since(turns, now - WINDOW_7D), first, WINDOW_5H)
        && Some(first + WINDOW_5H).value == BlockEnd(first, now, WINDOW_5H);
  }
}
