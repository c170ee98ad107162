/** The spend heatmap: a calendar grid of whole weeks and the colour level of each day. Days are 24 hours long. */
module Heatmap {
  import opened Options

  /** The spend of one day. A day is the number of days since 1 January 1970. */
  datatype DailyPoint = DailyPoint(day: int, spend: real, sessionCount: nat)

  datatype Cell = Blank | Filled(day: int, spend: real, sessionCount: nat, level: int)

  // ---------------------------------------------------------------- levels

  function Max(values: seq<real>): real
    decreases |values|
  {
    if values == [] then 0.0
    else
      var front := Max(values[..|values| - 1]);
      if values[|values| - 1] > front then values[|values| - 1] else front
  }

  function Ceil(x: real): int {
    -((-x).Floor)
  }

  function Level(v: real, max: real): int {
    if max == 0.0 || v == 0.0 then 0
    else
      var c := Ceil(4.0 * v / max);
      if c < 4 then c else 4
  }

  method ComputeLevels(values: seq<real>) returns (levels: seq<int>)
    ensures |levels| == |values|
    ensures forall i | 0 <= i < |values| :: levels[i] == Level(values[i], Max(values))
  {
    if |values| == 0 { return []; }
    var max := 0.0;
    for i := 0 to |values|
      invariant max == Max(values[..i])
    {
      assert values[..i + 1][..i] == values[..i];
      if values[i] > max { max := values[i]; }
    }
    assert values[..|values|] == values;
    if max == 0.0 { return seq(|values|, i => 0); }
    levels := seq(|values|, i requires 0 <= i < |values| => Level(values[i], max));
  }

  lemma {:induction false} MaxBounds(values: seq<real>)
    ensures Max(values) >= 0.0
    ensures forall i | 0 <= i < |values| :: values[i] <= Max(values)
    ensures Max(values) > 0.0 ==> exists i | 0 <= i < |values| :: values[i] == Max(values)
    decreases |values|
  {
    if values != [] {
      var front := values[..|values| - 1];
      MaxBounds(front);
      assert forall i | 0 <= i < |front| :: front[i] == values[i];
    }
  }

  lemma QuarterBounds(v: real, max: real)
    requires 0.0 < v <= max
    ensures 0.0 < 4.0 * v / max <= 4.0
    ensures v == max ==> 4.0 * v / max == 4.0
  {
  }

  lemma QuarterGrows(v: real, v': real, max: real)
    requires max > 0.0 && v <= v'
    ensures 4.0 * v / max <= 4.0 * v' / max
  {
    assert 4.0 * v' / max - 4.0 * v / max == 4.0 * (v' - v) / max;
  }

  /** Levels 1 to 4 are the quarters of the largest spend, each with its upper bound. */
  predicate InQuarter(v: real, max: real, level: int) {
    v > 0.0 ==> (level - 1) as real * max < 4.0 * v <= level as real * max
  }

  lemma QuotientBounds(a: real, b: real, c: int)
    requires b > 0.0 && (c - 1) as real < a / b <= c as real
    ensures (c - 1) as real * b < a <= c as real * b
  {
    assert a / b * b == a;
  }

  lemma LevelIsQuarter(v: real, max: real)
    requires 0.0 < v <= max
    ensures InQuarter(v, max, Level(v, max))
  {
    QuarterBounds(v, max);
    QuotientBounds(4.0 * v, max, Level(v, max));
  }

  /** Level 0 is for no spend and for nothing else, the largest spend has level 4, and more never looks like less. */
  lemma LevelLaws(values: seq<real>, i: nat, j: nat)
    requires i < |values| && j < |values| && forall k | 0 <= k < |values| :: values[k] >= 0.0
    ensures 0 <= Level(values[i], Max(values)) <= 4
    ensures Level(values[i], Max(values)) == 0 <==> values[i] == 0.0
    ensures values[i] == Max(values) && values[i] > 0.0 ==> Level(values[i], Max(values)) == 4
    ensures values[i] <= values[j] ==> Level(values[i], Max(values)) <= Level(values[j], Max(values))
    ensures InQuarter(values[i], Max(values), Level(values[i], Max(values)))
  {
    var max := Max(values);
    MaxBounds(values);
    if values[i] > 0.0 { LevelIsQuarter(values[i], max); }
    if values[i] > 0.0 { QuarterBounds(values[i], max); }
    if values[j] > 0.0 { QuarterBounds(values[j], max); }
    if max > 0.0 && values[i] <= values[j] { QuarterGrows(values[i], values[j], max); }
  }

  // ---------------------------------------------------------------- the calendar

  /** 0 for Sunday; day 0 was a Thursday. */
  function Weekday(day: int): nat {
    (day + 4) % 7
  }

  /** The last point given for a day counts. */
  function Find(points: seq<DailyPoint>, day: int): Option<DailyPoint>
    decreases |points|
  {
    if points == [] then None
    else if points[|points| - 1].day == day then Some(points[|points| - 1])
    else Find(points[..|points| - 1], day)
  }

  function SpendOn(points: seq<DailyPoint>, day: int): real {
    if Find(points, day).Some? then Find(points, day).value.spend else 0.0
  }

  function SessionsOn(points: seq<DailyPoint>, day: int): nat {
    if Find(points, day).Some? then Find(points, day).value.sessionCount else 0
  }

  /** The first of as many days as there are points, ending at the given one. */
  function Start(points: seq<DailyPoint>, end: int): int {
    end - (|points| - 1)
  }

  function FirstSunday(points: seq<DailyPoint>, end: int): int {
    Start(points, end) - Weekday(Start(points, end))
  }

  function LastSaturday(end: int): int {
    end + (6 - Weekday(end))
  }

  function WeekCount(points: seq<DailyPoint>, end: int): int {
    (LastSaturday(end) - FirstSunday(points, end) + 1) / 7
  }

  /** The spends of the days of the window, oldest first. */
  function WindowSpends(points: seq<DailyPoint>, end: int): seq<real> {
    seq(|points|, i => SpendOn(points, Start(points, end) + i))
  }

  function PlainCell(points: seq<DailyPoint>, end: int, day: int): Cell {
    if day < Start(points, end) || day > end then Blank
    else Filled(day, SpendOn(points, day), SessionsOn(points, day), 0)
  }

  function LevelledCell(points: seq<DailyPoint>, end: int, day: int): Cell {
    match PlainCell(points, end, day)
    case Blank => Blank
    case Filled(d, spend, count, _) => Filled(d, spend, count, Level(spend, Max(WindowSpends(points, end))))
  }

  function DayAt(points: seq<DailyPoint>, end: int, week: int, row: int): int {
    FirstSunday(points, end) + (week * 7 + row)
  }

  predicate WholeWeeks(grid: seq<seq<Cell>>, weeks: int) {
    |grid| == weeks && forall w | 0 <= w < |grid| :: |grid[w]| == 7
  }

  /** The calendar grid of the window: whole weeks, one cell per day, blank outside the window. */
  ghost predicate IsCalendar(points: seq<DailyPoint>, end: int, grid: seq<seq<Cell>>) {
    && WholeWeeks(grid, WeekCount(points, end))
    && forall w, row | 0 <= w < |grid| && 0 <= row < 7 ::
         grid[w][row] == LevelledCell(points, end, DayAt(points, end, w, row))
  }

  // ---------------------------------------------------------------- building the grid

  /** How many days of the window lie before a day. */
  function Passed(points: seq<DailyPoint>, end: int, day: int): nat {
    if day <= Start(points, end) then 0
    else if day > end then |points|
    else day - Start(points, end)
  }

  /** The first m days of the window with their spends and their places in the grid. */
  ghost predicate Collected(points: seq<DailyPoint>, end: int, spends: seq<real>, coords: seq<(int, int)>, m: nat) {
    && |spends| == |coords| == m <= |points|
    && (forall i | 0 <= i < m :: spends[i] == SpendOn(points, Start(points, end) + i))
    && forall i | 0 <= i < m ::
         0 <= coords[i].1 < 7 && DayAt(points, end, coords[i].0, coords[i].1) == Start(points, end) + i
  }

  /** The map holds, for each day, the last point given for it. */
  ghost predicate IsLookup(points: seq<DailyPoint>, lookup: map<int, DailyPoint>) {
    forall day :: Find(points, day) == (if day in lookup then Some(lookup[day]) else None)
  }

  method BuildLookup(points: seq<DailyPoint>) returns (lookup: map<int, DailyPoint>)
    ensures IsLookup(points, lookup)
  {
    lookup := map[];
    for i := 0 to |points|
      invariant IsLookup(points[..i], lookup)
    {
      assert points[..i + 1][..i] == points[..i];
      lookup := lookup[points[i].day := points[i]];
    }
    assert points[..|points|] == points;
  }

  method BuildWeek(points: seq<DailyPoint>, lookup: map<int, DailyPoint>, end: int, w: nat,
                   spends: seq<real>, coords: seq<(int, int)>)
    returns (week: seq<Cell>, spends': seq<real>, coords': seq<(int, int)>)
    requires |points| > 0 && IsLookup(points, lookup)
    requires Collected(points, end, spends, coords, Passed(points, end, DayAt(points, end, w, 0)))
    ensures |week| == 7
    ensures forall row | 0 <= row < 7 :: week[row] == PlainCell(points, end, DayAt(points, end, w, row))
    ensures Collected(points, end, spends', coords', Passed(points, end, DayAt(points, end, w + 1, 0)))
    ensures coords <= coords' && forall i | |coords| <= i < |coords'| :: coords'[i].0 == w
  {
    week, spends', coords' := [], spends, coords;
    for row := 0 to 7
      invariant |week| == row
      invariant forall r | 0 <= r < row :: week[r] == PlainCell(points, end, DayAt(points, end, w, r))
      invariant Collected(points, end, spends', coords', Passed(points, end, DayAt(points, end, w, row)))
      invariant coords <= coords' && forall i | |coords| <= i < |coords'| :: coords'[i].0 == w
    {
      var day := FirstSunday(points, end) + (w * 7 + row);
      if day < Start(points, end) || day > end {
        week := week + [Blank];
      } else {
        var spend := if day in lookup then lookup[day].spend else 0.0;
        var sessionCount := if day in lookup then lookup[day].sessionCount else 0;
        week := week + [Filled(day, spend, sessionCount, 0)];
        spends' := spends' + [spend];
        coords' := coords' + [(w, row)];
      }
    }
  }

  lemma CollectedAll(points: seq<DailyPoint>, end: int, spends: seq<real>, coords: seq<(int, int)>)
    requires points != []
    requires Collected(points, end, spends, coords, Passed(points, end, DayAt(points, end, WeekCount(points, end), 0)))
    ensures |spends| == |coords| == |points| && spends == WindowSpends(points, end)
  {
    assert Passed(points, end, DayAt(points, end, WeekCount(points, end), 0)) == |points|;
  }

  method ArrangeWeeks(points: seq<DailyPoint>, end: int) returns (result: seq<seq<Cell>>)
    ensures points == [] ==> result == []
    ensures points != [] ==> IsCalendar(points, end, result)
  {
    if |points| == 0 { return []; }
    var lookup := BuildLookup(points);
    var weekCount := (LastSaturday(end) - FirstSunday(points, end) + 1) / 7;
    var grid, spends, coords := [], [], [];
    for w := 0 to weekCount
      invariant WholeWeeks(grid, w)
      invariant forall k, row | 0 <= k < w && 0 <= row < 7 ::
                  grid[k][row] == PlainCell(points, end, DayAt(points, end, k, row))
      invariant Collected(points, end, spends, coords, Passed(points, end, DayAt(points, end, w, 0)))
      invariant forall i | 0 <= i < |coords| :: 0 <= coords[i].0 < w
    {
      var week;
      week, spends, coords := BuildWeek(points, lookup, end, w, spends, coords);
      grid := grid + [week];
    }
    CollectedAll(points, end, spends, coords);
    var levels := ComputeLevels(spends);
    result := AttachLevels(points, end, grid, coords, levels);
  }

  /** A plain cell, or a levelled one if its day is before the given one. */
  function PartlyLevelled(points: seq<DailyPoint>, end: int, day: int, before: int): Cell {
    if day < before then LevelledCell(points, end, day) else PlainCell(points, end, day)
  }

  method AttachLevels(points: seq<DailyPoint>, end: int, grid: seq<seq<Cell>>, coords: seq<(int, int)>,
                      levels: seq<int>)
    returns (result: seq<seq<Cell>>)
    requires points != [] && WholeWeeks(grid, WeekCount(points, end)) && |levels| == |coords| == |points|
    requires forall w, row | 0 <= w < |grid| && 0 <= row < 7 ::
               grid[w][row] == PlainCell(points, end, DayAt(points, end, w, row))
    requires forall i | 0 <= i < |coords| :: 0 <= coords[i].0 < |grid| && 0 <= coords[i].1 < 7
    requires forall i | 0 <= i < |coords| ::
               DayAt(points, end, coords[i].0, coords[i].1) == Start(points, end) + i
               && levels[i] == Level(SpendOn(points, Start(points, end) + i), Max(WindowSpends(points, end)))
    ensures IsCalendar(points, end, result)
  {
    result := grid;
    for i := 0 to |coords|
      invariant WholeWeeks(result, |grid|)
      invariant forall w, row | 0 <= w < |result| && 0 <= row < 7 ::
                  result[w][row] == PartlyLevelled(points, end, DayAt(points, end, w, row), Start(points, end) + i)
    {
      var (week, row) := coords[i];
      var cell := result[week][row];
      if cell != Blank {
        var levelled := result[week][row := cell.(level := levels[i])];
        result := result[week := levelled];
      }
    }
  }

  // ---------------------------------------------------------------- what the grid shows

  lemma DayAtRow(points: seq<DailyPoint>, end: int, w: nat, row: nat)
    requires row < 7
    ensures Weekday(DayAt(points, end, w, row)) == row
    ensures (DayAt(points, end, w, row) - FirstSunday(points, end)) / 7 == w
  {
  }

  /** A cell that shows a day is the cell of its week and its weekday. */
  lemma CellOfDay(points: seq<DailyPoint>, end: int, grid: seq<seq<Cell>>, w: nat, row: nat)
    requires points != [] && IsCalendar(points, end, grid) && w < |grid| && row < 7 && grid[w][row].Filled?
    ensures row == Weekday(grid[w][row].day)
    ensures w == (grid[w][row].day - FirstSunday(points, end)) / 7
  {
    DayAtRow(points, end, w, row);
    assert grid[w][row] == LevelledCell(points, end, DayAt(points, end, w, row));
  }

  lemma DayOfWeek(points: seq<DailyPoint>, end: int, day: int)
    requires points != [] && Start(points, end) <= day <= end
    ensures var w := (day - FirstSunday(points, end)) / 7;
      0 <= w < WeekCount(points, end) && DayAt(points, end, w, Weekday(day)) == day
  {
  }

  lemma WeekOf(points: seq<DailyPoint>, end: int, grid: seq<seq<Cell>>, day: int) returns (w: nat)
    requires points != [] && IsCalendar(points, end, grid) && Start(points, end) <= day <= end
    ensures w == (day - FirstSunday(points, end)) / 7
    ensures w < |grid| && grid[w][Weekday(day)].Filled? && grid[w][Weekday(day)].day == day
  {
    DayOfWeek(points, end, day);
    w := (day - FirstSunday(points, end)) / 7;
    assert grid[w][Weekday(day)] == LevelledCell(points, end, DayAt(points, end, w, Weekday(day)));
  }

  /** A day of the window stands in the row of its weekday, in one cell and no other. Day 3 is a Sunday, with row 0. */
  lemma EveryDayOnce(points: seq<DailyPoint>, end: int, grid: seq<seq<Cell>>, day: int) returns (w: nat)
    requires points != [] && IsCalendar(points, end, grid) && end - |points| < day <= end
    ensures w < |grid| && grid[w][(day + 4) % 7].Filled? && grid[w][(day + 4) % 7].day == day
    ensures forall w', row | 0 <= w' < |grid| && 0 <= row < 7 && grid[w'][row].Filled? && grid[w'][row].day == day ::
              w' == w && row == (day + 4) % 7
  {
    w := WeekOf(points, end, grid, day);
    forall w', row | 0 <= w' < |grid| && 0 <= row < 7 && grid[w'][row].Filled? && grid[w'][row].day == day
      ensures w' == w && row == Weekday(day)
    {
      CellOfDay(points, end, grid, w', row);
    }
  }

  /** Blank cells stand only before the first day in the first week and after the last day in the last week. */
  lemma BlanksAtTheEnds(points: seq<DailyPoint>, end: int, grid: seq<seq<Cell>>, w: nat, row: nat)
    requires points != [] && IsCalendar(points, end, grid) && w < |grid| && row < 7
    ensures grid[w][row].Blank? <==>
              (w == 0 && row < (end - |points| + 5) % 7) || (w == |grid| - 1 && row > (end + 4) % 7)
    ensures grid[w][row].Filled? ==> end - |points| < grid[w][row].day <= end
  {
    assert grid[w][row] == LevelledCell(points, end, DayAt(points, end, w, row));
  }

  /** Reading the weeks in order and each from Sunday to Saturday gives the days in order. */
  lemma DaysInOrder(points: seq<DailyPoint>, end: int, grid: seq<seq<Cell>>, w: nat, row: nat, w': nat, row': nat)
    requires points != [] && IsCalendar(points, end, grid)
    requires w < |grid| && row < 7 && w' < |grid| && row' < 7
    requires grid[w][row].Filled? && grid[w'][row'].Filled?
    ensures grid[w][row].day < grid[w'][row'].day <==> w < w' || (w == w' && row < row')
    ensures grid[w][row].day - grid[w'][row'].day == (w - w') * 7 + (row - row')
  {
    assert grid[w][row] == LevelledCell(points, end, DayAt(points, end, w, row));
    assert grid[w'][row'] == LevelledCell(points, end, DayAt(points, end, w', row'));
  }

  /** The levels of the grid: 0 for no spend, 4 for the largest, never decreasing with the spend. */
  lemma GridLevels(points: seq<DailyPoint>, end: int, grid: seq<seq<Cell>>, w: nat, row: nat, w': nat, row': nat)
    requires points != [] && IsCalendar(points, end, grid) && forall p | p in points :: p.spend >= 0.0
    requires w < |grid| && row < 7 && w' < |grid| && row' < 7
    requires grid[w][row].Filled? && grid[w'][row'].Filled?
    ensures 0 <= grid[w][row].level <= 4
    ensures grid[w][row].level == 0 <==> grid[w][row].spend == 0.0
    ensures grid[w][row].spend <= grid[w'][row'].spend ==> grid[w][row].level <= grid[w'][row'].level
    ensures grid[w][row].spend > 0.0 && grid[w][row].spend == Max(WindowSpends(points, end)) ==> grid[w][row].level == 4
  {
    var spends := WindowSpends(points, end);
    forall i | 0 <= i < |spends| ensures spends[i] >= 0.0 {
      FindInPoints(points, Start(points, end) + i);
      assert spends[i] == SpendOn(points, Start(points, end) + i);
    }
    assert grid[w][row] == LevelledCell(points, end, DayAt(points, end, w, row));
    assert grid[w'][row'] == LevelledCell(points, end, DayAt(points, end, w', row'));
    var i, j := grid[w][row].day - Start(points, end), grid[w'][row'].day - Start(points, end);
    assert spends[i] == grid[w][row].spend && spends[j] == grid[w'][row'].spend;
    LevelLaws(spends, i, j);
  }

  /** The i-th point is the last one given for its day. */
  predicate LastFor(points: seq<DailyPoint>, i: nat, day: int) {
    i < |points| && points[i].day == day && forall j | i < j < |points| :: points[j].day != day
  }

  lemma {:induction false} FindIsLast(points: seq<DailyPoint>, day: int) returns (i: nat)
    ensures match Find(points, day)
      case None => forall j | 0 <= j < |points| :: points[j].day != day
      case Some(p) => LastFor(points, i, day) && points[i] == p
    decreases |points|
  {
    i := 0;
    if points != [] {
      var n := |points| - 1;
      if points[n].day == day { i := n; } else { i := FindIsLast(points[..n], day); }
    }
  }

  /** A cell shows the spend and the sessions of the last point given for its day, or none without a point. */
  lemma CellShowsLastPoint(points: seq<DailyPoint>, end: int, grid: seq<seq<Cell>>, w: nat, row: nat)
    returns (i: nat)
    requires points != [] && IsCalendar(points, end, grid) && w < |grid| && row < 7 && grid[w][row].Filled?
    ensures var cell := grid[w][row];
      if exists j | 0 <= j < |points| :: points[j].day == cell.day
      then LastFor(points, i, cell.day) && cell.spend == points[i].spend && cell.sessionCount == points[i].sessionCount
      else cell.spend == 0.0 && cell.sessionCount == 0
  {
    assert grid[w][row] == LevelledCell(points, end, DayAt(points, end, w, row));
    i := FindIsLast(points, grid[w][row].day);
  }

  /** No cell of the grid has a larger spend. */
  ghost predicate IsTop(grid: seq<seq<Cell>>, w: nat, row: nat)
    requires w < |grid| && row < |grid[w]| && grid[w][row].Filled?
  {
    forall v, r | 0 <= v < |grid| && 0 <= r < |grid[v]| && grid[v][r].Filled? ::
      grid[v][r].spend <= grid[w][row].spend
  }

  lemma TopIsMax(points: seq<DailyPoint>, end: int, grid: seq<seq<Cell>>, w: nat, row: nat)
    requires points != [] && IsCalendar(points, end, grid) && forall p | p in points :: p.spend >= 0.0
    requires w < |grid| && row < 7 && grid[w][row].Filled? && IsTop(grid, w, row) && grid[w][row].spend > 0.0
    ensures grid[w][row].spend == Max(WindowSpends(points, end))
  {
    var spends := WindowSpends(points, end);
    MaxBounds(spends);
    assert grid[w][row] == LevelledCell(points, end, DayAt(points, end, w, row));
    var i := grid[w][row].day - Start(points, end);
    assert spends[i] == grid[w][row].spend;
    var k :| 0 <= k < |spends| && spends[k] == Max(spends);
    var day := Start(points, end) + k;
    var v := WeekOf(points, end, grid, day);
    assert grid[v][Weekday(day)] == LevelledCell(points, end, DayAt(points, end, v, Weekday(day)));
    assert grid[v][Weekday(day)].spend == spends[k];
  }

  /** The level of a cell is the quarter of the largest spend in the grid that its own spend falls into. */
  lemma LevelIsQuarterOfTop(points: seq<DailyPoint>, end: int, grid: seq<seq<Cell>>, w: nat, row: nat, v: nat, r: nat)
    requires points != [] && IsCalendar(points, end, grid) && forall p | p in points :: p.spend >= 0.0
    requires w < |grid| && row < 7 && v < |grid| && r < 7
    requires grid[w][row].Filled? && grid[v][r].Filled? && IsTop(grid, v, r)
    ensures InQuarter(grid[w][row].spend, grid[v][r].spend, grid[w][row].level)
  {
    assert grid[w][row].spend <= grid[v][r].spend;
    if grid[w][row].spend > 0.0 {
      TopIsMax(points, end, grid, v, r);
      assert grid[w][row] == LevelledCell(points, end, DayAt(points, end, w, row));
      LevelIsQuarter(grid[w][row].spend, grid[v][r].spend);
    }
  }

  lemma {:induction false} FindInPoints(points: seq<DailyPoint>, day: int)
    ensures Find(points, day).Some? ==> Find(points, day).value in points && Find(points, day).value.day == day
    decreases |points|
  {
    if points != [] { FindInPoints(points[..|points| - 1], day); }
  }
}
