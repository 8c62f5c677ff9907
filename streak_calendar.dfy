/**
 * The activity heatmap of `frontend/src/components/analytics/StreakCalendar.jsx`: the twelve-week
 * grid `generateCalendarData` builds from the daily completion counts, and the colour class
 * `getIntensityColor` picks for a count.
 *
 * The dates come from the clock: `dateOf(k)` is the ISO date string (`toISOString().split('T')[0]`)
 * of the day `k` days before today that `setDate(today.getDate() - k)` lands on, and
 * `dayOfMonth(k)` is that day's `getDate()`. Both are parameters.
 */
module StreakCalendar {
  import opened Wrappers

  /** One entry of `completionData`: a date and a count, as the component reads it. */
  datatype DayEntry = DayEntry(date: string, count: int)

  /** One cell of the grid. */
  datatype Cell = Cell(date: string, count: int, displayDate: int)

  const Weeks := 12
  const DaysPerWeek := 7

  /** The index `find` stops at: the first entry for `date`, or `|s|` when there is none. */
  function FirstWithDate(s: seq<DayEntry>, date: string): (i: nat)
    ensures i <= |s|
    ensures i < |s| ==> s[i].date == date
    ensures forall j :: 0 <= j < i ==> s[j].date != date
  {
    if s == [] then 0
    else if s[0].date == date then 0
    else 1 + FirstWithDate(s[1..], date)
  }

  /**
   * `completionData?.find(d => d.date === dateString)?.count || 0`: the count of the first entry
   * for the date; 0 when the data is missing or has no entry for it.
   */
  function CountOn(data: Option<seq<DayEntry>>, date: string): (c: int)
    ensures data.None? ==> c == 0
    ensures data.Some? && (forall e :: e in data.value ==> e.date != date) ==> c == 0
    ensures data.Some? && FirstWithDate(data.value, date) < |data.value| ==>
      c == data.value[FirstWithDate(data.value, date)].count
  {
    if data.None? then 0
    else
      var s := data.value;
      var i := FirstWithDate(s, date);
      if i == |s| then 0
      else
        assert s[i] in s;
        var count := s[i].count;
        if count == 0 then 0 else count
  }

  /** The cell for the day `k` days before today. */
  function CellAt(data: Option<seq<DayEntry>>, dateOf: int -> string, dayOfMonth: int -> int, k: int): Cell {
    Cell(dateOf(k), CountOn(data, dateOf(k)), dayOfMonth(k))
  }

  /** Row `w` of the grid: the days `7w` to `7w + 6` back, today-most first. */
  function Week(data: Option<seq<DayEntry>>, dateOf: int -> string, dayOfMonth: int -> int, w: int): (r: seq<Cell>)
    ensures |r| == DaysPerWeek
  {
    seq(DaysPerWeek, d => CellAt(data, dateOf, dayOfMonth, DaysPerWeek * w + d))
  }

  /** The whole grid, this week first. */
  function Grid(data: Option<seq<DayEntry>>, dateOf: int -> string, dayOfMonth: int -> int): (g: seq<seq<Cell>>)
    ensures |g| == Weeks && forall w :: 0 <= w < Weeks ==> |g[w]| == DaysPerWeek
  {
    seq(Weeks, w => Week(data, dateOf, dayOfMonth, w))
  }

  /**
   * `generateCalendarData`: for `week` from 11 down to 0 and `day` from 6 down to 0 it prepends
   * (`unshift`) the cell `week * 7 + day` days back, so `weeks[w][d]` is the day `7w + d` back.
   */
  method GenerateCalendarData(data: Option<seq<DayEntry>>, dateOf: int -> string, dayOfMonth: int -> int)
    returns (weeks: seq<seq<Cell>>)
    ensures weeks == Grid(data, dateOf, dayOfMonth)
  {
    weeks := [];
    var week := 11;
    while week >= 0
      invariant -1 <= week <= 11
      invariant |weeks| == 11 - week
      invariant forall w :: 0 <= w < |weeks| ==> weeks[w] == Week(data, dateOf, dayOfMonth, week + 1 + w)
    {
      var days := WeekCells(data, dateOf, dayOfMonth, week);
      weeks := [days] + weeks;
      week := week - 1;
    }
  }

  /** The inner loop of `generateCalendarData`: one week's cells, built by prepending day 6, 5, ..., 0. */
  method WeekCells(data: Option<seq<DayEntry>>, dateOf: int -> string, dayOfMonth: int -> int, week: int)
    returns (days: seq<Cell>)
    ensures days == Week(data, dateOf, dayOfMonth, week)
  {
    days := [];
    var day := 6;
    while day >= 0
      invariant -1 <= day <= 6
      invariant |days| == 6 - day
      invariant forall d :: 0 <= d < |days| ==> days[d] == CellAt(data, dateOf, dayOfMonth, week * 7 + day + 1 + d)
    {
      var date := dateOf(week * 7 + day);
      var count := CountOn(data, date);
      days := [Cell(date, count, dayOfMonth(week * 7 + day))] + days;
      day := day - 1;
    }
  }

  /** The rows of a grid one after the other. */
  function Concat(g: seq<seq<Cell>>): (r: seq<Cell>)
    ensures (forall w :: 0 <= w < |g| ==> |g[w]| == DaysPerWeek) ==> |r| == DaysPerWeek * |g|
  {
    if g == [] then [] else Concat(g[..|g| - 1]) + g[|g| - 1]
  }

  /**
   * Read row by row, the grid walks back from today one day per cell: the 84 cells are the days
   * 0 to 83 back, each exactly once and in that order.
   */
  lemma {:induction false} GridWalksBack(data: Option<seq<DayEntry>>, dateOf: int -> string, dayOfMonth: int -> int, n: nat)
    requires n <= Weeks
    ensures Concat(Grid(data, dateOf, dayOfMonth)[..n]) == seq(DaysPerWeek * n, k => CellAt(data, dateOf, dayOfMonth, k))
  {
    var g := Grid(data, dateOf, dayOfMonth);
    if n > 0 {
      GridWalksBack(data, dateOf, dayOfMonth, n - 1);
      assert g[..n][..n - 1] == g[..n - 1];
      var before := seq(DaysPerWeek * (n - 1), k => CellAt(data, dateOf, dayOfMonth, k));
      var after := seq(DaysPerWeek * n, k => CellAt(data, dateOf, dayOfMonth, k));
      assert before + g[n - 1] == after by {
        forall k | 0 <= k < DaysPerWeek * n
          ensures (before + g[n - 1])[k] == after[k]
        {
          if k >= DaysPerWeek * (n - 1) {
            assert g[n - 1][k - DaysPerWeek * (n - 1)] == CellAt(data, dateOf, dayOfMonth, k);
          }
        }
      }
    }
  }

  /** The first cell is today and the last one 83 days back; the grid holds 84 cells. */
  lemma GridSpan(data: Option<seq<DayEntry>>, dateOf: int -> string, dayOfMonth: int -> int)
    ensures var cells := Concat(Grid(data, dateOf, dayOfMonth));
      && |cells| == Weeks * DaysPerWeek
      && cells[0].date == dateOf(0) && cells[|cells| - 1].date == dateOf(83)
  {
    var g := Grid(data, dateOf, dayOfMonth);
    GridWalksBack(data, dateOf, dayOfMonth, Weeks);
    assert g[..Weeks] == g;
  }

  // ---- getIntensityColor

  /** The five classes, from no completions to the most. */
  const Palette: seq<string> := [
    "bg-gray-100 dark:bg-gray-800", "bg-green-200 dark:bg-green-900", "bg-green-400 dark:bg-green-700",
    "bg-green-600 dark:bg-green-500", "bg-green-800 dark:bg-green-400"]

  /** `getIntensityColor`. */
  function IntensityColor(count: int): (cls: string)
    ensures cls in Palette
  {
    if count == 0 then "bg-gray-100 dark:bg-gray-800"
    else if count <= 2 then "bg-green-200 dark:bg-green-900"
    else if count <= 4 then "bg-green-400 dark:bg-green-700"
    else if count <= 6 then "bg-green-600 dark:bg-green-500"
    else "bg-green-800 dark:bg-green-400"
  }

  /**
   * The bucket of a count as a number: 0 for none, then one step for every two completions up to
   * the last bucket, which takes 7 and more. (A negative count, which the data never holds, falls in
   * the first green bucket, as the `<= 2` test lets it.)
   */
  function Level(count: int): (l: nat)
    ensures l < |Palette|
  {
    if count == 0 then 0
    else if count < 0 then 1
    else if (count + 1) / 2 < 4 then (count + 1) / 2
    else 4
  }

  /** `getIntensityColor` picks the palette entry of the count's level. */
  lemma IntensityIsLevel(count: int)
    ensures IntensityColor(count) == Palette[Level(count)]
  {
  }

  /** The five classes are all different, so the level can be read back from the class. */
  lemma PaletteDistinct()
    ensures forall i, j :: 0 <= i < j < |Palette| ==> Palette[i] != Palette[j]
  {
    assert Palette[0][5] == 'a' && Palette[1][5] == 'e';
    assert Palette[1][9] == '2' && Palette[2][9] == '4' && Palette[3][9] == '6' && Palette[4][9] == '8';
    assert Palette[0][5] != Palette[2][5] && Palette[0][5] != Palette[3][5] && Palette[0][5] != Palette[4][5];
  }

  /** More completions never give a lighter colour. */
  lemma LevelMonotone(a: int, b: int)
    requires 0 <= a <= b
    ensures Level(a) <= Level(b)
  {
  }

  /** The legend `[0, 1, 2, 3, 4].map(level => getIntensityColor(level * 2))` shows each of the five classes once, lightest first. */
  lemma LegendShowsPalette()
    ensures seq(5, l => IntensityColor(l * 2)) == Palette
  {
    assert IntensityColor(0) == Palette[0] && IntensityColor(2) == Palette[1] && IntensityColor(4) == Palette[2];
    assert IntensityColor(6) == Palette[3] && IntensityColor(8) == Palette[4];
  }
}
