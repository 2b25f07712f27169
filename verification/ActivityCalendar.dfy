/** The activity calendar of a profile: a year of days, grouped by month into padded weeks. */
module ActivityCalendar {
  import opened Verdicts
  import opened Arithmetic

  const ACTIVITY_DAYS := 365
  const DAYS_PER_WEEK := 7

  /** A day, counted from 1 January 1970, with its submissions. */
  datatype Cell = Cell(day: int, count: nat, level: nat)

  datatype MonthGroup = MonthGroup(key: int, cells: seq<Option<Cell>>)

  /** The month a day lies in; months follow one another as days do. */
  ghost predicate MonthsAdvance(month: int -> int) {
    forall d, e :: d <= e ==> month(d) <= month(e)
  }

  predicate LeapYear(y: int) {
    y % 4 == 0 && (y % 100 != 0 || y % 400 == 0)
  }

  /** The days of a month, counted in months from January 1970. */
  function MonthLength(m: nat): (n: nat)
    ensures n >= 1
  {
    var k := m % 12;
    if k == 1 then (if LeapYear(1970 + m / 12) then 29 else 28)
    else if k == 3 || k == 5 || k == 8 || k == 10 then 30
    else 31
  }

  function MonthStart(m: nat): (d: nat)
    ensures d >= m
  {
    if m == 0 then 0 else MonthStart(m - 1) + MonthLength(m - 1)
  }

  /** The month of a day from the given month on. */
  function MonthFrom(day: nat, m: nat): (r: nat)
    requires MonthStart(m) <= day
    ensures MonthStart(r) <= day < MonthStart(r + 1)
    decreases day - m
  {
    if day < MonthStart(m + 1) then m else MonthFrom(day, m + 1)
  }

  /** The year and month of a date key, counted in months from January 1970; earlier days share one key. */
  function GregorianMonth(day: int): int {
    if day < 0 then -1 else MonthFrom(day, 0)
  }

  lemma {:induction false} MonthStartGrows(m: nat, n: nat)
    requires m <= n
    ensures MonthStart(m) <= MonthStart(n)
    decreases n
  {
    if m < n {
      MonthStartGrows(m, n - 1);
    }
  }

  lemma GregorianMonthsAdvance()
    ensures MonthsAdvance(GregorianMonth)
  {
    hide MonthStart, MonthFrom;
    forall d, e | d <= e ensures GregorianMonth(d) <= GregorianMonth(e) {
      if d >= 0 {
        InMonth(d);
        InMonth(e);
        var m, n := GregorianMonth(d), GregorianMonth(e);
        if m > n {
          MonthStartGrows(n + 1, m);
          assert false;
        }
      } else if e >= 0 {
        InMonth(e);
      }
    }
  }

  /** getUTCDay, Sunday first; day 0 was a Thursday. */
  function UTCDay(day: int): int {
    (day + 4) % DAYS_PER_WEEK
  }

  function MondayFirst(day: int): (r: nat)
    ensures r < DAYS_PER_WEEK
  {
    (UTCDay(day) + 6) % DAYS_PER_WEEK
  }

  function Level(count: nat): (r: nat)
    ensures r <= 4
    ensures (r >= 1 <==> count >= 1) && (r >= 2 <==> count >= 2) && (r >= 3 <==> count >= 4) && (r >= 4 <==> count >= 7)
  {
    if count == 0 then 0 else if count < 2 then 1 else if count < 4 then 2 else if count < 7 then 3 else 4
  }

  /** The shade of a cell: none for no submission, then deeper from one, two, four and seven submissions on. */
  predicate ShadeOf(cell: Cell) {
    && cell.level <= 4
    && (cell.level >= 1 <==> cell.count >= 1)
    && (cell.level >= 2 <==> cell.count >= 2)
    && (cell.level >= 3 <==> cell.count >= 4)
    && (cell.level >= 4 <==> cell.count >= 7)
  }

  predicate Consecutive(cells: seq<Cell>) {
    forall i :: 0 <= i < |cells| ==> cells[i].day == cells[0].day + i
  }

  function CellOf(counts: map<int, nat>, day: int): (cell: Cell)
    ensures cell.day == day && ShadeOf(cell)
    ensures cell.count == if day in counts then counts[day] else 0
  {
    var count := if day in counts then counts[day] else 0;
    Cell(day, count, Level(count))
  }

  /** The last 365 days up to today; days without activity count zero. */
  function BuildCalendar(counts: map<int, nat>, today: int): (r: seq<Cell>)
    ensures |r| == 365 && Consecutive(r) && r[364].day == today
    ensures forall i :: 0 <= i < |r| ==> r[i].count == if r[i].day in counts then counts[r[i].day] else 0
    ensures forall i :: 0 <= i < |r| ==> ShadeOf(r[i])
  {
    var cells := seq(ACTIVITY_DAYS, i => CellOf(counts, today - (ACTIVITY_DAYS - 1) + i));
    assert forall i :: 0 <= i < |cells| ==> cells[i] == CellOf(counts, today - (ACTIVITY_DAYS - 1) + i);
    cells
  }

  // ---- Grouping ----

  /** An insertion-ordered map from months to their cells. */
  type Grouped = seq<(int, seq<Cell>)>

  function IndexOf(g: Grouped, key: int): (k: nat)
    ensures k <= |g|
    ensures k < |g| ==> g[k].0 == key
    ensures forall i :: 0 <= i < k ==> g[i].0 != key
  {
    if g == [] || g[0].0 == key then 0 else 1 + IndexOf(g[1..], key)
  }

  function Add(g: Grouped, key: int, cell: Cell): Grouped {
    var k := IndexOf(g, key);
    if k < |g| then g[k := (key, g[k].1 + [cell])] else g + [(key, [cell])]
  }

  function GroupByMonth(calendar: seq<Cell>, month: int -> int): Grouped {
    if calendar == [] then []
    else
      var last := calendar[|calendar| - 1];
      Add(GroupByMonth(calendar[..|calendar| - 1], month), month(last.day), last)
  }

  function Pads(n: nat): seq<Option<Cell>> {
    seq(n, _ => None)
  }

  function Filled(cells: seq<Cell>): (r: seq<Option<Cell>>)
    ensures |r| == |cells| && forall i :: 0 <= i < |cells| ==> r[i] == Some(cells[i])
  {
    seq(|cells|, i requires 0 <= i < |cells| => Some(cells[i]))
  }

  function Trailing(offset: nat, n: nat): nat {
    (DAYS_PER_WEEK - (offset + n) % DAYS_PER_WEEK) % DAYS_PER_WEEK
  }

  function Padded(key: int, cells: seq<Cell>): MonthGroup
    requires cells != []
  {
    var offset := MondayFirst(cells[0].day);
    MonthGroup(key, Pads(offset) + Filled(cells) + Pads(Trailing(offset, |cells|)))
  }

  ghost predicate AllFilled(g: Grouped) {
    forall k :: 0 <= k < |g| ==> g[k].1 != []
  }

  lemma {:induction false} GroupsFilled(calendar: seq<Cell>, month: int -> int)
    ensures AllFilled(GroupByMonth(calendar, month))
  {
    if calendar != [] {
      GroupsFilled(calendar[..|calendar| - 1], month);
    }
  }

  /** The loop fills the map; every entry then becomes a padded group. */
  method BuildMonthGroups(calendar: seq<Cell>, month: int -> int) returns (groups: seq<MonthGroup>)
    ensures
      var g := GroupByMonth(calendar, month);
      && AllFilled(g) && |groups| == |g|
      && forall k :: 0 <= k < |g| ==> groups[k] == Padded(g[k].0, g[k].1)
  {
    var grouped: Grouped := [];
    for i := 0 to |calendar|
      invariant grouped == GroupByMonth(calendar[..i], month)
    {
      var cell := calendar[i];
      var monthKey := month(cell.day);
      assert calendar[..i + 1][..i] == calendar[..i];
      var k := IndexOf(grouped, monthKey);
      if k < |grouped| {
        grouped := grouped[k := (monthKey, grouped[k].1 + [cell])];
      } else {
        grouped := grouped + [(monthKey, [cell])];
      }
    }
    assert calendar[..|calendar|] == calendar;
    GroupsFilled(calendar, month);
    groups := [];
    for k := 0 to |grouped|
      invariant |groups| == k
      invariant forall l :: 0 <= l < k ==> groups[l] == Padded(grouped[l].0, grouped[l].1)
    {
      groups := groups + [Padded(grouped[k].0, grouped[k].1)];
    }
  }

  // ---- Groups of consecutive days ----

  function Flatten(g: Grouped): seq<Cell> {
    if g == [] then [] else Flatten(g[..|g| - 1]) + g[|g| - 1].1
  }

  /** The groups partition the days in order, one group per month, months ascending. */
  ghost predicate InOrder(g: Grouped, calendar: seq<Cell>, month: int -> int) {
    && AllFilled(g)
    && Flatten(g) == calendar
    && (forall k, l :: 0 <= k < l < |g| ==> g[k].0 < g[l].0)
    && (forall k, i :: 0 <= k < |g| && 0 <= i < |g[k].1| ==> month(g[k].1[i].day) == g[k].0)
    && (forall k :: 0 <= k < |g| ==> Consecutive(g[k].1))
  }

  lemma LastIndex(g: Grouped, key: int)
    requires forall k, l :: 0 <= k < l < |g| ==> g[k].0 < g[l].0
    requires g != [] ==> g[|g| - 1].0 <= key
    ensures IndexOf(g, key) == if g != [] && g[|g| - 1].0 == key then |g| - 1 else |g|
  {}

  lemma NextDay(calendar: seq<Cell>, cell: Cell)
    requires Consecutive(calendar + [cell]) && calendar != []
    ensures cell.day == calendar[|calendar| - 1].day + 1
  {
    var all, n := calendar + [cell], |calendar|;
    assert all[n].day == all[0].day + n && all[n - 1].day == all[0].day + (n - 1);
  }

  lemma FirstGroup(calendar: seq<Cell>, month: int -> int, cell: Cell)
    requires InOrder([], calendar, month)
    ensures InOrder([(month(cell.day), [cell])], calendar + [cell], month)
  {
    var g: Grouped := [(month(cell.day), [cell])];
    assert g[..0] == [];
  }

  lemma LastGroup(g: Grouped, calendar: seq<Cell>, month: int -> int, cell: Cell)
    requires g != [] && InOrder(g, calendar, month) && Consecutive(calendar + [cell]) && MonthsAdvance(month)
    ensures
      var last := g[|g| - 1].1;
      last != [] && cell.day == last[|last| - 1].day + 1 && g[|g| - 1].0 <= month(cell.day)
    ensures IndexOf(g, month(cell.day)) == if g[|g| - 1].0 == month(cell.day) then |g| - 1 else |g|
  {
    hide Consecutive, IndexOf;
    var last := g[|g| - 1].1;
    LastCell(g);
    NextDay(calendar, cell);
    assert month(last[|last| - 1].day) == g[|g| - 1].0;
    LastIndex(g, month(cell.day));
  }

  /** The next day goes to the last group or opens a new one. */
  lemma AddInOrder(g: Grouped, calendar: seq<Cell>, month: int -> int, cell: Cell)
    requires InOrder(g, calendar, month) && Consecutive(calendar + [cell]) && MonthsAdvance(month)
    ensures InOrder(Add(g, month(cell.day), cell), calendar + [cell], month)
  {
    hide InOrder, Consecutive, MonthsAdvance;
    if g == [] {
      FirstGroup(calendar, month, cell);
      assert g + [(month(cell.day), [cell])] == [(month(cell.day), [cell])];
    } else {
      LastGroup(g, calendar, month, cell);
      if g[|g| - 1].0 == month(cell.day) {
        ExtendLast(g, calendar, month, cell);
      } else {
        OpenNew(g, calendar, month, cell);
      }
    }
  }

  lemma LastCell(g: Grouped)
    requires g != [] && AllFilled(g)
    ensures
      var last := g[|g| - 1].1;
      Flatten(g) != [] && Flatten(g)[|Flatten(g)| - 1] == last[|last| - 1]
  {}

  lemma ExtendLast(g: Grouped, calendar: seq<Cell>, month: int -> int, cell: Cell)
    requires g != [] && InOrder(g, calendar, month) && g[|g| - 1].0 == month(cell.day)
    requires
      var last := g[|g| - 1].1;
      last != [] && cell.day == last[|last| - 1].day + 1
    ensures InOrder(g[|g| - 1 := (month(cell.day), g[|g| - 1].1 + [cell])], calendar + [cell], month)
  {
    var n := |g| - 1;
    var h := g[n := (month(cell.day), g[n].1 + [cell])];
    assert h[..n] == g[..n];
    assert Flatten(g[..n]) + g[n].1 + [cell] == Flatten(g[..n]) + (g[n].1 + [cell]);
  }

  lemma OpenNew(g: Grouped, calendar: seq<Cell>, month: int -> int, cell: Cell)
    requires g != [] && InOrder(g, calendar, month) && g[|g| - 1].0 < month(cell.day)
    ensures InOrder(g + [(month(cell.day), [cell])], calendar + [cell], month)
  {
    var h := g + [(month(cell.day), [cell])];
    assert h[..|g|] == g;
  }

  lemma {:induction false} ConsecutiveInOrder(calendar: seq<Cell>, month: int -> int)
    requires Consecutive(calendar) && MonthsAdvance(month)
    ensures InOrder(GroupByMonth(calendar, month), calendar, month)
  {
    if calendar != [] {
      var init, last := calendar[..|calendar| - 1], calendar[|calendar| - 1];
      assert calendar == init + [last];
      ConsecutiveInOrder(init, month);
      AddInOrder(GroupByMonth(init, month), init, month, last);
    }
  }

  // ---- Padding ----

  /** Whole weeks, at most six pads on either side, and every day under its own weekday: day 0 was a Thursday, the
      fourth day of a week that begins on Monday. */
  ghost predicate WholeWeeks(group: MonthGroup, cells: seq<Cell>) {
    exists before: nat, after: nat ::
      && before <= 6 && after <= 6
      && group.cells == Pads(before) + Filled(cells) + Pads(after)
      && |group.cells| % 7 == 0
      && forall j :: 0 <= j < |group.cells| && group.cells[j].Some? ==> (group.cells[j].value.day + 3) % 7 == j % 7
  }

  lemma WeekdayMoves(day: int, i: nat)
    ensures MondayFirst(day + i) == (MondayFirst(day) + i) % DAYS_PER_WEEK
  {}

  lemma MondayIsFirst(day: int)
    ensures MondayFirst(day) == (day + 3) % 7
  {}

  lemma TrailingCompletes(offset: nat, n: nat)
    ensures Trailing(offset, n) < DAYS_PER_WEEK && (offset + n + Trailing(offset, n)) % DAYS_PER_WEEK == 0
  {}

  /** Only the days stand between the pads. */
  lemma CellBetweenPads(cells: seq<Cell>, offset: nat, after: nat, j: nat)
    requires j < offset + |cells| + after && (Pads(offset) + Filled(cells) + Pads(after))[j].Some?
    ensures offset <= j < offset + |cells| && (Pads(offset) + Filled(cells) + Pads(after))[j] == Some(cells[j - offset])
  {}

  lemma PaddedWholeWeeks(key: int, cells: seq<Cell>)
    requires cells != [] && Consecutive(cells)
    ensures WholeWeeks(Padded(key, cells), cells)
  {
    hide MondayFirst, Trailing, Filled;
    var group, offset := Padded(key, cells), MondayFirst(cells[0].day);
    var after := Trailing(offset, |cells|);
    TrailingCompletes(offset, |cells|);
    assert |group.cells| == offset + |cells| + after;
    forall j | 0 <= j < |group.cells| && group.cells[j].Some?
      ensures (group.cells[j].value.day + 3) % 7 == j % 7
    {
      CellBetweenPads(cells, offset, after, j);
      WeekdayMoves(cells[0].day, j - offset);
      assert cells[j - offset].day == cells[0].day + (j - offset);
      MondayIsFirst(cells[j - offset].day);
    }
  }

  /** For every run of consecutive days the month groups, without their padding, are the calendar in order, one group
      per month; each consists of whole weeks with every day under its Monday-first weekday. */
  lemma MonthGroupsAreTheCalendar(calendar: seq<Cell>, month: int -> int)
    requires Consecutive(calendar) && MonthsAdvance(month)
    ensures
      var g := GroupByMonth(calendar, month);
      && InOrder(g, calendar, month)
      && forall k :: 0 <= k < |g| ==> WholeWeeks(Padded(g[k].0, g[k].1), g[k].1)
  {
    ConsecutiveInOrder(calendar, month);
    var g := GroupByMonth(calendar, month);
    forall k | 0 <= k < |g| ensures WholeWeeks(Padded(g[k].0, g[k].1), g[k].1) {
      PaddedWholeWeeks(g[k].0, g[k].1);
    }
  }

  /** The year shown on a profile, grouped by calendar month. */
  lemma ProfileCalendar(counts: map<int, nat>, today: int)
    ensures
      var calendar := BuildCalendar(counts, today);
      var g := GroupByMonth(calendar, GregorianMonth);
      && InOrder(g, calendar, GregorianMonth)
      && forall k :: 0 <= k < |g| ==> WholeWeeks(Padded(g[k].0, g[k].1), g[k].1)
  {
    hide BuildCalendar, GroupByMonth, InOrder, WholeWeeks;
    GregorianMonthsAdvance();
    MonthGroupsAreTheCalendar(BuildCalendar(counts, today), GregorianMonth);
  }

  // ---- The calendar of dates ----

  /** The leap days of the years 1 to y. */
  function LeapDays(y: nat): int {
    y / 4 - y / 100 + y / 400
  }

  lemma OneMoreYear(y: nat)
    requires y >= 1
    ensures LeapDays(y) == LeapDays(y - 1) + if y % 4 == 0 && (y % 100 != 0 || y % 400 == 0) then 1 else 0
  {
    QuotientStep(y, 4);
    QuotientStep(y, 100);
    QuotientStep(y, 400);
    if y % 100 == 0 {
      Divides(y, 100, 4, 25);
    }
    if y % 400 == 0 {
      Divides(y, 400, 100, 4);
    }
    LeapStep(y / 4, (y - 1) / 4, y / 100, (y - 1) / 100, y / 400, (y - 1) / 400,
             y % 4 == 0, y % 100 == 0, y % 400 == 0);
  }

  lemma Divides(y: nat, m: nat, k: nat, n: nat)
    requires k >= 1 && n >= 1 && m == k * n && y % m == 0
    ensures y % k == 0
  {
    var q := y / m;
    assert y == q * m == (q * n) * k;
    QuotientUnique(y, k, q * n, 0);
  }

  lemma LeapStep(a: int, a0: int, b: int, b0: int, c: int, c0: int, four: bool, hundred: bool, fourHundred: bool)
    requires a == a0 + (if four then 1 else 0) && b == b0 + (if hundred then 1 else 0)
    requires c == c0 + (if fourHundred then 1 else 0) && (hundred ==> four) && (fourHundred ==> hundred)
    ensures a - b + c == a0 - b0 + c0 + if four && (!hundred || fourHundred) then 1 else 0
  {}

  lemma QuotientStep(y: nat, m: nat)
    requires y >= 1 && m >= 1
    ensures y / m == (y - 1) / m + if y % m == 0 then 1 else 0
  {
    var q, r := (y - 1) / m, (y - 1) % m;
    assert y - 1 == q * m + r;
    if r == m - 1 {
      assert y == (q + 1) * m;
      QuotientUnique(y, m, q + 1, 0);
    } else {
      QuotientUnique(y, m, q, r + 1);
    }
  }

  /** The days before a month of a common year, January being 0. */
  const DAYS_BEFORE: seq<nat> := [0, 31, 59, 90, 120, 151, 181, 212, 243, 273, 304, 334, 365]

  predicate IsLeap(y: int) {
    y % 4 == 0 && (y % 100 != 0 || y % 400 == 0)
  }

  /** The days from 1 January 1970 to the first of a month, in closed form. */
  function DaysBefore(y: nat, m: nat): int
    requires y >= 1970 && m <= 12
  {
    365 * (y - 1970) + LeapDays(y - 1) - 477 + DAYS_BEFORE[m] + if m >= 2 && IsLeap(y) then 1 else 0
  }

  lemma MonthOfYear(years: nat, m: nat)
    requires m < 12
    ensures (12 * years + m) % 12 == m && (12 * years + m) / 12 == years
  {
    QuotientUnique(12 * years + m, 12, years, m);
  }

  /** Month m of a year is as long as the table says. */
  lemma LengthOfMonth(years: nat, m: nat)
    requires m < 12
    ensures MonthLength(12 * years + m) ==
            DAYS_BEFORE[m + 1] - DAYS_BEFORE[m] + if m == 1 && IsLeap(1970 + years) then 1 else 0
  {
    MonthOfYear(years, m);
  }

  /** The months of the model begin where the Gregorian calendar puts them. */
  lemma {:induction false} MonthBegins(years: nat, m: nat)
    requires m <= 12
    ensures MonthStart(12 * years + m) == DaysBefore(1970 + years, m)
    decreases years, m
  {
    if m > 0 {
      MonthBegins(years, m - 1);
      LengthOfMonth(years, m - 1);
    } else if years > 0 {
      MonthBegins(years - 1, 12);
      OneMoreYear(1970 + years - 1);
    }
  }

  /** The weekday of a date, Sunday being 0, by the formula of Sakamoto. */
  function Weekday(y: nat, m: nat, d: int): int
    requires y >= 1 && 1 <= m <= 12
  {
    var z := if m < 3 then y - 1 else y;
    (z + LeapDays(z) + [0, 3, 2, 5, 0, 3, 5, 1, 4, 6, 2, 4][m - 1] + d) % 7
  }

  lemma SevenApart(a: int, b: int, q: int)
    requires a == b + 7 * q
    ensures a % 7 == b % 7
  {
    QuotientUnique(a, 7, b / 7 + q, b % 7);
  }

  /** Every day from 1970 on has a date of the Gregorian calendar, and stands under the weekday of that date. */
  lemma DayIsDate(day: nat)
    ensures
      var month := GregorianMonth(day);
      && month >= 0
      && var y, m := 1970 + month / 12, month % 12;
      && var d := day - DaysBefore(y, m) + 1;
      && 1 <= d <= DAYS_BEFORE[m + 1] - DAYS_BEFORE[m] + (if m == 1 && IsLeap(y) then 1 else 0)
      && (day + 3) % 7 == (Weekday(y, m + 1, d) + 6) % 7
  {
    hide MonthStart, MonthLength, MonthFrom, LeapDays, LeapYear, IsLeap, Weekday;
    var month := GregorianMonth(day);
    InMonth(day);
    StartOfMonths(month);
    var y, m := 1970 + month / 12, month % 12;
    var d := day - DaysBefore(y, m) + 1;
    WeekdayOfDate(y, m, d);
  }

  lemma InMonth(day: nat)
    ensures GregorianMonth(day) >= 0 && MonthStart(GregorianMonth(day)) <= day < MonthStart(GregorianMonth(day) + 1)
  {}

  lemma StartOfMonths(month: nat)
    ensures
      var y, m := 1970 + month / 12, month % 12;
      && MonthStart(month) == DaysBefore(y, m)
      && MonthStart(month + 1) ==
           DaysBefore(y, m) + DAYS_BEFORE[m + 1] - DAYS_BEFORE[m] + if m == 1 && IsLeap(y) then 1 else 0
  {
    hide MonthLength;
    assert month == 12 * (month / 12) + month % 12;
    MonthBegins(month / 12, month % 12);
    LengthOfMonth(month / 12, month % 12);
  }

  lemma WeekdayOfDate(y: nat, m: nat, d: int)
    requires y >= 1970 && m < 12
    ensures (DaysBefore(y, m) + d - 1 + 3) % 7 == (Weekday(y, m + 1, d) + 6) % 7
  {
    hide LeapDays;
    OneMoreYear(y);
    var z := if m < 2 then y - 1 else y;
    var plain := z + LeapDays(z) + [0, 3, 2, 5, 0, 3, 5, 1, 4, 6, 2, 4][m] + d;
    SevenApart(plain + 6, plain % 7 + 6, plain / 7);
    var all := [0, 28, 56, 84, 119, 147, 175, 210, 238, 266, 301, 329][m];
    assert all % 7 == 0;
    SevenApart(DaysBefore(y, m) + d + 2, plain + 6, 52 * y - 102790 + all / 7);
  }
}
