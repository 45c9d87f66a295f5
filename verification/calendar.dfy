/** The calendar view (tagtracker/views/cal.py, and `calendar` in the two
    legacy scripts): a markdown table of the current month, one row per week.
    A day whose date `YYYY-MM-DD` is a tag with references becomes a link to
    a daily summary file, which is written alongside; other days of the month
    show their number, days of neighbouring months a dot. */
module Calendar {
  import opened Wrappers
  import opened Strings
  import opened Seqs
  import opened Multimap
  import opened Values
  import TagSummary

  datatype Date = Date(year: nat, month: nat, day: nat)

  /** A written file: path and contents. */
  type File = (string, string)

  /** What the calendar reads besides the index: the directory notes live in,
      the current month, its weeks as the standard library lays them out
      (`Calendar().monthdatescalendar`) and the locale's short weekday names
      (`strftime("%a")`). */
  datatype Month = Month(path: string, month: nat, weeks: seq<seq<Date>>, dayName: Date -> string)

  /** `day.strftime("%Y-%m-%d")`. */
  function Key(d: Date): string {
    ZeroPad(d.year, 4) + "-" + ZeroPad(d.month, 2) + "-" + ZeroPad(d.day, 2)
  }

  /** `tags.get(key)` is truthy: the date is a tag with references. */
  predicate HasTasks(tags: Multimap<string, string>, d: Date) {
    Get(tags, Key(d)) != []
  }

  // ---------------------------------------------------------------------
  // Settings

  /** `"!" if settings and settings["embedPagesInDailyView"] else ""`. */
  function Embed(settings: Value): Result<string, Error> {
    if Truthy(settings) then
      var v :- Lookup(settings, "embedPagesInDailyView");
      Success(if Truthy(v) then "!" else "")
    else Success("")
  }

  /** `settings["calendarDirectory"] if settings and settings["calendarDirectory"] else "calendar"`. */
  function CalendarDirectory(settings: Value): Result<Value, Error> {
    if Truthy(settings) then
      var v :- Lookup(settings, "calendarDirectory");
      Success(if Truthy(v) then v else Str("calendar"))
    else Success(Str("calendar"))
  }

  /** Both settings, read in the order the view reads them. */
  function CalSettings(settings: Value): Result<(string, Value), Error> {
    var embed :- Embed(settings);
    var dir :- CalendarDirectory(settings);
    Success((embed, dir))
  }

  // ---------------------------------------------------------------------
  // Cells, rows and header

  /** A day with tasks: `" " * (1 - day // 10)`, then ` [day](dir/key.md)`. */
  function LinkCell(d: Date, dir: string): string {
    Repeat(" ", 1 - d.day / 10) + (" " + Link(d, dir))
  }

  /** `[day](dir/key.md)`: a markdown link to the day's summary. */
  function Link(d: Date, dir: string): string {
    "[" + NatToString(d.day) + "](" + dir + "/" + Key(d) + ".md)"
  }

  /** Any other day: `f"{day:3}"` in the current month, `"  ."` outside it. */
  function PlainCell(d: Date, month: nat): string {
    if d.month == month then PadLeft(NatToString(d.day), 3, ' ') else "  ."
  }

  /** The daily summary file: `*key*`, a blank line, then one line per
      reference, each preceded by the embed marker. */
  function SummaryText(key: string, embed: string, refs: seq<string>): string {
    "*" + key + "*\n\n" + embed + Join("\n" + embed, refs) + "\n"
  }

  function SummaryPath(path: string, dir: string, d: Date): string {
    PathJoin(PathJoin(path, dir), Key(d) + ".md")
  }

  /** One day: its cell, and the summary file it writes. A directory that is
      not a string fails in `os.path.join` when the first file is written. */
  function DayOut(m: Month, embed: string, dir: Value, tags: Multimap<string, string>, d: Date)
    : Result<(string, seq<File>), Error>
  {
    if HasTasks(tags, d) then
      if !dir.Str? then Failure(TypeError("join"))
      else Success((LinkCell(d, dir.s), [(SummaryPath(m.path, dir.s, d), SummaryText(Key(d), embed, Get(tags, Key(d))))]))
    else Success((PlainCell(d, m.month), []))
  }

  /** The cells of a week and the files they write. */
  function WeekOut(m: Month, embed: string, dir: Value, tags: Multimap<string, string>, week: seq<Date>)
    : (r: Result<(seq<string>, seq<File>), Error>)
    ensures r.Success? ==> |r.value.0| == |week|
    decreases |week|
  {
    if week == [] then Success(([], []))
    else
      var (cell, fs) :- DayOut(m, embed, dir, tags, week[0]);
      var (cells, rest) :- WeekOut(m, embed, dir, tags, week[1..]);
      Success(([cell] + cells, fs + rest))
  }

  /** A row: each cell followed by ` |` except the last, then a line break. */
  function Row(cells: seq<string>): string {
    Interleave(" |", cells, 0) + "\n"
  }

  /** The rows of the weeks and the files they write. */
  function WeeksOut(m: Month, embed: string, dir: Value, tags: Multimap<string, string>, weeks: seq<seq<Date>>)
    : Result<(string, seq<File>), Error>
    decreases |weeks|
  {
    if weeks == [] then Success(("", []))
    else
      var (cells, fs) :- WeekOut(m, embed, dir, tags, weeks[0]);
      var (text, rest) :- WeeksOut(m, embed, dir, tags, weeks[1..]);
      Success((Row(cells) + text, fs + rest))
  }

  /** The short weekday names of a week's days. */
  function DayNames(m: Month, week: seq<Date>): (r: seq<string>)
    ensures |r| == |week|
    ensures forall i :: 0 <= i < |week| ==> r[i] == m.dayName(week[i])
  {
    seq(|week|, i requires 0 <= i < |week| => m.dayName(week[i]))
  }

  /** The weekday names of the first week, each followed by ` | ` except the
      last, then the markdown separator line. */
  function Header(m: Month, week: seq<Date>): string {
    Interleave(" | ", DayNames(m, week), 0) + "\n" + Repeat("--- | ", |week| - 1) + "---\n"
  }

  /** The calendar for given settings values: its text and the summary files. */
  function CalendarOut(m: Month, embed: string, dir: Value, tags: Multimap<string, string>)
    : Result<(string, seq<File>), Error>
    requires m.weeks != []
  {
    var (body, files) :- WeeksOut(m, embed, dir, tags, m.weeks);
    Success((Header(m, m.weeks[0]) + body, files))
  }

  /** The view of tagtracker/views/cal.py. */
  function Cal(m: Month, settings: Value, tags: Multimap<string, string>): Result<(string, seq<File>), Error>
    requires m.weeks != []
  {
    var (embed, dir) :- CalSettings(settings);
    CalendarOut(m, embed, dir, tags)
  }

  // ---------------------------------------------------------------------
  // An independent description

  /** All days shown, week after week. */
  function Days(weeks: seq<seq<Date>>): seq<Date>
    decreases |weeks|
  {
    if weeks == [] then [] else weeks[0] + Days(weeks[1..])
  }

  /** The days with tasks, in calendar order. */
  function TaskDays(tags: Multimap<string, string>, ds: seq<Date>): seq<Date>
    decreases |ds|
  {
    if ds == [] then []
    else (if HasTasks(tags, ds[0]) then [ds[0]] else []) + TaskDays(tags, ds[1..])
  }

  /** The summary files for the given days, in order. */
  function SummaryFiles(path: string, dir: string, embed: string, tags: Multimap<string, string>, ds: seq<Date>)
    : (r: seq<File>)
    ensures |r| == |ds|
    ensures forall i :: 0 <= i < |ds| ==>
      r[i] == (SummaryPath(path, dir, ds[i]), SummaryText(Key(ds[i]), embed, Get(tags, Key(ds[i]))))
  {
    seq(|ds|, i requires 0 <= i < |ds| =>
      (SummaryPath(path, dir, ds[i]), SummaryText(Key(ds[i]), embed, Get(tags, Key(ds[i])))))
  }

  /** The cell of a day once the directory is a string. */
  function CellOf(m: Month, dir: string, tags: Multimap<string, string>, d: Date): string {
    if HasTasks(tags, d) then LinkCell(d, dir) else PlainCell(d, m.month)
  }

  function CellsOf(m: Month, dir: string, tags: Multimap<string, string>, week: seq<Date>): (r: seq<string>)
    ensures |r| == |week|
    ensures forall i :: 0 <= i < |week| ==> r[i] == CellOf(m, dir, tags, week[i])
  {
    seq(|week|, i requires 0 <= i < |week| => CellOf(m, dir, tags, week[i]))
  }

  function RowsOf(m: Month, dir: string, tags: Multimap<string, string>, weeks: seq<seq<Date>>): string
    decreases |weeks|
  {
    if weeks == [] then "" else Row(CellsOf(m, dir, tags, weeks[0])) + RowsOf(m, dir, tags, weeks[1..])
  }

  // ---------------------------------------------------------------------
  // Properties

  lemma {:induction false} TaskDaysAppend(tags: Multimap<string, string>, a: seq<Date>, b: seq<Date>)
    ensures TaskDays(tags, a + b) == TaskDays(tags, a) + TaskDays(tags, b)
    decreases |a|
  {
    if a == [] {
      assert a + b == b;
    } else {
      assert (a + b)[0] == a[0];
      assert (a + b)[1..] == a[1..] + b;
      TaskDaysAppend(tags, a[1..], b);
      var head := if HasTasks(tags, a[0]) then [a[0]] else [];
      AppendAssoc(head, TaskDays(tags, a[1..]), TaskDays(tags, b));
    }
  }

  lemma SummaryFilesAppend(path: string, dir: string, embed: string, tags: Multimap<string, string>, a: seq<Date>, b: seq<Date>)
    ensures SummaryFiles(path, dir, embed, tags, a + b)
         == SummaryFiles(path, dir, embed, tags, a) + SummaryFiles(path, dir, embed, tags, b)
  {
  }

  /** A day fails exactly when it has tasks and the directory is not a
      string; otherwise it yields its cell and, when it has tasks, its summary. */
  lemma DayOutSpec(m: Month, embed: string, dir: Value, tags: Multimap<string, string>, d: Date)
    ensures DayOut(m, embed, dir, tags, d).Success? <==> dir.Str? || !HasTasks(tags, d)
    ensures dir.Str? ==> (DayOut(m, embed, dir, tags, d)
      == Success((CellOf(m, dir.s, tags, d), SummaryFiles(m.path, dir.s, embed, tags, TaskDays(tags, [d])))))
  {
    assert TaskDays(tags, [d]) == (if HasTasks(tags, d) then [d] else []) + TaskDays(tags, []);
    if dir.Str? {
      var fs := SummaryFiles(m.path, dir.s, embed, tags, TaskDays(tags, [d]));
      if HasTasks(tags, d) {
        assert fs == [fs[0]];
      } else {
        assert fs == [];
      }
    }
  }

  /** A week: it fails exactly when a day has tasks and the directory is not a
      string. */
  lemma {:induction false} WeekOutFails(m: Month, embed: string, dir: Value, tags: Multimap<string, string>, week: seq<Date>)
    ensures WeekOut(m, embed, dir, tags, week).Success? <==> dir.Str? || TaskDays(tags, week) == []
    decreases |week|
  {
    if week != [] {
      DayOutSpec(m, embed, dir, tags, week[0]);
      WeekOutFails(m, embed, dir, tags, week[1..]);
    }
  }

  /** A week with a string directory: its cells are the cells of its days,
      and it writes the summary of each day with tasks, in order. */
  lemma {:induction false} WeekOutValue(m: Month, embed: string, dir: string, tags: Multimap<string, string>, week: seq<Date>)
    ensures WeekOut(m, embed, Str(dir), tags, week)
      == Success((CellsOf(m, dir, tags, week), SummaryFiles(m.path, dir, embed, tags, TaskDays(tags, week))))
    decreases |week|
  {
    if week != [] {
      DayOutSpec(m, embed, Str(dir), tags, week[0]);
      WeekOutValue(m, embed, dir, tags, week[1..]);
      WeekOutCons(m, embed, Str(dir), tags, week);
      CellsOfCons(m, dir, tags, week);
      TaskFilesCons(m.path, dir, embed, tags, week);
    }
  }

  /** One step of a week that goes through. */
  lemma WeekOutCons(m: Month, embed: string, dir: Value, tags: Multimap<string, string>, week: seq<Date>)
    requires week != []
    requires DayOut(m, embed, dir, tags, week[0]).Success?
    requires WeekOut(m, embed, dir, tags, week[1..]).Success?
    ensures var day := DayOut(m, embed, dir, tags, week[0]).value;
      var rest := WeekOut(m, embed, dir, tags, week[1..]).value;
      WeekOut(m, embed, dir, tags, week) == Success(([day.0] + rest.0, day.1 + rest.1))
  {
  }

  lemma CellsOfCons(m: Month, dir: string, tags: Multimap<string, string>, week: seq<Date>)
    requires week != []
    ensures CellsOf(m, dir, tags, week) == [CellOf(m, dir, tags, week[0])] + CellsOf(m, dir, tags, week[1..])
  {
  }

  lemma TaskFilesCons(path: string, dir: string, embed: string, tags: Multimap<string, string>, week: seq<Date>)
    requires week != []
    ensures SummaryFiles(path, dir, embed, tags, TaskDays(tags, week))
         == SummaryFiles(path, dir, embed, tags, TaskDays(tags, [week[0]]))
          + SummaryFiles(path, dir, embed, tags, TaskDays(tags, week[1..]))
  {
    TaskDaysAppend(tags, [week[0]], week[1..]);
    assert [week[0]] + week[1..] == week;
    SummaryFilesAppend(path, dir, embed, tags, TaskDays(tags, [week[0]]), TaskDays(tags, week[1..]));
  }

  /** A week: it fails exactly when a day has tasks and the directory is not a
      string; otherwise its cells are the cells of its days and it writes the
      summary of each day with tasks, in order. */
  lemma WeekOutSpec(m: Month, embed: string, dir: Value, tags: Multimap<string, string>, week: seq<Date>)
    ensures WeekOut(m, embed, dir, tags, week).Success? <==> dir.Str? || TaskDays(tags, week) == []
    ensures dir.Str? ==> (WeekOut(m, embed, dir, tags, week)
      == Success((CellsOf(m, dir.s, tags, week), SummaryFiles(m.path, dir.s, embed, tags, TaskDays(tags, week)))))
  {
    WeekOutFails(m, embed, dir, tags, week);
    if dir.Str? {
      WeekOutValue(m, embed, dir.s, tags, week);
    }
  }

  /** The whole table body: it fails exactly when some day has tasks and the
      directory is not a string; otherwise its rows are the rows of the weeks
      and it writes the summary of every day with tasks, in calendar order. */
  lemma {:induction false} WeeksOutSpec(m: Month, embed: string, dir: Value, tags: Multimap<string, string>, weeks: seq<seq<Date>>)
    ensures WeeksOut(m, embed, dir, tags, weeks).Success? <==> dir.Str? || TaskDays(tags, Days(weeks)) == []
    ensures dir.Str? ==> (WeeksOut(m, embed, dir, tags, weeks)
      == Success((RowsOf(m, dir.s, tags, weeks), SummaryFiles(m.path, dir.s, embed, tags, TaskDays(tags, Days(weeks))))))
    decreases |weeks|
  {
    if weeks != [] {
      WeekOutSpec(m, embed, dir, tags, weeks[0]);
      WeeksOutSpec(m, embed, dir, tags, weeks[1..]);
      TaskDaysAppend(tags, weeks[0], Days(weeks[1..]));
      if dir.Str? {
        SummaryFilesAppend(m.path, dir.s, embed, tags, TaskDays(tags, weeks[0]), TaskDays(tags, Days(weeks[1..])));
      }
    }
  }

  /** The view fails only on its settings, or on a directory that is not a
      string when some day has tasks; otherwise it is the header and the rows,
      and it writes one summary per day with tasks, in calendar order. */
  lemma CalSpec(m: Month, settings: Value, tags: Multimap<string, string>)
    requires m.weeks != []
    ensures Cal(m, settings, tags).Success? <==>
      CalSettings(settings).Success? &&
      (CalSettings(settings).value.1.Str? || TaskDays(tags, Days(m.weeks)) == [])
    ensures CalSettings(settings).Success? && CalSettings(settings).value.1.Str? ==>
      var (embed, dir) := CalSettings(settings).value;
      Cal(m, settings, tags) == Success((Header(m, m.weeks[0]) + RowsOf(m, dir.s, tags, m.weeks),
        SummaryFiles(m.path, dir.s, embed, tags, TaskDays(tags, Days(m.weeks)))))
  {
    if CalSettings(settings).Success? {
      var (embed, dir) := CalSettings(settings).value;
      WeeksOutSpec(m, embed, dir, tags, m.weeks);
    }
  }

  /** The settings: the embed marker is `!` exactly when truthy settings turn
      it on; the directory is the configured one when truthy, else `calendar`.
      Truthy settings must have both keys: a missing one is a `KeyError`, and
      settings that are not an object cannot be indexed at all. */
  lemma CalSettingsSpec(settings: Value)
    ensures !Truthy(settings) ==> CalSettings(settings) == Success(("", Str("calendar")))
    ensures CalSettings(settings).Failure? <==>
      Truthy(settings) &&
      (!settings.Obj? || !HasField(settings.fields, "embedPagesInDailyView") || !HasField(settings.fields, "calendarDirectory"))
    ensures Truthy(settings) && settings.Obj? && !HasField(settings.fields, "embedPagesInDailyView") ==>
      CalSettings(settings) == Failure(KeyError("embedPagesInDailyView"))
    ensures CalSettings(settings).Success? && Truthy(settings) ==>
      var e := FieldValue(settings.fields, "embedPagesInDailyView").value;
      var d := FieldValue(settings.fields, "calendarDirectory").value;
      CalSettings(settings).value == (if Truthy(e) then "!" else "", if Truthy(d) then d else Str("calendar"))
  {
  }

  /** A linked day keeps the table aligned: the spaces before its `[` and its
      digits fill the same three columns as a plain day number. */
  lemma LinkAligned(d: Date, dir: string)
    requires 1 <= d.day < 100
    ensures var digits := NatToString(d.day);
      && LinkCell(d, dir) == Repeat(" ", 3 - |digits|) + Link(d, dir)
      && PlainCell(d, d.month) == Repeat(" ", 3 - |digits|) + digits
  {
    var digits := NatToString(d.day);
    PadWidth(d.day);
    AppendAssoc(Repeat(" ", 1 - d.day / 10), " ", Link(d, dir));
    RepeatChar(' ', 3 - |digits|);
    assert Repeat([' '], 3 - |digits|) == Repeat(" ", 3 - |digits|);
  }

  lemma PadWidth(n: nat)
    requires 1 <= n < 100
    ensures Repeat(" ", 1 - n / 10) + " " == Repeat(" ", 3 - |NatToString(n)|)
  {
    if n < 10 {
      assert Repeat(" ", 1 - n / 10) == " ";
      assert Repeat(" ", 3 - |NatToString(n)|) == "  ";
    } else {
      assert Repeat(" ", 1 - n / 10) == "";
      assert Repeat(" ", 3 - |NatToString(n)|) == " ";
    }
  }

  /** A row is its cells joined by ` |`. */
  lemma RowCells(cells: seq<string>)
    ensures Row(cells) == Join(" |", cells) + "\n"
  {
    InterleaveJoin(" |", cells, 0);
    assert cells[0..] == cells;
  }

  /** `"--- | " * n + "---"` is a separator line of `n + 1` columns. */
  lemma {:induction false} SeparatorColumns(n: nat)
    ensures Repeat("--- | ", n) + "---" == Join(" | ", Copies("---", n + 1))
    decreases n
  {
    if n > 0 {
      SeparatorColumns(n - 1);
      var cs := Copies("---", n + 1);
      assert cs[1..] == Copies("---", n);
      assert Join(" | ", cs) == "---" + " | " + Join(" | ", Copies("---", n));
      AppendAssoc("--- | ", Repeat("--- | ", n - 1), "---");
      assert "--- | " == "---" + " | ";
    }
  }

  /** The header is a markdown table head: the day names joined by ` | `,
      then a separator line with one `---` column per day. */
  lemma HeaderColumns(m: Month, week: seq<Date>)
    requires week != []
    ensures Header(m, week) == Join(" | ", DayNames(m, week)) + "\n" + Join(" | ", Copies("---", |week|)) + "\n"
  {
    var names := DayNames(m, week);
    InterleaveJoin(" | ", names, 0);
    assert names[0..] == names;
    SeparatorColumns(|week| - 1);
    HeaderSplit(Join(" | ", names), Repeat("--- | ", |week| - 1));
  }

  lemma HeaderSplit(names: string, sep: string)
    ensures names + "\n" + sep + "---\n" == names + "\n" + (sep + "---") + "\n"
  {
    assert "---\n" == "---" + "\n";
    AppendAssoc(names + "\n", sep, "---\n");
    AppendAssoc(sep, "---", "\n");
    AppendAssoc(names + "\n", sep + "---", "\n");
  }

  /** A daily summary reads as its date in italics, a blank line, then one
      line per reference with the embed marker in front. */
  lemma SummaryLines(key: string, embed: string, refs: seq<string>)
    requires refs != []
    requires '\n' !in key && '\n' !in embed
    requires forall k :: 0 <= k < |refs| ==> '\n' !in refs[k]
    ensures SplitOn(SummaryText(key, embed, refs), '\n') == ["*" + key + "*", ""] + Prefixed(embed, refs) + [""]
  {
    var lines := Prefixed(embed, refs);
    var h := "*" + key + "*";
    var x := "*" + key + "*\n\n";
    var b := Join("\n" + embed, refs);
    JoinPrefixed(embed, "\n", refs);
    var body := Join("\n", lines);
    assert embed + b == body;
    var ls := [h, ""] + lines;
    assert ls[1..] == [""] + lines;
    assert ls[1..][1..] == lines;
    var j1 := Join("\n", ls[1..]);
    assert j1 == "" + "\n" + body;
    assert Join("\n", ls) == h + "\n" + j1;
    AppendAssoc(h, "\n", j1);
    AppendAssoc("\n", "\n", body);
    AppendAssoc(h, "\n\n", body);
    assert x == h + "\n\n";
    assert Join("\n", ls) == x + body;
    AppendAssoc(x, embed, b);
    assert SummaryText(key, embed, refs) == Join("\n", ls) + "\n";
    JoinThenNewline(ls);
    forall k | 0 <= k < |ls| ensures '\n' !in ls[k] {
      if k >= 2 {
        assert ls[k] == embed + refs[k - 2];
      }
    }
    SplitLines(ls);
  }

  /** A daily key is itself a date, so the tag summary never lists it. */
  lemma KeyIsDate(d: Date)
    requires d.year < 10000 && d.month < 100 && d.day < 100
    ensures |Key(d)| == 10
    ensures TagSummary.DateAt(Key(d), 0)
  {
    DashedDate(ZeroPad(d.year, 4), ZeroPad(d.month, 2), ZeroPad(d.day, 2));
  }

  /** Four digits, a dash, two digits, a dash and two digits make a date. */
  lemma DashedDate(y: string, mo: string, da: string)
    requires |y| == 4 && |mo| == 2 && |da| == 2
    requires forall i :: 0 <= i < |y| ==> IsDigit(y[i])
    requires forall i :: 0 <= i < |mo| ==> IsDigit(mo[i])
    requires forall i :: 0 <= i < |da| ==> IsDigit(da[i])
    ensures |y + "-" + mo + "-" + da| == 10
    ensures TagSummary.DateAt(y + "-" + mo + "-" + da, 0)
  {
    var k := y + "-" + mo + "-" + da;
    assert k[0] == y[0] && k[1] == y[1] && k[2] == y[2] && k[3] == y[3];
    assert k[4] == '-';
    assert k[5] == mo[0] && k[6] == mo[1];
    assert k[7] == '-';
    assert k[8] == da[0] && k[9] == da[1];
  }
}
