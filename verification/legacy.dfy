/** The two single-file versions of the tracker, src/tag-tracker.py and
    script.py. They index the notes as the package does (markdown links and
    wiki links respectively; see `Indexer.RefStyle`) and write one report with
    a fixed layout: the section line, the calendar with its daily summaries in
    the directory `-`, the kanban board of the three default phases, the
    last-opened list, and a list of tags. */
module Legacy {
  import opened Wrappers
  import opened Strings
  import opened Seqs
  import opened Sorting
  import opened Multimap
  import opened Values
  import KanBan
  import TagSummary
  import Calendar
  import Report

  type Item = (string, seq<string>)

  type File = Calendar.File

  /** What a run wrote, and the exception that ended it, if one did. */
  datatype Written = Written(files: seq<File>, error: Option<Error>)

  /** The kanban board both scripts write: `self.phases` are the default phases. */
  function Board(items: seq<Item>): (r: string)
    ensures KanBan.KanBan(None, items) == Success(r)
  {
    KanBan.RenderFails(Arr(KanBan.DefaultPhases), items);
    KanBan.Render(Arr(KanBan.DefaultPhases), items).value
  }

  /** `self.calendar()`: the calendar with the default directory `-`, which is
      a string, so it cannot fail once the embed marker is known. */
  function DashCalendar(env: Report.Env, embed: string, index: Multimap<string, string>): (r: (string, seq<File>))
    requires env.weeks != []
    ensures Calendar.CalendarOut(Report.MonthOf(env), embed, Str("-"), index) == Success(r)
  {
    Calendar.WeeksOutSpec(Report.MonthOf(env), embed, Str("-"), index, env.weeks);
    Calendar.CalendarOut(Report.MonthOf(env), embed, Str("-"), index).value
  }

  // ---------------------------------------------------------------------
  // src/tag-tracker.py

  /** `TagTracker.output` of src/tag-tracker.py. The report file is opened and
      the section line written before the calendar reads the settings; the
      calendar then reads `embedPagesInDailyView` whenever the settings are
      truthy. */
  function SrcOutput(env: Report.Env, outputName: string, index: Multimap<string, string>): Written
    requires env.weeks != []
    requires Valid(index)
  {
    var path := PathJoin(env.dir, outputName);
    match Calendar.Embed(env.settings)
    case Failure(e) => Written([(path, "----\n")], Some(e))
    case Success(embed) =>
      var (cal, summaries) := DashCalendar(env, embed, index);
      var items := Items(index);
      Written(summaries + [(path, "----\n" + cal + Board(items) + env.lastOpened + TagSummary.Summary(items))], None)
  }

  // ---------------------------------------------------------------------
  // script.py

  /** A character that puts a digit into Python's `repr` of a string: an
      ASCII digit, or a character written as `\xNN` whose hex digits include
      a decimal one (the control characters other than tab, line feed and
      carriage return, which are written `\t`, `\n` and `\r`, and the range
      `\x7f` to `\xa0`). */
  predicate ShowsDigit(c: char) {
    || IsDigit(c)
    || (c < ' ' && c != '\t' && c != '\n' && c != '\r')
    || (0x7f <= c as int <= 0xa0)
  }

  predicate HasShownDigit(s: string) {
    exists k :: 0 <= k < |s| && ShowsDigit(s[k])
  }

  /** `re.search(r"\d", str(i))` on a tag and its references: the tuple's
      `repr` quotes the tag and each reference, and adds no digit of its own. */
  predicate ReprHasDigit(i: Item) {
    HasShownDigit(i.0) || exists j :: 0 <= j < |i.1| && HasShownDigit(i.1[j])
  }

  /** The tags script.py lists. */
  predicate Listed(i: Item) {
    !ReprHasDigit(i)
  }

  /** The sort key `i[1]`: the list of references itself. */
  function Refs(i: Item): seq<string> {
    i.1
  }

  /** The listed tags, ordered by their lists of references, ascending. */
  function ScriptOrdered(items: seq<Item>): seq<Item> {
    SortBy(Filter(items, Listed), Refs, StrsLess)
  }

  /** The tag list of script.py: the same line as the tag summary view, over
      other tags in another order. */
  function TagList(items: seq<Item>): string {
    TagSummary.Header + Join(", ", TagSummary.Entries(ScriptOrdered(items))) + TagSummary.Footer
  }

  /** `TagTracker.output` of script.py. It reads no settings, so no embed
      marker is ever written and nothing can fail. Here `env.lastOpened`
      stands for the text of script.py's own `last_opened`, which writes
      wiki links and reads a fixed `.obsidian/workspace.json`. */
  function ScriptOutput(env: Report.Env, outputPath: string, index: Multimap<string, string>): seq<File>
    requires env.weeks != []
    requires Valid(index)
  {
    var (cal, summaries) := DashCalendar(env, "", index);
    var items := Items(index);
    summaries + [(PathJoin(env.dir, outputPath), "----\n" + cal + Board(items) + env.lastOpened + TagList(items))]
  }

  // ---------------------------------------------------------------------
  // Properties

  /** src/tag-tracker.py fails only when truthy settings lack the embed key
      or cannot be indexed, and then leaves the report with the section line
      alone. Otherwise it writes the summary of every day with tasks into
      `-`, then the report: the calendar's header and rows, the default
      board, the last-opened list and the tag summary. */
  lemma SrcOutputSpec(env: Report.Env, outputName: string, index: Multimap<string, string>)
    requires env.weeks != []
    requires Valid(index)
    ensures Calendar.Embed(env.settings).Failure? ==>
      SrcOutput(env, outputName, index)
        == Written([(PathJoin(env.dir, outputName), "----\n")], Some(Calendar.Embed(env.settings).error))
    ensures Calendar.Embed(env.settings).Success? ==>
      var m := Report.MonthOf(env);
      var embed := Calendar.Embed(env.settings).value;
      var items := Items(index);
      SrcOutput(env, outputName, index) == Written(
        Calendar.SummaryFiles(env.dir, "-", embed, index, Calendar.TaskDays(index, Calendar.Days(env.weeks)))
          + [(PathJoin(env.dir, outputName),
              "----\n" + (Calendar.Header(m, env.weeks[0]) + Calendar.RowsOf(m, "-", index, env.weeks))
                + Board(items) + env.lastOpened + TagSummary.Summary(items))],
        None)
  {
    if Calendar.Embed(env.settings).Success? {
      Calendar.WeeksOutSpec(Report.MonthOf(env), Calendar.Embed(env.settings).value, Str("-"), index, env.weeks);
    }
  }

  /** The four views of the package, without options, over the index. The
      board, the last-opened text and the tag list are always the script's;
      the calendar is the script's when the settings set the calendar
      directory to `-`. */
  lemma ViewsWithDash(env: Report.Env, index: Multimap<string, string>)
    requires env.weeks != []
    requires Valid(index)
    ensures Calendar.CalSettings(env.settings).Success? && Calendar.CalSettings(env.settings).value.1 == Str("-") ==>
      Report.RenderView(env, Report.CalView, Report.Indexed(index), None)
        == Success(DashCalendar(env, Calendar.CalSettings(env.settings).value.0, index))
    ensures Report.RenderView(env, Report.KanBanView, Report.Indexed(index), None) == Success((Board(Items(index)), []))
    ensures Report.RenderView(env, Report.LastOpenedView, Report.Indexed(index), None) == Success((env.lastOpened, []))
    ensures Report.RenderView(env, Report.TagSummaryView, Report.Indexed(index), None)
         == Success((TagSummary.Summary(Items(index)), []))
  {
  }

  /** src/tag-tracker.py writes what the package writes for a report of the
      views `cal`, `kanBan`, `lastOpened` and `tagSummary`, without options,
      when the settings set the calendar directory to `-`. */
  lemma SrcAsViews(env: Report.Env, outputName: string, index: Multimap<string, string>)
    requires env.weeks != []
    requires Valid(index)
    requires Calendar.CalSettings(env.settings).Success?
    requires Calendar.CalSettings(env.settings).value.1 == Str("-")
    ensures Report.RenderView(env, Report.CalView, Report.Indexed(index), None).Success?
    ensures Report.RenderView(env, Report.KanBanView, Report.Indexed(index), None).Success?
    ensures var cal := Report.RenderView(env, Report.CalView, Report.Indexed(index), None).value;
      var texts := [cal.0,
                    Report.RenderView(env, Report.KanBanView, Report.Indexed(index), None).value.0,
                    Report.RenderView(env, Report.LastOpenedView, Report.Indexed(index), None).value.0,
                    Report.RenderView(env, Report.TagSummaryView, Report.Indexed(index), None).value.0];
      SrcOutput(env, outputName, index)
        == Written(cal.1 + [(PathJoin(env.dir, outputName), "----\n" + Concat(texts))], None)
  {
    ViewsWithDash(env, index);
    var items := Items(index);
    var (embed, dir) := Calendar.CalSettings(env.settings).value;
    var (cal, summaries) := DashCalendar(env, embed, index);
    ConcatFour("----\n", cal, Board(items), env.lastOpened, TagSummary.Summary(items));
  }

  lemma ConcatFour(p: string, a: string, b: string, c: string, d: string)
    ensures p + Concat([a, b, c, d]) == p + a + b + c + d
  {
    var xs := [a, b, c, d];
    assert Concat(xs[3..]) == d;
    assert Concat(xs[2..]) == c + d;
    assert Concat(xs[1..]) == b + (c + d);
    assert Concat(xs) == a + (b + (c + d));
    AppendAssoc(b, c, d);
    AppendAssoc(a, b + c, d);
    AppendAssoc(a, b, c);
    AppendAssoc(p, a + b + c, d);
    AppendAssoc(p, a + b, c);
    AppendAssoc(p, a, b);
  }

  /** script.py lists exactly the tags whose `repr` shows no digit, each as
      often as it occurs, in non-decreasing order of their reference lists,
      and tags with equal lists in index order. */
  lemma ScriptOrderedSpec(items: seq<Item>, refs: seq<string>)
    ensures multiset(ScriptOrdered(items)) == multiset(Filter(items, Listed))
    ensures forall x :: x in ScriptOrdered(items) <==> x in items && Listed(x)
    ensures forall i, j :: 0 <= i < j < |ScriptOrdered(items)| ==>
      !StrsLess(ScriptOrdered(items)[j].1, ScriptOrdered(items)[i].1)
    ensures WithKey(ScriptOrdered(items), Refs, refs) == Filter(Filter(items, Listed), KeyIs(Refs, refs))
  {
    var kept := Filter(items, Listed);
    StrOrders();
    SortBySorted(kept, Refs, StrsLess);
    SortByStable(kept, Refs, StrsLess, refs);
    forall x ensures x in ScriptOrdered(items) <==> x in items && Listed(x) {
      calc {
        x in ScriptOrdered(items);
        x in multiset(ScriptOrdered(items));
        x in multiset(kept);
        x in kept;
      }
    }
  }

  /** A digit in a tag or in one of its references keeps the tag off
      script.py's list; in particular every daily tag is left off. */
  lemma DigitDropped(items: seq<Item>, tag: string, refs: seq<string>)
    requires HasShownDigit(tag) || exists j :: 0 <= j < |refs| && HasShownDigit(refs[j])
    ensures (tag, refs) !in ScriptOrdered(items)
  {
    ScriptOrderedSpec(items, []);
  }

  /** Every tag script.py lists is also in the tag summary; the converse
      fails: `v2` carries no date but does carry a digit. */
  lemma ScriptListsFewer(items: seq<Item>)
    ensures forall x :: x in ScriptOrdered(items) ==> x in TagSummary.Ordered(items)
    ensures ("v2", []) in items ==> ("v2", []) in TagSummary.Ordered(items) && ("v2", []) !in ScriptOrdered(items)
  {
    ScriptOrderedSpec(items, []);
    TagSummary.OrderedSpec(items, 0);
    forall x | x in ScriptOrdered(items) ensures TagSummary.Undated(x) {
      if !TagSummary.Undated(x) {
        TagSummary.ContainsDateSpec(x.0);
        var i :| TagSummary.DateAt(x.0, i);
        assert ShowsDigit(x.0[i]);
      }
    }
    var v2: Item := ("v2", []);
    assert ShowsDigit(v2.0[1]);
  }

  /** A daily summary of script.py is the shared summary with no embed
      marker: the date, a blank line, and one reference per line. */
  lemma ScriptSummary(key: string, refs: seq<string>)
    ensures Calendar.SummaryText(key, "", refs) == "*" + key + "*\n\n" + Join("\n", refs) + "\n"
  {
    assert "\n" + "" == "\n";
    assert "*" + key + "*\n\n" + "" == "*" + key + "*\n\n";
  }

  /** script.py writes the summary of every day with tasks into `-`, without
      embed marker, then the report: the calendar's header and rows, the
      default board, the last-opened list and its own tag list. */
  lemma ScriptOutputSpec(env: Report.Env, outputPath: string, index: Multimap<string, string>)
    requires env.weeks != []
    requires Valid(index)
    ensures var m := Report.MonthOf(env);
      var items := Items(index);
      ScriptOutput(env, outputPath, index)
        == Calendar.SummaryFiles(env.dir, "-", "", index, Calendar.TaskDays(index, Calendar.Days(env.weeks)))
          + [(PathJoin(env.dir, outputPath),
              "----\n" + (Calendar.Header(m, env.weeks[0]) + Calendar.RowsOf(m, "-", index, env.weeks))
                + Board(items) + env.lastOpened + TagList(items))]
  {
    Calendar.WeeksOutSpec(Report.MonthOf(env), "", Str("-"), index, env.weeks);
  }
}
