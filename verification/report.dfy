/** Writing the reports (`TagTracker.output` in tagtracker/tagtracker.py, and
    the run as a whole in `TagTracker.__call__`). Each target of the plan is
    a file `<dir>/<target>.md` that starts with a section line `----` and
    holds the text of each of its views in turn; the calendar view also
    writes daily summary files.

    A view entry with a truthy `filter` option replaces the workspace's tags
    by a lazy `filter` object before the view runs, and the replacement is
    never undone. A lazy filter has neither `items` nor `get`, so from then on
    the kanban, tag summary and calendar views raise `AttributeError`, in
    every later report too; only the last-opened view, which does not read
    the tags, still works. An exception ends the run; the report file being
    written keeps what was written before it. */
module Report {
  import opened Wrappers
  import opened Strings
  import opened Seqs
  import opened Multimap
  import opened Values
  import opened Registry
  import Config
  import Indexer
  import KanBan
  import TagSummary
  import Calendar

  /** The views that register themselves (tagtracker/views). */
  datatype View = CalView | KanBanView | LastOpenedView | TagSummaryView

  /** `view_options` once every view has registered itself, in the order
      the package imports them. */
  function Builtin(): map<string, View> {
    var withCal := Register(map[], "cal", CalView).0;
    var withKanBan := Register(withCal, "kanBan", KanBanView).0;
    var withLastOpened := Register(withKanBan, "lastOpened", LastOpenedView).0;
    Register(withLastOpened, "tagSummary", TagSummaryView).0
  }

  /** What the run reads besides the configuration and the notes: the notes
      directory, settings.json (`Null` when there is none), today's month as
      the calendar sees it, and the text of the last-opened view, which comes
      from Obsidian's own workspace file. */
  datatype Env = Env(
    dir: string,
    settings: Value,
    month: nat,
    weeks: seq<seq<Calendar.Date>>,
    dayName: Calendar.Date -> string,
    lastOpened: string)

  /** `workspace.tags`: the index, or the lazy filter object that replaced it. */
  datatype Tags = Indexed(index: Multimap<string, string>) | Filtered

  ghost predicate Usable(tags: Tags) {
    tags.Indexed? ==> Valid(tags.index)
  }

  type File = Calendar.File

  type Entry = Config.PlanEntry<View>

  function MonthOf(env: Env): Calendar.Month {
    Calendar.Month(env.dir, env.month, env.weeks, env.dayName)
  }

  /** One view: its text and the files it writes besides the report. */
  function RenderView(env: Env, v: View, tags: Tags, options: Option<Value>): (r: Result<(string, seq<File>), Error>)
    requires env.weeks != []
    requires Usable(tags)
    ensures v != CalView && r.Success? ==> r.value.1 == []
  {
    match v
    case CalView =>
      (match tags
       case Indexed(index) => Calendar.Cal(MonthOf(env), env.settings, index)
       case Filtered =>
         (match Calendar.CalSettings(env.settings)
          case Failure(e) => Failure(e)
          case Success(_) => Failure(AttributeError("get"))))
    case KanBanView =>
      (match tags
       case Indexed(index) =>
         var text :- KanBan.KanBan(options, Items(index));
         Success((text, []))
       case Filtered =>
         (match KanBan.Phases(options)
          case Failure(e) => Failure(e)
          case Success(_) => Failure(AttributeError("items"))))
    case TagSummaryView =>
      (match tags
       case Indexed(index) => Success((TagSummary.Summary(Items(index)), []))
       case Filtered => Failure(AttributeError("items")))
    case LastOpenedView => Success((env.lastOpened, []))
  }

  /** The entries of one report written in turn: the text, the other files,
      the workspace's tags afterwards, and the exception that stopped it. */
  datatype Written = Written(text: string, files: seq<File>, tags: Tags, error: Option<Error>)

  /** A filter on an entry replaces the tags before its view runs. */
  function After(tags: Tags, e: Entry): Tags {
    if e.filter.Some? then Filtered else tags
  }

  function WriteEntries(env: Env, tags: Tags, es: seq<Entry>): (r: Written)
    requires env.weeks != []
    requires Usable(tags)
    ensures Usable(r.tags)
    ensures tags.Filtered? ==> r.tags.Filtered?
    ensures r.error.None? && (exists i :: 0 <= i < |es| && es[i].filter.Some?) ==> r.tags.Filtered?
    decreases |es|
  {
    if es == [] then Written("", [], tags, None)
    else
      var now := After(tags, es[0]);
      match RenderView(env, es[0].view, now, es[0].options)
      case Failure(e) => Written("", [], now, Some(e))
      case Success((text, files)) =>
        var rest := WriteEntries(env, now, es[1..]);
        assert rest.error.None? && (exists i :: 0 <= i < |es| && es[i].filter.Some?) ==> rest.tags.Filtered? by {
          if rest.error.None? && now.Indexed? && exists i :: 0 <= i < |es| && es[i].filter.Some? {
            var i :| 0 <= i < |es| && es[i].filter.Some?;
            assert es[1..][i - 1].filter.Some?;
          }
        }
        Written(text + rest.text, files + rest.files, rest.tags, rest.error)
  }

  /** `os.path.join(self.dir, output_name + ".md")`. */
  function ReportPath(dir: string, name: string): string {
    PathJoin(dir, name + ".md")
  }

  /** The run so far: every file written, in order, the workspace's tags, and
      the exception that ended the run, if one did. */
  datatype Run = Run(files: seq<File>, tags: Tags, error: Option<Error>)

  /** One report. Its file is opened first and receives the section line and
      the views' texts; the daily summaries are written while it is open. A
      target that is not a string cannot be concatenated with `.md`. */
  function WriteReport(env: Env, target: Value, es: seq<Entry>, tags: Tags): (r: Run)
    requires env.weeks != []
    requires Usable(tags)
    ensures Usable(r.tags)
    ensures tags.Filtered? ==> r.tags.Filtered?
    ensures !target.Str? ==> r.error.Some? && r.files == []
    ensures target.Str? ==> r.files != [] && r.files[|r.files| - 1].0 == ReportPath(env.dir, target.s)
                            && StartsWith(r.files[|r.files| - 1].1, "----\n")
  {
    if !target.Str? then Run([], tags, Some(TypeError("can only concatenate str")))
    else
      var w := WriteEntries(env, tags, es);
      Run(w.files + [(ReportPath(env.dir, target.s), "----\n" + w.text)], w.tags, w.error)
  }

  /** The reports of the given targets, in order, until one fails. */
  function WriteAll(env: Env, plan: Config.Plan<View>, targets: seq<Value>, tags: Tags): (r: Run)
    requires env.weeks != []
    requires Usable(tags)
    ensures Usable(r.tags)
    ensures tags.Filtered? ==> r.tags.Filtered?
    decreases |targets|
  {
    if targets == [] then Run([], tags, None)
    else
      var first := WriteReport(env, targets[0], Get(plan, targets[0]), tags);
      if first.error.Some? then first
      else
        var rest := WriteAll(env, plan, targets[1..], first.tags);
        Run(first.files + rest.files, rest.tags, rest.error)
  }

  /** `TagTracker.output`: every target of the plan, in the order the
      configuration first named it. */
  function Output(env: Env, plan: Config.Plan<View>, index: Multimap<string, string>): Run
    requires env.weeks != []
    requires Valid(index)
  {
    WriteAll(env, plan, plan.keys, Indexed(index))
  }

  /** `TagTracker.__call__` with the registry `reg` (for the package's own
      views, `Builtin()`): the plan from config.json (the empty object when
      there is none), then the index of the notes, then the reports. */
  function Track(reg: map<string, View>, env: Env, config: Value, lk: Indexer.Linker, bs: seq<Indexer.Batch>): Run
    requires env.weeks != []
  {
    match Config.ParseConfig(reg, config)
    case Failure(e) => Run([], Indexed(Empty()), Some(e))
    case Success(plan) => Output(env, plan, Indexer.Index(lk, bs).index)
  }

  // ---------------------------------------------------------------------
  // An independent description of one report

  /** Whether some entry up to and including `i` carries a filter. */
  predicate FilterBy(es: seq<Entry>, i: int) {
    exists j :: 0 <= j <= i && j < |es| && es[j].filter.Some?
  }

  /** The tags entry `i` sees. */
  function TagsAt(tags: Tags, es: seq<Entry>, i: int): Tags {
    if FilterBy(es, i) then Filtered else tags
  }

  /** What the view of entry `i` yields. */
  function Outcome(env: Env, tags: Tags, es: seq<Entry>, i: nat): Result<(string, seq<File>), Error>
    requires env.weeks != []
    requires Usable(tags)
    requires i < |es|
  {
    RenderView(env, es[i].view, TagsAt(tags, es, i), es[i].options)
  }

  /** The views before `k` all succeed. */
  ghost predicate SucceedBefore(env: Env, tags: Tags, es: seq<Entry>, k: nat)
    requires env.weeks != []
    requires Usable(tags)
  {
    k <= |es| && forall i :: 0 <= i < k ==> Outcome(env, tags, es, i).Success?
  }

  /** Their texts. */
  function TextsBefore(env: Env, tags: Tags, es: seq<Entry>, k: nat): (r: seq<string>)
    requires env.weeks != []
    requires Usable(tags)
    requires SucceedBefore(env, tags, es, k)
    ensures |r| == k
    ensures forall i :: 0 <= i < k ==> r[i] == Outcome(env, tags, es, i).value.0
  {
    seq(k, i requires 0 <= i < k => Outcome(env, tags, es, i).value.0)
  }

  /** The files they write. */
  function FilesBefore(env: Env, tags: Tags, es: seq<Entry>, k: nat): (r: seq<seq<File>>)
    requires env.weeks != []
    requires Usable(tags)
    requires SucceedBefore(env, tags, es, k)
    ensures |r| == k
    ensures forall i :: 0 <= i < k ==> r[i] == Outcome(env, tags, es, i).value.1
  {
    seq(k, i requires 0 <= i < k => Outcome(env, tags, es, i).value.1)
  }

  // ---------------------------------------------------------------------
  // Properties

  /** Dropping the first entry: the rest sees the tags the first one left. */
  lemma TagsAtTail(tags: Tags, es: seq<Entry>, i: nat)
    requires i + 1 < |es|
    ensures TagsAt(tags, es, i + 1) == TagsAt(After(tags, es[0]), es[1..], i)
  {
    if FilterBy(es, i + 1) && es[0].filter.None? {
      var j :| 0 <= j <= i + 1 && j < |es| && es[j].filter.Some?;
      assert es[1..][j - 1].filter.Some?;
    }
    if FilterBy(es[1..], i) {
      var j :| 0 <= j <= i && j < |es[1..]| && es[1..][j].filter.Some?;
      assert es[j + 1].filter.Some?;
    }
  }

  /** A report's entries are written up to the first view that fails: the
      text is the texts of the views before it, the files theirs, and the
      exception is that view's; with no failing view everything is written.
      Each view sees the tags as the filters of the entries up to its own
      left them. */
  lemma {:induction false} WriteEntriesSpec(env: Env, tags: Tags, es: seq<Entry>, k: nat)
    requires env.weeks != []
    requires Usable(tags)
    requires SucceedBefore(env, tags, es, k)
    requires k < |es| ==> Outcome(env, tags, es, k).Failure?
    ensures WriteEntries(env, tags, es).text == Concat(TextsBefore(env, tags, es, k))
    ensures WriteEntries(env, tags, es).files == Flat(FilesBefore(env, tags, es, k))
    ensures WriteEntries(env, tags, es).error ==
      (if k < |es| then Some(Outcome(env, tags, es, k).error) else None)
    decreases |es|
  {
    if es != [] {
      var now := After(tags, es[0]);
      assert TagsAt(tags, es, 0) == now by {
        assert FilterBy(es, 0) <==> es[0].filter.Some?;
      }
      if k > 0 {
        forall i | 0 <= i < k - 1
          ensures Outcome(env, now, es[1..], i) == Outcome(env, tags, es, i + 1)
        {
          TagsAtTail(tags, es, i);
        }
        if k - 1 < |es[1..]| {
          TagsAtTail(tags, es, k - 1);
        }
        assert SucceedBefore(env, now, es[1..], k - 1);
        WriteEntriesSpec(env, now, es[1..], k - 1);
        var texts := TextsBefore(env, tags, es, k);
        var files := FilesBefore(env, tags, es, k);
        assert texts[1..] == TextsBefore(env, now, es[1..], k - 1);
        assert files[1..] == FilesBefore(env, now, es[1..], k - 1);
      }
    }
  }

  /** Once the tags have been replaced, only the last-opened view works: the
      kanban view still fails on its options first, the calendar on its
      settings, and otherwise on the missing `items` or `get`. */
  lemma FilteredView(env: Env, v: View, options: Option<Value>)
    requires env.weeks != []
    ensures RenderView(env, v, Filtered, options).Success? <==> v == LastOpenedView
    ensures v == TagSummaryView ==> RenderView(env, v, Filtered, options) == Failure(AttributeError("items"))
    ensures v == KanBanView && KanBan.Phases(options).Success? ==>
      RenderView(env, v, Filtered, options) == Failure(AttributeError("items"))
    ensures v == CalView && Calendar.CalSettings(env.settings).Success? ==>
      RenderView(env, v, Filtered, options) == Failure(AttributeError("get"))
  {
  }

  /** A filter in one report breaks the kanban, tag summary and calendar
      views of every later report. */
  lemma FilterOutlivesReport(env: Env, plan: Config.Plan<View>, targets: seq<Value>, tags: Tags)
    requires env.weeks != []
    requires Usable(tags)
    requires targets != [] && targets[0].Str?
    requires WriteReport(env, targets[0], Get(plan, targets[0]), tags).error.None?
    requires exists i :: 0 <= i < |Get(plan, targets[0])| && Get(plan, targets[0])[i].filter.Some?
    ensures WriteReport(env, targets[0], Get(plan, targets[0]), tags).tags == Filtered
    ensures WriteAll(env, plan, targets, tags)
         == (var first := WriteReport(env, targets[0], Get(plan, targets[0]), tags);
             var rest := WriteAll(env, plan, targets[1..], Filtered);
             Run(first.files + rest.files, rest.tags, rest.error))
  {
  }

  /** The report file is named after its target, with `.md` appended. */
  lemma ReportName(dir: string, name: string)
    requires '/' !in name
    ensures LastSegment(ReportPath(dir, name)) == name + ".md"
  {
    LastSegmentOfJoin(dir, name + ".md");
  }

  /** The files of one report when none of its views fails. */
  function ReportFiles(env: Env, name: string, tags: Tags, es: seq<Entry>): seq<File>
    requires env.weeks != []
    requires Usable(tags)
    requires SucceedBefore(env, tags, es, |es|)
  {
    Flat(FilesBefore(env, tags, es, |es|))
      + [(ReportPath(env.dir, name), "----\n" + Concat(TextsBefore(env, tags, es, |es|)))]
  }

  /** A report whose views all succeed writes their files and then the report
      itself: the section line followed by every view's text, in order. */
  lemma ReportSpec(env: Env, name: string, es: seq<Entry>, tags: Tags)
    requires env.weeks != []
    requires Usable(tags)
    requires SucceedBefore(env, tags, es, |es|)
    ensures WriteReport(env, Str(name), es, tags).files == ReportFiles(env, name, tags, es)
    ensures WriteReport(env, Str(name), es, tags).error.None?
  {
    WriteEntriesSpec(env, tags, es, |es|);
  }

  /** No entry of the plan's reports carries a filter. */
  predicate Unfiltered(plan: Config.Plan<View>, targets: seq<Value>) {
    forall t, i :: t in targets && 0 <= i < |Get(plan, t)| ==> Get(plan, t)[i].filter.None?
  }

  /** With no filter the tags are never replaced. */
  lemma {:induction false} NoFilterKeepsIndex(env: Env, tags: Tags, es: seq<Entry>)
    requires env.weeks != []
    requires Usable(tags)
    requires forall i :: 0 <= i < |es| ==> es[i].filter.None?
    ensures WriteEntries(env, tags, es).tags == tags
    decreases |es|
  {
    if es != [] {
      NoFilterKeepsIndex(env, tags, es[1..]);
    }
  }

  /** Every report of the plan can be written: its target is a string and
      each of its views succeeds. */
  ghost predicate Writable(env: Env, plan: Config.Plan<View>, targets: seq<Value>, index: Multimap<string, string>)
    requires env.weeks != []
    requires Valid(index)
  {
    forall t :: t in targets ==> t.Str? && SucceedBefore(env, Indexed(index), Get(plan, t), |Get(plan, t)|)
  }

  /** The files the reports write when nothing fails. */
  function AllFiles(env: Env, plan: Config.Plan<View>, targets: seq<Value>, index: Multimap<string, string>): seq<File>
    requires env.weeks != []
    requires Valid(index)
    requires Writable(env, plan, targets, index)
    decreases |targets|
  {
    if targets == [] then []
    else ReportFiles(env, targets[0].s, Indexed(index), Get(plan, targets[0])) + AllFiles(env, plan, targets[1..], index)
  }

  /** Without filters, and with every report writable, the run ends cleanly
      and writes each report in plan order, each after its daily summaries. */
  lemma {:induction false} OutputSpec(env: Env, plan: Config.Plan<View>, targets: seq<Value>, index: Multimap<string, string>)
    requires env.weeks != []
    requires Valid(index)
    requires Unfiltered(plan, targets)
    requires Writable(env, plan, targets, index)
    ensures WriteAll(env, plan, targets, Indexed(index)) == Run(AllFiles(env, plan, targets, index), Indexed(index), None)
    decreases |targets|
  {
    if targets != [] {
      var es := Get(plan, targets[0]);
      assert targets[0] in targets;
      ReportSpec(env, targets[0].s, es, Indexed(index));
      NoFilterKeepsIndex(env, Indexed(index), es);
      assert Unfiltered(plan, targets[1..]) by {
        forall t, i | t in targets[1..] && 0 <= i < |Get(plan, t)| ensures Get(plan, t)[i].filter.None? {
          assert t in targets;
        }
      }
      OutputSpec(env, plan, targets[1..], index);
    }
  }

  /** A target that is not a string ends the run there: the run fails, and
      when the reports before it are written cleanly, the run's files are
      exactly theirs and nothing after, with the type error of that target. */
  lemma {:induction false} BadTargetStops(env: Env, plan: Config.Plan<View>, targets: seq<Value>, tags: Tags, k: nat)
    requires env.weeks != []
    requires Usable(tags)
    requires k < |targets| && !targets[k].Str?
    ensures WriteAll(env, plan, targets, tags).error.Some?
    ensures
      var before := WriteAll(env, plan, targets[..k], tags);
      before.error.None? ==>
        WriteAll(env, plan, targets, tags) == Run(before.files, before.tags, Some(TypeError("can only concatenate str")))
    decreases k
  {
    if k > 0 {
      var first := WriteReport(env, targets[0], Get(plan, targets[0]), tags);
      assert targets[..k][0] == targets[0];
      assert targets[..k][1..] == targets[1..][..k - 1];
      if first.error.None? {
        BadTargetStops(env, plan, targets[1..], first.tags, k - 1);
      }
    }
  }

  /** A configuration the plan cannot be built from stops the run before
      anything is written. Otherwise the reports are those of the plan: its
      targets in the order the configuration first uses them, each with the
      entries configured for it, in file order, over the index of the notes. */
  lemma TrackSpec(reg: map<string, View>, env: Env, config: Value, lk: Indexer.Linker, bs: seq<Indexer.Batch>)
    requires env.weeks != []
    ensures Config.ParseConfig(reg, config).Success? <==> Accepted(reg, config)
    ensures !Accepted(reg, config) ==>
      && Track(reg, env, config, lk, bs).files == []
      && Track(reg, env, config, lk, bs).tags == Indexed(Empty())
      && Track(reg, env, config, lk, bs).error.Some?
    ensures Accepted(reg, config) ==>
      var cs := Config.Flatten(config.fields).value;
      var plan := Config.ParseConfig(reg, config).value;
      && Track(reg, env, config, lk, bs) == Output(env, plan, Indexer.Index(lk, bs).index)
      && plan.keys == FirstOccurrences(Config.Targets(cs), {})
      && forall t :: Get(plan, t) == Config.EntriesFor(reg, cs, t)
  {
    Config.ParseConfigSucceeds(reg, config);
    if Accepted(reg, config) {
      var cs := Config.Flatten(config.fields).value;
      var plan := Config.ParseConfig(reg, config).value;
      Config.ParseConfigTargets(reg, config);
      forall t ensures Get(plan, t) == Config.EntriesFor(reg, cs, t) {
        Config.ParseConfigPlan(reg, config, t);
      }
    }
  }

  /** Both levels of the configuration are objects and every view it names
      is registered and has options the code can read. */
  predicate Accepted(reg: map<string, View>, config: Value) {
    && config.Obj?
    && Config.Flatten(config.fields).Some?
    && forall i :: 0 <= i < |Config.Flatten(config.fields).value| ==>
         Config.Routable(reg, Config.Flatten(config.fields).value[i])
  }

  /** A daily tag never shows in the tag summary of a report: the calendar
      links it instead. */
  lemma DailyTagsOnlyInCalendar(index: Multimap<string, string>, d: Calendar.Date)
    requires Valid(index)
    requires d.year < 10000 && d.month < 100 && d.day < 100
    ensures forall refs :: (Calendar.Key(d), refs) !in TagSummary.Ordered(Items(index))
  {
    Calendar.KeyIsDate(d);
    forall refs ensures (Calendar.Key(d), refs) !in TagSummary.Ordered(Items(index)) {
      TagSummary.DatedTagOmitted(Items(index), Calendar.Key(d), refs, 0);
    }
  }
}
