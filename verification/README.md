# TagTracker in Dafny

TagTracker reads a directory of markdown notes, collects every `#tag` it
finds, and writes markdown reports built from views.

**Indexing.** A tag maps to the list of references to the files it occurs
in, one reference per occurrence, and the tags keep the order in which they
were first seen.

**The package's views.**
- Kanban board: the tags that name a phase.
- Tag summary: every undated tag with its count.
- Calendar: the current month as a table, linking each day that is a tag to a
  daily summary file.
- Last-opened list.

**Configuration.** The package's `config.json` decides which views go into
which report file.

**Legacy scripts.** The two single-file scripts, `src/tag-tracker.py` and
`script.py`, write one report with a fixed layout.

## What the modules cover

| module | covers |
|---|---|
| `Tags` | Tag extraction. `#\S+` is matched left to right, the leading `#` is stripped, and a tag still holding a `#` is dropped. |
| `Indexer` | The recursive `index` walk. A path is visited once, only names containing `.md` are read, and references are written as markdown links (package, `src/tag-tracker.py`) or wiki links (`script.py`). The directory walk is given as a list of batches, one per step of `os.walk`, in the order the recursive calls process them. |
| `Registry` | The `view` decorator. A view is stored under its own name, its lower-cased name, its kebab-case name and its snake_case name. |
| `Values` | The JSON values that `config.json` and `settings.json` hold. Also covers Python truthiness, and the `in`, `[]` and `.get` behaviour that the code relies on. |
| `Config` | `__parse_config`. It turns the configuration into a plan: report target → (view, filter, options) entries. |
| `KanBan` | The kanban view. |
| `TagSummary` | The tag summary view. |
| `Calendar` | The calendar view and its daily summary files. |
| `Report` | `output` and `__call__`. It writes each report of the plan, and covers what a `filter` option does to the workspace. |
| `Legacy` | The `output` methods of the two scripts, including their built-in calendar, board and tag list. |

The support modules are `Wrappers`, `Strings`, `Seqs`, `Multimap` and
`Sorting`:
- `Multimap` models a `defaultdict(list)` together with its insertion order.
- `Sorting` models Python's stable `sorted`, including `reverse=True`, and the
  lexicographic order of strings and of lists of strings.

Exceptions the code raises are `Failure` values of a `Result`: `KeyError`,
`TypeError` and `AttributeError`. A run stops at the first one. The report
file being written then keeps the text already written to it.

## Model

| member | source | states |
|---|---|---|
| Tags.ExtractTagsSeparated | tagtracker/tagtracker.py:120-126 | Text split at a whitespace character yields the tags of the part before it followed by the tags of the part after it. |
| Tags.WholeWordToken | tagtracker/tagtracker.py:120 | A whitespace-free word that starts with `#` and has at least one more character is matched as one whole token. |
| Tags.PlainTagWord | tagtracker/tagtracker.py:120-126 | The word `#t` yields exactly the tag `t` when `t` is non-empty and has no `#` and no whitespace. |
| Tags.HeadingWordYieldsNothing | tagtracker/tagtracker.py:124-126 | A heading-style word `##...` yields no tag. |
| Tags.NoHashNoTags | tagtracker/tagtracker.py:120 | Text without `#` yields no tag. |
| Tags.WordTags | tagtracker/tagtracker.py:120-126 | A whitespace-free word, wherever its `#` stands, yields the text after its `#` when it holds exactly one `#` and that `#` is not its last character, and nothing otherwise. |
| Tags.InWordHash | tagtracker/tagtracker.py:120-126 | A `#` inside a word also starts a tag: `page#sec` yields `sec`. |
| Tags.DoubledHashWord | tagtracker/tagtracker.py:120-126 | A word holding `##` anywhere yields nothing. |
| Indexer.IndexRefs | tagtracker/tagtracker.py:87-133 | Each tag's list holds one reference per occurrence. The occurrences come from the files read, in walk order, and each path is read at most once across all recursive calls. |
| Indexer.IndexKeys | tagtracker/tagtracker.py:120-129 | The index lists its tags in the order they first occur in the files read. |
| Indexer.IndexKeysAreTags | tagtracker/tagtracker.py:123-129 | Every key of the index is non-empty and has no `#` and no whitespace. |
| Indexer.IndexOpensOnce | tagtracker/tagtracker.py:102-119 | No path is read twice. Exactly the new paths whose names contain `.md` are read, in walk order, and every listed path ends up in `found_files`. |
| Indexer.SkippedBatchNoEffect | tagtracker/tagtracker.py:96-97 | A call on a non-directory, or on a path containing `.git`, changes nothing, wherever it happens in the walk. |
| Indexer.NonMarkdownOnlyFound | tagtracker/tagtracker.py:106-111 | A file whose name lacks `.md` is only recorded as found. |
| Indexer.VisitEntryIndex | tagtracker/tagtracker.py:105-129 | A path already found changes nothing. A new path adds its references to each tag's list and adds its new tags at the end of the key order. |
| Indexer.ReferenceOfListing | tagtracker/tagtracker.py:127-128 | A reference shows the file's name minus its last three characters. Its link target has no spaces. When the relative path has no `%`, the target decodes back to it. |
| Registry.Register | tagtracker/setup.py:30-38 | The decorator adds exactly the four keys of the name, maps them to the view, keeps every other key, and returns the view unchanged. |
| Registry.TwoWordKeys | tagtracker/setup.py:25-36 | For a camelCase name `aBc`, the keys are `aBc`, `abc`, `a-bc` and `a_bc`. |
| Registry.NoCapitalsOneKey | tagtracker/setup.py:33-36 | A name without capitals is stored under the one key, four times. |
| Registry.KanBanKeys | tagtracker/views/kan_ban.py:4-5 | The kanban view is reachable as `kanBan`, `kanban`, `kan-ban` and `kan_ban`. |
| Registry.TagSummaryKeys | tagtracker/views/tag_summary.py:5-6 | The tag summary view is reachable as `tagSummary`, `tagsummary`, `tag-summary` and `tag_summary`. |
| Registry.LastOpenedKeys | tagtracker/views/last_opened.py:7-8 | The last-opened view is reachable as `lastOpened`, `lastopened`, `last-opened` and `last_opened`. |
| Registry.CamelKebab | tagtracker/setup.py:25-35 | The kebab-case key loses no information: reading it back as camelCase gives the name again. |
| Registry.KeysStart | tagtracker/setup.py:25-36 | Every key of a name that does not start with a capital starts with the name's first character. |
| Registry.OtherInitialKept | tagtracker/setup.py:30-36 | Registering a name whose first character is not a capital leaves alone every key that starts with another character. So views whose names start with different non-capital characters never override each other. |
| Registry.RegisterOverrides | tagtracker/setup.py:33-36 | When two names share a key, the later registration wins that key. The other keys keep the earlier view. |
| Config.RouteSpec | tagtracker/tagtracker.py:66-83 | A configured view fails exactly when its name is not registered, its options cannot be searched for `filter`/`path`, or its target cannot be a dict key. An unregistered name is a `KeyError` naming it, raised before the options are read. Otherwise it yields its target, its view, its filter and its options. |
| Config.RouteViewsSpec | tagtracker/tagtracker.py:66-83 | One output's views all route, in order, or the first unroutable one fails. |
| Config.RouteOutputsSpec | tagtracker/tagtracker.py:63-83 | Every output's views route in file order, or the run fails. It fails exactly when a level is not an object or some view is unroutable. |
| Config.RoutedValues | tagtracker/tagtracker.py:80-83 | The routed entries for a target are the configured views aimed at it, in file order. Their keys are the views' targets. |
| Config.ParseConfigSucceeds | tagtracker/tagtracker.py:53-85 | The configuration is accepted exactly when both levels are objects and every view in it is routable. |
| Config.ParsedRoutes | tagtracker/tagtracker.py:61-85 | An accepted configuration's plan is its views routed in file order and appended to an empty dict of lists. |
| Config.ParseConfigPlan | tagtracker/tagtracker.py:61-85 | The plan holds, for each target, the entries routed there, in file order. |
| Config.ParseConfigTargets | tagtracker/tagtracker.py:61-85 | The plan's targets come in the order the configuration first uses them. |
| Config.TargetChoice | tagtracker/tagtracker.py:76-81 | An entry goes to its truthy `path` option when it has one, and to its output name otherwise. |
| KanBan.PhasesSpec | tagtracker/views/kan_ban.py:8-11 | The phases are the default three unless truthy options hold `options`. Options that can be neither searched nor indexed fail. |
| KanBan.SelectSpec | tagtracker/views/kan_ban.py:16 | Exactly the tags in the phases are kept, in index order. Only phases that cannot be searched fail, and only when there is a tag to test. |
| KanBan.FirstIndexAt | tagtracker/views/kan_ban.py:17 | `phases.index` is the position of the first occurrence. |
| KanBan.ListBoard | tagtracker/views/kan_ban.py:15-23 | A list of phases never fails. It shows each phase's tags phase by phase, with tags in index order. |
| KanBan.DefaultBoard | tagtracker/views/kan_ban.py:8-23 | Without options the board is the `to-do` column, then `in-progress`, then `finished`. |
| KanBan.RenderFails | tagtracker/views/kan_ban.py:15-18 | The board fails exactly when unsearchable phases meet a tag, or when an object of phases holds some tag, because an object has no `index`. |
| KanBan.SectionLines | tagtracker/views/kan_ban.py:19-23 | A column is two blank lines, the `### Title` heading, then one `- ` line per reference. |
| KanBan.TwoWordTitle | tagtracker/views/kan_ban.py:22 | A two-word tag `a-b` gets the heading `A B`, with both words capitalised. |
| KanBan.ToDoTitle | tagtracker/views/kan_ban.py:22 | `to-do` is headed `To Do`. |
| KanBan.PlainTitle | tagtracker/views/kan_ban.py:22 | A single lower-case word gets only its first letter capitalised. |
| TagSummary.ContainsDateSpec | tagtracker/views/tag_summary.py:15 | The scan finds a date exactly when `dddd-dd-dd` occurs somewhere in the tag. |
| TagSummary.OrderedSpec | tagtracker/views/tag_summary.py:13-20 | The summary lists the undated tags and nothing else, as a permutation. Counts never increase, and tags with equal counts keep index order. |
| TagSummary.DatedTagOmitted | tagtracker/views/tag_summary.py:14-17 | A tag that carries a date anywhere is never listed. |
| TagSummary.SummaryShape | tagtracker/views/tag_summary.py:8-23 | Each listed tag appears as `tag (n)`, where `n` parses back to its number of references. Entries are comma-joined between the rule and the italics markers. |
| TagSummary.EmptySummary | tagtracker/views/tag_summary.py:8-23 | With only dated tags, or none, the line is empty between its markers. |
| Calendar.CalSpec | tagtracker/views/cal.py:9-83 | The view fails only on its settings, or on a non-string directory when some day has tasks. Otherwise it is the header plus one row per week, and it writes one summary per day with tasks, in calendar order. |
| Calendar.CalSettingsSpec | tagtracker/views/cal.py:20-29 | The embed marker is `!` exactly when truthy settings turn it on. The directory is the configured one when truthy, `calendar` otherwise. Truthy settings lacking a key, or not indexable, fail. |
| Calendar.DayOutSpec | tagtracker/views/cal.py:62-77 | A day fails exactly when it has tasks and the directory is not a string. Otherwise it yields its cell, plus its summary when it has tasks. |
| Calendar.WeekOutFails | tagtracker/views/cal.py:60-79 | A week fails exactly when one of its days has tasks and the directory is not a string. |
| Calendar.WeekOutValue | tagtracker/views/cal.py:60-79 | With a string directory, a week yields its days' cells and the summaries of its days with tasks. |
| Calendar.WeekOutSpec | tagtracker/views/cal.py:59-81 | Combines the two week lemmas above. |
| Calendar.WeeksOutSpec | tagtracker/views/cal.py:59-81 | The table body is the rows of the weeks, and it writes every day-with-tasks summary in calendar order. It fails exactly when such a day meets a non-string directory. |
| Calendar.LinkAligned | tagtracker/views/cal.py:69-75 | A linked day fills the same three columns before its link as a plain day number does. |
| Calendar.PadWidth | tagtracker/views/cal.py:69-70 | `" " * (1 - day // 10)` plus the link's space pads one- and two-digit days to three columns. |
| Calendar.RowCells | tagtracker/views/cal.py:79-81 | A row is its cells joined by ` |`, ended by a line break. |
| Calendar.SeparatorColumns | tagtracker/views/cal.py:56 | `"--- | " * n + "---"` is a separator line with `n + 1` columns. |
| Calendar.HeaderColumns | tagtracker/views/cal.py:52-56 | The header is the day names joined by ` | `, then a separator with one `---` column per day. |
| Calendar.SummaryLines | tagtracker/views/cal.py:42-46 | A daily summary is the date in italics, a blank line, then one line per reference, each starting with the embed marker. |
| Calendar.KeyIsDate | tagtracker/views/cal.py:62 | A day's key is ten characters long and is a date. |
| Report.WriteEntries | tagtracker/tagtracker.py:151-161 | Once a filter is applied the tags stay replaced. When every view succeeds, any entry with a filter leaves them replaced. |
| Report.WriteReport | tagtracker/tagtracker.py:146-149 | A non-string target fails before any file is written. Otherwise the last file written is `<dir>/<target>.md`, starting with the section line. |
| Report.WriteEntriesSpec | tagtracker/tagtracker.py:151-161 | A report's views are written in order up to the first failing one. Each sees the tags as left by the filters up to its own entry. |
| Report.FilteredView | tagtracker/tagtracker.py:153-161 | After a filter replaces the tags, only the last-opened view works. The others fail on the missing `items`/`get` once their own options or settings pass. |
| Report.FilterOutlivesReport | tagtracker/tagtracker.py:146-161 | A filter in one report leaves the next reports with the replaced tags. |
| Report.ReportName | tagtracker/tagtracker.py:147 | The report file is named after its target with `.md` appended. |
| Report.ReportSpec | tagtracker/tagtracker.py:146-161 | A report whose views all succeed writes their files, then itself: the section line plus every view's text in order. |
| Report.NoFilterKeepsIndex | tagtracker/tagtracker.py:151-161 | Without filters the tags are never replaced. |
| Report.OutputSpec | tagtracker/tagtracker.py:135-161 | With no filter and every report writable, the run ends cleanly. It writes each report in plan order, each after its daily summaries, and keeps the index. |
| Report.BadTargetStops | tagtracker/tagtracker.py:146-147 | A target that is not a string ends the run with a `TypeError`. When the reports before it are written cleanly, the run's files are exactly theirs and no later target is written. |
| Report.TrackSpec | tagtracker/tagtracker.py:28-39 | A rejected configuration stops the run before anything is written, with the tag index still empty. Otherwise the reports are those of the plan, over the index of the notes, with targets in first-use order and entries in file order. |
| Report.DailyTagsOnlyInCalendar | tagtracker/views/tag_summary.py:13-17 | A daily tag is never listed by the tag summary. |
| Legacy.Board | src/tag-tracker.py:252-262 | The scripts' board is the kanban view of the default phases, which cannot fail. |
| Legacy.DashCalendar | src/tag-tracker.py:108-175 | The scripts' calendar, with directory `-`, cannot fail once the embed marker is known. |
| Legacy.SrcOutputSpec | src/tag-tracker.py:238-293 | The output fails only when the embed setting cannot be read, and then leaves the report with only its section line. Otherwise it writes the daily summaries into `-`, then the report: calendar, default board, last-opened list and tag summary. |
| Legacy.ViewsWithDash | src/tag-tracker.py:248-288 | The script's board, last-opened text and tag list are always what the package views `kanBan`, `lastOpened` and `tagSummary` render without options. Its calendar is what the package's `cal` renders when the settings set `calendarDirectory` to `-`. |
| Legacy.SrcAsViews | src/tag-tracker.py:238-293 | The output equals a package report of `cal`, `kanBan`, `lastOpened` and `tagSummary` when the settings set the calendar directory to `-`. |
| Legacy.ScriptOrderedSpec | script.py:238-253 | `script.py` lists exactly the tags whose `repr` shows no digit, as a permutation. They are sorted by reference list, ascending, and equal lists keep index order. |
| Legacy.DigitDropped | script.py:246 | A digit in a tag or in one of its references keeps the tag off the list. |
| Legacy.ScriptListsFewer | script.py:244-250 | Every tag `script.py` lists is in the tag summary too. `v2` is in the summary but not in the list. |
| Legacy.ScriptSummary | script.py:114-124 | A daily summary of `script.py` has no embed marker: the date, a blank line, then the references one per line. |
| Legacy.ScriptOutputSpec | script.py:200-258 | `script.py` writes the daily summaries into `-`, then the report: calendar, default board, last-opened list and its own tag list. It never fails. |
| Sorting.StrOrders | script.py:249 | Python's `<` on strings and on lists of strings is a strict total order, so the `sorted` used here orders totally and stably. |
| Strings.InterleaveJoin | tagtracker/views/cal.py:52-54 | Adding a separator after every item except the last is `join`. |

## Left out

**Inputs passed in as parameters**
- `os.walk`, `os.path.isdir` and reading files: these are input, a list of batches. The batch list also fixes which directories the recursive calls visit. The code joins each subdirectory to the call's own `directory`, not to the walk's current `root` (tagtracker/tagtracker.py:132-133), and the model does not derive those paths from the walk.
- A failing `open` or `read` of a note (tagtracker/tagtracker.py:117-119) raises and ends the run. The model reads every note as its given text and has no such failure.
- `os.path.relpath`: a function parameter.
- `datetime.today()`, `monthdatescalendar` and `strftime("%a")`: the month, its weeks and a day-name function are parameters.
- The last-opened view (`tagtracker/views/last_opened.py`, `last_opened` in both scripts): it reads Obsidian's `workspace.json` from disk, so its text is a parameter.
- Reading `settings.json` and `config.json`: only their parsed values are modelled. A missing file is `Null` or the empty object, as in the code.

**Not modelled at all**
- `print` output and colour codes.
- `os.makedirs`.
- Argument parsing.
- Duplicate JSON keys.
- Floating-point numbers, and Python's `1 == True` key equality.
- Case mapping, `\d` and `\S` beyond what is stated in `Strings`: `lower`, `capitalize` and `\d` are ASCII. `\S` uses Python's whitespace list.
- In `script.py`'s digit test, `repr` escapes beyond the Latin-1 range: the non-printable characters above U+00A0 that `repr` writes as `\u` or `\U` escapes.
- Years below 1000 in `strftime("%Y")`: `Key` zero-pads to four digits.

**Ordering and completeness**
- Report.WriteReport: lists the report after the daily summaries its views write. Python opens the report file first and writes the summaries while it is open, so only the final contents are modelled, not the order in which files are opened.
- Report.Builtin: the registry of the package's own views is built, but facts about literal keys are proved for `RegistryKeys` of each name, not for the combined map. Those facts are `Registry.KanBanKeys`, `Registry.TagSummaryKeys` and `Registry.LastOpenedKeys`, which together with `Registry.OtherInitialKept` cover it.

**Behaviour of the code a reader may not expect (the code is followed)**
- `.md` is a substring test, so `notes.md.bak` is read, although the comment at tagtracker/tagtracker.py:109 speaks of "only .md files".
- `.git` only stops a call whose own directory contains it.
- An unknown view name is a `KeyError` that ends the run. It is not skipped.
- A `filter` option replaces the tags with a lazy `filter` object, so the later tag-reading views fail with `AttributeError`. No filtering takes place, as the to-do comment at tagtracker/tagtracker.py:152 admits.
- The kanban board lists every reference, without truncation.
