/** The kanban view (tagtracker/views/kan_ban.py): the tags that name a phase,
    in phase order, each as a `### Title` heading over a list of its files.
    The phases are `["to-do", "in-progress", "finished"]` unless the view's
    options carry an `options` entry, which is then used as given: Python's
    `tag in phases` and `phases.index(tag)` decide what that means for lists,
    strings and objects. */
module KanBan {
  import opened Wrappers
  import opened Strings
  import opened Seqs
  import opened Sorting
  import opened Values

  /** The index as `tags.items()`: each tag with its references, in insertion order. */
  type Items = seq<(string, seq<string>)>

  const DefaultPhases: seq<Value> := [Str("to-do"), Str("in-progress"), Str("finished")]

  /** `phases`: `options["options"]` when the options are truthy and hold that key. */
  function Phases(options: Option<Value>): Result<Value, Error> {
    if options.Some? && Truthy(options.value) then
      var present :- HasKey(options.value, "options");
      if present then Lookup(options.value, "options") else Success(Arr(DefaultPhases))
    else Success(Arr(DefaultPhases))
  }

  /** `tag in phases`, for phases that are iterable. */
  predicate InPhases(phases: Value, tag: string) {
    match phases
    case Arr(ps) => Str(tag) in ps
    case Str(s) => Contains(s, tag)
    case Obj(fields) => HasField(fields, tag)
    case _ => false
  }

  /** `None`, booleans and numbers cannot be searched with `in`. */
  predicate Iterable(v: Value) {
    v.Arr? || v.Str? || v.Obj?
  }

  /** `filter(lambda i: i[0] in phases, items)`, consumed by `sorted`. */
  function Select(phases: Value, items: Items): (r: Result<Items, Error>)
    decreases |items|
  {
    if items == [] then Success([])
    else
      var keep :- HasKey(phases, items[0].0);
      var rest :- Select(phases, items[1..]);
      Success((if keep then [items[0]] else []) + rest)
  }

  /** The first position of `v` in `xs`; `|xs|` when it is absent. */
  function FirstIndex(xs: seq<Value>, v: Value): (r: nat)
    ensures r <= |xs|
    ensures r < |xs| ==> xs[r] == v && v !in xs[..r]
    ensures r == |xs| <==> v !in xs
    decreases |xs|
  {
    if xs == [] then 0
    else if xs[0] == v then 0
    else
      var r := FirstIndex(xs[1..], v);
      assert xs == [xs[0]] + xs[1..];
      assert xs[..1 + r] == [xs[0]] + xs[1..][..r];
      1 + r
  }

  /** `FirstIndex` is the one position holding `v` with no `v` before it. */
  lemma FirstIndexAt(xs: seq<Value>, v: Value, j: nat)
    ensures FirstIndex(xs, v) == j && j < |xs| <==> j < |xs| && xs[j] == v && v !in xs[..j]
  {
  }

  /** The first position of `sub` in `s`; `|s| + 1` when it does not occur. */
  function Find(s: string, sub: string): (r: nat)
    ensures r <= |s| + 1
    ensures r <= |s| ==> OccursAt(s, sub, r)
    ensures forall i :: 0 <= i < r && i <= |s| ==> !OccursAt(s, sub, i)
  {
    FindFrom(s, sub, 0)
  }

  function FindFrom(s: string, sub: string, i: nat): (r: nat)
    requires i <= |s| + 1
    ensures i <= r <= |s| + 1
    ensures r <= |s| ==> OccursAt(s, sub, r)
    ensures forall k :: i <= k < r && k <= |s| ==> !OccursAt(s, sub, k)
    decreases |s| + 1 - i
  {
    if i > |s| then i
    else if OccursAt(s, sub, i) then i
    else FindFrom(s, sub, i + 1)
  }

  /** `phases.index(tag)` for a tag in the phases; objects have no `index`. */
  function Rank(phases: Value, tag: string): int {
    match phases
    case Arr(ps) => FirstIndex(ps, Str(tag))
    case Str(s) => Find(s, tag)
    case _ => 0
  }

  /** `str.capitalize` on ASCII: the first character upper-case, the rest lower-case. */
  function Capitalize(w: string): (r: string)
    ensures |r| == |w|
  {
    if w == [] then [] else [ToUpper(w[0])] + Lower(w[1..])
  }

  /** The heading of a phase: its `-`-separated words capitalised, joined by spaces. */
  function Title(tag: string): string {
    Join(" ", CapitalizeAll(SplitOn(tag, '-')))
  }

  function CapitalizeAll(words: seq<string>): (r: seq<string>)
    ensures |r| == |words|
    ensures forall i :: 0 <= i < |words| ==> r[i] == Capitalize(words[i])
  {
    seq(|words|, i requires 0 <= i < |words| => Capitalize(words[i]))
  }

  /** One column of the board. */
  function Section(tag: string, refs: seq<string>): string {
    "\n\n### " + Title(tag) + "\n- " + Join("\n- ", refs)
  }

  /** The columns for `items` in order; a tag without references is skipped. */
  function Sections(items: Items): string
    decreases |items|
  {
    if items == [] then ""
    else (if items[0].1 == [] then "" else Section(items[0].0, items[0].1)) + Sections(items[1..])
  }

  /** The body of the view once the phases are known. */
  function Render(phases: Value, items: Items): Result<string, Error> {
    var selected :- Select(phases, items);
    if selected != [] && phases.Obj? then Failure(AttributeError("index"))
    else Success(Sections(SortBy(selected, (i: (string, seq<string>)) => Rank(phases, i.0), IntLess)))
  }

  /** The whole view. */
  function KanBan(options: Option<Value>, items: Items): Result<string, Error> {
    var phases :- Phases(options);
    Render(phases, items)
  }

  // ---------------------------------------------------------------------
  // Properties

  /** The phases in use: the default ones unless truthy options hold `options`;
      options that cannot be searched for that key, or looked up by it, fail. */
  lemma PhasesSpec(options: Option<Value>)
    ensures options.None? || !Truthy(options.value) ==> Phases(options) == Success(Arr(DefaultPhases))
    ensures options.Some? && options.value.Obj? ==>
      Phases(options) == Success(FieldValue(options.value.fields, "options").GetOr(Arr(DefaultPhases)))
    ensures Phases(options).Failure? <==>
      && options.Some? && Truthy(options.value)
      && match options.value
         case Arr(items) => Str("options") in items
         case Str(s) => Contains(s, "options")
         case Obj(_) => false
         case _ => true
  {
  }

  /** The tags kept are exactly those in the phases; only phases that cannot
      be searched fail, and only when there is a tag to search for. */
  lemma {:induction false} SelectSpec(phases: Value, items: Items)
    ensures Select(phases, items).Success? <==> items == [] || Iterable(phases)
    ensures Select(phases, items).Success? ==>
      Select(phases, items).value == Filter(items, (i: (string, seq<string>)) => InPhases(phases, i.0))
    decreases |items|
  {
    if items != [] {
      SelectSpec(phases, items[1..]);
    }
  }

  lemma {:induction false} SectionsAppend(a: Items, b: Items)
    ensures Sections(a + b) == Sections(a) + Sections(b)
    decreases |a|
  {
    if a == [] {
      assert a + b == b;
    } else {
      var head := if a[0].1 == [] then "" else Section(a[0].0, a[0].1);
      assert (a + b)[0] == a[0];
      assert (a + b)[1..] == a[1..] + b;
      assert Sections(a + b) == head + Sections(a[1..] + b);
      SectionsAppend(a[1..], b);
      AppendAssoc(head, Sections(a[1..]), Sections(b));
    }
  }

  /** The items filed under phase `j` of a list of phases: the tag is `ps[j]`
      and no earlier phase. */
  function InPhase(ps: seq<Value>, j: nat, items: Items): Items {
    Filter(items, (i: (string, seq<string>)) => j < |ps| && ps[j] == Str(i.0) && Str(i.0) !in ps[..j])
  }

  /** The board for a list of phases, column by column from phase `j` on. */
  function Columns(ps: seq<Value>, j: nat, items: Items): string
    decreases |ps| - j
  {
    if j >= |ps| then "" else Sections(InPhase(ps, j, items)) + Columns(ps, j + 1, items)
  }

  /** With a list of phases the board never fails, and it shows phase after
      phase the tags filed there, each phase's tags in index order. */
  lemma ListBoard(ps: seq<Value>, items: Items)
    ensures Render(Arr(ps), items) == Success(Columns(ps, 0, items))
  {
    var phases := Arr(ps);
    var inPs := (i: (string, seq<string>)) => InPhases(phases, i.0);
    var rank := (i: (string, seq<string>)) => Rank(phases, i.0);
    SelectSpec(phases, items);
    var selected := Select(phases, items).value;
    assert forall k :: 0 <= k < |selected| ==> 0 <= rank(selected[k]) < |ps|;
    SortByIntGroups(selected, rank, 0, |ps|);
    GroupsColumns(ps, 0, items);
  }

  lemma {:induction false} GroupsColumns(ps: seq<Value>, j: nat, items: Items)
    ensures var inPs := (i: (string, seq<string>)) => InPhases(Arr(ps), i.0);
      var rank := (i: (string, seq<string>)) => Rank(Arr(ps), i.0);
      Sections(Groups(Filter(items, inPs), rank, j, |ps|)) == Columns(ps, j, items)
    decreases |ps| - j
  {
    var inPs := (i: (string, seq<string>)) => InPhases(Arr(ps), i.0);
    var rank := (i: (string, seq<string>)) => Rank(Arr(ps), i.0);
    var selected := Filter(items, inPs);
    if j < |ps| {
      GroupsColumns(ps, j + 1, items);
      var at := (i: (string, seq<string>)) => j < |ps| && ps[j] == Str(i.0) && Str(i.0) !in ps[..j];
      var q := KeyIs(rank, j);
      forall x ensures (inPs(x) && q(x)) == at(x) {
        FirstIndexAt(ps, Str(x.0), j);
      }
      FilterFilter(items, inPs, q, at);
      SectionsAppend(WithKey(selected, rank, j), Groups(selected, rank, j + 1, |ps|));
    }
  }

  /** With the default phases, the board is the `to-do` column, then
      `in-progress`, then `finished`. */
  lemma DefaultBoard(items: Items)
    ensures KanBan(None, items) == Success(
      Sections(Tagged(items, "to-do")) + Sections(Tagged(items, "in-progress")) + Sections(Tagged(items, "finished")))
  {
    var ps := DefaultPhases;
    ListBoard(ps, items);
    assert ps[..0] == [] && ps[..1] == [Str("to-do")] && ps[..2] == [Str("to-do"), Str("in-progress")];
    InPhaseTagged(ps, 0, items, "to-do");
    InPhaseTagged(ps, 1, items, "in-progress");
    InPhaseTagged(ps, 2, items, "finished");
    var s0, s1, s2 := Sections(Tagged(items, "to-do")), Sections(Tagged(items, "in-progress")), Sections(Tagged(items, "finished"));
    assert Columns(ps, 3, items) == "";
    assert Columns(ps, 2, items) == s2;
    assert Columns(ps, 0, items) == s0 + (s1 + s2);
    AppendAssoc(s0, s1, s2);
  }

  /** A phase that is a tag's first occurrence in the list files exactly that tag's items. */
  lemma InPhaseTagged(ps: seq<Value>, j: nat, items: Items, tag: string)
    requires j < |ps| && ps[j] == Str(tag) && Str(tag) !in ps[..j]
    ensures InPhase(ps, j, items) == Tagged(items, tag)
  {
    FilterExt(items, (i: (string, seq<string>)) => j < |ps| && ps[j] == Str(i.0) && Str(i.0) !in ps[..j],
      (i: (string, seq<string>)) => i.0 == tag);
  }

  /** The items of one tag. */
  function Tagged(items: Items, tag: string): Items {
    Filter(items, (i: (string, seq<string>)) => i.0 == tag)
  }

  /** A board fails only on phases that cannot be searched while there are
      tags, or on an object of phases (which has no `index`) that some tag is in. */
  lemma RenderFails(phases: Value, items: Items)
    ensures Render(phases, items).Failure? <==>
      || (items != [] && !Iterable(phases))
      || (phases.Obj? && exists k :: 0 <= k < |items| && HasField(phases.fields, items[k].0))
  {
    SelectSpec(phases, items);
    if Select(phases, items).Success? && phases.Obj? {
      var p := (i: (string, seq<string>)) => InPhases(phases, i.0);
      var selected := Select(phases, items).value;
      if exists k :: 0 <= k < |items| && HasField(phases.fields, items[k].0) {
        var k :| 0 <= k < |items| && HasField(phases.fields, items[k].0);
        assert p(items[k]);
        assert items[k] in selected;
      }
      if selected != [] {
        assert selected[0] in items && p(selected[0]);
      }
    }
  }

  // ---------------------------------------------------------------------
  // The layout of a column

  /** A column reads as two blank lines, the heading, then one `- ` line per
      reference, as long as no tag or reference has a line break in it. */
  lemma SectionLines(tag: string, refs: seq<string>)
    requires refs != []
    requires '\n' !in tag
    requires forall k :: 0 <= k < |refs| ==> '\n' !in refs[k]
    ensures SplitOn(Section(tag, refs), '\n') == ["", "", "### " + Title(tag)] + Prefixed("- ", refs)
  {
    var title := "### " + Title(tag);
    var lines := Prefixed("- ", refs);
    TitleOneLine(tag);
    JoinPrefixed("- ", "\n", refs);
    var body := Join("\n", lines);
    var xs := ["", "", title] + lines;
    assert Join("\n", xs[2..]) == title + "\n" + body by {
      assert xs[2..][1..] == lines;
    }
    assert Join("\n", xs[1..]) == "" + "\n" + Join("\n", xs[2..]) by {
      assert xs[1..][1..] == xs[2..];
    }
    assert Join("\n", xs) == "" + "\n" + Join("\n", xs[1..]);
    var j := Join("\n- ", refs);
    assert "\n" + "- " == "\n- ";
    assert "- " + j == body;
    assert Section(tag, refs) == "\n\n### " + Title(tag) + "\n- " + j;
    assert "\n\n### " + Title(tag) + "\n- " + j == "\n" + ("\n" + (title + "\n" + ("- " + j)));
    forall k | 0 <= k < |xs| ensures '\n' !in xs[k] {
      if k >= 3 {
        assert xs[k] == "- " + refs[k - 3];
      }
    }
    SplitJoin(xs, '\n');
  }

  lemma TitleOneLine(tag: string)
    requires '\n' !in tag
    ensures '\n' !in Title(tag)
  {
    var words := SplitOn(tag, '-');
    var caps := CapitalizeAll(words);
    SplitOnChars(tag, '-');
    forall k | 0 <= k < |caps| ensures '\n' !in caps[k] {
      CapitalizeKeeps(words[k], '\n');
    }
    JoinChars(" ", caps, '\n');
  }

  /** Every piece of a split is made of characters of the split string. */
  lemma {:induction false} SplitOnChars(s: string, c: char)
    ensures forall w, x :: w in SplitOn(s, c) && x in w ==> x in s
    decreases |s|
  {
    if s != [] {
      SplitOnChars(s[1..], c);
    }
  }

  /** Capitalising never produces a line break or a space that was not there. */
  lemma CapitalizeKeeps(w: string, x: char)
    requires x == '\n' || x == ' '
    requires x !in w
    ensures x !in Capitalize(w)
  {
    if w != [] {
      var r := Capitalize(w);
      forall k | 0 <= k < |r| ensures r[k] != x {
        if k > 0 {
          assert r[k] == ToLower(w[k]);
        }
      }
    }
  }

  lemma {:induction false} JoinChars(sep: string, xs: seq<string>, x: char)
    requires x !in sep
    requires forall k :: 0 <= k < |xs| ==> x !in xs[k]
    ensures x !in Join(sep, xs)
    decreases |xs|
  {
    if |xs| > 1 {
      JoinChars(sep, xs[1..], x);
    }
  }

  /** A tag of two `-`-separated words gets the two words capitalised. */
  lemma TwoWordTitle(a: string, b: string)
    requires '-' !in a && '-' !in b
    ensures Title(a + "-" + b) == Capitalize(a) + " " + Capitalize(b)
  {
    SplitOnSeparated(a, b, '-');
    SplitOnPlain(a, '-');
    SplitOnPlain(b, '-');
    assert a + "-" + b == a + ['-'] + b;
    var words := SplitOn(a + "-" + b, '-');
    assert words == [a, b];
    var caps := CapitalizeAll(words);
    assert caps == [Capitalize(a), Capitalize(b)];
    assert caps[1..] == [Capitalize(b)];
    assert Title(a + "-" + b) == Join(" ", caps);
    assert Join(" ", caps[1..]) == Capitalize(b);
    assert Join(" ", caps) == caps[0] + " " + Join(" ", caps[1..]);
  }

  /** The headings of the default phases. */
  lemma ToDoTitle()
    ensures Title("to-do") == "To Do"
  {
    TwoWordTitle("to", "do");
    assert "to" + "-" + "do" == "to-do";
    assert Capitalize("to") == [ToUpper('t')] + Lower("o");
    assert Capitalize("do") == [ToUpper('d')] + Lower("o");
  }

  /** A lower-case word without `-` gets its first letter capitalised. */
  lemma PlainTitle(w: string)
    requires w != [] && '-' !in w && NoUpper(w)
    ensures Title(w) == [ToUpper(w[0])] + w[1..]
  {
    SplitOnPlain(w, '-');
    assert CapitalizeAll([w]) == [Capitalize(w)];
    LowerNoUpper(w[1..]);
  }
}
