/** The view registry of tagtracker/setup.py: the `view` decorator stores each
    view under its declared name, the lower-cased name, and kebab-case and
    snake_case forms made by the pattern `(?<!^)(?=[A-Z])` (every position
    before an ASCII capital except the very start) and then lower-cased. */
module Registry {
  import opened Strings
  import opened Wrappers
  import opened Seqs

  /** `view_name_pattern.sub(sep, name)`: `sep` before every capital after index 0. */
  function Separate(name: string, sep: char): (r: string)
    ensures |name| > 0 ==> |r| > 0 && r[0] == name[0]
  {
    if name == [] then [] else [name[0]] + BeforeCapitals(name[1..], sep)
  }

  /** `sep` before every capital of `s`. */
  function BeforeCapitals(s: string, sep: char): (r: string)
    ensures |r| >= |s|
    decreases |s|
  {
    if s == [] then []
    else (if IsUpper(s[0]) then [sep, s[0]] else [s[0]]) + BeforeCapitals(s[1..], sep)
  }

  function Kebab(name: string): string {
    Lower(Separate(name, '-'))
  }

  function Snake(name: string): string {
    Lower(Separate(name, '_'))
  }

  /** The four keys a view is stored under, in the order the decorator writes them. */
  function RegistryKeys(name: string): seq<string> {
    [name, Lower(name), Kebab(name), Snake(name)]
  }

  /** The `view` decorator: stores `v` under the four keys and returns it unchanged. */
  function Register<V>(reg: map<string, V>, name: string, v: V): (r: (map<string, V>, V))
    ensures r.1 == v
    ensures forall k :: k in r.0 <==> k in reg || k in RegistryKeys(name)
    ensures forall k :: k in RegistryKeys(name) ==> r.0[k] == v
    ensures forall k :: k in reg && k !in RegistryKeys(name) ==> r.0[k] == reg[k]
  {
    (reg[name := v][Lower(name) := v][Kebab(name) := v][Snake(name) := v], v)
  }

  /** Registering several views in turn. */
  function RegisterAll<V>(reg: map<string, V>, views: seq<(string, V)>): map<string, V>
    decreases |views|
  {
    if views == [] then reg else RegisterAll(Register(reg, views[0].0, views[0].1).0, views[1..])
  }

  // ---------------------------------------------------------------------
  // Properties

  /** A name without capitals is stored under one key four times. */
  lemma {:induction false} NoCapitalsOneKey(name: string)
    requires NoUpper(name)
    ensures RegistryKeys(name) == [name, name, name, name]
  {
    LowerNoUpper(name);
    if name != [] {
      BeforeCapitalsPlain(name[1..], '-');
      BeforeCapitalsPlain(name[1..], '_');
      assert [name[0]] + name[1..] == name;
    }
  }

  lemma {:induction false} BeforeCapitalsPlain(s: string, sep: char)
    requires NoUpper(s)
    ensures BeforeCapitals(s, sep) == s
    decreases |s|
  {
    if s != [] {
      BeforeCapitalsPlain(s[1..], sep);
      assert [s[0]] + s[1..] == s;
    }
  }

  /** A two-word camelCase name `aBc`: the capital is lowered, and in the last
      two keys preceded by the separator. */
  lemma TwoWordKeys(a: string, cap: char, b: string)
    requires |a| > 0 && NoUpper(a) && NoUpper(b) && IsUpper(cap)
    ensures var low := ToLower(cap);
      RegistryKeys(a + [cap] + b)
        == [a + [cap] + b, a + [low] + b, a + ['-', low] + b, a + ['_', low] + b]
  {
    var name := a + [cap] + b;
    LowerAround(a, [cap], b);
    SeparateTwoWords(a, cap, b, '-');
    SeparateTwoWords(a, cap, b, '_');
    LowerAround(a, ['-', cap], b);
    LowerAround(a, ['_', cap], b);
    var low := ToLower(cap);
    assert Lower([cap]) == [low];
    assert Lower(['-', cap]) == ['-', low];
    assert Lower(['_', cap]) == ['_', low];
  }

  /** Lower-casing leaves text without capitals alone. */
  lemma LowerAround(a: string, mid: string, b: string)
    requires NoUpper(a) && NoUpper(b)
    ensures Lower(a + mid + b) == a + Lower(mid) + b
  {
  }

  lemma SeparateTwoWords(a: string, cap: char, b: string, sep: char)
    requires |a| > 0 && NoUpper(a) && NoUpper(b) && IsUpper(cap)
    ensures Separate(a + [cap] + b, sep) == a + [sep, cap] + b
  {
    var name := a + [cap] + b;
    assert name[0] == a[0];
    assert name[1..] == a[1..] + [cap] + b;
    BeforeCapitalsSplit(a[1..], cap, b, sep);
    assert [a[0]] + a[1..] == a;
    AppendAssoc([a[0]], a[1..] + [sep, cap], b);
    AppendAssoc([a[0]], a[1..], [sep, cap]);
  }

  lemma BeforeCapitalsSplit(a: string, cap: char, b: string, sep: char)
    requires NoUpper(a) && NoUpper(b) && IsUpper(cap)
    ensures BeforeCapitals(a + [cap] + b, sep) == a + [sep, cap] + b
  {
    AppendAssoc(a, [cap], b);
    BeforeCapitalsAppend(a, [cap] + b, sep);
    BeforeCapitalsPlain(a, sep);
    BeforeCapitalsPlain(b, sep);
    assert ([cap] + b)[0] == cap;
    assert ([cap] + b)[1..] == b;
    assert BeforeCapitals([cap] + b, sep) == [sep, cap] + b;
    AppendAssoc(a, [sep, cap], b);
  }

  lemma {:induction false} BeforeCapitalsAppend(a: string, b: string, sep: char)
    ensures BeforeCapitals(a + b, sep) == BeforeCapitals(a, sep) + BeforeCapitals(b, sep)
    decreases |a|
  {
    if a == [] {
      assert a + b == b;
    } else {
      assert (a + b)[0] == a[0];
      assert (a + b)[1..] == a[1..] + b;
      BeforeCapitalsAppend(a[1..], b, sep);
    }
  }

  /** Every key of a name that does not start with a capital starts with the
      name's first character: names that start differently never share a key. */
  lemma KeysStart(name: string)
    requires |name| > 0 && !IsUpper(name[0])
    ensures forall k :: k in RegistryKeys(name) ==> |k| > 0 && k[0] == name[0]
  {
    assert Separate(name, '-')[0] == name[0];
    assert Separate(name, '_')[0] == name[0];
  }

  /** Registering a name leaves alone every key that starts with a different
      character; the tracker's views (`cal`, `kanBan`, `lastOpened`,
      `tagSummary`) start with different letters, so none overrides another. */
  lemma OtherInitialKept<V>(reg: map<string, V>, name: string, v: V, k: string)
    requires |name| > 0 && !IsUpper(name[0])
    requires |k| > 0 && k[0] != name[0]
    ensures k in Register(reg, name, v).0 <==> k in reg
    ensures k in reg ==> Register(reg, name, v).0[k] == reg[k]
  {
    KeysStart(name);
  }

  /** The names the tracker registers. */
  lemma KanBanKeys()
    ensures RegistryKeys("kanBan") == ["kanBan", "kanban", "kan-ban", "kan_ban"]
  {
    TwoWordKeys("kan", 'B', "an");
    assert "kan" + ['B'] + "an" == "kanBan";
    assert ToLower('B') == 'b';
    assert "kan" + ['b'] + "an" == "kanban";
    assert "kan" + ['-', 'b'] + "an" == "kan-ban";
    assert "kan" + ['_', 'b'] + "an" == "kan_ban";
  }

  lemma TagSummaryKeys()
    ensures RegistryKeys("tagSummary") == ["tagSummary", "tagsummary", "tag-summary", "tag_summary"]
  {
    TwoWordKeys("tag", 'S', "ummary");
    assert "tag" + ['S'] + "ummary" == "tagSummary";
    assert ToLower('S') == 's';
    assert "tag" + ['s'] + "ummary" == "tagsummary";
    assert "tag" + ['-', 's'] + "ummary" == "tag-summary";
    assert "tag" + ['_', 's'] + "ummary" == "tag_summary";
  }

  lemma LastOpenedKeys()
    ensures RegistryKeys("lastOpened") == ["lastOpened", "lastopened", "last-opened", "last_opened"]
  {
    TwoWordKeys("last", 'O', "pened");
    assert "last" + ['O'] + "pened" == "lastOpened";
    assert ToLower('O') == 'o';
    assert "last" + ['o'] + "pened" == "lastopened";
    assert "last" + ['-', 'o'] + "pened" == "last-opened";
    assert "last" + ['_', 'o'] + "pened" == "last_opened";
  }

  /** Reading kebab-case back as camelCase: each `-` upper-cases the next character. */
  function Camel(k: string): string
    decreases |k|
  {
    if k == [] then []
    else if k[0] == '-' && |k| >= 2 then [ToUpper(k[1])] + Camel(k[2..])
    else [k[0]] + Camel(k[1..])
  }

  /** The kebab-case key loses nothing for a camelCase name: one whose first
      character is not a capital and which has no `-` of its own. */
  lemma CamelKebab(name: string)
    requires '-' !in name
    requires |name| > 0 ==> !IsUpper(name[0])
    ensures Camel(Kebab(name)) == name
  {
    if name != [] {
      var rest := name[1..];
      var k := [name[0]] + Lower(BeforeCapitals(rest, '-'));
      assert Separate(name, '-') == [name[0]] + BeforeCapitals(rest, '-');
      LowerAppend([name[0]], BeforeCapitals(rest, '-'));
      assert Kebab(name) == k;
      CamelBeforeCapitals(rest);
      assert k[0] == name[0] && k[0] != '-' && k[1..] == Lower(BeforeCapitals(rest, '-'));
      assert name == [name[0]] + rest;
    }
  }

  lemma {:induction false} CamelBeforeCapitals(s: string)
    requires '-' !in s
    ensures Camel(Lower(BeforeCapitals(s, '-'))) == s
    decreases |s|
  {
    if s != [] {
      var c := s[0];
      var tail := Lower(BeforeCapitals(s[1..], '-'));
      CamelBeforeCapitals(s[1..]);
      var head: string := if IsUpper(c) then ['-', c] else [c];
      LowerAppend(head, BeforeCapitals(s[1..], '-'));
      if IsUpper(c) {
        var k := ['-', ToLower(c)] + tail;
        assert k[2..] == tail;
      } else {
        var k := [c] + tail;
        assert k[1..] == tail;
      }
      assert s == [c] + s[1..];
    }
  }

  lemma LowerAppend(a: string, b: string)
    ensures Lower(a + b) == Lower(a) + Lower(b)
  {
  }

  /** A later registration wins; keys it does not write keep the earlier view. */
  lemma RegisterOverrides<V>(reg: map<string, V>, n1: string, v1: V, n2: string, v2: V, k: string)
    requires k in RegistryKeys(n1)
    ensures var r := Register(Register(reg, n1, v1).0, n2, v2).0;
      r[k] == if k in RegistryKeys(n2) then v2 else v1
  {
  }
}
