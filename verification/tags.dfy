/** Tag extraction shared by all three versions of the tracker:
    `re.findall(r"#\S+", contents)`, then `tag[1:]`, keeping only the tags
    with no `#` left in them (so markdown headings such as `## Title` or
    `##Heading` never become tags). */
module Tags {
  import opened Strings
  import opened Seqs

  predicate NoSpace(s: string) {
    forall i :: 0 <= i < |s| ==> !IsSpace(s[i])
  }

  /** What the index accepts as a tag. */
  predicate IsTag(t: string) {
    |t| > 0 && '#' !in t && NoSpace(t)
  }

  /** Length of the longest whitespace-free prefix: how far `\S+` reaches. */
  function NonSpaceRun(s: string): (n: nat)
    ensures n <= |s|
    ensures NoSpace(s[..n])
    ensures n < |s| ==> IsSpace(s[n])
    decreases |s|
  {
    if s == [] || IsSpace(s[0]) then 0 else 1 + NonSpaceRun(s[1..])
  }

  /** The matches of `#\S+`, scanning left to right; after a match the scan
      resumes where it ended, otherwise one character further on. */
  function Tokens(s: string): (ts: seq<string>)
    ensures forall i :: 0 <= i < |ts| ==> |ts[i]| >= 2 && ts[i][0] == '#' && NoSpace(ts[i])
    decreases |s|
  {
    if s == [] then []
    else if s[0] == '#' && |s| >= 2 && !IsSpace(s[1]) then
      var n := 1 + NonSpaceRun(s[1..]);
      assert s[..n] == [s[0]] + s[1..][..n - 1];
      [s[..n]] + Tokens(s[n..])
    else Tokens(s[1..])
  }

  /** `tag[1:]`. */
  function StripHash(token: string): string {
    if token == [] then [] else token[1..]
  }

  /** The tokens whose text after the leading `#` has no `#`, stripped. */
  function TagsOf(tokens: seq<string>): seq<string>
    decreases |tokens|
  {
    if tokens == [] then []
    else
      var t := StripHash(tokens[0]);
      (if '#' in t then [] else [t]) + TagsOf(tokens[1..])
  }

  /** Every tag a file's contents contribute, once per occurrence, in text order. */
  function ExtractTags(contents: string): (tags: seq<string>)
    ensures forall i :: 0 <= i < |tags| ==> IsTag(tags[i])
  {
    var ts := Tokens(contents);
    TagsOfValid(ts);
    TagsOf(ts)
  }

  lemma {:induction false} TagsOfValid(tokens: seq<string>)
    requires forall i :: 0 <= i < |tokens| ==> |tokens[i]| >= 2 && NoSpace(tokens[i])
    ensures forall i :: 0 <= i < |TagsOf(tokens)| ==> IsTag(TagsOf(tokens)[i])
    decreases |tokens|
  {
    if tokens != [] {
      TagsOfValid(tokens[1..]);
      var t := StripHash(tokens[0]);
      assert forall k :: 0 <= k < |t| ==> t[k] == tokens[0][k + 1];
    }
  }

  lemma {:induction false} TagsOfAppend(a: seq<string>, b: seq<string>)
    ensures TagsOf(a + b) == TagsOf(a) + TagsOf(b)
    decreases |a|
  {
    if a == [] {
      assert a + b == b;
    } else {
      assert (a + b)[0] == a[0];
      assert (a + b)[1..] == a[1..] + b;
      TagsOfAppend(a[1..], b);
    }
  }

  // ---------------------------------------------------------------------
  // Independent descriptions of the scan

  lemma {:induction false} NonSpaceRunStops(x: string, w: char, b: string)
    requires NoSpace(x) && IsSpace(w)
    ensures NonSpaceRun(x + [w] + b) == |x|
    decreases |x|
  {
    if x != [] {
      assert (x + [w] + b)[1..] == x[1..] + [w] + b;
      NonSpaceRunStops(x[1..], w, b);
    }
  }

  lemma {:induction false} NonSpaceRunPrefix(a: string, w: char, b: string)
    requires IsSpace(w)
    ensures NonSpaceRun(a + [w] + b) == NonSpaceRun(a)
    decreases |a|
  {
    if a != [] && !IsSpace(a[0]) {
      assert (a + [w] + b)[1..] == a[1..] + [w] + b;
      NonSpaceRunPrefix(a[1..], w, b);
    }
  }

  /** A whitespace character separates the scan: the tokens on either side are
      found independently. */
  lemma {:induction false} TokensSeparated(a: string, w: char, b: string)
    requires IsSpace(w)
    ensures Tokens(a + [w] + b) == Tokens(a) + Tokens(b)
    decreases |a|
  {
    if a == [] {
      SpaceFirst(w, b);
    } else if a[0] == '#' && |a| >= 2 && !IsSpace(a[1]) {
      var n := 1 + NonSpaceRun(a[1..]);
      TokenAtSeparated(a, w, b);
      TokensSeparated(a[n..], w, b);
      AppendAssoc([a[..n]], Tokens(a[n..]), Tokens(b));
    } else {
      SkipSeparated(a, w, b);
      TokensSeparated(a[1..], w, b);
    }
  }

  lemma SpaceFirst(w: char, b: string)
    requires IsSpace(w)
    ensures Tokens([] + [w] + b) == [] + Tokens(b)
  {
    assert ([] + [w] + b)[1..] == b;
  }

  lemma TokenAtSeparated(a: string, w: char, b: string)
    requires IsSpace(w)
    requires |a| >= 2 && a[0] == '#' && !IsSpace(a[1])
    ensures var n := 1 + NonSpaceRun(a[1..]);
      && Tokens(a) == [a[..n]] + Tokens(a[n..])
      && Tokens(a + [w] + b) == [a[..n]] + Tokens(a[n..] + [w] + b)
  {
    var s := a + [w] + b;
    var n := 1 + NonSpaceRun(a[1..]);
    assert s[1..] == a[1..] + [w] + b;
    NonSpaceRunPrefix(a[1..], w, b);
    assert s[..n] == a[..n];
    assert s[n..] == a[n..] + [w] + b;
  }

  lemma SkipSeparated(a: string, w: char, b: string)
    requires IsSpace(w)
    requires |a| >= 1 && !(a[0] == '#' && |a| >= 2 && !IsSpace(a[1]))
    ensures Tokens(a) == Tokens(a[1..])
    ensures Tokens(a + [w] + b) == Tokens(a[1..] + [w] + b)
  {
    var s := a + [w] + b;
    assert s[1..] == a[1..] + [w] + b;
  }

  /** Text without `#` before the first `#` is skipped. */
  lemma {:induction false} TokensSkipPlain(p: string, s: string)
    requires '#' !in p
    ensures Tokens(p + s) == Tokens(s)
    decreases |p|
  {
    if p != [] {
      assert (p + s)[1..] == p[1..] + s;
      TokensSkipPlain(p[1..], s);
    } else {
      assert p + s == s;
    }
  }

  lemma {:induction false} NonSpaceRunAll(x: string)
    requires NoSpace(x)
    ensures NonSpaceRun(x) == |x|
    decreases |x|
  {
    if x != [] {
      NonSpaceRunAll(x[1..]);
    }
  }

  /** A whitespace-free word starting with `#` and one more character is one token. */
  lemma WholeWordToken(w: string)
    requires |w| >= 2 && w[0] == '#' && NoSpace(w)
    ensures Tokens(w) == [w]
  {
    NonSpaceRunAll(w[1..]);
    var n := 1 + NonSpaceRun(w[1..]);
    assert n == |w|;
    assert w[..n] == w;
    assert w[n..] == [];
  }

  /** Tags of text split at whitespace are the tags of its parts. */
  lemma ExtractTagsSeparated(a: string, w: char, b: string)
    requires IsSpace(w)
    ensures ExtractTags(a + [w] + b) == ExtractTags(a) + ExtractTags(b)
  {
    TokensSeparated(a, w, b);
    TagsOfAppend(Tokens(a), Tokens(b));
  }

  /** A word `#t`, where `t` has no `#` and no whitespace, yields exactly the tag `t`. */
  lemma PlainTagWord(t: string)
    requires IsTag(t)
    ensures ExtractTags("#" + t) == [t]
  {
    var w := "#" + t;
    assert forall i :: 1 <= i < |w| ==> w[i] == t[i - 1];
    WholeWordToken(w);
    assert StripHash(w) == t;
    assert [w][1..] == [];
    assert TagsOf([w]) == [t] + TagsOf([]);
  }

  /** A heading-style word `##...` yields nothing, whatever follows. */
  lemma HeadingWordYieldsNothing(rest: string)
    requires NoSpace(rest)
    ensures ExtractTags("##" + rest) == []
  {
    var w := "##" + rest;
    assert forall i :: 2 <= i < |w| ==> w[i] == rest[i - 2];
    WholeWordToken(w);
    assert StripHash(w)[0] == '#';
    assert [w][1..] == [];
    assert TagsOf([w]) == [] + TagsOf([]);
  }

  /** Text without any `#` yields nothing. */
  lemma NoHashNoTags(s: string)
    requires '#' !in s
    ensures ExtractTags(s) == []
  {
    TokensSkipPlain(s, "");
    assert s + "" == s;
  }

  /** `w` holds exactly one `#`, at index `i`. */
  predicate SoleHashAt(w: string, i: int) {
    0 <= i < |w| && w[i] == '#' && '#' !in w[..i] && '#' !in w[i + 1..]
  }

  /** Index of the first `#` in `s`. */
  function FirstHash(s: string): (i: nat)
    requires '#' in s
    ensures i < |s| && s[i] == '#' && '#' !in s[..i]
  {
    if s[0] == '#' then 0 else 1 + FirstHash(s[1..])
  }

  /**
   * Tags of one whitespace-free word, wherever its `#` stands: the word
   * yields the text after its `#` when it holds exactly one `#` and that
   * `#` is not its last character, and nothing otherwise. With
   * ExtractTagsSeparated this fixes the tags of every text.
   */
  lemma WordTags(w: string)
    requires NoSpace(w)
    ensures forall i :: SoleHashAt(w, i) && i < |w| - 1 ==> ExtractTags(w) == [w[i + 1..]]
    ensures (forall i :: !(SoleHashAt(w, i) && i < |w| - 1)) ==> ExtractTags(w) == []
  {
    if '#' !in w {
      NoHashNoTags(w);
      return;
    }
    var i := FirstHash(w);
    var s := w[i..];
    assert w == w[..i] + s;
    TokensSkipPlain(w[..i], s);
    assert forall j :: SoleHashAt(w, j) ==> j == i;
    if i == |w| - 1 {
      assert s == "#";
      assert Tokens(s) == Tokens(s[1..]);
      assert s[1..] == [];
    } else {
      assert forall k :: 0 <= k < |s| ==> s[k] == w[i + k];
      WholeWordToken(s);
      assert StripHash(s) == w[i + 1..];
      assert [s][1..] == [];
      var t := if '#' in w[i + 1..] then [] else [w[i + 1..]];
      assert TagsOf([s]) == t + TagsOf([]);
      if '#' !in w[i + 1..] {
        assert SoleHashAt(w, i);
      }
    }
  }

  /** A `#` inside a word starts a tag too. */
  lemma InWordHash()
    ensures ExtractTags("page#sec") == ["sec"]
  {
    var w := "page#sec";
    assert w[..4] == "page" && w[5..] == "sec";
    assert SoleHashAt(w, 4);
    WordTags(w);
  }

  /** A word holding `##` anywhere, as in `a##b`, yields nothing. */
  lemma DoubledHashWord(w: string, j: int)
    requires NoSpace(w) && 0 <= j < |w| - 1 && w[j] == '#' && w[j + 1] == '#'
    ensures ExtractTags(w) == []
  {
    WordTags(w);
    forall i | 0 <= i < |w| && w[i] == '#' && '#' !in w[..i]
      ensures '#' in w[i + 1..]
    {
      if i <= j {
        assert w[i + 1..][j - i] == '#';
      }
    }
  }
}
