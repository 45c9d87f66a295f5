/** String primitives the tracker relies on, in Python's terms: the character
    classes of its regular expressions, `str.join`, `str.split`, `in`,
    `str.replace`, `str * int`, slicing with a negative bound, decimal
    formatting and `posixpath.join`. Strings are `seq<char>`. */
module Strings {

  /** Python's `str.isspace()`, which is also what `\s` matches in a str pattern. */
  predicate IsSpace(c: char) {
    || c == ' '
    || ('\t' <= c <= '\r')
    || ('\U{1C}' <= c <= '\U{1F}')
    || c == '\U{85}'
    || c == '\U{A0}'
    || c == '\U{1680}'
    || ('\U{2000}' <= c <= '\U{200A}')
    || c == '\U{2028}'
    || c == '\U{2029}'
    || c == '\U{202F}'
    || c == '\U{205F}'
    || c == '\U{3000}'
  }

  predicate IsDigit(c: char) {
    '0' <= c <= '9'
  }

  predicate IsUpper(c: char) {
    'A' <= c <= 'Z'
  }

  predicate IsLower(c: char) {
    'a' <= c <= 'z'
  }

  function ToUpper(c: char): (r: char)
    ensures IsLower(c) ==> IsUpper(r) && r as int == c as int - 32
    ensures !IsLower(c) ==> r == c
  {
    if IsLower(c) then (c as int - 32) as char else c
  }

  function ToLower(c: char): (r: char)
    ensures IsUpper(c) ==> IsLower(r) && ToUpper(r) == c
    ensures !IsUpper(c) ==> r == c
  {
    if IsUpper(c) then (c as int + 32) as char else c
  }

  /** `s.lower()` (case mapping restricted to ASCII letters). */
  function Lower(s: string): (r: string)
    ensures |r| == |s|
    ensures forall i :: 0 <= i < |s| ==> r[i] == ToLower(s[i])
  {
    seq(|s|, i requires 0 <= i < |s| => ToLower(s[i]))
  }

  predicate NoUpper(s: string) {
    forall i :: 0 <= i < |s| ==> !IsUpper(s[i])
  }

  lemma LowerNoUpper(s: string)
    requires NoUpper(s)
    ensures Lower(s) == s
  {
  }

  // ---------------------------------------------------------------------
  // Substrings

  predicate StartsWith(s: string, p: string) {
    |p| <= |s| && s[..|p|] == p
  }

  /** Python's `sub in s` on strings. */
  predicate Contains(s: string, sub: string)
    decreases |s|
  {
    StartsWith(s, sub) || (|s| > 0 && Contains(s[1..], sub))
  }

  /** `sub` occurs in `s` starting at index `i`. */
  predicate OccursAt(s: string, sub: string, i: int) {
    0 <= i <= |s| - |sub| && s[i..i + |sub|] == sub
  }

  /** `Contains` finds exactly the positions where `sub` occurs. */
  lemma {:induction false} ContainsAt(s: string, sub: string)
    ensures Contains(s, sub) <==> exists i :: OccursAt(s, sub, i)
    decreases |s|
  {
    if Contains(s, sub) {
      if StartsWith(s, sub) {
        assert OccursAt(s, sub, 0);
      } else {
        ContainsAt(s[1..], sub);
        var j :| OccursAt(s[1..], sub, j);
        assert s[j + 1..j + 1 + |sub|] == s[1..][j..j + |sub|];
        assert OccursAt(s, sub, j + 1);
      }
    }
    if exists i :: OccursAt(s, sub, i) {
      var i :| OccursAt(s, sub, i);
      if i == 0 {
        assert StartsWith(s, sub);
      } else {
        assert s[1..][i - 1..i - 1 + |sub|] == s[i..i + |sub|];
        assert OccursAt(s[1..], sub, i - 1);
        ContainsAt(s[1..], sub);
      }
    }
  }

  // ---------------------------------------------------------------------
  // Replacing spaces in URLs

  /** `s.replace(' ', '%20')`. */
  function EscapeSpaces(s: string): (r: string)
    ensures ' ' !in r
    ensures '%' !in s ==> forall i :: 0 <= i < |r| && r[i] == '%' ==> i + 2 < |r| && r[i + 1] == '2' && r[i + 2] == '0'
    decreases |s|
  {
    if s == [] then []
    else (if s[0] == ' ' then "%20" else [s[0]]) + EscapeSpaces(s[1..])
  }

  /** Decodes every `%20` back to a space. */
  function UnescapeSpaces(s: string): string
    decreases |s|
  {
    if |s| >= 3 && s[..3] == "%20" then " " + UnescapeSpaces(s[3..])
    else if s == [] then []
    else [s[0]] + UnescapeSpaces(s[1..])
  }

  /** Escaping loses nothing when the path has no `%` of its own. */
  lemma {:induction false} UnescapeEscape(s: string)
    requires '%' !in s
    ensures UnescapeSpaces(EscapeSpaces(s)) == s
    decreases |s|
  {
    if s != [] {
      UnescapeEscape(s[1..]);
      var e := EscapeSpaces(s);
      if s[0] == ' ' {
        assert e == "%20" + EscapeSpaces(s[1..]);
        assert e[..3] == "%20" && e[3..] == EscapeSpaces(s[1..]);
      } else {
        assert e == [s[0]] + EscapeSpaces(s[1..]);
        assert e[1..] == EscapeSpaces(s[1..]);
      }
    }
  }

  // ---------------------------------------------------------------------
  // Join, split, concatenation, repetition

  /** `sep.join(xs)`. */
  function Join(sep: string, xs: seq<string>): string
    decreases |xs|
  {
    if |xs| == 0 then ""
    else if |xs| == 1 then xs[0]
    else xs[0] + sep + Join(sep, xs[1..])
  }

  /** The loop `for i, x in enumerate(xs): res += x + (sep if i < len(xs) - 1 else "")`,
      from position `i` on. */
  function Interleave(sep: string, xs: seq<string>, i: nat): string
    requires i <= |xs|
    decreases |xs| - i
  {
    if i == |xs| then "" else xs[i] + (if i < |xs| - 1 then sep else "") + Interleave(sep, xs, i + 1)
  }

  /** The loop builds `sep.join` of the remaining elements. */
  lemma {:induction false} InterleaveJoin(sep: string, xs: seq<string>, i: nat)
    requires i <= |xs|
    ensures Interleave(sep, xs, i) == Join(sep, xs[i..])
    decreases |xs| - i
  {
    if i < |xs| {
      InterleaveJoin(sep, xs, i + 1);
      assert xs[i..][0] == xs[i];
      assert xs[i..][1..] == xs[i + 1..];
      if i < |xs| - 1 {
        assert (xs[i] + sep) + Join(sep, xs[i + 1..]) == xs[i] + sep + Join(sep, xs[i + 1..]);
      } else {
        assert xs[i..] == [xs[i]];
        assert xs[i] + "" + "" == xs[i];
      }
    }
  }

  /** `s.split(c)` for a one-character separator. */
  function SplitOn(s: string, c: char): (r: seq<string>)
    ensures |r| >= 1
    ensures forall w :: w in r ==> c !in w
    decreases |s|
  {
    if s == [] then [""]
    else
      var rest := SplitOn(s[1..], c);
      if s[0] == c then [""] + rest else [[s[0]] + rest[0]] + rest[1..]
  }

  lemma {:induction false} SplitOnPlain(w: string, c: char)
    requires c !in w
    ensures SplitOn(w, c) == [w]
    decreases |w|
  {
    if w != [] {
      SplitOnPlain(w[1..], c);
      assert [w[0]] + w[1..] == w;
    }
  }

  /** Splitting at a separator splits the parts independently. */
  lemma {:induction false} SplitOnSeparated(a: string, b: string, c: char)
    ensures SplitOn(a + [c] + b, c) == SplitOn(a, c) + SplitOn(b, c)
    decreases |a|
  {
    var s := a + [c] + b;
    if a == [] {
      assert s[1..] == b;
    } else {
      assert s[1..] == a[1..] + [c] + b;
      SplitOnSeparated(a[1..], b, c);
    }
  }

  /** Splitting a join on its own one-character separator gives the parts back. */
  lemma {:induction false} SplitJoin(xs: seq<string>, c: char)
    requires |xs| >= 1
    requires forall i :: 0 <= i < |xs| ==> c !in xs[i]
    ensures SplitOn(Join([c], xs), c) == xs
    decreases |xs|
  {
    if |xs| == 1 {
      SplitOnPlain(xs[0], c);
    } else {
      SplitJoin(xs[1..], c);
      SplitOnSeparated(xs[0], Join([c], xs[1..]), c);
      SplitOnPlain(xs[0], c);
      assert [xs[0]] + xs[1..] == xs;
    }
  }

  /** Each line followed by a newline: what a sequence of `write(line + "\n")` produces. */
  function Lines(ls: seq<string>): string
    decreases |ls|
  {
    if ls == [] then "" else ls[0] + "\n" + Lines(ls[1..])
  }

  /** Text made of newline-free lines splits back into those lines, plus the
      empty remainder after the final newline. */
  lemma {:induction false} SplitLines(ls: seq<string>)
    requires forall i :: 0 <= i < |ls| ==> '\n' !in ls[i]
    ensures SplitOn(Lines(ls), '\n') == ls + [""]
    decreases |ls|
  {
    if ls != [] {
      SplitLines(ls[1..]);
      SplitOnSeparated(ls[0], Lines(ls[1..]), '\n');
      SplitOnPlain(ls[0], '\n');
      assert [ls[0]] + (ls[1..] + [""]) == ls + [""];
    }
  }

  /** A joined list followed by a newline is the same text as its lines. */
  lemma {:induction false} JoinThenNewline(xs: seq<string>)
    requires |xs| >= 1
    ensures Join("\n", xs) + "\n" == Lines(xs)
    decreases |xs|
  {
    if |xs| > 1 {
      JoinThenNewline(xs[1..]);
    }
  }

  /** Every element with `p` in front. */
  function Prefixed(p: string, xs: seq<string>): (r: seq<string>)
    ensures |r| == |xs|
    ensures forall i :: 0 <= i < |xs| ==> r[i] == p + xs[i]
  {
    seq(|xs|, i requires 0 <= i < |xs| => p + xs[i])
  }

  /** `p + (sep + p).join(xs)` prefixes every element: the idiom behind
      the kanban bullets and the daily embed markers. */
  lemma {:induction false} JoinPrefixed(p: string, sep: string, xs: seq<string>)
    requires |xs| >= 1
    ensures p + Join(sep + p, xs) == Join(sep, Prefixed(p, xs))
    decreases |xs|
  {
    if |xs| > 1 {
      JoinPrefixed(p, sep, xs[1..]);
      assert Prefixed(p, xs)[1..] == Prefixed(p, xs[1..]);
    }
  }

  /** `"".join(xs)`. */
  function Concat(xs: seq<string>): (r: string)
    ensures xs == [] ==> r == ""
    decreases |xs|
  {
    if xs == [] then "" else xs[0] + Concat(xs[1..])
  }

  lemma {:induction false} ConcatAppend(xs: seq<string>, ys: seq<string>)
    ensures Concat(xs + ys) == Concat(xs) + Concat(ys)
    decreases |xs|
  {
    if xs != [] {
      assert (xs + ys)[0] == xs[0];
      assert (xs + ys)[1..] == xs[1..] + ys;
      ConcatAppend(xs[1..], ys);
    } else {
      assert xs + ys == ys;
    }
  }

  /** Python's `s * n`: empty for `n <= 0`. */
  function Repeat(s: string, n: int): (r: string)
    ensures |r| == if n <= 0 then 0 else n * |s|
    decreases n
  {
    if n <= 0 then "" else s + Repeat(s, n - 1)
  }

  lemma {:induction false} RepeatChar(c: char, n: int)
    ensures forall i :: 0 <= i < |Repeat([c], n)| ==> Repeat([c], n)[i] == c
    decreases n
  {
    if n > 0 {
      RepeatChar(c, n - 1);
    }
  }

  /** Python's `s[:-k]` for `k > 0`: drops the last `k` characters, or everything. */
  function DropLast(s: string, k: nat): (r: string)
    ensures |s| >= k ==> |r| == |s| - k && r == s[..|s| - k]
    ensures |s| < k ==> r == ""
  {
    if |s| >= k then s[..|s| - k] else ""
  }

  // ---------------------------------------------------------------------
  // Numbers

  function DigitChar(d: nat): (c: char)
    requires d < 10
    ensures IsDigit(c)
  {
    ('0' as int + d) as char
  }

  function DigitValue(c: char): nat {
    if IsDigit(c) then (c as int - '0' as int) else 0
  }

  /** `str(n)` for a natural number. */
  function NatToString(n: nat): (r: string)
    ensures |r| >= 1
    ensures forall i :: 0 <= i < |r| ==> IsDigit(r[i])
    ensures n < 10 ==> |r| == 1
    ensures 10 <= n < 100 ==> |r| == 2
    ensures n < 10000 ==> |r| <= 4
    decreases n
  {
    if n < 10 then [DigitChar(n)] else NatToString(n / 10) + [DigitChar(n % 10)]
  }

  /** `int(s)` for a string of decimal digits. */
  function ParseNat(s: string): nat
    decreases |s|
  {
    if s == [] then 0 else ParseNat(s[..|s| - 1]) * 10 + DigitValue(s[|s| - 1])
  }

  lemma {:induction false} ParseNatToString(n: nat)
    ensures ParseNat(NatToString(n)) == n
    decreases n
  {
    var r := NatToString(n);
    if n >= 10 {
      ParseNatToString(n / 10);
      assert r[..|r| - 1] == NatToString(n / 10);
    }
  }

  /** Right-aligns `s` in a field of `width` characters filled with `fill`,
      as Python's format specifications do (never truncates). */
  function PadLeft(s: string, width: int, fill: char): (r: string)
    ensures |r| == if width > |s| then width else |s|
    ensures r[|r| - |s|..] == s
    ensures forall i :: 0 <= i < |r| - |s| ==> r[i] == fill
  {
    RepeatChar(fill, width - |s|);
    Repeat([fill], width - |s|) + s
  }

  /** `format(n, "0{width}")`, how strftime writes `%Y`, `%m` and `%d`. */
  function ZeroPad(n: nat, width: nat): (r: string)
    ensures |NatToString(n)| <= width ==> |r| == width
    ensures forall i :: 0 <= i < |r| ==> IsDigit(r[i])
  {
    var s := NatToString(n);
    var r := PadLeft(s, width, '0');
    assert forall i :: |r| - |s| <= i < |r| ==> r[i] == s[i - (|r| - |s|)];
    r
  }

  // ---------------------------------------------------------------------
  // Paths

  /** `posixpath.join(a, b)`. */
  function PathJoin(a: string, b: string): string {
    if |b| > 0 && b[0] == '/' then b
    else if a == "" || a[|a| - 1] == '/' then a + b
    else a + "/" + b
  }

  /** `p.split('/')[-1]`. */
  function LastSegment(p: string): string {
    var parts := SplitOn(p, '/');
    parts[|parts| - 1]
  }

  /** The last segment of a joined path is the file name joined on. */
  lemma LastSegmentOfJoin(root: string, name: string)
    requires '/' !in name
    ensures LastSegment(PathJoin(root, name)) == name
  {
    SplitOnPlain(name, '/');
    if |name| > 0 && name[0] == '/' {
    } else if root == "" {
      assert root + name == name;
    } else if root[|root| - 1] == '/' {
      var r' := root[..|root| - 1];
      assert root + name == r' + ['/'] + name;
      SplitOnSeparated(r', name, '/');
    } else {
      assert root + "/" + name == root + ['/'] + name;
      SplitOnSeparated(root, name, '/');
    }
  }
}
