/** The tag summary view (tagtracker/views/tag_summary.py): one line listing
    every tag that does not contain a date `dddd-dd-dd`, most-used first, as
    `tag (count)`, separated by commas, in italics under a rule. */
module TagSummary {
  import opened Strings
  import opened Seqs
  import opened Sorting

  type Item = (string, seq<string>)

  /** A date pattern `\d{4}-\d{2}-\d{2}` starts at position `i` of `s`. */
  predicate DateAt(s: string, i: int) {
    && 0 <= i && i + 10 <= |s|
    && IsDigit(s[i]) && IsDigit(s[i + 1]) && IsDigit(s[i + 2]) && IsDigit(s[i + 3])
    && s[i + 4] == '-'
    && IsDigit(s[i + 5]) && IsDigit(s[i + 6])
    && s[i + 7] == '-'
    && IsDigit(s[i + 8]) && IsDigit(s[i + 9])
  }

  /** `re.search(r"\d{4}-\d{2}-\d{2}", s)` finds a match: the pattern is tried
      at each position in turn. */
  function ContainsDate(s: string): bool
    decreases |s|
  {
    if |s| < 10 then false else DateAt(s, 0) || ContainsDate(s[1..])
  }

  /** The tags the summary keeps. */
  predicate Undated(i: Item) {
    !ContainsDate(i.0)
  }

  /** The sort key: how many references a tag has. */
  function Count(i: Item): int {
    |i.1|
  }

  /** The kept tags, most references first; `reverse=True` keeps ties in order. */
  function Ordered(items: seq<Item>): seq<Item> {
    SortBy(Filter(items, Undated), Count, IntGreater)
  }

  /** `f"{tag} ({len(refs)})"`. */
  function Entry(i: Item): string {
    i.0 + " (" + NatToString(|i.1|) + ")"
  }

  function Entries(items: seq<Item>): (r: seq<string>)
    ensures |r| == |items|
    ensures forall k :: 0 <= k < |items| ==> r[k] == Entry(items[k])
  {
    seq(|items|, k requires 0 <= k < |items| => Entry(items[k]))
  }

  const Header := "\n\n\n----\n*"
  const Footer := "*\n\n"

  /** The whole view. */
  function Summary(items: seq<Item>): string {
    Header + Join(", ", Entries(Ordered(items))) + Footer
  }

  // ---------------------------------------------------------------------
  // Properties

  /** The scan finds a date exactly when one occurs somewhere in the tag. */
  lemma {:induction false} ContainsDateSpec(s: string)
    ensures ContainsDate(s) <==> exists i :: DateAt(s, i)
    decreases |s|
  {
    if |s| >= 10 {
      ContainsDateSpec(s[1..]);
      if exists i :: DateAt(s[1..], i) {
        var i :| DateAt(s[1..], i);
        assert DateAt(s, i + 1);
      }
      if exists i :: DateAt(s, i) {
        var i :| DateAt(s, i);
        if i > 0 {
          assert DateAt(s[1..], i - 1);
        }
      }
    } else {
      assert forall i :: !DateAt(s, i);
    }
  }

  /** The summary lists the undated tags and nothing else, each as often as
      it occurs, with non-increasing counts, and tags with equal counts in
      their index order. */
  lemma OrderedSpec(items: seq<Item>, n: int)
    ensures multiset(Ordered(items)) == multiset(Filter(items, Undated))
    ensures forall x :: x in Ordered(items) <==> x in items && Undated(x)
    ensures forall i, j :: 0 <= i < j < |Ordered(items)| ==> Count(Ordered(items)[i]) >= Count(Ordered(items)[j])
    ensures WithKey(Ordered(items), Count, n) == Filter(Filter(items, Undated), KeyIs(Count, n))
  {
    var kept := Filter(items, Undated);
    IntOrders();
    SortBySorted(kept, Count, IntGreater);
    SortByStable(kept, Count, IntGreater, n);
    forall x ensures x in Ordered(items) <==> x in items && Undated(x) {
      calc {
        x in Ordered(items);
        x in multiset(Ordered(items));
        x in multiset(kept);
        x in kept;
      }
    }
  }

  /** A tag carrying a date anywhere, such as a daily note's tag, is never listed. */
  lemma DatedTagOmitted(items: seq<Item>, tag: string, refs: seq<string>, i: int)
    requires DateAt(tag, i)
    ensures (tag, refs) !in Ordered(items)
  {
    ContainsDateSpec(tag);
    OrderedSpec(items, 0);
  }

  /** The line names each kept tag with its count, in the order above. */
  lemma SummaryShape(items: seq<Item>)
    ensures var es := Entries(Ordered(items));
      && Summary(items) == Header + Join(", ", es) + Footer
      && |es| == |Ordered(items)|
      && (forall k :: 0 <= k < |es| ==>
            es[k] == Ordered(items)[k].0 + " (" + NatToString(Count(Ordered(items)[k])) + ")")
      && forall k :: 0 <= k < |es| ==> ParseNat(NatToString(Count(Ordered(items)[k]))) == |Ordered(items)[k].1|
  {
    var o := Ordered(items);
    forall k | 0 <= k < |o| ensures ParseNat(NatToString(Count(o[k]))) == |o[k].1| {
      ParseNatToString(|o[k].1|);
    }
  }

  /** With no tags, or only dated ones, the line is empty between its markers. */
  lemma EmptySummary(items: seq<Item>)
    requires forall k :: 0 <= k < |items| ==> ContainsDate(items[k].0)
    ensures Summary(items) == "\n\n\n----\n**\n\n"
  {
    FilterNone(items, Undated);
  }
}
