/** Building the tag index: `TagTracker.index` in all three versions.

    A call `index(directory, found_files)` does nothing when `directory` is not
    a directory or its path contains ".git"; otherwise it walks the directory
    and, for every file it lists, joins the walk root and the file name. A path
    already in `found_files` is skipped; any other path is added to the set,
    and when its name contains ".md" its contents are scanned for tags and one
    reference to the file is appended to each tag's list per occurrence.

    The walk itself (`os.walk`, `os.path.isdir`, reading files, and the
    recursive calls on sub-directories) is input: a list of batches, one per
    step of a walk, in the order the calls process them, each naming the
    directory of the call it belongs to. */
module Indexer {
  import opened Strings
  import opened Seqs
  import opened Multimap
  import opened Tags

  /** tag -> references, in the order the tags were first seen. */
  type TagIndex = Multimap<string, string>

  /** `[label](url)` in the package and in src/tag-tracker.py; `[[label]]` in script.py. */
  datatype RefStyle = MarkdownLink | WikiLink

  /** How references are written. `relPath` is `os.path.relpath(path, self.dir)`,
      which normalises paths the way the operating system does. */
  datatype Linker = Linker(style: RefStyle, relPath: string -> string)

  /** A file as the walk lists it: its name and what reading it returns. */
  datatype Listing = Listing(name: string, contents: string)

  /** One step of `os.walk` inside one call of `index`: the call's directory
      argument, whether that is a directory, the walk root and the files there. */
  datatype Batch = Batch(directory: string, isDir: bool, root: string, files: seq<Listing>)

  /** A file the walk reaches: its joined path and its listing. */
  type Entry = (string, Listing)

  /** `found_files`, the paths scanned so far (in order), and the index. */
  datatype ScanState = ScanState(found: set<string>, scanned: seq<string>, index: TagIndex)

  // ---------------------------------------------------------------------
  // References

  /** `".md" in filename`: a substring test, so "notes.md.bak" is read too. */
  predicate IsMd(name: string) {
    Contains(name, ".md")
  }

  /** `file_path.split('/')[-1][:-3]`. */
  function Label(path: string): string {
    DropLast(LastSegment(path), 3)
  }

  /** `rel_path.replace(' ', '%20')`. */
  function Url(lk: Linker, path: string): string {
    EscapeSpaces(lk.relPath(path))
  }

  /** The reference appended for a file. */
  function Reference(lk: Linker, path: string): string {
    match lk.style
    case MarkdownLink => "[" + Label(path) + "](" + Url(lk, path) + ")"
    case WikiLink => "[[" + Label(path) + "]]"
  }

  /** A reference names the file by its listed name minus three characters,
      and its link target has no spaces; when the relative path has no `%`,
      the target decodes back to it (a `%20` already in the path would
      decode to a space). */
  lemma ReferenceOfListing(lk: Linker, root: string, name: string)
    requires '/' !in name
    ensures var path := PathJoin(root, name);
      && Label(path) == DropLast(name, 3)
      && ' ' !in Url(lk, path)
      && ('%' !in lk.relPath(path) ==> UnescapeSpaces(Url(lk, path)) == lk.relPath(path))
      && Reference(lk, path) == match lk.style
           case MarkdownLink => "[" + DropLast(name, 3) + "](" + Url(lk, path) + ")"
           case WikiLink => "[[" + DropLast(name, 3) + "]]"
  {
    var path := PathJoin(root, name);
    LastSegmentOfJoin(root, name);
    if '%' !in lk.relPath(path) {
      UnescapeEscape(lk.relPath(path));
    }
  }

  // ---------------------------------------------------------------------
  // Appending a file's tags

  function Pairs(tags: seq<string>, ref: string): (kvs: seq<(string, string)>)
    ensures |kvs| == |tags|
    ensures forall i :: 0 <= i < |tags| ==> kvs[i] == (tags[i], ref)
  {
    seq(|tags|, i requires 0 <= i < |tags| => (tags[i], ref))
  }

  /** `for tag in tags: self.tags[tag].append(formatted)`. */
  function IndexTags(ix: TagIndex, tags: seq<string>, ref: string): (r: TagIndex)
    ensures Valid(ix) ==> Valid(r)
  {
    AppendAll(ix, Pairs(tags, ref))
  }

  lemma {:induction false} ValuesForPairs(tags: seq<string>, ref: string, t: string)
    ensures ValuesFor(Pairs(tags, ref), t) == Copies(ref, multiset(tags)[t])
    decreases |tags|
  {
    if tags != [] {
      assert Pairs(tags, ref)[1..] == Pairs(tags[1..], ref);
      ValuesForPairs(tags[1..], ref, t);
      assert tags == [tags[0]] + tags[1..];
    }
  }

  /** One reference per occurrence: duplicates are appended, not merged. */
  lemma IndexTagsGet(ix: TagIndex, tags: seq<string>, ref: string, t: string)
    ensures Get(IndexTags(ix, tags, ref), t) == Get(ix, t) + Copies(ref, multiset(tags)[t])
  {
    AppendAllGet(ix, Pairs(tags, ref), t);
    ValuesForPairs(tags, ref, t);
  }

  /** New tags join the key order at their first occurrence. */
  lemma IndexTagsKeys(ix: TagIndex, tags: seq<string>, ref: string)
    ensures IndexTags(ix, tags, ref).keys == ix.keys + FirstOccurrences(tags, ix.vals.Keys)
    ensures IndexTags(ix, tags, ref).vals.Keys == ix.vals.Keys + Elems(tags)
  {
    var r := IndexTags(ix, tags, ref);
    assert KeysOf(Pairs(tags, ref)) == tags;
    AppendAllKeys(ix, Pairs(tags, ref));
    AppendAllDomain(ix, Pairs(tags, ref));
  }

  // ---------------------------------------------------------------------
  // The walk

  /** The body of the loop over `files`, for one joined path. */
  function VisitEntry(lk: Linker, st: ScanState, e: Entry): (r: ScanState)
    ensures r.found == st.found + {e.0}
  {
    var (path, file) := e;
    if path in st.found then st
    else if !IsMd(file.name) then st.(found := st.found + {path})
    else
      ScanState(st.found + {path}, st.scanned + [path],
                IndexTags(st.index, ExtractTags(file.contents), Reference(lk, path)))
  }

  /** Visits the entries in order. */
  function Walk(lk: Linker, st: ScanState, es: seq<Entry>): (r: ScanState)
    decreases |es|
  {
    if es == [] then st else Walk(lk, VisitEntry(lk, st, es[0]), es[1..])
  }

  /** `os.path.join(root, filename)` for every file of a batch. */
  function BatchEntries(b: Batch): (es: seq<Entry>)
    ensures |es| == |b.files|
    ensures forall i :: 0 <= i < |es| ==> es[i] == (PathJoin(b.root, b.files[i].name), b.files[i])
  {
    seq(|b.files|, i requires 0 <= i < |b.files| => (PathJoin(b.root, b.files[i].name), b.files[i]))
  }

  /** `not os.path.isdir(directory) or ".git" in directory`: the call returns at once. */
  predicate Skipped(b: Batch) {
    !b.isDir || Contains(b.directory, ".git")
  }

  function ScanBatch(lk: Linker, st: ScanState, b: Batch): (r: ScanState)
  {
    if Skipped(b) then st else Walk(lk, st, BatchEntries(b))
  }

  function Scan(lk: Linker, st: ScanState, bs: seq<Batch>): (r: ScanState)
    decreases |bs|
  {
    if bs == [] then st else Scan(lk, ScanBatch(lk, st, bs[0]), bs[1..])
  }

  /** `self.index(self.dir, set())` on a fresh tracker. */
  function Index(lk: Linker, bs: seq<Batch>): (r: ScanState)
    ensures Valid(r.index)
  {
    var st := ScanState({}, [], Empty());
    ScanIsWalk(lk, st, bs);
    WalkValid(lk, st, Entries(bs));
    Scan(lk, st, bs)
  }

  // ---------------------------------------------------------------------
  // An independent description of the result

  /** Every entry of every batch that is not skipped, in processing order. */
  function Entries(bs: seq<Batch>): seq<Entry>
    decreases |bs|
  {
    if bs == [] then []
    else (if Skipped(bs[0]) then [] else BatchEntries(bs[0])) + Entries(bs[1..])
  }

  /** The entries whose path is not in `seen` and not listed earlier. */
  function Fresh(es: seq<Entry>, seen: set<string>): seq<Entry>
    decreases |es|
  {
    if es == [] then []
    else if es[0].0 in seen then Fresh(es[1..], seen)
    else [es[0]] + Fresh(es[1..], seen + {es[0].0})
  }

  /** The paths of the markdown entries, in order. */
  function MdPaths(fs: seq<Entry>): seq<string>
    decreases |fs|
  {
    if fs == [] then []
    else (if IsMd(fs[0].1.name) then [fs[0].0] else []) + MdPaths(fs[1..])
  }

  /** What one entry adds when it is opened: its tags if it is markdown. */
  function EntryTags(e: Entry): seq<string> {
    if IsMd(e.1.name) then ExtractTags(e.1.contents) else []
  }

  /** The references one opened entry adds to tag `t`: one per occurrence. */
  function EntryRefs(lk: Linker, e: Entry, t: string): seq<string> {
    if IsMd(e.1.name) then Copies(Reference(lk, e.0), multiset(ExtractTags(e.1.contents))[t]) else []
  }

  /** The tags of the markdown entries, in text order. */
  function AllTags(fs: seq<Entry>): seq<string>
    decreases |fs|
  {
    if fs == [] then [] else EntryTags(fs[0]) + AllTags(fs[1..])
  }

  /** The references the markdown entries contribute to tag `t`. */
  function Refs(lk: Linker, fs: seq<Entry>, t: string): seq<string>
    decreases |fs|
  {
    if fs == [] then [] else EntryRefs(lk, fs[0], t) + Refs(lk, fs[1..], t)
  }

  /** Visiting a path already found changes nothing; visiting a new one adds
      its references and its new tags. */
  lemma VisitEntryIndex(lk: Linker, st: ScanState, e: Entry, t: string)
    ensures e.0 in st.found ==> VisitEntry(lk, st, e) == st
    ensures e.0 !in st.found ==>
      && Get(VisitEntry(lk, st, e).index, t) == Get(st.index, t) + EntryRefs(lk, e, t)
      && VisitEntry(lk, st, e).index.keys == st.index.keys + FirstOccurrences(EntryTags(e), st.index.vals.Keys)
      && VisitEntry(lk, st, e).index.vals.Keys == st.index.vals.Keys + Elems(EntryTags(e))
  {
    if e.0 !in st.found {
      if IsMd(e.1.name) {
        IndexTagsGet(st.index, ExtractTags(e.1.contents), Reference(lk, e.0), t);
        IndexTagsKeys(st.index, ExtractTags(e.1.contents), Reference(lk, e.0));
      } else {
        assert Elems(EntryTags(e)) == {};
      }
    }
  }

  function Paths(es: seq<Entry>): set<string> {
    set i | 0 <= i < |es| :: es[i].0
  }

  /** The index stays well formed. */
  lemma {:induction false} WalkValid(lk: Linker, st: ScanState, es: seq<Entry>)
    requires Valid(st.index)
    ensures Valid(Walk(lk, st, es).index)
    decreases |es|
  {
    if es != [] {
      WalkValid(lk, VisitEntry(lk, st, es[0]), es[1..]);
    }
  }

  lemma {:induction false} WalkFound(lk: Linker, st: ScanState, es: seq<Entry>)
    ensures Walk(lk, st, es).found == st.found + Paths(es)
    decreases |es|
  {
    if es != [] {
      WalkFound(lk, VisitEntry(lk, st, es[0]), es[1..]);
      assert Paths(es) == {es[0].0} + Paths(es[1..]) by {
        forall p ensures p in Paths(es) <==> p in {es[0].0} + Paths(es[1..]) {
          if p in Paths(es) {
            var i :| 0 <= i < |es| && es[i].0 == p;
            if i > 0 {
              assert es[1..][i - 1].0 == p;
            }
          }
          if p in Paths(es[1..]) {
            var i :| 0 <= i < |es[1..]| && es[1..][i].0 == p;
            assert es[i + 1].0 == p;
          }
        }
      }
    }
  }

  lemma FreshSeen(es: seq<Entry>, seen: set<string>)
    requires es != [] && es[0].0 in seen
    ensures Fresh(es, seen) == Fresh(es[1..], seen)
  {
  }

  lemma FreshNew(es: seq<Entry>, seen: set<string>)
    requires es != [] && es[0].0 !in seen
    ensures Fresh(es, seen) == [es[0]] + Fresh(es[1..], seen + {es[0].0})
  {
  }

  lemma Unfold(fs: seq<Entry>, e: Entry)
    ensures ([e] + fs)[0] == e && ([e] + fs)[1..] == fs
  {
  }

  /** The files scanned are the fresh markdown entries, in order. */
  lemma {:induction false} WalkOpened(lk: Linker, st: ScanState, es: seq<Entry>)
    ensures Walk(lk, st, es).scanned == st.scanned + MdPaths(Fresh(es, st.found))
    decreases |es|
  {
    if es != [] {
      var st' := VisitEntry(lk, st, es[0]);
      WalkOpened(lk, st', es[1..]);
      if es[0].0 in st.found {
        FreshSeen(es, st.found);
      } else {
        FreshNew(es, st.found);
        var rest := Fresh(es[1..], st'.found);
        Unfold(rest, es[0]);
        var head := if IsMd(es[0].1.name) then [es[0].0] else [];
        assert MdPaths([es[0]] + rest) == head + MdPaths(rest);
        assert st'.scanned == st.scanned + head;
        AppendAssoc(st.scanned, head, MdPaths(rest));
      }
    }
  }

  /** Each tag's references are those of the fresh markdown entries, in order. */
  lemma {:induction false} WalkGet(lk: Linker, st: ScanState, es: seq<Entry>, t: string)
    ensures Get(Walk(lk, st, es).index, t) == Get(st.index, t) + Refs(lk, Fresh(es, st.found), t)
    decreases |es|
  {
    if es != [] {
      var st' := VisitEntry(lk, st, es[0]);
      WalkGet(lk, st', es[1..], t);
      WalkGetStep(lk, st, es, t);
    }
  }

  lemma WalkGetStep(lk: Linker, st: ScanState, es: seq<Entry>, t: string)
    requires es != []
    requires var st' := VisitEntry(lk, st, es[0]);
      Get(Walk(lk, st', es[1..]).index, t) == Get(st'.index, t) + Refs(lk, Fresh(es[1..], st'.found), t)
    ensures Get(Walk(lk, st, es).index, t) == Get(st.index, t) + Refs(lk, Fresh(es, st.found), t)
  {
    if es[0].0 in st.found {
      WalkGetSeen(lk, st, es, t);
    } else {
      WalkGetNew(lk, st, es, t);
    }
  }

  lemma WalkGetSeen(lk: Linker, st: ScanState, es: seq<Entry>, t: string)
    requires es != [] && es[0].0 in st.found
    requires Get(Walk(lk, st, es[1..]).index, t) == Get(st.index, t) + Refs(lk, Fresh(es[1..], st.found), t)
    ensures Get(Walk(lk, st, es).index, t) == Get(st.index, t) + Refs(lk, Fresh(es, st.found), t)
  {
    FreshSeen(es, st.found);
  }

  lemma WalkGetNew(lk: Linker, st: ScanState, es: seq<Entry>, t: string)
    requires es != [] && es[0].0 !in st.found
    requires var st' := VisitEntry(lk, st, es[0]);
      Get(Walk(lk, st', es[1..]).index, t) == Get(st'.index, t) + Refs(lk, Fresh(es[1..], st'.found), t)
    ensures Get(Walk(lk, st, es).index, t) == Get(st.index, t) + Refs(lk, Fresh(es, st.found), t)
  {
    var st' := VisitEntry(lk, st, es[0]);
    var rest := Fresh(es[1..], st'.found);
    var mine := EntryRefs(lk, es[0], t);
    assert Refs(lk, Fresh(es, st.found), t) == mine + Refs(lk, rest, t) by {
      FreshNew(es, st.found);
      Unfold(rest, es[0]);
    }
    assert Get(st'.index, t) == Get(st.index, t) + mine by {
      VisitEntryIndex(lk, st, es[0], t);
    }
    AppendAssoc(Get(st.index, t), mine, Refs(lk, rest, t));
  }

  /** Tags enter the index in the order they are first met. */
  lemma {:induction false} WalkKeys(lk: Linker, st: ScanState, es: seq<Entry>)
    ensures Walk(lk, st, es).index.keys
         == st.index.keys + FirstOccurrences(AllTags(Fresh(es, st.found)), st.index.vals.Keys)
    decreases |es|
  {
    if es != [] {
      var st' := VisitEntry(lk, st, es[0]);
      WalkKeys(lk, st', es[1..]);
      WalkKeysStep(lk, st, es);
    }
  }

  lemma WalkKeysStep(lk: Linker, st: ScanState, es: seq<Entry>)
    requires es != []
    requires var st' := VisitEntry(lk, st, es[0]);
      Walk(lk, st', es[1..]).index.keys
        == st'.index.keys + FirstOccurrences(AllTags(Fresh(es[1..], st'.found)), st'.index.vals.Keys)
    ensures Walk(lk, st, es).index.keys
         == st.index.keys + FirstOccurrences(AllTags(Fresh(es, st.found)), st.index.vals.Keys)
  {
    if es[0].0 in st.found {
      FreshSeen(es, st.found);
    } else {
      WalkKeysNew(lk, st, es);
    }
  }

  lemma WalkKeysNew(lk: Linker, st: ScanState, es: seq<Entry>)
    requires es != [] && es[0].0 !in st.found
    requires var st' := VisitEntry(lk, st, es[0]);
      Walk(lk, st', es[1..]).index.keys
        == st'.index.keys + FirstOccurrences(AllTags(Fresh(es[1..], st'.found)), st'.index.vals.Keys)
    ensures Walk(lk, st, es).index.keys
         == st.index.keys + FirstOccurrences(AllTags(Fresh(es, st.found)), st.index.vals.Keys)
  {
    var st' := VisitEntry(lk, st, es[0]);
    var rest := Fresh(es[1..], st'.found);
    var seen := st.index.vals.Keys;
    var tags := EntryTags(es[0]);
    assert AllTags(Fresh(es, st.found)) == tags + AllTags(rest) by {
      FreshNew(es, st.found);
      Unfold(rest, es[0]);
    }
    assert st'.index.keys == st.index.keys + FirstOccurrences(tags, seen)
           && st'.index.vals.Keys == seen + Elems(tags) by {
      VisitEntryIndex(lk, st, es[0], "");
    }
    assert FirstOccurrences(tags + AllTags(rest), seen)
           == FirstOccurrences(tags, seen) + FirstOccurrences(AllTags(rest), seen + Elems(tags)) by {
      FirstOccurrencesAppend(tags, AllTags(rest), seen);
    }
    AppendAssoc(st.index.keys, FirstOccurrences(tags, seen), FirstOccurrences(AllTags(rest), seen + Elems(tags)));
  }

  lemma {:induction false} WalkAppend(lk: Linker, st: ScanState, a: seq<Entry>, b: seq<Entry>)
    ensures Walk(lk, st, a + b) == Walk(lk, Walk(lk, st, a), b)
    decreases |a|
  {
    if a == [] {
      assert a + b == b;
    } else {
      assert (a + b)[0] == a[0];
      assert (a + b)[1..] == a[1..] + b;
      WalkAppend(lk, VisitEntry(lk, st, a[0]), a[1..], b);
    }
  }

  /** Scanning batches is walking their entries, skipped calls left out. */
  lemma {:induction false} ScanIsWalk(lk: Linker, st: ScanState, bs: seq<Batch>)
    ensures Scan(lk, st, bs) == Walk(lk, st, Entries(bs))
    decreases |bs|
  {
    if bs != [] {
      var head := if Skipped(bs[0]) then [] else BatchEntries(bs[0]);
      WalkAppend(lk, st, head, Entries(bs[1..]));
      ScanIsWalk(lk, ScanBatch(lk, st, bs[0]), bs[1..]);
    }
  }

  lemma {:induction false} EntriesAppend(a: seq<Batch>, b: seq<Batch>)
    ensures Entries(a + b) == Entries(a) + Entries(b)
    decreases |a|
  {
    if a == [] {
      assert a + b == b;
    } else {
      assert (a + b)[0] == a[0];
      assert (a + b)[1..] == a[1..] + b;
      EntriesAppend(a[1..], b);
    }
  }

  /** A call on a non-directory or a ".git" path changes nothing, wherever it comes. */
  lemma SkippedBatchNoEffect(lk: Linker, st: ScanState, a: seq<Batch>, b: Batch, c: seq<Batch>)
    requires Skipped(b)
    ensures Scan(lk, st, a + [b] + c) == Scan(lk, st, a + c)
  {
    EntriesAppend(a + [b], c);
    EntriesAppend(a, [b]);
    EntriesAppend(a, c);
    assert [b][1..] == [];
    assert Entries([b]) == [];
    assert a + [b] + c == (a + [b]) + c;
    assert Entries(a) + [] == Entries(a);
    ScanIsWalk(lk, st, a + [b] + c);
    ScanIsWalk(lk, st, a + c);
  }

  /** A file whose name lacks ".md" is recorded as found and nothing else. */
  lemma NonMarkdownOnlyFound(lk: Linker, st: ScanState, e: Entry)
    requires !IsMd(e.1.name)
    ensures VisitEntry(lk, st, e) == st.(found := st.found + {e.0})
  {
  }

  /** The scanned paths are the fresh markdown paths: none seen before, none twice. */
  lemma {:induction false} MdPathsFresh(es: seq<Entry>, seen: set<string>)
    ensures forall p :: p in MdPaths(Fresh(es, seen)) ==> p !in seen
    ensures Distinct(MdPaths(Fresh(es, seen)))
    decreases |es|
  {
    if es != [] {
      var p := es[0].0;
      if p in seen {
        FreshSeen(es, seen);
        MdPathsFresh(es[1..], seen);
      } else {
        FreshNew(es, seen);
        var rest := Fresh(es[1..], seen + {p});
        MdPathsFresh(es[1..], seen + {p});
        Unfold(rest, es[0]);
        var tail := MdPaths(rest);
        if IsMd(es[0].1.name) {
          assert MdPaths([es[0]] + rest) == [p] + tail;
          assert p !in tail;
        } else {
          assert MdPaths([es[0]] + rest) == [] + tail;
        }
      }
    }
  }

  lemma {:induction false} AllTagsValid(fs: seq<Entry>)
    ensures forall t :: t in AllTags(fs) ==> IsTag(t)
    decreases |fs|
  {
    if fs != [] {
      AllTagsValid(fs[1..]);
    }
  }

  /** The index of a whole run: each tag's references are one per occurrence
      in the files read, in walk order. */
  lemma IndexRefs(lk: Linker, bs: seq<Batch>, t: string)
    ensures Get(Index(lk, bs).index, t) == Refs(lk, Fresh(Entries(bs), {}), t)
  {
    var st := ScanState({}, [], Empty());
    ScanIsWalk(lk, st, bs);
    WalkGet(lk, st, Entries(bs), t);
    assert Get(st.index, t) == [];
  }

  /** The tags are indexed in the order they first occur in the files read. */
  lemma IndexKeys(lk: Linker, bs: seq<Batch>)
    ensures Index(lk, bs).index.keys == FirstOccurrences(AllTags(Fresh(Entries(bs), {})), {})
  {
    var st := ScanState({}, [], Empty());
    ScanIsWalk(lk, st, bs);
    WalkKeys(lk, st, Entries(bs));
    assert st.index.vals.Keys == {};
    assert st.index.keys == [];
  }

  /** Every key of the index is a tag: non-empty, without `#` or whitespace. */
  lemma IndexKeysAreTags(lk: Linker, bs: seq<Batch>)
    ensures forall k :: k in Index(lk, bs).index.vals ==> IsTag(k)
  {
    var r := Index(lk, bs);
    var fs := Fresh(Entries(bs), {});
    IndexKeys(lk, bs);
    FirstOccurrencesMembers(AllTags(fs), {});
    AllTagsValid(fs);
    forall k | k in r.index.vals
      ensures IsTag(k)
    {
      assert k in r.index.keys;
    }
  }

  /** Every path is scanned at most once across all calls, and only the fresh
      markdown paths are scanned. */
  lemma IndexOpensOnce(lk: Linker, bs: seq<Batch>)
    ensures Index(lk, bs).scanned == MdPaths(Fresh(Entries(bs), {}))
    ensures Distinct(Index(lk, bs).scanned)
    ensures Index(lk, bs).found == Paths(Entries(bs))
  {
    var st := ScanState({}, [], Empty());
    ScanIsWalk(lk, st, bs);
    WalkOpened(lk, st, Entries(bs));
    WalkFound(lk, st, Entries(bs));
    MdPathsFresh(Entries(bs), {});
    assert [] + MdPaths(Fresh(Entries(bs), {})) == MdPaths(Fresh(Entries(bs), {}));
  }
}
