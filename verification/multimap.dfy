/** An insertion-ordered map from keys to lists of values: the shape of a
    Python `defaultdict(list)` that is only ever appended to. `keys` is the
    dict's iteration order (the order in which keys were first inserted),
    `vals` its contents. Both the tag index and the report plan are of this shape. */
module Multimap {
  import opened Seqs

  datatype Multimap<K(==,!new), V> = Multimap(keys: seq<K>, vals: map<K, seq<V>>)

  ghost predicate Valid<K(!new), V>(m: Multimap<K, V>) {
    && Distinct(m.keys)
    && (forall k :: k in m.vals <==> k in m.keys)
  }

  function Empty<K(==,!new), V>(): (m: Multimap<K, V>)
    ensures Valid(m)
    ensures m.keys == [] && m.vals == map[]
  {
    Multimap([], map[])
  }

  /** `d.get(k, [])`. */
  function Get<K(==,!new), V>(m: Multimap<K, V>, k: K): seq<V> {
    if k in m.vals then m.vals[k] else []
  }

  /** `d[k].append(v)` on a `defaultdict(list)`. */
  function Append<K(==,!new), V>(m: Multimap<K, V>, k: K, v: V): (r: Multimap<K, V>)
    ensures Valid(m) ==> Valid(r)
    ensures Get(r, k) == Get(m, k) + [v]
    ensures forall k' :: k' != k ==> Get(r, k') == Get(m, k')
    ensures r.keys == if k in m.vals then m.keys else m.keys + [k]
    ensures r.vals.Keys == m.vals.Keys + {k}
  {
    if k in m.vals then Multimap(m.keys, m.vals[k := m.vals[k] + [v]])
    else Multimap(m.keys + [k], m.vals[k := [v]])
  }

  /** `d.items()` in iteration order. */
  function Items<K(==,!new), V>(m: Multimap<K, V>): (r: seq<(K, seq<V>)>)
    requires Valid(m)
    ensures |r| == |m.keys|
    ensures forall i :: 0 <= i < |r| ==> r[i] == (m.keys[i], m.vals[m.keys[i]])
  {
    seq(|m.keys|, i requires 0 <= i < |m.keys| => (m.keys[i], m.vals[m.keys[i]]))
  }

  /** The items are exactly the key/list pairs of the map, each listed once. */
  lemma ItemsMembers<K(!new), V>(m: Multimap<K, V>)
    requires Valid(m)
    ensures forall x :: x in Items(m) <==> x.0 in m.vals && x.1 == m.vals[x.0]
    ensures Distinct(Items(m))
  {
    var it := Items(m);
    forall x: (K, seq<V>) | x.0 in m.vals && x.1 == m.vals[x.0]
      ensures x in it
    {
      var i :| 0 <= i < |m.keys| && m.keys[i] == x.0;
      assert it[i] == x;
    }
  }

  /** Appends each pair in turn: `for k, v in kvs: d[k].append(v)`. */
  function AppendAll<K(==,!new), V>(m: Multimap<K, V>, kvs: seq<(K, V)>): (r: Multimap<K, V>)
    ensures Valid(m) ==> Valid(r)
    decreases |kvs|
  {
    if kvs == [] then m else AppendAll(Append(m, kvs[0].0, kvs[0].1), kvs[1..])
  }

  /** The values paired with `k`, in order. */
  function ValuesFor<K(==,!new), V>(kvs: seq<(K, V)>, k: K): seq<V>
    decreases |kvs|
  {
    if kvs == [] then [] else (if kvs[0].0 == k then [kvs[0].1] else []) + ValuesFor(kvs[1..], k)
  }

  /** The keys of the pairs, in order. */
  function KeysOf<K(==,!new), V>(kvs: seq<(K, V)>): (r: seq<K>)
    ensures |r| == |kvs|
    ensures forall i :: 0 <= i < |kvs| ==> r[i] == kvs[i].0
  {
    seq(|kvs|, i requires 0 <= i < |kvs| => kvs[i].0)
  }

  /** Appending pairs extends each key's list by exactly its values, in pair order. */
  lemma {:induction false} AppendAllGet<K(!new), V>(m: Multimap<K, V>, kvs: seq<(K, V)>, k: K)
    ensures Get(AppendAll(m, kvs), k) == Get(m, k) + ValuesFor(kvs, k)
    decreases |kvs|
  {
    if kvs != [] {
      AppendAllGet(Append(m, kvs[0].0, kvs[0].1), kvs[1..], k);
    }
  }

  /** The keys present afterwards are the old ones and those of the pairs. */
  lemma {:induction false} AppendAllDomain<K(!new), V>(m: Multimap<K, V>, kvs: seq<(K, V)>)
    ensures AppendAll(m, kvs).vals.Keys == m.vals.Keys + Elems(KeysOf(kvs))
    decreases |kvs|
  {
    if kvs != [] {
      var ks := KeysOf(kvs);
      assert ks[1..] == KeysOf(kvs[1..]);
      assert Elems(ks) == {ks[0]} + Elems(ks[1..]);
      AppendAllDomain(Append(m, kvs[0].0, kvs[0].1), kvs[1..]);
    } else {
      assert Elems(KeysOf(kvs)) == {};
    }
  }

  /** Keys keep their first-insertion order; new keys follow the old ones. */
  lemma {:induction false} AppendAllKeys<K(!new), V>(m: Multimap<K, V>, kvs: seq<(K, V)>)
    ensures AppendAll(m, kvs).keys == m.keys + FirstOccurrences(KeysOf(kvs), m.vals.Keys)
    decreases |kvs|
  {
    if kvs == [] {
      assert KeysOf(kvs) == [];
    } else {
      var k0 := kvs[0].0;
      var m' := Append(m, k0, kvs[0].1);
      var ks := KeysOf(kvs);
      assert ks[1..] == KeysOf(kvs[1..]);
      AppendAllKeys(m', kvs[1..]);
      var rest := FirstOccurrences(ks[1..], m'.vals.Keys);
      assert AppendAll(m, kvs).keys == m'.keys + rest;
      KeysStep(m, k0, kvs[0].1, ks, rest);
    }
  }

  /** Starting from the empty multimap, the keys are those of the pairs, each
      at its first occurrence. */
  lemma FromEmptyKeys<K(!new), V>(kvs: seq<(K, V)>)
    ensures AppendAll(Empty(), kvs).keys == FirstOccurrences(KeysOf(kvs), {})
    ensures forall k :: Get(AppendAll(Empty(), kvs), k) == ValuesFor(kvs, k)
  {
    var e := Empty<K, V>();
    AppendAllKeys(e, kvs);
    assert e.vals.Keys == {};
    assert e.keys + FirstOccurrences(KeysOf(kvs), {}) == FirstOccurrences(KeysOf(kvs), {});
    forall k ensures Get(AppendAll(e, kvs), k) == ValuesFor(kvs, k) {
      AppendAllGet(e, kvs, k);
      assert Get(e, k) == [];
    }
  }

  lemma KeysStep<K(!new), V>(m: Multimap<K, V>, k0: K, v: V, ks: seq<K>, rest: seq<K>)
    requires ks != [] && ks[0] == k0
    requires rest == FirstOccurrences(ks[1..], Append(m, k0, v).vals.Keys)
    ensures Append(m, k0, v).keys + rest == m.keys + FirstOccurrences(ks, m.vals.Keys)
  {
    if k0 in m.vals {
      KeysStepSeen(m, k0, v, ks, rest);
    } else {
      KeysStepNew(m, k0, v, ks, rest);
    }
  }

  lemma KeysStepSeen<K(!new), V>(m: Multimap<K, V>, k0: K, v: V, ks: seq<K>, rest: seq<K>)
    requires k0 in m.vals
    requires ks != [] && ks[0] == k0
    requires rest == FirstOccurrences(ks[1..], Append(m, k0, v).vals.Keys)
    ensures Append(m, k0, v).keys + rest == m.keys + FirstOccurrences(ks, m.vals.Keys)
  {
    var m' := Append(m, k0, v);
    assert m'.vals.Keys == m.vals.Keys;
    FirstOccurrencesSeen(ks, m.vals.Keys);
  }

  lemma KeysStepNew<K(!new), V>(m: Multimap<K, V>, k0: K, v: V, ks: seq<K>, rest: seq<K>)
    requires k0 !in m.vals
    requires ks != [] && ks[0] == k0
    requires rest == FirstOccurrences(ks[1..], Append(m, k0, v).vals.Keys)
    ensures Append(m, k0, v).keys + rest == m.keys + FirstOccurrences(ks, m.vals.Keys)
  {
    var m' := Append(m, k0, v);
    FirstOccurrencesNew(ks, m.vals.Keys);
    assert m'.keys + rest == m.keys + ([k0] + rest);
  }

  lemma FirstOccurrencesSeen<K>(ks: seq<K>, seen: set<K>)
    requires ks != [] && ks[0] in seen
    ensures FirstOccurrences(ks, seen) == FirstOccurrences(ks[1..], seen)
  {
  }

  lemma FirstOccurrencesNew<K>(ks: seq<K>, seen: set<K>)
    requires ks != [] && ks[0] !in seen
    ensures FirstOccurrences(ks, seen) == [ks[0]] + FirstOccurrences(ks[1..], seen + {ks[0]})
  {
  }
}
