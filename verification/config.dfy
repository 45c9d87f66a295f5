/** From config.json to the report plan (`TagTracker.__parse_config` in
    tagtracker/tagtracker.py). The configuration maps each output name to an
    object of view names and their options. Every view named is looked up in
    the registry (an unknown name is a `KeyError`), and an entry
    `(view, filter, options)` is appended to the list of its target: the
    option `path` when it is present and truthy, the output name otherwise. */
module Config {
  import opened Wrappers
  import opened Seqs
  import opened Multimap
  import opened Values
  import opened Registry

  /** One view to render: the view, its `filter` option if truthy, its options if truthy. */
  datatype PlanEntry<V> = PlanEntry(view: V, filter: Option<Value>, options: Option<Value>)

  /** Target -> entries, targets in the order they were first used. A target is
      normally a string; any other hashable value lands here too. */
  type Plan<V> = Multimap<Value, PlanEntry<V>>

  /** One configured view: output name, view name and options. */
  datatype Configured = Configured(output: string, viewName: string, options: Value)

  /** Lists and objects cannot be dictionary keys. */
  predicate Hashable(v: Value) {
    !v.Arr? && !v.Obj?
  }

  /** The body of the inner loop for one view. */
  function Route<V>(reg: map<string, V>, c: Configured): (r: Result<(Value, PlanEntry<V>), Error>)
  {
    if c.viewName !in reg then Failure(KeyError(c.viewName))
    else
      var view := reg[c.viewName];
      var (f, p) :-
        if Truthy(c.options) then
          var f :- LookupIfPresent(c.options, "filter");
          var p :- LookupIfPresent(c.options, "path");
          Success((f, p))
        else Success((None, None));
      var target := if p.Some? && Truthy(p.value) then p.value else Str(c.output);
      if !Hashable(target) then Failure(TypeError("unhashable type"))
      else
        var filter := if f.Some? && Truthy(f.value) then f else None;
        Success((target, PlanEntry(view, filter, if Truthy(c.options) then Some(c.options) else None)))
  }

  /** `for view_name, options in all_views.items()` for one output. */
  function RouteViews<V>(reg: map<string, V>, output: string, views: seq<(string, Value)>)
    : (r: Result<seq<(Value, PlanEntry<V>)>, Error>)
    ensures r.Success? ==> |r.value| == |views|
    decreases |views|
  {
    if views == [] then Success([])
    else
      var first :- Route(reg, Configured(output, views[0].0, views[0].1));
      var rest :- RouteViews(reg, output, views[1..]);
      Success([first] + rest)
  }

  /** `for output_path, all_views in config.items()`. */
  function RouteOutputs<V>(reg: map<string, V>, outputs: seq<(string, Value)>)
    : (r: Result<seq<(Value, PlanEntry<V>)>, Error>)
    decreases |outputs|
  {
    if outputs == [] then Success([])
    else if !outputs[0].1.Obj? then Failure(AttributeError("items"))
    else
      var first :- RouteViews(reg, outputs[0].0, outputs[0].1.fields);
      var rest :- RouteOutputs(reg, outputs[1..]);
      Success(first + rest)
  }

  /** The whole method; a missing config.json is the empty object. */
  function ParseConfig<V>(reg: map<string, V>, config: Value): (r: Result<Plan<V>, Error>)
    ensures r.Success? ==> Valid(r.value)
  {
    if !config.Obj? then Failure(AttributeError("items"))
    else
      var routes :- RouteOutputs(reg, config.fields);
      Success(AppendAll(Empty(), routes))
  }

  // ---------------------------------------------------------------------
  // An independent description

  /** The configured views, output by output, in file order; `None` when a
      level that must be an object is not one. */
  function Flatten(outputs: seq<(string, Value)>): Option<seq<Configured>>
    decreases |outputs|
  {
    if outputs == [] then Some([])
    else if !outputs[0].1.Obj? then None
    else
      match Flatten(outputs[1..])
      case None => None
      case Some(rest) => Some(ViewsOf(outputs[0].0, outputs[0].1.fields) + rest)
  }

  function ViewsOf(output: string, views: seq<(string, Value)>): (cs: seq<Configured>)
    ensures |cs| == |views|
    ensures forall i :: 0 <= i < |views| ==> cs[i] == Configured(output, views[i].0, views[i].1)
  {
    seq(|views|, i requires 0 <= i < |views| => Configured(output, views[i].0, views[i].1))
  }

  /** Options the code can read: `in` and `[]` both work on them. */
  predicate OptionsReadable(o: Value) {
    match o
    case Obj(_) => true
    case Arr(items) => Str("filter") !in items && Str("path") !in items
    case Str(s) => !Strings.Contains(s, "filter") && !Strings.Contains(s, "path")
    case _ => false
  }

  /** The `path` option when it is there and truthy. */
  function PathOption(o: Value): Option<Value> {
    if o.Obj? && HasField(o.fields, "path") && Truthy(FieldValue(o.fields, "path").value)
    then FieldValue(o.fields, "path")
    else None
  }

  /** The target an entry is appended to. */
  function TargetOf(c: Configured): Value {
    if Truthy(c.options) && PathOption(c.options).Some? then PathOption(c.options).value else Str(c.output)
  }

  /** The filter an entry carries. */
  function FilterOf(c: Configured): Option<Value> {
    if Truthy(c.options) && c.options.Obj? && HasField(c.options.fields, "filter")
       && Truthy(FieldValue(c.options.fields, "filter").value)
    then FieldValue(c.options.fields, "filter")
    else None
  }

  /** What makes one configured view go through without an exception. */
  predicate Routable<V>(reg: map<string, V>, c: Configured) {
    && c.viewName in reg
    && (Truthy(c.options) ==> OptionsReadable(c.options))
    && Hashable(TargetOf(c))
  }

  /** Routing one view: it fails exactly when it is not routable, and otherwise
      yields its target, its registered view, its filter and its options. */
  lemma RouteSpec<V>(reg: map<string, V>, c: Configured)
    ensures Route(reg, c).Success? <==> Routable(reg, c)
    ensures c.viewName !in reg ==> Route(reg, c) == Failure(KeyError(c.viewName))
    ensures Route(reg, c).Success? ==>
      Route(reg, c).value == (TargetOf(c), PlanEntry(reg[c.viewName], FilterOf(c), OptionsOf(c)))
  {
  }

  /** The options an entry carries. */
  function OptionsOf(c: Configured): Option<Value> {
    if Truthy(c.options) then Some(c.options) else None
  }

  function Routed<V>(reg: map<string, V>, cs: seq<Configured>): (r: seq<(Value, PlanEntry<V>)>)
    requires forall i :: 0 <= i < |cs| ==> Routable(reg, cs[i])
    ensures |r| == |cs|
    decreases |cs|
  {
    if cs == [] then []
    else
      RouteSpec(reg, cs[0]);
      [Route(reg, cs[0]).value] + Routed(reg, cs[1..])
  }

  lemma {:induction false} RouteViewsSpec<V>(reg: map<string, V>, output: string, views: seq<(string, Value)>)
    ensures var cs := ViewsOf(output, views);
      && (RouteViews(reg, output, views).Success? <==> forall i :: 0 <= i < |cs| ==> Routable(reg, cs[i]))
      && (RouteViews(reg, output, views).Success? ==> RouteViews(reg, output, views).value == Routed(reg, cs))
    decreases |views|
  {
    var cs := ViewsOf(output, views);
    if views != [] {
      RouteSpec(reg, cs[0]);
      RouteViewsSpec(reg, output, views[1..]);
      assert ViewsOf(output, views[1..]) == cs[1..];
      if Routable(reg, cs[0]) && forall i :: 0 <= i < |cs| - 1 ==> Routable(reg, cs[1..][i]) {
        forall i | 0 <= i < |cs| ensures Routable(reg, cs[i]) {
          if i > 0 {
            assert cs[i] == cs[1..][i - 1];
          }
        }
      }
    }
  }

  lemma {:induction false} RoutedAppend<V>(reg: map<string, V>, a: seq<Configured>, b: seq<Configured>)
    requires forall i :: 0 <= i < |a| ==> Routable(reg, a[i])
    requires forall i :: 0 <= i < |b| ==> Routable(reg, b[i])
    ensures forall i :: 0 <= i < |a + b| ==> Routable(reg, (a + b)[i])
    ensures Routed(reg, a + b) == Routed(reg, a) + Routed(reg, b)
    decreases |a|
  {
    if a == [] {
      assert a + b == b;
    } else {
      assert (a + b)[0] == a[0];
      assert (a + b)[1..] == a[1..] + b;
      RoutedAppend(reg, a[1..], b);
      AppendAssoc([Route(reg, a[0]).value], Routed(reg, a[1..]), Routed(reg, b));
    }
  }

  lemma {:induction false} RouteOutputsSpec<V>(reg: map<string, V>, outputs: seq<(string, Value)>)
    ensures RouteOutputs(reg, outputs).Success? <==>
      Flatten(outputs).Some? && forall i :: 0 <= i < |Flatten(outputs).value| ==> Routable(reg, Flatten(outputs).value[i])
    ensures RouteOutputs(reg, outputs).Success? ==> RouteOutputs(reg, outputs).value == Routed(reg, Flatten(outputs).value)
    decreases |outputs|
  {
    if outputs != [] && outputs[0].1.Obj? {
      var cs := ViewsOf(outputs[0].0, outputs[0].1.fields);
      RouteViewsSpec(reg, outputs[0].0, outputs[0].1.fields);
      RouteOutputsSpec(reg, outputs[1..]);
      if Flatten(outputs[1..]).Some? {
        var rest := Flatten(outputs[1..]).value;
        var all := cs + rest;
        if forall i :: 0 <= i < |all| ==> Routable(reg, all[i]) {
          assert forall i :: 0 <= i < |cs| ==> Routable(reg, cs[i]) by {
            forall i | 0 <= i < |cs| ensures Routable(reg, cs[i]) {
              assert cs[i] == all[i];
            }
          }
          assert forall i :: 0 <= i < |rest| ==> Routable(reg, rest[i]) by {
            forall i | 0 <= i < |rest| ensures Routable(reg, rest[i]) {
              assert rest[i] == all[|cs| + i];
            }
          }
          RoutedAppend(reg, cs, rest);
        }
        if (forall i :: 0 <= i < |cs| ==> Routable(reg, cs[i])) && (forall i :: 0 <= i < |rest| ==> Routable(reg, rest[i])) {
          RoutedAppend(reg, cs, rest);
        }
      }
    }
  }

  /** The entry a routable view contributes. */
  function EntryOf<V>(reg: map<string, V>, c: Configured): PlanEntry<V>
    requires c.viewName in reg
  {
    PlanEntry(reg[c.viewName], FilterOf(c), OptionsOf(c))
  }

  /** The entries of the configured views whose target is `t`, in file order. */
  function EntriesFor<V>(reg: map<string, V>, cs: seq<Configured>, t: Value): seq<PlanEntry<V>>
    requires forall i :: 0 <= i < |cs| ==> cs[i].viewName in reg
    decreases |cs|
  {
    if cs == [] then []
    else (if TargetOf(cs[0]) == t then [EntryOf(reg, cs[0])] else []) + EntriesFor(reg, cs[1..], t)
  }

  /** The targets of the configured views, in file order. */
  function Targets(cs: seq<Configured>): (ts: seq<Value>)
    ensures |ts| == |cs|
    ensures forall i :: 0 <= i < |cs| ==> ts[i] == TargetOf(cs[i])
  {
    seq(|cs|, i requires 0 <= i < |cs| => TargetOf(cs[i]))
  }

  lemma {:induction false} RoutedValues<V>(reg: map<string, V>, cs: seq<Configured>, t: Value)
    requires forall i :: 0 <= i < |cs| ==> Routable(reg, cs[i])
    ensures ValuesFor(Routed(reg, cs), t) == EntriesFor(reg, cs, t)
    ensures KeysOf(Routed(reg, cs)) == Targets(cs)
    decreases |cs|
  {
    if cs != [] {
      RouteSpec(reg, cs[0]);
      RoutedValues(reg, cs[1..], t);
      var r := Routed(reg, cs);
      assert r[1..] == Routed(reg, cs[1..]);
      assert KeysOf(r)[1..] == KeysOf(r[1..]);
      assert Targets(cs)[1..] == Targets(cs[1..]);
    }
  }

  /** A configuration is accepted exactly when both of its levels are objects
      and every view in it is routable. */
  lemma ParseConfigSucceeds<V>(reg: map<string, V>, config: Value)
    ensures ParseConfig(reg, config).Success? <==>
      && config.Obj?
      && Flatten(config.fields).Some?
      && forall i :: 0 <= i < |Flatten(config.fields).value| ==> Routable(reg, Flatten(config.fields).value[i])
  {
    if config.Obj? {
      RouteOutputsSpec(reg, config.fields);
    }
  }

  /** On success the plan is the configured views, routed in file order. */
  lemma ParsedRoutes<V>(reg: map<string, V>, config: Value)
    requires ParseConfig(reg, config).Success?
    ensures config.Obj? && Flatten(config.fields).Some?
    ensures forall i :: 0 <= i < |Flatten(config.fields).value| ==> Routable(reg, Flatten(config.fields).value[i])
    ensures ParseConfig(reg, config).value == AppendAll(Empty(), Routed(reg, Flatten(config.fields).value))
  {
    ParseConfigSucceeds(reg, config);
    RouteOutputsSpec(reg, config.fields);
  }

  /** The plan lists, for each target, the entries routed there in file order. */
  lemma ParseConfigPlan<V>(reg: map<string, V>, config: Value, t: Value)
    requires ParseConfig(reg, config).Success?
    ensures config.Obj? && Flatten(config.fields).Some?
    ensures var cs := Flatten(config.fields).value;
      && (forall i :: 0 <= i < |cs| ==> Routable(reg, cs[i]))
      && Get(ParseConfig(reg, config).value, t) == EntriesFor(reg, cs, t)
  {
    ParsedRoutes(reg, config);
    var cs := Flatten(config.fields).value;
    var routes := Routed(reg, cs);
    RoutedValues(reg, cs, t);
    FromEmptyKeys(routes);
  }

  /** The targets of the plan come in the order they are first used. */
  lemma ParseConfigTargets<V>(reg: map<string, V>, config: Value)
    requires ParseConfig(reg, config).Success?
    ensures config.Obj? && Flatten(config.fields).Some?
    ensures ParseConfig(reg, config).value.keys == FirstOccurrences(Targets(Flatten(config.fields).value), {})
  {
    ParsedRoutes(reg, config);
    var cs := Flatten(config.fields).value;
    var routes := Routed(reg, cs);
    RoutedValues(reg, cs, Null);
    FromEmptyKeys(routes);
  }

  /** An entry with a truthy string `path` option goes to that path, any
      other entry to its output name. */
  lemma TargetChoice(c: Configured)
    ensures PathOption(c.options).Some? && Truthy(c.options) ==> TargetOf(c) == FieldValue(c.options.fields, "path").value
    ensures PathOption(c.options).None? ==> TargetOf(c) == Str(c.output)
  {
  }
}
