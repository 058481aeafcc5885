/** The parameters of one operation: route overrides and discovered metadata joined
    (mergeDiscoveredPathParams, buildParameters, openAPIParameter). */
module Parameters {
  import opened Text
  import opened Ordering
  import opened Params
  import opened DefaultTables
  import opened PathTemplates
  import opened HandlerScan

  datatype RouteDef = RouteDef(
    path: string,
    methods: seq<string>,
    tag: string,
    summary: string,
    security: string,
    params: seq<ParamDef>)

  datatype Endpoint = Endpoint(
    verb: string,
    path: string,
    summary: string,
    pathParams: seq<ParamDef>,
    queryParams: seq<ParamDef>)

  type Discovery = map<string, Endpoint>

  datatype Schema = Schema(kind: string, format: string, example: Option<Example>, hasItems: bool)

  datatype ApiParameter = ApiParameter(
    name: string,
    location: string,
    required: bool,
    description: string,
    schema: Schema)

  // ---------------------------------------------------------------- path parameters

  /** The definition declared last under each name. */
  function ByName(s: seq<ParamDef>): map<string, ParamDef> {
    if s == [] then map[]
    else ByName(s[..|s| - 1])[s[|s| - 1].name := s[|s| - 1]]
  }

  function PathDefault(defaults: Defaults, name: string): ParamDef {
    ParamDef(name, "path", defaults.pathSchema(name).kind, "", defaults.pathDescription(name), None, None)
  }

  /** The positional fallback: metadata of the i-th discovered parameter, whatever its name. */
  function Positional(def: ParamDef, d: ParamDef): ParamDef {
    def.(
      kind := d.kind,
      description := Later(def.description, d.description),
      format := Later(def.format, d.format),
      example := LaterOption(def.example, d.example))
  }

  /** The head of a two-list merge of a path parameter with a definition of the same name. */
  function Refine(def: ParamDef, x: ParamDef): ParamDef {
    if x.location == "path" then Override(def, x) else def
  }

  function RefineFrom(def: ParamDef, defs: map<string, ParamDef>): ParamDef {
    if def.name in defs then Refine(def, defs[def.name]) else def
  }

  function PathParamFor(
    defaults: Defaults, i: nat, name: string, discovered: seq<ParamDef>, overrides: map<string, ParamDef>): ParamDef
  {
    var default := PathDefault(defaults, name);
    var def := if i < |discovered| then Positional(default, discovered[i]) else default;
    RefineFrom(RefineFrom(def, ByName(discovered)), overrides)
  }

  function PathParams(
    defaults: Defaults, names: seq<string>, discovered: seq<ParamDef>, overrides: map<string, ParamDef>)
    : (r: seq<ParamDef>)
    ensures |r| == |names|
  {
    seq(|names|, i requires 0 <= i < |names| => PathParamFor(defaults, i, names[i], discovered, overrides))
  }

  lemma SuffixCancels(a: string, b: string, t: string)
    ensures a + t == b + t <==> a == b
  {
    if a + t == b + t {
      assert a == (a + t)[..|a|] && b == (b + t)[..|b|];
    }
  }

  lemma PairItems(def: ParamDef, x: ParamDef)
    requires def.location == "path" && x.name == def.name
    ensures MergeItems([def], [x]) == if x.location == "path" then [Override(def, x)] else [def, x]
  {
    assert [x][..0] == [] && [def][..0] == [];
    assert AppendAll([def]) == Append(EMPTY, def);
    assert AbsorbAll(AppendAll([def]), [x]) == Absorb(AbsorbAll(AppendAll([def]), []), x);
    var location := if x.location == "" then "query" else x.location;
    assert ParamKey(x) == location + (":" + def.name) && ParamKey(def) == "path" + (":" + def.name);
    SuffixCancels("path", location, ":" + def.name);
  }

  /** A two-element merge puts the path parameter first: whatever the sort does, its head is Refine. */
  lemma HeadOfPairMerge(def: ParamDef, x: ParamDef, r: seq<ParamDef>)
    requires def.location == "path" && x.name == def.name
    requires IsMerge([def], [x], r)
    ensures r != [] && r[0] == Refine(def, x)
  {
    PairItems(def, x);
    var items := MergeItems([def], [x]);
    assert |multiset(r)| == |multiset(items)| == |items|;
    if x.location == "path" {
      assert r[0] in multiset(r);
    } else {
      assert r == [r[0], r[1]];
      assert r[0] in multiset(r) && r[1] in multiset(r) && def in multiset(r);
      assert ParamLess(def, x);
    }
  }

  /** The first element of the merge of two one-element lists. */
  method MergeHead(def: ParamDef, x: ParamDef) returns (r: ParamDef)
    requires def.location == "path" && x.name == def.name
    ensures r == Refine(def, x)
  {
    var merged := MergeParamDefs([def], [x]);
    HeadOfPairMerge(def, x, merged);
    r := merged[0];
  }

  method ByNameMap(s: seq<ParamDef>) returns (m: map<string, ParamDef>)
    ensures m == ByName(s)
  {
    m := map[];
    for i := 0 to |s|
      invariant m == ByName(s[..i])
    {
      assert s[..i + 1][..i] == s[..i];
      m := m[s[i].name := s[i]];
    }
    assert s[..|s|] == s;
  }

  lemma {:induction false} ByNameKeepsNames(s: seq<ParamDef>)
    ensures forall n :: n in ByName(s) ==> ByName(s)[n].name == n && ByName(s)[n] in s
    ensures forall i | 0 <= i < |s| :: s[i].name in ByName(s)
  {
    if s != [] {
      ByNameKeepsNames(s[..|s| - 1]);
    }
  }

  method PositionalFallback(def: ParamDef, d: ParamDef) returns (r: ParamDef)
    ensures r == Positional(def, d)
  {
    r := def.(kind := d.kind);
    if d.description != "" { r := r.(description := d.description); }
    if d.format != "" { r := r.(format := d.format); }
    if d.example.Some? { r := r.(example := d.example); }
  }

  method MergeDiscoveredPathParams(
    defaults: Defaults, routePath: string, discovered: seq<ParamDef>, overrides: map<string, ParamDef>)
    returns (params: seq<ParamDef>)
    requires forall n :: n in overrides ==> overrides[n].name == n
    ensures params == PathParams(defaults, ExtractPathParamNames(routePath), discovered, overrides)
  {
    var routeNames := ExtractPathParamNames(routePath);
    params := [];
    if routeNames == [] {
      return;
    }
    var discoveredByName := ByNameMap(discovered);
    ByNameKeepsNames(discovered);
    for i := 0 to |routeNames|
      invariant |params| == i
      invariant forall j | 0 <= j < i :: params[j] == PathParamFor(defaults, j, routeNames[j], discovered, overrides)
    {
      var name := routeNames[i];
      var def := PathDefault(defaults, name);
      if i < |discovered| {
        def := PositionalFallback(def, discovered[i]);
      }
      if name in discoveredByName {
        def := MergeHead(def, discoveredByName[name]);
      }
      if name in overrides {
        def := MergeHead(def, overrides[name]);
      }
      params := params + [def];
    }
  }

  /** Every path parameter keeps its template name and its location, and an override
      that has been applied has no further effect. */
  lemma PathParamIsSettled(
    defaults: Defaults, i: nat, name: string, discovered: seq<ParamDef>, overrides: map<string, ParamDef>)
    ensures var p := PathParamFor(defaults, i, name, discovered, overrides);
      p.name == name && p.location == "path" && RefineFrom(p, overrides) == p
  {
  }

  // ---------------------------------------------------------------- rendering

  function OpenAPIParameter(defaults: Defaults, p: ParamDef): ApiParameter {
    var location := if p.location == "" then "query" else p.location;
    var kind :=
      if p.kind != "" then p.kind
      else if location == "path" then defaults.pathSchema(p.name).kind
      else defaults.queryKind(p.name);
    var inferred := defaults.pathSchema(p.name);
    var fallback := p.example.None? && location == "path";
    var description :=
      if p.description != "" then p.description
      else if location == "path" then defaults.pathDescription(p.name)
      else if location == "query" then defaults.queryDescription(p.name)
      else "";
    ApiParameter(
      p.name,
      location,
      if p.required.Some? then p.required.value else location == "path",
      description,
      Schema(
        kind,
        if fallback && inferred.format != "" then inferred.format else p.format,
        if fallback then Some(inferred.example) else p.example,
        kind == "array"))
  }

  /** Whatever a definition sets is shown, and nothing required is left empty. Only a format need not survive: a path
      parameter's own format gives way to the one inferred from its name exactly when no example is given and the two
      differ. */
  lemma RenderingShowsWhatIsSet(defaults: Defaults, p: ParamDef)
    ensures var a := OpenAPIParameter(defaults, p);
      && a.name == p.name && a.schema.kind != "" && a.schema.hasItems == (a.schema.kind == "array")
      && (if p.location == "" then a.location == "query" else a.location == p.location)
      && (p.kind != "" ==> a.schema.kind == p.kind)
      && (p.description != "" ==> a.description == p.description)
      && (a.location in {"path", "query"} ==> a.description != "")
      && (p.example.Some? ==> a.schema.example == p.example)
      && (p.required.Some? ==> a.required == p.required.value)
      && (p.format != "" ==>
            (a.schema.format == p.format
             <==> p.location != "path" || p.example.Some? || defaults.pathSchema(p.name).format in {"", p.format}))
  {
  }

  function RenderAll(defaults: Defaults, s: seq<ParamDef>): (r: seq<ApiParameter>)
    ensures |r| == |s|
  {
    seq(|s|, i requires 0 <= i < |s| => OpenAPIParameter(defaults, s[i]))
  }

  // ---------------------------------------------------------------- one operation's parameters

  function Lookup(discovered: Discovery, verb: string, path: string): Endpoint {
    var key := EndpointKey(verb, path);
    if key in discovered then discovered[key] else Endpoint(verb, path, "", [], [])
  }

  function QueryOverrides(params: seq<ParamDef>): seq<ParamDef> {
    if params == [] then []
    else
      QueryOverrides(params[..|params| - 1])
      + (if params[|params| - 1].location == "query" then [params[|params| - 1]] else [])
  }

  predicate InQuery(s: seq<ParamDef>) {
    forall i | 0 <= i < |s| :: s[i].location == "query"
  }

  predicate InPath(s: seq<ParamDef>) {
    forall i | 0 <= i < |s| :: s[i].location == "path"
  }

  function PathPart(defaults: Defaults, route: RouteDef, ep: Endpoint): seq<ParamDef> {
    PathParams(defaults, ExtractPathParamNames(route.path), ep.pathParams, ByName(route.params))
  }

  /** All query metadata in one merge: what discovery found, then the route's own query parameters. */
  function QueryPart(route: RouteDef, ep: Endpoint): seq<ParamDef> {
    Merge([], ep.queryParams + QueryOverrides(route.params))
  }

  function ParametersOf(defaults: Defaults, route: RouteDef, ep: Endpoint): seq<ApiParameter> {
    RenderAll(defaults, PathPart(defaults, route, ep)) + RenderAll(defaults, QueryPart(route, ep))
  }

  lemma {:induction false} QueryOverridesInQuery(params: seq<ParamDef>)
    ensures InQuery(QueryOverrides(params))
  {
    if params != [] {
      QueryOverridesInQuery(params[..|params| - 1]);
    }
  }

  // One more query override merged into what has been merged so far.
  lemma OneMoreOverride(first: seq<ParamDef>, done: seq<ParamDef>, p: ParamDef, merged: seq<ParamDef>)
    requires InQuery(first) && InQuery(done) && p.location == "query"
    requires IsMerge(Merge([], first + done), [p], merged)
    ensures merged == Merge([], first + (done + [p]))
  {
    var sofar := first + done;
    MergeFacts([], sofar);
    MergeIsDetermined(Merge([], sofar), [p], merged);
    MergeInStages([], sofar, [p]);
    assert sofar + [p] == first + (done + [p]);
  }

  lemma QueryOverridesOneMore(params: seq<ParamDef>, i: nat)
    requires i < |params|
    ensures QueryOverrides(params[..i + 1])
      == if params[i].location == "query" then QueryOverrides(params[..i]) + [params[i]]
         else QueryOverrides(params[..i])
  {
    assert params[..i + 1][..i] == params[..i];
    assert QueryOverrides(params[..i]) + [] == QueryOverrides(params[..i]);
  }

  method BuildQueryParams(params: seq<ParamDef>, discovered: seq<ParamDef>) returns (queryParams: seq<ParamDef>)
    ensures InQuery(discovered) ==> queryParams == Merge([], discovered + QueryOverrides(params))
  {
    queryParams := MergeParamDefs([], discovered);
    if InQuery(discovered) {
      MergeIsDetermined([], discovered, queryParams);
    }
    assert discovered + [] == discovered;
    ghost var done: seq<ParamDef> := [];
    for i := 0 to |params|
      invariant done == QueryOverrides(params[..i]) && InQuery(done)
      invariant InQuery(discovered) ==> queryParams == Merge([], discovered + done)
    {
      QueryOverridesOneMore(params, i);
      if params[i].location == "query" {
        var merged := MergeParamDefs(queryParams, [params[i]]);
        if InQuery(discovered) {
          OneMoreOverride(discovered, done, params[i], merged);
        }
        queryParams, done := merged, done + [params[i]];
      }
    }
    assert params[..|params|] == params;
  }

  method RenderPathParams(
    defaults: Defaults, pathParams: seq<ParamDef>, overrides: map<string, ParamDef>)
    returns (params: seq<ApiParameter>)
    requires forall n :: n in overrides ==> overrides[n].name == n
    requires forall i | 0 <= i < |pathParams| ::
      pathParams[i].location == "path" && RefineFrom(pathParams[i], overrides) == pathParams[i]
    ensures params == RenderAll(defaults, pathParams)
  {
    params := [];
    for i := 0 to |pathParams|
      invariant |params| == i
      invariant forall j | 0 <= j < i :: params[j] == OpenAPIParameter(defaults, pathParams[j])
    {
      var p := pathParams[i];
      if p.name in overrides && (overrides[p.name].location == "" || overrides[p.name].location == "path") {
        p := MergeHead(p, overrides[p.name]);
        assert p == pathParams[i];
      }
      params := params + [OpenAPIParameter(defaults, p)];
    }
  }

  method RenderQueryParams(defaults: Defaults, queryParams: seq<ParamDef>) returns (params: seq<ApiParameter>)
    ensures params == RenderAll(defaults, queryParams)
  {
    params := [];
    for i := 0 to |queryParams|
      invariant |params| == i
      invariant forall j | 0 <= j < i :: params[j] == OpenAPIParameter(defaults, queryParams[j])
    {
      params := params + [OpenAPIParameter(defaults, queryParams[i])];
    }
  }

  // ---------------------------------------------------------------- what an operation's parameters say

  function Or<T>(value: Option<T>, default: T): T {
    if value.Some? then value.value else default
  }

  /** The last value set for a field among the query parameters of that name. */
  function LastQuery<T>(s: seq<ParamDef>, name: string, field: ParamDef -> Option<T>): Option<T> {
    if s == [] then None
    else
      var last := s[|s| - 1];
      if last.location == "query" && last.name == name && field(last).Some? then field(last)
      else LastQuery(s[..|s| - 1], name, field)
  }

  predicate NamesQuery(s: seq<ParamDef>, name: string) {
    exists i :: 0 <= i < |s| && s[i].location == "query" && s[i].name == name
  }

  predicate ShowsQuery(params: seq<ApiParameter>, name: string) {
    exists i :: 0 <= i < |params| && params[i].location == "query" && params[i].name == name
  }

  /** A rendered query parameter holds the last value any definition sets, or what its name implies. */
  predicate IsLastQuery(defaults: Defaults, s: seq<ParamDef>, a: ApiParameter) {
    && a.schema.kind == Or(LastQuery(s, a.name, KindSet), defaults.queryKind(a.name))
    && a.schema.hasItems == (a.schema.kind == "array")
    && a.schema.format == Or(LastQuery(s, a.name, FormatSet), "")
    && a.schema.example == LastQuery(s, a.name, ExampleSet)
    && a.description == Or(LastQuery(s, a.name, DescriptionSet), defaults.queryDescription(a.name))
    && a.required == Or(LastQuery(s, a.name, RequiredSet), false)
  }

  /** The query parameters shown are exactly those `s` names, each as its definitions in `s` say. */
  ghost predicate ShowsQueries(defaults: Defaults, s: seq<ParamDef>, params: seq<ApiParameter>) {
    && (forall n :: ShowsQuery(params, n) <==> NamesQuery(s, n))
    && (forall i | 0 <= i < |params| && params[i].location == "query" :: IsLastQuery(defaults, s, params[i]))
  }

  /** The last definition of that name. */
  function LastNamed(s: seq<ParamDef>, name: string): Option<ParamDef> {
    if s == [] then None
    else if s[|s| - 1].name == name then Some(s[|s| - 1])
    else LastNamed(s[..|s| - 1], name)
  }

  /** A field of a definition, if the definition is there, lies in the path and sets it. */
  function InPathOf<T>(p: Option<ParamDef>, field: ParamDef -> Option<T>): Option<T> {
    if p.Some? && p.value.location == "path" then field(p.value) else None
  }

  /** What is set for a field of the i-th template name: by the route's last definition of that name, else by the last
      one discovered, else by whatever is discovered at position i. */
  function PathValue<T>(
    i: nat, name: string, found: seq<ParamDef>, declared: seq<ParamDef>, field: ParamDef -> Option<T>): Option<T>
  {
    var override, own := InPathOf(LastNamed(declared, name), field), InPathOf(LastNamed(found, name), field);
    if override.Some? then override
    else if own.Some? then own
    else if i < |found| then field(found[i])
    else None
  }

  /** A rendered path parameter; whether it is required is never taken from the entry at its position. */
  predicate IsPathParameter(
    defaults: Defaults, i: nat, name: string, found: seq<ParamDef>, declared: seq<ParamDef>, a: ApiParameter)
  {
    var inferred, example := defaults.pathSchema(name), PathValue(i, name, found, declared, ExampleSet);
    && a.name == name && a.location == "path"
    && a.schema.kind == Or(PathValue(i, name, found, declared, KindSet), inferred.kind)
    && a.schema.hasItems == (a.schema.kind == "array")
    && a.description == Or(PathValue(i, name, found, declared, DescriptionSet), defaults.pathDescription(name))
    && a.schema.example == Some(Or(example, inferred.example))
    && a.schema.format == (
      if example.None? && inferred.format != "" then inferred.format
      else Or(PathValue(i, name, found, declared, FormatSet), ""))
    && a.required == Or(PathValue(|found|, name, found, declared, RequiredSet), true)
  }

  /** The parameters of a path, in order. */
  predicate ShowsPath(
    defaults: Defaults, path: string, found: seq<ParamDef>, declared: seq<ParamDef>, params: seq<ApiParameter>)
  {
    var names := ExtractPathParamNames(path);
    && |names| <= |params|
    && forall i | 0 <= i < |names| :: IsPathParameter(defaults, i, names[i], found, declared, params[i])
  }

  lemma {:induction false} ByNameHoldsLastNamed(s: seq<ParamDef>, name: string)
    ensures LastNamed(s, name) == if name in ByName(s) then Some(ByName(s)[name]) else None
  {
    if s != [] {
      ByNameHoldsLastNamed(s[..|s| - 1], name);
    }
  }

  lemma PathParameterIs(
    defaults: Defaults, i: nat, name: string, found: seq<ParamDef>, declared: seq<ParamDef>)
    ensures IsPathParameter(
      defaults, i, name, found, declared,
      OpenAPIParameter(defaults, PathParamFor(defaults, i, name, found, ByName(declared))))
  {
    PathParamHolds(defaults, i, name, found, declared);
    PathParamIsSettled(defaults, i, name, found, ByName(declared));
  }

  /** The fields of a path parameter before it is rendered. */
  lemma PathParamHolds(
    defaults: Defaults, i: nat, name: string, found: seq<ParamDef>, declared: seq<ParamDef>)
    ensures var p := PathParamFor(defaults, i, name, found, ByName(declared));
      && Or(KindSet(p), defaults.pathSchema(name).kind)
         == Or(PathValue(i, name, found, declared, KindSet), defaults.pathSchema(name).kind)
      && FormatSet(p) == PathValue(i, name, found, declared, FormatSet)
      && DescriptionSet(p)
         == Some(Or(PathValue(i, name, found, declared, DescriptionSet), defaults.pathDescription(name)))
      && ExampleSet(p) == PathValue(i, name, found, declared, ExampleSet)
      && RequiredSet(p) == PathValue(|found|, name, found, declared, RequiredSet)
  {
    ByNameHoldsLastNamed(found, name);
    ByNameHoldsLastNamed(declared, name);
    var default := PathDefault(defaults, name);
    var def := if i < |found| then Positional(default, found[i]) else default;
    var own := RefineFrom(def, ByName(found));
    RefinedHolds(def, found);
    RefinedHolds(own, declared);
  }

  /** Refining takes every field that the last path definition of the name sets. */
  lemma RefinedHolds(def: ParamDef, s: seq<ParamDef>)
    ensures var p, last := RefineFrom(def, ByName(s)), LastNamed(s, def.name);
      && p.name == def.name
      && KindSet(p) == Either(InPathOf(last, KindSet), KindSet(def))
      && FormatSet(p) == Either(InPathOf(last, FormatSet), FormatSet(def))
      && DescriptionSet(p) == Either(InPathOf(last, DescriptionSet), DescriptionSet(def))
      && ExampleSet(p) == Either(InPathOf(last, ExampleSet), ExampleSet(def))
      && RequiredSet(p) == Either(InPathOf(last, RequiredSet), RequiredSet(def))
  {
    ByNameHoldsLastNamed(s, def.name);
  }

  function Either<T>(first: Option<T>, second: Option<T>): Option<T> {
    if first.Some? then first else second
  }

  lemma {:induction false} LastQueryOfOverrides<T>(params: seq<ParamDef>, name: string, field: ParamDef -> Option<T>)
    ensures LastQuery(params, name, field) == LastQuery(QueryOverrides(params), name, field)
    ensures NamesQuery(params, name) <==> NamesQuery(QueryOverrides(params), name)
  {
    if params != [] {
      var init, last := params[..|params| - 1], params[|params| - 1];
      LastQueryOfOverrides(init, name, field);
      assert params == init + [last];
      NamesQueryOfBoth(init, [last], name);
      if last.location == "query" {
        var q := QueryOverrides(init);
        assert QueryOverrides(params) == q + [last] && (q + [last])[..|q|] == q;
        NamesQueryOfBoth(q, [last], name);
      } else {
        assert QueryOverrides(params) == QueryOverrides(init);
      }
    }
  }

  lemma NamesQueryOfBoth(a: seq<ParamDef>, b: seq<ParamDef>, name: string)
    ensures NamesQuery(a + b, name) <==> NamesQuery(a, name) || NamesQuery(b, name)
  {
    if i :| 0 <= i < |a| && a[i].location == "query" && a[i].name == name {
      assert (a + b)[i] == a[i];
    }
    if i :| 0 <= i < |b| && b[i].location == "query" && b[i].name == name {
      assert (a + b)[|a| + i] == b[i];
    }
    if i :| 0 <= i < |a + b| && (a + b)[i].location == "query" && (a + b)[i].name == name {
      assert (a + b)[i] == if i < |a| then a[i] else b[i - |a|];
    }
  }

  lemma {:induction false} LastQueryOfBoth<T>(
    a: seq<ParamDef>, b: seq<ParamDef>, name: string, field: ParamDef -> Option<T>)
    ensures LastQuery(a + b, name, field)
      == if LastQuery(b, name, field).Some? then LastQuery(b, name, field) else LastQuery(a, name, field)
  {
    if b == [] {
      assert a + b == a;
    } else {
      var n := |b| - 1;
      assert (a + b)[..|a + b| - 1] == a + b[..n] && (a + b)[|a + b| - 1] == b[n];
      LastQueryOfBoth(a, b[..n], name, field);
    }
  }

  /** Among query parameters alone, a name is as good as a key. */
  lemma {:induction false} LastQueryIsLastSet<T>(
    s: seq<ParamDef>, p: ParamDef, field: ParamDef -> Option<T>)
    requires InQuery(s) && p.location == "query"
    ensures LastQuery(s, p.name, field) == LastSet(s, ParamKey(p), field)
  {
    if s != [] {
      LastQueryIsLastSet(s[..|s| - 1], p, field);
      KeyIsInjective(s[|s| - 1], p);
    }
  }

  lemma OneSourceOrTwo<T>(
    found: seq<ParamDef>, declared: seq<ParamDef>, p: ParamDef, field: ParamDef -> Option<T>)
    requires InQuery(found) && p.location == "query"
    ensures LastQuery(found + declared, p.name, field) == LastSet(found + QueryOverrides(declared), ParamKey(p), field)
  {
    QueryOverridesInQuery(declared);
    LastQueryOfBoth(found, declared, p.name, field);
    LastQueryOfOverrides(declared, p.name, field);
    LastQueryOfBoth(found, QueryOverrides(declared), p.name, field);
    LastQueryIsLastSet(found + QueryOverrides(declared), p, field);
  }

  lemma RenderedQueryIsLast(defaults: Defaults, found: seq<ParamDef>, declared: seq<ParamDef>, p: ParamDef)
    requires InQuery(found) && p.location == "query"
    requires HoldsLastSet(found + QueryOverrides(declared), ParamKey(p), p)
    ensures IsLastQuery(defaults, found + declared, OpenAPIParameter(defaults, p))
  {
    OneSourceOrTwo(found, declared, p, KindSet);
    OneSourceOrTwo(found, declared, p, FormatSet);
    OneSourceOrTwo(found, declared, p, DescriptionSet);
    OneSourceOrTwo(found, declared, p, ExampleSet);
    OneSourceOrTwo(found, declared, p, RequiredSet);
  }

  lemma KeysAreNames(s: seq<ParamDef>, name: string)
    requires InQuery(s)
    ensures MentionsKey(s, ParamKey(QueryNamed(name))) <==> NamesQuery(s, name)
  {
    forall i | 0 <= i < |s|
      ensures ParamKey(s[i]) == ParamKey(QueryNamed(name)) <==> s[i].name == name
    {
      KeyIsInjective(s[i], QueryNamed(name));
    }
  }

  function QueryNamed(name: string): ParamDef {
    ParamDef(name, "query", "", "", "", None, None)
  }

  lemma QueryPartShows(defaults: Defaults, found: seq<ParamDef>, declared: seq<ParamDef>, q: seq<ParamDef>)
    requires InQuery(found) && q == Merge([], found + QueryOverrides(declared))
    ensures InQuery(q)
    ensures ShowsQueries(defaults, found + declared, RenderAll(defaults, q))
  {
    var t := found + QueryOverrides(declared);
    QueryOverridesInQuery(declared);
    MergeKeepsQuery(t);
    MergeFacts([], t);
    MergeHoldsLastSet([], t, q);
    assert [] + t == t;
    var params := RenderAll(defaults, q);
    forall i | 0 <= i < |params|
      ensures IsLastQuery(defaults, found + declared, params[i])
    {
      RenderedQueryIsLast(defaults, found, declared, q[i]);
    }
    forall n
      ensures ShowsQuery(params, n) <==> NamesQuery(found + declared, n)
    {
      RenderedNames(defaults, q, n);
      KeysAreNames(q, n);
      KeysAreNames(t, n);
      NamesQueryOfBoth(found, declared, n);
      NamesQueryOfBoth(found, QueryOverrides(declared), n);
      LastQueryOfOverrides(declared, n, KindSet);
    }
  }

  lemma RenderedNames(defaults: Defaults, q: seq<ParamDef>, name: string)
    requires InQuery(q)
    ensures ShowsQuery(RenderAll(defaults, q), name) <==> NamesQuery(q, name)
  {
    var params := RenderAll(defaults, q);
    forall i | 0 <= i < |q|
      ensures params[i].location == "query" && params[i].name == q[i].name
    {
    }
    if i :| 0 <= i < |q| && q[i].location == "query" && q[i].name == name {
      assert params[i].name == name;
    }
  }

  /** Path parameters in front do not matter to the query parameters shown. */
  lemma QueriesBehindPath(
    defaults: Defaults, s: seq<ParamDef>, front: seq<ApiParameter>, queries: seq<ApiParameter>)
    requires ShowsQueries(defaults, s, queries) && forall i | 0 <= i < |front| :: front[i].location == "path"
    ensures ShowsQueries(defaults, s, front + queries)
  {
    var params := front + queries;
    forall n
      ensures ShowsQuery(params, n) <==> ShowsQuery(queries, n)
    {
      if i :| 0 <= i < |queries| && queries[i].location == "query" && queries[i].name == n {
        assert params[|front| + i] == queries[i];
      }
      if i :| 0 <= i < |params| && params[i].location == "query" && params[i].name == n {
        assert params[i] == queries[i - |front|];
      }
    }
    forall i | 0 <= i < |params| && params[i].location == "query"
      ensures IsLastQuery(defaults, s, params[i])
    {
      assert params[i] == queries[i - |front|];
    }
  }

  lemma ParametersShowSources(defaults: Defaults, route: RouteDef, ep: Endpoint)
    ensures InQuery(ep.queryParams) ==>
      ShowsQueries(defaults, ep.queryParams + route.params, ParametersOf(defaults, route, ep))
    ensures ShowsPath(
      defaults, route.path, ep.pathParams, route.params, RenderAll(defaults, PathPart(defaults, route, ep)))
  {
    var front := RenderAll(defaults, PathPart(defaults, route, ep));
    var names := ExtractPathParamNames(route.path);
    forall i | 0 <= i < |names|
      ensures IsPathParameter(defaults, i, names[i], ep.pathParams, route.params, front[i])
    {
      PathParameterIs(defaults, i, names[i], ep.pathParams, route.params);
    }
    if InQuery(ep.queryParams) {
      QueryPartShows(defaults, ep.queryParams, route.params, QueryPart(route, ep));
      QueriesBehindPath(
        defaults, ep.queryParams + route.params, front, RenderAll(defaults, QueryPart(route, ep)));
    }
  }

  /** What discovery filed under the operation's key, followed by the route's own definitions, decides every
      parameter; without an entry the route's definitions alone do. */
  ghost predicate ShowsSources(
    defaults: Defaults, discovered: Discovery, route: RouteDef, verb: string, params: seq<ApiParameter>)
  {
    && (forall k | k in discovered && k == EndpointKey(verb, route.path) ::
          && ShowsPath(defaults, route.path, discovered[k].pathParams, route.params, params)
          && (InQuery(discovered[k].queryParams) ==>
                ShowsQueries(defaults, discovered[k].queryParams + route.params, params)))
    && (EndpointKey(verb, route.path) !in discovered ==>
          && ShowsPath(defaults, route.path, [], route.params, params)
          && ShowsQueries(defaults, route.params, params))
  }

  lemma LookupShowsSources(
    defaults: Defaults, discovered: Discovery, route: RouteDef, verb: string, params: seq<ApiParameter>)
    requires var ep := Lookup(discovered, verb, route.path);
      && RenderAll(defaults, PathPart(defaults, route, ep)) <= params
      && (InQuery(ep.queryParams) ==> params == ParametersOf(defaults, route, ep))
    ensures ShowsSources(defaults, discovered, route, verb, params)
  {
    var ep := Lookup(discovered, verb, route.path);
    ParametersShowSources(defaults, route, ep);
    ShowsPathInFront(
      defaults, route.path, ep.pathParams, route.params, RenderAll(defaults, PathPart(defaults, route, ep)), params);
    assert [] + route.params == route.params;
  }

  method BuildParameters(
    defaults: Defaults, route: RouteDef, verb: string, discovered: Discovery)
    returns (params: seq<ApiParameter>)
    ensures var ep := Lookup(discovered, verb, route.path);
      && RenderAll(defaults, PathPart(defaults, route, ep)) <= params
      && (InQuery(ep.queryParams) ==> params == ParametersOf(defaults, route, ep))
    ensures ShowsSources(defaults, discovered, route, verb, params)
  {
    var overrides := ByNameMap(route.params);
    ByNameKeepsNames(route.params);
    var ep := Lookup(discovered, verb, route.path);
    var pathParams := MergeDiscoveredPathParams(defaults, route.path, ep.pathParams, overrides);
    var queryParams := BuildQueryParams(route.params, ep.queryParams);
    PathPartIsSettled(defaults, route, ep);
    var pathPart := RenderPathParams(defaults, pathParams, overrides);
    var queryPart := RenderQueryParams(defaults, queryParams);
    params := pathPart + queryPart;
    LookupShowsSources(defaults, discovered, route, verb, params);
  }

  lemma ShowsPathInFront(
    defaults: Defaults, path: string, found: seq<ParamDef>, declared: seq<ParamDef>,
    front: seq<ApiParameter>, params: seq<ApiParameter>)
    requires ShowsPath(defaults, path, found, declared, front) && front <= params
    ensures ShowsPath(defaults, path, found, declared, params)
  {
  }

  lemma PathPartIsSettled(defaults: Defaults, route: RouteDef, ep: Endpoint)
    ensures var names, s := ExtractPathParamNames(route.path), PathPart(defaults, route, ep);
      && |s| == |names|
      && forall i | 0 <= i < |s| ::
           s[i].name == names[i] && s[i].location == "path" && RefineFrom(s[i], ByName(route.params)) == s[i]
  {
    var names := ExtractPathParamNames(route.path);
    forall i | 0 <= i < |names|
      ensures var p := PathPart(defaults, route, ep)[i];
        p.name == names[i] && p.location == "path" && RefineFrom(p, ByName(route.params)) == p
    {
      PathParamIsSettled(defaults, i, names[i], ep.pathParams, ByName(route.params));
    }
  }

  // ---------------------------------------------------------------- main results

  predicate DistinctPairs(s: seq<ApiParameter>) {
    forall i, j | 0 <= i < j < |s| :: s[i].name != s[j].name || s[i].location != s[j].location
  }

  /** Section 4.7.12 of OpenAPI 3.0.3 on locations and uniqueness: first exactly the template names in route
      order, all in the path, then only query parameters; and no (name, in) pair occurs twice exactly when
      no template name does, however often handler comments or overrides repeat a parameter. */
  lemma ParametersAreWellPlaced(defaults: Defaults, route: RouteDef, ep: Endpoint)
    requires InQuery(ep.queryParams)
    ensures var names, params := ExtractPathParamNames(route.path), ParametersOf(defaults, route, ep);
      && |names| <= |params|
      && (forall i | 0 <= i < |names| :: params[i].name == names[i] && params[i].location == "path")
      && (forall i | |names| <= i < |params| :: params[i].location == "query")
      && (forall i, j | |names| <= i < j < |params| :: StringLess(params[i].name, params[j].name))
      && (DistinctPairs(params) <==> DistinctStrings(names))
  {
    PathPartIsSettled(defaults, route, ep);
    QueryPartIsStrict(route, ep);
    var a, b := RenderAll(defaults, PathPart(defaults, route, ep)), RenderAll(defaults, QueryPart(route, ep));
    forall i | 0 <= i < |b| ensures b[i].name == QueryPart(route, ep)[i].name && b[i].location == "query" {
    }
    PathThenQuery(ExtractPathParamNames(route.path), a, b);
  }

  lemma PathThenQuery(names: seq<string>, a: seq<ApiParameter>, b: seq<ApiParameter>)
    requires |a| == |names| && forall i | 0 <= i < |a| :: a[i].name == names[i] && a[i].location == "path"
    requires forall i | 0 <= i < |b| :: b[i].location == "query"
    requires forall i, j | 0 <= i < j < |b| :: StringLess(b[i].name, b[j].name)
    ensures var params := a + b;
      && (forall i | 0 <= i < |names| :: params[i].name == names[i] && params[i].location == "path")
      && (forall i | |names| <= i < |params| :: params[i].location == "query")
      && (forall i, j | |names| <= i < j < |params| :: StringLess(params[i].name, params[j].name))
      && (DistinctPairs(params) <==> DistinctStrings(names))
  {
    var params := a + b;
    forall i, j | 0 <= i < j < |params| && DistinctStrings(names)
      ensures params[i].name != params[j].name || params[i].location != params[j].location
    {
      if |a| <= i {
        LessIsAsymmetric(b[i - |a|].name, b[j - |a|].name);
      }
    }
    if DistinctPairs(params) {
      forall i, j | 0 <= i < j < |names| ensures names[i] != names[j] {
        assert params[i] == a[i] && params[j] == a[j];
      }
    }
  }

  lemma QueryPartIsStrict(route: RouteDef, ep: Endpoint)
    requires InQuery(ep.queryParams)
    ensures var s := QueryPart(route, ep);
      InQuery(s) && forall i, j | 0 <= i < j < |s| :: StringLess(s[i].name, s[j].name)
  {
    QueryOverridesInQuery(route.params);
    var all := ep.queryParams + QueryOverrides(route.params);
    MergeFacts([], all);
    SortParamsSorts(MergeItems([], all));
    MergeKeepsQuery(all);
    CleanSortIsStrict(Merge([], all));
  }

  lemma MergeKeepsQuery(s: seq<ParamDef>)
    requires InQuery(s)
    ensures InQuery(Merge([], s)) && Sorted(Merge([], s))
  {
    AbsorbKeepsQuery(s);
    var items := MergeItems([], s);
    SortParamsSorts(items);
    var r := Merge([], s);
    forall i | 0 <= i < |r| ensures r[i].location == "query" {
      assert r[i] in multiset(r);
      assert r[i] in items;
    }
  }

  lemma {:induction false} AbsorbKeepsQuery(s: seq<ParamDef>)
    requires InQuery(s)
    ensures InQuery(AbsorbAll(EMPTY, s).items)
  {
    if s != [] {
      AbsorbKeepsQuery(s[..|s| - 1]);
    }
  }

  /** What discovery produces about a path: parameters in the path that never say whether they are required. */
  predicate DiscoveredPathParams(s: seq<ParamDef>) {
    InPath(s) && forall i | 0 <= i < |s| :: s[i].required == None
  }

  /** "required" must be true for a path parameter (section 4.7.12.1 of OpenAPI 3.0.3). It is, except exactly
      when the last route parameter declared under that name is a path override with required: false. */
  lemma PathParameterIsRequiredUnless(defaults: Defaults, route: RouteDef, ep: Endpoint, i: nat)
    requires DiscoveredPathParams(ep.pathParams)
    requires i < |ExtractPathParamNames(route.path)|
    ensures var name, overrides := ExtractPathParamNames(route.path)[i], ByName(route.params);
      ParametersOf(defaults, route, ep)[i].required
      <==> !(name in overrides && overrides[name].location == "path" && overrides[name].required == Some(false))
  {
    var name := ExtractPathParamNames(route.path)[i];
    ByNameKeepsNames(ep.pathParams);
    assert ParametersOf(defaults, route, ep)[i] == OpenAPIParameter(defaults, PathPart(defaults, route, ep)[i]);
    assert PathPart(defaults, route, ep)[i] == PathParamFor(defaults, i, name, ep.pathParams, ByName(route.params));
  }

  /** An override sets nothing when every optional field is left out. */
  predicate SetsNothing(o: ParamDef) {
    o.kind == "" && o.format == "" && o.description == "" && o.example == None && o.required == None
  }

  /** buildParameters offers an override without a location to the path parameter of its name, yet paramKey files
      it under "query": it reaches the parameter exactly when it says "path", or has nothing to say. */
  lemma OverrideReachesPathParamOnlyIfInPath(o: ParamDef)
    ensures (forall def: ParamDef :: def.location == "path" && def.name == o.name ==>
              Refine(def, o) == Override(def, o.(location := "path")))
       <==> o.location == "path" || SetsNothing(o)
  {
    if o.location != "path" && !SetsNothing(o) {
      var other := match o.required case Some(b) => Some(!b) case None => None;
      var def := ParamDef(o.name, "path", o.kind + "x", o.format + "x", o.description + "x", None, other);
      assert Refine(def, o) == def;
      assert Override(def, o.(location := "path")) != def;
    }
  }

  // ---------------------------------------------------------------- order of discovery

  predicate DistinctNames(s: seq<ParamDef>) {
    forall i, j | 0 <= i < j < |s| :: s[i].name != s[j].name
  }

  /** Path parameters as handler sources describe them: no format, no example, and nothing on being required. */
  predicate PlainPath(s: seq<ParamDef>) {
    DiscoveredPathParams(s) && forall i | 0 <= i < |s| :: s[i].format == "" && s[i].example == None
  }

  /** Every template name is discovered under that very name, with a type and a description. */
  predicate Knows(s: seq<ParamDef>, names: seq<string>) {
    forall i | 0 <= i < |names| ::
      names[i] in ByName(s) && ByName(s)[names[i]].kind != "" && ByName(s)[names[i]].description != ""
  }

  lemma {:induction false} ByNameOfDistinct(s: seq<ParamDef>)
    requires DistinctNames(s)
    ensures forall i | 0 <= i < |s| :: s[i].name in ByName(s) && ByName(s)[s[i].name] == s[i]
  {
    if s != [] {
      ByNameOfDistinct(s[..|s| - 1]);
    }
  }

  lemma ByNameIgnoresOrder(s: seq<ParamDef>, t: seq<ParamDef>)
    requires DistinctNames(s) && DistinctNames(t) && multiset(s) == multiset(t)
    ensures ByName(s) == ByName(t)
  {
    ByNameKeepsNames(s);
    ByNameKeepsNames(t);
    ByNameOfDistinct(s);
    ByNameOfDistinct(t);
    assert forall p :: p in s <==> p in multiset(t);
    assert forall p :: p in t <==> p in multiset(s);
    forall n | n in ByName(s) ensures n in ByName(t) && ByName(t)[n] == ByName(s)[n] {
      assert ByName(s)[n] in t;
    }
    forall n | n in ByName(t) ensures n in ByName(s) {
      assert ByName(t)[n] in s;
    }
  }

  lemma NamedParamIgnoresPosition(
    defaults: Defaults, i: nat, name: string, s: seq<ParamDef>, overrides: map<string, ParamDef>)
    requires PlainPath(s) && name in ByName(s) && ByName(s)[name].kind != "" && ByName(s)[name].description != ""
    ensures PathParamFor(defaults, i, name, s, overrides)
         == RefineFrom(Override(PathDefault(defaults, name), ByName(s)[name]), overrides)
  {
    ByNameKeepsNames(s);
  }

  /** When discovery knows every template name by that name, the order it lists them in is irrelevant:
      no parameter picks up the metadata of another through its position. */
  lemma DiscoveryOrderIsIrrelevant(
    defaults: Defaults, names: seq<string>, s: seq<ParamDef>, t: seq<ParamDef>, overrides: map<string, ParamDef>)
    requires PlainPath(s) && DistinctNames(s) && Knows(s, names)
    requires PlainPath(t) && DistinctNames(t) && multiset(s) == multiset(t)
    ensures PathParams(defaults, names, s, overrides) == PathParams(defaults, names, t, overrides)
  {
    ByNameIgnoresOrder(s, t);
    forall i | 0 <= i < |names|
      ensures PathParamFor(defaults, i, names[i], s, overrides) == PathParamFor(defaults, i, names[i], t, overrides)
    {
      NamedParamIgnoresPosition(defaults, i, names[i], s, overrides);
      NamedParamIgnoresPosition(defaults, i, names[i], t, overrides);
    }
  }

  /** A parameter discovered by name shows its own description, or the default of its name if it has none, exactly
      when it has one or the entry that happens to stand at its position says nothing else. */
  lemma OwnDescriptionShowsExactlyWhen(defaults: Defaults, i: nat, s: seq<ParamDef>, k: nat)
    requires k < |s| && DistinctNames(s) && PlainPath(s)
    ensures var default := defaults.pathDescription(s[k].name);
      PathParamFor(defaults, i, s[k].name, s, map[]).description == Later(default, s[k].description)
      <==> s[k].description != "" || i >= |s| || s[i].description in {"", default}
  {
    ByNameOfDistinct(s);
  }

  /** So it does under every listing of the discovered parameters exactly when it has one, or no entry says anything
      but that default. */
  lemma DescriptionNeverLeaksExactlyWhen(defaults: Defaults, i: nat, s: seq<ParamDef>, k: nat)
    requires i < |s| && k < |s| && DistinctNames(s) && PlainPath(s)
    ensures var default := defaults.pathDescription(s[k].name);
      (forall t: seq<ParamDef> :: multiset(t) == multiset(s) && DistinctNames(t) ==>
        PathParamFor(defaults, i, s[k].name, t, map[]).description == Later(default, s[k].description))
      <==> s[k].description != "" || forall j | 0 <= j < |s| :: s[j].description in {"", default}
  {
    var default := defaults.pathDescription(s[k].name);
    if j :| 0 <= j < |s| && s[j].description !in {"", default} && s[k].description == "" {
      var t := s[i := s[j]][j := s[i]];
      SwapKeepsDistinct(s, i, j);
      DescriptionIsPositional(defaults, i, s, k, t);
    } else {
      forall t: seq<ParamDef> | multiset(t) == multiset(s) && DistinctNames(t)
        ensures PathParamFor(defaults, i, s[k].name, t, map[]).description == Later(default, s[k].description)
      {
        DescriptionIsPositional(defaults, i, s, k, t);
      }
    }
  }

  lemma DescriptionIsPositional(defaults: Defaults, i: nat, s: seq<ParamDef>, k: nat, t: seq<ParamDef>)
    requires i < |s| && k < |s| && DistinctNames(s) && PlainPath(s)
    requires multiset(t) == multiset(s) && DistinctNames(t)
    ensures i < |t| && t[i] in s
    ensures PathParamFor(defaults, i, s[k].name, t, map[]).description
      == Later(Later(defaults.pathDescription(s[k].name), t[i].description), s[k].description)
  {
    assert |t| == |multiset(t)| == |multiset(s)|;
    assert t[i] in multiset(t);
    ByNameIgnoresOrder(s, t);
    ByNameOfDistinct(s);
    var def := Positional(PathDefault(defaults, s[k].name), t[i]);
    assert RefineFrom(def, ByName(t)) == Override(def, s[k]);
  }

  /** The same of formats, for arbitrary lists: discovery itself never sets one. A parameter keeps its own format under
      every listing exactly when it has one, or none of them has. */
  lemma FormatNeverLeaksExactlyWhen(defaults: Defaults, i: nat, s: seq<ParamDef>, k: nat)
    requires i < |s| && k < |s| && DistinctNames(s) && InPath(s)
    ensures (forall t: seq<ParamDef> :: multiset(t) == multiset(s) && DistinctNames(t) ==>
              PathParamFor(defaults, i, s[k].name, t, map[]).format == s[k].format)
       <==> s[k].format != "" || forall j | 0 <= j < |s| :: s[j].format == ""
  {
    if j :| 0 <= j < |s| && s[j].format != "" && s[k].format == "" {
      var t := s[i := s[j]][j := s[i]];
      SwapKeepsDistinct(s, i, j);
      FormatIsPositional(defaults, i, s, k, t);
    } else {
      forall t: seq<ParamDef> | multiset(t) == multiset(s) && DistinctNames(t)
        ensures PathParamFor(defaults, i, s[k].name, t, map[]).format == s[k].format
      {
        FormatIsPositional(defaults, i, s, k, t);
      }
    }
  }

  lemma SwapKeepsDistinct(s: seq<ParamDef>, i: nat, j: nat)
    requires i < |s| && j < |s| && DistinctNames(s)
    ensures var t := s[i := s[j]][j := s[i]]; multiset(t) == multiset(s) && DistinctNames(t) && t[i] == s[j]
  {
  }

  lemma FormatIsPositional(defaults: Defaults, i: nat, s: seq<ParamDef>, k: nat, t: seq<ParamDef>)
    requires i < |s| && k < |s| && DistinctNames(s) && InPath(s)
    requires multiset(t) == multiset(s) && DistinctNames(t)
    ensures i < |t| && t[i] in s
    ensures PathParamFor(defaults, i, s[k].name, t, map[]).format == Later(t[i].format, s[k].format)
  {
    assert |t| == |multiset(t)| == |multiset(s)|;
    assert t[i] in multiset(t);
    ByNameIgnoresOrder(s, t);
    ByNameOfDistinct(s);
    var def := Positional(PathDefault(defaults, s[k].name), t[i]);
    assert RefineFrom(def, ByName(t)) == Override(def, s[k]);
  }
}
