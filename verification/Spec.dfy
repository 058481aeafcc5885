/** Routes completed from discovery, and the paths of the generated document
    (augmentRoutesFromDiscovery, buildSpec). */
module Spec {
  import opened Text
  import opened Ordering
  import opened DefaultTables
  import opened PathTemplates
  import opened Parameters
  import opened EndpointDiscovery

  // ---------------------------------------------------------------- augmenting the routes

  /** How a (method, path) pair is keyed. The completion below works for every keying; the generator's is
      EndpointKey. */
  type Keying = (string, string) -> string

  /** Every discovered endpoint is filed under the key of its lower-cased verb and its path. */
  predicate Filed(key: Keying, discovered: Discovery) {
    forall k :: k in discovered ==> key(ToLower(discovered[k].verb), discovered[k].path) == k
  }

  lemma WellDiscoveredIsFiled(discovered: Discovery)
    requires WellDiscovered(discovered)
    ensures Filed(EndpointKey, discovered)
  {
    forall k | k in discovered ensures EndpointKey(ToLower(discovered[k].verb), discovered[k].path) == k {
      EndpointKeyIgnoresNormalization(discovered[k].verb, discovered[k].path);
    }
  }

  /** The keys of all (method, path) pairs the routes declare. */
  function KnownKeys(key: Keying, routes: seq<RouteDef>): set<string> {
    set i, j | 0 <= i < |routes| && 0 <= j < |routes[i].methods| :: key(routes[i].methods[j], routes[i].path)
  }

  function RouteFor(defaults: Defaults, ep: Endpoint): RouteDef {
    RouteDef(ep.path, [ToLower(ep.verb)], defaults.tagOf(ep.path), ep.summary, defaults.securityOf(ep.path), [])
  }

  predicate KeysOf(discovered: Discovery, keys: seq<string>) {
    forall i | 0 <= i < |keys| :: keys[i] in discovered
  }

  /** A route for each of the first `n` listed keys that is not known. */
  function NewRoutes(
    defaults: Defaults, known: set<string>, discovered: Discovery, keys: seq<string>, n: nat): seq<RouteDef>
    requires n <= |keys| && KeysOf(discovered, keys)
  {
    if n == 0 then []
    else
      NewRoutes(defaults, known, discovered, keys, n - 1)
      + (if keys[n - 1] in known then [] else [RouteFor(defaults, discovered[keys[n - 1]])])
  }

  ghost predicate IsListing(discovered: Discovery, keys: seq<string>) {
    SortedListing(discovered.Keys, keys) && KeysOf(discovered, keys)
  }

  ghost predicate IsAugmented(
    key: Keying, defaults: Defaults, routes: seq<RouteDef>, discovered: Discovery, r: seq<RouteDef>)
  {
    exists keys :: IsListing(discovered, keys)
      && r == routes + NewRoutes(defaults, KnownKeys(key, routes), discovered, keys, |keys|)
  }

  method CollectKnown(key: Keying, routes: seq<RouteDef>) returns (known: set<string>)
    ensures known == KnownKeys(key, routes)
  {
    known := {};
    for i := 0 to |routes|
      invariant known == KnownKeys(key, routes[..i])
    {
      ghost var before := known;
      for j := 0 to |routes[i].methods|
        invariant known == before + set n | 0 <= n < j :: key(routes[i].methods[n], routes[i].path)
      {
        known := known + {key(routes[i].methods[j], routes[i].path)};
      }
      KnownKeysOfBoth(key, routes[..i], [routes[i]]);
      assert routes[..i + 1] == routes[..i] + [routes[i]];
      KnownKeysOfOne(key, routes[i]);
    }
    assert routes[..|routes|] == routes;
  }

  lemma KnownKeysOfOne(key: Keying, route: RouteDef)
    ensures KnownKeys(key, [route]) == set n | 0 <= n < |route.methods| :: key(route.methods[n], route.path)
  {
    var s := set n | 0 <= n < |route.methods| :: key(route.methods[n], route.path);
    forall k | k in s ensures k in KnownKeys(key, [route]) {
      var n :| 0 <= n < |route.methods| && key(route.methods[n], route.path) == k;
      assert [route][0].methods[n] == route.methods[n];
    }
  }

  lemma KnownKeysOfBoth(key: Keying, a: seq<RouteDef>, b: seq<RouteDef>)
    ensures KnownKeys(key, a + b) == KnownKeys(key, a) + KnownKeys(key, b)
  {
    var s := a + b;
    forall k | k in KnownKeys(key, a) ensures k in KnownKeys(key, s) {
      var i, j :| 0 <= i < |a| && 0 <= j < |a[i].methods| && key(a[i].methods[j], a[i].path) == k;
      assert s[i] == a[i];
    }
    forall k | k in KnownKeys(key, b) ensures k in KnownKeys(key, s) {
      var i, j :| 0 <= i < |b| && 0 <= j < |b[i].methods| && key(b[i].methods[j], b[i].path) == k;
      assert s[|a| + i] == b[i];
    }
    forall k | k in KnownKeys(key, s) ensures k in KnownKeys(key, a) + KnownKeys(key, b) {
      var i, j :| 0 <= i < |s| && 0 <= j < |s[i].methods| && key(s[i].methods[j], s[i].path) == k;
      assert s[i] == if i < |a| then a[i] else b[i - |a|];
    }
  }

  method AppendUnknown(
    defaults: Defaults, routes: seq<RouteDef>, known: set<string>, discovered: Discovery, keys: seq<string>)
    returns (augmented: seq<RouteDef>)
    requires KeysOf(discovered, keys)
    ensures augmented == routes + NewRoutes(defaults, known, discovered, keys, |keys|)
  {
    augmented := routes;
    for n := 0 to |keys|
      invariant augmented == routes + NewRoutes(defaults, known, discovered, keys, n)
    {
      if keys[n] !in known {
        augmented := augmented + [RouteFor(defaults, discovered[keys[n]])];
      }
    }
  }

  method AugmentRoutesFromDiscovery(key: Keying, defaults: Defaults, routes: seq<RouteDef>, discovered: Discovery)
    returns (augmented: seq<RouteDef>)
    ensures IsAugmented(key, defaults, routes, discovered, augmented)
  {
    var known := CollectKnown(key, routes);
    var keys := SortStrings(discovered.Keys);
    ListingHoldsKeys(discovered, keys);
    augmented := AppendUnknown(defaults, routes, known, discovered, keys);
  }

  lemma ListingHoldsKeys(discovered: Discovery, keys: seq<string>)
    requires SortedListing(discovered.Keys, keys)
    ensures IsListing(discovered, keys)
  {
    forall i | 0 <= i < |keys| ensures keys[i] in discovered {
      assert keys[i] in keys;
    }
  }

  /** The added routes belong, in order, to the unknown keys of the listing: to all of them and no others. */
  lemma {:induction false} NewRoutesAreListed(
    defaults: Defaults, known: set<string>, discovered: Discovery, keys: seq<string>, n: nat)
    returns (at: seq<nat>)
    requires KeysOf(discovered, keys) && n <= |keys|
    ensures var r := NewRoutes(defaults, known, discovered, keys, n);
      && |at| == |r|
      && (forall a, b | 0 <= a < b < |at| :: at[a] < at[b])
      && (forall a | 0 <= a < |at| ::
            at[a] < n && keys[at[a]] !in known && r[a] == RouteFor(defaults, discovered[keys[at[a]]]))
      && (forall i | 0 <= i < n && keys[i] !in known :: i in at)
  {
    if n == 0 {
      at := [];
    } else {
      at := NewRoutesAreListed(defaults, known, discovered, keys, n - 1);
      if keys[n - 1] !in known {
        at := at + [n - 1];
      }
    }
  }

  lemma KnownKeysOfNewRoutes(
    key: Keying, defaults: Defaults, known: set<string>, discovered: Discovery, keys: seq<string>)
    requires Filed(key, discovered) && IsListing(discovered, keys)
    ensures KnownKeys(key, NewRoutes(defaults, known, discovered, keys, |keys|)) == discovered.Keys - known
  {
    var r := NewRoutes(defaults, known, discovered, keys, |keys|);
    var at := NewRoutesAreListed(defaults, known, discovered, keys, |keys|);
    forall k | k in KnownKeys(key, r) ensures k in discovered.Keys - known {
      var i, j :| 0 <= i < |r| && 0 <= j < |r[i].methods| && key(r[i].methods[j], r[i].path) == k;
    }
    forall k | k in discovered.Keys - known ensures k in KnownKeys(key, r) {
      assert k in keys;
      var i :| 0 <= i < |keys| && keys[i] == k;
      var a :| 0 <= a < |at| && at[a] == i;
      assert r[a].methods[0] == RouteFor(defaults, discovered[k]).methods[0];
    }
  }

  /** Augmenting keeps the declared routes in front and covers exactly the declared and the discovered keys. */
  lemma AugmentedRoutesCoverDiscovery(
    key: Keying, defaults: Defaults, routes: seq<RouteDef>, discovered: Discovery, r: seq<RouteDef>)
    requires Filed(key, discovered) && IsAugmented(key, defaults, routes, discovered, r)
    ensures routes <= r
    ensures KnownKeys(key, r) == KnownKeys(key, routes) + discovered.Keys
  {
    var known := KnownKeys(key, routes);
    var keys :| IsListing(discovered, keys) && r == routes + NewRoutes(defaults, known, discovered, keys, |keys|);
    KnownKeysOfNewRoutes(key, defaults, known, discovered, keys);
    KnownKeysOfBoth(key, routes, NewRoutes(defaults, known, discovered, keys, |keys|));
  }

  /** A route made for an endpoint. */
  predicate Describes(defaults: Defaults, route: RouteDef, ep: Endpoint) {
    && route.path == ep.path && route.methods == [ToLower(ep.verb)] && route.summary == ep.summary
    && route.tag == defaults.tagOf(ep.path) && route.security == defaults.securityOf(ep.path)
    && route.params == []
  }

  /** Each added route has one method; the keys of the added routes are undeclared, discovered, and in increasing order,
      so pairwise distinct; and each route describes the endpoint of its key. */
  lemma AddedRoutesAreNewAndDistinct(
    key: Keying, defaults: Defaults, routes: seq<RouteDef>, discovered: Discovery, r: seq<RouteDef>)
    requires Filed(key, discovered) && IsAugmented(key, defaults, routes, discovered, r)
    ensures |routes| <= |r|
    ensures forall a | |routes| <= a < |r| :: (
      && |r[a].methods| == 1
      && key(r[a].methods[0], r[a].path) in discovered.Keys - KnownKeys(key, routes))
    ensures forall a, b | |routes| <= a < b < |r| ::
      StringLess(key(r[a].methods[0], r[a].path), key(r[b].methods[0], r[b].path))
    ensures forall a | |routes| <= a < |r| ::
      Describes(defaults, r[a], discovered[key(r[a].methods[0], r[a].path)])
  {
    var known := KnownKeys(key, routes);
    var keys :| IsListing(discovered, keys) && r == routes + NewRoutes(defaults, known, discovered, keys, |keys|);
    var added := NewRoutesHaveNewKeys(key, defaults, known, discovered, keys);
    forall a | |routes| <= a < |r|
      ensures |r[a].methods| == 1 && key(r[a].methods[0], r[a].path) == added[a - |routes|]
      ensures Describes(defaults, r[a], discovered[added[a - |routes|]])
    {
      assert r[a] == NewRoutes(defaults, known, discovered, keys, |keys|)[a - |routes|];
    }
  }

  lemma NewRoutesHaveNewKeys(
    key: Keying, defaults: Defaults, known: set<string>, discovered: Discovery, keys: seq<string>)
    returns (added: seq<string>)
    requires Filed(key, discovered) && IsListing(discovered, keys)
    ensures var r := NewRoutes(defaults, known, discovered, keys, |keys|);
      && |added| == |r|
      && (forall a | 0 <= a < |r| :: |r[a].methods| == 1 && key(r[a].methods[0], r[a].path) == added[a])
      && (forall a | 0 <= a < |r| :: added[a] in discovered && Describes(defaults, r[a], discovered[added[a]]))
    ensures forall a | 0 <= a < |added| :: added[a] in discovered.Keys - known
    ensures forall a, b | 0 <= a < b < |added| :: StringLess(added[a], added[b])
  {
    var at := NewRoutesAreListed(defaults, known, discovered, keys, |keys|);
    added := seq(|at|, a requires 0 <= a < |at| => keys[at[a]]);
  }

  /** Augmenting an augmented list adds nothing. */
  lemma AugmentingIsIdempotent(
    key: Keying, defaults: Defaults, routes: seq<RouteDef>, discovered: Discovery, r: seq<RouteDef>,
    q: seq<RouteDef>)
    requires Filed(key, discovered)
    requires IsAugmented(key, defaults, routes, discovered, r) && IsAugmented(key, defaults, r, discovered, q)
    ensures q == r
  {
    AugmentedRoutesCoverDiscovery(key, defaults, routes, discovered, r);
    var known := KnownKeys(key, r);
    var keys :| IsListing(discovered, keys) && q == r + NewRoutes(defaults, known, discovered, keys, |keys|);
    NothingNew(defaults, known, discovered, keys, |keys|);
  }

  lemma {:induction false} NothingNew(
    defaults: Defaults, known: set<string>, discovered: Discovery, keys: seq<string>, n: nat)
    requires KeysOf(discovered, keys) && n <= |keys| && discovered.Keys <= known
    ensures NewRoutes(defaults, known, discovered, keys, n) == []
  {
    if n > 0 {
      NothingNew(defaults, known, discovered, keys, n - 1);
    }
  }

  /** The outcome does not depend on anything but the routes and the discovered endpoints. */
  lemma AugmentingIsDetermined(
    key: Keying, defaults: Defaults, routes: seq<RouteDef>, discovered: Discovery, r: seq<RouteDef>,
    q: seq<RouteDef>)
    requires IsAugmented(key, defaults, routes, discovered, r) && IsAugmented(key, defaults, routes, discovered, q)
    ensures r == q
  {
    var known := KnownKeys(key, routes);
    var a :| IsListing(discovered, a) && r == routes + NewRoutes(defaults, known, discovered, a, |a|);
    var b :| IsListing(discovered, b) && q == routes + NewRoutes(defaults, known, discovered, b, |b|);
    SortedListingIsUnique(discovered.Keys, a, b);
  }

  // ---------------------------------------------------------------- building the paths

  datatype Security = Unspecified | BearerRequired | BearerOptional

  function SecurityRequirement(security: string): Security {
    if security == "bearer" || security == "verified_email" then BearerRequired
    else if security == "optional" || security == "guest" then BearerOptional
    else Unspecified
  }

  predicate MethodNeedsBody(verb: string) {
    var m := ToLower(verb);
    m == "post" || m == "put" || m == "patch"
  }

  /** The slug of operationID: slashes become underscores, braces are dropped. */
  function Slug(path: string): string {
    if path == "" then ""
    else (if path[0] == '/' then "_" else if path[0] == '{' || path[0] == '}' then "" else [path[0]]) + Slug(path[1..])
  }

  function OperationId(path: string, verb: string): string {
    ToLower(verb) + "_" + Slug(if HasPrefix(path, "/api/") then path[5..] else path)
  }

  datatype Operation = Operation(
    tag: string,
    summary: string,
    operationId: string,
    parameters: seq<ApiParameter>,
    security: Security,
    hasBody: bool)

  function OperationOf(defaults: Defaults, discovered: Discovery, route: RouteDef, verb: string): Operation {
    Operation(
      route.tag,
      route.summary,
      OperationId(route.path, verb),
      ParametersOf(defaults, route, Lookup(discovered, verb, route.path)),
      SecurityRequirement(route.security),
      MethodNeedsBody(verb))
  }

  /** What an operation says beside its parameters. */
  predicate Heads(op: Operation, route: RouteDef, verb: string) {
    && op.tag == route.tag && op.summary == route.summary
    && (op.hasBody <==> ToLower(verb) in {"post", "put", "patch"})
    && (op.security == BearerRequired <==> route.security in {"bearer", "verified_email"})
    && (op.security == BearerOptional <==> route.security in {"optional", "guest"})
    && op.operationId
       == ToLower(verb) + "_" + Slug(if HasPrefix(route.path, "/api/") then route.path[5..] else route.path)
  }

  /** The slug of a text is put together from the slugs of its parts; a slash becomes an underscore, braces vanish, and
      text without either stays. */
  lemma SlugsAre(a: string, b: string)
    ensures Slug(a + b) == Slug(a) + Slug(b)
    ensures Slug("/") == "_" && Slug("{") == "" && Slug("}") == ""
    ensures '/' !in a && '{' !in a && '}' !in a ==> Slug(a) == a
  {
    SlugOfBoth(a, b);
    if '/' !in a && '{' !in a && '}' !in a {
      SlugOfPlain(a);
    }
  }

  lemma {:induction false} SlugOfBoth(a: string, b: string)
    ensures Slug(a + b) == Slug(a) + Slug(b)
  {
    if a == "" {
      assert a + b == b;
    } else {
      assert (a + b)[0] == a[0] && (a + b)[1..] == a[1..] + b;
      SlugOfBoth(a[1..], b);
    }
  }

  lemma {:induction false} SlugOfPlain(a: string)
    requires '/' !in a && '{' !in a && '}' !in a
    ensures Slug(a) == a
  {
    if a != "" {
      SlugOfPlain(a[1..]);
      assert a == [a[0]] + a[1..];
    }
  }

  type PathItem = map<string, Operation>
  type Paths = map<string, PathItem>
  type Builder = (RouteDef, string) -> Operation

  function ItemOf(paths: Paths, path: string): PathItem {
    if path in paths then paths[path] else map[]
  }

  /** The paths map after the first `i` routes and the first `j` methods of the next. */
  function PathsAfter(build: Builder, routes: seq<RouteDef>, i: nat, j: nat): Paths
    requires if i < |routes| then j <= |routes[i].methods| else i == |routes| && j == 0
    decreases i, j
  {
    if j > 0 then
      var before := PathsAfter(build, routes, i, j - 1);
      var verb := routes[i].methods[j - 1];
      before[routes[i].path := ItemOf(before, routes[i].path)[ToLower(verb) := build(routes[i], verb)]]
    else
      var before := if i > 0 then PathsAfter(build, routes, i - 1, |routes[i - 1].methods|) else map[];
      if i < |routes| then before[routes[i].path := ItemOf(before, routes[i].path)] else before
  }

  ghost function OperationBuilder(defaults: Defaults, discovered: Discovery): Builder {
    (route, verb) => OperationOf(defaults, discovered, route, verb)
  }

  /** An operation is headed as its route says, and its parameters show what was discovered of it and declared. */
  lemma OperationShowsSources(defaults: Defaults, discovered: Discovery, route: RouteDef, verb: string)
    requires InQuery(Lookup(discovered, verb, route.path).queryParams)
    ensures var op := OperationBuilder(defaults, discovered)(route, verb);
      Heads(op, route, verb) && ShowsSources(defaults, discovered, route, verb, op.parameters)
  {
    LookupShowsSources(
      defaults, discovered, route, verb, ParametersOf(defaults, route, Lookup(discovered, verb, route.path)));
  }

  method BuildOperation(
    defaults: Defaults, discovered: Discovery, route: RouteDef, verb: string)
    returns (op: Operation)
    requires InQuery(Lookup(discovered, verb, route.path).queryParams)
    ensures op == OperationBuilder(defaults, discovered)(route, verb)
  {
    var params := BuildParameters(defaults, route, verb, discovered);
    op := Operation(route.tag, route.summary, OperationId(route.path, verb), params,
                    SecurityRequirement(route.security), MethodNeedsBody(verb));
  }

  method BuildPaths(defaults: Defaults, routes: seq<RouteDef>, discovered: Discovery) returns (paths: Paths)
    requires forall k :: k in discovered ==> InQuery(discovered[k].queryParams)
    ensures paths == PathsAfter(OperationBuilder(defaults, discovered), routes, |routes|, 0)
  {
    ghost var build := OperationBuilder(defaults, discovered);
    paths := map[];
    for i := 0 to |routes|
      invariant paths == if i > 0 then PathsAfter(build, routes, i - 1, |routes[i - 1].methods|) else map[]
    {
      paths := AddRoute(defaults, discovered, routes, i, paths, build);
    }
  }

  /** One turn of the outer loop. */
  method AddRoute(
    defaults: Defaults, discovered: Discovery, routes: seq<RouteDef>, i: nat, before: Paths, ghost build: Builder)
    returns (paths: Paths)
    requires forall k :: k in discovered ==> InQuery(discovered[k].queryParams)
    requires build == OperationBuilder(defaults, discovered)
    requires i < |routes|
    requires before == if i > 0 then PathsAfter(build, routes, i - 1, |routes[i - 1].methods|) else map[]
    ensures paths == PathsAfter(build, routes, i, |routes[i].methods|)
  {
    var route := routes[i];
    var pathItem := ItemOf(before, route.path);
    paths := before[route.path := pathItem];
    for j := 0 to |route.methods|
      invariant paths == PathsAfter(build, routes, i, j)
      invariant route.path in paths && pathItem == paths[route.path]
    {
      var op := BuildOperation(defaults, discovered, route, route.methods[j]);
      pathItem := pathItem[ToLower(route.methods[j]) := op];
      PathsOneMore(build, routes, i, j);
      paths := paths[route.path := pathItem];
    }
  }

  lemma PathsOneMore(build: Builder, routes: seq<RouteDef>, i: nat, j: nat)
    requires i < |routes| && j < |routes[i].methods|
    ensures var before, path, verb := PathsAfter(build, routes, i, j), routes[i].path, routes[i].methods[j];
      PathsAfter(build, routes, i, j + 1)
      == before[path := ItemOf(before, path)[ToLower(verb) := build(routes[i], verb)]]
  {
  }

  // ---------------------------------------------------------------- what the paths hold

  /** The pair at position (m, n) comes before position (i, j) of the routes and their methods. */
  predicate Before(m: nat, n: nat, i: nat, j: nat) {
    m < i || (m == i && n < j)
  }

  predicate Places(routes: seq<RouteDef>, m: nat, n: nat, path: string, verb: string) {
    m < |routes| && n < |routes[m].methods| && routes[m].path == path && ToLower(routes[m].methods[n]) == verb
  }

  /** Position (m, n) is the last one before (i, j) that declares the pair. */
  ghost predicate IsLast(routes: seq<RouteDef>, i: nat, j: nat, m: nat, n: nat, path: string, verb: string) {
    && Before(m, n, i, j) && Places(routes, m, n, path, verb)
    && forall a: nat, b: nat :: Before(a, b, i, j) && Places(routes, a, b, path, verb) ==> !Before(m, n, a, b)
  }

  function OperationAt(paths: Paths, path: string, verb: string): Option<Operation> {
    if path in paths && verb in paths[path] then Some(paths[path][verb]) else None
  }

  lemma {:induction false} PathsHoldLastDeclarations(
    build: Builder, routes: seq<RouteDef>, i: nat, j: nat, path: string, verb: string)
    requires if i < |routes| then j <= |routes[i].methods| else i == |routes| && j == 0
    ensures HoldsLast(build, routes, i, j, path, verb, OperationAt(PathsAfter(build, routes, i, j), path, verb))
    decreases i, j
  {
    if j > 0 {
      PathsHoldLastDeclarations(build, routes, i, j - 1, path, verb);
      LastAfterMethod(build, routes, i, j, path, verb, OperationAt(PathsAfter(build, routes, i, j - 1), path, verb));
    } else if i > 0 {
      var k := |routes[i - 1].methods|;
      PathsHoldLastDeclarations(build, routes, i - 1, k, path, verb);
      LastAfterRoute(build, routes, i, path, verb, OperationAt(PathsAfter(build, routes, i - 1, k), path, verb));
    }
  }

  /** `op` is the operation of the last declaration before (i, j), if there is one. */
  ghost predicate HoldsLast(
    build: Builder, routes: seq<RouteDef>, i: nat, j: nat, path: string, verb: string, op: Option<Operation>)
  {
    if op.None? then forall m: nat, n: nat :: Before(m, n, i, j) ==> !Places(routes, m, n, path, verb)
    else exists m: nat, n: nat ::
      IsLast(routes, i, j, m, n, path, verb) && op.value == build(routes[m], routes[m].methods[n])
  }

  lemma LastAfterMethod(
    build: Builder, routes: seq<RouteDef>, i: nat, j: nat, path: string, verb: string, op: Option<Operation>)
    requires i < |routes| && 0 < j <= |routes[i].methods| && HoldsLast(build, routes, i, j - 1, path, verb, op)
    ensures HoldsLast(build, routes, i, j, path, verb,
      if Places(routes, i, j - 1, path, verb) then Some(build(routes[i], routes[i].methods[j - 1])) else op)
  {
    if Places(routes, i, j - 1, path, verb) {
      assert IsLast(routes, i, j, i, j - 1, path, verb);
    } else if op.Some? {
      var m: nat, n: nat :|
        IsLast(routes, i, j - 1, m, n, path, verb) && op.value == build(routes[m], routes[m].methods[n]);
      assert IsLast(routes, i, j, m, n, path, verb);
    }
  }

  lemma LastAfterRoute(
    build: Builder, routes: seq<RouteDef>, i: nat, path: string, verb: string, op: Option<Operation>)
    requires 0 < i <= |routes| && HoldsLast(build, routes, i - 1, |routes[i - 1].methods|, path, verb, op)
    ensures HoldsLast(build, routes, i, 0, path, verb, op)
  {
    var k := |routes[i - 1].methods|;
    if op.Some? {
      var m: nat, n: nat :|
        IsLast(routes, i - 1, k, m, n, path, verb) && op.value == build(routes[m], routes[m].methods[n]);
      assert IsLast(routes, i, 0, m, n, path, verb);
    }
  }

  /** Section 4.7.8 of OpenAPI 3.0.3, shape of the map: a (path, method) pair has an operation exactly when some
      route declares it, up to the case of the method; it is the operation of the last such declaration. */
  lemma PathsMirrorRoutes(build: Builder, routes: seq<RouteDef>, path: string, verb: string)
    ensures var op := OperationAt(PathsAfter(build, routes, |routes|, 0), path, verb);
      && (op.Some? <==> exists m: nat, n: nat :: Places(routes, m, n, path, verb))
      && (op.Some? ==> exists m: nat, n: nat ::
            IsLast(routes, |routes|, 0, m, n, path, verb) && op.value == build(routes[m], routes[m].methods[n]))
  {
    PathsHoldLastDeclarations(build, routes, |routes|, 0, path, verb);
    var op := OperationAt(PathsAfter(build, routes, |routes|, 0), path, verb);
    if op.Some? {
      var m: nat, n: nat :| IsLast(routes, |routes|, 0, m, n, path, verb);
      assert Places(routes, m, n, path, verb);
    }
    if m: nat, n: nat :| Places(routes, m, n, path, verb) {
      assert Before(m, n, |routes|, 0);
    }
  }

  /** End to end: the documented (path, method) pairs have exactly the declared and the discovered keys. */
  lemma EveryEndpointIsDocumented(
    defaults: Defaults, build: Builder, routes: seq<RouteDef>, discovered: Discovery, r: seq<RouteDef>, k: string)
    requires WellDiscovered(discovered) && IsAugmented(EndpointKey, defaults, routes, discovered, r)
    ensures k in discovered || k in KnownKeys(EndpointKey, routes)
      <==> exists path, verb ::
             OperationAt(PathsAfter(build, r, |r|, 0), path, verb).Some? && EndpointKey(verb, path) == k
  {
    WellDiscoveredIsFiled(discovered);
    AugmentedRoutesCoverDiscovery(EndpointKey, defaults, routes, discovered, r);
    DocumentedKeys(build, r, k);
  }

  lemma DocumentedKeys(build: Builder, r: seq<RouteDef>, k: string)
    ensures k in KnownKeys(EndpointKey, r)
      <==> exists path, verb ::
             OperationAt(PathsAfter(build, r, |r|, 0), path, verb).Some? && EndpointKey(verb, path) == k
  {
    var paths := PathsAfter(build, r, |r|, 0);
    if k in KnownKeys(EndpointKey, r) {
      var i, j :| 0 <= i < |r| && 0 <= j < |r[i].methods| && EndpointKey(r[i].methods[j], r[i].path) == k;
      var verb := ToLower(r[i].methods[j]);
      assert Places(r, i, j, r[i].path, verb);
      PathsMirrorRoutes(build, r, r[i].path, verb);
      EndpointKeyIgnoresNormalization(r[i].methods[j], r[i].path);
      assert OperationAt(paths, r[i].path, verb).Some? && EndpointKey(verb, r[i].path) == k;
    }
    if path, verb :| OperationAt(paths, path, verb).Some? && EndpointKey(verb, path) == k {
      PathsMirrorRoutes(build, r, path, verb);
      var m: nat, n: nat :| Places(r, m, n, path, verb);
      EndpointKeyIgnoresNormalization(r[m].methods[n], path);
    }
  }

  // ---------------------------------------------------------------- one spelling per template

  lemma {:induction false} PathsAreRoutePaths(build: Builder, routes: seq<RouteDef>, i: nat, j: nat, path: string)
    requires if i < |routes| then j <= |routes[i].methods| else i == |routes| && j == 0
    ensures path in PathsAfter(build, routes, i, j)
      <==> exists m :: 0 <= m < |routes| && m <= i && routes[m].path == path
    decreases i, j
  {
    if j > 0 {
      PathsAreRoutePaths(build, routes, i, j - 1, path);
    } else if i > 0 {
      PathsAreRoutePaths(build, routes, i - 1, |routes[i - 1].methods|, path);
    }
  }

  ghost predicate HasRoute(routes: seq<RouteDef>, path: string) {
    exists m :: 0 <= m < |routes| && routes[m].path == path
  }

  ghost predicate HasUnknown(known: set<string>, discovered: Discovery, path: string) {
    exists k :: k in discovered && k !in known && discovered[k].path == path
  }

  lemma AugmentedPaths(
    key: Keying, defaults: Defaults, routes: seq<RouteDef>, discovered: Discovery, r: seq<RouteDef>, path: string)
    requires IsAugmented(key, defaults, routes, discovered, r)
    ensures HasRoute(r, path) <==> HasRoute(routes, path) || HasUnknown(KnownKeys(key, routes), discovered, path)
  {
    var known := KnownKeys(key, routes);
    var keys :| IsListing(discovered, keys) && r == routes + NewRoutes(defaults, known, discovered, keys, |keys|);
    NewPaths(defaults, known, discovered, keys, path);
    PathsOfBoth(routes, NewRoutes(defaults, known, discovered, keys, |keys|), path);
  }

  lemma PathsOfBoth(a: seq<RouteDef>, b: seq<RouteDef>, path: string)
    ensures HasRoute(a + b, path) <==> HasRoute(a, path) || HasRoute(b, path)
  {
    if m :| 0 <= m < |a| && a[m].path == path {
      assert (a + b)[m] == a[m];
    }
    if m :| 0 <= m < |b| && b[m].path == path {
      assert (a + b)[|a| + m] == b[m];
    }
    if m :| 0 <= m < |a + b| && (a + b)[m].path == path {
      assert (a + b)[m] == if m < |a| then a[m] else b[m - |a|];
    }
  }

  lemma NewPaths(defaults: Defaults, known: set<string>, discovered: Discovery, keys: seq<string>, path: string)
    requires IsListing(discovered, keys)
    ensures HasRoute(NewRoutes(defaults, known, discovered, keys, |keys|), path)
      <==> HasUnknown(known, discovered, path)
  {
    var r := NewRoutes(defaults, known, discovered, keys, |keys|);
    var at := NewRoutesAreListed(defaults, known, discovered, keys, |keys|);
    if k :| k in discovered && k !in known && discovered[k].path == path {
      assert k in keys;
      var i :| 0 <= i < |keys| && keys[i] == k;
      var a :| 0 <= a < |at| && at[a] == i;
      assert r[a] == RouteFor(defaults, discovered[k]);
    }
    if m :| 0 <= m < |r| && r[m].path == path {
      assert r[m] == RouteFor(defaults, discovered[keys[at[m]]]);
    }
  }

  /** "Templated paths with the same hierarchy but different templated names MUST NOT exist" (section 4.7.8). */
  ghost predicate OneSpelling(pattern: string -> string, paths: Paths) {
    forall p, q :: p in paths && q in paths && pattern(p) == pattern(q) ==> p == q
  }

  /** The inputs agree: declared routes among themselves, and undeclared endpoints with them and with each other. */
  ghost predicate AgreedSpelling(
    pattern: string -> string, known: set<string>, routes: seq<RouteDef>, discovered: Discovery)
  {
    && (forall i, j | 0 <= i < |routes| && 0 <= j < |routes| && pattern(routes[i].path) == pattern(routes[j].path) ::
          routes[i].path == routes[j].path)
    && (forall i, k | 0 <= i < |routes| && k in discovered && k !in known
                      && pattern(routes[i].path) == pattern(discovered[k].path) ::
          routes[i].path == discovered[k].path)
    && (forall k, l | k in discovered && k !in known && l in discovered && l !in known
                      && pattern(discovered[k].path) == pattern(discovered[l].path) ::
          discovered[k].path == discovered[l].path)
  }

  /** The generator does not enforce one spelling per template: the document has it exactly when the inputs do. */
  lemma OneSpellingExactlyWhenAgreed(
    pattern: string -> string, key: Keying, defaults: Defaults, build: Builder,
    routes: seq<RouteDef>, discovered: Discovery, r: seq<RouteDef>)
    requires IsAugmented(key, defaults, routes, discovered, r)
    ensures OneSpelling(pattern, PathsAfter(build, r, |r|, 0))
       <==> AgreedSpelling(pattern, KnownKeys(key, routes), routes, discovered)
  {
    var paths, known := PathsAfter(build, r, |r|, 0), KnownKeys(key, routes);
    forall p ensures p in paths <==> HasRoute(routes, p) || HasUnknown(known, discovered, p) {
      PathsAreRoutePaths(build, r, |r|, 0, p);
      AugmentedPaths(key, defaults, routes, discovered, r, p);
    }
    forall i | 0 <= i < |routes| ensures routes[i].path in paths {
      assert HasRoute(routes, routes[i].path);
    }
    forall k | k in discovered && k !in known ensures discovered[k].path in paths {
      assert HasUnknown(known, discovered, discovered[k].path);
    }
  }

  lemma OtherSpellingDisagrees(
    pattern: string -> string, known: set<string>, routes: seq<RouteDef>, discovered: Discovery, i: nat, k: string)
    requires i < |routes| && k in discovered && k !in known
    requires pattern(routes[i].path) == pattern(discovered[k].path) && routes[i].path != discovered[k].path
    ensures !AgreedSpelling(pattern, known, routes, discovered)
  {
  }

  /** It can fail: a declared path, and a handler that spells the same template differently under another verb. */
  lemma OtherSpellingUnderOtherVerbClashes(
    pattern: string -> string, key: Keying, defaults: Defaults, build: Builder, p: string, q: string, r: seq<RouteDef>)
    requires p != q && pattern(p) == pattern(q) && key("get", p) != key("post", q)
    requires IsAugmented(key, defaults, [RouteDef(p, ["get"], "", "", "", [])],
                         map[key("post", q) := Endpoint("post", q, "", [], [])], r)
    ensures !OneSpelling(pattern, PathsAfter(build, r, |r|, 0))
  {
    var routes, k := [RouteDef(p, ["get"], "", "", "", [])], key("post", q);
    var discovered := map[k := Endpoint("post", q, "", [], [])];
    KnownKeysOfOne(key, routes[0]);
    OtherSpellingDisagrees(pattern, KnownKeys(key, routes), routes, discovered, 0, k);
    OneSpellingExactlyWhenAgreed(pattern, key, defaults, build, routes, discovered, r);
  }

  /** One template under two namings of its parameters. */
  predicate IsRenaming(a: seq<Piece>, b: seq<Piece>) {
    && WellFormed(a) && WellFormed(b) && |a| == |b|
    && (forall i | 0 <= i < |a| :: a[i] == b[i] || (a[i].Parameter? && b[i].Parameter?))
    && Names(a) != Names(b)
  }

  /** Every renaming of template parameters is such a case, whatever literals and constraints stand around them. */
  lemma RenamedTemplatesClash(a: seq<Piece>, b: seq<Piece>)
    requires IsRenaming(a, b)
    ensures var p, q := NormalizeOpenAPIPath(Render(a)), NormalizeOpenAPIPath(Render(b));
      p != q && PathPattern(p) == PathPattern(q) && EndpointKey("get", p) != EndpointKey("post", q)
  {
    var p, q := NormalizeOpenAPIPath(Render(a)), NormalizeOpenAPIPath(Render(b));
    NamesOfNormalized(a);
    NamesOfNormalized(b);
    RewriteAfterNormalize(Render(a), false);
    RewriteAfterNormalize(Render(b), false);
    RewriteRendered(a, false);
    RewriteRendered(b, false);
    EraseIgnoresNames(a, b);
    GetIsNotPost(p, q);
  }

  lemma GetIsNotPost(p: string, q: string)
    ensures EndpointKey("get", p) != EndpointKey("post", q)
  {
    EndpointKeyIsFaithful("get", p, "post", q);
    assert |ToUpper("get")| != |ToUpper("post")|;
  }
}
