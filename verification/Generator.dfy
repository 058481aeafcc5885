/** The OpenAPI generator from end to end: discovery, completed routes, document. */
module Generator {
  import opened DefaultTables
  import opened PathTemplates
  import opened HandlerScan
  import opened Parameters
  import opened HandlerFile
  import opened EndpointDiscovery
  import opened Determined
  import opened DiscoveryCoverage
  import opened Spec

  /** The parameters of an operation are those its path calls for: the template names first, in order and in the
      path, then query parameters sorted by name, without repetition unless the path repeats a name. */
  predicate WellPlaced(path: string, params: seq<ApiParameter>) {
    var names := ExtractPathParamNames(path);
    && |names| <= |params|
    && (forall i | 0 <= i < |names| :: params[i].name == names[i] && params[i].location == "path")
    && (forall i | |names| <= i < |params| :: params[i].location == "query")
    && (DistinctPairs(params) <==> DistinctStrings(names))
  }

  lemma DocumentedParametersAreWellPlaced(
    defaults: Defaults, discovered: Discovery, routes: seq<RouteDef>, path: string, verb: string)
    requires WellDiscovered(discovered)
    requires OperationAt(PathsAfter(OperationBuilder(defaults, discovered), routes, |routes|, 0), path, verb).Some?
    ensures WellPlaced(
      path,
      OperationAt(PathsAfter(OperationBuilder(defaults, discovered), routes, |routes|, 0), path, verb).value.parameters)
  {
    var build := OperationBuilder(defaults, discovered);
    PathsMirrorRoutes(build, routes, path, verb);
    var op := OperationAt(PathsAfter(build, routes, |routes|, 0), path, verb).value;
    var m: nat, n: nat :| IsLast(routes, |routes|, 0, m, n, path, verb) && op == build(routes[m], routes[m].methods[n]);
    OperationIsWellPlaced(defaults, discovered, routes[m], routes[m].methods[n]);
  }

  lemma OperationIsWellPlaced(defaults: Defaults, discovered: Discovery, route: RouteDef, verb: string)
    requires WellDiscovered(discovered)
    ensures WellPlaced(route.path, OperationBuilder(defaults, discovered)(route, verb).parameters)
  {
    ParametersAreWellPlaced(defaults, route, Lookup(discovered, verb, route.path));
  }

  /** Every operation is that of the last route to declare its path and method: it is headed as that route says, and its
      parameters show what discovery filed under its key and what the route declares. */
  lemma DocumentedOperationsShowSources(
    defaults: Defaults, discovered: Discovery, routes: seq<RouteDef>, path: string, verb: string)
    requires WellDiscovered(discovered)
    requires OperationAt(PathsAfter(OperationBuilder(defaults, discovered), routes, |routes|, 0), path, verb).Some?
    ensures exists m: nat, n: nat ::
      && IsLast(routes, |routes|, 0, m, n, path, verb)
      && IsOperationOf(
        defaults, discovered, routes[m], routes[m].methods[n],
        OperationAt(PathsAfter(OperationBuilder(defaults, discovered), routes, |routes|, 0), path, verb).value)
  {
    var build := OperationBuilder(defaults, discovered);
    PathsMirrorRoutes(build, routes, path, verb);
    var op := OperationAt(PathsAfter(build, routes, |routes|, 0), path, verb).value;
    var m: nat, n: nat :| IsLast(routes, |routes|, 0, m, n, path, verb) && op == build(routes[m], routes[m].methods[n]);
    OperationShowsSources(defaults, discovered, routes[m], routes[m].methods[n]);
  }

  ghost predicate IsOperationOf(
    defaults: Defaults, discovered: Discovery, route: RouteDef, verb: string, op: Operation)
  {
    Heads(op, route, verb) && ShowsSources(defaults, discovered, route, verb, op.parameters)
  }

  /** The paths built from the declared routes completed by the discovered ones. */
  ghost predicate IsDocumentOf(defaults: Defaults, routes: seq<RouteDef>, discovered: Discovery, paths: Paths) {
    exists all ::
      && IsAugmented(EndpointKey, defaults, routes, discovered, all)
      && paths == PathsAfter(OperationBuilder(defaults, discovered), all, |all|, 0)
  }

  /** Routes and discovery leave only one document, whatever the order of map iterations. */
  lemma DocumentIsDetermined(defaults: Defaults, routes: seq<RouteDef>, discovered: Discovery, p: Paths, q: Paths)
    requires IsDocumentOf(defaults, routes, discovered, p) && IsDocumentOf(defaults, routes, discovered, q)
    ensures p == q
  {
    var a :| IsAugmented(EndpointKey, defaults, routes, discovered, a)
      && p == PathsAfter(OperationBuilder(defaults, discovered), a, |a|, 0);
    var b :| IsAugmented(EndpointKey, defaults, routes, discovered, b)
      && q == PathsAfter(OperationBuilder(defaults, discovered), b, |b|, 0);
    AugmentingIsDetermined(EndpointKey, defaults, routes, discovered, a, b);
  }

  /** If no comment block repeats a parameter, the document is a function of the routes and the directory's text. */
  lemma GenerationIsDetermined(
    g: Grammar, defaults: Defaults, routes: seq<RouteDef>, dir: seq<DirEntry>,
    d: Discovery, p: Paths, d': Discovery, p': Paths)
    requires DirRepeatsNothing(g, dir)
    requires Discovered(g, dir, d) && IsDocumentOf(defaults, routes, d, p)
    requires Discovered(g, dir, d') && IsDocumentOf(defaults, routes, d', p')
    ensures d == d' && p == p'
  {
    DiscoveryIsDetermined(g, dir, d, d');
    DocumentIsDetermined(defaults, routes, d, p, p');
  }

  /** The generated document has operations for exactly the declared and the discovered keys, and each of them has
      well-placed parameters. */
  method Generate(g: Grammar, defaults: Defaults, routes: seq<RouteDef>, dir: seq<DirEntry>)
    returns (paths: Paths, discovered: Discovery)
    ensures Discovered(g, dir, discovered) && WellDiscovered(discovered)
    ensures IsDocumentOf(defaults, routes, discovered, paths)
    ensures forall k :: (
      k in discovered || k in KnownKeys(EndpointKey, routes)
      <==> exists path, verb :: OperationAt(paths, path, verb).Some? && EndpointKey(verb, path) == k)
    ensures forall path, verb :: OperationAt(paths, path, verb).Some? ==>
      WellPlaced(path, OperationAt(paths, path, verb).value.parameters)
    ensures forall i | 0 <= i < |routes| :: routes[i].path in paths
  {
    discovered := DiscoverHandlerEndpoints(g, dir);
    DiscoveryIsWellDiscovered(g, dir, discovered);
    var augmented := AugmentRoutesFromDiscovery(EndpointKey, defaults, routes, discovered);
    paths := BuildPaths(defaults, augmented, discovered);
    GeneratedPaths(defaults, routes, discovered, augmented, paths);
  }

  lemma GeneratedPaths(
    defaults: Defaults, routes: seq<RouteDef>, discovered: Discovery, augmented: seq<RouteDef>, paths: Paths)
    requires WellDiscovered(discovered) && IsAugmented(EndpointKey, defaults, routes, discovered, augmented)
    requires paths == PathsAfter(OperationBuilder(defaults, discovered), augmented, |augmented|, 0)
    ensures forall k :: (
      k in discovered || k in KnownKeys(EndpointKey, routes)
      <==> exists path, verb :: OperationAt(paths, path, verb).Some? && EndpointKey(verb, path) == k)
    ensures forall path, verb :: OperationAt(paths, path, verb).Some? ==>
      WellPlaced(path, OperationAt(paths, path, verb).value.parameters)
    ensures forall i | 0 <= i < |routes| :: routes[i].path in paths
  {
    forall k
      ensures k in discovered || k in KnownKeys(EndpointKey, routes)
        <==> exists path, verb :: OperationAt(paths, path, verb).Some? && EndpointKey(verb, path) == k
    {
      EveryEndpointIsDocumented(defaults, OperationBuilder(defaults, discovered), routes, discovered, augmented, k);
    }
    forall path, verb | OperationAt(paths, path, verb).Some?
      ensures WellPlaced(path, OperationAt(paths, path, verb).value.parameters)
    {
      DocumentedParametersAreWellPlaced(defaults, discovered, augmented, path, verb);
    }
    WellDiscoveredIsFiled(discovered);
    AugmentedRoutesCoverDiscovery(EndpointKey, defaults, routes, discovered, augmented);
    forall i | 0 <= i < |routes|
      ensures routes[i].path in paths
    {
      PathsAreRoutePaths(OperationBuilder(defaults, discovered), augmented, |augmented|, 0, routes[i].path);
      assert augmented[i].path == routes[i].path;
    }
  }

  /** Section 4.7.8 for the generator as it is: the document has one spelling of every templated path exactly when the
      declared routes and the endpoints with unknown keys agree on theirs. */
  lemma DocumentHasOneSpellingExactlyWhen(
    defaults: Defaults, routes: seq<RouteDef>, discovered: Discovery, paths: Paths)
    requires IsDocumentOf(defaults, routes, discovered, paths)
    ensures OneSpelling(PathPattern, paths)
      <==> AgreedSpelling(PathPattern, KnownKeys(EndpointKey, routes), routes, discovered)
  {
    var build := OperationBuilder(defaults, discovered);
    var all :| IsAugmented(EndpointKey, defaults, routes, discovered, all) && paths == PathsAfter(build, all, |all|, 0);
    OneSpellingExactlyWhenAgreed(PathPattern, EndpointKey, defaults, build, routes, discovered, all);
  }

  /** A route and a handler of another method that name the parameters of one template differently break it. */
  lemma RenamingBreaksOneSpelling(defaults: Defaults, a: seq<Piece>, b: seq<Piece>, paths: Paths)
    requires IsRenaming(a, b)
    requires var p, q := NormalizeOpenAPIPath(Render(a)), NormalizeOpenAPIPath(Render(b));
      IsDocumentOf(defaults, [RouteDef(p, ["get"], "", "", "", [])],
                   map[EndpointKey("post", q) := Endpoint("post", q, "", [], [])], paths)
    ensures !OneSpelling(PathPattern, paths)
  {
    var p, q := NormalizeOpenAPIPath(Render(a)), NormalizeOpenAPIPath(Render(b));
    var routes, discovered := [RouteDef(p, ["get"], "", "", "", [])],
      map[EndpointKey("post", q) := Endpoint("post", q, "", [], [])];
    var build := OperationBuilder(defaults, discovered);
    RenamedTemplatesClash(a, b);
    var all :| IsAugmented(EndpointKey, defaults, routes, discovered, all) && paths == PathsAfter(build, all, |all|, 0);
    OtherSpellingUnderOtherVerbClashes(PathPattern, EndpointKey, defaults, build, p, q, all);
  }

  /** Whatever a handler source announces, on a line its scan takes, has an operation in the document. */
  lemma AnnouncedEndpointsAreDocumented(
    g: Grammar, defaults: Defaults, routes: seq<RouteDef>, dir: seq<DirEntry>, discovered: Discovery, paths: Paths,
    f: nat, i: nat, m: string)
    requires Discovered(g, dir, discovered) && IsDocumentOf(defaults, routes, discovered, paths)
    requires f < |dir| && IsTakenLine(g, dir[f], i) && m in TakenRoute(g, dir[f], i).methods
    ensures exists path, verb ::
      OperationAt(paths, path, verb).Some? && EndpointKey(verb, path) == EndpointKey(m, TakenRoute(g, dir[f], i).path)
  {
    var key := EndpointKey(m, TakenRoute(g, dir[f], i).path);
    assert IsAnnouncedAs(g, dir[f], i, m, key);
    DiscoveredKeysAreAnnounced(g, dir, discovered, key);
    DiscoveryIsWellDiscovered(g, dir, discovered);
    var all :| IsAugmented(EndpointKey, defaults, routes, discovered, all)
      && paths == PathsAfter(OperationBuilder(defaults, discovered), all, |all|, 0);
    EveryEndpointIsDocumented(defaults, OperationBuilder(defaults, discovered), routes, discovered, all, key);
  }
}
