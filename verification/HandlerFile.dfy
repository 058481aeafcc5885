/** The scan of one handler file (parseQueryParamsComment, discoverQueryParamsFromBody, parseHandlerFile). */
module HandlerFile {
  import opened Text
  import opened Params
  import opened DefaultTables
  import opened PathTemplates
  import opened HandlerScan
  import opened Parameters

  // ---------------------------------------------------------------- comment parameters

  predicate HasSuffixChar(s: string, c: char) {
    s != "" && s[|s| - 1] == c
  }

  function IndexOf(s: string, c: char): (i: nat)
    ensures i <= |s| && c !in s[..i]
    ensures i < |s| ==> s[i] == c
  {
    if s == "" || s[0] == c then 0 else 1 + IndexOf(s[1..], c)
  }

  function QueryParam(name: string, kind: string, required: Option<bool>): ParamDef {
    ParamDef(name, "query", kind, "", "", None, required)
  }

  /** One entry of a "Query params:" comment, such as "points (array)". */
  function QueryParamOfChunk(defaults: Defaults, chunk: string): ParamDef {
    var i := IndexOf(chunk, '(');
    if 0 < i < |chunk| && HasSuffixChar(chunk, ')') then
      var name := TrimSpace(chunk[..i]);
      QueryParam(name, QueryTypeFromHint(TrimSpace(chunk[i + 1..|chunk| - 1])), Some(defaults.requiredQuery(name)))
    else
      QueryParam(chunk, "string", Some(defaults.requiredQuery(chunk)))
  }

  type EntryReader = string -> ParamDef

  function ChunkReader(defaults: Defaults): EntryReader {
    chunk => QueryParamOfChunk(defaults, chunk)
  }

  /** What `read` makes of every text that is not empty. */
  function ReadEach(read: EntryReader, texts: seq<string>): seq<ParamDef> {
    if texts == [] then []
    else
      var last := texts[|texts| - 1];
      ReadEach(read, texts[..|texts| - 1]) + (if last == "" then [] else [read(last)])
  }

  function QueryParamsOfChunks(defaults: Defaults, chunks: seq<string>): seq<ParamDef> {
    ReadEach(ChunkReader(defaults), Trimmed(chunks))
  }

  method ParseQueryParamsComment(defaults: Defaults, comment: string) returns (params: seq<ParamDef>)
    ensures params == QueryParamsOfChunks(defaults, Split(comment, ','))
  {
    var chunks := Split(comment, ',');
    ghost var texts := Trimmed(chunks);
    params := [];
    for i := 0 to |chunks|
      invariant params == ReadEach(ChunkReader(defaults), texts[..i])
    {
      assert texts[..i + 1][..i] == texts[..i];
      var chunk := TrimSpace(chunks[i]);
      assert chunk == texts[i];
      if chunk == "" {
        continue;
      }
      params := params + [QueryParamOfChunk(defaults, chunk)];
    }
    assert texts[..|chunks|] == texts;
  }

  lemma CommentParamsAreInQuery(defaults: Defaults, chunks: seq<string>)
    ensures InQuery(QueryParamsOfChunks(defaults, chunks))
  {
    EachIsInQuery(ChunkReader(defaults), Trimmed(chunks));
  }

  lemma {:induction false} EachIsInQuery(read: EntryReader, texts: seq<string>)
    requires forall t :: read(t).location == "query"
    ensures InQuery(ReadEach(read, texts))
  {
    if texts != [] {
      EachIsInQuery(read, texts[..|texts| - 1]);
    }
  }

  // ---------------------------------------------------------------- one file

  /** The regular expressions of discover.go:21-25, as what they recognise: on a trimmed line the summary and the
      route of a "handles" comment and the name and description of a path parameter, all trimmed, and the list of
      query parameters; in a function body the names read from the query and from the form. */
  datatype Grammar = Grammar(
    defaults: Defaults,
    handles: string -> Option<(string, string)>,
    pathParam: string -> Option<(string, string)>,
    queryParams: string -> Option<string>,
    queryNames: string -> seq<string>,
    formNames: string -> seq<string>)

  datatype ParsedEndpoint = ParsedEndpoint(
    methods: seq<string>,
    path: string,
    summary: string,
    pathParams: seq<ParamDef>,
    queryParams: seq<ParamDef>)

  /** strings.TrimSpace of every line; only function bodies are read from the lines themselves. */
  function Trimmed(lines: seq<string>): (r: seq<string>)
    ensures |r| == |lines|
  {
    seq(|lines|, i requires 0 <= i < |lines| => TrimSpace(lines[i]))
  }

  predicate IsComment(text: string) {
    HasPrefix(text, "//")
  }

  const COMMENT_WINDOW: nat := 6

  /** Last line of the comment block that belongs to the "handles" comment on line `i`. */
  function CommentEnd(texts: seq<string>, i: nat): (end: nat)
    requires i < |texts|
    ensures i <= end < |texts| && end <= i + COMMENT_WINDOW
  {
    WindowEnd(texts, i, i + 1)
  }

  function WindowEnd(texts: seq<string>, i: nat, j: nat): (end: nat)
    requires i < j <= i + COMMENT_WINDOW + 1 && j <= |texts|
    ensures j - 1 <= end < |texts| && end <= i + COMMENT_WINDOW
    decreases |texts| - j
  {
    if j < |texts| && j <= i + COMMENT_WINDOW && IsComment(texts[j]) then WindowEnd(texts, i, j + 1) else j - 1
  }

  lemma WindowOneMore(texts: seq<string>, i: nat, j: nat)
    requires i < j <= i + COMMENT_WINDOW && j < |texts| && IsComment(texts[j])
    ensures WindowEnd(texts, i, j) == WindowEnd(texts, i, j + 1)
  {
  }

  /** The block is as long as it can be: at most six lines, all of them comments. */
  lemma {:induction false} CommentEndIsMaximal(texts: seq<string>, i: nat, j: nat)
    requires i < j <= i + COMMENT_WINDOW + 1 && j <= |texts|
    ensures var end := WindowEnd(texts, i, j);
      && (forall k | j <= k <= end :: IsComment(texts[k]))
      && (end + 1 < |texts| && end < i + COMMENT_WINDOW ==> !IsComment(texts[end + 1]))
    decreases |texts| - j
  {
    if j < |texts| && j <= i + COMMENT_WINDOW && IsComment(texts[j]) {
      CommentEndIsMaximal(texts, i, j + 1);
    }
  }

  /** Where the comment block of each line would end. */
  function Blocks(texts: seq<string>): (r: seq<nat>)
    ensures |r| == |texts| && forall i | 0 <= i < |r| :: i <= r[i] < |texts|
  {
    seq(|texts|, i requires 0 <= i < |texts| => CommentEnd(texts, i))
  }

  /** The parameters a comment block mentions. */
  datatype Commented = Commented(pathParams: seq<ParamDef>, queryParams: seq<ParamDef>) {
    function Plus(c: Commented): Commented {
      Commented(pathParams + c.pathParams, queryParams + c.queryParams)
    }
  }

  function CommentedOn(g: Grammar, comment: string): Commented {
    Commented(
      match g.pathParam(comment) {
        case None => []
        case Some((name, description)) =>
          [ParamDef(name, "path", g.defaults.pathSchema(name).kind, "", description, None, None)]
      },
      match g.queryParams(comment) {
        case None => []
        case Some(list) => QueryParamsOfChunks(g.defaults, Split(list, ','))
      })
  }

  type Reader = string -> Commented

  function CommentReader(g: Grammar): Reader {
    comment => CommentedOn(g, comment)
  }

  /** What the lines from `from` up to, but not including, `end` mention, read by `read`. */
  function CommentedIn(read: Reader, texts: seq<string>, from: nat, end: nat): Commented
    requires end <= |texts|
    decreases end
  {
    if from >= end then Commented([], [])
    else CommentedIn(read, texts, from, end - 1).Plus(read(texts[end - 1]))
  }

  function PathParamsFromOpenAPIPath(defaults: Defaults, path: string): seq<ParamDef> {
    var names := ExtractPathParamNames(path);
    seq(|names|, i requires 0 <= i < |names| => PathDefault(defaults, names[i]))
  }

  /** The route announced on a line, if it announces one that can be parsed. */
  function Announced(g: Grammar, text: string): Option<(string, RouteComment)> {
    match g.handles(text)
    case None => None
    case Some((summary, route)) =>
      match RouteOf(Fields(route))
      case None => None
      case Some(r) => Some((summary, r))
  }

  function Announcing(g: Grammar, texts: seq<string>): (r: seq<bool>)
    ensures |r| == |texts|
  {
    seq(|texts|, i requires 0 <= i < |texts| => Announced(g, texts[i]).Some?)
  }

  /** The lines the scan takes endpoints from, starting at line `i`: `hits` marks the announcing lines
      and `ends` the ends of their comment blocks. */
  function EndpointLines(hits: seq<bool>, ends: seq<nat>, i: nat): (r: seq<nat>)
    requires |hits| == |ends| && forall k | 0 <= k < |ends| :: k <= ends[k] < |ends|
    ensures forall k | 0 <= k < |r| :: i <= r[k] < |hits| && hits[r[k]]
    decreases |hits| - i
  {
    if i >= |hits| then []
    else if hits[i] then [i] + EndpointLines(hits, ends, ends[i] + 1)
    else EndpointLines(hits, ends, i + 1)
  }

  /** What the scan makes of line `i`. */
  ghost predicate IsEndpointAt(g: Grammar, lines: seq<string>, texts: seq<string>, i: nat, ep: ParsedEndpoint)
    requires i < |texts| && Announced(g, texts[i]).Some?
  {
    var (summary, route) := Announced(g, texts[i]).value;
    && ep.methods == route.methods
    && ep.path == NormalizeOpenAPIPath(route.path)
    && ep.summary == summary
    && ParamsAt(g, lines, texts, i, ep.path, ep.pathParams, ep.queryParams)
  }

  ghost predicate ParamsAt(g: Grammar, lines: seq<string>, texts: seq<string>, i: nat, path: string,
                           pathParams: seq<ParamDef>, queryParams: seq<ParamDef>)
    requires i < |texts|
  {
    var next := CommentEnd(texts, i) + 1;
    HasParams(
      g, CommentedIn(CommentReader(g), texts, i + 1, next), FunctionBody(lines, next), path, pathParams, queryParams)
  }

  /** Comment parameters, overridden by what the path and the function body imply. */
  ghost predicate HasParams(
    g: Grammar, commented: Commented, body: string, path: string, pathParams: seq<ParamDef>,
    queryParams: seq<ParamDef>)
  {
    && IsMerge(commented.pathParams, PathParamsFromOpenAPIPath(g.defaults, path), pathParams)
    && IsMerge(commented.queryParams, QueryParamsFromBody(g, body), queryParams)
  }

  function QueryParamsFromBody(g: Grammar, body: string): seq<ParamDef> {
    SortParams(BodyParams(g.defaults, g.queryNames(body), g.formNames(body)))
  }

  // New names, each with the parameter made of it, in the order they are first read.
  function BodyParams(defaults: Defaults, queryNames: seq<string>, formNames: seq<string>): seq<ParamDef> {
    if formNames != [] then
      var init, last := BodyParams(defaults, queryNames, formNames[..|formNames| - 1]), formNames[|formNames| - 1];
      if Mentions(init, last) then init else init + [QueryParam(last, defaults.queryKind(last), None)]
    else if queryNames != [] then
      var init, last := BodyParams(defaults, queryNames[..|queryNames| - 1], []), queryNames[|queryNames| - 1];
      if Mentions(init, last) then init
      else init + [QueryParam(last, defaults.queryKind(last), Some(defaults.requiredQuery(last)))]
    else []
  }

  predicate Mentions(s: seq<ParamDef>, name: string) {
    exists i :: 0 <= i < |s| && s[i].name == name
  }

  method DiscoverQueryParamsFromBody(g: Grammar, body: string) returns (params: seq<ParamDef>)
    ensures params == QueryParamsFromBody(g, body)
  {
    var defaults := g.defaults;
    var seen: set<string> := {};
    params := [];
    var names := g.queryNames(body);
    for i := 0 to |names|
      invariant params == BodyParams(defaults, names[..i], [])
      invariant forall n :: n in seen <==> Mentions(params, n)
    {
      assert names[..i + 1][..i] == names[..i];
      if names[i] !in seen {
        seen := seen + {names[i]};
        var required := Some(defaults.requiredQuery(names[i]));
        params := AddParam(params, QueryParam(names[i], defaults.queryKind(names[i]), required));
      }
    }
    assert names[..|names|] == names;
    var forms := g.formNames(body);
    for i := 0 to |forms|
      invariant params == BodyParams(defaults, names, forms[..i])
      invariant forall n :: n in seen <==> Mentions(params, n)
    {
      assert forms[..i + 1][..i] == forms[..i];
      if forms[i] !in seen {
        seen := seen + {forms[i]};
        params := AddParam(params, QueryParam(forms[i], defaults.queryKind(forms[i]), None));
      }
    }
    assert forms[..|forms|] == forms;
    BodyParamsAreClean(defaults, names, forms);
    ghost var unsorted := params;
    params := SortSlice(params);
    SortParamsSorts(unsorted);
    SameTableSameSort(unsorted, unsorted, params, SortParams(unsorted));
  }

  method AddParam(params: seq<ParamDef>, p: ParamDef) returns (r: seq<ParamDef>)
    ensures r == params + [p]
    ensures forall n :: Mentions(r, n) <==> n == p.name || Mentions(params, n)
  {
    r := params + [p];
    assert r[|params|] == p;
    forall n | Mentions(params, n) ensures Mentions(r, n) {
      var i :| 0 <= i < |params| && params[i].name == n;
      assert r[i].name == n;
    }
  }

  lemma {:induction false} BodyParamsAreClean(defaults: Defaults, queryNames: seq<string>, formNames: seq<string>)
    ensures InQuery(BodyParams(defaults, queryNames, formNames))
    ensures DistinctKeys(BodyParams(defaults, queryNames, formNames))
    decreases |queryNames| + |formNames|
  {
    if formNames != [] {
      BodyParamsAreClean(defaults, queryNames, formNames[..|formNames| - 1]);
      NewNameNewKey(BodyParams(defaults, queryNames, formNames[..|formNames| - 1]), formNames[|formNames| - 1]);
    } else if queryNames != [] {
      BodyParamsAreClean(defaults, queryNames[..|queryNames| - 1], []);
      NewNameNewKey(BodyParams(defaults, queryNames[..|queryNames| - 1], []), queryNames[|queryNames| - 1]);
    }
  }

  lemma NewNameNewKey(s: seq<ParamDef>, name: string)
    requires InQuery(s)
    ensures !Mentions(s, name) ==>
      forall i, p: ParamDef | 0 <= i < |s| && p.location == "query" && p.name == name :: ParamKey(s[i]) != ParamKey(p)
  {
    if !Mentions(s, name) {
      forall i, p: ParamDef | 0 <= i < |s| && p.location == "query" && p.name == name
        ensures ParamKey(s[i]) != ParamKey(p)
      {
        KeyIsInjective(s[i], p);
      }
    }
  }

  lemma SortedKeepsQuery(s: seq<ParamDef>, r: seq<ParamDef>)
    requires InQuery(s) && DistinctKeys(s) && IsSortOf(s, r)
    ensures InQuery(r) && DistinctKeys(r)
  {
    PermutationKeepsClean(s, r);
    forall i | 0 <= i < |r| ensures r[i].location == "query" {
      assert r[i] in multiset(r);
      assert r[i] in s;
    }
  }

  method ReadComment(g: Grammar, comment: string, before: Commented) returns (after: Commented)
    ensures after == before.Plus(CommentReader(g)(comment))
  {
    var pathParams, queryParams := [], [];
    var pm := g.pathParam(comment);
    if pm.Some? {
      var (name, description) := pm.value;
      pathParams := [ParamDef(name, "path", g.defaults.pathSchema(name).kind, "", description, None, None)];
    }
    var qm := g.queryParams(comment);
    if qm.Some? {
      queryParams := ParseQueryParamsComment(g.defaults, qm.value);
    }
    after := Commented(before.pathParams + pathParams, before.queryParams + queryParams);
  }

  method ReadCommentBlock(g: Grammar, texts: seq<string>, i: nat) returns (commentEnd: nat, commented: Commented)
    requires i < |texts|
    ensures commentEnd == CommentEnd(texts, i)
    ensures commented == CommentedIn(CommentReader(g), texts, i + 1, commentEnd + 1)
  {
    commentEnd, commented := i, Commented([], []);
    var j := i + 1;
    while j < |texts| && j <= i + COMMENT_WINDOW
      invariant i < j <= i + COMMENT_WINDOW + 1 && j <= |texts|
      invariant commentEnd == j - 1
      invariant WindowEnd(texts, i, j) == CommentEnd(texts, i)
      invariant commented == CommentedIn(CommentReader(g), texts, i + 1, j)
      decreases |texts| - j
    {
      if !IsComment(texts[j]) {
        commentEnd := j - 1;
        break;
      }
      commented := ReadComment(g, texts[j], commented);
      WindowOneMore(texts, i, j);
      commentEnd := j;
      j := j + 1;
    }
  }

  method ReadAnnouncement(g: Grammar, text: string) returns (r: Option<(string, RouteComment)>)
    ensures r == Announced(g, text)
  {
    var found := g.handles(text);
    if found.None? {
      return None;
    }
    var route := ParseMethodsAndPath(found.value.1);
    if route.None? {
      return None;
    }
    return Some((found.value.0, route.value));
  }

  method ReadParams(g: Grammar, lines: seq<string>, texts: seq<string>, i: nat, path: string)
    returns (commentEnd: nat, pathParams: seq<ParamDef>, queryParams: seq<ParamDef>)
    requires i < |texts|
    ensures commentEnd == CommentEnd(texts, i)
    ensures ParamsAt(g, lines, texts, i, path, pathParams, queryParams)
  {
    var commented;
    commentEnd, commented := ReadCommentBlock(g, texts, i);
    var body := ExtractFunctionBody(lines, commentEnd + 1);
    pathParams, queryParams := MergeParams(g, commented, body, path, lines, texts, i);
  }

  method MergeParams(g: Grammar, commented: Commented, body: string, path: string,
                     ghost lines: seq<string>, ghost texts: seq<string>, ghost i: nat)
    returns (pathParams: seq<ParamDef>, queryParams: seq<ParamDef>)
    requires i < |texts|
    requires commented == CommentedIn(CommentReader(g), texts, i + 1, CommentEnd(texts, i) + 1)
    requires body == FunctionBody(lines, CommentEnd(texts, i) + 1)
    ensures ParamsAt(g, lines, texts, i, path, pathParams, queryParams)
  {
    var bodyParams := DiscoverQueryParamsFromBody(g, body);
    queryParams := MergeParamDefs(commented.queryParams, bodyParams);
    pathParams := MergeParamDefs(commented.pathParams, PathParamsFromOpenAPIPath(g.defaults, path));
    ParamsHere(g, lines, texts, i, commented, body, path, pathParams, queryParams);
  }

  lemma ParamsHere(g: Grammar, lines: seq<string>, texts: seq<string>, i: nat, commented: Commented, body: string,
                   path: string, pathParams: seq<ParamDef>, queryParams: seq<ParamDef>)
    requires i < |texts|
    requires commented == CommentedIn(CommentReader(g), texts, i + 1, CommentEnd(texts, i) + 1)
    requires body == FunctionBody(lines, CommentEnd(texts, i) + 1)
    requires HasParams(g, commented, body, path, pathParams, queryParams)
    ensures ParamsAt(g, lines, texts, i, path, pathParams, queryParams)
  {
  }

  /** One turn of the scan: the endpoint announced on line `i`, if any, and the line to go on with. */
  method ScanLine(g: Grammar, lines: seq<string>, texts: seq<string>, i: nat)
    returns (ep: Option<ParsedEndpoint>, next: nat)
    requires i < |texts|
    ensures ep.Some? == Announced(g, texts[i]).Some?
    ensures ep.Some? ==> IsEndpointAt(g, lines, texts, i, ep.value)
    ensures next == if ep.Some? then CommentEnd(texts, i) + 1 else i + 1
  {
    var announced := ReadAnnouncement(g, texts[i]);
    if announced.None? {
      return None, i + 1;
    }
    var path := NormalizeOpenAPIPath(announced.value.1.path);
    var commentEnd, pathParams, queryParams := ReadParams(g, lines, texts, i, path);
    var parsed := ParsedEndpoint(announced.value.1.methods, path, announced.value.0, pathParams, queryParams);
    assert ParamsAt(g, lines, texts, i, parsed.path, parsed.pathParams, parsed.queryParams);
    return Some(parsed), commentEnd + 1;
  }

  ghost predicate EndpointsAt(
    g: Grammar, lines: seq<string>, texts: seq<string>, at: seq<nat>, endpoints: seq<ParsedEndpoint>)
  {
    && |endpoints| == |at|
    && forall k {:trigger endpoints[k]} | 0 <= k < |at| :: TakenFrom(g, lines, texts, at[k], endpoints[k])
  }

  ghost predicate TakenFrom(g: Grammar, lines: seq<string>, texts: seq<string>, i: nat, ep: ParsedEndpoint) {
    i < |texts| && Announced(g, texts[i]).Some? && IsEndpointAt(g, lines, texts, i, ep)
  }

  lemma EndpointsAtOneMore(
    g: Grammar, lines: seq<string>, texts: seq<string>, at: seq<nat>, endpoints: seq<ParsedEndpoint>, i: nat,
    ep: ParsedEndpoint)
    requires EndpointsAt(g, lines, texts, at, endpoints) && TakenFrom(g, lines, texts, i, ep)
    ensures EndpointsAt(g, lines, texts, at + [i], endpoints + [ep])
  {
    var more, all := at + [i], endpoints + [ep];
    forall k | 0 <= k < |all|
      ensures TakenFrom(g, lines, texts, more[k], all[k])
    {
      if k < |at| {
        assert TakenFrom(g, lines, texts, at[k], endpoints[k]);
      } else {
        assert TakenFrom(g, lines, texts, i, ep);
      }
    }
  }

  /** The endpoints before line `i` come from the lines `at`. */
  predicate ScannedTo(hits: seq<bool>, ends: seq<nat>, at: seq<nat>, i: nat)
    requires |hits| == |ends| && forall k | 0 <= k < |ends| :: k <= ends[k] < |ends|
  {
    at + EndpointLines(hits, ends, i) == EndpointLines(hits, ends, 0)
  }

  lemma ScannedOneMore(hits: seq<bool>, ends: seq<nat>, at: seq<nat>, i: nat)
    requires |hits| == |ends| && forall k | 0 <= k < |ends| :: k <= ends[k] < |ends|
    requires i < |hits| && ScannedTo(hits, ends, at, i)
    ensures if hits[i] then ScannedTo(hits, ends, at + [i], ends[i] + 1) else ScannedTo(hits, ends, at, i + 1)
  {
  }

  lemma LineIsMarked(g: Grammar, texts: seq<string>, i: nat)
    requires i < |texts|
    ensures Announcing(g, texts)[i] == Announced(g, texts[i]).Some?
    ensures Blocks(texts)[i] == CommentEnd(texts, i)
  {
  }

  /** What a file yields: endpoints come from the lines EndpointLines lists, one each, in order. */
  ghost predicate FileYields(g: Grammar, content: string, endpoints: seq<ParsedEndpoint>) {
    var lines := Split(content, '\n');
    var texts := Trimmed(lines);
    EndpointsAt(g, lines, texts, EndpointLines(Announcing(g, texts), Blocks(texts), 0), endpoints)
  }

  method ParseHandlerFile(g: Grammar, content: string) returns (endpoints: seq<ParsedEndpoint>)
    ensures FileYields(g, content, endpoints)
  {
    var lines := Split(content, '\n');
    endpoints := ScanLines(g, lines, Trimmed(lines));
  }

  /** The scan has come to line `i`. */
  ghost predicate Scanned(
    g: Grammar, lines: seq<string>, texts: seq<string>, at: seq<nat>, endpoints: seq<ParsedEndpoint>, i: nat)
  {
    ScannedTo(Announcing(g, texts), Blocks(texts), at, i) && EndpointsAt(g, lines, texts, at, endpoints)
  }

  lemma ScannedLine(g: Grammar, texts: seq<string>, at: seq<nat>, i: nat)
    requires i < |texts| && ScannedTo(Announcing(g, texts), Blocks(texts), at, i)
    ensures
      if Announced(g, texts[i]).Some?
      then ScannedTo(Announcing(g, texts), Blocks(texts), at + [i], CommentEnd(texts, i) + 1)
      else ScannedTo(Announcing(g, texts), Blocks(texts), at, i + 1)
  {
    LineIsMarked(g, texts, i);
    ScannedOneMore(Announcing(g, texts), Blocks(texts), at, i);
  }

  lemma ScannedHit(
    g: Grammar, lines: seq<string>, texts: seq<string>, at: seq<nat>, endpoints: seq<ParsedEndpoint>, i: nat,
    ep: ParsedEndpoint)
    requires Scanned(g, lines, texts, at, endpoints, i) && TakenFrom(g, lines, texts, i, ep)
    ensures Scanned(g, lines, texts, at + [i], endpoints + [ep], CommentEnd(texts, i) + 1)
  {
    ScannedLine(g, texts, at, i);
    EndpointsAtOneMore(g, lines, texts, at, endpoints, i, ep);
  }

  lemma ScannedMiss(
    g: Grammar, lines: seq<string>, texts: seq<string>, at: seq<nat>, endpoints: seq<ParsedEndpoint>, i: nat)
    requires Scanned(g, lines, texts, at, endpoints, i) && i < |texts| && Announced(g, texts[i]).None?
    ensures Scanned(g, lines, texts, at, endpoints, i + 1)
  {
    ScannedLine(g, texts, at, i);
  }

  lemma ScannedAll(
    g: Grammar, lines: seq<string>, texts: seq<string>, at: seq<nat>, endpoints: seq<ParsedEndpoint>, i: nat)
    ensures Scanned(g, lines, texts, [], [], 0)
    ensures Scanned(g, lines, texts, at, endpoints, i) && i >= |texts| ==>
      at == EndpointLines(Announcing(g, texts), Blocks(texts), 0) && EndpointsAt(g, lines, texts, at, endpoints)
  {
  }

  method ScanLines(g: Grammar, lines: seq<string>, texts: seq<string>) returns (endpoints: seq<ParsedEndpoint>)
    ensures EndpointsAt(g, lines, texts, EndpointLines(Announcing(g, texts), Blocks(texts), 0), endpoints)
  {
    endpoints := [];
    ghost var at: seq<nat> := [];
    var i := 0;
    ScannedAll(g, lines, texts, at, endpoints, i);
    while i < |texts|
      invariant Scanned(g, lines, texts, at, endpoints, i)
      decreases |texts| - i
    {
      endpoints, i, at := ScanOne(g, lines, texts, endpoints, i, at);
    }
    ScannedAll(g, lines, texts, at, endpoints, i);
  }

  method ScanOne(
    g: Grammar, lines: seq<string>, texts: seq<string>, sofar: seq<ParsedEndpoint>, i: nat, ghost before: seq<nat>)
    returns (endpoints: seq<ParsedEndpoint>, next: nat, ghost at: seq<nat>)
    requires i < |texts| && Scanned(g, lines, texts, before, sofar, i)
    ensures Scanned(g, lines, texts, at, endpoints, next)
    ensures i < next
  {
    var ep;
    ep, next := ScanLine(g, lines, texts, i);
    if ep.Some? {
      ScannedHit(g, lines, texts, before, sofar, i, ep.value);
      endpoints, at := sofar + [ep.value], before + [i];
    } else {
      ScannedMiss(g, lines, texts, before, sofar, i);
      endpoints, at := sofar, before;
    }
  }

  /** The index jump loses no order: the lines increase strictly, and the comment block of one endpoint ends
      before the next begins. An announcing line yields no endpoint exactly when it lies inside the comment
      block of an earlier line that does yield one. */
  lemma {:induction false} EndpointLinesAreComplete(hits: seq<bool>, ends: seq<nat>, i: nat)
    requires |hits| == |ends| && forall k | 0 <= k < |ends| :: k <= ends[k] < |ends|
    ensures CompleteFrom(hits, ends, i, EndpointLines(hits, ends, i))
    decreases |hits| - i
  {
    if i < |hits| {
      var next := if hits[i] then ends[i] + 1 else i + 1;
      EndpointLinesAreComplete(hits, ends, next);
      CompleteAt(hits, ends, i, next, EndpointLines(hits, ends, next));
    }
  }

  lemma CompleteAt(hits: seq<bool>, ends: seq<nat>, i: nat, next: nat, tail: seq<nat>)
    requires |hits| == |ends| && i < |hits| && i <= ends[i]
    requires next == if hits[i] then ends[i] + 1 else i + 1
    requires CompleteFrom(hits, ends, next, tail)
    ensures CompleteFrom(hits, ends, i, if hits[i] then [i] + tail else tail)
  {
    if hits[i] {
      CompleteInCons(hits, ends, i, tail);
    } else {
      CompletePastMiss(hits, ends, i, tail);
    }
  }

  lemma CompletePastMiss(hits: seq<bool>, ends: seq<nat>, i: nat, r: seq<nat>)
    requires i < |hits| && !hits[i] && CompleteFrom(hits, ends, i + 1, r)
    ensures CompleteFrom(hits, ends, i, r)
  {
  }

  predicate CompleteFrom(hits: seq<bool>, ends: seq<nat>, i: nat, r: seq<nat>) {
    && |hits| == |ends|
    && (forall k | 0 <= k < |r| :: i <= r[k] < |ends| && hits[r[k]])
    && (forall k, l | 0 <= k < l < |r| :: ends[r[k]] < r[l])
    && (forall n | i <= n < |hits| && hits[n] :: n in r <==> !Swallowed(r, ends, n))
  }

  lemma CompleteInCons(hits: seq<bool>, ends: seq<nat>, i: nat, tail: seq<nat>)
    requires |hits| == |ends| && i < |hits| && hits[i] && i <= ends[i]
    requires CompleteFrom(hits, ends, ends[i] + 1, tail)
    ensures CompleteFrom(hits, ends, i, [i] + tail)
  {
    forall n | i <= n < |hits| && hits[n]
      ensures n in [i] + tail <==> !Swallowed([i] + tail, ends, n)
    {
      SwallowedInCons(i, tail, ends, n);
    }
  }

  predicate Swallowed(r: seq<nat>, ends: seq<nat>, n: nat)
    requires forall k | 0 <= k < |r| :: r[k] < |ends|
  {
    exists k :: 0 <= k < |r| && r[k] < n <= ends[r[k]]
  }

  lemma SwallowedInCons(i: nat, tail: seq<nat>, ends: seq<nat>, n: nat)
    requires i < |ends| && forall k | 0 <= k < |tail| :: tail[k] < |ends|
    ensures Swallowed([i] + tail, ends, n) <==> i < n <= ends[i] || Swallowed(tail, ends, n)
  {
    var r := [i] + tail;
    if i < n <= ends[i] {
      assert r[0] < n <= ends[r[0]];
    }
    if k :| 0 <= k < |tail| && tail[k] < n <= ends[tail[k]] {
      assert r[k + 1] < n <= ends[r[k + 1]];
    }
  }

  /** No announcing line lies in the comment block of another. */
  predicate BlocksApart(hits: seq<bool>, ends: seq<nat>)
    requires |hits| == |ends|
  {
    forall m, n | 0 <= m < n < |hits| && hits[m] && hits[n] :: ends[m] < n
  }

  /** The scan takes every announcing line exactly when none of them lies in the comment block of another. */
  lemma AllLinesAreTakenExactlyWhen(hits: seq<bool>, ends: seq<nat>)
    requires |hits| == |ends| && forall k | 0 <= k < |ends| :: k <= ends[k] < |ends|
    ensures (forall n | 0 <= n < |hits| && hits[n] :: n in EndpointLines(hits, ends, 0)) <==> BlocksApart(hits, ends)
  {
    var r := EndpointLines(hits, ends, 0);
    EndpointLinesAreComplete(hits, ends, 0);
    if BlocksApart(hits, ends) {
      forall n | 0 <= n < |hits| && hits[n]
        ensures n in r
      {
        assert !Swallowed(r, ends, n);
      }
    }
    if forall n | 0 <= n < |hits| && hits[n] :: n in r {
      forall m, n | 0 <= m < n < |hits| && hits[m] && hits[n]
        ensures ends[m] < n
      {
        var k :| 0 <= k < |r| && r[k] == m;
        assert !Swallowed(r, ends, n);
      }
    }
  }

  /** In terms of a file: every announcement yields an endpoint exactly when none stands in the comment block of
      another. */
  lemma AllAnnouncementsYieldExactlyWhen(g: Grammar, texts: seq<string>)
    ensures
      (forall n | 0 <= n < |texts| && Announced(g, texts[n]).Some? ::
        n in EndpointLines(Announcing(g, texts), Blocks(texts), 0))
      <==> (forall m, n | 0 <= m < n < |texts| && Announced(g, texts[m]).Some? && Announced(g, texts[n]).Some? ::
        CommentEnd(texts, m) < n)
  {
    forall k | 0 <= k < |texts|
      ensures Announcing(g, texts)[k] == Announced(g, texts[k]).Some? && Blocks(texts)[k] == CommentEnd(texts, k)
    {
      LineIsMarked(g, texts, k);
    }
    AllLinesAreTakenExactlyWhen(Announcing(g, texts), Blocks(texts));
  }

  /** Three announcements in one run of comments: the second is lost in the block of the first, and the third is
      taken again although it stands in the block of the second. */
  lemma SecondAnnouncementIsLost()
    ensures var hits := seq(12, i => i % 4 == 0); var ends: seq<nat> := seq(12, i => if i < 6 then i + 6 else 11);
      EndpointLines(hits, ends, 0) == [0, 8] && hits[4] && ends[4] >= 8
  {
    var hits := seq(12, i => i % 4 == 0);
    var ends: seq<nat> := seq(12, i => if i < 6 then i + 6 else 11);
    assert EndpointLines(hits, ends, 12) == [];
    assert EndpointLines(hits, ends, 8) == [8];
    assert EndpointLines(hits, ends, 7) == [8];
  }

  // ---------------------------------------------------------------- what every parsed endpoint satisfies

  predicate WellParsed(ep: ParsedEndpoint) {
    && ep.methods != [] && DistinctStrings(ep.methods)
    && (forall i | 0 <= i < |ep.methods| :: IsVerb(ep.methods[i]))
    && NormalizeOpenAPIPath(ep.path) == ep.path
    && PlainPath(ep.pathParams)
    && InQuery(ep.queryParams)
  }

  lemma RouteMethodsAreVerbs(words: seq<string>, route: RouteComment)
    requires RouteOf(words) == Some(route)
    ensures route.methods != [] && DistinctStrings(route.methods)
    ensures forall i | 0 <= i < |route.methods| :: IsVerb(route.methods[i])
  {
    MethodsAreTheVerbsBeforeThePath(words, route);
    forall i | 0 <= i < |route.methods|
      ensures IsVerb(route.methods[i])
    {
      assert route.methods[i] in route.methods;
    }
  }

  lemma AnnouncedMethodsAreVerbs(g: Grammar, text: string)
    requires Announced(g, text).Some?
    ensures var methods := Announced(g, text).value.1.methods;
      && methods != [] && DistinctStrings(methods)
      && forall i | 0 <= i < |methods| :: IsVerb(methods[i])
  {
    RouteMethodsAreVerbs(Fields(g.handles(text).value.1), Announced(g, text).value.1);
  }

  lemma ParsedEndpointsAreWellParsed(g: Grammar, lines: seq<string>, texts: seq<string>, i: nat, ep: ParsedEndpoint)
    requires i < |texts| && Announced(g, texts[i]).Some? && IsEndpointAt(g, lines, texts, i, ep)
    ensures WellParsed(ep)
  {
    var route := Announced(g, texts[i]).value.1;
    AnnouncedMethodsAreVerbs(g, texts[i]);
    NormalizeIsIdempotent(route.path);
    ParamsAtArePlain(g, lines, texts, i, ep.path, ep.pathParams, ep.queryParams);
  }

  lemma ParamsAtArePlain(g: Grammar, lines: seq<string>, texts: seq<string>, i: nat, path: string,
                         pathParams: seq<ParamDef>, queryParams: seq<ParamDef>)
    requires i < |texts| && ParamsAt(g, lines, texts, i, path, pathParams, queryParams)
    ensures PlainPath(pathParams) && InQuery(queryParams)
  {
    var next := CommentEnd(texts, i) + 1;
    CommentsArePlain(g, texts, i + 1, next);
    var commented, body := CommentedIn(CommentReader(g), texts, i + 1, next), FunctionBody(lines, next);
    ParamsAreWellParsed(g, commented, body, path, pathParams, queryParams);
  }

  lemma CommentsArePlain(g: Grammar, texts: seq<string>, from: nat, end: nat)
    requires end <= |texts|
    ensures IsPlain(CommentedIn(CommentReader(g), texts, from, end))
  {
    forall c
      ensures IsPlain(CommentReader(g)(c))
    {
      CommentIsPlain(g, c);
    }
    CommentBlockIsPlain(CommentReader(g), texts, from, end);
  }

  lemma ParamsAreWellParsed(
    g: Grammar, commented: Commented, body: string, path: string, pathParams: seq<ParamDef>,
    queryParams: seq<ParamDef>)
    requires PlainPath(commented.pathParams) && InQuery(commented.queryParams)
    requires HasParams(g, commented, body, path, pathParams, queryParams)
    ensures PlainPath(pathParams) && InQuery(queryParams)
  {
    MergeKeepsPlainPath(commented.pathParams, PathParamsFromOpenAPIPath(g.defaults, path), pathParams);
    var unsorted := BodyParams(g.defaults, g.queryNames(body), g.formNames(body));
    BodyParamsAreClean(g.defaults, g.queryNames(body), g.formNames(body));
    SortParamsSorts(unsorted);
    SortedKeepsQuery(unsorted, SortParams(unsorted));
    MergeKeepsInQuery(commented.queryParams, SortParams(unsorted), queryParams);
  }

  lemma {:induction false} CommentBlockIsPlain(read: Reader, texts: seq<string>, from: nat, end: nat)
    requires end <= |texts| && forall c :: IsPlain(read(c))
    ensures IsPlain(CommentedIn(read, texts, from, end))
    decreases end
  {
    if from < end {
      CommentBlockIsPlain(read, texts, from, end - 1);
      PlainPlusPlain(CommentedIn(read, texts, from, end - 1), read(texts[end - 1]));
    }
  }

  predicate IsPlain(c: Commented) {
    PlainPath(c.pathParams) && InQuery(c.queryParams)
  }

  lemma PlainPlusPlain(a: Commented, b: Commented)
    requires IsPlain(a) && IsPlain(b)
    ensures IsPlain(a.Plus(b))
  {
  }

  lemma CommentIsPlain(g: Grammar, comment: string)
    ensures IsPlain(CommentReader(g)(comment))
  {
    match g.queryParams(comment)
    case None =>
    case Some(list) => CommentParamsAreInQuery(g.defaults, Split(list, ','));
  }

  lemma {:induction false} AbsorbKeepsPlainPath(acc: Accumulator, extra: seq<ParamDef>)
    requires acc.Valid() && PlainPath(acc.items) && PlainPath(extra)
    ensures PlainPath(AbsorbAll(acc, extra).items)
  {
    if extra != [] {
      AbsorbKeepsPlainPath(acc, extra[..|extra| - 1]);
    }
  }

  lemma MergeKeepsPlainPath(base: seq<ParamDef>, extra: seq<ParamDef>, r: seq<ParamDef>)
    requires PlainPath(base) && PlainPath(extra) && IsMerge(base, extra, r)
    ensures PlainPath(r)
  {
    AbsorbKeepsPlainPath(AppendAll(base), extra);
    var items := MergeItems(base, extra);
    forall i | 0 <= i < |r|
      ensures r[i].location == "path" && r[i].required == None && r[i].format == "" && r[i].example == None
    {
      assert r[i] in multiset(r);
      assert r[i] in items;
    }
  }

  lemma {:induction false} AbsorbKeepsInQuery(acc: Accumulator, extra: seq<ParamDef>)
    requires acc.Valid() && InQuery(acc.items) && InQuery(extra)
    ensures InQuery(AbsorbAll(acc, extra).items)
  {
    if extra != [] {
      AbsorbKeepsInQuery(acc, extra[..|extra| - 1]);
    }
  }

  lemma MergeKeepsInQuery(base: seq<ParamDef>, extra: seq<ParamDef>, r: seq<ParamDef>)
    requires InQuery(base) && InQuery(extra) && IsMerge(base, extra, r)
    ensures InQuery(r)
  {
    AbsorbKeepsInQuery(AppendAll(base), extra);
    forall i | 0 <= i < |r| ensures r[i].location == "query" {
      assert r[i] in multiset(r);
      assert r[i] in MergeItems(base, extra);
    }
  }
}
