/** What the scan reads off a handler file, piece by piece and in the words of the text: announcements, comment blocks,
    function bodies and paths. */
module HandlerReading {
  import opened Text
  import opened Ordering
  import opened Params
  import opened DefaultTables
  import opened PathTemplates
  import opened HandlerScan
  import opened Parameters
  import opened HandlerFile

  /** Only white space around a line is lost. */
  lemma LinesAreTrimmed(lines: seq<string>, i: nat, before: string, s: string, after: string)
    requires i < |lines| && lines[i] == before + s + after && AllSpace(before) && AllSpace(after)
    requires s != "" ==> !IsSpace(s[0]) && !IsSpace(s[|s| - 1])
    ensures Trimmed(lines)[i] == s
  {
    TrimSpaceIs(before, s, after);
  }

  /** A line announces an endpoint exactly when it is a "handles" comment, one word of its route starts with "/api",
      and an HTTP verb is written before that; the summary is the comment's. */
  lemma AnnouncementIs(g: Grammar, text: string)
    ensures g.handles(text).None? ==> Announced(g, text).None?
    ensures g.handles(text).Some? ==>
      var words := Fields(g.handles(text).value.1);
      Announced(g, text).Some? <==> (
        && (exists k :: 0 <= k < |words| && HasPrefix(words[k], "/api"))
        && exists m :: IsVerb(m) && IsWritten(words, m))
    ensures Announced(g, text).Some? ==>
      && Announced(g, text).value.0 == g.handles(text).value.0
      && RouteOf(Fields(g.handles(text).value.1)) == Some(Announced(g, text).value.1)
  {
    if g.handles(text).Some? {
      RouteExistsExactlyWhen(Fields(g.handles(text).value.1));
    }
  }

  /** A block goes on for as many lines as start with "//", but not for more than six. */
  lemma BlockIs(texts: seq<string>, i: nat)
    requires i < |texts|
    ensures var end := CommentEnd(texts, i);
      && i <= end < |texts| && end <= i + 6
      && (forall k | i < k <= end :: HasPrefix(texts[k], "//"))
      && (end + 1 < |texts| && end < i + 6 ==> !HasPrefix(texts[end + 1], "//"))
  {
    CommentEndIsMaximal(texts, i, i + 1);
  }

  /** What a block mentions is what its lines mention, one after the other. */
  lemma {:induction false} BlocksAddUp(read: Reader, texts: seq<string>, from: nat, mid: nat, end: nat)
    requires from <= mid <= end <= |texts|
    ensures CommentedIn(read, texts, from, end)
      == CommentedIn(read, texts, from, mid).Plus(CommentedIn(read, texts, mid, end))
    decreases end
  {
    if mid < end {
      BlocksAddUp(read, texts, from, mid, end - 1);
    }
  }

  /** A line mentions a path parameter if it is a "Path param:" comment, and the query parameters of its list if it is a
      "Query params:" comment. */
  lemma LineMentions(g: Grammar, texts: seq<string>, i: nat)
    requires i < |texts|
    ensures var c := CommentedIn(CommentReader(g), texts, i, i + 1);
      && (g.pathParam(texts[i]).None? ==> c.pathParams == [])
      && (g.pathParam(texts[i]).Some? ==>
            var (name, description) := g.pathParam(texts[i]).value;
            c.pathParams == [ParamDef(name, "path", g.defaults.pathSchema(name).kind, "", description, None, None)])
      && (g.queryParams(texts[i]).None? ==> c.queryParams == [])
      && (g.queryParams(texts[i]).Some? ==>
            c.queryParams == QueryParamsOfChunks(g.defaults, Split(g.queryParams(texts[i]).value, ',')))
  {
    assert CommentedIn(CommentReader(g), texts, i, i) == Commented([], []);
  }

  /** A path stands for its names, in order, each with the type and the description its name implies. */
  lemma PathImplies(defaults: Defaults, path: string)
    ensures var names, r := ExtractPathParamNames(path), PathParamsFromOpenAPIPath(defaults, path);
      && |r| == |names|
      && forall i | 0 <= i < |names| ::
           r[i] == ParamDef(
             names[i], "path", defaults.pathSchema(names[i]).kind, "", defaults.pathDescription(names[i]), None, None)
  {
  }

  /** The parameter a name read in a body stands for: of the query it says whether it is required, of a form not. */
  predicate IsReadAs(defaults: Defaults, queryNames: seq<string>, p: ParamDef) {
    p == ParamDef(
      p.name, "query", defaults.queryKind(p.name), "", "", None,
      if p.name in queryNames then Some(defaults.requiredQuery(p.name)) else None)
  }

  /** A body implies one query parameter for every name read from the query or from a form, in the order of the
      names. */
  lemma BodyImplies(g: Grammar, body: string)
    ensures var r := QueryParamsFromBody(g, body);
      && (forall n :: Mentions(r, n) <==> n in g.queryNames(body) || n in g.formNames(body))
      && (forall i | 0 <= i < |r| :: IsReadAs(g.defaults, g.queryNames(body), r[i]))
      && (forall i, j | 0 <= i < j < |r| :: StringLess(r[i].name, r[j].name))
  {
    var unsorted := BodyParams(g.defaults, g.queryNames(body), g.formNames(body));
    BodyNames(g.defaults, g.queryNames(body), g.formNames(body));
    BodyParamsAreClean(g.defaults, g.queryNames(body), g.formNames(body));
    SortParamsSorts(unsorted);
    SortedNamesRead(g.defaults, g.queryNames(body), unsorted, SortParams(unsorted));
  }

  lemma SortedNamesRead(defaults: Defaults, queryNames: seq<string>, s: seq<ParamDef>, r: seq<ParamDef>)
    requires InQuery(s) && DistinctKeys(s) && IsSortOf(s, r)
    requires forall i | 0 <= i < |s| :: IsReadAs(defaults, queryNames, s[i])
    ensures forall n :: Mentions(r, n) <==> Mentions(s, n)
    ensures forall i | 0 <= i < |r| :: IsReadAs(defaults, queryNames, r[i])
    ensures forall i, j | 0 <= i < j < |r| :: StringLess(r[i].name, r[j].name)
  {
    forall p
      ensures p in s <==> p in r
    {
      assert p in multiset(s) <==> p in multiset(r);
    }
    SortedKeepsQuery(s, r);
    CleanSortIsStrict(r);
    forall n
      ensures Mentions(r, n) <==> Mentions(s, n)
    {
      if i :| 0 <= i < |r| && r[i].name == n {
        assert r[i] in s;
      }
      if i :| 0 <= i < |s| && s[i].name == n {
        assert s[i] in r;
      }
    }
    forall i | 0 <= i < |r|
      ensures IsReadAs(defaults, queryNames, r[i])
    {
      assert r[i] in s;
    }
  }

  lemma {:induction false} BodyNames(defaults: Defaults, queryNames: seq<string>, formNames: seq<string>)
    ensures var r := BodyParams(defaults, queryNames, formNames);
      && (forall n :: Mentions(r, n) <==> n in queryNames || n in formNames)
      && (forall i | 0 <= i < |r| :: IsReadAs(defaults, queryNames, r[i]))
    decreases |queryNames| + |formNames|
  {
    if formNames != [] {
      var n := |formNames| - 1;
      BodyNames(defaults, queryNames, formNames[..n]);
      assert formNames == formNames[..n] + [formNames[n]];
      var init := BodyParams(defaults, queryNames, formNames[..n]);
      MentionsOneMore(init, QueryParam(formNames[n], defaults.queryKind(formNames[n]), None));
    } else if queryNames != [] {
      var n := |queryNames| - 1;
      BodyNames(defaults, queryNames[..n], []);
      assert queryNames == queryNames[..n] + [queryNames[n]];
      var init, name := BodyParams(defaults, queryNames[..n], []), queryNames[n];
      MentionsOneMore(init, QueryParam(name, defaults.queryKind(name), Some(defaults.requiredQuery(name))));
      forall i | 0 <= i < |init|
        ensures IsReadAs(defaults, queryNames, init[i])
      {
        assert IsReadAs(defaults, queryNames[..n], init[i]) && Mentions(init, init[i].name);
      }
    }
  }

  lemma MentionsOneMore(s: seq<ParamDef>, p: ParamDef)
    ensures forall n :: Mentions(s + [p], n) <==> Mentions(s, n) || n == p.name
  {
    var r := s + [p];
    assert r[|s|] == p;
    forall n | Mentions(s, n)
      ensures Mentions(r, n)
    {
      var i :| 0 <= i < |s| && s[i].name == n;
      assert r[i].name == n;
    }
  }

  /** The endpoint taken from a line: the verbs its route writes before the path, the path normalised, the comment's
      summary, and the parameters of the block below it merged with what path and body imply. */
  lemma EndpointSays(g: Grammar, lines: seq<string>, texts: seq<string>, i: nat, ep: ParsedEndpoint)
    requires TakenFrom(g, lines, texts, i, ep)
    ensures g.handles(texts[i]).Some? && ep.summary == g.handles(texts[i]).value.0
    ensures var words := Fields(g.handles(texts[i]).value.1);
      && (forall m :: m in ep.methods <==> IsVerb(m) && IsWritten(words, m))
      && exists r :: RouteOf(words) == Some(r) && ep.path == NormalizeOpenAPIPath(r.path)
    ensures var end := CommentEnd(texts, i);
      var block := CommentedIn(CommentReader(g), texts, i + 1, end + 1);
      && IsMerge(block.pathParams, PathParamsFromOpenAPIPath(g.defaults, ep.path), ep.pathParams)
      && IsMerge(block.queryParams, QueryParamsFromBody(g, FunctionBody(lines, end + 1)), ep.queryParams)
  {
    var words, r := Fields(g.handles(texts[i]).value.1), Announced(g, texts[i]).value.1;
    AnnouncementIs(g, texts[i]);
    MethodsAreTheVerbsBeforeThePath(words, r);
    assert ParamsAt(g, lines, texts, i, ep.path, ep.pathParams, ep.queryParams);
  }
}
