/** How far the outcome of discovery is fixed by the text it reads, although the sort is not stable. */
module Determined {
  import opened Text
  import opened Params
  import opened HandlerScan
  import opened Parameters
  import opened HandlerFile
  import opened EndpointDiscovery

  // ---------------------------------------------------------------- one entry

  /** Every list merged onto those before it. */
  function MergedAll(lists: seq<seq<ParamDef>>): seq<ParamDef>
    requires lists != []
  {
    if |lists| == 1 then lists[0] else Merge(MergedAll(lists[..|lists| - 1]), lists[|lists| - 1])
  }

  predicate AllClean(lists: seq<seq<ParamDef>>) {
    forall i | 0 <= i < |lists| :: Clean(lists[i])
  }

  lemma {:induction false} MergedAllIsClean(lists: seq<seq<ParamDef>>)
    requires lists != [] && AllClean(lists)
    ensures Clean(MergedAll(lists))
  {
    var n := |lists| - 1;
    if n > 0 {
      MergedAllIsClean(lists[..n]);
      MergeFacts(MergedAll(lists[..n]), lists[n]);
    }
  }

  lemma {:induction false} MergedAllOfBoth(a: seq<seq<ParamDef>>, b: seq<seq<ParamDef>>)
    requires a != [] && b != [] && AllClean(a) && AllClean(b)
    ensures MergedAll(a + b) == Merge(MergedAll(a), MergedAll(b))
  {
    var init, last := b[..|b| - 1], b[|b| - 1];
    assert (a + b)[..|a + b| - 1] == a + init;
    assert (a + b)[|a + b| - 1] == last;
    if |b| == 1 {
      assert a + init == a;
    } else {
      MergedAllOfBoth(a, init);
      MergedAllIsClean(a);
      MergedAllIsClean(init);
      MergeIsAssociative(MergedAll(a), MergedAll(init), last);
    }
  }

  function PathLists(h: seq<Occurrence>): (r: seq<seq<ParamDef>>)
    ensures |r| == |h|
  {
    seq(|h|, i requires 0 <= i < |h| => h[i].ep.pathParams)
  }

  function QueryLists(h: seq<Occurrence>): (r: seq<seq<ParamDef>>)
    ensures |r| == |h|
  {
    seq(|h|, i requires 0 <= i < |h| => h[i].ep.queryParams)
  }

  /** No occurrence repeats a parameter. */
  predicate CleanOccurrences(h: seq<Occurrence>) {
    AllClean(PathLists(h)) && AllClean(QueryLists(h))
  }

  /** First verb and path, first summary, all parameters merged in order. */
  function EntryFor(h: seq<Occurrence>): Endpoint
    requires h != []
  {
    Endpoint(h[0].verb, h[0].ep.path, SummaryOf(h), MergedAll(PathLists(h)), MergedAll(QueryLists(h)))
  }

  /** Without repeated parameters an entry leaves the sort no choice. */
  lemma EntryIsDetermined(h: seq<Occurrence>, e: Endpoint)
    requires EntryOf(h, e) && CleanOccurrences(h)
    ensures h != [] && e == EntryFor(h)
  {
    EntryKeepsFirst(h, e);
    EntryParamsAreDetermined(h, e);
  }

  predicate HasMergedParams(h: seq<Occurrence>, e: Endpoint) {
    h != [] && e.pathParams == MergedAll(PathLists(h)) && e.queryParams == MergedAll(QueryLists(h))
  }

  lemma {:induction false} EntryParamsAreDetermined(h: seq<Occurrence>, e: Endpoint)
    requires EntryOf(h, e) && CleanOccurrences(h)
    ensures HasMergedParams(h, e)
  {
    var n := |h| - 1;
    if n > 0 {
      var prev := EntryBefore(h, e);
      ListsOfInit(h);
      EntryParamsAreDetermined(h[..n], prev);
      ParamsOneMore(h, prev, e);
    } else {
      ParamsOfFirst(h, e);
    }
  }

  lemma ParamsOfFirst(h: seq<Occurrence>, e: Endpoint)
    requires EntryOf(h, e) && |h| <= 1
    ensures HasMergedParams(h, e)
  {
    assert PathLists(h)[0] == h[0].ep.pathParams && QueryLists(h)[0] == h[0].ep.queryParams;
  }

  lemma ListsOfInit(h: seq<Occurrence>)
    requires h != []
    ensures var n := |h| - 1;
      && PathLists(h[..n]) == PathLists(h)[..n] && QueryLists(h[..n]) == QueryLists(h)[..n]
      && (CleanOccurrences(h) ==> CleanOccurrences(h[..n]))
  {
    var n := |h| - 1;
    assert PathLists(h[..n]) == PathLists(h)[..n] && QueryLists(h[..n]) == QueryLists(h)[..n];
  }

  lemma ParamsOneMore(h: seq<Occurrence>, prev: Endpoint, e: Endpoint)
    requires |h| > 1 && CleanOccurrences(h) && HasMergedParams(h[..|h| - 1], prev) && IsUpdate(prev, h[|h| - 1], e)
    ensures HasMergedParams(h, e)
  {
    var n := |h| - 1;
    ListsOfInit(h);
    assert PathLists(h)[n] == h[n].ep.pathParams && QueryLists(h)[n] == h[n].ep.queryParams;
    OneMoreMerge(PathLists(h), e.pathParams);
    OneMoreMerge(QueryLists(h), e.queryParams);
  }

  lemma OneMoreMerge(lists: seq<seq<ParamDef>>, r: seq<ParamDef>)
    requires |lists| > 1 && AllClean(lists)
    requires IsMerge(MergedAll(lists[..|lists| - 1]), lists[|lists| - 1], r)
    ensures r == MergedAll(lists)
  {
    var n := |lists| - 1;
    MergedAllIsClean(lists[..n]);
    MergeIsDetermined(MergedAll(lists[..n]), lists[n], r);
  }

  /** The entry of two groups of occurrences, put together from the entries of both. */
  function Joined(a: Endpoint, b: Endpoint): Endpoint {
    Endpoint(
      a.verb,
      a.path,
      if a.summary == "" then b.summary else a.summary,
      Merge(a.pathParams, b.pathParams),
      Merge(a.queryParams, b.queryParams))
  }

  /** Handler files may be accumulated in any grouping: the entries of two groups put together are the entry of both. */
  lemma GroupingIsIrrelevant(a: seq<Occurrence>, b: seq<Occurrence>, ea: Endpoint, eb: Endpoint, e: Endpoint)
    requires CleanOccurrences(a) && CleanOccurrences(b)
    requires EntryOf(a, ea) && EntryOf(b, eb) && EntryOf(a + b, e)
    ensures e == Joined(ea, eb)
  {
    EntryIsDetermined(a, ea);
    EntryIsDetermined(b, eb);
    ListsOfBoth(a, b);
    EntryIsDetermined(a + b, e);
    EntryForBoth(a, b);
  }

  lemma ListsOfBoth(a: seq<Occurrence>, b: seq<Occurrence>)
    requires CleanOccurrences(a) && CleanOccurrences(b)
    ensures PathLists(a + b) == PathLists(a) + PathLists(b) && QueryLists(a + b) == QueryLists(a) + QueryLists(b)
    ensures CleanOccurrences(a + b)
  {
    assert PathLists(a + b) == PathLists(a) + PathLists(b) && QueryLists(a + b) == QueryLists(a) + QueryLists(b);
  }

  lemma EntryForBoth(a: seq<Occurrence>, b: seq<Occurrence>)
    requires a != [] && b != [] && CleanOccurrences(a) && CleanOccurrences(b)
    ensures EntryFor(a + b) == Joined(EntryFor(a), EntryFor(b))
  {
    ListsOfBoth(a, b);
    MergedAllOfBoth(PathLists(a), PathLists(b));
    MergedAllOfBoth(QueryLists(a), QueryLists(b));
    SummaryOfBoth(a, b);
  }

  lemma {:induction false} SummaryOfBoth(a: seq<Occurrence>, b: seq<Occurrence>)
    ensures SummaryOf(a + b) == if SummaryOf(a) == "" then SummaryOf(b) else SummaryOf(a)
  {
    if b == [] {
      assert a + b == a;
    } else {
      var init, last := b[..|b| - 1], b[|b| - 1];
      SummaryOfBoth(a, init);
      SummaryOneMore(init, last);
      SummaryOneMore(a + init, last);
      assert a + b == a + init + [last] && b == init + [last];
    }
  }

  // ---------------------------------------------------------------- one file

  /** The comment block of line `i` mentions no parameter twice. */
  predicate BlockRepeatsNothing(g: Grammar, texts: seq<string>, i: nat)
    requires i < |texts|
  {
    var block := CommentedIn(CommentReader(g), texts, i + 1, CommentEnd(texts, i) + 1);
    DistinctKeys(block.pathParams) && DistinctKeys(block.queryParams)
  }

  /** No comment block of an announcement in the file mentions a parameter twice. */
  predicate FileRepeatsNothing(g: Grammar, content: string) {
    var texts := Trimmed(Split(content, '\n'));
    forall i | 0 <= i < |texts| && Announced(g, texts[i]).Some? :: BlockRepeatsNothing(g, texts, i)
  }

  predicate IsCleanEndpoint(ep: ParsedEndpoint) {
    Clean(ep.pathParams) && Clean(ep.queryParams)
  }

  lemma HasParamsIsDetermined(
    g: Grammar, commented: Commented, body: string, path: string, p: seq<ParamDef>, q: seq<ParamDef>)
    requires IsPlain(commented) && DistinctKeys(commented.pathParams) && DistinctKeys(commented.queryParams)
    requires HasParams(g, commented, body, path, p, q)
    ensures AreMergesOf(g, commented, body, path, p, q)
  {
    MergeIsDetermined(commented.pathParams, PathParamsFromOpenAPIPath(g.defaults, path), p);
    QueryParamsFromBodyAreInQuery(g, body);
    MergeIsDetermined(commented.queryParams, QueryParamsFromBody(g, body), q);
  }

  lemma QueryParamsFromBodyAreInQuery(g: Grammar, body: string)
    ensures InQuery(QueryParamsFromBody(g, body))
  {
    var unsorted := BodyParams(g.defaults, g.queryNames(body), g.formNames(body));
    BodyParamsAreClean(g.defaults, g.queryNames(body), g.formNames(body));
    SortParamsSorts(unsorted);
    SortedKeepsQuery(unsorted, SortParams(unsorted));
  }

  /** Both parameter lists of a comment block and body, when no comment is repeated. */
  predicate AreMergesOf(
    g: Grammar, commented: Commented, body: string, path: string, p: seq<ParamDef>, q: seq<ParamDef>)
  {
    && Clean(p) && p == Merge(commented.pathParams, PathParamsFromOpenAPIPath(g.defaults, path))
    && Clean(q) && q == Merge(commented.queryParams, QueryParamsFromBody(g, body))
  }

  lemma BlockIsClean(g: Grammar, texts: seq<string>, i: nat, commented: Commented)
    requires i < |texts| && BlockRepeatsNothing(g, texts, i)
    requires commented == CommentedIn(CommentReader(g), texts, i + 1, CommentEnd(texts, i) + 1)
    ensures IsPlain(commented) && DistinctKeys(commented.pathParams) && DistinctKeys(commented.queryParams)
  {
    CommentsArePlain(g, texts, i + 1, CommentEnd(texts, i) + 1);
  }

  lemma ParamsAtHas(
    g: Grammar, lines: seq<string>, texts: seq<string>, i: nat, path: string, p: seq<ParamDef>, q: seq<ParamDef>,
    commented: Commented, body: string)
    requires i < |texts| && ParamsAt(g, lines, texts, i, path, p, q)
    requires commented == CommentedIn(CommentReader(g), texts, i + 1, CommentEnd(texts, i) + 1)
    requires body == FunctionBody(lines, CommentEnd(texts, i) + 1)
    ensures HasParams(g, commented, body, path, p, q)
  {
  }

  lemma ParamsAtAre(
    g: Grammar, lines: seq<string>, texts: seq<string>, i: nat, path: string, p: seq<ParamDef>, q: seq<ParamDef>,
    commented: Commented, body: string)
    requires i < |texts| && ParamsAt(g, lines, texts, i, path, p, q)
    requires commented == CommentedIn(CommentReader(g), texts, i + 1, CommentEnd(texts, i) + 1)
    requires body == FunctionBody(lines, CommentEnd(texts, i) + 1)
    requires IsPlain(commented) && DistinctKeys(commented.pathParams) && DistinctKeys(commented.queryParams)
    ensures AreMergesOf(g, commented, body, path, p, q)
  {
    ParamsAtHas(g, lines, texts, i, path, p, q, commented, body);
    HasParamsIsDetermined(g, commented, body, path, p, q);
  }

  lemma ParamsAtAreDetermined(
    g: Grammar, lines: seq<string>, texts: seq<string>, i: nat, path: string,
    p: seq<ParamDef>, q: seq<ParamDef>, p': seq<ParamDef>, q': seq<ParamDef>)
    requires i < |texts| && BlockRepeatsNothing(g, texts, i)
    requires ParamsAt(g, lines, texts, i, path, p, q) && ParamsAt(g, lines, texts, i, path, p', q')
    ensures p == p' && q == q' && Clean(p) && Clean(q)
  {
    var commented := CommentedIn(CommentReader(g), texts, i + 1, CommentEnd(texts, i) + 1);
    var body := FunctionBody(lines, CommentEnd(texts, i) + 1);
    BlockIsClean(g, texts, i, commented);
    ParamsAtAre(g, lines, texts, i, path, p, q, commented, body);
    ParamsAtAre(g, lines, texts, i, path, p', q', commented, body);
  }

  lemma EndpointIsDetermined(
    g: Grammar, lines: seq<string>, texts: seq<string>, i: nat, ep: ParsedEndpoint, ep': ParsedEndpoint)
    requires TakenFrom(g, lines, texts, i, ep) && TakenFrom(g, lines, texts, i, ep')
    requires BlockRepeatsNothing(g, texts, i)
    ensures ep == ep' && IsCleanEndpoint(ep)
  {
    ParamsAtAreDetermined(
      g, lines, texts, i, ep.path, ep.pathParams, ep.queryParams, ep'.pathParams, ep'.queryParams);
  }

  lemma FileIsDetermined(g: Grammar, content: string, a: seq<ParsedEndpoint>, b: seq<ParsedEndpoint>)
    requires FileRepeatsNothing(g, content) && FileYields(g, content, a) && FileYields(g, content, b)
    ensures a == b && forall k | 0 <= k < |a| :: IsCleanEndpoint(a[k])
  {
    var lines := Split(content, '\n');
    var texts := Trimmed(lines);
    var at := EndpointLines(Announcing(g, texts), Blocks(texts), 0);
    forall k | 0 <= k < |at|
      ensures a[k] == b[k] && IsCleanEndpoint(a[k])
    {
      assert TakenFrom(g, lines, texts, at[k], a[k]) && TakenFrom(g, lines, texts, at[k], b[k]);
      EndpointIsDetermined(g, lines, texts, at[k], a[k], b[k]);
    }
  }

  // ---------------------------------------------------------------- the directory

  /** No comment block of any handler source mentions a parameter twice. */
  predicate DirRepeatsNothing(g: Grammar, dir: seq<DirEntry>) {
    forall f | 0 <= f < |dir| && IsHandlerSource(dir[f]) :: FileRepeatsNothing(g, dir[f].content)
  }

  lemma {:induction false} DirIsDetermined(
    g: Grammar, dir: seq<DirEntry>, n: nat, a: seq<ParsedEndpoint>, b: seq<ParsedEndpoint>)
    requires n <= |dir| && DirRepeatsNothing(g, dir) && DirYields(g, dir, n, a) && DirYields(g, dir, n, b)
    ensures a == b && forall k | 0 <= k < |a| :: IsCleanEndpoint(a[k])
  {
    if n > 0 {
      if IsHandlerSource(dir[n - 1]) {
        var i := BeforeLast(g, dir, n, a);
        var j := BeforeLast(g, dir, n, b);
        DirIsDetermined(g, dir, n - 1, a[..i], b[..j]);
        FileIsDetermined(g, dir[n - 1].content, a[i..], b[j..]);
        assert a == a[..i] + a[i..] && b == b[..j] + b[j..];
        CleanTogether(a, i);
      } else {
        DirIsDetermined(g, dir, n - 1, a, b);
      }
    }
  }

  lemma CleanTogether(a: seq<ParsedEndpoint>, i: nat)
    requires i <= |a|
    requires forall k | 0 <= k < i :: IsCleanEndpoint(a[..i][k])
    requires forall k | 0 <= k < |a| - i :: IsCleanEndpoint(a[i..][k])
    ensures forall k | 0 <= k < |a| :: IsCleanEndpoint(a[k])
  {
    forall k | 0 <= k < |a|
      ensures IsCleanEndpoint(a[k])
    {
      assert a[k] == if k < i then a[..i][k] else a[i..][k - i];
    }
  }

  /** If no comment block repeats a parameter, discovery is a function of the directory's text. */
  lemma DiscoveryIsDetermined(g: Grammar, dir: seq<DirEntry>, d: Discovery, d': Discovery)
    requires DirRepeatsNothing(g, dir) && Discovered(g, dir, d) && Discovered(g, dir, d')
    ensures d == d'
  {
    var eps :| DirYields(g, dir, |dir|, eps) && Accumulated(d, eps, |eps|, 0);
    var eps' :| DirYields(g, dir, |dir|, eps') && Accumulated(d', eps', |eps'|, 0);
    DirIsDetermined(g, dir, |dir|, eps, eps');
    forall k: string
      ensures k in d <==> k in d'
      ensures k in d ==> d[k] == d'[k]
    {
      EntriesAgree(eps, k, d, d');
    }
  }

  lemma EntriesAgree(eps: seq<ParsedEndpoint>, k: string, d: Discovery, d': Discovery)
    requires forall i | 0 <= i < |eps| :: IsCleanEndpoint(eps[i])
    requires Accumulated(d, eps, |eps|, 0) && Accumulated(d', eps, |eps|, 0)
    ensures k in d <==> k in d'
    ensures k in d ==> d[k] == d'[k]
  {
    var h := History(eps, |eps|, 0, k);
    HistoryHasItsKey(eps, |eps|, 0, k);
    assert IsEntry(d, k, h) && IsEntry(d', k, h);
    forall i | 0 <= i < |h|
      ensures Clean(PathLists(h)[i]) && Clean(QueryLists(h)[i])
    {
      assert h[i].ep in eps;
    }
    if h != [] {
      EntryNeedsHistory(d, k, h);
      EntryNeedsHistory(d', k, h);
      EntryIsDetermined(h, d[k]);
      EntryIsDetermined(h, d'[k]);
    } else {
      NoHistoryNoEntry(d, k);
      NoHistoryNoEntry(d', k);
    }
  }

  lemma EntryNeedsHistory(d: Discovery, k: string, h: seq<Occurrence>)
    requires IsEntry(d, k, h) && h != []
    ensures k in d
  {
  }

  lemma NoHistoryNoEntry(d: Discovery, k: string)
    requires IsEntry(d, k, [])
    ensures k !in d
  {
  }
}
