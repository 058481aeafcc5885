/** Accumulating the endpoints of all handler files under their keys (discoverHandlerEndpoints). */
module EndpointDiscovery {
  import opened Text
  import opened Params
  import opened PathTemplates
  import opened HandlerScan
  import opened Parameters
  import opened HandlerFile

  /** One verb of one parsed endpoint. */
  datatype Occurrence = Occurrence(verb: string, ep: ParsedEndpoint)

  function FirstEntry(o: Occurrence): Endpoint {
    Endpoint(o.verb, o.ep.path, o.ep.summary, o.ep.pathParams, o.ep.queryParams)
  }

  /** An entry updated by a further occurrence of its key. */
  ghost predicate IsUpdate(prev: Endpoint, o: Occurrence, e: Endpoint) {
    && e.verb == prev.verb && e.path == prev.path
    && e.summary == (if prev.summary == "" then o.ep.summary else prev.summary)
    && IsMerge(prev.pathParams, o.ep.pathParams, e.pathParams)
    && IsMerge(prev.queryParams, o.ep.queryParams, e.queryParams)
  }

  /** What the entry of a key may be after the occurrences `h` of that key, given the freedom of the sort. */
  ghost predicate EntryOf(h: seq<Occurrence>, e: Endpoint)
    decreases |h|, 0
  {
    if h == [] then false
    else if |h| == 1 then e == FirstEntry(h[0])
    else EntryAfter(h[..|h| - 1], h[|h| - 1], e)
  }

  ghost predicate EntryAfter(init: seq<Occurrence>, last: Occurrence, e: Endpoint)
    decreases |init|, 1
  {
    exists prev :: EntryOf(init, prev) && IsUpdate(prev, last, e)
  }

  lemma EntryOfOneMore(h: seq<Occurrence>, prev: Endpoint, o: Occurrence, e: Endpoint)
    requires EntryOf(h, prev) && IsUpdate(prev, o, e)
    ensures EntryOf(h + [o], e)
  {
    assert (h + [o])[..|h|] == h;
    assert EntryAfter(h, o, e);
  }

  /** The occurrences of `key` among the first `i` endpoints and the first `j` verbs of the next, in order. */
  function History(eps: seq<ParsedEndpoint>, i: nat, j: nat, key: string): seq<Occurrence>
    requires i <= |eps| && (j > 0 ==> i < |eps| && j <= |eps[i].methods|)
    decreases i, j
  {
    if j > 0 then
      History(eps, i, j - 1, key)
      + (if EndpointKey(eps[i].methods[j - 1], eps[i].path) == key then [Occurrence(eps[i].methods[j - 1], eps[i])]
         else [])
    else if i > 0 then History(eps, i - 1, |eps[i - 1].methods|, key)
    else []
  }

  ghost predicate Accumulated(byKey: Discovery, eps: seq<ParsedEndpoint>, i: nat, j: nat)
    requires i <= |eps| && (j > 0 ==> i < |eps| && j <= |eps[i].methods|)
  {
    forall k :: IsEntry(byKey, k, History(eps, i, j, k))
  }

  /** The map's entry for `key` is what the occurrences `h` make it; there is none if there are none. */
  ghost predicate IsEntry(byKey: Discovery, key: string, h: seq<Occurrence>) {
    if key in byKey then EntryOf(h, byKey[key]) else h == []
  }

  method Note(byKey: Discovery, o: Occurrence, ghost h: seq<Occurrence>) returns (r: Discovery)
    requires var key := EndpointKey(o.verb, o.ep.path); if key in byKey then EntryOf(h, byKey[key]) else h == []
    ensures var key := EndpointKey(o.verb, o.ep.path);
      key in r && r == byKey[key := r[key]] && EntryOf(h + [o], r[key])
  {
    var key := EndpointKey(o.verb, o.ep.path);
    if key !in byKey {
      assert h + [o] == [o];
      return byKey[key := FirstEntry(o)];
    }
    var existing := byKey[key];
    var pathParams := MergeParamDefs(existing.pathParams, o.ep.pathParams);
    var queryParams := MergeParamDefs(existing.queryParams, o.ep.queryParams);
    var summary := existing.summary;
    if summary == "" {
      summary := o.ep.summary;
    }
    var updated := Endpoint(existing.verb, existing.path, summary, pathParams, queryParams);
    EntryOfOneMore(h, existing, o, updated);
    r := byKey[key := updated];
  }

  /** The accumulation loop over the endpoints of one file, `before` being those of the files so far. */
  method Accumulate(
    byKey: Discovery, ghost before: seq<ParsedEndpoint>, parsed: seq<ParsedEndpoint>)
    returns (r: Discovery)
    requires Accumulated(byKey, before, |before|, 0)
    ensures Accumulated(r, before + parsed, |before + parsed|, 0)
  {
    ghost var eps := before + parsed;
    AccumulatedInPrefix(byKey, before, parsed);
    r := byKey;
    for i := 0 to |parsed|
      invariant Accumulated(r, eps, |before| + i, 0)
    {
      assert eps[|before| + i] == parsed[i];
      r := AccumulateOne(r, parsed[i], eps, |before| + i);
    }
  }

  method AccumulateOne(
    byKey: Discovery, ep: ParsedEndpoint, ghost eps: seq<ParsedEndpoint>, ghost i: nat)
    returns (r: Discovery)
    requires i < |eps| && eps[i] == ep && Accumulated(byKey, eps, i, 0)
    ensures Accumulated(r, eps, i + 1, 0)
  {
    r := byKey;
    for j := 0 to |ep.methods|
      invariant Accumulated(r, eps, i, j)
    {
      var o := Occurrence(ep.methods[j], ep);
      ghost var before := r;
      r := Note(r, o, History(eps, i, j, EndpointKey(o.verb, o.ep.path)));
      AccumulatedOneMore(before, r, eps, i, j);
    }
    AccumulatedNext(r, eps, i);
  }

  lemma AccumulatedNext(byKey: Discovery, eps: seq<ParsedEndpoint>, i: nat)
    requires i < |eps| && Accumulated(byKey, eps, i, |eps[i].methods|)
    ensures Accumulated(byKey, eps, i + 1, 0)
  {
    var next := i + 1;
    forall k ensures IsEntry(byKey, k, History(eps, next, 0, k)) {
      assert IsEntry(byKey, k, History(eps, i, |eps[i].methods|, k));
    }
  }

  lemma AccumulatedInPrefix(byKey: Discovery, before: seq<ParsedEndpoint>, parsed: seq<ParsedEndpoint>)
    requires Accumulated(byKey, before, |before|, 0)
    ensures Accumulated(byKey, before + parsed, |before|, 0)
  {
    forall k ensures IsEntry(byKey, k, History(before + parsed, |before|, 0, k)) {
      HistoryOfPrefix(before, parsed, |before|, 0, k);
      assert IsEntry(byKey, k, History(before, |before|, 0, k));
    }
  }

  lemma {:induction false} HistoryOfPrefix(
    before: seq<ParsedEndpoint>, parsed: seq<ParsedEndpoint>, i: nat, j: nat, key: string)
    requires i <= |before| && (j > 0 ==> i < |before| && j <= |before[i].methods|)
    ensures History(before + parsed, i, j, key) == History(before, i, j, key)
    decreases i, j
  {
    var eps := before + parsed;
    if j > 0 {
      assert eps[i] == before[i];
      HistoryOfPrefix(before, parsed, i, j - 1, key);
    } else if i > 0 {
      assert eps[i - 1] == before[i - 1];
      HistoryOfPrefix(before, parsed, i - 1, |before[i - 1].methods|, key);
    }
  }

  lemma HistoryOneMore(eps: seq<ParsedEndpoint>, i: nat, j: nat, key: string)
    requires i < |eps| && j < |eps[i].methods|
    ensures History(eps, i, j + 1, key)
      == if EndpointKey(eps[i].methods[j], eps[i].path) == key
         then History(eps, i, j, key) + [Occurrence(eps[i].methods[j], eps[i])]
         else History(eps, i, j, key)
  {
    assert History(eps, i, j, key) + [] == History(eps, i, j, key);
  }

  lemma AccumulatedOneMore(before: Discovery, after: Discovery, eps: seq<ParsedEndpoint>, i: nat, j: nat)
    requires i < |eps| && j < |eps[i].methods| && Accumulated(before, eps, i, j)
    requires var o := Occurrence(eps[i].methods[j], eps[i]);
      var key := EndpointKey(o.verb, o.ep.path);
      key in after && after == before[key := after[key]] && EntryOf(History(eps, i, j, key) + [o], after[key])
    ensures Accumulated(after, eps, i, j + 1)
  {
    var key := EndpointKey(eps[i].methods[j], eps[i].path);
    var next := j + 1;
    forall k ensures IsEntry(after, k, History(eps, i, next, k)) {
      HistoryOneMore(eps, i, j, k);
      assert IsEntry(before, k, History(eps, i, j, k));
    }
  }

  /** A directory entry; its content is read only when its name says it is a handler source. */
  datatype DirEntry = DirEntry(name: string, isDir: bool, content: string)

  predicate HasSuffix(s: string, t: string) {
    |t| <= |s| && s[|s| - |t|..] == t
  }

  predicate IsHandlerSource(entry: DirEntry) {
    !entry.isDir && HasSuffix(entry.name, ".go") && !HasSuffix(entry.name, "_test.go")
  }

  /** The sources are the files named something.go, other than the tests. */
  lemma HandlerSourcesAre(entry: DirEntry)
    ensures IsHandlerSource(entry)
      <==> (
        && !entry.isDir && (exists stem :: entry.name == stem + ".go")
        && !exists stem :: entry.name == stem + "_test.go")
  {
    SuffixHasRest(entry.name, ".go");
    SuffixHasRest(entry.name, "_test.go");
  }

  lemma SuffixHasRest(s: string, t: string)
    ensures HasSuffix(s, t) <==> exists rest :: s == rest + t
  {
    if HasSuffix(s, t) {
      assert s == s[..|s| - |t|] + t;
    }
  }

  /** The endpoints of the first `n` entries of a directory, file after file. */
  ghost predicate DirYields(g: Grammar, dir: seq<DirEntry>, n: nat, eps: seq<ParsedEndpoint>)
    requires n <= |dir|
  {
    if n == 0 then eps == []
    else if IsHandlerSource(dir[n - 1]) then
      exists k: nat :: k <= |eps| && DirYields(g, dir, n - 1, eps[..k]) && FileYields(g, dir[n - 1].content, eps[k..])
    else DirYields(g, dir, n - 1, eps)
  }

  /** The map discovery may build from a directory. */
  ghost predicate Discovered(g: Grammar, dir: seq<DirEntry>, byKey: Discovery) {
    exists eps :: DirYields(g, dir, |dir|, eps) && Accumulated(byKey, eps, |eps|, 0)
  }

  method DiscoverHandlerEndpoints(g: Grammar, dir: seq<DirEntry>) returns (byKey: Discovery)
    ensures Discovered(g, dir, byKey)
  {
    ghost var eps: seq<ParsedEndpoint> := [];
    byKey := map[];
    NothingYet();
    for f := 0 to |dir|
      invariant DirYields(g, dir, f, eps) && Accumulated(byKey, eps, |eps|, 0)
    {
      if !IsHandlerSource(dir[f]) {
        continue;
      }
      var parsed := ParseHandlerFile(g, dir[f].content);
      byKey := Accumulate(byKey, eps, parsed);
      OneMoreFile(g, dir, f, eps, parsed);
      eps := eps + parsed;
    }
  }

  lemma NothingYet()
    ensures Accumulated(map[], [], 0, 0)
  {
    forall k: string ensures IsEntry(map[], k, History([], 0, 0, k)) {
    }
  }

  lemma OneMoreFile(g: Grammar, dir: seq<DirEntry>, f: nat, eps: seq<ParsedEndpoint>, parsed: seq<ParsedEndpoint>)
    requires f < |dir| && IsHandlerSource(dir[f])
    requires DirYields(g, dir, f, eps) && FileYields(g, dir[f].content, parsed)
    ensures DirYields(g, dir, f + 1, eps + parsed)
  {
    var all, k := eps + parsed, |eps|;
    assert all[..k] == eps && all[k..] == parsed;
  }

  lemma FileIsWellParsed(g: Grammar, content: string, parsed: seq<ParsedEndpoint>)
    requires FileYields(g, content, parsed)
    ensures forall i | 0 <= i < |parsed| :: WellParsed(parsed[i])
  {
    var lines := Split(content, '\n');
    var texts := Trimmed(lines);
    var at := EndpointLines(Announcing(g, texts), Blocks(texts), 0);
    forall i | 0 <= i < |parsed| ensures WellParsed(parsed[i]) {
      assert TakenFrom(g, lines, texts, at[i], parsed[i]);
      ParsedEndpointsAreWellParsed(g, lines, texts, at[i], parsed[i]);
    }
  }

  /** Where the endpoints of the last file begin. */
  lemma BeforeLast(g: Grammar, dir: seq<DirEntry>, n: nat, eps: seq<ParsedEndpoint>) returns (b: nat)
    requires 0 < n <= |dir| && IsHandlerSource(dir[n - 1]) && DirYields(g, dir, n, eps)
    ensures b <= |eps| && DirYields(g, dir, n - 1, eps[..b]) && FileYields(g, dir[n - 1].content, eps[b..])
  {
    b :| b <= |eps| && DirYields(g, dir, n - 1, eps[..b]) && FileYields(g, dir[n - 1].content, eps[b..]);
  }

  lemma {:induction false} DirIsWellParsed(g: Grammar, dir: seq<DirEntry>, n: nat, eps: seq<ParsedEndpoint>)
    requires n <= |dir| && DirYields(g, dir, n, eps)
    ensures forall i | 0 <= i < |eps| :: WellParsed(eps[i])
  {
    if n > 0 {
      if IsHandlerSource(dir[n - 1]) {
        var k := BeforeLast(g, dir, n, eps);
        DirIsWellParsed(g, dir, n - 1, eps[..k]);
        FileIsWellParsed(g, dir[n - 1].content, eps[k..]);
        forall i | 0 <= i < |eps| ensures WellParsed(eps[i]) {
          if i < k {
            assert eps[..k][i] == eps[i];
          } else {
            assert eps[k..][i - k] == eps[i];
          }
        }
      } else {
        DirIsWellParsed(g, dir, n - 1, eps);
      }
    }
  }

  // ---------------------------------------------------------------- what entries hold

  /** The index of the first occurrence with a summary, or the number of occurrences. */
  function FirstSummary(h: seq<Occurrence>): (i: nat)
    ensures i <= |h|
    ensures forall k | 0 <= k < i :: h[k].ep.summary == ""
    ensures i < |h| ==> h[i].ep.summary != ""
  {
    if h == [] || h[0].ep.summary != "" then 0 else 1 + FirstSummary(h[1..])
  }

  /** Verb and path are those of the first occurrence, and the summary is the first non-empty one. */
  lemma {:induction false} EntryKeepsFirst(h: seq<Occurrence>, e: Endpoint)
    requires EntryOf(h, e)
    ensures h != [] && e.verb == h[0].verb && e.path == h[0].ep.path
    ensures e.summary == SummaryOf(h)
  {
    if |h| > 1 {
      var init, last := h[..|h| - 1], h[|h| - 1];
      var prev :| EntryOf(init, prev) && IsUpdate(prev, last, e);
      EntryKeepsFirst(init, prev);
      SummaryOneMore(init, last);
      assert h == init + [last];
    }
  }

  function SummaryOf(h: seq<Occurrence>): string {
    var i := FirstSummary(h);
    if i < |h| then h[i].ep.summary else ""
  }

  lemma SummaryOneMore(init: seq<Occurrence>, last: Occurrence)
    ensures SummaryOf(init + [last]) == if SummaryOf(init) == "" then last.ep.summary else SummaryOf(init)
  {
    var h, k := init + [last], FirstSummary(init);
    assert k < |init| ==> h[k] == init[k];
    FirstSummaryIs(h, if k < |init| then k else if last.ep.summary != "" then |init| else |h|);
  }

  lemma FirstSummaryIs(h: seq<Occurrence>, i: nat)
    requires i <= |h| && (forall k | 0 <= k < i :: h[k].ep.summary == "") && (i < |h| ==> h[i].ep.summary != "")
    ensures FirstSummary(h) == i
  {
  }

  lemma {:induction false} HistoryHasItsKey(eps: seq<ParsedEndpoint>, i: nat, j: nat, key: string)
    requires i <= |eps| && (j > 0 ==> i < |eps| && j <= |eps[i].methods|)
    ensures forall n | 0 <= n < |History(eps, i, j, key)| ::
      var o := History(eps, i, j, key)[n];
      EndpointKey(o.verb, o.ep.path) == key && o.ep in eps && o.verb in o.ep.methods
    decreases i, j
  {
    if j > 0 {
      HistoryHasItsKey(eps, i, j - 1, key);
    } else if i > 0 {
      HistoryHasItsKey(eps, i - 1, |eps[i - 1].methods|, key);
    }
  }

  lemma {:induction false} HistoryIsComplete(eps: seq<ParsedEndpoint>, i: nat, j: nat, m: nat, n: nat)
    requires i <= |eps| && (j > 0 ==> i < |eps| && j <= |eps[i].methods|)
    requires m < |eps| && n < |eps[m].methods| && (m < i || (m == i && n < j))
    ensures Occurrence(eps[m].methods[n], eps[m]) in History(eps, i, j, EndpointKey(eps[m].methods[n], eps[m].path))
    decreases i, j
  {
    if j > 0 {
      if m < i || n < j - 1 {
        HistoryIsComplete(eps, i, j - 1, m, n);
      }
    } else {
      HistoryIsComplete(eps, i - 1, |eps[i - 1].methods|, m, n);
    }
  }

  /** The keys are exactly those of the parsed (verb, path) pairs, and every entry is filed under the key of its
      own verb and path. */
  lemma AccumulatedKeys(byKey: Discovery, eps: seq<ParsedEndpoint>)
    requires Accumulated(byKey, eps, |eps|, 0)
    ensures forall k :: k in byKey ==> k == EndpointKey(byKey[k].verb, byKey[k].path)
    ensures forall k :: k in byKey <==>
      exists m, n :: 0 <= m < |eps| && 0 <= n < |eps[m].methods| && k == EndpointKey(eps[m].methods[n], eps[m].path)
  {
    forall k | k in byKey
      ensures k == EndpointKey(byKey[k].verb, byKey[k].path)
      ensures exists m, n ::
        0 <= m < |eps| && 0 <= n < |eps[m].methods| && k == EndpointKey(eps[m].methods[n], eps[m].path)
    {
      var h := History(eps, |eps|, 0, k);
      HistoryHasItsKey(eps, |eps|, 0, k);
      EntryKeepsFirst(h, byKey[k]);
      var m :| 0 <= m < |eps| && eps[m] == h[0].ep;
      var n :| 0 <= n < |eps[m].methods| && eps[m].methods[n] == h[0].verb;
    }
    forall m, n | 0 <= m < |eps| && 0 <= n < |eps[m].methods|
      ensures EndpointKey(eps[m].methods[n], eps[m].path) in byKey
    {
      HistoryIsComplete(eps, |eps|, 0, m, n);
    }
  }

  /** Everything the generator relies on about discovered endpoints. */
  predicate WellDiscovered(d: Discovery) {
    forall k :: k in d ==>
      && k == EndpointKey(d[k].verb, d[k].path)
      && IsVerb(d[k].verb)
      && NormalizeOpenAPIPath(d[k].path) == d[k].path
      && DiscoveredPathParams(d[k].pathParams)
      && InQuery(d[k].queryParams)
  }

  lemma UpdateKeepsPlain(prev: Endpoint, o: Occurrence, e: Endpoint)
    requires IsUpdate(prev, o, e)
    requires PlainPath(prev.pathParams) && PlainPath(o.ep.pathParams)
    requires InQuery(prev.queryParams) && InQuery(o.ep.queryParams)
    ensures PlainPath(e.pathParams) && InQuery(e.queryParams)
  {
    MergeKeepsPlainPath(prev.pathParams, o.ep.pathParams, e.pathParams);
    MergeKeepsInQuery(prev.queryParams, o.ep.queryParams, e.queryParams);
  }

  /** The entry before the last occurrence. */
  lemma EntryBefore(h: seq<Occurrence>, e: Endpoint) returns (prev: Endpoint)
    requires EntryOf(h, e) && |h| > 1
    ensures EntryOf(h[..|h| - 1], prev) && IsUpdate(prev, h[|h| - 1], e)
  {
    assert EntryAfter(h[..|h| - 1], h[|h| - 1], e);
    prev :| EntryOf(h[..|h| - 1], prev) && IsUpdate(prev, h[|h| - 1], e);
  }

  predicate IsPlainEntry(e: Endpoint) {
    PlainPath(e.pathParams) && InQuery(e.queryParams)
  }

  predicate IsPlainOccurrence(o: Occurrence) {
    PlainPath(o.ep.pathParams) && InQuery(o.ep.queryParams)
  }

  lemma {:induction false} EntryParamsArePlain(h: seq<Occurrence>, e: Endpoint)
    requires EntryOf(h, e)
    requires forall i | 0 <= i < |h| :: IsPlainOccurrence(h[i])
    ensures IsPlainEntry(e)
  {
    var n := |h| - 1;
    assert IsPlainOccurrence(h[n]);
    if n > 0 {
      var prev := EntryBefore(h, e);
      EntryParamsArePlain(h[..n], prev);
      UpdateKeepsPlain(prev, h[n], e);
    }
  }

  lemma EntryIsWellDiscovered(h: seq<Occurrence>, e: Endpoint)
    requires EntryOf(h, e)
    requires forall i | 0 <= i < |h| :: WellParsed(h[i].ep) && h[i].verb in h[i].ep.methods
    ensures IsVerb(e.verb) && NormalizeOpenAPIPath(e.path) == e.path
    ensures PlainPath(e.pathParams) && InQuery(e.queryParams)
  {
    EntryKeepsFirst(h, e);
    forall i | 0 <= i < |h|
      ensures IsPlainOccurrence(h[i])
    {
      assert WellParsed(h[i].ep);
    }
    EntryParamsArePlain(h, e);
    assert WellParsed(h[0].ep);
  }

  lemma DiscoveryIsWellDiscovered(g: Grammar, dir: seq<DirEntry>, byKey: Discovery)
    requires Discovered(g, dir, byKey)
    ensures WellDiscovered(byKey)
  {
    var eps :| DirYields(g, dir, |dir|, eps) && Accumulated(byKey, eps, |eps|, 0);
    DirIsWellParsed(g, dir, |dir|, eps);
    AccumulatedIsWellDiscovered(byKey, eps);
  }

  lemma AccumulatedIsWellDiscovered(byKey: Discovery, eps: seq<ParsedEndpoint>)
    requires Accumulated(byKey, eps, |eps|, 0)
    requires forall i | 0 <= i < |eps| :: WellParsed(eps[i])
    ensures WellDiscovered(byKey)
  {
    AccumulatedKeys(byKey, eps);
    forall k | k in byKey
      ensures IsVerb(byKey[k].verb) && NormalizeOpenAPIPath(byKey[k].path) == byKey[k].path
      ensures DiscoveredPathParams(byKey[k].pathParams) && InQuery(byKey[k].queryParams)
    {
      HistoryHasItsKey(eps, |eps|, 0, k);
      assert IsEntry(byKey, k, History(eps, |eps|, 0, k));
      EntryIsWellDiscovered(History(eps, |eps|, 0, k), byKey[k]);
    }
  }
}
