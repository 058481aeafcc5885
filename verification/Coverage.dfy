/** From the text of a handler directory to the keys of the discovered endpoints. */
module DiscoveryCoverage {
  import opened Text
  import opened PathTemplates
  import opened HandlerScan
  import opened Parameters
  import opened HandlerFile
  import opened EndpointDiscovery

  /** A line of a handler source that announces an endpoint and is taken by the scan. */
  predicate IsTakenLine(g: Grammar, entry: DirEntry, i: nat) {
    var texts := Trimmed(Split(entry.content, '\n'));
    IsHandlerSource(entry) && i in EndpointLines(Announcing(g, texts), Blocks(texts), 0)
  }

  /** The route announced on such a line. */
  function TakenRoute(g: Grammar, entry: DirEntry, i: nat): RouteComment
    requires IsTakenLine(g, entry, i)
  {
    var texts := Trimmed(Split(entry.content, '\n'));
    LineIsMarked(g, texts, i);
    Announced(g, texts[i]).value.1
  }

  predicate IsEndpointOf(g: Grammar, entry: DirEntry, i: nat, ep: ParsedEndpoint) {
    && IsTakenLine(g, entry, i)
    && ep.methods == TakenRoute(g, entry, i).methods
    && ep.path == NormalizeOpenAPIPath(TakenRoute(g, entry, i).path)
  }

  ghost predicate IsCovered(g: Grammar, entry: DirEntry, i: nat, eps: seq<ParsedEndpoint>) {
    exists k :: 0 <= k < |eps| && IsEndpointOf(g, entry, i, eps[k])
  }

  ghost predicate ComesFrom(g: Grammar, entry: DirEntry, ep: ParsedEndpoint) {
    exists i: nat :: IsEndpointOf(g, entry, i, ep)
  }

  ghost predicate ComesFromDir(g: Grammar, dir: seq<DirEntry>, n: nat, ep: ParsedEndpoint)
    requires n <= |dir|
  {
    exists f :: 0 <= f < n && ComesFrom(g, dir[f], ep)
  }

  ghost predicate CoversDir(g: Grammar, dir: seq<DirEntry>, n: nat, eps: seq<ParsedEndpoint>)
    requires n <= |dir|
  {
    forall f, i: nat :: 0 <= f < n && IsTakenLine(g, dir[f], i) ==> IsCovered(g, dir[f], i, eps)
  }

  ghost predicate CoversFile(g: Grammar, entry: DirEntry, eps: seq<ParsedEndpoint>) {
    forall i: nat :: IsTakenLine(g, entry, i) ==> IsCovered(g, entry, i, eps)
  }

  lemma FileHasTakenLines(g: Grammar, entry: DirEntry, parsed: seq<ParsedEndpoint>)
    requires IsHandlerSource(entry) && FileYields(g, entry.content, parsed)
    ensures CoversFile(g, entry, parsed)
    ensures AllComeFromFile(g, entry, parsed)
  {
    var lines := Split(entry.content, '\n');
    var texts := Trimmed(lines);
    var at := EndpointLines(Announcing(g, texts), Blocks(texts), 0);
    forall k | 0 <= k < |parsed|
      ensures IsEndpointOf(g, entry, at[k], parsed[k])
    {
      assert at[k] in at;
      assert TakenFrom(g, lines, texts, at[k], parsed[k]);
    }
    forall i: nat | IsTakenLine(g, entry, i)
      ensures IsCovered(g, entry, i, parsed)
    {
      var k :| 0 <= k < |at| && at[k] == i;
      assert IsEndpointOf(g, entry, i, parsed[k]);
    }
  }

  ghost predicate AllComeFromFile(g: Grammar, entry: DirEntry, eps: seq<ParsedEndpoint>) {
    forall k | 0 <= k < |eps| :: ComesFrom(g, entry, eps[k])
  }

  ghost predicate AllComeFromDir(g: Grammar, dir: seq<DirEntry>, n: nat, eps: seq<ParsedEndpoint>)
    requires n <= |dir|
  {
    forall k | 0 <= k < |eps| :: ComesFromDir(g, dir, n, eps[k])
  }

  lemma {:induction false} DirIsCovered(g: Grammar, dir: seq<DirEntry>, n: nat, eps: seq<ParsedEndpoint>)
    requires n <= |dir| && DirYields(g, dir, n, eps)
    ensures CoversDir(g, dir, n, eps)
    decreases n
  {
    if n > 0 {
      if IsHandlerSource(dir[n - 1]) {
        var b := BeforeLast(g, dir, n, eps);
        DirIsCovered(g, dir, n - 1, eps[..b]);
        FileHasTakenLines(g, dir[n - 1], eps[b..]);
        CoverTogether(g, dir, n, eps, b);
      } else {
        DirIsCovered(g, dir, n - 1, eps);
        OtherFileIsCovered(g, dir, n, eps);
      }
    }
  }

  lemma OtherFileIsCovered(g: Grammar, dir: seq<DirEntry>, n: nat, eps: seq<ParsedEndpoint>)
    requires 0 < n <= |dir| && !IsHandlerSource(dir[n - 1]) && CoversDir(g, dir, n - 1, eps)
    ensures CoversDir(g, dir, n, eps)
  {
  }

  lemma {:induction false} DirIsAll(g: Grammar, dir: seq<DirEntry>, n: nat, eps: seq<ParsedEndpoint>)
    requires n <= |dir| && DirYields(g, dir, n, eps)
    ensures AllComeFromDir(g, dir, n, eps)
    decreases n
  {
    if n > 0 {
      if IsHandlerSource(dir[n - 1]) {
        var b := BeforeLast(g, dir, n, eps);
        DirIsAll(g, dir, n - 1, eps[..b]);
        FileHasTakenLines(g, dir[n - 1], eps[b..]);
        ComeTogether(g, dir, n, eps, b);
      } else {
        DirIsAll(g, dir, n - 1, eps);
        FromMore(g, dir, n, eps);
      }
    }
  }

  lemma FromMore(g: Grammar, dir: seq<DirEntry>, n: nat, eps: seq<ParsedEndpoint>)
    requires 0 < n <= |dir| && AllComeFromDir(g, dir, n - 1, eps)
    ensures AllComeFromDir(g, dir, n, eps)
  {
    forall k | 0 <= k < |eps|
      ensures ComesFromDir(g, dir, n, eps[k])
    {
      assert ComesFromDir(g, dir, n - 1, eps[k]);
    }
  }

  lemma CoverTogether(g: Grammar, dir: seq<DirEntry>, n: nat, eps: seq<ParsedEndpoint>, b: nat)
    requires 0 < n <= |dir| && b <= |eps|
    requires CoversDir(g, dir, n - 1, eps[..b]) && CoversFile(g, dir[n - 1], eps[b..])
    ensures CoversDir(g, dir, n, eps)
  {
    forall f, i: nat | 0 <= f < n && IsTakenLine(g, dir[f], i)
      ensures IsCovered(g, dir[f], i, eps)
    {
      CoveredByPart(g, dir[f], i, eps, if f < n - 1 then 0 else b, if f < n - 1 then b else |eps|);
    }
  }

  lemma CoveredByPart(g: Grammar, entry: DirEntry, i: nat, eps: seq<ParsedEndpoint>, from: nat, end: nat)
    requires from <= end <= |eps|
    ensures IsCovered(g, entry, i, eps[from..end]) ==> IsCovered(g, entry, i, eps)
    ensures from == 0 ==> eps[from..end] == eps[..end]
    ensures end == |eps| ==> eps[from..end] == eps[from..]
  {
    if k :| 0 <= k < end - from && IsEndpointOf(g, entry, i, eps[from..end][k]) {
      assert eps[from + k] == eps[from..end][k];
    }
  }

  lemma ComeTogether(g: Grammar, dir: seq<DirEntry>, n: nat, eps: seq<ParsedEndpoint>, b: nat)
    requires 0 < n <= |dir| && b <= |eps|
    requires AllComeFromDir(g, dir, n - 1, eps[..b]) && AllComeFromFile(g, dir[n - 1], eps[b..])
    ensures AllComeFromDir(g, dir, n, eps)
  {
    forall k | 0 <= k < |eps|
      ensures ComesFromDir(g, dir, n, eps[k])
    {
      if k < b {
        assert eps[k] == eps[..b][k];
        assert ComesFromDir(g, dir, n - 1, eps[..b][k]);
      } else {
        assert eps[k] == eps[b..][k - b];
        assert ComesFrom(g, dir[n - 1], eps[b..][k - b]);
      }
    }
  }

  predicate IsAnnouncedAs(g: Grammar, entry: DirEntry, i: nat, m: string, key: string) {
    && IsTakenLine(g, entry, i)
    && m in TakenRoute(g, entry, i).methods && key == EndpointKey(m, TakenRoute(g, entry, i).path)
  }

  ghost predicate IsAnnouncedIn(g: Grammar, dir: seq<DirEntry>, key: string) {
    exists f, i: nat, m :: 0 <= f < |dir| && IsAnnouncedAs(g, dir[f], i, m, key)
  }

  /** The key of a method of a parsed endpoint. */
  ghost predicate HasKey(eps: seq<ParsedEndpoint>, key: string) {
    exists a, b :: 0 <= a < |eps| && 0 <= b < |eps[a].methods| && key == EndpointKey(eps[a].methods[b], eps[a].path)
  }

  lemma EndpointIsAnnounced(g: Grammar, dir: seq<DirEntry>, ep: ParsedEndpoint, m: string)
    requires ComesFromDir(g, dir, |dir|, ep) && m in ep.methods
    ensures IsAnnouncedIn(g, dir, EndpointKey(m, ep.path))
  {
    var f :| 0 <= f < |dir| && ComesFrom(g, dir[f], ep);
    var i: nat :| IsEndpointOf(g, dir[f], i, ep);
    EndpointKeyIgnoresNormalization(m, TakenRoute(g, dir[f], i).path);
    assert IsAnnouncedAs(g, dir[f], i, m, EndpointKey(m, ep.path));
  }

  lemma AnnouncedIsParsed(
    g: Grammar, entry: DirEntry, i: nat, m: string, key: string, eps: seq<ParsedEndpoint>)
    requires IsAnnouncedAs(g, entry, i, m, key) && IsCovered(g, entry, i, eps)
    ensures HasKey(eps, key)
  {
    var a :| 0 <= a < |eps| && IsEndpointOf(g, entry, i, eps[a]);
    var b :| 0 <= b < |eps[a].methods| && eps[a].methods[b] == m;
    EndpointKeyIgnoresNormalization(m, TakenRoute(g, entry, i).path);
  }

  lemma ParsedKeysAreAnnounced(g: Grammar, dir: seq<DirEntry>, eps: seq<ParsedEndpoint>, key: string)
    requires DirYields(g, dir, |dir|, eps)
    ensures HasKey(eps, key) <==> IsAnnouncedIn(g, dir, key)
  {
    DirIsAll(g, dir, |dir|, eps);
    DirIsCovered(g, dir, |dir|, eps);
    KeyIsAnnounced(g, dir, eps, key);
    KeyIsParsed(g, dir, eps, key);
  }

  lemma KeyIsAnnounced(g: Grammar, dir: seq<DirEntry>, eps: seq<ParsedEndpoint>, key: string)
    requires AllComeFromDir(g, dir, |dir|, eps)
    ensures HasKey(eps, key) ==> IsAnnouncedIn(g, dir, key)
  {
    if HasKey(eps, key) {
      var a, b :| 0 <= a < |eps| && 0 <= b < |eps[a].methods| && key == EndpointKey(eps[a].methods[b], eps[a].path);
      EndpointIsAnnounced(g, dir, eps[a], eps[a].methods[b]);
    }
  }

  lemma KeyIsParsed(g: Grammar, dir: seq<DirEntry>, eps: seq<ParsedEndpoint>, key: string)
    requires CoversDir(g, dir, |dir|, eps)
    ensures IsAnnouncedIn(g, dir, key) ==> HasKey(eps, key)
  {
    if IsAnnouncedIn(g, dir, key) {
      var f, i: nat, m :| 0 <= f < |dir| && IsAnnouncedAs(g, dir[f], i, m, key);
      assert IsCovered(g, dir[f], i, eps);
      AnnouncedIsParsed(g, dir[f], i, m, key, eps);
    }
  }

  /** Discovery from end to end: the keys of the map are exactly those of the methods and paths announced on the lines
      that the scans of the handler sources take. */
  lemma DiscoveredKeysAreAnnounced(g: Grammar, dir: seq<DirEntry>, byKey: Discovery, key: string)
    requires Discovered(g, dir, byKey)
    ensures key in byKey <==> IsAnnouncedIn(g, dir, key)
  {
    var eps: seq<ParsedEndpoint> :| DirYields(g, dir, |dir|, eps) && Accumulated(byKey, eps, |eps|, 0);
    ParsedKeysAreAnnounced(g, dir, eps, key);
    AccumulatedKeys(byKey, eps);
  }
}
