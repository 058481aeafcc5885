/** Reading one handler: verbs and path of its "handles" comment, and the text of its function body
    (parseMethodsAndPath, uniqueStrings, extractFunctionBody). */
module HandlerScan {
  import opened Text

  // ---------------------------------------------------------------- uniqueStrings

  function Unique(values: seq<string>): seq<string> {
    if values == [] then []
    else
      var init, last := Unique(values[..|values| - 1]), values[|values| - 1];
      if last in init then init else init + [last]
  }

  predicate DistinctStrings(s: seq<string>) {
    forall i, j | 0 <= i < j < |s| :: s[i] != s[j]
  }

  function FirstIndex(values: seq<string>, v: string): (i: nat)
    requires v in values
    ensures i < |values| && values[i] == v && forall k | 0 <= k < i :: values[k] != v
  {
    if values[0] == v then 0 else 1 + FirstIndex(values[1..], v)
  }

  method UniqueStrings(values: seq<string>) returns (out: seq<string>)
    ensures out == Unique(values)
  {
    var seen: set<string> := {};
    out := [];
    for i := 0 to |values|
      invariant out == Unique(values[..i])
      invariant forall v :: v in seen <==> v in out
    {
      assert values[..i + 1][..i] == values[..i];
      if values[i] !in seen {
        seen := seen + {values[i]};
        out := out + [values[i]];
      }
    }
    assert values[..|values|] == values;
  }

  /** The values that occur, each once, in the order of their first occurrence. */
  lemma {:induction false} UniqueKeepsFirstOccurrences(values: seq<string>)
    ensures var r := Unique(values);
      && (forall v :: v in r <==> v in values)
      && DistinctStrings(r)
      && (forall i, j | 0 <= i < j < |r| :: FirstIndex(values, r[i]) < FirstIndex(values, r[j]))
  {
    if values != [] {
      var init, last := values[..|values| - 1], values[|values| - 1];
      var r := Unique(init);
      UniqueKeepsFirstOccurrences(init);
      assert values == init + [last];
      forall i | 0 <= i < |r| ensures FirstIndex(values, r[i]) == FirstIndex(init, r[i]) {
        FirstIndexIsUnique(values, r[i], FirstIndex(init, r[i]));
      }
      if last !in r {
        FirstIndexIsUnique(values, last, |init|);
      }
    }
  }

  lemma FirstIndexIsUnique(values: seq<string>, v: string, i: nat)
    requires i < |values| && values[i] == v && forall k | 0 <= k < i :: values[k] != v
    ensures FirstIndex(values, v) == i
  {
  }

  // ---------------------------------------------------------------- parseMethodsAndPath

  const HTTP_METHODS: set<string> := {"GET", "POST", "PUT", "PATCH", "DELETE"}

  predicate IsHTTPMethod(value: string) {
    value in HTTP_METHODS
  }

  function TrimRight(s: string, cut: set<char>): string {
    if s != "" && s[|s| - 1] in cut then TrimRight(s[..|s| - 1], cut) else s
  }

  function TrimSpaceRight(s: string): string {
    if s != "" && IsSpace(s[|s| - 1]) then TrimSpaceRight(s[..|s| - 1]) else s
  }

  function TrimSpaceLeft(s: string): string {
    if s != "" && IsSpace(s[0]) then TrimSpaceLeft(s[1..]) else s
  }

  function TrimSpace(s: string): string {
    TrimSpaceRight(TrimSpaceLeft(s))
  }

  const SENTENCE_END: set<char> := {'.', ',', ';', ':', '!'}

  /** Index of the first word that starts with "/api", or the number of words. */
  function PathIndex(words: seq<string>): (i: nat)
    ensures i <= |words|
    ensures forall k | 0 <= k < i :: !HasPrefix(words[k], "/api")
    ensures i < |words| ==> HasPrefix(words[i], "/api")
  {
    if words == [] || HasPrefix(words[0], "/api") then 0 else 1 + PathIndex(words[1..])
  }

  /** The verbs among the pieces of one word, lower-cased. */
  function VerbsIn(pieces: seq<string>): seq<string> {
    if pieces == [] then []
    else
      VerbsIn(pieces[..|pieces| - 1])
      + (var p := pieces[|pieces| - 1]; if IsHTTPMethod(ToUpper(p)) then [ToLower(p)] else [])
  }

  function Verbs(words: seq<string>): seq<string> {
    if words == [] then [] else Verbs(words[..|words| - 1]) + VerbsIn(Split(words[|words| - 1], '/'))
  }

  datatype RouteComment = RouteComment(methods: seq<string>, path: string)

  /** What a comment says, read off its words alone. */
  function RouteOf(words: seq<string>): Option<RouteComment> {
    var i := PathIndex(words);
    if |words| < 2 || i == |words| || Unique(Verbs(words[..i])) == [] then None
    else Some(RouteComment(Unique(Verbs(words[..i])), TrimRight(words[i], SENTENCE_END)))
  }

  lemma {:induction false} TrimSpaceOfWord(s: string)
    requires NoSpace(s)
    ensures TrimSpace(s) == s
  {
  }

  lemma {:induction false} SplitKeepsNoSpace(s: string, separator: char, run: string)
    requires NoSpace(s) && NoSpace(run)
    ensures forall i | 0 <= i < |SplitFrom(s, separator, run)| :: NoSpace(SplitFrom(s, separator, run)[i])
  {
    if s == "" {
    } else if s[0] == separator {
      SplitKeepsNoSpace(s[1..], separator, "");
    } else {
      SplitKeepsNoSpace(s[1..], separator, run + [s[0]]);
    }
  }

  method VerbsOfChunk(chunk: string, before: seq<string>) returns (methods: seq<string>)
    requires NoSpace(chunk)
    ensures methods == before + VerbsIn(Split(chunk, '/'))
  {
    var pieces := Split(chunk, '/');
    SplitKeepsNoSpace(chunk, '/', "");
    methods := before;
    for j := 0 to |pieces|
      invariant methods == before + VerbsIn(pieces[..j])
    {
      assert pieces[..j + 1][..j] == pieces[..j];
      TrimSpaceOfWord(pieces[j]);
      CaseRoundTrips(pieces[j]);
      var upper := ToUpper(TrimSpace(pieces[j]));
      if IsHTTPMethod(upper) {
        methods := methods + [ToLower(upper)];
      }
    }
    assert pieces[..|pieces|] == pieces;
  }

  /** The re-joining and re-splitting in the source changes nothing: the result depends on the words only. */
  method ParseMethodsAndPath(routePart: string) returns (r: Option<RouteComment>)
    ensures r == RouteOf(Fields(routePart))
  {
    var parts := Fields(routePart);
    FieldsAreWords(routePart, "");
    if |parts| < 2 {
      return None;
    }
    var pathIndex := |parts|;
    for i := 0 to |parts|
      invariant pathIndex == |parts|
      invariant forall k | 0 <= k < i :: !HasPrefix(parts[k], "/api")
    {
      if HasPrefix(parts[i], "/api") {
        pathIndex := i;
        break;
      }
    }
    PathIndexIsFirst(parts, pathIndex);
    if pathIndex == |parts| {
      return None;
    }
    var methodsPart := Join(parts[..pathIndex], ' ');
    var path := parts[pathIndex];
    if pathIndex + 1 < |parts| {
      path := Join(parts[pathIndex..], ' ');
      FieldsUndoesJoin(parts[pathIndex..]);
      path := Fields(path)[0];
    }
    path := TrimRight(path, SENTENCE_END);

    FieldsUndoesJoin(parts[..pathIndex]);
    var chunks := Fields(methodsPart);
    var methods: seq<string> := [];
    for i := 0 to |chunks|
      invariant methods == Verbs(chunks[..i])
    {
      assert chunks[..i + 1][..i] == chunks[..i];
      methods := VerbsOfChunk(chunks[i], methods);
    }
    assert chunks[..|chunks|] == chunks;
    methods := UniqueStrings(methods);
    if methods == [] {
      return None;
    }
    return Some(RouteComment(methods, path));
  }

  lemma {:induction false} PathIndexIsFirst(words: seq<string>, i: nat)
    requires i <= |words| && forall k | 0 <= k < i :: !HasPrefix(words[k], "/api")
    requires i < |words| ==> HasPrefix(words[i], "/api")
    ensures PathIndex(words) == i
  {
    if i > 0 {
      PathIndexIsFirst(words[1..], i - 1);
    }
  }

  /** The methods an endpoint may have. */
  predicate IsVerb(m: string) {
    m in {"get", "post", "put", "patch", "delete"}
  }

  /** A text names an HTTP method in some spelling exactly when it lower-cases to one of the five verbs. */
  lemma VerbInAnyCase(m: string)
    ensures IsHTTPMethod(ToUpper(m)) <==> IsVerb(ToLower(m))
  {
    CaseRoundTrips(m);
    var u, l := ToUpper(m), ToLower(m);
    assert u == "GET" ==> ToLower(u) == "get";
    assert u == "POST" ==> ToLower(u) == "post";
    assert u == "PUT" ==> ToLower(u) == "put";
    assert u == "PATCH" ==> ToLower(u) == "patch";
    assert u == "DELETE" ==> ToLower(u) == "delete";
    UpperOfVerb(l);
  }

  lemma UpperOfVerb(l: string)
    ensures IsVerb(l) ==> IsHTTPMethod(ToUpper(l))
  {
    assert l == "get" ==> ToUpper(l) == "GET";
    assert l == "post" ==> ToUpper(l) == "POST";
    assert l == "put" ==> ToUpper(l) == "PUT";
    assert l == "patch" ==> ToUpper(l) == "PATCH";
    assert l == "delete" ==> ToUpper(l) == "DELETE";
  }

  /** `m` is written in some spelling, alone or between slashes, in a word before any that starts with "/api". */
  ghost predicate IsWritten(words: seq<string>, m: string) {
    exists k, piece ::
      && 0 <= k < |words| && (forall l | 0 <= l <= k :: !HasPrefix(words[l], "/api"))
      && piece in Split(words[k], '/') && ToLower(piece) == m
  }

  /** The methods are exactly the verbs written before the path, in lower case and without repetition, in the order in
      which they are first written. */
  lemma MethodsAreTheVerbsBeforeThePath(words: seq<string>, r: RouteComment)
    requires RouteOf(words) == Some(r)
    ensures r.methods != [] && DistinctStrings(r.methods)
    ensures forall m :: m in r.methods <==> IsVerb(m) && IsWritten(words, m)
    ensures var written := Verbs(words[..PathIndex(words)]);
      && (forall a | 0 <= a < |r.methods| :: r.methods[a] in written)
      && (forall a, b | 0 <= a < b < |r.methods| ::
            FirstIndex(written, r.methods[a]) < FirstIndex(written, r.methods[b]))
  {
    var i := PathIndex(words);
    UniqueKeepsFirstOccurrences(Verbs(words[..i]));
    forall m
      ensures m in r.methods <==> IsVerb(m) && IsWritten(words, m)
    {
      VerbsAreWritten(words, m);
    }
  }

  lemma VerbsAreWritten(words: seq<string>, m: string)
    ensures m in Verbs(words[..PathIndex(words)]) <==> IsVerb(m) && IsWritten(words, m)
  {
    var i := PathIndex(words);
    VerbsAre(words[..i]);
    if k, piece :|
      0 <= k < i && piece in Split(words[..i][k], '/') && IsHTTPMethod(ToUpper(piece)) && m == ToLower(piece)
    {
      VerbInAnyCase(piece);
      assert words[..i][k] == words[k];
    }
    if IsVerb(m) && IsWritten(words, m) {
      var k, piece :|
        && 0 <= k < |words| && (forall l | 0 <= l <= k :: !HasPrefix(words[l], "/api"))
        && piece in Split(words[k], '/') && ToLower(piece) == m;
      VerbInAnyCase(piece);
      assert k < i;
      assert words[..i][k] == words[k];
    }
  }

  /** A comment yields a route exactly when one of its words starts with "/api" and a verb is written before that. */
  lemma RouteExistsExactlyWhen(words: seq<string>)
    ensures RouteOf(words).Some?
      <==> (exists k :: 0 <= k < |words| && HasPrefix(words[k], "/api")) && exists m :: IsVerb(m) && IsWritten(words, m)
  {
    var i := PathIndex(words);
    var verbs := Verbs(words[..i]);
    UniqueKeepsFirstOccurrences(verbs);
    if verbs != [] {
      assert verbs[0] in verbs && verbs[0] in Unique(verbs);
      VerbsAreWritten(words, verbs[0]);
    }
    if m :| IsVerb(m) && IsWritten(words, m) {
      VerbsAreWritten(words, m);
      assert m in Unique(verbs);
    }
    if Unique(verbs) != [] {
      assert Unique(verbs)[0] in verbs;
    }
  }

  /** The path is the first word that starts with "/api", without the punctuation a sentence may put behind it. */
  lemma PathIsTheFirstApiWord(words: seq<string>, r: RouteComment)
    requires RouteOf(words) == Some(r)
    ensures exists k, tail ::
      && 0 <= k < |words| && HasPrefix(words[k], "/api") && (forall l | 0 <= l < k :: !HasPrefix(words[l], "/api"))
      && words[k] == r.path + tail && (forall c | c in tail :: c in ".,;:!")
      && (r.path != "" ==> r.path[|r.path| - 1] !in ".,;:!")
  {
    var k := PathIndex(words);
    var tail := TrimRightIs(words[k], SENTENCE_END);
    assert forall c :: c in SENTENCE_END <==> c in ".,;:!";
    assert words[k] == r.path + tail;
  }

  lemma {:induction false} TrimRightIs(s: string, cut: set<char>) returns (tail: string)
    ensures s == TrimRight(s, cut) + tail && (forall c | c in tail :: c in cut)
    ensures var t := TrimRight(s, cut); t != "" ==> t[|t| - 1] !in cut
  {
    if s != "" && s[|s| - 1] in cut {
      var init := TrimRightIs(s[..|s| - 1], cut);
      tail := init + [s[|s| - 1]];
      assert s == s[..|s| - 1] + [s[|s| - 1]];
    } else {
      tail := "";
      assert s + "" == s;
    }
  }

  predicate AllSpace(s: string) {
    forall i | 0 <= i < |s| :: IsSpace(s[i])
  }

  /** TrimSpace takes off the white space on both sides, and nothing else. */
  lemma TrimSpaceIs(before: string, s: string, after: string)
    requires AllSpace(before) && AllSpace(after)
    requires s != "" ==> !IsSpace(s[0]) && !IsSpace(s[|s| - 1])
    ensures TrimSpace(before + s + after) == s
  {
    assert before + s + after == before + (s + after);
    if s == "" {
      assert s + after == after + "";
      TrimLeftIs(before + after, "");
      assert before + (s + after) == (before + after) + "";
    } else {
      TrimLeftIs(before, s + after);
      TrimRightSpaceIs(s, after);
    }
  }

  lemma {:induction false} TrimLeftIs(before: string, s: string)
    requires AllSpace(before) && (s != "" ==> !IsSpace(s[0]))
    ensures TrimSpaceLeft(before + s) == s
  {
    if before == "" {
      assert before + s == s;
    } else {
      assert (before + s)[1..] == before[1..] + s;
      TrimLeftIs(before[1..], s);
    }
  }

  lemma {:induction false} TrimRightSpaceIs(s: string, after: string)
    requires AllSpace(after) && s != "" && !IsSpace(s[|s| - 1])
    ensures TrimSpaceRight(s + after) == s
  {
    if after == "" {
      assert s + after == s;
    } else {
      var n := |after| - 1;
      assert (s + after)[..|s + after| - 1] == s + after[..n];
      TrimRightSpaceIs(s, after[..n]);
    }
  }

  lemma {:induction false} VerbsInAre(pieces: seq<string>)
    ensures forall m :: m in VerbsIn(pieces) <==>
      exists piece :: piece in pieces && IsHTTPMethod(ToUpper(piece)) && m == ToLower(piece)
  {
    if pieces != [] {
      var init, last := pieces[..|pieces| - 1], pieces[|pieces| - 1];
      VerbsInAre(init);
      assert pieces == init + [last];
    }
  }

  lemma {:induction false} VerbsAre(words: seq<string>)
    ensures forall m :: m in Verbs(words) <==>
      exists k, piece :: 0 <= k < |words| && piece in Split(words[k], '/')
        && IsHTTPMethod(ToUpper(piece)) && m == ToLower(piece)
  {
    if words != [] {
      var init, last := words[..|words| - 1], words[|words| - 1];
      VerbsAre(init);
      VerbsInAre(Split(last, '/'));
      forall k | 0 <= k < |init| ensures init[k] == words[k] {
      }
    }
  }

  // ---------------------------------------------------------------- extractFunctionBody

  /** Opening braces minus closing braces, read from the end. */
  function Depth(line: string): int {
    if line == "" then 0
    else
      Depth(line[..|line| - 1])
      + (if line[|line| - 1] == '{' then 1 else if line[|line| - 1] == '}' then -1 else 0)
  }

  function DepthOf(lines: seq<string>): int {
    if lines == [] then 0 else DepthOf(lines[..|lines| - 1]) + Depth(lines[|lines| - 1])
  }

  /** The depth of a text is what its opening braces outnumber its closing ones by. */
  lemma {:induction false} DepthCountsBraces(line: string)
    ensures Depth(line) + multiset(line)['}'] == multiset(line)['{']
  {
    if line != "" {
      var init, last := line[..|line| - 1], line[|line| - 1];
      DepthCountsBraces(init);
      assert line == init + [last];
    }
  }

  lemma {:induction false} DepthOfCountsBraces(lines: seq<string>)
    ensures var text := multiset(Unlines(lines)); DepthOf(lines) + text['}'] == text['{']
  {
    if lines != [] {
      var init, last := lines[..|lines| - 1], lines[|lines| - 1];
      DepthOfCountsBraces(init);
      DepthCountsBraces(last);
      var text := multiset(Unlines(lines));
      assert text == multiset(Unlines(init)) + multiset(last) + multiset("\n");
    }
  }

  function Unlines(lines: seq<string>): string {
    if lines == [] then "" else Unlines(lines[..|lines| - 1]) + lines[|lines| - 1] + "\n"
  }

  /** The body starts at the first line from `start` on with an opening brace and ends at the first line end
      from there at which the braces counted from `start` balance, or else with the file. */
  ghost predicate IsFunctionBody(lines: seq<string>, start: nat, first: nat, last: nat) {
    && start <= first <= last < |lines|
    && '{' in lines[first]
    && (forall k | start <= k < first :: '{' !in lines[k])
    && (BalancedAt(lines, start, last) || last == |lines| - 1)
    && (forall k | first <= k < last :: !BalancedAt(lines, start, k))
  }

  predicate BalancedAt(lines: seq<string>, start: nat, k: nat)
    requires start <= k < |lines|
  {
    DepthOf(lines[start..k + 1]) == 0
  }

  /** The text of a stretch of lines, each with its line end. */
  lemma {:induction false} UnlinesIsJoin(lines: seq<string>)
    ensures Unlines(lines) == Join(lines + [""], '\n')
  {
    if lines != [] {
      var init, last := lines[..|lines| - 1], lines[|lines| - 1];
      UnlinesIsJoin(init);
      JoinLast(init, last);
      assert lines + [""] == init + [last, ""];
    } else {
      assert lines + [""] == [""];
    }
  }

  lemma {:induction false} JoinLast(init: seq<string>, last: string)
    ensures Join(init + [last, ""], '\n') == Join(init + [""], '\n') + last + "\n"
  {
    if init == [] {
      assert init + [last, ""] == [last, ""] && init + [""] == [""];
      assert [last, ""][1..] == [""];
    } else {
      JoinLast(init[1..], last);
      assert (init + [last, ""])[1..] == init[1..] + [last, ""] && (init + [""])[1..] == init[1..] + [""];
    }
  }

  predicate StartsFunction(lines: seq<string>, start: nat) {
    start < |lines| && HasPrefix(TrimSpace(lines[start]), "func ")
  }

  method CountBraces(line: string, depth: int, before: bool) returns (braceDepth: int, started: bool)
    ensures braceDepth == depth + Depth(line)
    ensures braceDepth == depth + multiset(line)['{'] - multiset(line)['}']
    ensures started == (before || '{' in line)
  {
    braceDepth, started := depth, before;
    for j := 0 to |line|
      invariant braceDepth == depth + Depth(line[..j])
      invariant started == (before || '{' in line[..j])
    {
      assert line[..j + 1][..j] == line[..j];
      if line[j] == '{' {
        braceDepth := braceDepth + 1;
        started := true;
      } else if line[j] == '}' {
        braceDepth := braceDepth - 1;
      }
    }
    assert line[..|line|] == line;
    DepthCountsBraces(line);
  }

  /** The first line from `i` on with an opening brace, or the number of lines. */
  function FirstOpen(lines: seq<string>, i: nat): (r: nat)
    requires i <= |lines|
    ensures i <= r <= |lines| && (r < |lines| ==> '{' in lines[r])
    ensures forall k | i <= k < r :: '{' !in lines[k]
    decreases |lines| - i
  {
    if i == |lines| || '{' in lines[i] then i else FirstOpen(lines, i + 1)
  }

  /** The first line from `k` on at whose end the braces balance, or the last line. */
  function FirstBalanced(lines: seq<string>, start: nat, k: nat): (r: nat)
    requires start <= k < |lines|
    ensures k <= r < |lines| && (BalancedAt(lines, start, r) || r == |lines| - 1)
    ensures forall j | k <= j < r :: !BalancedAt(lines, start, j)
    decreases |lines| - k
  {
    if BalancedAt(lines, start, k) || k == |lines| - 1 then k else FirstBalanced(lines, start, k + 1)
  }

  function FunctionBody(lines: seq<string>, start: nat): string {
    if !StartsFunction(lines, start) then ""
    else
      var first := FirstOpen(lines, start);
      if first == |lines| then "" else Unlines(lines[first..FirstBalanced(lines, start, first) + 1])
  }

  /** The lines from `start` up to and with line `k` have as many opening as closing braces. */
  predicate HasEvenBraces(lines: seq<string>, start: nat, k: nat)
    requires start <= k < |lines|
  {
    var text := multiset(Unlines(lines[start..k + 1]));
    text['{'] == text['}']
  }

  /** From the first line at or after `start` with an opening brace to the first line end from there up to which the
      lines from `start` on have as many opening as closing braces, or else to the end of the file. */
  ghost predicate IsBalancedStretch(lines: seq<string>, start: nat, first: nat, last: nat) {
    && start <= first <= last < |lines|
    && '{' in lines[first] && (forall k | start <= k < first :: '{' !in lines[k])
    && (HasEvenBraces(lines, start, last) || last == |lines| - 1)
    && (forall k | first <= k < last :: !HasEvenBraces(lines, start, k))
  }

  lemma FunctionBodyIsBalanced(lines: seq<string>, start: nat, first: nat, last: nat)
    ensures IsBalancedStretch(lines, start, first, last) <==> IsFunctionBody(lines, start, first, last)
  {
    if start <= first <= last < |lines| {
      forall k | first <= k <= last
        ensures BalancedAt(lines, start, k) <==> HasEvenBraces(lines, start, k)
      {
        DepthOfCountsBraces(lines[start..k + 1]);
      }
    }
  }

  /** The text of a body is exactly that stretch of lines; without an opening brace there is none. */
  lemma FunctionBodyIsTheBalancedStretch(lines: seq<string>, start: nat)
    requires start < |lines| && HasPrefix(TrimSpace(lines[start]), "func ")
    ensures (forall k | start <= k < |lines| :: '{' !in lines[k]) ==> FunctionBody(lines, start) == ""
    ensures forall first: nat, last: nat :: IsBalancedStretch(lines, start, first, last) ==>
      FunctionBody(lines, start) == Unlines(lines[first..last + 1])
    ensures (exists k :: start <= k < |lines| && '{' in lines[k]) ==>
      exists first: nat, last: nat :: IsBalancedStretch(lines, start, first, last)
  {
    FunctionBodyIsTheStretch(lines, start);
    forall first: nat, last: nat
      ensures IsBalancedStretch(lines, start, first, last) <==> IsFunctionBody(lines, start, first, last)
    {
      FunctionBodyIsBalanced(lines, start, first, last);
    }
  }

  lemma FunctionBodyIsTheStretch(lines: seq<string>, start: nat)
    requires StartsFunction(lines, start)
    ensures (forall k | start <= k < |lines| :: '{' !in lines[k]) ==> FunctionBody(lines, start) == ""
    ensures forall first: nat, last: nat :: IsFunctionBody(lines, start, first, last) ==>
      FunctionBody(lines, start) == Unlines(lines[first..last + 1])
    ensures (exists k :: start <= k < |lines| && '{' in lines[k]) ==>
      exists first: nat, last: nat :: IsFunctionBody(lines, start, first, last)
  {
    var f := FirstOpen(lines, start);
    if f < |lines| {
      var l := FirstBalanced(lines, start, f);
      assert IsFunctionBody(lines, start, f, l);
      forall first: nat, last: nat | IsFunctionBody(lines, start, first, last)
        ensures FunctionBody(lines, start) == Unlines(lines[first..last + 1])
      {
        StretchIsUnique(lines, start, first, last, f, l);
      }
    }
  }

  /** Without a function on the first line there is no body. */
  lemma NoFunctionNoBody(lines: seq<string>, start: nat)
    requires start < |lines| ==> !HasPrefix(TrimSpace(lines[start]), "func ")
    ensures FunctionBody(lines, start) == ""
  {
  }

  lemma StretchIsUnique(lines: seq<string>, start: nat, first: nat, last: nat, first': nat, last': nat)
    requires IsFunctionBody(lines, start, first, last) && IsFunctionBody(lines, start, first', last')
    ensures first == first' && last == last'
  {
  }

  /** There is only one such stretch of lines. */
  lemma FunctionBodyIsUnique(lines: seq<string>, start: nat, first: nat, last: nat, first': nat, last': nat)
    requires IsBalancedStretch(lines, start, first, last) && IsBalancedStretch(lines, start, first', last')
    ensures first == first' && last == last'
  {
    FunctionBodyIsBalanced(lines, start, first, last);
    FunctionBodyIsBalanced(lines, start, first', last');
  }

  /** What the scan has found before line `i`; `first` is the line the body starts on, or `i` if none yet. */
  ghost predicate BodySoFar(
    lines: seq<string>, start: nat, first: nat, i: nat, depth: int, started: bool, body: string)
  {
    && start <= first <= i <= |lines|
    && depth == DepthOf(lines[start..i])
    && (if started then first < i && '{' in lines[first] && body == Unlines(lines[first..i])
        else first == i && body == "")
    && (forall k | start <= k < first :: '{' !in lines[k])
    && (forall k | first <= k < i :: !BalancedAt(lines, start, k))
  }

  /** One more line either goes on with the scan or ends the body. */
  lemma BodyOneMore(
    lines: seq<string>, start: nat, first: nat, i: nat, depth: int, started: bool, body: string, now: bool)
    requires BodySoFar(lines, start, first, i, depth, started, body) && i < |lines|
    requires now == (started || '{' in lines[i])
    ensures var after, text := depth + Depth(lines[i]), body + lines[i] + "\n";
      if !now then BodySoFar(lines, start, i + 1, i + 1, after, false, "")
      else if after != 0 then BodySoFar(lines, start, first, i + 1, after, true, text)
      else IsFunctionBody(lines, start, first, i) && text == Unlines(lines[first..i + 1])
  {
    assert lines[start..i + 1][..i - start] == lines[start..i];
    assert lines[first..i + 1][..i - first] == lines[first..i];
    assert BalancedAt(lines, start, i) <==> depth + Depth(lines[i]) == 0;
  }

  lemma BodyAtEnd(lines: seq<string>, start: nat, first: nat, depth: int, started: bool, body: string)
    requires StartsFunction(lines, start) && BodySoFar(lines, start, first, |lines|, depth, started, body)
    ensures body == FunctionBody(lines, start)
  {
    FunctionBodyIsTheStretch(lines, start);
    if started {
      assert IsFunctionBody(lines, start, first, |lines| - 1);
    }
  }

  method ExtractFunctionBody(lines: seq<string>, start: nat) returns (body: string)
    ensures body == FunctionBody(lines, start)
  {
    body := "";
    if start >= |lines| || !HasPrefix(TrimSpace(lines[start]), "func ") {
      return;
    }
    var braceDepth, started := 0, false;
    ghost var first: nat := start;
    for i := start to |lines|
      invariant BodySoFar(lines, start, first, i, braceDepth, started, body)
    {
      ghost var depth, before := braceDepth, started;
      braceDepth, started := CountBraces(lines[i], braceDepth, started);
      BodyOneMore(lines, start, first, i, depth, before, body, started);
      if started {
        body := body + lines[i] + "\n";
      } else {
        first := i + 1;
      }
      if started && braceDepth == 0 {
        FunctionBodyIsTheStretch(lines, start);
        return;
      }
    }
    BodyAtEnd(lines, start, first, braceDepth, started, body);
  }
}
