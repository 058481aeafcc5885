/** Templated paths: the two regular expressions of scripts/gen-openapi as leftmost scanners,
    path normalisation, and the key under which an endpoint is looked up. */
module PathTemplates {
  import opened Text

  predicate Inside(u: string, stopAtColon: bool) {
    forall i | 0 <= i < |u| :: u[i] != '}' && (stopAtColon ==> u[i] != ':')
  }

  /** Length of the longest prefix of `s` without '}' and, for a parameter name, without ':'. */
  function Span(s: string, stopAtColon: bool): (n: nat)
    ensures n <= |s|
    ensures Inside(s[..n], stopAtColon)
    ensures n < |s| ==> s[n] == '}' || (stopAtColon && s[n] == ':')
  {
    if s == "" || s[0] == '}' || (stopAtColon && s[0] == ':') then 0
    else 1 + Span(s[1..], stopAtColon)
  }

  datatype Match = NoMatch | Match(nameLen: nat, length: nat)

  /** openAPIPathRegex anchored at the start of `s`: "{", a name without '}' and ':',
      optionally ':' and a constraint without '}', then "}". */
  function MatchTemplate(s: string): (m: Match)
    ensures m.Match? ==> 0 < m.nameLen && m.nameLen + 2 <= m.length <= |s|
  {
    if s == "" || s[0] != '{' then NoMatch
    else
      var k := Span(s[1..], true);
      if k == 0 || 1 + k == |s| then NoMatch
      else if s[1 + k] == '}' then Match(k, k + 2)
      else
        var c := Span(s[k + 2..], false);
        if c == 0 || k + 2 + c == |s| then NoMatch else Match(k, k + c + 3)
  }

  /** Regexp.ReplaceAllString: every leftmost match becomes "{name}" or "{}". */
  function Rewrite(s: string, keepName: bool): string
    decreases |s|
  {
    if s == "" then ""
    else
      match MatchTemplate(s)
      case NoMatch => [s[0]] + Rewrite(s[1..], keepName)
      case Match(k, n) => Braced(if keepName then s[1..1 + k] else "") + Rewrite(s[n..], keepName)
  }

  function Braced(name: string): string {
    "{" + name + "}"
  }

  function NormalizeOpenAPIPath(path: string): string {
    Rewrite(path, true)
  }

  function PathPattern(path: string): string {
    Rewrite(path, false)
  }

  function EndpointKey(verb: string, path: string): string {
    ToUpper(verb) + ":" + PathPattern(path)
  }

  /** pathParamPattern: the contents of every leftmost non-empty "{...}". */
  function ExtractPathParamNames(path: string): seq<string>
    decreases |path|
  {
    if path == "" then []
    else
      var k := Span(path[1..], false);
      if path[0] == '{' && 0 < k && 1 + k < |path| then
        [path[1..1 + k]] + ExtractPathParamNames(path[k + 2..])
      else
        ExtractPathParamNames(path[1..])
  }

  // ---------------------------------------------------------------- scanning facts

  /** The span of a text that starts with `u` and then stops is exactly `u`. */
  lemma {:induction false} SpanExact(u: string, rest: string, stopAtColon: bool)
    requires Inside(u, stopAtColon)
    requires rest == "" || rest[0] == '}' || (stopAtColon && rest[0] == ':')
    ensures Span(u + rest, stopAtColon) == |u|
  {
    if u == "" {
      assert u + rest == rest;
    } else {
      assert (u + rest)[1..] == u[1..] + rest;
      SpanExact(u[1..], rest, stopAtColon);
    }
  }

  lemma MatchBraced(name: string, rest: string)
    requires name != "" && Inside(name, true)
    ensures MatchTemplate(Braced(name) + rest) == Match(|name|, |name| + 2)
    ensures (Braced(name) + rest)[1..1 + |name|] == name
    ensures (Braced(name) + rest)[|name| + 2..] == rest
  {
    var s := Braced(name) + rest;
    assert s[1..] == name + ("}" + rest);
    SpanExact(name, "}" + rest, true);
  }

  /** What the expression matches at the start of `s`: a braced name, or a braced name and constraint. */
  predicate IsTemplateWith(s: string, name: string, inside: string, rest: string) {
    && name != "" && '}' !in name && ':' !in name
    && s == "{" + inside + "}" + rest
    && (inside == name || (HasPrefix(inside, name + ":") && |inside| > |name| + 1 && '}' !in inside[|name| + 1..]))
  }

  ghost predicate StartsWithTemplate(s: string, nameLen: nat, length: nat) {
    exists name, inside, rest :: IsTemplateWith(s, name, inside, rest) && |name| == nameLen && length == |inside| + 2
  }

  /** The scanner matches exactly the templates, and all of them. */
  lemma MatchIsATemplate(s: string, nameLen: nat, length: nat)
    ensures MatchTemplate(s) == Match(nameLen, length) <==> StartsWithTemplate(s, nameLen, length)
  {
    if MatchTemplate(s) == Match(nameLen, length) {
      TemplateOfMatch(s, nameLen, length);
    }
    if name, inside, rest :| IsTemplateWith(s, name, inside, rest) && |name| == nameLen && length == |inside| + 2 {
      MatchOfTemplate(s, name, inside, rest);
    }
  }

  lemma MatchOfTemplate(s: string, name: string, inside: string, rest: string)
    requires IsTemplateWith(s, name, inside, rest)
    ensures MatchTemplate(s) == Match(|name|, |inside| + 2)
  {
    if inside == name {
      assert s == Braced(name) + rest;
      MatchBraced(name, rest);
    } else {
      var c := inside[|name| + 1..];
      assert inside == name + ":" + c;
      assert s == Braced(name + ":" + c) + rest;
      MatchParameter(name, c, rest);
    }
  }

  lemma TemplateOfMatch(s: string, nameLen: nat, length: nat)
    requires MatchTemplate(s) == Match(nameLen, length)
    ensures StartsWithTemplate(s, nameLen, length)
  {
    var k := Span(s[1..], true);
    var name := s[1..][..k];
    assert nameLen == k && '}' !in name && ':' !in name;
    if s[1 + k] == '}' {
      PartsOfTemplate(s, k);
      assert s[1..k + 1] == name;
      assert IsTemplateWith(s, name, name, s[k + 2..]);
    } else {
      var t := s[k + 2..];
      var c := Span(t, false);
      assert t[c] == '}' && t[c] == s[k + 2 + c] && '}' !in t[..c];
      var inside := s[1..k + c + 2];
      PartsOfTemplate(s, k + c + 1);
      assert inside[..k + 1] == name + ":" by { assert s[1..][k] == ':'; }
      assert inside[k + 1..] == t[..c];
      assert IsTemplateWith(s, name, inside, s[k + c + 3..]);
    }
  }

  lemma PartsOfTemplate(s: string, n: nat)
    requires n + 2 <= |s| && s[0] == '{' && s[n + 1] == '}'
    ensures s == "{" + s[1..n + 1] + "}" + s[n + 2..]
  {
  }

  /** Without a closing brace nothing matches, so nothing is rewritten. */
  lemma {:induction false} RewriteWithoutClose(s: string, keepName: bool)
    requires '}' !in s
    ensures MatchTemplate(s) == NoMatch
    ensures Rewrite(s, keepName) == s
  {
    if s != "" {
      RewriteWithoutClose(s[1..], keepName);
      assert s == [s[0]] + s[1..];
    }
  }

  /** A stretch `u` that runs into ":}" (or into '}' or ':' at once, when empty) contains no match start. */
  predicate Blocked(u: string, rest: string) {
    && Inside(u, true)
    && |rest| >= 2 && rest[0] == ':' && rest[1] == '}'
  }

  lemma {:induction false} RewriteBlocked(u: string, rest: string, keepName: bool)
    requires Blocked(u, rest)
    ensures Rewrite(u + rest, keepName) == u + Rewrite(rest, keepName)
  {
    if u == "" {
      assert u + rest == rest;
      assert u + Rewrite(rest, keepName) == Rewrite(rest, keepName);
    } else {
      BlockedHead(u, rest, keepName);
      RewriteBlocked(u[1..], rest, keepName);
      HeadAndTail(u, Rewrite(rest, keepName));
    }
  }

  lemma BlockedHead(u: string, rest: string, keepName: bool)
    requires Blocked(u, rest) && u != ""
    ensures Rewrite(u + rest, keepName) == [u[0]] + Rewrite(u[1..] + rest, keepName)
  {
    var s := u + rest;
    assert s[1..] == u[1..] + rest;
    BlockedIsNoMatch(u[1..], rest);
    assert s == [u[0]] + (u[1..] + rest);
  }

  lemma HeadAndTail(u: string, t: string)
    requires u != ""
    ensures [u[0]] + (u[1..] + t) == u + t
  {
  }

  /** A '{' that starts no match starts none after the text behind it has been rewritten either. */
  lemma NoMatchIsStable(s: string, keepName: bool)
    requires s != "" && MatchTemplate(s) == NoMatch
    ensures MatchTemplate([s[0]] + Rewrite(s[1..], keepName)) == NoMatch
  {
    var tail := s[1..];
    if s[0] != '{' {
    } else if '}' !in tail {
      RewriteWithoutClose(tail, keepName);
      assert [s[0]] + tail == s;
    } else if Span(tail, true) == 0 {
      assert Rewrite(tail, keepName)[0] == tail[0];
    } else {
      StoppedAtEmptyConstraint(s);
      var k := Span(tail, true);
      var u, rest := tail[..k], tail[k..];
      assert tail == u + rest;
      RewriteBlocked(u, rest, keepName);
      RewriteColonClose(rest, keepName);
      BlockedIsNoMatch(u, Rewrite(rest, keepName));
      assert [s[0]] + Rewrite(tail, keepName) == "{" + (u + Rewrite(rest, keepName));
    }
  }

  lemma RewriteColonClose(rest: string, keepName: bool)
    requires |rest| >= 2 && rest[0] == ':' && rest[1] == '}'
    ensures var out := Rewrite(rest, keepName); |out| >= 2 && out[0] == ':' && out[1] == '}'
  {
    var tail := rest[1..];
    assert Rewrite(tail, keepName) == [tail[0]] + Rewrite(tail[1..], keepName);
  }

  lemma BlockedIsNoMatch(u: string, rest: string)
    requires Blocked(u, rest)
    ensures MatchTemplate("{" + (u + rest)) == NoMatch
  {
    var s := "{" + (u + rest);
    assert s[1..] == u + rest;
    SpanExact(u, rest, true);
    if u != "" {
      assert s[|u| + 1] == ':';
      assert s[|u| + 2..] == rest[1..];
    }
  }

  lemma StoppedAtEmptyConstraint(s: string)
    requires s != "" && s[0] == '{' && MatchTemplate(s) == NoMatch
    requires '}' in s[1..] && Span(s[1..], true) > 0
    ensures var k := Span(s[1..], true); k + 2 < |s| && s[k + 1] == ':' && s[k + 2] == '}'
  {
    var tail := s[1..];
    var k := Span(tail, true);
    var j :| 0 <= j < |tail| && tail[j] == '}';
    assert k <= j;
    assert s[1 + k] == tail[k];
    var after := s[k + 2..];
    assert after[j - k - 1] == '}';
    assert Span(after, false) <= j - k - 1;
  }

  // ---------------------------------------------------------------- main results

  /** Normalising first changes neither the normal form nor the pattern. */
  lemma {:induction false} RewriteAfterNormalize(s: string, keepName: bool)
    ensures Rewrite(NormalizeOpenAPIPath(s), keepName) == Rewrite(s, keepName)
    decreases |s|
  {
    if s != "" {
      match MatchTemplate(s)
      case NoMatch =>
        NoMatchIsStable(s, true);
        RewriteAfterNormalize(s[1..], keepName);
      case Match(k, n) =>
        var name := s[1..1 + k];
        assert name == s[1..][..k];
        MatchBraced(name, NormalizeOpenAPIPath(s[n..]));
        RewriteAfterNormalize(s[n..], keepName);
    }
  }

  lemma NormalizeIsIdempotent(path: string)
    ensures NormalizeOpenAPIPath(NormalizeOpenAPIPath(path)) == NormalizeOpenAPIPath(path)
  {
    RewriteAfterNormalize(path, true);
  }

  lemma {:induction false} PatternIsIdempotent(path: string)
    ensures PathPattern(PathPattern(path)) == PathPattern(path)
    decreases |path|
  {
    if path != "" {
      match MatchTemplate(path)
      case NoMatch =>
        NoMatchIsStable(path, false);
        PatternIsIdempotent(path[1..]);
      case Match(k, n) =>
        var rest := PathPattern(path[n..]);
        var out := Braced("") + rest;
        var tail := "}" + rest;
        assert out == "{" + tail && out[1..] == tail && tail[1..] == rest;
        assert MatchTemplate(out) == NoMatch;
        assert PathPattern(tail) == "}" + PathPattern(rest);
        PatternIsIdempotent(path[n..]);
    }
  }

  lemma EndpointKeyIgnoresNormalization(verb: string, path: string)
    ensures EndpointKey(verb, NormalizeOpenAPIPath(path)) == EndpointKey(verb, path)
    ensures EndpointKey(verb, PathPattern(path)) == EndpointKey(verb, path)
    ensures EndpointKey(ToLower(verb), path) == EndpointKey(verb, path)
  {
    RewriteAfterNormalize(path, false);
    PatternIsIdempotent(path);
    CaseRoundTrips(verb);
  }

  /** A colon in the method text of one endpoint can stand for the colon between method and path of the other. */
  ghost predicate ColonIsShifted(verb: string, pattern: string, verb': string, pattern': string) {
    exists u :: verb == verb' + ":" + u && pattern' == u + ":" + pattern
  }

  /** Endpoints have one key exactly when their methods agree up to case and their paths have one pattern, unless a
      method text with a colon makes them run together; without colons there is no such case. */
  lemma EndpointKeyIsFaithful(verb: string, path: string, verb': string, path': string)
    ensures var a, b, p, q := ToUpper(verb), ToUpper(verb'), PathPattern(path), PathPattern(path');
      && (EndpointKey(verb, path) == EndpointKey(verb', path')
          <==> (a == b && p == q) || ColonIsShifted(a, p, b, q) || ColonIsShifted(b, q, a, p))
      && (':' !in verb && ':' !in verb' ==>
            (EndpointKey(verb, path) == EndpointKey(verb', path') <==> a == b && p == q))
  {
    var a, b, p, q := ToUpper(verb), ToUpper(verb'), PathPattern(path), PathPattern(path');
    ColonSplits(a, p, b, q);
    ColonSplits(b, q, a, p);
    if ':' !in verb && ':' !in verb' {
      assert ':' !in a && ':' !in b;
      ShiftNeedsColon(a, p, b, q);
      ShiftNeedsColon(b, q, a, p);
    }
  }

  lemma ShiftNeedsColon(a: string, p: string, b: string, q: string)
    ensures ColonIsShifted(a, p, b, q) ==> ':' in a
  {
    if u :| a == b + ":" + u && q == u + ":" + p {
      assert a[|b|] == ':';
    }
  }

  lemma ColonSplits(a: string, p: string, b: string, q: string)
    ensures ColonIsShifted(a, p, b, q) ==> a + ":" + p == b + ":" + q
    ensures |a| > |b| && a + ":" + p == b + ":" + q ==> ColonIsShifted(a, p, b, q)
    ensures |a| == |b| ==> (a + ":" + p == b + ":" + q <==> a == b && p == q)
  {
    var x, y := a + ":" + p, b + ":" + q;
    if u :| a == b + ":" + u && q == u + ":" + p {
      assert x == b + ":" + u + ":" + p == y;
    }
    if x == y {
      assert x[..|b|] == y[..|b|] == b && x[|b|] == y[|b|] == ':' && y[|b| + 1..] == q;
      if |a| > |b| {
        var u := a[|b| + 1..];
        assert x[..|b|] == a[..|b|] && x[|b|] == a[|b|];
        assert a == b + ":" + u;
        assert x[|b| + 1..] == u + ":" + p;
      } else if |a| == |b| {
        assert x[..|a|] == a && x[|a| + 1..] == p;
      }
    }
  }

  /** Such a pair: a route whose method text is "a:b". */
  lemma ColonMakesKeysRunTogether()
    ensures EndpointKey("a:b", "/c") == EndpointKey("a", "B:/c")
  {
    RewriteWithoutClose("/c", false);
    RewriteWithoutClose("B:/c", false);
    assert ToUpper("a:b") == "A:B" && ToUpper("a") == "A";
  }

  // ---------------------------------------------------------------- template syntax

  /** A path as its author thinks of it. */
  datatype Piece =
    | Literal(text: string)
    | Parameter(name: string, constraint: Option<string>)

  predicate WellFormed(pieces: seq<Piece>) {
    forall i | 0 <= i < |pieces| :: WellFormedPiece(pieces[i])
  }

  predicate WellFormedPiece(p: Piece) {
    match p
    case Literal(text) => '{' !in text
    case Parameter(name, constraint) =>
      && name != "" && Inside(name, true)
      && (constraint.Some? ==> constraint.value != "" && Inside(constraint.value, false))
  }

  function Render(pieces: seq<Piece>): string {
    if pieces == [] then "" else RenderPiece(pieces[0]) + Render(pieces[1..])
  }

  function RenderPiece(p: Piece): string {
    match p
    case Literal(text) => text
    case Parameter(name, None) => Braced(name)
    case Parameter(name, Some(c)) => Braced(name + ":" + c)
  }

  /** The template with constraints dropped, or with its parameters made anonymous. */
  function Erase(pieces: seq<Piece>, keepName: bool): string {
    if pieces == [] then ""
    else
      (match pieces[0]
       case Literal(text) => text
       case Parameter(name, _) => Braced(if keepName then name else ""))
      + Erase(pieces[1..], keepName)
  }

  function Names(pieces: seq<Piece>): seq<string> {
    if pieces == [] then []
    else (if pieces[0].Parameter? then [pieces[0].name] else []) + Names(pieces[1..])
  }

  lemma {:induction false} RewriteLiteral(text: string, rest: string, keepName: bool)
    requires '{' !in text
    ensures Rewrite(text + rest, keepName) == text + Rewrite(rest, keepName)
  {
    if text == "" {
      assert text + rest == rest && text + Rewrite(rest, keepName) == Rewrite(rest, keepName);
    } else {
      assert (text + rest)[1..] == text[1..] + rest;
      RewriteLiteral(text[1..], rest, keepName);
      assert [text[0]] + (text[1..] + Rewrite(rest, keepName)) == text + Rewrite(rest, keepName);
    }
  }

  lemma MatchParameter(name: string, constraint: string, rest: string)
    requires name != "" && Inside(name, true) && constraint != "" && Inside(constraint, false)
    ensures var s := Braced(name + ":" + constraint) + rest;
      && MatchTemplate(s) == Match(|name|, |name| + |constraint| + 3)
      && s[1..1 + |name|] == name
      && s[|name| + |constraint| + 3..] == rest
  {
    var s := Braced(name + ":" + constraint) + rest;
    assert s[1..] == name + (":" + constraint + "}" + rest);
    SpanExact(name, ":" + constraint + "}" + rest, true);
    assert s[|name| + 2..] == constraint + ("}" + rest);
    SpanExact(constraint, "}" + rest, false);
  }

  /** The scanners compute what the regular expressions mean on template syntax. */
  lemma {:induction false} RewriteRendered(pieces: seq<Piece>, keepName: bool)
    requires WellFormed(pieces)
    ensures Rewrite(Render(pieces), keepName) == Erase(pieces, keepName)
  {
    if pieces != [] {
      var rest := Render(pieces[1..]);
      RewriteRendered(pieces[1..], keepName);
      match pieces[0]
      case Literal(text) => RewriteLiteral(text, rest, keepName);
      case Parameter(name, None) =>
        RewriteParameter(name, name, rest, keepName);
      case Parameter(name, Some(c)) =>
        RewriteParameter(name, name + ":" + c, rest, keepName);
    }
  }

  lemma RewriteParameter(name: string, inside: string, rest: string, keepName: bool)
    requires IsTemplateWith(Braced(inside) + rest, name, inside, rest)
    ensures Rewrite(Braced(inside) + rest, keepName) == Braced(if keepName then name else "") + Rewrite(rest, keepName)
  {
    var s := Braced(inside) + rest;
    MatchOfTemplate(s, name, inside, rest);
    assert s[1..1 + |name|] == inside[..|name|] == name;
    assert s[|inside| + 2..] == rest;
  }

  /** Renaming or constraining the parameters of a template leaves its endpoint key alone. */
  lemma KeyIgnoresNamesAndConstraints(verb: string, a: seq<Piece>, b: seq<Piece>)
    requires WellFormed(a) && WellFormed(b) && |a| == |b|
    requires forall i | 0 <= i < |a| :: a[i] == b[i] || (a[i].Parameter? && b[i].Parameter?)
    ensures EndpointKey(verb, Render(a)) == EndpointKey(verb, Render(b))
  {
    RewriteRendered(a, false);
    RewriteRendered(b, false);
    EraseIgnoresNames(a, b);
  }

  lemma {:induction false} EraseIgnoresNames(a: seq<Piece>, b: seq<Piece>)
    requires |a| == |b|
    requires forall i | 0 <= i < |a| :: a[i] == b[i] || (a[i].Parameter? && b[i].Parameter?)
    ensures Erase(a, false) == Erase(b, false)
  {
    if a != [] {
      EraseIgnoresNames(a[1..], b[1..]);
    }
  }

  lemma {:induction false} NamesOfLiteral(text: string, rest: string)
    requires '{' !in text
    ensures ExtractPathParamNames(text + rest) == ExtractPathParamNames(rest)
  {
    if text == "" {
      assert text + rest == rest;
    } else {
      assert (text + rest)[1..] == text[1..] + rest;
      NamesOfLiteral(text[1..], rest);
    }
  }

  /** After normalisation the template names are read back in order, without their constraints. */
  lemma {:induction false} NamesOfNormalized(pieces: seq<Piece>)
    requires WellFormed(pieces)
    ensures ExtractPathParamNames(NormalizeOpenAPIPath(Render(pieces))) == Names(pieces)
  {
    RewriteRendered(pieces, true);
    NamesOfErased(pieces);
  }

  lemma {:induction false} NamesOfErased(pieces: seq<Piece>)
    requires WellFormed(pieces)
    ensures ExtractPathParamNames(Erase(pieces, true)) == Names(pieces)
  {
    if pieces != [] {
      var rest := Erase(pieces[1..], true);
      NamesOfErased(pieces[1..]);
      match pieces[0]
      case Literal(text) => NamesOfLiteral(text, rest);
      case Parameter(name, _) => NamesOfBraced(name, rest);
    }
  }

  /** Between braces everything but a closing brace is a name; what is between no braces is none. */
  lemma NamesOfBraced(name: string, rest: string)
    requires name != "" && '}' !in name
    ensures ExtractPathParamNames(Braced(name) + rest) == [name] + ExtractPathParamNames(rest)
  {
    var s := Braced(name) + rest;
    assert s[1..] == name + ("}" + rest);
    SpanExact(name, "}" + rest, false);
    assert s[1..1 + |name|] == name && s[|name| + 2..] == rest;
  }

  lemma {:induction false} NamesWithoutBraces(s: string, rest: string)
    ensures '}' !in s ==> ExtractPathParamNames(s) == []
    ensures ExtractPathParamNames("{}" + rest) == ExtractPathParamNames(rest)
  {
    if s != "" {
      NamesWithoutBraces(s[1..], rest);
    }
    assert ("{}" + rest)[1..] == "}" + rest && ("}" + rest)[1..] == rest;
  }
}
