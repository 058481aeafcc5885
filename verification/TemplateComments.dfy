/** What becomes of "Path param:" comments: the defaults derived from the path are merged over them
    (discover.go:126), and the result refines the parameters of the route (mergeDiscoveredPathParams). */
module PathComments {
  import opened Text
  import opened Ordering
  import opened Params
  import opened DefaultTables
  import opened PathTemplates
  import opened Parameters
  import opened HandlerFile

  // ---------------------------------------------------------------- the merged items

  predicate LastOfName(s: seq<ParamDef>, i: nat)
    requires i < |s|
  {
    forall j | i < j < |s| :: s[j].name != s[i].name
  }

  /** A comment after the merge: the last one about a template name has become its default. */
  function Settled(defaults: Defaults, comments: seq<ParamDef>, names: seq<string>, i: nat): ParamDef
    requires i < |comments|
  {
    if comments[i].name in names && LastOfName(comments, i) then PathDefault(defaults, comments[i].name)
    else comments[i]
  }

  function AllDefaults(defaults: Defaults, names: seq<string>): (r: seq<ParamDef>)
    ensures |r| == |names|
  {
    seq(|names|, i requires 0 <= i < |names| => PathDefault(defaults, names[i]))
  }

  /** The index knows the last item of every key, and a commented key leads to a comment. */
  ghost predicate IndexesLast(comments: seq<ParamDef>, acc: Accumulator)
    requires acc.Valid()
  {
    && (forall k :: k in acc.index ==> ParamKey(acc.items[acc.index[k]]) == k)
    && (forall i | 0 <= i < |acc.items| ::
          ParamKey(acc.items[i]) in acc.index && i <= acc.index[ParamKey(acc.items[i])])
    && (forall i | 0 <= i < |comments| && i < |acc.items| :: acc.index[ParamKey(acc.items[i])] < |comments|)
  }

  predicate ItemsAre(defaults: Defaults, comments: seq<ParamDef>, names: seq<string>, items: seq<ParamDef>) {
    && |comments| <= |items| && PlainPath(items)
    && (forall i | 0 <= i < |comments| :: items[i] == Settled(defaults, comments, names, i))
    && (forall i | |comments| <= i < |items| ::
          items[i].name in names && items[i] == PathDefault(defaults, items[i].name))
    && (forall n | n in names :: PathDefault(defaults, n) in items)
  }

  lemma {:induction false} AppendAllIndexesLast(base: seq<ParamDef>)
    ensures IndexesLast(base, AppendAll(base))
  {
    if base != [] {
      AppendAllIndexesLast(base[..|base| - 1]);
    }
  }

  /** The state of the merge when the defaults of `names` have been merged over the comments. */
  ghost predicate MergedSoFar(defaults: Defaults, comments: seq<ParamDef>, names: seq<string>, acc: Accumulator) {
    acc.Valid() && ItemsAre(defaults, comments, names, acc.items) && IndexesLast(comments, acc)
  }

  lemma {:induction false} DefaultsAreMergedOver(defaults: Defaults, comments: seq<ParamDef>, names: seq<string>)
    requires PlainPath(comments)
    ensures MergedSoFar(defaults, comments, names, AbsorbAll(AppendAll(comments), AllDefaults(defaults, names)))
  {
    var all := AbsorbAll(AppendAll(comments), AllDefaults(defaults, names));
    if names == [] {
      NothingMergedYet(defaults, comments);
      assert AllDefaults(defaults, names) == [] && all == AppendAll(comments);
    } else {
      var n := |names| - 1;
      var acc := AbsorbAll(AppendAll(comments), AllDefaults(defaults, names[..n]));
      DefaultsAreMergedOver(defaults, comments, names[..n]);
      LastDefault(defaults, AppendAll(comments), names);
      NextDefault(defaults, comments, names, acc, all);
    }
  }

  lemma NothingMergedYet(defaults: Defaults, comments: seq<ParamDef>)
    requires PlainPath(comments)
    ensures MergedSoFar(defaults, comments, [], AppendAll(comments))
  {
    AppendAllIndexesLast(comments);
  }

  lemma NextDefault(
    defaults: Defaults, comments: seq<ParamDef>, names: seq<string>, acc: Accumulator, after: Accumulator)
    requires PlainPath(comments) && names != []
    requires MergedSoFar(defaults, comments, names[..|names| - 1], acc)
    requires after == Absorb(acc, PathDefault(defaults, names[|names| - 1]))
    ensures MergedSoFar(defaults, comments, names, after)
  {
    var init, last := names[..|names| - 1], names[|names| - 1];
    assert init + [last] == names;
    DefaultIsMergedOver(defaults, comments, init, acc, last);
  }

  lemma LastDefault(defaults: Defaults, acc: Accumulator, names: seq<string>)
    requires acc.Valid() && names != []
    ensures var n := |names| - 1;
      AbsorbAll(acc, AllDefaults(defaults, names))
      == Absorb(AbsorbAll(acc, AllDefaults(defaults, names[..n])), PathDefault(defaults, names[n]))
  {
    var n := |names| - 1;
    assert AllDefaults(defaults, names)[..n] == AllDefaults(defaults, names[..n]);
  }

  lemma DefaultIsMergedOver(
    defaults: Defaults, comments: seq<ParamDef>, names: seq<string>, acc: Accumulator, n: string)
    requires PlainPath(comments) && acc.Valid()
    requires ItemsAre(defaults, comments, names, acc.items) && IndexesLast(comments, acc)
    ensures MergedSoFar(defaults, comments, names + [n], Absorb(acc, PathDefault(defaults, n)))
  {
    var d := PathDefault(defaults, n);
    forall i | 0 <= i < |acc.items|
      ensures ParamKey(acc.items[i]) == ParamKey(d) <==> acc.items[i].name == n
    {
      KeyIsInjective(acc.items[i], d);
    }
    if ParamKey(d) in acc.index {
      DefaultReplacesLast(defaults, comments, names, acc, n);
    } else {
      DefaultIsNew(defaults, comments, names, acc, n);
    }
  }

  lemma DefaultReplacesLast(
    defaults: Defaults, comments: seq<ParamDef>, names: seq<string>, acc: Accumulator, n: string)
    requires PlainPath(comments) && acc.Valid()
    requires ItemsAre(defaults, comments, names, acc.items) && IndexesLast(comments, acc)
    requires forall i | 0 <= i < |acc.items| ::
      ParamKey(acc.items[i]) == ParamKey(PathDefault(defaults, n)) <==> acc.items[i].name == n
    requires ParamKey(PathDefault(defaults, n)) in acc.index
    ensures MergedSoFar(defaults, comments, names + [n], Absorb(acc, PathDefault(defaults, n)))
  {
    var d := PathDefault(defaults, n);
    var at := acc.index[ParamKey(d)];
    assert Override(acc.items[at], d) == d;
    IndexStays(comments, acc, at, d);
    forall i | 0 <= i < |comments| && comments[i].name == n
      ensures i <= at < |comments|
    {
      assert acc.items[i].name == n;
    }
    ReplacedItems(defaults, comments, names, acc.items, at, n);
  }

  lemma IndexStays(comments: seq<ParamDef>, acc: Accumulator, at: nat, d: ParamDef)
    requires acc.Valid() && IndexesLast(comments, acc)
    requires at < |acc.items| && ParamKey(d) == ParamKey(acc.items[at])
    ensures IndexesLast(comments, acc.(items := acc.items[at := d]))
  {
    var after := acc.(items := acc.items[at := d]);
    assert forall i | 0 <= i < |acc.items| :: ParamKey(after.items[i]) == ParamKey(acc.items[i]);
  }

  lemma ReplacedItems(
    defaults: Defaults, comments: seq<ParamDef>, names: seq<string>, items: seq<ParamDef>, at: nat, n: string)
    requires ItemsAre(defaults, comments, names, items) && at < |items| && items[at].name == n
    requires forall i | 0 <= i < |comments| && comments[i].name == n :: i <= at < |comments|
    ensures ItemsAre(defaults, comments, names + [n], items[at := PathDefault(defaults, n)])
  {
    var after := items[at := PathDefault(defaults, n)];
    forall i | 0 <= i < |comments|
      ensures after[i] == Settled(defaults, comments, names + [n], i)
    {
      assert items[i].name == comments[i].name;
    }
    assert after[at] == PathDefault(defaults, n);
    forall m | m in names + [n]
      ensures PathDefault(defaults, m) in after
    {
      if m != n {
        var k :| 0 <= k < |items| && items[k] == PathDefault(defaults, m);
        assert after[k] == PathDefault(defaults, m);
      }
    }
  }

  lemma DefaultIsNew(
    defaults: Defaults, comments: seq<ParamDef>, names: seq<string>, acc: Accumulator, n: string)
    requires PlainPath(comments) && acc.Valid()
    requires ItemsAre(defaults, comments, names, acc.items) && IndexesLast(comments, acc)
    requires forall i | 0 <= i < |acc.items| ::
      ParamKey(acc.items[i]) == ParamKey(PathDefault(defaults, n)) <==> acc.items[i].name == n
    requires ParamKey(PathDefault(defaults, n)) !in acc.index
    ensures MergedSoFar(defaults, comments, names + [n], Absorb(acc, PathDefault(defaults, n)))
  {
    IndexGrows(comments, acc, PathDefault(defaults, n));
    forall i | 0 <= i < |comments|
      ensures comments[i].name != n
    {
      assert acc.items[i].name == comments[i].name;
      assert ParamKey(acc.items[i]) in acc.index;
    }
    AppendedItems(defaults, comments, names, acc.items, n);
  }

  lemma IndexGrows(comments: seq<ParamDef>, acc: Accumulator, d: ParamDef)
    requires acc.Valid() && IndexesLast(comments, acc) && ParamKey(d) !in acc.index && |comments| <= |acc.items|
    ensures IndexesLast(comments, Append(acc, d))
  {
  }

  lemma AppendedItems(
    defaults: Defaults, comments: seq<ParamDef>, names: seq<string>, items: seq<ParamDef>, n: string)
    requires ItemsAre(defaults, comments, names, items)
    requires forall i | 0 <= i < |comments| :: comments[i].name != n
    ensures ItemsAre(defaults, comments, names + [n], items + [PathDefault(defaults, n)])
  {
    var after := items + [PathDefault(defaults, n)];
    assert after[|items|] == PathDefault(defaults, n);
    forall m | m in names
      ensures PathDefault(defaults, m) in after
    {
      var k :| 0 <= k < |items| && items[k] == PathDefault(defaults, m);
      assert after[k] == PathDefault(defaults, m);
    }
  }

  lemma MergedItems(defaults: Defaults, comments: seq<ParamDef>, path: string)
    requires PlainPath(comments)
    ensures ItemsAre(defaults, comments, ExtractPathParamNames(path),
                     MergeItems(comments, PathParamsFromOpenAPIPath(defaults, path)))
  {
    var names := ExtractPathParamNames(path);
    DefaultsAreMergedOver(defaults, comments, names);
    assert AllDefaults(defaults, names) == PathParamsFromOpenAPIPath(defaults, path);
  }

  // ---------------------------------------------------------------- which comments survive

  /** Every comment about `name` but the last one says what the default says. */
  predicate EarlierCommentsAgree(defaults: Defaults, comments: seq<ParamDef>, name: string) {
    forall i, j | 0 <= i < j < |comments| && comments[i].name == name && comments[j].name == name ::
      comments[i] == PathDefault(defaults, name)
  }

  /** The last comment about a parameter of the path is always lost: the default has taken its place. An earlier one
      about the same parameter survives beside the default, so only the default is left exactly when every earlier
      comment says the same anyway. */
  lemma OnlyDefaultIsLeftExactlyWhen(
    defaults: Defaults, comments: seq<ParamDef>, path: string, r: seq<ParamDef>, name: string)
    requires PlainPath(comments) && IsMerge(comments, PathParamsFromOpenAPIPath(defaults, path), r)
    requires name in ExtractPathParamNames(path)
    ensures PathDefault(defaults, name) in r
    ensures (forall p :: p in r && p.name == name ==> p == PathDefault(defaults, name))
      <==> EarlierCommentsAgree(defaults, comments, name)
  {
    var d, items := PathDefault(defaults, name), MergeItems(comments, PathParamsFromOpenAPIPath(defaults, path));
    MergedItems(defaults, comments, path);
    SameMembers(items, r);
    if forall p :: p in r && p.name == name ==> p == d {
      forall i, j | 0 <= i < j < |comments| && comments[i].name == name && comments[j].name == name
        ensures comments[i] == d
      {
        assert items[i] == comments[i];
        assert items[i] in items;
      }
    }
    if EarlierCommentsAgree(defaults, comments, name) {
      forall p | p in r && p.name == name
        ensures p == d
      {
        var i :| 0 <= i < |items| && items[i] == p;
        if i < |comments| && !LastOfName(comments, i) {
          var j :| i < j < |comments| && comments[j].name == comments[i].name;
        }
      }
    }
  }

  lemma SameMembers(s: seq<ParamDef>, r: seq<ParamDef>)
    requires multiset(s) == multiset(r)
    ensures forall p :: p in s <==> p in r
  {
    forall p
      ensures p in s <==> p in r
    {
      assert p in multiset(s) <==> p in multiset(r);
    }
  }

  // ---------------------------------------------------------------- sorts of one list

  function NamesOf(s: seq<ParamDef>): (r: seq<string>)
    ensures |r| == |s|
  {
    seq(|s|, i requires 0 <= i < |s| => s[i].name)
  }

  predicate InOrder(names: seq<string>) {
    forall i, j | 0 <= i < j < |names| :: !StringLess(names[j], names[i])
  }

  lemma RemoveAt<T>(s: seq<T>, j: nat)
    requires j < |s|
    ensures multiset(s) == multiset{s[j]} + multiset(s[..j] + s[j + 1..])
  {
    assert s == s[..j] + [s[j]] + s[j + 1..];
  }

  lemma Heads<T>(s: seq<T>)
    requires s != []
    ensures s == [s[0]] + s[1..] && multiset(s) == multiset{s[0]} + multiset(s[1..])
  {
    assert s == [s[0]] + s[1..];
  }

  lemma Cancel<T>(x: T, b: multiset<T>, c: multiset<T>)
    requires multiset{x} + b == multiset{x} + c
    ensures b == c
  {
    forall y
      ensures b[y] == c[y]
    {
      assert (multiset{x} + b)[y] == (multiset{x} + c)[y];
    }
  }

  lemma SmallestHeadsAgree(a: seq<string>, b: seq<string>)
    requires InOrder(a) && InOrder(b) && multiset(a) == multiset(b) && a != []
    ensures b != [] && a[0] == b[0]
  {
    assert a[0] in multiset(b);
    var j :| 0 <= j < |b| && b[j] == a[0];
    assert b[0] in multiset(a);
    var i :| 0 <= i < |a| && a[i] == b[0];
    LessIsTotal(a[0], b[0]);
  }

  lemma {:induction false} OrderedNamesAreUnique(a: seq<string>, b: seq<string>)
    requires InOrder(a) && InOrder(b) && multiset(a) == multiset(b)
    ensures a == b
  {
    if a == [] {
      assert |multiset(b)| == 0;
    } else {
      SmallestHeadsAgree(a, b);
      Heads(a);
      Heads(b);
      Cancel(a[0], multiset(a[1..]), multiset(b[1..]));
      OrderedNamesAreUnique(a[1..], b[1..]);
    }
  }

  lemma {:induction false} SameNames(r: seq<ParamDef>, q: seq<ParamDef>)
    requires multiset(r) == multiset(q)
    ensures multiset(NamesOf(r)) == multiset(NamesOf(q))
  {
    if r == [] {
      assert |multiset(q)| == 0;
      assert NamesOf(r) == NamesOf(q);
    } else {
      assert r[0] in multiset(q);
      var j :| 0 <= j < |q| && q[j] == r[0];
      var rest := q[..j] + q[j + 1..];
      Heads(r);
      RemoveAt(q, j);
      Cancel(r[0], multiset(r[1..]), multiset(rest));
      SameNames(r[1..], rest);
      NamesWithout(r, 0);
      NamesWithout(q, j);
    }
  }

  lemma NamesWithout(s: seq<ParamDef>, j: nat)
    requires j < |s|
    ensures multiset(NamesOf(s)) == multiset{s[j].name} + multiset(NamesOf(s[..j] + s[j + 1..]))
    ensures j == 0 ==> s[..j] + s[j + 1..] == s[1..]
  {
    RemoveAt(NamesOf(s), j);
    assert NamesOf(s[..j] + s[j + 1..]) == NamesOf(s)[..j] + NamesOf(s)[j + 1..];
  }

  /** All sorts of a list of path parameters have the same names at the same places. */
  lemma SortsAgreeOnNames(s: seq<ParamDef>, r: seq<ParamDef>, q: seq<ParamDef>)
    requires InPath(s) && IsSortOf(s, r) && IsSortOf(s, q)
    ensures |r| == |q| && forall i | 0 <= i < |r| :: r[i].name == q[i].name
  {
    SortedNames(s, r);
    SortedNames(s, q);
    SameNames(r, q);
    OrderedNamesAreUnique(NamesOf(r), NamesOf(q));
    forall i | 0 <= i < |r|
      ensures r[i].name == q[i].name
    {
      assert NamesOf(r)[i] == NamesOf(q)[i];
    }
  }

  lemma SortedNames(s: seq<ParamDef>, r: seq<ParamDef>)
    requires InPath(s) && IsSortOf(s, r)
    ensures InPath(r) && InOrder(NamesOf(r))
  {
    SameMembers(s, r);
    forall i | 0 <= i < |r|
      ensures r[i].location == "path"
    {
      assert r[i] in s;
    }
    forall i, j | 0 <= i < j < |r|
      ensures !StringLess(NamesOf(r)[j], NamesOf(r)[i])
    {
      assert !ParamLess(r[j], r[i]);
    }
  }

  /** Entries of one name may stand in any order. */
  lemma SwapIsASort(s: seq<ParamDef>, r: seq<ParamDef>, i: nat, j: nat)
    requires InPath(s) && IsSortOf(s, r) && i < |r| && j < |r| && r[i].name == r[j].name
    ensures IsSortOf(s, r[i := r[j]][j := r[i]])
  {
    var t := r[i := r[j]][j := r[i]];
    SortedNames(s, r);
    assert multiset(t) == multiset(r);
    forall k | 0 <= k < |r|
      ensures t[k].name == r[k].name && t[k].location == "path"
    {
    }
    forall k, l | 0 <= k < l < |t|
      ensures !ParamLess(t[l], t[k])
    {
      assert !ParamLess(r[l], r[k]);
    }
  }

  lemma {:induction false} ByNameIsLast(r: seq<ParamDef>, k: nat)
    requires k < |r| && LastOfName(r, k)
    ensures r[k].name in ByName(r) && ByName(r)[r[k].name] == r[k]
  {
    if k < |r| - 1 {
      assert r[|r| - 1].name != r[k].name;
      ByNameIsLast(r[..|r| - 1], k);
    }
  }

  lemma {:induction false} LastWithName(r: seq<ParamDef>, k: nat) returns (last: nat)
    requires k < |r|
    ensures k <= last < |r| && r[last].name == r[k].name && LastOfName(r, last)
    decreases |r| - k
  {
    if LastOfName(r, k) {
      last := k;
    } else {
      var j :| k < j < |r| && r[j].name == r[k].name;
      last := LastWithName(r, j);
    }
  }

  // ---------------------------------------------------------------- what shows

  /** Plain, and typed by its name, as the scan makes the comments and the defaults. */
  predicate AsWritten(defaults: Defaults, s: seq<ParamDef>) {
    PlainPath(s) && forall i | 0 <= i < |s| :: s[i].kind == defaults.pathSchema(s[i].name).kind
  }

  predicate SaysNothingNew(description: string, default: string) {
    description == "" || description == default
  }

  /** The override of `name` sets the description itself. */
  predicate Masked(overrides: map<string, ParamDef>, name: string) {
    name in overrides && overrides[name].location == "path" && overrides[name].description != ""
  }

  function Shown(defaults: Defaults, i: nat, name: string, r: seq<ParamDef>): string
    requires name in ByName(r)
  {
    var own, default := ByName(r)[name].description, defaults.pathDescription(name);
    if own != "" then own
    else if i < |r| && r[i].description != "" then r[i].description
    else default
  }

  lemma ShownParam(defaults: Defaults, i: nat, name: string, r: seq<ParamDef>, overrides: map<string, ParamDef>)
    requires AsWritten(defaults, r) && name in ByName(r)
    ensures PathParamFor(defaults, i, name, r, overrides)
      == RefineFrom(PathDefault(defaults, name).(description := Shown(defaults, i, name, r)), overrides)
  {
    ByNameKeepsNames(r);
  }

  lemma ShowsDefaultExactlyWhen(
    defaults: Defaults, i: nat, name: string, r: seq<ParamDef>, overrides: map<string, ParamDef>)
    requires AsWritten(defaults, r) && name in ByName(r)
    ensures PathParamFor(defaults, i, name, r, overrides) == PathParamFor(defaults, i, name, [], overrides)
      <==> Masked(overrides, name) || Shown(defaults, i, name, r) == defaults.pathDescription(name)
  {
    ShownParam(defaults, i, name, r, overrides);
    var d := PathDefault(defaults, name);
    assert PathParamFor(defaults, i, name, [], overrides) == RefineFrom(d, overrides);
    assert d.(description := d.description) == d;
  }

  /** No comment shows in the i-th parameter of the path. An earlier comment about it must say nothing new; if one of
      them says nothing at all, then neither may any entry that can stand at the i-th place of the merge. */
  ghost predicate Hidden(defaults: Defaults, comments: seq<ParamDef>, path: string, i: nat)
    requires i < |ExtractPathParamNames(path)|
  {
    var s := PathParamsFromOpenAPIPath(defaults, path);
    var name := ExtractPathParamNames(path)[i];
    var default := defaults.pathDescription(name);
    && (forall a | IsEarlier(comments, a, name) :: SaysNothingNew(comments[a].description, default))
    && ((exists a :: IsEarlier(comments, a, name) && comments[a].description == "") ==>
          RowSaysNothingNew(MergeItems(comments, s), Merge(comments, s), i, name, default))
  }

  predicate IsEarlier(comments: seq<ParamDef>, a: int, name: string) {
    0 <= a < |comments| && comments[a].name == name && !LastOfName(comments, a)
  }

  predicate RowSaysNothingNew(items: seq<ParamDef>, sorted: seq<ParamDef>, i: nat, name: string, default: string) {
    i < |sorted| && sorted[i].name != name ==>
      forall k | 0 <= k < |items| && items[k].name == sorted[i].name :: SaysNothingNew(items[k].description, default)
  }

  /** Over every admissible sort: path-parameter comments, and the positional fallback with them, never show in the
      parameters of the endpoint's own path exactly when each of these is hidden or has its description overridden. */
  lemma CommentsNeverShowExactlyWhen(
    defaults: Defaults, comments: seq<ParamDef>, path: string, overrides: map<string, ParamDef>)
    requires AsWritten(defaults, comments)
    ensures var names := ExtractPathParamNames(path);
      (forall r :: IsMerge(comments, PathParamsFromOpenAPIPath(defaults, path), r) ==>
        PathParams(defaults, names, r, overrides) == PathParams(defaults, names, [], overrides))
      <==> forall i | 0 <= i < |names| :: Masked(overrides, names[i]) || Hidden(defaults, comments, path, i)
  {
    var names, s := ExtractPathParamNames(path), PathParamsFromOpenAPIPath(defaults, path);
    if forall i | 0 <= i < |names| :: Masked(overrides, names[i]) || Hidden(defaults, comments, path, i) {
      forall r | IsMerge(comments, s, r)
        ensures PathParams(defaults, names, r, overrides) == PathParams(defaults, names, [], overrides)
      {
        forall i | 0 <= i < |names|
          ensures
            PathParamFor(defaults, i, names[i], r, overrides) == PathParamFor(defaults, i, names[i], [], overrides)
        {
          HiddenIsNotShown(defaults, comments, path, r, i, overrides);
        }
      }
    }
    if i :| 0 <= i < |names| && !Masked(overrides, names[i]) && !Hidden(defaults, comments, path, i) {
      var r := ShowingSort(defaults, comments, path, i);
      MergeIsAsWritten(defaults, comments, path, r);
      ShowsDefaultExactlyWhen(defaults, i, names[i], r, overrides);
      assert PathParams(defaults, names, r, overrides)[i] != PathParams(defaults, names, [], overrides)[i];
    }
  }

  /** The entries of a merge: as written, and of a template name either its default or an earlier comment. */
  lemma MergeIsAsWritten(defaults: Defaults, comments: seq<ParamDef>, path: string, r: seq<ParamDef>)
    requires AsWritten(defaults, comments) && IsMerge(comments, PathParamsFromOpenAPIPath(defaults, path), r)
    ensures AsWritten(defaults, r)
    ensures forall n | n in ExtractPathParamNames(path) :: n in ByName(r)
  {
    var items := MergeItems(comments, PathParamsFromOpenAPIPath(defaults, path));
    MergedItems(defaults, comments, path);
    ItemsAreAsWritten(defaults, comments, ExtractPathParamNames(path), items);
    SortKeepsAsWritten(defaults, items, r);
    forall n | n in ExtractPathParamNames(path)
      ensures n in ByName(r)
    {
      SameMembers(items, r);
      assert PathDefault(defaults, n) in r;
      ByNameKeepsNames(r);
    }
  }

  lemma ItemsAreAsWritten(defaults: Defaults, comments: seq<ParamDef>, names: seq<string>, items: seq<ParamDef>)
    requires AsWritten(defaults, comments) && ItemsAre(defaults, comments, names, items)
    ensures AsWritten(defaults, items)
  {
    forall i | 0 <= i < |items|
      ensures items[i].kind == defaults.pathSchema(items[i].name).kind
    {
      if i < |comments| {
        assert items[i] == Settled(defaults, comments, names, i);
      }
    }
  }

  lemma SortKeepsAsWritten(defaults: Defaults, items: seq<ParamDef>, r: seq<ParamDef>)
    requires AsWritten(defaults, items) && multiset(items) == multiset(r)
    ensures AsWritten(defaults, r)
  {
    SameMembers(items, r);
    forall i | 0 <= i < |r|
      ensures r[i].location == "path" && r[i].required == None && r[i].format == "" && r[i].example == None
      ensures r[i].kind == defaults.pathSchema(r[i].name).kind
    {
      assert r[i] in items;
    }
  }

  lemma EntryOfTemplateName(defaults: Defaults, comments: seq<ParamDef>, path: string, k: nat)
    requires AsWritten(defaults, comments)
    requires k < |MergeItems(comments, PathParamsFromOpenAPIPath(defaults, path))|
    ensures var p := MergeItems(comments, PathParamsFromOpenAPIPath(defaults, path))[k];
      p.name in ExtractPathParamNames(path) ==>
        p == PathDefault(defaults, p.name) || (IsEarlier(comments, k, p.name) && p == comments[k])
  {
    MergedItems(defaults, comments, path);
  }

  lemma HiddenIsNotShown(
    defaults: Defaults, comments: seq<ParamDef>, path: string, r: seq<ParamDef>, i: nat,
    overrides: map<string, ParamDef>)
    requires AsWritten(defaults, comments) && IsMerge(comments, PathParamsFromOpenAPIPath(defaults, path), r)
    requires i < |ExtractPathParamNames(path)|
    requires Masked(overrides, ExtractPathParamNames(path)[i]) || Hidden(defaults, comments, path, i)
    ensures var name := ExtractPathParamNames(path)[i];
      PathParamFor(defaults, i, name, r, overrides) == PathParamFor(defaults, i, name, [], overrides)
  {
    var name, s := ExtractPathParamNames(path)[i], PathParamsFromOpenAPIPath(defaults, path);
    MergeIsAsWritten(defaults, comments, path, r);
    ShowsDefaultExactlyWhen(defaults, i, name, r, overrides);
    if !Masked(overrides, name) {
      HiddenShowsDefault(defaults, comments, path, r, i);
    }
  }

  lemma HiddenShowsDefault(defaults: Defaults, comments: seq<ParamDef>, path: string, r: seq<ParamDef>, i: nat)
    requires AsWritten(defaults, comments) && IsMerge(comments, PathParamsFromOpenAPIPath(defaults, path), r)
    requires i < |ExtractPathParamNames(path)| && Hidden(defaults, comments, path, i)
    requires ExtractPathParamNames(path)[i] in ByName(r)
    ensures var name := ExtractPathParamNames(path)[i];
      Shown(defaults, i, name, r) == defaults.pathDescription(name)
  {
    var name, s := ExtractPathParamNames(path)[i], PathParamsFromOpenAPIPath(defaults, path);
    var default, items := defaults.pathDescription(name), MergeItems(comments, s);
    ByNameKeepsNames(r);
    SameMembers(items, r);
    var k :| 0 <= k < |items| && items[k] == ByName(r)[name];
    EntryOfTemplateName(defaults, comments, path, k);
    if items[k].description == "" && i < |r| {
      assert IsEarlier(comments, k, name) && comments[k].description == "";
      RowShowsNothingNew(defaults, comments, path, r, i);
    }
  }

  lemma RowShowsNothingNew(defaults: Defaults, comments: seq<ParamDef>, path: string, r: seq<ParamDef>, i: nat)
    requires AsWritten(defaults, comments) && IsMerge(comments, PathParamsFromOpenAPIPath(defaults, path), r)
    requires i < |ExtractPathParamNames(path)| && i < |r| && Hidden(defaults, comments, path, i)
    requires exists a :: IsEarlier(comments, a, ExtractPathParamNames(path)[i]) && comments[a].description == ""
    ensures SaysNothingNew(r[i].description, defaults.pathDescription(ExtractPathParamNames(path)[i]))
  {
    var items := MergeItems(comments, PathParamsFromOpenAPIPath(defaults, path));
    SameMembers(items, r);
    assert r[i] in items;
    var l :| 0 <= l < |items| && items[l] == r[i];
    EntryOfTemplateName(defaults, comments, path, l);
    MergedItems(defaults, comments, path);
    RowHasName(items, r, Merge(comments, PathParamsFromOpenAPIPath(defaults, path)), i);
  }

  lemma RowHasName(items: seq<ParamDef>, r: seq<ParamDef>, sorted: seq<ParamDef>, i: nat)
    requires InPath(items) && IsSortOf(items, r) && sorted == SortParams(items) && i < |r|
    ensures i < |sorted| && sorted[i].name == r[i].name
  {
    SortParamsSorts(items);
    SortsAgreeOnNames(items, r, sorted);
  }

  /** A sort under which something new shows in the i-th parameter. */
  lemma ShowingSort(defaults: Defaults, comments: seq<ParamDef>, path: string, i: nat) returns (r: seq<ParamDef>)
    requires AsWritten(defaults, comments) && i < |ExtractPathParamNames(path)| && !Hidden(defaults, comments, path, i)
    ensures IsMerge(comments, PathParamsFromOpenAPIPath(defaults, path), r)
    ensures var name := ExtractPathParamNames(path)[i];
      name in ByName(r) && Shown(defaults, i, name, r) != defaults.pathDescription(name)
  {
    var name, s := ExtractPathParamNames(path)[i], PathParamsFromOpenAPIPath(defaults, path);
    var default := defaults.pathDescription(name);
    var items, sorted := MergeItems(comments, s), Merge(comments, s);
    MergedItems(defaults, comments, path);
    SortParamsSorts(items);
    if a :| IsEarlier(comments, a, name) && !SaysNothingNew(comments[a].description, default) {
      var last: nat;
      r, last := WithEntryLast(items, sorted, a);
      ByNameIsLast(r, last);
    } else {
      var a :| IsEarlier(comments, a, name) && comments[a].description == "";
      var k :| 0 <= k < |items| && items[k].name == sorted[i].name && !SaysNothingNew(items[k].description, default);
      r := WithBoth(items, sorted, a, k, i);
    }
  }

  /** Puts one item behind all others of its name, and one of another name at a place of that name. */
  lemma WithBoth(items: seq<ParamDef>, sorted: seq<ParamDef>, a: nat, k: nat, i: nat) returns (r: seq<ParamDef>)
    requires InPath(items) && IsSortOf(items, sorted) && a < |items| && k < |items| && i < |sorted|
    requires items[k].name == sorted[i].name && items[a].name != items[k].name
    ensures IsSortOf(items, r) && i < |r| && r[i] == items[k]
    ensures items[a].name in ByName(r) && ByName(r)[items[a].name] == items[a]
  {
    var q, last := WithEntryLast(items, sorted, a);
    r := WithEntryAt(items, q, k, i);
    assert r[last] == q[last];
    assert LastOfName(r, last);
    ByNameIsLast(r, last);
  }

  /** Puts an item behind all others of its name. */
  lemma WithEntryLast(items: seq<ParamDef>, sorted: seq<ParamDef>, a: nat) returns (r: seq<ParamDef>, last: nat)
    requires InPath(items) && IsSortOf(items, sorted) && a < |items|
    ensures IsSortOf(items, r) && |r| == |sorted| && (forall i | 0 <= i < |r| :: r[i].name == sorted[i].name)
    ensures last < |r| && r[last] == items[a] && LastOfName(r, last)
  {
    SameMembers(items, sorted);
    assert items[a] in sorted;
    var p :| 0 <= p < |sorted| && sorted[p] == items[a];
    last := LastWithName(sorted, p);
    r := sorted[p := sorted[last]][last := sorted[p]];
    SwapIsASort(items, sorted, p, last);
  }

  /** Puts an item at a place of its name. */
  lemma WithEntryAt(items: seq<ParamDef>, q: seq<ParamDef>, k: nat, i: nat) returns (r: seq<ParamDef>)
    requires InPath(items) && IsSortOf(items, q) && k < |items| && i < |q| && q[i].name == items[k].name
    ensures IsSortOf(items, r) && |r| == |q| && r[i] == items[k]
    ensures forall j | 0 <= j < |r| :: r[j].name == q[j].name && (q[j].name != q[i].name ==> r[j] == q[j])
  {
    SameMembers(items, q);
    assert items[k] in q;
    var p :| 0 <= p < |q| && q[p] == items[k];
    r := q[p := q[i]][i := q[p]];
    SwapIsASort(items, q, p, i);
  }

  /** With at most one comment for each parameter none shows, whatever the overrides and the sort. */
  lemma SingleCommentsNeverShow(
    defaults: Defaults, comments: seq<ParamDef>, path: string, r: seq<ParamDef>, overrides: map<string, ParamDef>)
    requires AsWritten(defaults, comments) && DistinctNames(comments)
    requires IsMerge(comments, PathParamsFromOpenAPIPath(defaults, path), r)
    ensures var names := ExtractPathParamNames(path);
      PathParams(defaults, names, r, overrides) == PathParams(defaults, names, [], overrides)
  {
    assert forall a, name :: !IsEarlier(comments, a, name);
    CommentsNeverShowExactlyWhen(defaults, comments, path, overrides);
  }

  function Comment(defaults: Defaults, name: string, description: string): ParamDef {
    ParamDef(name, "path", defaults.pathSchema(name).kind, "", description, None, None)
  }

  /** Two comments about the one parameter of a path: if the first says something new it survives every sort, and
      shows under one of them. */
  lemma FirstOfTwoCommentsCanShow(defaults: Defaults, name: string, first: string, second: string)
    requires name != "" && Inside(name, true) && first != "" && first != defaults.pathDescription(name)
    ensures var path, comments := "/" + Braced(name), [Comment(defaults, name, first), Comment(defaults, name, second)];
      var names := ExtractPathParamNames(path);
      && (forall r :: IsMerge(comments, PathParamsFromOpenAPIPath(defaults, path), r) ==> comments[0] in r)
      && (exists r :: IsMerge(comments, PathParamsFromOpenAPIPath(defaults, path), r)
            && PathParams(defaults, names, r, map[]) != PathParams(defaults, names, [], map[]))
  {
    var path, comments := "/" + Braced(name), [Comment(defaults, name, first), Comment(defaults, name, second)];
    NamesOfOneParameter(name);
    var items := MergeItems(comments, PathParamsFromOpenAPIPath(defaults, path));
    MergedItems(defaults, comments, path);
    assert !LastOfName(comments, 0) by { assert comments[1].name == comments[0].name; }
    forall r | IsMerge(comments, PathParamsFromOpenAPIPath(defaults, path), r)
      ensures comments[0] in r
    {
      SameMembers(items, r);
      assert items[0] == comments[0];
    }
    assert IsEarlier(comments, 0, name);
    assert ExtractPathParamNames(path)[0] == name && !Hidden(defaults, comments, path, 0);
    CommentsNeverShowExactlyWhen(defaults, comments, path, map[]);
  }

  lemma NamesOfOneParameter(name: string)
    requires name != "" && Inside(name, true)
    ensures ExtractPathParamNames("/" + Braced(name)) == [name]
  {
    NamesOfBraced(name, "");
    assert Braced(name) + "" == Braced(name);
    NamesOfLiteral("/", Braced(name));
  }

  /** The comments of a block are as these results take them to be. */
  lemma CommentsAreAsWritten(g: Grammar, texts: seq<string>, from: nat, end: nat)
    requires end <= |texts|
    ensures AsWritten(g.defaults, CommentedIn(CommentReader(g), texts, from, end).pathParams)
  {
    ReadAsWritten(g.defaults, CommentReader(g), texts, from, end);
  }

  lemma {:induction false} ReadAsWritten(defaults: Defaults, read: Reader, texts: seq<string>, from: nat, end: nat)
    requires end <= |texts| && forall c :: AsWritten(defaults, read(c).pathParams)
    ensures AsWritten(defaults, CommentedIn(read, texts, from, end).pathParams)
    decreases end
  {
    if from < end {
      ReadAsWritten(defaults, read, texts, from, end - 1);
      AsWrittenOfBoth(defaults, CommentedIn(read, texts, from, end - 1).pathParams, read(texts[end - 1]).pathParams);
    }
  }

  lemma AsWrittenOfBoth(defaults: Defaults, a: seq<ParamDef>, b: seq<ParamDef>)
    requires AsWritten(defaults, a) && AsWritten(defaults, b)
    ensures AsWritten(defaults, a + b)
  {
  }

  // ---------------------------------------------------------------- a route with another name

  /** A comment without a description about {user} in the handler of /{id}: the route /{user} is the same endpoint, and
      its parameter shows the description of id, whose entry stands first in the merge. */
  lemma RenamedRouteShowsOtherDescription(defaults: Defaults, r: seq<ParamDef>)
    requires IsMerge([Comment(defaults, "user", "")], PathParamsFromOpenAPIPath(defaults, "/" + Braced("id")), r)
    ensures EndpointKey("get", "/" + Braced("user")) == EndpointKey("get", "/" + Braced("id"))
    ensures ExtractPathParamNames("/" + Braced("user")) == ["user"]
    ensures PathParams(defaults, ["user"], r, map[])[0].description == defaults.pathDescription("id")
  {
    NamesOfOneParameter("user");
    KeyOfOneParameter("id");
    KeyOfOneParameter("user");
    DefaultStandsFirst(defaults, r);
    SecondShowsFirst(defaults, PathDefault(defaults, "id"), "user");
  }

  lemma DefaultStandsFirst(defaults: Defaults, r: seq<ParamDef>)
    requires IsMerge([Comment(defaults, "user", "")], PathParamsFromOpenAPIPath(defaults, "/" + Braced("id")), r)
    ensures r == [PathDefault(defaults, "id"), Comment(defaults, "user", "")]
  {
    var c, d := Comment(defaults, "user", ""), PathDefault(defaults, "id");
    NamesOfOneParameter("id");
    assert PathParamsFromOpenAPIPath(defaults, "/" + Braced("id")) == [d];
    TwoItems(c, d);
    SortedPair(c, d, r);
  }

  lemma SecondShowsFirst(defaults: Defaults, first: ParamDef, name: string)
    requires first == PathDefault(defaults, first.name) && first.name != name
    ensures var r := [first, Comment(defaults, name, "")];
      PathParamFor(defaults, 0, name, r, map[]).description == first.description
  {
    var c := Comment(defaults, name, "");
    var r := [first, c];
    assert LastOfName(r, 1);
    ByNameIsLast(r, 1);
    ShownParam(defaults, 0, name, r, map[]);
  }

  lemma KeyOfOneParameter(name: string)
    requires name != "" && Inside(name, true)
    ensures PathPattern("/" + Braced(name)) == "/" + Braced("")
  {
    RewriteLiteral("/", Braced(name), false);
    MatchBraced(name, "");
    assert Braced(name) + "" == Braced(name);
  }

  lemma TwoItems(c: ParamDef, d: ParamDef)
    requires c.location == "path" && d.location == "path" && c.name != d.name
    ensures MergeItems([c], [d]) == [c, d]
  {
    KeyIsInjective(c, d);
    assert [d][..0] == [] && [c][..0] == [];
    assert AppendAll([c]) == Append(EMPTY, c);
    assert AbsorbAll(AppendAll([c]), [d]) == Absorb(AbsorbAll(AppendAll([c]), []), d);
  }

  lemma SortedPair(c: ParamDef, d: ParamDef, r: seq<ParamDef>)
    requires c.location == "path" && d.location == "path" && StringLess(d.name, c.name) && c != d
    requires IsSortOf([c, d], r)
    ensures r == [d, c]
  {
    assert |multiset(r)| == |multiset([c, d])| == 2;
    assert r == [r[0], r[1]];
    assert r[0] in multiset([c, d]) && r[1] in multiset([c, d]) && c in multiset(r) && d in multiset(r);
  }
}
