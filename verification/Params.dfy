/** Parameter definitions and their overriding merge (mergeSingleParamDef, mergeParamDefs). */
module Params {
  import opened Text
  import opened Ordering

  /** The values a parameter may carry as its example. */
  datatype Example = Number(n: int) | Words(s: string)

  /** paramDef: `location` is its In field and `kind` its Type field. */
  datatype ParamDef = ParamDef(
    name: string,
    location: string,
    kind: string,
    format: string,
    description: string,
    example: Option<Example>,
    required: Option<bool>)

  function Later(base: string, override: string): string {
    if override != "" then override else base
  }

  function LaterOption<T>(base: Option<T>, override: Option<T>): Option<T> {
    if override.Some? then override else base
  }

  /** mergeSingleParamDef: every field the override sets wins; the name is the base's. */
  function Override(base: ParamDef, override: ParamDef): ParamDef {
    ParamDef(
      base.name,
      Later(base.location, override.location),
      Later(base.kind, override.kind),
      Later(base.format, override.format),
      Later(base.description, override.description),
      LaterOption(base.example, override.example),
      LaterOption(base.required, override.required))
  }

  datatype Field = In | Type | Format | Description | ExampleValue | Required

  predicate Sets(p: ParamDef, field: Field) {
    match field
    case In => p.location != ""
    case Type => p.kind != ""
    case Format => p.format != ""
    case Description => p.description != ""
    case ExampleValue => p.example.Some?
    case Required => p.required.Some?
  }

  /** Overriding is associative and idempotent, and a field is set afterwards exactly when either definition sets it:
      an absent field never erases a present one. */
  lemma OverrideIsAssociative(a: ParamDef, b: ParamDef, c: ParamDef)
    ensures forall f :: Sets(Override(a, b), f) <==> Sets(a, f) || Sets(b, f)
    ensures Override(a, b).name == a.name
    ensures Override(a, b).location == (if Sets(b, In) then b.location else a.location)
    ensures Override(Override(a, b), c) == Override(a, Override(b, c))
    ensures Override(Override(a, b), b) == Override(a, b)
    ensures Override(a, a) == a
  {
  }

  function ParamKey(p: ParamDef): string {
    (if p.location == "" then "query" else p.location) + ":" + p.name
  }

  /** The comparison mergeParamDefs hands to sort.Slice. */
  predicate ParamLess(p: ParamDef, q: ParamDef) {
    if p.location != q.location then p.location == "path" else StringLess(p.name, q.name)
  }

  // ---------------------------------------------------------------- the merge

  /** The merged slice and the map from keys to positions that the two loops build. */
  datatype Accumulator = Accumulator(items: seq<ParamDef>, index: map<string, nat>) {
    predicate Valid() {
      forall k :: k in index ==> index[k] < |items|
    }
  }

  const EMPTY := Accumulator([], map[])

  function Append(acc: Accumulator, p: ParamDef): Accumulator {
    Accumulator(acc.items + [p], acc.index[ParamKey(p) := |acc.items|])
  }

  function Absorb(acc: Accumulator, p: ParamDef): (r: Accumulator)
    requires acc.Valid()
    ensures r.Valid()
  {
    if ParamKey(p) in acc.index then
      var i := acc.index[ParamKey(p)];
      acc.(items := acc.items[i := Override(acc.items[i], p)])
    else
      Append(acc, p)
  }

  function AppendAll(base: seq<ParamDef>): (r: Accumulator)
    ensures r.Valid() && r.items == base
  {
    if base == [] then EMPTY else Append(AppendAll(base[..|base| - 1]), base[|base| - 1])
  }

  function AbsorbAll(acc: Accumulator, extra: seq<ParamDef>): (r: Accumulator)
    requires acc.Valid()
    ensures r.Valid()
  {
    if extra == [] then acc else Absorb(AbsorbAll(acc, extra[..|extra| - 1]), extra[|extra| - 1])
  }

  /** What the merge holds before it is sorted. */
  function MergeItems(base: seq<ParamDef>, extra: seq<ParamDef>): seq<ParamDef> {
    AbsorbAll(AppendAll(base), extra).items
  }

  /** The comparison is a strict weak order as long as one location besides "path" occurs. */
  predicate Lawful(s: seq<ParamDef>) {
    forall i, j | 0 <= i < |s| && 0 <= j < |s| && s[i].location != "path" && s[j].location != "path" ::
      s[i].location == s[j].location
  }

  predicate Sorted(s: seq<ParamDef>) {
    forall i, j | 0 <= i < j < |s| :: !ParamLess(s[j], s[i])
  }

  /** All that sort.Slice promises: it is not stable, and it needs a strict weak order. */
  ghost predicate IsSortOf(s: seq<ParamDef>, r: seq<ParamDef>) {
    && multiset(r) == multiset(s)
    && (Lawful(s) ==> Sorted(r))
  }

  ghost predicate IsMerge(base: seq<ParamDef>, extra: seq<ParamDef>, r: seq<ParamDef>) {
    IsSortOf(MergeItems(base, extra), r)
  }

  method SortSlice(s: seq<ParamDef>) returns (r: seq<ParamDef>)
    ensures IsSortOf(s, r)
  {
    r := SortParams(s);
    SortParamsSorts(s);
  }

  method MergeParamDefs(base: seq<ParamDef>, extra: seq<ParamDef>) returns (merged: seq<ParamDef>)
    ensures IsMerge(base, extra, merged)
  {
    var index: map<string, nat> := map[];
    merged := [];
    for i := 0 to |base|
      invariant Accumulator(merged, index) == AppendAll(base[..i])
    {
      assert base[..i + 1][..i] == base[..i];
      index := index[ParamKey(base[i]) := |merged|];
      merged := merged + [base[i]];
    }
    assert base[..|base|] == base;
    for i := 0 to |extra|
      invariant Accumulator(merged, index) == AbsorbAll(AppendAll(base), extra[..i])
    {
      assert extra[..i + 1][..i] == extra[..i];
      var key := ParamKey(extra[i]);
      if key in index {
        merged := merged[index[key] := Override(merged[index[key]], extra[i])];
      } else {
        index := index[key := |merged|];
        merged := merged + [extra[i]];
      }
    }
    assert extra[..|extra|] == extra;
    merged := SortSlice(merged);
  }

  // ---------------------------------------------------------------- one admissible sort

  function InsertParam(p: ParamDef, s: seq<ParamDef>): seq<ParamDef> {
    if s == [] then [p]
    else if ParamLess(s[0], p) then [s[0]] + InsertParam(p, s[1..])
    else [p] + s
  }

  function SortParams(s: seq<ParamDef>): seq<ParamDef> {
    if s == [] then [] else InsertParam(s[0], SortParams(s[1..]))
  }

  function Merge(base: seq<ParamDef>, extra: seq<ParamDef>): seq<ParamDef> {
    SortParams(MergeItems(base, extra))
  }

  predicate Agreeing(p: ParamDef, q: ParamDef) {
    p.location == q.location || p.location == "path" || q.location == "path"
  }

  /** "Not after" is transitive among parameters with at most one location besides "path". */
  lemma NotAfterIsTransitive(p: ParamDef, q: ParamDef, r: ParamDef)
    requires Agreeing(p, q) && Agreeing(q, r) && Agreeing(p, r)
    requires !ParamLess(q, p) && !ParamLess(r, q)
    ensures !ParamLess(r, p)
  {
    LessIsTotal(p.name, q.name);
    LessIsTotal(q.name, r.name);
    if ParamLess(r, p) && p.location == q.location == r.location {
      if p.name != q.name && q.name != r.name { LessIsTransitive(p.name, q.name, r.name); }
      LessIsAsymmetric(p.name, r.name);
    }
  }

  lemma LessOneWay(p: ParamDef, q: ParamDef)
    requires ParamLess(p, q) && Agreeing(p, q)
    ensures !ParamLess(q, p)
  {
    LessIsAsymmetric(p.name, q.name);
  }

  lemma {:induction false} InsertSorts(p: ParamDef, s: seq<ParamDef>)
    ensures multiset(InsertParam(p, s)) == multiset([p] + s)
    ensures Sorted(s) && Lawful([p] + s) ==> Sorted(InsertParam(p, s))
  {
    var out := InsertParam(p, s);
    if s != [] {
      assert s == [s[0]] + s[1..];
      if ParamLess(s[0], p) {
        InsertSorts(p, s[1..]);
        var tail := InsertParam(p, s[1..]);
        if Sorted(s) && Lawful([p] + s) {
          LawfulIsPairwise([p] + s);
          assert Lawful([p] + s[1..]) by { LawfulSubset([p] + s, [p] + s[1..]); }
          forall j | 0 <= j < |tail| ensures !ParamLess(tail[j], s[0]) {
            assert tail[j] in multiset(tail);
            assert tail[j] in multiset([p] + s[1..]);
            assert p in [p] + s && s[0] in [p] + s;
            if tail[j] == p { LessOneWay(s[0], p); }
          }
        }
      } else if Sorted(s) && Lawful([p] + s) {
        LawfulIsPairwise([p] + s);
        forall j | 0 <= j < |s| ensures !ParamLess(s[j], p) {
          assert p in [p] + s && s[0] in [p] + s && s[j] in [p] + s;
          if j > 0 { NotAfterIsTransitive(p, s[0], s[j]); }
        }
      }
    }
  }

  lemma LawfulIsPairwise(s: seq<ParamDef>)
    requires Lawful(s)
    ensures forall p, q | p in s && q in s :: Agreeing(p, q)
  {
  }

  lemma LawfulSubset(s: seq<ParamDef>, t: seq<ParamDef>)
    requires Lawful(s) && forall i | 0 <= i < |t| :: t[i] in s
    ensures Lawful(t)
  {
    LawfulIsPairwise(s);
  }

  lemma {:induction false} SortParamsSorts(s: seq<ParamDef>)
    ensures IsSortOf(s, SortParams(s))
  {
    if s != [] {
      var tail := SortParams(s[1..]);
      SortParamsSorts(s[1..]);
      InsertSorts(s[0], tail);
      assert s == [s[0]] + s[1..];
      if Lawful(s) {
        LawfulSubset(s, s[1..]);
        forall i | 0 <= i < |[s[0]] + tail| ensures ([s[0]] + tail)[i] in s {
          assert ([s[0]] + tail)[i] in multiset([s[0]] + tail);
        }
        LawfulSubset(s, [s[0]] + tail);
      }
    }
  }

  // ---------------------------------------------------------------- keyed view of a list

  predicate Standard(s: seq<ParamDef>) {
    forall i | 0 <= i < |s| :: s[i].location == "path" || s[i].location == "query"
  }

  predicate DistinctKeys(s: seq<ParamDef>) {
    forall i, j | 0 <= i < j < |s| :: ParamKey(s[i]) != ParamKey(s[j])
  }

  predicate Clean(s: seq<ParamDef>) {
    Standard(s) && DistinctKeys(s)
  }

  predicate IsStandard(p: ParamDef) {
    p.location == "path" || p.location == "query"
  }

  lemma KeyIsInjective(p: ParamDef, q: ParamDef)
    requires IsStandard(p) && IsStandard(q)
    ensures ParamKey(p) == ParamKey(q) <==> p.location == q.location && p.name == q.name
    ensures ParamKey(p) == ParamKey(q) ==> ParamKey(Override(p, q)) == ParamKey(p) && IsStandard(Override(p, q))
  {
    if ParamKey(p) == ParamKey(q) {
      assert ParamKey(p)[0] == p.location[0] && ParamKey(q)[0] == q.location[0];
      var n := |p.location| + 1;
      assert p.name == ParamKey(p)[n..] && q.name == ParamKey(q)[n..];
    }
  }

  /** A definition without a location is filed as a query parameter. */
  lemma NoLocationIsQuery(p: ParamDef)
    ensures p.location == "" ==> ParamKey(p) == ParamKey(p.(location := "query"))
    ensures ParamKey(p.(location := "path")) != ParamKey(p.(location := "query"))
  {
    KeyIsInjective(p.(location := "path"), p.(location := "query"));
  }

  /** Key to definition; of two definitions with one key the later. */
  function Table(s: seq<ParamDef>): map<string, ParamDef> {
    if s == [] then map[]
    else Table(s[..|s| - 1])[ParamKey(s[|s| - 1]) := s[|s| - 1]]
  }

  function Put(t: map<string, ParamDef>, p: ParamDef): map<string, ParamDef> {
    t[ParamKey(p) := if ParamKey(p) in t then Override(t[ParamKey(p)], p) else p]
  }

  function PutAll(t: map<string, ParamDef>, s: seq<ParamDef>): map<string, ParamDef> {
    if s == [] then t else Put(PutAll(t, s[..|s| - 1]), s[|s| - 1])
  }

  lemma {:induction false} TableHoldsTheList(s: seq<ParamDef>)
    ensures forall k :: k in Table(s) ==> Table(s)[k] in s && ParamKey(Table(s)[k]) == k
    ensures forall i | 0 <= i < |s| :: ParamKey(s[i]) in Table(s)
    ensures DistinctKeys(s) ==> forall i | 0 <= i < |s| :: Table(s)[ParamKey(s[i])] == s[i]
  {
    if s != [] {
      TableHoldsTheList(s[..|s| - 1]);
    }
  }

  lemma TableIsDetermined(s: seq<ParamDef>, t: map<string, ParamDef>)
    requires DistinctKeys(s)
    requires forall i | 0 <= i < |s| :: ParamKey(s[i]) in t && t[ParamKey(s[i])] == s[i]
    requires forall k :: k in t ==> t[k] in s && ParamKey(t[k]) == k
    ensures Table(s) == t
  {
    TableHoldsTheList(s);
  }

  // The index always points at the one item with that key.
  ghost predicate Indexed(acc: Accumulator) {
    && acc.Valid()
    && (forall k :: k in acc.index ==> ParamKey(acc.items[acc.index[k]]) == k)
    && (forall i | 0 <= i < |acc.items| ::
          ParamKey(acc.items[i]) in acc.index && acc.index[ParamKey(acc.items[i])] == i)
  }

  lemma {:induction false} AppendAllIsIndexed(base: seq<ParamDef>)
    requires DistinctKeys(base)
    ensures Indexed(AppendAll(base))
  {
    if base != [] {
      AppendAllIsIndexed(base[..|base| - 1]);
    }
  }

  lemma AbsorbKeepsIndexed(acc: Accumulator, p: ParamDef)
    requires Indexed(acc) && Standard(acc.items) && IsStandard(p)
    ensures Indexed(Absorb(acc, p)) && Standard(Absorb(acc, p).items)
  {
    if ParamKey(p) in acc.index {
      KeyIsInjective(acc.items[acc.index[ParamKey(p)]], p);
    }
  }

  lemma IndexedIsTable(acc: Accumulator)
    requires Indexed(acc)
    ensures DistinctKeys(acc.items)
    ensures Table(acc.items) == map k | k in acc.index :: acc.items[acc.index[k]]
  {
    TableIsDetermined(acc.items, map k | k in acc.index :: acc.items[acc.index[k]]);
  }

  lemma AbsorbIsPut(acc: Accumulator, p: ParamDef)
    requires Indexed(acc) && Standard(acc.items) && IsStandard(p)
    ensures Table(Absorb(acc, p).items) == Put(Table(acc.items), p)
  {
    AbsorbKeepsIndexed(acc, p);
    IndexedIsTable(acc);
    IndexedIsTable(Absorb(acc, p));
  }

  lemma {:induction false} AbsorbAllIsPutAll(acc: Accumulator, extra: seq<ParamDef>)
    requires Indexed(acc) && Standard(acc.items) && Standard(extra)
    ensures Indexed(AbsorbAll(acc, extra)) && Standard(AbsorbAll(acc, extra).items)
    ensures Table(AbsorbAll(acc, extra).items) == PutAll(Table(acc.items), extra)
  {
    if extra != [] {
      AbsorbAllIsPutAll(acc, extra[..|extra| - 1]);
      AbsorbKeepsIndexed(AbsorbAll(acc, extra[..|extra| - 1]), extra[|extra| - 1]);
      AbsorbIsPut(AbsorbAll(acc, extra[..|extra| - 1]), extra[|extra| - 1]);
    }
  }

  lemma MergeItemsIsPutAll(base: seq<ParamDef>, extra: seq<ParamDef>)
    requires Clean(base) && Standard(extra)
    ensures Clean(MergeItems(base, extra))
    ensures Table(MergeItems(base, extra)) == PutAll(Table(base), extra)
  {
    assert AppendAll(base).items == base;
    AppendAllIsIndexed(base);
    AbsorbAllIsPutAll(AppendAll(base), extra);
  }

  // ---------------------------------------------------------------- the sort leaves no choice

  lemma {:induction false} DistinctKeysOccurOnce(s: seq<ParamDef>, p: ParamDef)
    requires DistinctKeys(s)
    ensures multiset(s)[p] <= 1
  {
    if s != [] {
      DistinctKeysOccurOnce(s[1..], p);
      assert s == [s[0]] + s[1..];
      forall i | 0 <= i < |s[1..]| ensures s[1..][i] != s[0] {
        assert ParamKey(s[0]) != ParamKey(s[i + 1]);
      }
    }
  }

  lemma TwiceInMultiset(s: seq<ParamDef>, i: nat, j: nat)
    requires i < j < |s| && s[i] == s[j]
    ensures multiset(s)[s[i]] >= 2
  {
    assert s == s[..j] + ([s[j]] + s[j + 1..]);
    assert s[i] in s[..j];
  }

  lemma PermutationKeepsClean(s: seq<ParamDef>, r: seq<ParamDef>)
    requires multiset(s) == multiset(r) && Clean(s)
    ensures Clean(r) && Table(r) == Table(s)
  {
    assert forall p :: p in s <==> p in multiset(r);
    assert forall p :: p in r <==> p in multiset(s);
    forall i, j | 0 <= i < j < |r| ensures ParamKey(r[i]) != ParamKey(r[j]) {
      assert r[i] in s && r[j] in s;
      if r[i] == r[j] {
        TwiceInMultiset(r, i, j);
        DistinctKeysOccurOnce(s, r[i]);
      }
    }
    TableHoldsTheList(s);
    forall i | 0 <= i < |r| ensures ParamKey(r[i]) in Table(s) && Table(s)[ParamKey(r[i])] == r[i] {
      assert r[i] in s;
    }
    TableIsDetermined(r, Table(s));
  }

  predicate StrictlySorted(s: seq<ParamDef>) {
    forall i, j | 0 <= i < j < |s| :: ParamLess(s[i], s[j])
  }

  lemma CleanSortIsStrict(s: seq<ParamDef>)
    requires Clean(s) && Sorted(s)
    ensures StrictlySorted(s)
  {
    forall i, j | 0 <= i < j < |s| ensures ParamLess(s[i], s[j]) {
      KeyIsInjective(s[i], s[j]);
      LessIsTotal(s[i].name, s[j].name);
    }
  }

  lemma {:induction false} SortedCleanListIsUnique(a: seq<ParamDef>, b: seq<ParamDef>)
    requires Clean(a) && Clean(b) && StrictlySorted(a) && StrictlySorted(b)
    requires forall p :: p in a <==> p in b
    ensures a == b
  {
    NonEmptyHasMember(a);
    NonEmptyHasMember(b);
    if a != [] {
      StrictHeadsAgree(a, b);
      StrictTailsAgree(a, b);
      SortedCleanListIsUnique(a[1..], b[1..]);
      assert a == [a[0]] + a[1..] && b == [b[0]] + b[1..];
    }
  }

  lemma StrictHeadsAgree(a: seq<ParamDef>, b: seq<ParamDef>)
    requires StrictlySorted(a) && StrictlySorted(b) && Standard(a) && Standard(b)
    requires a != [] && b != [] && a[0] in b && b[0] in a
    ensures a[0] == b[0]
  {
    var i :| 0 <= i < |b| && b[i] == a[0];
    var j :| 0 <= j < |a| && a[j] == b[0];
    LessIsAsymmetric(a[0].name, b[0].name);
  }

  lemma StrictTailsAgree(a: seq<ParamDef>, b: seq<ParamDef>)
    requires DistinctKeys(a) && DistinctKeys(b) && a != [] && b != [] && a[0] == b[0]
    requires forall p :: p in a <==> p in b
    ensures forall p :: p in a[1..] <==> p in b[1..]
  {
    forall p
      ensures p in a[1..] <==> p in b[1..]
    {
      HeadIsFirst(a, p);
      HeadIsFirst(b, p);
    }
  }

  lemma NonEmptyHasMember(s: seq<ParamDef>)
    ensures s != [] <==> exists p :: p in s
  {
    if s != [] {
      assert s[0] in s;
    }
  }

  lemma HeadIsFirst(s: seq<ParamDef>, p: ParamDef)
    requires DistinctKeys(s) && s != []
    ensures p in s[1..] <==> p in s && p != s[0]
  {
    assert s == [s[0]] + s[1..];
    if p in s[1..] {
      var i :| 0 <= i < |s[1..]| && s[1..][i] == p;
      assert ParamKey(s[0]) != ParamKey(s[i + 1]);
    }
  }

  /** Lists with the same table have the same sorted form, whichever sorted permutation is taken. */
  lemma SameTableSameSort(s: seq<ParamDef>, t: seq<ParamDef>, r: seq<ParamDef>, q: seq<ParamDef>)
    requires Clean(s) && Clean(t) && Table(s) == Table(t)
    requires IsSortOf(s, r) && IsSortOf(t, q)
    ensures r == q
  {
    PermutationKeepsClean(s, r);
    PermutationKeepsClean(t, q);
    CleanSortIsStrict(r);
    CleanSortIsStrict(q);
    TableHoldsTheList(r);
    TableHoldsTheList(q);
    SortedCleanListIsUnique(r, q);
  }

  // ---------------------------------------------------------------- main results

  /** For a base without repeated keys the merge is one list, although the sort is unstable:
      it has no repeated keys, and its table is the base's with every override put in. */
  lemma MergeIsDetermined(base: seq<ParamDef>, extra: seq<ParamDef>, r: seq<ParamDef>)
    requires Clean(base) && Standard(extra)
    requires IsMerge(base, extra, r)
    ensures r == Merge(base, extra)
    ensures Clean(r) && Sorted(r) && Table(r) == PutAll(Table(base), extra)
  {
    var items := MergeItems(base, extra);
    MergeItemsIsPutAll(base, extra);
    SortParamsSorts(items);
    SameTableSameSort(items, items, r, Merge(base, extra));
    PermutationKeepsClean(items, r);
  }

  lemma MergeFacts(base: seq<ParamDef>, extra: seq<ParamDef>)
    requires Clean(base) && Standard(extra)
    ensures IsMerge(base, extra, Merge(base, extra))
    ensures Clean(Merge(base, extra)) && Table(Merge(base, extra)) == PutAll(Table(base), extra)
  {
    SortParamsSorts(MergeItems(base, extra));
    MergeIsDetermined(base, extra, Merge(base, extra));
  }

  /** Merges with one table are one list. */
  lemma MergesAgree(a: seq<ParamDef>, x: seq<ParamDef>, b: seq<ParamDef>, y: seq<ParamDef>)
    requires Clean(a) && Standard(x) && Clean(b) && Standard(y)
    requires PutAll(Table(a), x) == PutAll(Table(b), y)
    ensures Merge(a, x) == Merge(b, y)
  {
    MergeItemsIsPutAll(a, x);
    MergeItemsIsPutAll(b, y);
    SortParamsSorts(MergeItems(a, x));
    SortParamsSorts(MergeItems(b, y));
    SameTableSameSort(MergeItems(a, x), MergeItems(b, y), Merge(a, x), Merge(b, y));
  }

  /** Overrides may be merged one after the other or all at once, repeated keys included. */
  lemma MergeInStages(a: seq<ParamDef>, x: seq<ParamDef>, y: seq<ParamDef>)
    requires Clean(a) && Standard(x) && Standard(y)
    ensures Merge(Merge(a, x), y) == Merge(a, x + y)
  {
    MergeFacts(a, x);
    PutAllConcat(Table(a), x, y);
    MergesAgree(Merge(a, x), y, a, x + y);
  }

  lemma {:induction false} PutAllConcat(t: map<string, ParamDef>, x: seq<ParamDef>, y: seq<ParamDef>)
    ensures PutAll(t, x + y) == PutAll(PutAll(t, x), y)
  {
    if y == [] {
      assert x + y == x;
    } else {
      assert (x + y)[..|x + y| - 1] == x + y[..|y| - 1];
      PutAllConcat(t, x, y[..|y| - 1]);
    }
  }

  /** Pointwise overriding of one table by another. */
  function OverrideTable(t: map<string, ParamDef>, u: map<string, ParamDef>): map<string, ParamDef> {
    map k | k in t.Keys + u.Keys ::
      if k in t && k in u then Override(t[k], u[k]) else if k in u then u[k] else t[k]
  }

  lemma {:induction false} PutAllOfClean(t: map<string, ParamDef>, s: seq<ParamDef>)
    requires DistinctKeys(s)
    ensures PutAll(t, s) == OverrideTable(t, Table(s))
  {
    if s == [] {
      assert OverrideTable(t, map[]) == t;
    } else {
      var init, last := s[..|s| - 1], s[|s| - 1];
      PutAllOfClean(t, init);
      LastKeyIsNew(s);
      PutBeyond(t, Table(init), last);
    }
  }

  lemma LastKeyIsNew(s: seq<ParamDef>)
    requires DistinctKeys(s) && s != []
    ensures ParamKey(s[|s| - 1]) !in Table(s[..|s| - 1])
  {
    var init := s[..|s| - 1];
    TableHoldsTheList(init);
    forall k | k in Table(init) ensures k != ParamKey(s[|s| - 1]) {
      var i :| 0 <= i < |init| && init[i] == Table(init)[k];
      assert ParamKey(s[i]) != ParamKey(s[|s| - 1]);
    }
  }

  lemma PutBeyond(t: map<string, ParamDef>, u: map<string, ParamDef>, p: ParamDef)
    requires ParamKey(p) !in u
    ensures Put(OverrideTable(t, u), p) == OverrideTable(t, u[ParamKey(p) := p])
  {
    var l, r := Put(OverrideTable(t, u), p), OverrideTable(t, u[ParamKey(p) := p]);
    assert l.Keys == r.Keys;
  }

  /** The merge of parameter lists without repeated keys is associative, as an equality of lists. */
  lemma MergeIsAssociative(a: seq<ParamDef>, b: seq<ParamDef>, c: seq<ParamDef>)
    requires Clean(a) && Clean(b) && Clean(c)
    ensures Merge(Merge(a, b), c) == Merge(a, Merge(b, c))
  {
    MergeFacts(a, b);
    MergeFacts(b, c);
    PutAllOfClean(Table(a), b);
    PutAllOfClean(Table(b), c);
    PutAllOfClean(Table(Merge(a, b)), c);
    PutAllOfClean(Table(a), Merge(b, c));
    OverrideTableIsAssociative(Table(a), Table(b), Table(c));
    MergesAgree(Merge(a, b), c, a, Merge(b, c));
  }

  lemma OverrideTableIsAssociative(t: map<string, ParamDef>, u: map<string, ParamDef>, v: map<string, ParamDef>)
    ensures OverrideTable(OverrideTable(t, u), v) == OverrideTable(t, OverrideTable(u, v))
  {
    var l, r := OverrideTable(OverrideTable(t, u), v), OverrideTable(t, OverrideTable(u, v));
    assert l.Keys == r.Keys;
  }

  lemma OverrideTableTwice(t: map<string, ParamDef>, u: map<string, ParamDef>)
    ensures OverrideTable(OverrideTable(t, u), u) == OverrideTable(t, u)
  {
    var l, r := OverrideTable(OverrideTable(t, u), u), OverrideTable(t, u);
    assert l.Keys == r.Keys;
  }

  /** Merging a list in a second time changes nothing. */
  lemma MergeIsIdempotent(a: seq<ParamDef>, b: seq<ParamDef>)
    requires Clean(a) && Clean(b)
    ensures Merge(Merge(a, b), b) == Merge(a, b)
  {
    MergeFacts(a, b);
    PutAllOfClean(Table(a), b);
    PutAllOfClean(Table(Merge(a, b)), b);
    OverrideTableTwice(Table(a), Table(b));
    MergesAgree(Merge(a, b), b, a, b);
  }

  /** One override at a time, as buildParameters applies them. */
  function MergeEach(base: seq<ParamDef>, extra: seq<ParamDef>): seq<ParamDef> {
    if extra == [] then base else Merge(MergeEach(base, extra[..|extra| - 1]), [extra[|extra| - 1]])
  }

  lemma {:induction false} MergeEachIsOneMerge(base: seq<ParamDef>, first: seq<ParamDef>, extra: seq<ParamDef>)
    requires Clean(base) && Standard(first) && Standard(extra)
    ensures MergeEach(Merge(base, first), extra) == Merge(base, first + extra)
  {
    if extra == [] {
      assert first + extra == first;
    } else {
      var init, last := extra[..|extra| - 1], extra[|extra| - 1];
      assert init + [last] == extra;
      calc {
        MergeEach(Merge(base, first), extra);
        Merge(MergeEach(Merge(base, first), init), [last]);
        { MergeEachIsOneMerge(base, first, init); }
        Merge(Merge(base, first + init), [last]);
        { OneMoreStage(base, first, init, last); }
        Merge(base, first + extra);
      }
    }
  }

  lemma OneMoreStage(base: seq<ParamDef>, first: seq<ParamDef>, init: seq<ParamDef>, last: ParamDef)
    requires Clean(base) && Standard(first) && Standard(init) && IsStandard(last)
    ensures Merge(Merge(base, first + init), [last]) == Merge(base, first + (init + [last]))
  {
    MergeInStages(base, first + init, [last]);
    assert first + init + [last] == first + (init + [last]);
  }

  /** Repeated keys in the base survive every merge: the result has none exactly when the base has none. */
  lemma MergeRemovesNoRepetition(base: seq<ParamDef>, extra: seq<ParamDef>, r: seq<ParamDef>)
    requires Standard(base) && Standard(extra)
    requires IsMerge(base, extra, r)
    ensures DistinctKeys(r) <==> DistinctKeys(base)
  {
    if DistinctKeys(base) {
      MergeIsDetermined(base, extra, r);
    } else {
      AbsorbAllKeepsKeys(base, extra);
      if DistinctKeys(r) {
        assert multiset(r) == multiset(MergeItems(base, extra));
        StandardSurvives(base, extra, r);
        PermutationKeepsClean(r, MergeItems(base, extra));
        assert false;
      }
    }
  }

  // Absorbing never changes the key at a position of the base.
  lemma {:induction false} AbsorbAllKeepsKeys(base: seq<ParamDef>, extra: seq<ParamDef>)
    requires Standard(base) && Standard(extra)
    ensures KeepsKeys(base, AbsorbAll(AppendAll(base), extra))
  {
    if extra == [] {
      AppendAllIndexPointsHome(base);
    } else {
      var init, last := extra[..|extra| - 1], extra[|extra| - 1];
      AbsorbAllKeepsKeys(base, init);
      AbsorbKeepsKeys(base, AbsorbAll(AppendAll(base), init), last);
    }
  }

  /** The index points to items of its keys, and the base's keys are still at their places. */
  ghost predicate KeepsKeys(base: seq<ParamDef>, acc: Accumulator)
    requires acc.Valid()
  {
    && |base| <= |acc.items| && Standard(acc.items)
    && (forall k :: k in acc.index ==> ParamKey(acc.items[acc.index[k]]) == k)
    && (forall i | 0 <= i < |base| :: ParamKey(acc.items[i]) == ParamKey(base[i]))
  }

  lemma AbsorbKeepsKeys(base: seq<ParamDef>, acc: Accumulator, p: ParamDef)
    requires acc.Valid() && KeepsKeys(base, acc) && IsStandard(p)
    ensures KeepsKeys(base, Absorb(acc, p))
  {
    if ParamKey(p) in acc.index {
      KeyIsInjective(acc.items[acc.index[ParamKey(p)]], p);
    }
  }

  lemma {:induction false} AppendAllIndexPointsHome(base: seq<ParamDef>)
    ensures forall k :: k in AppendAll(base).index ==> ParamKey(base[AppendAll(base).index[k]]) == k
  {
    if base != [] {
      AppendAllIndexPointsHome(base[..|base| - 1]);
    }
  }

  lemma StandardSurvives(base: seq<ParamDef>, extra: seq<ParamDef>, r: seq<ParamDef>)
    requires Standard(base) && Standard(extra) && IsMerge(base, extra, r)
    ensures Standard(r)
  {
    AbsorbAllKeepsKeys(base, extra);
    forall i | 0 <= i < |r| ensures IsStandard(r[i]) {
      assert r[i] in multiset(r);
      assert r[i] in MergeItems(base, extra);
    }
  }

  // ---------------------------------------------------------------- what a merged definition says

  /** The last value set for a field among the definitions filed under `key`, if any sets it. */
  function LastSet<T>(s: seq<ParamDef>, key: string, field: ParamDef -> Option<T>): Option<T> {
    if s == [] then None
    else
      var last := s[|s| - 1];
      if ParamKey(last) == key && field(last).Some? then field(last) else LastSet(s[..|s| - 1], key, field)
  }

  function SetText(s: string): Option<string> {
    if s == "" then None else Some(s)
  }

  function KindSet(p: ParamDef): Option<string> { SetText(p.kind) }
  function FormatSet(p: ParamDef): Option<string> { SetText(p.format) }
  function DescriptionSet(p: ParamDef): Option<string> { SetText(p.description) }
  function ExampleSet(p: ParamDef): Option<Example> { p.example }
  function RequiredSet(p: ParamDef): Option<bool> { p.required }

  predicate HoldsLastSet(s: seq<ParamDef>, key: string, p: ParamDef) {
    && ParamKey(p) == key
    && KindSet(p) == LastSet(s, key, KindSet)
    && FormatSet(p) == LastSet(s, key, FormatSet)
    && DescriptionSet(p) == LastSet(s, key, DescriptionSet)
    && ExampleSet(p) == LastSet(s, key, ExampleSet)
    && RequiredSet(p) == LastSet(s, key, RequiredSet)
  }

  predicate MentionsKey(s: seq<ParamDef>, key: string) {
    exists i :: 0 <= i < |s| && ParamKey(s[i]) == key
  }

  lemma MentionsKeyOneMore(init: seq<ParamDef>, last: ParamDef, key: string)
    ensures MentionsKey(init + [last], key) <==> MentionsKey(init, key) || ParamKey(last) == key
  {
    var s := init + [last];
    assert s[|init|] == last;
    if i :| 0 <= i < |init| && ParamKey(init[i]) == key {
      assert ParamKey(s[i]) == key;
    }
  }

  lemma {:induction false} NothingSet<T>(s: seq<ParamDef>, key: string, field: ParamDef -> Option<T>)
    requires !MentionsKey(s, key)
    ensures LastSet(s, key, field) == None
  {
    if s != [] {
      MentionsKeyOneMore(s[..|s| - 1], s[|s| - 1], key);
      assert s == s[..|s| - 1] + [s[|s| - 1]];
      NothingSet(s[..|s| - 1], key, field);
    }
  }

  lemma LastSetOneMore<T>(init: seq<ParamDef>, last: ParamDef, key: string, field: ParamDef -> Option<T>)
    ensures LastSet(init + [last], key, field)
      == if ParamKey(last) == key && field(last).Some? then field(last) else LastSet(init, key, field)
  {
    assert (init + [last])[..|init|] == init;
  }

  /** One more definition moves exactly the entry of its key. */
  lemma HoldsLastSetOneMore(init: seq<ParamDef>, last: ParamDef, key: string, p: ParamDef)
    requires HoldsLastSet(init, key, p)
    ensures ParamKey(last) != key ==> HoldsLastSet(init + [last], key, p)
    ensures ParamKey(last) == key && ParamKey(Override(p, last)) == key ==>
      HoldsLastSet(init + [last], key, Override(p, last))
  {
    LastSetOneMore(init, last, key, KindSet);
    LastSetOneMore(init, last, key, FormatSet);
    LastSetOneMore(init, last, key, DescriptionSet);
    LastSetOneMore(init, last, key, ExampleSet);
    LastSetOneMore(init, last, key, RequiredSet);
  }

  lemma FirstHoldsLastSet(init: seq<ParamDef>, p: ParamDef)
    requires !MentionsKey(init, ParamKey(p))
    ensures HoldsLastSet(init + [p], ParamKey(p), p)
  {
    var key := ParamKey(p);
    LastSetOneMore(init, p, key, KindSet);
    LastSetOneMore(init, p, key, FormatSet);
    LastSetOneMore(init, p, key, DescriptionSet);
    LastSetOneMore(init, p, key, ExampleSet);
    LastSetOneMore(init, p, key, RequiredSet);
    NothingSet(init, key, KindSet);
    NothingSet(init, key, FormatSet);
    NothingSet(init, key, DescriptionSet);
    NothingSet(init, key, ExampleSet);
    NothingSet(init, key, RequiredSet);
  }

  ghost predicate HoldsAllLastSet(s: seq<ParamDef>, t: map<string, ParamDef>) {
    && (forall k :: k in t <==> MentionsKey(s, k))
    && (forall k :: k in t ==> IsStandard(t[k]) && HoldsLastSet(s, k, t[k]))
  }

  lemma {:induction false} PutAllHoldsLastSet(s: seq<ParamDef>)
    requires Standard(s)
    ensures HoldsAllLastSet(s, PutAll(map[], s))
  {
    if s != [] {
      PutAllHoldsLastSet(s[..|s| - 1]);
      PutHoldsLastSet(s[..|s| - 1], PutAll(map[], s[..|s| - 1]), s[|s| - 1]);
      assert s == s[..|s| - 1] + [s[|s| - 1]];
    }
  }

  lemma PutHoldsLastSet(init: seq<ParamDef>, t: map<string, ParamDef>, last: ParamDef)
    requires HoldsAllLastSet(init, t) && IsStandard(last)
    ensures HoldsAllLastSet(init + [last], Put(t, last))
  {
    var key := ParamKey(last);
    forall k
      ensures k in Put(t, last) <==> MentionsKey(init + [last], k)
    {
      MentionsKeyOneMore(init, last, k);
    }
    forall k | k in Put(t, last)
      ensures IsStandard(Put(t, last)[k]) && HoldsLastSet(init + [last], k, Put(t, last)[k])
    {
      if k in t {
        KeyIsInjective(t[k], last);
        HoldsLastSetOneMore(init, last, k, t[k]);
      } else {
        FirstHoldsLastSet(init, last);
      }
    }
  }

  /** What a merge says, without its order of computation: there is one definition for every key mentioned, and
      each of its fields is the last one set among the definitions of that key, base first. */
  lemma MergeHoldsLastSet(base: seq<ParamDef>, extra: seq<ParamDef>, r: seq<ParamDef>)
    requires Clean(base) && Standard(extra) && IsMerge(base, extra, r)
    ensures forall i | 0 <= i < |r| :: HoldsLastSet(base + extra, ParamKey(r[i]), r[i])
    ensures forall k :: MentionsKey(r, k) <==> MentionsKey(base + extra, k)
    ensures DistinctKeys(r)
  {
    MergedTable(base, extra, r);
    PutAllHoldsLastSet(base + extra);
    TableSpeaksForList(base + extra, r);
  }

  lemma MergedTable(base: seq<ParamDef>, extra: seq<ParamDef>, r: seq<ParamDef>)
    requires Clean(base) && Standard(extra) && IsMerge(base, extra, r)
    ensures DistinctKeys(r) && Table(r) == PutAll(map[], base + extra)
  {
    MergeIsDetermined(base, extra, r);
    PutAllConcat(map[], base, extra);
    TableOfClean(base);
  }

  lemma TableOfClean(base: seq<ParamDef>)
    requires DistinctKeys(base)
    ensures PutAll(map[], base) == Table(base)
  {
    PutAllOfClean(map[], base);
    assert OverrideTable(map[], Table(base)) == Table(base);
  }

  lemma TableSpeaksForList(s: seq<ParamDef>, r: seq<ParamDef>)
    requires DistinctKeys(r) && HoldsAllLastSet(s, Table(r))
    ensures forall i | 0 <= i < |r| :: HoldsLastSet(s, ParamKey(r[i]), r[i])
    ensures forall k :: MentionsKey(r, k) <==> MentionsKey(s, k)
  {
    TableHoldsTheList(r);
    forall i | 0 <= i < |r|
      ensures HoldsLastSet(s, ParamKey(r[i]), r[i])
    {
      assert Table(r)[ParamKey(r[i])] == r[i];
    }
    forall k
      ensures MentionsKey(r, k) <==> MentionsKey(s, k)
    {
      if k in Table(r) {
        var i :| 0 <= i < |r| && r[i] == Table(r)[k];
        assert ParamKey(r[i]) == k;
      }
    }
  }
}
