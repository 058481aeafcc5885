/** The order Go's < gives strings: lexicographic, a strict total order. */
module Ordering {

  predicate StringLess(a: string, b: string) {
    if b == "" then false
    else if a == "" then true
    else if a[0] != b[0] then a[0] < b[0]
    else StringLess(a[1..], b[1..])
  }

  /** The first character in which two strings differ decides, and a proper prefix comes first. */
  lemma {:induction false} LessIsLexicographic(p: string, x: char, y: char, s: string, t: string)
    ensures x < y ==> StringLess(p + [x] + s, p + [y] + t)
    ensures StringLess(p, p + [x] + s)
  {
    if p != "" {
      LessIsLexicographic(p[1..], x, y, s, t);
      assert (p + [x] + s)[1..] == p[1..] + [x] + s;
      assert (p + [y] + t)[1..] == p[1..] + [y] + t;
    }
  }

  lemma {:induction false} LessIsAsymmetric(a: string, b: string)
    ensures !(StringLess(a, b) && StringLess(b, a))
  {
    if a != "" && b != "" {
      LessIsAsymmetric(a[1..], b[1..]);
    }
  }

  lemma {:induction false} LessIsTransitive(a: string, b: string, c: string)
    requires StringLess(a, b) && StringLess(b, c)
    ensures StringLess(a, c)
  {
    if a != "" && a[0] == b[0] && b[0] == c[0] {
      LessIsTransitive(a[1..], b[1..], c[1..]);
    }
  }

  lemma {:induction false} LessIsTotal(a: string, b: string)
    ensures a == b || StringLess(a, b) || StringLess(b, a)
  {
    if a != "" && b != "" && a[0] == b[0] {
      LessIsTotal(a[1..], b[1..]);
      assert a == [a[0]] + a[1..] && b == [b[0]] + b[1..];
    }
  }

  // ---------------------------------------------------------------- sorting a set of strings

  /** sort.Strings applied to the keys of a map: the one strictly increasing list of them. */
  ghost predicate SortedListing(keys: set<string>, r: seq<string>) {
    && (forall k :: k in keys <==> k in r)
    && (forall i, j | 0 <= i < j < |r| :: StringLess(r[i], r[j]))
  }

  lemma {:induction false} SortedListingIsUnique(keys: set<string>, a: seq<string>, b: seq<string>)
    requires SortedListing(keys, a) && SortedListing(keys, b)
    ensures a == b
  {
    EmptyListing(keys, a);
    EmptyListing(keys, b);
    if keys != {} {
      assert a[0] in keys && b[0] in keys;
      assert a[0] == b[0] by {
        var i :| 0 <= i < |b| && b[i] == a[0];
        var j :| 0 <= j < |a| && a[j] == b[0];
        LessIsAsymmetric(a[0], b[0]);
      }
      TailOfListing(keys, a);
      TailOfListing(keys, b);
      SortedListingIsUnique(keys - {a[0]}, a[1..], b[1..]);
      assert a == [a[0]] + a[1..] && b == [b[0]] + b[1..];
    }
  }

  lemma EmptyListing(keys: set<string>, r: seq<string>)
    requires SortedListing(keys, r)
    ensures r == [] <==> keys == {}
  {
    if r != [] {
      assert r[0] in keys;
    }
  }

  lemma TailOfListing(keys: set<string>, r: seq<string>)
    requires SortedListing(keys, r) && r != []
    ensures SortedListing(keys - {r[0]}, r[1..])
  {
    LessIsAsymmetric(r[0], r[0]);
    assert r == [r[0]] + r[1..];
    forall k ensures k in keys - {r[0]} <==> k in r[1..] {
      assert k in r <==> k == r[0] || k in r[1..];
      if k in r[1..] {
        var i :| 0 <= i < |r[1..]| && r[1..][i] == k;
        assert StringLess(r[0], r[i + 1]);
      }
    }
  }

  /** Inserting in place keeps a strictly increasing list strictly increasing. */
  function InsertString(k: string, r: seq<string>): seq<string> {
    if r == [] then [k]
    else if StringLess(r[0], k) then [r[0]] + InsertString(k, r[1..])
    else [k] + r
  }

  lemma {:induction false} InsertKeepsListing(keys: set<string>, k: string, r: seq<string>)
    requires SortedListing(keys, r) && k !in keys
    ensures SortedListing(keys + {k}, InsertString(k, r))
  {
    var out := InsertString(k, r);
    if r == [] {
      assert keys == {} by { assert forall x <- keys :: x in r; }
    } else if StringLess(r[0], k) {
      TailOfListing(keys, r);
      InsertKeepsListing(keys - {r[0]}, k, r[1..]);
      var tail := InsertString(k, r[1..]);
      forall x ensures x in keys + {k} <==> x in out {
        assert x in out <==> x == r[0] || x in tail;
        assert r[0] in r;
      }
      forall j | 0 <= j < |tail| ensures StringLess(r[0], tail[j]) {
        assert tail[j] in tail;
        assert tail[j] == k || tail[j] in r[1..];
      }
    } else {
      assert r[0] in r;
      LessIsTotal(r[0], k);
      forall j | 0 <= j < |r| ensures StringLess(k, r[j]) {
        if j > 0 { LessIsTransitive(k, r[0], r[j]); }
      }
      forall x ensures x in keys + {k} <==> x in out {
        assert x in out <==> x == k || x in r;
      }
    }
  }

  method SortStrings(keys: set<string>) returns (r: seq<string>)
    ensures SortedListing(keys, r)
  {
    r := [];
    var todo, done := keys, {};
    while todo != {}
      invariant done !! todo && done + todo == keys
      invariant SortedListing(done, r)
      decreases |todo|
    {
      var k :| k in todo;
      InsertKeepsListing(done, k, r);
      r := InsertString(k, r);
      todo, done := todo - {k}, done + {k};
    }
    assert done == keys;
  }
}
