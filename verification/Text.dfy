/** The few Go string operations the generator and the interceptors rely on.
    Case mapping is the ASCII one; white space is the set unicode.IsSpace accepts. */
module Text {

  datatype Option<+T> = None | Some(value: T)

  function UpperChar(c: char): char {
    if 'a' <= c <= 'z' then (c as int - 32) as char else c
  }

  function LowerChar(c: char): char {
    if 'A' <= c <= 'Z' then (c as int + 32) as char else c
  }

  function ToUpper(s: string): (r: string)
    ensures |r| == |s|
  {
    seq(|s|, i requires 0 <= i < |s| => UpperChar(s[i]))
  }

  function ToLower(s: string): (r: string)
    ensures |r| == |s|
  {
    seq(|s|, i requires 0 <= i < |s| => LowerChar(s[i]))
  }

  lemma CaseRoundTrips(s: string)
    ensures ToUpper(ToLower(s)) == ToUpper(s)
    ensures ToLower(ToUpper(s)) == ToLower(s)
    ensures ToLower(ToLower(s)) == ToLower(s)
  {
  }

  /** Exactly the letters are mapped, to their counterparts. */
  lemma LettersAreMapped()
    ensures ToUpper("abcdefghijklmnopqrstuvwxyz") == "ABCDEFGHIJKLMNOPQRSTUVWXYZ"
    ensures ToLower("ABCDEFGHIJKLMNOPQRSTUVWXYZ") == "abcdefghijklmnopqrstuvwxyz"
    ensures forall s, i | 0 <= i < |s| && !('a' <= s[i] <= 'z') :: ToUpper(s)[i] == s[i]
    ensures forall s, i | 0 <= i < |s| && !('A' <= s[i] <= 'Z') :: ToLower(s)[i] == s[i]
  {
  }

  /** A prefix is what something can be put behind to give the whole. */
  lemma PrefixHasRest(s: string, p: string)
    ensures HasPrefix(s, p) <==> exists rest :: s == p + rest
  {
    if HasPrefix(s, p) {
      assert s == p + s[|p|..];
    }
  }

  predicate HasPrefix(s: string, p: string) {
    |p| <= |s| && s[..|p|] == p
  }

  predicate IsSpace(c: char) {
    var n := c as int;
    || n == 0x20 || 0x09 <= n <= 0x0D || n == 0x85 || n == 0xA0 || n == 0x1680
    || 0x2000 <= n <= 0x200A || n == 0x2028 || n == 0x2029 || n == 0x202F || n == 0x205F || n == 0x3000
  }

  /** The white space of ASCII and Latin-1, and the spaces and separators of Unicode beyond. */
  lemma SpacesAre(c: char)
    ensures c as int < 0x100 ==> (IsSpace(c) <==> c in "\t\n\U{0B}\U{0C}\r \U{85}\U{A0}")
    ensures c as int >= 0x100 ==> (
      IsSpace(c) <==> (
        || c in "\U{1680}\U{2000}\U{2001}\U{2002}\U{2003}\U{2004}\U{2005}\U{2006}\U{2007}\U{2008}\U{2009}\U{200A}"
        || c in "\U{2028}\U{2029}\U{202F}\U{205F}\U{3000}"))
  {
  }

  predicate IsWord(w: string) {
    w != "" && NoSpace(w)
  }

  predicate NoSpace(w: string) {
    forall i | 0 <= i < |w| :: !IsSpace(w[i])
  }

  /** strings.Fields: the maximal runs of non-space characters, in order. */
  function Fields(s: string): seq<string> {
    FieldsFrom(s, "")
  }

  // `run` is the word being read when `s` is what is left of the text.
  function FieldsFrom(s: string, run: string): seq<string> {
    if s == "" then (if run == "" then [] else [run])
    else if IsSpace(s[0]) then (if run == "" then [] else [run]) + FieldsFrom(s[1..], "")
    else FieldsFrom(s[1..], run + [s[0]])
  }

  /** strings.Join with a one-character separator. */
  function Join(words: seq<string>, separator: char): string {
    if words == [] then ""
    else if |words| == 1 then words[0]
    else words[0] + [separator] + Join(words[1..], separator)
  }

  /** strings.Split with a one-character separator. */
  function Split(s: string, separator: char): seq<string> {
    SplitFrom(s, separator, "")
  }

  function SplitFrom(s: string, separator: char, run: string): seq<string> {
    if s == "" then [run]
    else if s[0] == separator then [run] + SplitFrom(s[1..], separator, "")
    else SplitFrom(s[1..], separator, run + [s[0]])
  }

  /** Reading a whole word only extends the run. */
  lemma {:induction false} FieldsFromWord(w: string, rest: string, run: string)
    requires NoSpace(w)
    ensures FieldsFrom(w + rest, run) == FieldsFrom(rest, run + w)
  {
    if w == "" {
      assert w + rest == rest && run + w == run;
    } else {
      assert (w + rest)[0] == w[0] && (w + rest)[1..] == w[1..] + rest;
      assert run + w == (run + [w[0]]) + w[1..];
      FieldsFromWord(w[1..], rest, run + [w[0]]);
    }
  }

  /** Splitting on white space undoes joining words with spaces. */
  lemma {:induction false} FieldsUndoesJoin(words: seq<string>)
    requires forall i | 0 <= i < |words| :: IsWord(words[i])
    ensures Fields(Join(words, ' ')) == words
  {
    if words == [] {
    } else if |words| == 1 {
      FieldsFromWord(words[0], "", "");
      assert words[0] + "" == words[0] && "" + words[0] == words[0];
    } else {
      var rest := [' '] + Join(words[1..], ' ');
      FieldsFromWord(words[0], rest, "");
      assert "" + words[0] == words[0];
      assert Join(words, ' ') == words[0] + rest;
      assert rest[0] == ' ' && rest[1..] == Join(words[1..], ' ');
      FieldsUndoesJoin(words[1..]);
    }
  }

  /** Whatever the text, Fields yields words. */
  lemma {:induction false} FieldsAreWords(s: string, run: string)
    requires NoSpace(run)
    ensures forall i | 0 <= i < |FieldsFrom(s, run)| :: IsWord(FieldsFrom(s, run)[i])
  {
    if s == "" {
    } else if IsSpace(s[0]) {
      FieldsAreWords(s[1..], "");
    } else {
      FieldsAreWords(s[1..], run + [s[0]]);
    }
  }

  /** Joining the pieces of a split gives the text back. */
  lemma {:induction false} JoinUndoesSplit(s: string, separator: char, run: string)
    ensures SplitFrom(s, separator, run) != []
    ensures Join(SplitFrom(s, separator, run), separator) == run + s
  {
    if s == "" {
      assert run + s == run;
    } else if s[0] == separator {
      JoinUndoesSplit(s[1..], separator, "");
      var tail := SplitFrom(s[1..], separator, "");
      assert ([run] + tail)[1..] == tail;
      assert "" + s[1..] == s[1..];
      assert run + s == run + [separator] + s[1..];
    } else {
      JoinUndoesSplit(s[1..], separator, run + [s[0]]);
      assert run + [s[0]] + s[1..] == run + s;
    }
  }

  lemma {:induction false} SplitFromPiece(w: string, rest: string, separator: char, run: string)
    requires separator !in w
    ensures SplitFrom(w + rest, separator, run) == SplitFrom(rest, separator, run + w)
  {
    if w == "" {
      assert w + rest == rest && run + w == run;
    } else {
      assert (w + rest)[1..] == w[1..] + rest;
      assert run + w == (run + [w[0]]) + w[1..];
      SplitFromPiece(w[1..], rest, separator, run + [w[0]]);
    }
  }

  /** Splitting at a separator undoes joining pieces free of it. */
  lemma {:induction false} SplitUndoesJoin(pieces: seq<string>, separator: char)
    requires pieces != [] && forall i | 0 <= i < |pieces| :: separator !in pieces[i]
    ensures Split(Join(pieces, separator), separator) == pieces
  {
    if |pieces| == 1 {
      SplitFromPiece(pieces[0], "", separator, "");
      assert pieces[0] + "" == pieces[0] && "" + pieces[0] == pieces[0];
    } else {
      var rest := [separator] + Join(pieces[1..], separator);
      SplitFromPiece(pieces[0], rest, separator, "");
      assert "" + pieces[0] == pieces[0];
      assert Join(pieces, separator) == pieces[0] + rest;
      assert rest[0] == separator && rest[1..] == Join(pieces[1..], separator);
      SplitUndoesJoin(pieces[1..], separator);
    }
  }

  /** Fields is settled by two facts: white space separates, and what has none is one word or nothing. */
  lemma FieldsSplitAtSpace(a: string, c: char, b: string)
    requires IsSpace(c)
    ensures Fields(a + [c] + b) == Fields(a) + Fields(b)
  {
    FieldsFromSplit(a, c, b, "");
  }

  lemma {:induction false} FieldsFromSplit(a: string, c: char, b: string, run: string)
    requires IsSpace(c)
    ensures FieldsFrom(a + [c] + b, run) == FieldsFrom(a, run) + FieldsFrom(b, "")
    decreases |a|
  {
    var s := a + [c] + b;
    if a == "" {
      assert s[0] == c && s[1..] == b;
    } else {
      assert s[0] == a[0] && s[1..] == a[1..] + [c] + b;
      FieldsFromSplit(a[1..], c, b, if IsSpace(a[0]) then "" else run + [a[0]]);
    }
  }

  lemma FieldsOfWord(w: string)
    requires NoSpace(w)
    ensures Fields(w) == if w == "" then [] else [w]
  {
    FieldsFromWord(w, "", "");
    assert w + "" == w && "" + w == w;
  }
}
