/** What the reader of "Query params:" comments makes of their text. */
module QueryComments {
  import opened Text
  import opened Params
  import opened DefaultTables
  import opened HandlerScan
  import opened HandlerFile

  // ---------------------------------------------------------------- entry by entry

  /** A trimmed entry of the form title(hint), the title being the text before its first parenthesis. */
  predicate HasHint(chunk: string, title: string, hint: string) {
    chunk == title + "(" + hint + ")" && title != "" && '(' !in title
  }

  /** What `p` has to be for a trimmed, non-blank entry: named and typed by title and hint, if it has both, and
      otherwise a string named as the entry reads. */
  ghost predicate Reads(defaults: Defaults, chunk: string, p: ParamDef) {
    && p == QueryParam(p.name, p.kind, Some(defaults.requiredQuery(p.name)))
    && (forall title, hint :: HasHint(chunk, title, hint) ==>
          p.name == TrimSpace(title) && p.kind == QueryTypeFromHint(TrimSpace(hint)))
    && ((forall title, hint :: !HasHint(chunk, title, hint)) ==> p.name == chunk && p.kind == "string")
  }

  lemma FirstParenthesis(title: string, rest: string)
    requires '(' !in title
    ensures IndexOf(title + "(" + rest, '(') == |title|
  {
    var s := title + "(" + rest;
    var i := IndexOf(s, '(');
    assert s[|title|] == '(';
    assert forall k | 0 <= k < i :: s[k] == s[..i][k];
    assert forall k | 0 <= k < |title| :: s[k] == title[k];
  }

  lemma HintIsRead(chunk: string, title: string, hint: string)
    requires HasHint(chunk, title, hint)
    ensures var i := IndexOf(chunk, '(');
      && 0 < i < |chunk| && HasSuffixChar(chunk, ')')
      && chunk[..i] == title && chunk[i + 1..|chunk| - 1] == hint
  {
    assert chunk == title + "(" + (hint + ")");
    FirstParenthesis(title, hint + ")");
  }

  lemma PartsAtParenthesis(chunk: string, i: nat)
    requires i < |chunk| - 1 && chunk[i] == '(' && '(' !in chunk[..i] && chunk[|chunk| - 1] == ')' && i > 0
    ensures HasHint(chunk, chunk[..i], chunk[i + 1..|chunk| - 1])
  {
    var title, hint := chunk[..i], chunk[i + 1..|chunk| - 1];
    assert chunk == title + "(" + hint + ")";
  }

  lemma EntryReads(defaults: Defaults, chunk: string)
    ensures Reads(defaults, chunk, QueryParamOfChunk(defaults, chunk))
  {
    var i := IndexOf(chunk, '(');
    if 0 < i < |chunk| && HasSuffixChar(chunk, ')') {
      PartsAtParenthesis(chunk, i);
    }
    forall title, hint | HasHint(chunk, title, hint)
      ensures 0 < i < |chunk| && HasSuffixChar(chunk, ')') && chunk[..i] == title && chunk[i + 1..|chunk| - 1] == hint
    {
      HintIsRead(chunk, title, hint);
    }
  }

  /** A comment yields one parameter for each of its non-blank entries, in their order, and no other. */
  lemma EntriesAreReadInOrder(defaults: Defaults, chunks: seq<string>) returns (at: seq<nat>)
    ensures var params := QueryParamsOfChunks(defaults, chunks);
      && Lists(Trimmed(chunks), at) && |at| == |params|
      && forall a | 0 <= a < |at| :: Reads(defaults, Trimmed(chunks)[at[a]], params[a])
  {
    at := EachIsRead(ChunkReader(defaults), Trimmed(chunks));
    var params := QueryParamsOfChunks(defaults, chunks);
    forall a | 0 <= a < |at|
      ensures Reads(defaults, Trimmed(chunks)[at[a]], params[a])
    {
      EntryReads(defaults, Trimmed(chunks)[at[a]]);
    }
  }

  /** `at` lists exactly the non-empty texts, in order. */
  predicate Lists(texts: seq<string>, at: seq<nat>) {
    && (forall a, b | 0 <= a < b < |at| :: at[a] < at[b])
    && (forall a | 0 <= a < |at| :: at[a] < |texts| && texts[at[a]] != "")
    && (forall i | 0 <= i < |texts| && texts[i] != "" :: i in at)
  }

  lemma {:induction false} EachIsRead(read: EntryReader, texts: seq<string>) returns (at: seq<nat>)
    ensures var params := ReadEach(read, texts);
      && Lists(texts, at) && |at| == |params|
      && forall a | 0 <= a < |at| :: params[a] == read(texts[at[a]])
  {
    if texts == [] {
      at := [];
    } else {
      var n := |texts| - 1;
      var init := EachIsRead(read, texts[..n]);
      at := if texts[n] == "" then init else init + [n];
      ListsOneMore(texts, init);
    }
  }

  lemma ListsOneMore(texts: seq<string>, at: seq<nat>)
    requires texts != [] && Lists(texts[..|texts| - 1], at)
    ensures var n := |texts| - 1;
      Lists(texts, if texts[n] == "" then at else at + [n])
  {
    var n := |texts| - 1;
    if texts[n] != "" {
      assert (at + [n])[|at|] == n;
    }
    forall i | 0 <= i < n && texts[i] != ""
      ensures i in at
    {
      assert texts[..n][i] == texts[i];
    }
  }

  // ---------------------------------------------------------------- reading back what was written

  /** An entry to write: a title, with a hint for its type or without. */
  datatype Entry = Entry(title: string, hint: Option<string>)

  function Written(e: Entry): string {
    match e.hint
    case None => e.title
    case Some(hint) => e.title + "(" + hint + ")"
  }

  predicate Writable(e: Entry) {
    e.title != "" && '(' !in e.title
  }

  function Meant(defaults: Defaults, e: Entry): ParamDef {
    match e.hint
    case None => QueryParam(e.title, "string", Some(defaults.requiredQuery(e.title)))
    case Some(hint) =>
      var name := TrimSpace(e.title);
      QueryParam(name, QueryTypeFromHint(TrimSpace(hint)), Some(defaults.requiredQuery(name)))
  }

  lemma WrittenIsMeant(defaults: Defaults, e: Entry)
    requires Writable(e)
    ensures Written(e) != "" && QueryParamOfChunk(defaults, Written(e)) == Meant(defaults, e)
  {
    match e.hint
    case None =>
      var i := IndexOf(e.title, '(');
      assert i < |e.title| ==> e.title[i] in e.title;
    case Some(hint) =>
      HintIsRead(Written(e), e.title, hint);
  }

  /** Entries written between commas, with white space around them as one likes, are read back one by one. */
  lemma {:induction false} WrittenEntriesAreReadBack(defaults: Defaults, entries: seq<Entry>, chunks: seq<string>)
    requires |chunks| == |entries| > 0
    requires forall i | 0 <= i < |chunks| ::
      ',' !in chunks[i] && TrimSpace(chunks[i]) == Written(entries[i]) && Writable(entries[i])
    ensures var params := QueryParamsOfChunks(defaults, Split(Join(chunks, ','), ','));
      |params| == |entries| && forall i | 0 <= i < |entries| :: params[i] == Meant(defaults, entries[i])
  {
    SplitUndoesJoin(chunks, ',');
    EachIsReadBack(ChunkReader(defaults), (e: Entry) => Meant(defaults, e), entries, Trimmed(chunks)) by {
      forall i | 0 <= i < |entries|
        ensures ChunkReader(defaults)(Written(entries[i])) == Meant(defaults, entries[i]) && Written(entries[i]) != ""
      {
        WrittenIsMeant(defaults, entries[i]);
      }
    }
  }

  lemma {:induction false} EachIsReadBack(
    read: EntryReader, meant: Entry -> ParamDef, entries: seq<Entry>, texts: seq<string>)
    requires |texts| == |entries|
    requires forall i | 0 <= i < |texts| :: texts[i] == Written(entries[i])
    requires forall i | 0 <= i < |entries| ::
      read(Written(entries[i])) == meant(entries[i]) && Written(entries[i]) != ""
    ensures var params := ReadEach(read, texts);
      |params| == |entries| && forall i | 0 <= i < |entries| :: params[i] == meant(entries[i])
  {
    if texts != [] {
      var n := |texts| - 1;
      EachIsReadBack(read, meant, entries[..n], texts[..n]);
      assert forall i | 0 <= i < n :: entries[..n][i] == entries[i];
    }
  }
}
