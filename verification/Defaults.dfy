/** The name-driven lookup tables of scripts/gen-openapi. Every result below is about all tables of this
    shape: what they say about a name does not matter, only that types and descriptions are never empty. */
module DefaultTables {
  import opened Text
  import opened Params

  type Phrase = s: string | s != "" witness "?"

  /** inferParamSchema: type, format and example of a path parameter. */
  datatype PathSchema = PathSchema(kind: Phrase, format: string, example: Example)

  datatype Defaults = Defaults(
    pathSchema: string -> PathSchema,
    pathDescription: string -> Phrase,
    queryKind: string -> Phrase,
    queryDescription: string -> Phrase,
    requiredQuery: string -> bool,
    tagOf: string -> string,
    securityOf: string -> string)

  function QueryTypeFromHint(hint: string): string {
    var h := ToLower(hint);
    if h == "bool" || h == "boolean" then "boolean"
    else if h == "int" || h == "integer" then "integer"
    else if h == "array" then "array"
    else "string"
  }

  /** The hints that name a type, in any case; every other means a string. */
  lemma HintsNameTypes(hint: string)
    ensures QueryTypeFromHint(hint) == "boolean" <==> ToLower(hint) in {"bool", "boolean"}
    ensures QueryTypeFromHint(hint) == "integer" <==> ToLower(hint) in {"int", "integer"}
    ensures QueryTypeFromHint(hint) == "array" <==> ToLower(hint) == "array"
    ensures QueryTypeFromHint(hint) in {"boolean", "integer", "array", "string"}
  {
  }
}
