# Verification of the generator, the uptime tracker, token propagation and the socket index

A Dafny model of four hand-written parts of the repository and proofs about them. `dafny verify dfyconfig.toml`
checks everything.

**The OpenAPI generator** (`scripts/gen-openapi`). `Text` and `Ordering` hold the string operations and the sorted
listing of keys; `Params` the merge of parameter definitions; `DefaultTables` the interface to the lookup tables;
`PathTemplates` the rewriting of templated paths and endpoint keys; `HandlerScan` and `HandlerFile` the scan of handler
sources, with `QueryComments` and `PathComments` on what becomes of its two kinds of parameter comments;
`HandlerReading` says in the words of the text what each part of it is read as; `EndpointDiscovery` is the accumulation of
endpoints over a directory, `DiscoveryCoverage` says which keys it comes to, and `Determined` how far its text fixes the
outcome; `Parameters` the parameters of an operation; `Spec` the completion of the routes and the paths of the document;
`Generator` the whole.
`sort.Slice` is any sorted rearrangement: callers know only that the result is a permutation, sorted where the
comparator is an order, and the theorems say when that leaves no choice.

**The uptime tracker** (`services/health-check-service`). `Uptime` is a state machine over the steps of a creation and
its two clock reads, touch, tick clock read, tick update of one service, tick end, and reads, interleaved as the locks
allow, with a monotone clock in nanoseconds. `UptimeService` has the objects and loops of the program, updated in place,
each method proved to be a run of that machine.

**Token propagation** (`shared/pkg/auth`, with the client interceptor of `shared/pkg/grpc/dial.go`). `Auth` has both
server interceptors, the outgoing headers, one call from handler to handler, and chains of calls.

**The socket index** (`websocket-gateway/server.js`). `Sockets` has the connection and disconnect handlers, the rooms,
and the routing of messages to deliveries.

## What the proofs found

Each of these is a property that does not hold as the code or the standard would have it, with the exact condition.

- A route parameter without `in` is offered to the path parameter of its name (`scripts/gen-openapi/main.go:330`) but
  filed under query by `paramKey`, so it has no effect (`OverrideReachesPathParamOnlyIfInPath`).
- A path override with `required: false` makes an optional path parameter, which section 4.7.12.1 of OpenAPI 3.0.3
  forbids (`PathParameterIsRequiredUnless`).
- The format of a path parameter is replaced by the one inferred from its name unless an example is given as well
  (`RenderingShowsWhatIsSet`).
- The last "Path param:" comment on a parameter of the endpoint's own path is always overwritten by the default derived
  from the path. A second comment on the same parameter makes the first one survive beside the default, and whether it
  shows depends on the sort (`OnlyDefaultIsLeftExactlyWhen`, `CommentsNeverShowExactlyWhen`,
  `FirstOfTwoCommentsCanShow`).
- A parameter discovered without a description shows that of whatever entry stands at its position
  (`OwnDescriptionShowsExactlyWhen`, `DescriptionNeverLeaksExactlyWhen`, `RenamedRouteShowsOtherDescription`).
- Not every announcement yields an endpoint: all do exactly when none stands in the comment block of another, a block
  being at most six comment lines below an announcement (`AllAnnouncementsYieldExactlyWhen`,
  `SecondAnnouncementIsLost`).
- A method text with a colon can give two different endpoints one key (`EndpointKeyIsFaithful`,
  `ColonMakesKeysRunTogether`).
- Repeated keys in the base of a merge survive it (`MergeRemovesNoRepetition`).
- Two spellings of one templated path can both end up in the document, against section 4.7.8
  (`DocumentHasOneSpellingExactlyWhen`, `RenamingBreaksOneSpelling`).
- A handler's touch between a tick's clock read and its update makes a total decrease, and the reported uptime can become
  negative (`StepLowersTotalExactlyWhen`, `TotalTurnsNegativeExactlyWhen`, `ReportIsNegativeExactlyWhen`,
  `StaleTickReportsNegativeUptime`).
- Downtime is counted again at every unhealthy tick. If the ticker is the first to learn of the recovery, the whole
  outage is counted as uptime as well, so that the service reports 100 percent: a metrics request has then stored the
  healthy check, which it does without touching the tracker (`services/health-check-service/main.go:850-853`). A health
  request touches the tracker first, and its touch takes the outage out of the uptime (`OutageGrowsWithTheSquare`,
  `OutageCountsAsUptimeAndDowntime`, `TouchedRecoverySkipsTheOutage`, `HealthyReportsAgeMinusSkipped`,
  `HandleMetrics`).
- `AttachOutgoingAuth` is not idempotent behind an empty first header value (`AttachIsIdempotentExactlyWhen`).

## Model

| member | source | states |
|---|---|---|
| `Text.FieldsUndoesJoin` | scripts/gen-openapi/discover.go:152-163 | Splitting on white space undoes joining words with spaces, for every list of non-empty words without white space; so the re-joining and re-splitting of a route comment changes nothing. |
| `Text.FieldsSplitAtSpace` | scripts/gen-openapi/discover.go:136 | White space separates: the fields of two texts with white space between them are those of both. |
| `Text.FieldsOfWord` | scripts/gen-openapi/discover.go:136 | A text without white space is one field, or none if it is empty. |
| `Text.SpacesAre` | scripts/gen-openapi/discover.go:136 | The characters that count as white space. |
| `Text.PrefixHasRest` | scripts/gen-openapi/discover.go:143 | A text has a prefix exactly when it is the prefix and a rest. |
| `Text.JoinUndoesSplit` | scripts/gen-openapi/discover.go:80 | Joining the lines of a file, or the pieces of any split, gives the text back; no piece is lost or merged. |
| `Text.SplitUndoesJoin` | scripts/gen-openapi/discover.go:189 | Splitting at a separator gives back any pieces free of it that were joined with it. |
| `Text.CaseRoundTrips` | scripts/gen-openapi/discover.go:165-167 | Upper-casing ASCII letters forgets exactly what lower-casing them does: a method may be folded either way any number of times. |
| `Text.LettersAreMapped` | scripts/gen-openapi/discover.go:165-167 | Exactly the ASCII letters are mapped, to their counterparts. |
| `Ordering.SortStrings` | scripts/gen-openapi/main.go:407-411 | The sorted list of a set of keys: every key once, strictly increasing in byte order. |
| `Ordering.LessIsLexicographic` | scripts/gen-openapi/discover.go:380 | The first character in which two strings differ decides, and a proper prefix comes first. |
| `Ordering.SortedListingIsUnique` | scripts/gen-openapi/main.go:407-411 | A set of keys has only one sorted listing, so the map iteration order before the sort cannot show. |
| `Params.MergeParamDefs` | scripts/gen-openapi/discover.go:360-383 | For every two lists the result is a rearrangement of the in-place indexed merge, sorted whenever the comparator is a lawful order on it. This is all an unstable sort promises. |
| `Params.SortParamsSorts` | scripts/gen-openapi/discover.go:376-381 | Some result with that property exists for every list. |
| `Params.OverrideIsAssociative` | scripts/gen-openapi/discover.go:393-414 | Field-wise overriding is associative and idempotent, keeps the name of the base and takes a location the override sets, and a field is set afterwards exactly when either definition sets it: an absent field never erases a present one. |
| `Params.NoLocationIsQuery` | scripts/gen-openapi/discover.go:385-391 | A definition without a location is filed as a query parameter, and path parameters apart from those. |
| `Params.MergeIsDetermined` | scripts/gen-openapi/discover.go:360-383 | With distinct keys in the base and only path and query locations there is one possible result whatever order the unstable sort leaves equal elements in: the sorted list of the key-wise override table. |
| `Params.MergeHoldsLastSet` | scripts/gen-openapi/discover.go:360-414 | There is exactly one definition for every key mentioned in either list, and each of its fields is the last one set among the definitions of that key, base first: a reference reading of the merge that does not follow its steps. |
| `Params.SortedCleanListIsUnique` | scripts/gen-openapi/discover.go:376-381 | Two strictly sorted lists without repeated keys and with the same members are the same list. |
| `Params.MergeIsAssociative` | scripts/gen-openapi/discover.go:360-414 | Merging is associative as exact list equality. |
| `Params.MergeIsIdempotent` | scripts/gen-openapi/discover.go:360-414 | Merging the same list in again changes nothing. |
| `Params.MergeInStages` | scripts/gen-openapi/discover.go:360-383 | Two merges one after the other are one merge with both extras concatenated, repetitions in the extras included. |
| `Params.MergeEachIsOneMerge` | scripts/gen-openapi/main.go:320-325 | Folding query overrides in one at a time is one merge with all of them. |
| `Params.MergeRemovesNoRepetition` | scripts/gen-openapi/discover.go:361-375 | The result has distinct keys exactly when the base has: repeated keys in the extras are merged away, repeated keys in the base survive. |
| `PathTemplates.RewriteAfterNormalize` | scripts/gen-openapi/discover.go:284-308 | For every string, rewriting a normalised path is rewriting the path, whether names are kept or dropped. |
| `PathTemplates.NormalizeIsIdempotent` | scripts/gen-openapi/discover.go:284-286 | Normalising a path twice is normalising it once, for every string. |
| `PathTemplates.PatternIsIdempotent` | scripts/gen-openapi/discover.go:306-308 | The same for the pattern, although "{}" is itself text the expression does not match. |
| `PathTemplates.NoMatchIsStable` | scripts/gen-openapi/discover.go:26 | Where no parameter starts in a path, rewriting the rest of the path does not create one. |
| `PathTemplates.MatchIsATemplate` | scripts/gen-openapi/discover.go:26 | The scanner matches exactly the braced names and the braced names with constraints, with the name and the length they have. |
| `PathTemplates.EndpointKeyIgnoresNormalization` | scripts/gen-openapi/discover.go:302-308 | The key of an endpoint is that of its normalised path, of its pattern, and of its method in any case. |
| `PathTemplates.EndpointKeyIsFaithful` | scripts/gen-openapi/discover.go:302-304 | Two endpoints share a key exactly when their methods agree up to case and their paths have one pattern, or a colon in a method text makes method and path run together; without colons there is no such case. |
| `PathTemplates.ColonMakesKeysRunTogether` | scripts/gen-openapi/discover.go:302-304 | Two different endpoints with one key, the method of one being a:b. |
| `PathTemplates.RewriteRendered` | scripts/gen-openapi/discover.go:26 | On a path written out of literal pieces and parameters, rewriting drops every constraint, and every name if asked, and touches nothing else. |
| `PathTemplates.KeyIgnoresNamesAndConstraints` | scripts/gen-openapi/discover.go:302-308 | Renaming or constraining template parameters does not change the key. |
| `PathTemplates.NamesOfNormalized` | scripts/gen-openapi/main.go:505-515 | The names read back from a normalised path are the template names in order, without constraints. |
| `PathTemplates.NamesOfBraced` | scripts/gen-openapi/main.go:505-515 | Between braces everything but a closing brace is a name. |
| `PathTemplates.NamesWithoutBraces` | scripts/gen-openapi/main.go:505-515 | Nothing is a name without a closing brace, or between braces with nothing in them. |
| `HandlerScan.UniqueStrings` | scripts/gen-openapi/discover.go:460-471 | Keeps the values of Unique, a function of the list. |
| `HandlerScan.UniqueKeepsFirstOccurrences` | scripts/gen-openapi/discover.go:460-471 | Same values, no repetition, in the order of their first occurrences. |
| `HandlerScan.ParseMethodsAndPath` | scripts/gen-openapi/discover.go:135-177 | The outcome depends on the words of the comment only, and is RouteOf of them; fewer than two words, no word starting with "/api", or no HTTP method before it yield none. |
| `HandlerScan.VerbInAnyCase` | scripts/gen-openapi/discover.go:179-186 | A text names an HTTP method in some spelling exactly when it lower-cases to get, post, put, patch or delete. |
| `HandlerScan.RouteExistsExactlyWhen` | scripts/gen-openapi/discover.go:135-177 | A comment yields a route exactly when one of its words starts with "/api" and, before that, one of those verbs is written in some spelling, alone or between slashes. |
| `HandlerScan.MethodsAreTheVerbsBeforeThePath` | scripts/gen-openapi/discover.go:152-172 | The methods are exactly those verbs, in lower case without repetition, in the order in which they are first written. |
| `HandlerScan.PathIsTheFirstApiWord` | scripts/gen-openapi/discover.go:153-160 | The path is the first word that starts with "/api", without the punctuation behind it. |
| `HandlerScan.TrimSpaceIs` | scripts/gen-openapi/discover.go:90-91 | Trimming takes off the white space on both sides and nothing else. |
| `HandlerScan.ExtractFunctionBody` | scripts/gen-openapi/discover.go:249-282 | The loop returns FunctionBody of the lines. |
| `HandlerScan.FunctionBodyIsTheBalancedStretch` | scripts/gen-openapi/discover.go:249-282 | The body is the stretch from the first line with an opening brace to the first line end from there up to which the lines from the func line on hold as many opening as closing braces, or the end of the file; without an opening brace it is empty. |
| `HandlerScan.NoFunctionNoBody` | scripts/gen-openapi/discover.go:250-257 | Without a func line there is none. |
| `HandlerScan.CountBraces` | scripts/gen-openapi/discover.go:264-272 | The depth grows by the number of opening braces of a line and shrinks by that of its closing ones. |
| `HandlerScan.UnlinesIsJoin` | scripts/gen-openapi/discover.go:273-276 | The text of a body is its lines, each with its line end. |
| `HandlerScan.FunctionBodyIsUnique` | scripts/gen-openapi/discover.go:262-280 | There is only one such stretch. |
| `QueryComments.EntriesAreReadInOrder` | scripts/gen-openapi/discover.go:188-212 | A comment yields one parameter for each of its non-blank entries, in their order, and no other: named by the trimmed text before the first parenthesis and typed by the hint in it, if the entry has the form name(hint), and otherwise a string named as the entry reads. |
| `QueryComments.WrittenEntriesAreReadBack` | scripts/gen-openapi/discover.go:188-212 | Entries written between commas, with white space around them, are read back one by one: a round trip from the entries to the parameters they mean. |
| `HandlerFile.DiscoverQueryParamsFromBody` | scripts/gen-openapi/discover.go:214-247 | The names read from the query and the form, each once with what its first reading implies, sorted by name. |
| `HandlerFile.ReadCommentBlock` | scripts/gen-openapi/discover.go:103-122 | The parameters mentioned in the comment block below the announcement, and the line it ends on. |
| `HandlerFile.CommentEndIsMaximal` | scripts/gen-openapi/discover.go:103-122 | The block holds only comments, at most six lines, and stops early only at a line that is none. |
| `HandlerReading.LinesAreTrimmed` | scripts/gen-openapi/discover.go:84-105 | Of a line only the white space around it is lost. |
| `HandlerReading.AnnouncementIs` | scripts/gen-openapi/discover.go:84-95 | A line announces an endpoint exactly when it is a "handles" comment whose route has a word starting with "/api" and a verb before it; the summary is the comment's. |
| `HandlerReading.BlockIs` | scripts/gen-openapi/discover.go:103-109 | A comment block goes on for as many lines as start with "//", but not for more than six. |
| `HandlerReading.BlocksAddUp` | scripts/gen-openapi/discover.go:104-122 | A block mentions what its lines mention, one after the other. |
| `HandlerReading.LineMentions` | scripts/gen-openapi/discover.go:110-120 | A line mentions the path parameter of a "Path param:" comment and the query parameters of a "Query params:" comment. |
| `HandlerReading.PathImplies` | scripts/gen-openapi/discover.go:288-300 | A path implies a parameter for each of its names, in order, with the type and description its name implies. |
| `HandlerReading.BodyImplies` | scripts/gen-openapi/discover.go:214-247 | A body implies one query parameter for every name read from the query or from a form, in strict name order; a name read from the query says whether it is required, one from a form alone does not. |
| `HandlerReading.EndpointSays` | scripts/gen-openapi/discover.go:84-128 | The endpoint taken from a line has the verbs its route writes before the path, the path normalised, the comment's summary, and the parameters of the block below merged with what path and body imply. |
| `DefaultTables.HintsNameTypes` | scripts/gen-openapi/discover.go:434-445 | The hints that name a type, in any case; every other means a string. |
| `HandlerFile.ParseHandlerFile` | scripts/gen-openapi/discover.go:79-133 | The endpoints come, one each and in order, from the lines EndpointLines lists, and each has the methods, path, summary and merged parameters its line, comments and body call for. The loop terminates despite its index jump. |
| `HandlerFile.EndpointLinesAreComplete` | scripts/gen-openapi/discover.go:83-130 | These lines increase strictly, their comment blocks do not overlap, and an announcing line is left out exactly when it lies in the comment block of an earlier line that yields an endpoint. |
| `HandlerFile.AllLinesAreTakenExactlyWhen` | scripts/gen-openapi/discover.go:83-130 | Every announcing line is taken exactly when none lies in the comment block of another, a condition on the lines alone. |
| `HandlerFile.AllAnnouncementsYieldExactlyWhen` | scripts/gen-openapi/discover.go:83-130 | The same of a file: every announcement yields an endpoint exactly when none stands in the comment block of another. |
| `HandlerFile.SecondAnnouncementIsLost` | scripts/gen-openapi/discover.go:104-129 | Of three announcements in one run of comments the second is lost in the block of the first, and the third is taken again although it stands in the block of the second. |
| `HandlerFile.ParsedEndpointsAreWellParsed` | scripts/gen-openapi/discover.go:97-128 | Every parsed endpoint has distinct lower-case HTTP methods, a normalised path, path parameters only in the path and query parameters only in the query. |
| `PathComments.OnlyDefaultIsLeftExactlyWhen` | scripts/gen-openapi/discover.go:110-126 | The last comment about a parameter of the path always gives way to the default derived from the path; the merged list holds nothing but the default of that name exactly when every earlier comment of that name equals it anyway. |
| `PathComments.CommentsNeverShowExactlyWhen` | scripts/gen-openapi/discover.go:318-358 | For all comment lists the scan can produce, over every admissible sort and any overrides: the path parameters of the endpoint's own path are what they would be without comments exactly when each has its description overridden or is hidden, that is, no earlier comment about it says anything new, nor, if one of them says nothing, any entry that can stand at its position. |
| `PathComments.SingleCommentsNeverShow` | scripts/gen-openapi/discover.go:318-358 | With at most one comment for each parameter none ever shows. |
| `PathComments.FirstOfTwoCommentsCanShow` | scripts/gen-openapi/discover.go:110-126 | Of two comments about one parameter the first, if it says something new, survives every sort and shows under one. |
| `PathComments.CommentsAreAsWritten` | scripts/gen-openapi/discover.go:110-117 | The comments of every block are of the kind these results are about. |
| `PathComments.RenamedRouteShowsOtherDescription` | scripts/gen-openapi/discover.go:337-351 | A comment without description about user in the handler of /{id}: the parameter of the route /{user}, the same endpoint, shows the description of id. |
| `EndpointDiscovery.Accumulate` | scripts/gen-openapi/discover.go:45-66 | After the endpoints of one more file every key's entry is what all occurrences of that key so far make it, in order; keys that do not occur have none. |
| `EndpointDiscovery.DiscoverHandlerEndpoints` | scripts/gen-openapi/discover.go:29-69 | The map is accumulated from what the handler sources of the directory yield, file after file, and from nothing else; tests, directories and other files are passed over. |
| `EndpointDiscovery.HandlerSourcesAre` | scripts/gen-openapi/discover.go:37 | The handler sources are the files named something.go other than those named something_test.go. |
| `EndpointDiscovery.EntryKeepsFirst` | scripts/gen-openapi/discover.go:49-64 | An entry has the method and path of the first occurrence of its key and the first non-empty summary. |
| `EndpointDiscovery.AccumulatedKeys` | scripts/gen-openapi/discover.go:45-66 | The keys are exactly those of the parsed method and path pairs, and every entry is filed under the key of its own method and path. |
| `EndpointDiscovery.HistoryIsComplete` | scripts/gen-openapi/discover.go:45-66 | No occurrence of a key is left out of its history. |
| `EndpointDiscovery.DiscoveryIsWellDiscovered` | scripts/gen-openapi/discover.go:29-69 | What the rest of the generator relies on: keys, verbs, normalised paths, locations. |
| `DiscoveryCoverage.DiscoveredKeysAreAnnounced` | scripts/gen-openapi/discover.go:29-69 | From the text to the map: its keys are exactly those of the methods and paths announced on the lines that the scans of the handler sources take. |
| `Determined.EntryIsDetermined` | scripts/gen-openapi/discover.go:49-64 | If no occurrence repeats a parameter, the whole entry of a key does not depend on the sort: first method and path, first summary, all parameters merged in order. |
| `Determined.GroupingIsIrrelevant` | scripts/gen-openapi/discover.go:45-66 | The entries of two groups of handler files put together are the whole entry of both. |
| `Determined.FileIsDetermined` | scripts/gen-openapi/discover.go:79-133 | A file whose comment blocks repeat no parameter yields one list of endpoints only. |
| `Determined.DiscoveryIsDetermined` | scripts/gen-openapi/discover.go:29-69 | If no comment block repeats a parameter, discovery is a function of the text of the directory. |
| `Parameters.MergeDiscoveredPathParams` | scripts/gen-openapi/discover.go:318-358 | One parameter per template name: default, positional fallback, discovery by name, override, in that order. |
| `Parameters.HeadOfPairMerge` | scripts/gen-openapi/discover.go:349-354 | The head of a two-list merge of a path parameter is the path parameter, overridden by the other exactly if that is a path parameter too, whatever the sort does. |
| `Parameters.PathParamIsSettled` | scripts/gen-openapi/main.go:329-336 | Every path parameter keeps its template name and its location, and applying an override already applied is a no-op. |
| `Parameters.BuildQueryParams` | scripts/gen-openapi/main.go:319-325 | Overrides merged one by one onto the discovered query parameters make one batch merge with all query overrides. |
| `Parameters.BuildParameters` | scripts/gen-openapi/main.go:307-341 | The parameters show what discovery filed under the key of the operation and what the route declares: a query parameter for every name that either has, with the type, format, example, description and required flag last set there, or else implied by its name; and for every template name a path parameter with what the route's last definition of it sets, else the last discovered one, else the discovered one at its position, else what its name implies. Without an entry the route alone decides. |
| `Parameters.ParametersAreWellPlaced` | scripts/gen-openapi/main.go:307-341 | Section 4.7.12 of OpenAPI 3.0.3: exactly the template names in route order, all in the path, then only query parameters in strict name order; no (name, in) pair twice exactly when no template name is repeated. |
| `Parameters.RenderingShowsWhatIsSet` | scripts/gen-openapi/main.go:343-396 | Everything a definition sets is shown, and type and description of path and query parameters are never empty; only a path parameter's own format gives way to the one inferred from its name, exactly when it has no example and the two differ. |
| `Parameters.PathParameterIsRequiredUnless` | scripts/gen-openapi/main.go:376-379 | Section 4.7.12.1: a path parameter is required except exactly when the last route parameter of its name is a path override with required: false. So the generator can emit an optional path parameter. |
| `Parameters.OverrideReachesPathParamOnlyIfInPath` | scripts/gen-openapi/main.go:329-333 | An override offered to a path parameter is applied to it exactly when it says in: path, or sets nothing; one without a location is filed as a query parameter and ignored. |
| `Parameters.DiscoveryOrderIsIrrelevant` | scripts/gen-openapi/discover.go:318-358 | If discovery knows every template name by that distinct name with type and description and no format or example, every order of its list gives the same result. |
| `Parameters.OwnDescriptionShowsExactlyWhen` | scripts/gen-openapi/discover.go:337-351 | A parameter discovered by name shows its own description, or its default if it has none, exactly when it has one or the entry that stands at its position says nothing else. |
| `Parameters.DescriptionNeverLeaksExactlyWhen` | scripts/gen-openapi/discover.go:337-351 | It does so under every order of the list exactly when it has one, or no entry says anything but that default. |
| `Parameters.FormatNeverLeaksExactlyWhen` | scripts/gen-openapi/discover.go:337-351 | The same of formats, for arbitrary lists given to the function; discovery itself never sets a format. |
| `Spec.CollectKnown` | scripts/gen-openapi/main.go:399-404 | The keys of all declared method and path pairs. |
| `Spec.AugmentRoutesFromDiscovery` | scripts/gen-openapi/main.go:398-428 | The declared routes followed by one route for each unknown discovered key in sorted order. |
| `Spec.AugmentedRoutesCoverDiscovery` | scripts/gen-openapi/main.go:398-428 | The declared routes stay in front, and the keys afterwards are exactly the declared and the discovered ones. |
| `Spec.AddedRoutesAreNewAndDistinct` | scripts/gen-openapi/main.go:413-425 | The added keys are discovered, were not declared, and increase strictly; each added route has the path, the one lower-cased method and the summary of the endpoint of its key, and the tag and security its path implies. |
| `Spec.AugmentingIsIdempotent` | scripts/gen-openapi/main.go:398-428 | Augmenting an augmented list adds nothing. |
| `Spec.AugmentingIsDetermined` | scripts/gen-openapi/main.go:405-411 | The outcome depends on routes and discovery only, not on map order. |
| `Spec.BuildPaths` | scripts/gen-openapi/main.go:156-219 | The nested loops build PathsAfter of all routes. |
| `Spec.OperationShowsSources` | scripts/gen-openapi/main.go:168-214 | An operation has the tag and summary of its route, the security it asks for, a body exactly for post, put and patch, an identifier made of method and path, and the parameters that discovery and the route call for. |
| `Spec.SlugsAre` | scripts/gen-openapi/main.go:299-305 | In the identifier slashes become underscores, braces vanish, and all else stays. |
| `Spec.PathsHoldLastDeclarations` | scripts/gen-openapi/main.go:160-218 | At every point of the loops a (path, method) pair holds the operation of its last declaration so far, or none. |
| `Spec.PathsMirrorRoutes` | scripts/gen-openapi/main.go:160-218 | Section 4.7.8: a (path, method) pair has an operation exactly when a route declares it up to case, and it is that of the last such route. |
| `Spec.EveryEndpointIsDocumented` | scripts/gen-openapi/main.go:156-219 | A key is declared or discovered exactly when some documented (path, method) pair has it. |
| `Spec.OneSpellingExactlyWhenAgreed` | scripts/gen-openapi/main.go:156-219 | Section 4.7.8 forbids two spellings of one templated path: the document has none exactly when declared routes and undeclared endpoints agree on their spellings; the generator does not enforce it. |
| `Spec.OtherSpellingUnderOtherVerbClashes` | scripts/gen-openapi/main.go:413-425 | A route and a handler that spell one template differently under different methods break it. |
| `Spec.RenamedTemplatesClash` | scripts/gen-openapi/discover.go:302-308 | Every renaming of template parameters, whatever stands around them, gives two spellings of one pattern that different methods keep apart. |
| `Generator.DocumentedParametersAreWellPlaced` | scripts/gen-openapi/main.go:196-198 | Every operation of the document has the parameters its own path calls for, well placed. |
| `Generator.DocumentedOperationsShowSources` | scripts/gen-openapi/main.go:156-219 | Every operation of the document is that of the last route declaring its path and method, headed as that route says and with the parameters that discovery and the route call for. |
| `Generator.AnnouncedEndpointsAreDocumented` | scripts/gen-openapi/main.go:67-75 | Whatever a handler source announces, on a line its scan takes, has an operation in the document. |
| `Generator.Generate` | scripts/gen-openapi/main.go:67-75 | End to end, from the texts of a handler directory: the paths are those of the declared routes completed by the discovered ones; they have operations for exactly the declared and discovered keys, each with well-placed parameters, and every declared path. |
| `Generator.DocumentIsDetermined` | scripts/gen-openapi/main.go:67-75 | Routes and discovered endpoints leave only one document, whatever the order of map iterations. |
| `Generator.GenerationIsDetermined` | scripts/gen-openapi/main.go:67-75 | If no comment block repeats a parameter, the document is a function of the routes and the text of the handler directory. |
| `Generator.DocumentHasOneSpellingExactlyWhen` | scripts/gen-openapi/main.go:156-219 | Section 4.7.8 for the generator's own patterns and keys: one spelling of every templated path exactly when declared routes and unknown endpoints agree on theirs. |
| `Generator.RenamingBreaksOneSpelling` | scripts/gen-openapi/main.go:413-425 | A route and a handler of another method that name the parameters of any template differently give a document that breaks it. |
| `Uptime.StepKeepsAccounts` | services/health-check-service/main.go:325-445 | Every step of creation, touch, tick and read keeps the accounting invariant, in any interleaving. |
| `Uptime.UptimePlusSkippedIsElapsed` | services/health-check-service/main.go:361-371 | In every reachable state the time from FirstSeen to LastSeen is TotalUptime plus the time creation and touches skipped; ticks with a stale clock value included. |
| `Uptime.UptimeNeverExceedsElapsed` | services/health-check-service/main.go:789-804 | In every reachable state the reported uptime is at most 100 percent, whenever the reader took its clock value. |
| `Uptime.HealthyReportsAgeMinusSkipped` | services/health-check-service/main.go:801-804 | What is reported of a healthy service is its age minus the skipped time; it is a full 100 percent exactly when nothing was skipped, whatever outages there were. |
| `Uptime.TickedIsTick` | services/health-check-service/main.go:336-373 | What a tick comes to: the status it is told, lastSeen and uptime moved by a healthy tick only, downtime counted by an unhealthy one, an incident opened on a drop from healthy, and the open one resolved, and its duration counted, on a recovery. |
| `Uptime.ReportIs` | services/health-check-service/main.go:793-804 | While a service is held healthy the time since LastSeen is reported besides its total; a service seen first at this moment counts as a second old. |
| `Uptime.StepKeepsChronicle` | services/health-check-service/main.go:337-359 | Every step keeps the incident invariant. |
| `Uptime.IncidentsAreTheObservedDrops` | services/health-check-service/main.go:337-359 | In every reachable state incidents are ordered and disjoint, only the last may be open, it is open exactly when the last status is unhealthy and the list not empty, and there are as many as observed drops from healthy to unhealthy. |
| `Uptime.TotalsAddUpExactlyWhen` | services/health-check-service/main.go:346-371 | TotalDowntime is the resolved incidents' time plus the gaps unhealthy ticks counted besides; uptime and downtime add up to the time covered exactly when all that equals the skipped time. |
| `Uptime.StepLowersTotalExactlyWhen` | services/health-check-service/main.go:361-371 | A step lowers a total exactly when it applies a clock value older than LastSeen: TotalUptime if the service is then healthy, TotalDowntime if not. |
| `Uptime.AtomicTickIsNeverStale` | services/health-check-service/main.go:327 | A tick that applies the clock value at the time it reads it never does. |
| `Uptime.TotalsNeverDecrease` | services/health-check-service/main.go:346-371 | Along every run without stale ticks both totals never decrease. |
| `Uptime.RunWithoutStaleTicksIsSound` | services/health-check-service/main.go:346-371 | In such runs TotalDowntime is at least the summed durations of the resolved incidents, each EndTime minus StartTime, and the report lies between 0 and 100 percent. |
| `Uptime.ReportIsNegativeExactlyWhen` | services/health-check-service/main.go:793-804 | In every reachable state the reported uptime is negative exactly when more time was skipped than lies between FirstSeen and the reader's clock value, or LastSeen while the service is not held healthy. |
| `Uptime.TotalTurnsNegativeExactlyWhen` | services/health-check-service/main.go:361-365 | A step takes TotalUptime below zero exactly when it is a healthy tick whose clock value lies further behind LastSeen than the total covers. |
| `Uptime.StaleTickReportsNegativeUptime` | services/health-check-service/main.go:325-371 | A run with one stale tick after which the reported uptime is negative. |
| `Uptime.OutageGrowsWithTheSquare` | services/health-check-service/main.go:366-371 | n unhealthy ticks a period apart add n(n+1)/2 periods of downtime, because LastSeen stays. |
| `Uptime.OutageCountsAsUptimeAndDowntime` | services/health-check-service/main.go:346-371 | On a recovery that no health request has seen before the ticker, the whole outage is counted as uptime, on top of n(n+3)/2 periods of downtime; the two add up to the elapsed time exactly when no tick saw the outage. |
| `Uptime.TouchedRecoverySkipsTheOutage` | services/health-check-service/main.go:436-445 | On a recovery that a health request has seen first, the time up to its touch is left out of the uptime; the totals then add up exactly when one tick saw the outage and the touch came with the healthy tick. |
| `UptimeService.ServiceUptime.Tick` | services/health-check-service/main.go:336-373 | The in-place update of a tracker by the ticker is the state machine's. |
| `UptimeService.ServiceUptime.Touch` | services/health-check-service/main.go:436-445 | The in-place update by a handler is the state machine's. |
| `UptimeService.ServiceUptime.Available` | services/health-check-service/main.go:794-822 | What is reported of one tracker. |
| `UptimeService.AvailabilityShows` | services/health-check-service/main.go:793-822 | The report shows the tracker's own totals, status, number of incidents and last incident beside the percentage. |
| `UptimeService.LastReportIsStored` | services/health-check-service/main.go:497-499 | Of every service the last report is stored; what is not reported stays as it was. |
| `UptimeService.PlaceholdersFillTheVoid` | services/health-check-service/main.go:864-896 | Placeholders are stored only if nothing was stored before and nothing is reported. |
| `UptimeService.HealthCheck.GetOrCreate` | services/health-check-service/main.go:379-396 | Returns the service's tracker, a fresh one filed under its name if there was none; nothing else changes. |
| `UptimeService.HealthCheck.UpdateTrackers` | services/health-check-service/main.go:435-445 | Trackers for all reported services, new ones in their initial state; of the others only LastSeen moves, and exactly for those reported healthy while not held healthy. |
| `UptimeService.HealthCheck.TrackUptime` | services/health-check-service/main.go:325-374 | Every tracker is ticked once at one clock value: as healthy exactly when a healthy check of its service is stored, and else as unhealthy; the outcome is reachable in the state machine. |
| `UptimeService.HealthCheck.GetServiceAvailability` | services/health-check-service/main.go:783-829 | Every tracker is reported, between 0 and 100 percent. |
| `UptimeService.HealthCheck.HandleHealthCheck` | services/health-check-service/main.go:403-500 | A whole health request: trackers, report, stored checks. |
| `UptimeService.HealthCheck.HandleMetrics` | services/health-check-service/main.go:827-905 | A metrics request stores what it has checked, or placeholders if nothing is stored, touches no tracker, and reports every tracker between 0 and 100 percent. |
| `UptimeService.HealthCheck.ExportAvailability` | services/health-check-service/main.go:1001-1031 | Every tracker is reported at a clock value of its own read during the call, between 0 and 100 percent. |
| `UptimeService.UpdatedByOneMore` | services/health-check-service/main.go:435-445 | One more report extends what a list of reports does to the trackers, repeated services included. |
| `UptimeService.TickIsARun` | services/health-check-service/main.go:325-374 | A round of the ticker over all trackers is a run of the state machine without stale ticks. |
| `UptimeService.UpdateIsARun` | services/health-check-service/main.go:379-445 | So is a handler's creation and touch of one tracker. |
| `UptimeService.RealisedIsWithinBounds` | services/health-check-service/main.go:789-804 | Whatever such runs lead to is reported between 0 and 100 percent. |
| `Auth.BearerRoundTrips` | shared/pkg/auth/interceptor.go:159-165 | The token of "Bearer " and a token is that token, spaces and all (section 2.1 of RFC 6750). |
| `Auth.TokenIsWhatFollowsBearer` | shared/pkg/auth/interceptor.go:159-165 | A header carries a token exactly when it is the bearer scheme in some spelling, one space, and the token. |
| `Auth.UnaryAdmitsExactlyWhen` | shared/pkg/auth/interceptor.go:35-87 | A call is admitted exactly when its method's gate opens, and an admission changes nothing but the identity, to what the validator says of the presented token. |
| `Auth.RefusalsSayWhy` | shared/pkg/auth/interceptor.go:62-78 | A refused call is told why: about metadata, the service token of an internal method, the bearer header, its format, or the validator's own error. |
| `Auth.StreamsAreTreatedAlike` | shared/pkg/auth/interceptor.go:91-156 | For every method, metadata and validator streams are admitted, refused with the same message, and given the same context as unary calls. |
| `Auth.Attached` | shared/pkg/auth/outgoing.go:12-31 | The two headers after attaching; identity, incoming metadata and all other headers stay. |
| `Auth.AttachedHeaders` | shared/pkg/auth/outgoing.go:12-31 | In the headers' own words: a first value that is not empty is left alone; otherwise the secret is appended, and an authorization made of the user's token or else passed on as it came. |
| `Auth.AttachIsIdempotentExactlyWhen` | shared/pkg/auth/outgoing.go:12-31 | Attaching twice is attaching once exactly unless a value would be added behind an empty first one. |
| `Auth.CallKeepsTokenExactlyWhen` | shared/pkg/auth/outgoing.go:12-31 | A call made from a handler passes on the presented token exactly when the identity the handler was given names no other token. |
| `Auth.CallCarriesSecret` | shared/pkg/grpc/dial.go:86-108 | A call presents the caller's secret as service token, once more if the method is internal, and all other metadata as sent; it cannot be made exactly when the method needs a secret and there is none. |
| `Auth.AuthServiceValidatorIsFaithful` | shared/pkg/auth/token_validator.go:33-50 | The validator built on the auth service accepts exactly the tokens that service calls valid, as the user it names and with the token it was asked about. |
| `Auth.ChainKeepsToken` | shared/pkg/auth/outgoing.go:12-31 | In call chains of any length and any mixture of methods every handler reached is presented the first call's token, and told the identity its own validator gives that token. |
| `Auth.ChainCompletesExactlyWhen` | shared/pkg/auth/interceptor.go:35-87 | A chain reaches its last handler exactly when every gate on the way opens to the first call's token, or, for internal methods, to the secret of the service before. |
| `Sockets.JoinedGroups` | websocket-gateway/server.js:78-81 | The connection handler turns the grouping of the open connections into that with the new one. |
| `Sockets.LeftGroups` | websocket-gateway/server.js:101-107 | The disconnect handler turns it into that without the closed one. |
| `Sockets.IndexIsTheGrouping` | websocket-gateway/server.js:78-108 | After every run of connects with fresh ids and disconnects, userSockets is the grouping of the open connections by user. |
| `Sockets.IndexIsExact` | websocket-gateway/server.js:78-108 | So every user is kept with exactly the sockets they have open, no user without sockets and no socket for two users; the sizes add up to the open connections, and the users are those with a connection. |
| `Sockets.NumbersNameTheirUsers` | websocket-gateway/server.js:134-136 | Ids of messages that are integers JavaScript holds exactly lead to different rooms exactly when they differ, and to a user's room exactly when the user's id is their decimal form. |
| `Sockets.UserRoomHoldsUserSockets` | websocket-gateway/server.js:84 | A user's room holds exactly that user's open sockets. |
| `Sockets.EachIsOnce` | websocket-gateway/server.js:136 | An emit makes as many deliveries as there are sockets addressed. |
| `Sockets.EveryAddressedSocketIsReached` | websocket-gateway/server.js:131-171 | A status change and a notification reach exactly the open sockets of the user they name, each once; a feature change makes one delivery for each socket of the old owner and one for each of the new. Users are named by the value of a field, by cases; falsy values name nobody. |
| `Sockets.NothingElseIsDelivered` | websocket-gateway/server.js:127-182 | Nothing is delivered on another channel or for a message that does not parse. |
| `Sockets.PayloadsCarry` | websocket-gateway/server.js:144-168 | A feature change carries the message with the receiver's part in it, a notification seven fields of it and the time. |
| `Sockets.FalsyValues` | websocket-gateway/server.js:134-159 | The values that name nobody. |
| `Sockets.PropertyIs` | websocket-gateway/server.js:134-159 | Reading a field throws of undefined and null only, and finds nothing in other values without fields. |
| `Sockets.UserTypesDiffer` | websocket-gateway/server.js:144-153 | The two deliveries to one who is both old and new owner differ. |
| `Sockets.DecimalIsReadBack` | websocket-gateway/server.js:136 | The decimal form of a number is read back as that number and has no leading zero. |
| `Sockets.Gateway.Connect` | websocket-gateway/server.js:77-84 | Records the connection; the index and the rooms stay in step with the open connections. |
| `Sockets.Gateway.Disconnect` | websocket-gateway/server.js:99-108 | Forgets it; likewise. |
| `Sockets.Gateway.HandleMessage` | websocket-gateway/server.js:127-171 | Deliveries computed from the rooms are those the open connections call for, on every channel; falsy or unreadable ids and unparsable messages reach nobody. |

## Left out

- The lookup tables (parameter types, formats, examples, descriptions, tags, security, required names) are the fields of the record Defaults, arbitrary functions of a name or path; the concrete entries are single-branch facts.
- The regular expressions of comments and function bodies are the fields of the record Grammar, arbitrary functions of a line or body; the path expression is modelled as a scanner with its leftmost match.
- Tags, servers, responses, info and components of the document; YAML output; `loadAppURL`, `findRepoRoot`; file and directory errors.
- Uniqueness of operation ids: slashes become underscores and braces are dropped, so different paths can share one.
- Sorting with locations other than path and query: with a third location the comparator is not a strict weak order; only the two-list case that `buildParameters` needs is stated for them.
- An order between a route's template names and the discovered list: the list is sorted by name, so only the correspondence by name is stated.
- Text.CaseRoundTrips: case mapping is the ASCII one throughout; characters such as the long s, which Unicode folds into ASCII letters, are not modelled.
- Strings are sequences of characters, and compared by character.
- Spec.AugmentRoutesFromDiscovery: stated for an arbitrary keying of (method, path) pairs, of which `endpointKey` is the one used.
- Durations are unbounded integers in nanoseconds; saturation of `time.Duration` and the rounding of the percentage to a float are not modelled.
- UptimeService.HealthCheck.TrackUptime: one uninterrupted call; interleavings of several goroutines are the subject of module Uptime. The unsynchronised accesses to lastHealthCheck appear there as an arbitrary status for each tick.
- The order in which `range` visits a map is arbitrary; the check functions, counters, overall status and JSON of a health request are not modelled.
- The rounding of exported percentages and the service labels of the metrics exporter are not modelled; in module Uptime it is a reader whose clock value is current.
- The concrete method lists of the interceptors are the sets of a Policy; the environment variable holding the secret is a parameter of each service; constant-time comparison is equality.
- Headers the transport adds of its own, trimming of header values, and gRPC status codes (always Unauthenticated) are not modelled; a validator depends on the token only, not on deadlines.
- Sockets.Gateway.Connect: authentication of the handshake, the welcome message, ping and error handlers are not modelled; a socket's own room, which no handler addresses, is left out.
- Sockets.NumbersNameTheirUsers: numbers in messages are integers below 2^53 in size; larger ones, which JavaScript rounds and may show with an exponent, fractional ones and arrays are not modelled.
- Database and cache probes, connection retries, Prometheus text, Sentry, server start-up and shutdown; the generated protobuf code.
