# KnRoute routing core in Dafny

This project models the compile-then-match routing engine of KnRoute, a PHP
router driven by route attributes, together with two small rule sets that sit
beside it: the request helpers of `HttpUtils` and the prop filtering of the
Inertia plugin.

- **Pattern compiler** (`compiler.dfy`, `compiler_lemmas.dfy`). The
  extraction pass rewrites each `{name:type}` of a route path into `{name}`.
  It records the type's fragment from the closed registry of seven tags
  (slug, hex, alpha, letters, num, any, all). A missing or unknown tag is
  `BadVarType`. The pattern pass scans the `{name}` / `{!name}` placeholders
  and checks the names: a leading digit, a repeated name and a name longer
  than 32 bytes are each an error. It then cuts the path into text and
  variable tokens, where a separator just before a placeholder moves into the
  variable token. Finally it emits the anchored regex `{^…$}sD`, the static
  prefix and the ordered variable names (the `CompiledRoute` record). The
  loops of the source (`extractVarsRegex`, the placeholder `foreach`, the
  regex `for`, `transformCapturingGroupsToNonCapturings`) are methods. Each is
  proved equal to a recursive definition, and the properties are lemmas about
  that definition.
- **Route attribute** (`attributes.dfy`). `Route` is a class with the
  source's fields and setters. Its `compile()` memoises, and the first call
  rewrites the path and installs the fragments. The `Get`/`Post`/`Put`/
  `Patch`/`Delete`/`Any` attributes are a `Shortcut` value that fixes the
  method list.
- **Table builder** (`dumper*.dfy`, `table.dfy`).
  - Routes are split into a static map and an ordered dynamic list by the
    order-sensitive demotion rule.
  - The dynamic list is cut into chunks of at most `chunkLimit` routes.
  - Each chunk is spelled as one regex whose leaves end in `(*:mark)`. The
    spelling goes through the shared `$state` object (a `DumpState` class)
    and the recursive `compileStaticPrefixCollection`.
  - The model proves that every mark, less the chunk's key, is the index of
    its verb's `:` in the chunk string.
  - Marks increase across all chunks.
  - The route lists reached through the marks, in order, are exactly the
    routes' entries followed by one `null`.
  - For a route the compiler produced, the `?P<name>` groups the dumper
    strips from its regex are its path variables, in order, so each stored
    entry carries them (`dumper_names.dfy`).
  - A retry loop shrinks the chunk limit when the regex is too large.
- **Matcher** (`router.dfy`, `router_props.dfy`, `router_run.dfy`).
  - The static tier is tried first, then each chunk in key order. Refused
    method lists are merged into `allow`, and captures are bound by position.
  - A spent mark is disabled in place by `substr_replace`. The model proves
    that this rewrite, at `m - offset`, turns exactly that alternative's
    `(*:m)` into `(*F)` and keeps later marks addressed.
  - The while loop with its rewrites equals a reference scan that tries
    every matching alternative in order. That scan in turn equals a flat
    candidate list, so the first registered route that matches and accepts
    the method wins.
  - `match` gives the action, a 405 with the allowed methods, or a 404.
- **Request helpers** (`httputils.dfy`). These cover path and host
  normalisation, header-name normalisation and the header map built from
  `$_SERVER`. They also cover the order in which IP sources are tried and
  the memoised getters, modelled as a `Request` class whose cache fields are
  filled on first use.
- **Inertia** (`inertia.dfy`). This covers the keep/drop/evaluate rule of
  `evaluateProps`, the share and view-data maps (an `InertiaState` class),
  and the partial-request and version decisions of `render`.

PHP arrays that keep insertion order are sequences of key/value pairs.
Strings are sequences of bytes (one `char` per byte). The regex engine is an
oracle:
- `rxMatch(regex, url)` is used for the demotion test;
- `leafMatch(mark, path)` gives the captures of the alternative carrying
  `mark`, or nothing;
- `tooLarge(regex)` stands for the compile error trapped by the dumper.

`StaticPrefixCollection` is not part of this model. Its tree is a parameter
`build` that is assumed to keep the leaves in insertion order and to nest
prefixes (`BuildsTree`). `filter_var` is the parameter `validIp`. Closures
are opaque `Thunk`s whose results the parameter `call` gives.

`CompiledRoute` (src/Routes/CompiledRoute.php) is an immutable datatype. Its
three getters are its fields, so no operation can change a field after
construction.

## Model

| member | source | states |
|---|---|---|
| `Common.Find` | src/Routes/RoutesCompiler.php:71 | strpos: a found index is at or after the offset and holds the byte |
| `Common.FindSkipped` | src/Routes/RoutesCompiler.php:71 | strpos finds the first occurrence: no byte between the offset and the result (or the end) is the searched one |
| `Common.Explode` | src/Routes/RoutesCompiler.php:76 | explode yields at least one piece, and the first is the text before the first separator |
| `Common.ExplodeTwo` | src/Routes/RoutesCompiler.php:76 | exploding `a:b` where neither side holds `:` gives exactly `[a, b]` |
| `Common.Splice` | src/Router.php:200 | substr_replace: the length changes by the replacement's length less the removed length |
| `Common.ReplaceAll` | src/Routes/RoutesCompiler.php:81 | str_replace with a replacement no longer than the pattern never lengthens the text |
| `Common.LowerStr` | src/HttpUtils.php:37 | strtolower keeps the length and lowercases each byte in place |
| `Common.Before` | src/HttpUtils.php:27 | the text before the first separator is no longer than the input, and when shorter the separator follows it |
| `Common.Digits` | src/Dumper/RoutesDumper.php:241 | strval of a mark is a non-empty run of decimal digits |
| `Common.PutLookup` | src/HttpUtils.php:252 | after `$a[$k] = $v`, looking up k gives v and every other key is unchanged |
| `Common.PutFacts` | src/HttpUtils.php:252 | assignment keeps keys distinct and adds no pair other than (k, v) |
| `Common.MergeLookup` | src/Plugins/Inertia/Inertia.php:164 | array_merge: a key of the second array takes its value there, any other key keeps the first array's value |
| `Common.MergeKeysOrder` | src/Plugins/Inertia/Inertia.php:164 | array_merge keeps the first array's keys first, in their order |
| `Common.AddMissing` | src/Router.php:168 | `$allow += array_flip(ms)` keeps allow as a prefix, holds exactly the old keys and the new methods, and adds no duplicate |
| `Common.AddMissingOrder` | src/Router.php:168 | `$allow += array_flip(ms)` appends exactly the methods not yet present, each once, in the order they are first listed |
| `RoutesCompiler.QuoteChar` | src/Routes/RoutesCompiler.php:239 | preg_quote of one byte starts with the byte itself or with a backslash |
| `RoutesCompiler.Quote` | src/Routes/RoutesCompiler.php:239 | preg_quote never shortens text, and a quoted text starts with its first byte or a backslash |
| `RoutesCompiler.ExtractStep` | src/Routes/RoutesCompiler.php:71-81 | each turn of the extraction loop strictly shrinks what is left to search, so the loop ends |
| `RoutesCompiler.AsWrittenStep` | src/Routes/RoutesCompiler.php:71-81 | each turn of the loop as written also shrinks what is left to search |
| `RoutesCompiler.AsWrittenTagStep` | src/Routes/RoutesCompiler.php:76-81 | the turn as written resumes just after the `{` and never lengthens the path |
| `RoutesCompiler.TagStep` | src/Routes/RoutesCompiler.php:74-81 | a rewrite resumes the search just after the `{` and never lengthens the path |
| `RoutesCompiler.StepNoOpen` | src/Routes/RoutesCompiler.php:71 | with no `{` after the search position, the loop ends with the path and the fragments gathered so far |
| `RoutesCompiler.StepNoClose` | src/Routes/RoutesCompiler.php:72 | a `{` with no later `}` is skipped and the search resumes after it |
| `RoutesCompiler.StepBraces` | src/Routes/RoutesCompiler.php:71-72 | a `{` followed by a `}` hands the enclosed text to the tag check |
| `RoutesCompiler.StepRewrite` | src/Routes/RoutesCompiler.php:79-81 | a registered tag rewrites `name:tag` to `name` at that placeholder and maps name to the tag's fragment |
| `RoutesCompiler.StepBadType` | src/Routes/RoutesCompiler.php:76-77 | no tag, or a tag outside the registry, is `BadVarType` of the name |
| `RoutesCompiler.ExtractFromStep` | src/Routes/RoutesCompiler.php:71-82 | the loop from one position is its first turn followed by the loop from the next state |
| `RoutesCompiler.ExtractFromNoOpen` | src/Routes/RoutesCompiler.php:71 | the whole loop returns the current path and fragments once no `{` is left |
| `RoutesCompiler.ExtractFromNoClose` | src/Routes/RoutesCompiler.php:72 | the whole loop skips an unclosed `{` |
| `RoutesCompiler.ExtractFromBadType` | src/Routes/RoutesCompiler.php:76-77 | the whole loop stops at the first bad tag with `BadVarType` |
| `RoutesCompiler.ExtractFromRewrite` | src/Routes/RoutesCompiler.php:74-81 | the whole loop continues on the rewritten path with the extended map, and the measure drops |
| `RoutesCompiler.ExtractVarsRegex` | src/Routes/RoutesCompiler.php:65-88 | the while loop returns exactly the extraction defined by `Extract` |
| `RoutesCompiler.WordRun` | src/Routes/RoutesCompiler.php:106 | the run of `[\w\x80-\xFF]` bytes is maximal: all word bytes, then a non-word byte or the end |
| `RoutesCompiler.PlaceholderAt` | src/Routes/RoutesCompiler.php:106 | a match at i spans exactly `{name}` or `{!name}` with a non-empty word name |
| `RoutesCompiler.PlaceholderSpan` | src/Routes/RoutesCompiler.php:106 | the bytes between the braces form the name and the span is the placeholder text |
| `RoutesCompiler.Scan` | src/Routes/RoutesCompiler.php:106 | preg_match_all yields successive, non-overlapping placeholder matches, left to right |
| `RoutesCompiler.RemovePlaceholders` | src/Routes/RoutesCompiler.php:221 | removing placeholders never lengthens the text |
| `RoutesCompiler.FindNextSeparator` | src/Routes/RoutesCompiler.php:213-226 | the next separator is `''` or a single byte of SEPARATORS |
| `RoutesCompiler.QuoteSeparator` | src/Routes/RoutesCompiler.php:153-154 | a separator quotes to itself or to backslash and itself, and is never a group byte |
| `RoutesCompiler.QuoteSlash` | src/Routes/RoutesCompiler.php:153 | preg_quote('/') without a delimiter is `/` |
| `RoutesCompiler.ExcludedPlain` | src/Routes/RoutesCompiler.php:154 | the excluded separator adds no group byte to the class |
| `RoutesCompiler.ExcludingClassPlain` | src/Routes/RoutesCompiler.php:151-163 | the default fragment `[^/X]+` (possessive or not) has no `(`, `?`, `<` or `>` |
| `RoutesCompiler.NonCapturing` | src/Routes/RoutesCompiler.php:251-270 | transforming groups never shortens the fragment |
| `RoutesCompiler.NonCapturingEscaped` | src/Routes/RoutesCompiler.php:254-257 | a backslash and the byte after it are copied unchanged |
| `RoutesCompiler.NonCapturingCopied` | src/Routes/RoutesCompiler.php:258-260 | a byte that is not `(`, or a `(` within the last two bytes, is copied |
| `RoutesCompiler.NonCapturingSkipped` | src/Routes/RoutesCompiler.php:261-264 | `(*` and `(?` are copied and skipped |
| `RoutesCompiler.NonCapturingInserted` | src/Routes/RoutesCompiler.php:265-266 | any other `(` gets `?:` inserted after it and the scan resumes past the insertion |
| `RoutesCompiler.TransformCapturingGroups` | src/Routes/RoutesCompiler.php:251-270 | the index loop that inserts into the string returns exactly `NonCapturing` of its input |
| `RoutesCompiler.SepOf` | src/Routes/RoutesCompiler.php:114-119 | the preceding separator is `''` or one byte |
| `RoutesCompiler.TokenizeStep` | src/Routes/RoutesCompiler.php:107-175 | an accepted placeholder adds the leading text token (if any) and its variable token, and appends its name |
| `RoutesCompiler.TokenizeDone` | src/Routes/RoutesCompiler.php:178-180 | after the last placeholder, the remaining text becomes one text token |
| `RoutesCompiler.RegexBodyAppend` | src/Routes/RoutesCompiler.php:184 | the regex of one more token is appended at the end |
| `RoutesCompiler.AnchoredRegex` | src/Routes/RoutesCompiler.php:183-185 | the for loop yields `{^` + the token regexes in order + `$}sD` |
| `RoutesCompiler.VariableRegex` | src/Routes/RoutesCompiler.php:140-166 | a variable's regex is its registered fragment made non-capturing, else the default fragment |
| `RoutesCompiler.TokenizePattern` | src/Routes/RoutesCompiler.php:98-180 | the foreach over placeholders returns exactly `Tokenize`, including its errors |
| `RoutesCompiler.CompilePattern` | src/Routes/RoutesCompiler.php:96-192 | compilePattern returns exactly `Compiled`, including the empty-path error |
| `CompilerProperties.NonCapturingShort` | src/Routes/RoutesCompiler.php:258 | a fragment shorter than three bytes is unchanged |
| `CompilerProperties.NonCapturingIdempotent` | src/Routes/RoutesCompiler.php:251-270 | transforming twice equals transforming once |
| `CompilerProperties.NonCapturingWithoutGroups` | src/Routes/RoutesCompiler.php:251-270 | a fragment with no group bytes is unchanged |
| `CompilerProperties.RegistryFragmentsPlain` | src/Routes/RoutesCompiler.php:32-40 | every registered fragment has no group bytes, so the transform leaves it unchanged |
| `CompilerProperties.RegistryPlain` | src/Routes/RoutesCompiler.php:32-40 | all seven fragments of the registry are free of group bytes |
| `CompilerProperties.ExtractRest` | src/Routes/RoutesCompiler.php:71-82 | for a path written as literal text and `{name:tag}` segments, extraction equals the reference `Expected`: each typed segment becomes `{name}` and name maps to its fragment, and the first bad tag is the error |
| `CompilerProperties.ExtractEnd` | src/Routes/RoutesCompiler.php:71 | once no segments remain, extraction returns the rewritten path |
| `CompilerProperties.TypedTurn` | src/Routes/RoutesCompiler.php:74-81 | a typed segment is rewritten or rejected, and the rewritten text holds no `{` after the search point |
| `CompilerProperties.TypedStep` | src/Routes/RoutesCompiler.php:74-81 | one turn on a typed segment gives `BadVarType` or the rewritten path with the map extended |
| `CompilerProperties.BracedSplice` | src/Routes/RoutesCompiler.php:79-81 | replacing the text between the braces by the name gives `{name}` in place |
| `CompilerProperties.BracedLayout` | src/Routes/RoutesCompiler.php:71-74 | strpos finds the segment's braces and the text between them |
| `CompilerProperties.ExtractWritten` | src/Routes/RoutesCompiler.php:65-88 | extraction of a whole written path is the reference `Expected` from the empty path |
| `CompilerProperties.ReplaceAllCopies` | src/Routes/RoutesCompiler.php:81 | str_replace copies a prefix that cannot start a match |
| `CompilerProperties.ReplaceAllShort` | src/Routes/RoutesCompiler.php:81 | str_replace leaves a text shorter than the pattern unchanged |
| `CompilerProperties.ReplaceAllSkip` | src/Routes/RoutesCompiler.php:81 | str_replace copies a first byte that cannot start a match |
| `CompilerProperties.ReplaceAllMatch` | src/Routes/RoutesCompiler.php:81 | str_replace replaces a match at the front and continues after it |
| `CompilerProperties.SuffixRewritten` | src/Routes/RoutesCompiler.php:81 | replacing `n:tag` everywhere also rewrites the second placeholder `{xn:tag}` into `{xn}` |
| `CompilerProperties.SuffixFirstTurn` | src/Routes/RoutesCompiler.php:71-81 | the first turn as written rewrites both placeholders of `/{n:tag}/{xn:tag}` |
| `CompilerProperties.AsWrittenTyped` | src/Routes/RoutesCompiler.php:74-81 | a turn as written with a registered tag gives the path replaced everywhere and the map extended |
| `CompilerProperties.AsWrittenBraces` | src/Routes/RoutesCompiler.php:71-72 | the turn as written hands the braces to its tag check |
| `CompilerProperties.SuffixSecondTurn` | src/Routes/RoutesCompiler.php:76-77 | the second turn as written finds `{xn}` with no tag and fails |
| `CompilerProperties.AsWrittenRejectsSuffixName` | src/Routes/RoutesCompiler.php:81 | as written, `/{n:tag}/{xn:tag}` is rejected with `BadVarType(xn)` |
| `CompilerProperties.AsWrittenNoTag` | src/Routes/RoutesCompiler.php:76-77 | braces with no `:` fail with `BadVarType` of their text |
| `CompilerProperties.ExtractAcceptsSuffixName` | src/Routes/RoutesCompiler.php:79-85 | rewriting only at the placeholder, `/{n:tag}/{xn:tag}` extracts to `/{n}/{xn}` with both names mapped |
| `CompilerProperties.SuffixExpected` | src/Routes/RoutesCompiler.php:79-85 | the reference definition of that path gives `/{n}/{xn}` with both names mapped |
| `CompilerProperties.Names` | src/Routes/RoutesCompiler.php:109 | the names list has one entry per placeholder, in order |
| `CompilerProperties.UnparseAppend` | src/Routes/RoutesCompiler.php:174 | the text spelled by tokens distributes over concatenation |
| `CompilerProperties.UnparseLead` | src/Routes/RoutesCompiler.php:134-171 | the leading text token plus the variable token (which carries the separator) spell exactly the preceding text and the placeholder |
| `CompilerProperties.LeadText` | src/Routes/RoutesCompiler.php:134-138 | the text token and the moved separator together are the preceding text |
| `CompilerProperties.VarNamesAppend` | src/Routes/RoutesCompiler.php:175 | the variable names of tokens distribute over concatenation |
| `CompilerProperties.CursorSplit` | src/Routes/RoutesCompiler.php:111-112 | the text from pos is the preceding text, the placeholder, and the rest |
| `CompilerProperties.TokenizeFromAccepts` | src/Routes/RoutesCompiler.php:123-132 | the foreach succeeds iff every remaining name is valid (non-empty, no leading digit, at most 32 bytes) and no name repeats; then the variables are the names in order |
| `CompilerProperties.TokenizeFromSpells` | src/Routes/RoutesCompiler.php:107-180 | the tokens only grow, spell exactly the remaining path text, and their variable names are the placeholders' names |
| `CompilerProperties.TrailingText` | src/Routes/RoutesCompiler.php:178-180 | the trailing text token completes the spelling and adds no variable |
| `CompilerProperties.PlaceholderTokens` | src/Routes/RoutesCompiler.php:134-175 | the tokens for one placeholder spell the text up to its end and add exactly its name |
| `CompilerProperties.AllValidSplit` | src/Routes/RoutesCompiler.php:123-132 | validity of the remaining names splits into the first name and the rest |
| `CompilerProperties.VarNamesLead` | src/Routes/RoutesCompiler.php:169-175 | the tokens for one placeholder name only that placeholder's variable |
| `CompilerProperties.TokenizeFacts` | src/Routes/RoutesCompiler.php:98-180 | tokenising succeeds iff all names are valid and distinct; the variables are the placeholder names left to right; the tokens spell the path and carry one variable per name, in order |
| `CompilerProperties.TokensEmpty` | src/Routes/RoutesCompiler.php:178-180 | there are no tokens exactly when the path is empty |
| `CompilerProperties.CompiledFacts` | src/Routes/RoutesCompiler.php:96-192 | compiling succeeds iff the path is non-empty and the names are valid and distinct; pathVariables are the names left to right |
| `CompilerProperties.StaticPrefixLeads` | src/Routes/RoutesCompiler.php:200-206 | the static prefix is a prefix of the text the tokens spell |
| `CompilerProperties.CompiledStaticPrefix` | src/Routes/RoutesCompiler.php:200-206 | the static prefix is a prefix of the path, and is the whole path when there are no variables |
| `Attributes.ShortcutMethods` | src/Attributes/Any.php:17-20 | a shortcut fixes at most one method, and none (any method) exactly for `Any` |
| `Attributes.ShortcutsDistinct` | src/Attributes/Get.php:17-20 | different shortcuts give different method lists |
| `Attributes.Route.constructor` | src/Attributes/Route.php:31-35 | a new route has the given methods and path, an empty action and fragment map, and nothing compiled |
| `Attributes.Route.FromShortcut` | src/Attributes/Get.php:17-20 | a shortcut attribute builds the route with its method list |
| `Attributes.Route.SetPath` | src/Attributes/Route.php:51-54 | sets the path and leaves every other field unchanged |
| `Attributes.Route.SetAction` | src/Attributes/Route.php:70-73 | sets the action and leaves every other field unchanged |
| `Attributes.Route.SetVarsRegex` | src/Attributes/Route.php:89-92 | sets the fragment map and leaves every other field unchanged |
| `Attributes.Route.GetVarRegex` | src/Attributes/Route.php:99-102 | null exactly for a name with no fragment, else that fragment |
| `Attributes.Route.Compile` | src/Attributes/Route.php:110-114 | a cached result is returned with nothing changed; otherwise the route is compiled, rewritten as `CompiledBy` says, and a success is cached |
| `Attributes.CompileRoute` | src/Routes/RoutesCompiler.php:46-57 | a failed extraction changes nothing; otherwise path and fragments are installed and the pattern compiled from them |
| `Attributes.CompileIsMemoised` | src/Attributes/Route.php:112-113 | after a successful compile, a second call returns the same compiled route, which is cached |
| `RoutesDumper.EntryOf` | src/Dumper/RoutesDumper.php:256-265 | an entry carries the route's action and methods, and the variable list only for dynamic routes |
| `RoutesDumper.TrimSlashes` | src/Dumper/RoutesDumper.php:79 | rtrim removes exactly the trailing slashes |
| `RoutesDumper.Probes` | src/Dumper/RoutesDumper.php:89 | one probe (regex, trimmed prefix) per dynamic route, in order |
| `RoutesDumper.GroupStep` | src/Dumper/RoutesDumper.php:77-100 | each route joins the dynamic list iff it has variables or an earlier dynamic probe demotes it, and otherwise joins the static list |
| `RoutesDumper.BucketsSnoc` | src/Dumper/RoutesDumper.php:95 | a static route is appended to the bucket of its URL |
| `RoutesDumper.GroupsPartition` | src/Dumper/RoutesDumper.php:77-100 | every route lands in exactly one group |
| `RoutesDumper.BucketsKeepOrder` | src/Dumper/RoutesDumper.php:95 | a URL has a bucket iff some static route has that path, and the bucket is those routes in input order |
| `RoutesDumper.FindCapturing` | src/Dumper/RoutesDumper.php:87-93 | the inner foreach finds a probe iff some probe, with an empty prefix or one the URL starts with, matches the URL or URL + `/` |
| `RoutesDumper.GroupStaticRoutes` | src/Dumper/RoutesDumper.php:70-103 | the loop returns exactly the dynamic list and the static buckets of the grouping rule |
| `RoutesDumper.CompileStaticRoutes` | src/Dumper/RoutesDumper.php:110-124 | each URL keeps its bucket, entry for entry, as static entries |
| `RoutesDumper.Modifiers` | src/Dumper/RoutesDumper.php:156 | the modifiers are the longest run of letters ending the regex |
| `RoutesDumper.AddRoute` | src/Dumper/RoutesDumper.php:157-165 | a route opens a new chunk when the chunk is full or when it has variables and other modifiers; otherwise it is appended to the last chunk |
| `RoutesDumper.BatchesStep` | src/Dumper/RoutesDumper.php:155-166 | the chunks of one more route are the previous chunks with that route placed |
| `RoutesDumper.OpensWhen` | src/Dumper/RoutesDumper.php:157 | the source's `chunkLimit < ++chunkSize` or modifier test is exactly the opening rule |
| `RoutesDumper.AddRouteInTwo` | src/Dumper/RoutesDumper.php:158-165 | opening an empty chunk and then appending is placing the route |
| `RoutesDumper.PlaceRoute` | src/Dumper/RoutesDumper.php:156-165 | one loop turn places the route as `AddRoute` does and keeps chunkSize and prev in step with the last chunk |
| `RoutesDumper.CutChunks` | src/Dumper/RoutesDumper.php:151-166 | the foreach returns exactly `Batches` of the collection |
| `RoutesDumper.FlattenSnoc` | src/Dumper/RoutesDumper.php:165 | flattening distributes over one more chunk |
| `RoutesDumper.FlattenAddRoute` | src/Dumper/RoutesDumper.php:165 | placing a route appends it to the flattened chunks |
| `RoutesDumper.AddRouteBounded` | src/Dumper/RoutesDumper.php:157-159 | placing a route keeps every chunk non-empty and within the limit |
| `RoutesDumper.ChunksPartition` | src/Dumper/RoutesDumper.php:155-166 | the chunks concatenate back to the dynamic list, and each is non-empty and holds at most chunkLimit routes (or one route) |
| `RoutesDumper.FirstDynamicHasVars` | src/Dumper/RoutesDumper.php:83-99 | the first dynamic route always has variables, so it opens chunk 0 |
| `RoutesDumper.NameEnd` | src/Dumper/RoutesDumper.php:180 | `[^>]++>` ends at the first `>` |
| `RoutesDumper.NameAt` | src/Dumper/RoutesDumper.php:180 | a `?P<name>` match ends after a non-empty name |
| `RoutesDumper.StripFrom` | src/Dumper/RoutesDumper.php:180 | removing the group names never lengthens the regex; which names come out is stated by `DumperNames.CompiledGroupNames` |
| `DumperTree.Entries` | src/Dumper/RoutesDumper.php:246 | one entry per leaf, in order |
| `DumperTree.AppendAt` | src/Dumper/RoutesDumper.php:236 | `$state->routes[$m][] = $x` appends to the list at m and leaves every other list unchanged |
| `DumperTree.Open` | src/Dumper/RoutesDumper.php:223-225 | a branch node appends `\|prefix(?` and advances the mark by its length |
| `DumperTree.Close` | src/Dumper/RoutesDumper.php:227-228 | leaving a node appends `)` and grows markTail by one |
| `DumperTree.Share` | src/Dumper/RoutesDumper.php:236 | a leaf with the previous regex adds its entry to the current mark's list only |
| `DumperTree.NewLeaf` | src/Dumper/RoutesDumper.php:240-246 | a new leaf advances the mark by 3 + markTail + the suffix length, sets markTail to 2 + the mark's digit count, and starts the mark's list with its entry |
| `DumperTree.NewLeafTracks` | src/Dumper/RoutesDumper.php:240-242 | after a new leaf, every mark still equals the key plus the index of its `:` |
| `DumperTree.EmitStep` | src/Dumper/RoutesDumper.php:220-247 | one item of the foreach: a node recurses between open and close and resets sharing; a leaf shares or starts a mark |
| `DumperTree.OpenCloseTracks` | src/Dumper/RoutesDumper.php:223-228 | opening and closing a node keeps the marks addressed |
| `DumperTree.EmitTracks` | src/Dumper/RoutesDumper.php:215-247 | the recursion keeps `mark + markTail` equal to the key plus the text length, and every mark addressing its `:` |
| `DumperTree.EmitEndsOnMark` | src/Dumper/RoutesDumper.php:235-246 | after emitting leaves, the current mark is the last alternative's mark |
| `DumperTree.EmitExtends` | src/Dumper/RoutesDumper.php:215-247 | emission only appends alternatives |
| `DumperTree.StoredSnoc` | src/Dumper/RoutesDumper.php:246 | the lists reached through one more alternative add that mark's list |
| `DumperTree.StoredElsewhere` | src/Dumper/RoutesDumper.php:236 | changing lists at marks no alternative uses does not change what the alternatives reach |
| `DumperTree.EntriesAppend` | src/Dumper/RoutesDumper.php:246 | entries distribute over concatenation |
| `DumperTree.LeafEntries` | src/Dumper/RoutesDumper.php:232-246 | a leading leaf contributes its entry first |
| `DumperTree.NewLeafStores` | src/Dumper/RoutesDumper.php:240-246 | a new leaf adds exactly its entry to what the alternatives reach |
| `DumperTree.ShareStores` | src/Dumper/RoutesDumper.php:235-237 | a shared leaf adds exactly its entry to what the alternatives reach |
| `DumperTree.EmitStores` | src/Dumper/RoutesDumper.php:215-247 | the lists reached through the marks, in order, gain exactly the entries of the tree's leaves, in order |
| `DumperTree.NodeStores` | src/Dumper/RoutesDumper.php:221-229 | the same for a tree that starts with a branch node |
| `DumperTree.LeafStores` | src/Dumper/RoutesDumper.php:232-246 | the same for a tree that starts with a leaf |
| `DumperTree.EmitAbove` | src/Dumper/RoutesDumper.php:240 | the mark only grows, and lists below the starting mark are untouched |
| `DumperTree.TextSteps` | src/Dumper/RoutesDumper.php:224-242 | open, close, share and a new leaf append `\|prefix(?`, `)`, nothing, and `\|suffix(*:mark)` |
| `DumperTree.TextNewLeaf` | src/Dumper/RoutesDumper.php:242-243 | a new leaf appends `\|suffix` and its verb to the chunk text |
| `DumperTree.EmitAppendsText` | src/Dumper/RoutesDumper.php:215-247 | the chunk text only grows |
| `DumperChunks.LeafOf` | src/Dumper/RoutesDumper.php:177-182 | a route becomes a leaf carrying that route |
| `DumperChunks.LeavesOf` | src/Dumper/RoutesDumper.php:176-183 | one leaf per route, in order |
| `DumperChunks.ChunkTree` | src/Dumper/RoutesDumper.php:175-183 | the prefix tree of a chunk holds its routes' leaves in order and is well nested |
| `DumperChunks.AnyTooLargeSnoc` | src/Dumper/RoutesDumper.php:192-197 | one more chunk is too large iff an earlier one was or its regex is |
| `DumperChunks.AnyTooLargePrefix` | src/Dumper/RoutesDumper.php:192-197 | a too-large chunk among the first ones fails the whole list |
| `DumperChunks.ChunkRegex` | src/Dumper/RoutesDumper.php:169-188 | a chunk's regex is the emitted text followed by `)/?$}` and the modifiers |
| `DumperChunks.ChunkMarks` | src/Dumper/RoutesDumper.php:169-172 | a chunk's key is its starting mark, every mark less the key is the index of its `:`, and the last alternative holds the final mark |
| `DumperChunks.ChunkShape` | src/Dumper/RoutesDumper.php:169-187 | a chunk string starts with `{^(?`, starts with its rendered alternatives, and ends with `)/?$}` and the modifiers |
| `DumperChunks.AllAltsSnoc` | src/Dumper/RoutesDumper.php:168 | the alternatives of one more chunk come after the earlier ones |
| `DumperChunks.IncreasingAppend` | src/Dumper/RoutesDumper.php:240 | increasing marks below a pivot followed by increasing marks above it increase |
| `DumperChunks.StoredAppend` | src/Dumper/RoutesDumper.php:246 | what alternatives reach distributes over concatenation |
| `DumperChunks.StoredAppendLast` | src/Dumper/RoutesDumper.php:202 | appending null to the final mark's list adds exactly one null at the end of what the alternatives reach |
| `DumperChunks.ChunkStepMarks` | src/Dumper/RoutesDumper.php:168-200 | a new chunk's marks are above all earlier marks, so marks keep increasing, and its last alternative holds the current mark |
| `DumperChunks.ChunkStepStored` | src/Dumper/RoutesDumper.php:168-200 | a new chunk adds exactly its routes' entries, in order, to what the alternatives reach |
| `DumperChunks.ChunkStep` | src/Dumper/RoutesDumper.php:168-200 | one chunk keeps the loop invariant: increasing marks, the last alternative on the current mark, and the entries of the routes done so far |
| `DumperChunks.EmitChunksStep` | src/Dumper/RoutesDumper.php:168-200 | the chunk loop over one more batch emits one more chunk from the state it left |
| `DumperChunks.EmitChunksPrefix` | src/Dumper/RoutesDumper.php:168-200 | one chunk per batch, and the first k chunks do not depend on later batches |
| `DumperChunks.EmitChunksNext` | src/Dumper/RoutesDumper.php:168-200 | the chunks of the first j + 1 batches extend those of the first j by one |
| `DumperChunks.EmitChunksBetween` | src/Dumper/RoutesDumper.php:168-200 | after all batches, marks increase across all chunks and what they reach is the entries of all routes in order |
| `DumperChunks.ChunksAddressed` | src/Dumper/RoutesDumper.php:168-200 | every emitted chunk is addressed: its regex starts with its rendered alternatives and each mark addresses its `:` |
| `DumperChunks.ChunksNonEmpty` | src/Dumper/RoutesDumper.php:168-200 | non-empty batches yield at least one alternative |
| `DumperChunks.DynamicAddressed` | src/Dumper/RoutesDumper.php:132-206 | every chunk compileDynamicRoutes returns is addressed |
| `DumperChunks.DynamicStores` | src/Dumper/RoutesDumper.php:168-205 | marks strictly increase across chunks, and the lists reached through them, in order, are the routes' entries followed by exactly one null |
| `DumperNames.QuoteLtEscaped` | src/Routes/RoutesCompiler.php:239 | preg_quote puts a backslash before every `<`, so quoted text holds no `?P<` |
| `DumperNames.NameEndAt` | src/Dumper/RoutesDumper.php:180 | `[^>]++>` from a position ends at the first `>` after it |
| `DumperNames.GroupAt` | src/Dumper/RoutesDumper.php:180 | a `?P<name>` with a word name is removed as one group and yields that name |
| `DumperNames.TextNoName` | src/Dumper/RoutesDumper.php:180 | the quoted text of a text token yields no name |
| `DumperNames.VariableName` | src/Dumper/RoutesDumper.php:180 | the regex of a variable token yields exactly its name |
| `DumperNames.StripTokens` | src/Dumper/RoutesDumper.php:180 | on the regex of tokens whose separators are one byte or none, whose names are word bytes and whose fragments have no group bytes, the removed names are the tokens' variable names in order |
| `DumperNames.FragmentPlain` | src/Routes/RoutesCompiler.php:140-166 | a variable's fragment, registered or default, has no group bytes |
| `DumperNames.TokenizeFromWellFormed` | src/Routes/RoutesCompiler.php:134-175 | every variable token the placeholder loop builds has a separator of one byte or none, a word name and a fragment without group bytes |
| `DumperNames.CompiledGroupNames` | src/Dumper/RoutesDumper.php:177-180 | for a path compiled with registry fragments, the `?P<name>` groups removed from the regex body are the route's path variables, in order |
| `DumperNames.LeafVars` | src/Dumper/RoutesDumper.php:177-182 | the leaf of a compiled route carries exactly its path variables |
| `DumperNames.EntriesCarryPathVariables` | src/Dumper/RoutesDumper.php:176-183 | for compiled routes, each route's entry is compileRoute of that route with its path variables |
| `DumperNames.DynamicEntriesVars` | src/Dumper/RoutesDumper.php:168-205 | for compiled routes, the k-th list reached through the marks holds the k-th route with its action, methods and path variables, and one null follows the last |
| `DumperCompiled.Shrink` | src/Dumper/RoutesDumper.php:56 | the next limit is at least 1 and below the current one; above 2 it is the source's `1 + (l >> 1)`, and 2 moves on to 1 |
| `DumperCompiled.Attempts` | src/Dumper/RoutesDumper.php:50-51 | each attempt at a limit is a fresh compileDynamicRoutes of the same list |
| `DumperCompiled.RetryStep` | src/Dumper/RoutesDumper.php:48-61 | a success ends the loop; a failure above 1 retries at the next limit (`1 + (l >> 1)`, or 1 after 2); a failure at 1 or below is rethrown |
| `DumperCompiled.RetryOutcome` | src/Dumper/RoutesDumper.php:48-61 | a result comes from the first limit or a smaller one; a failure means the attempts at the first limit and at 1 both failed |
| `DumperCompiled.AlwaysTooLarge` | src/Dumper/RoutesDumper.php:192-197 | when every regex is too large, every attempt on a non-empty list fails |
| `DumperCompiled.NextLimitAsWrittenStalls` | src/Dumper/RoutesDumper.php:56 | as written, `1 + (l >> 1)` maps 2 to 2, and decreases only above 2 |
| `DumperCompiled.AsWrittenRetryLoops` | src/Dumper/RoutesDumper.php:48-61 | as written, a failure at limit 2 repeats forever: no amount of fuel ends the loop |
| `DumperCompiled.AsWrittenReachesTwo` | src/Dumper/RoutesDumper.php:48-61 | as written, failures at every limit from 2 up to l never end the loop |
| `DumperCompiled.AllAttemptsFail` | src/Dumper/RoutesDumper.php:48-61 | when every attempt fails, the as-written loop never ends from a limit of 2 or more, while the corrected loop fails |
| `DumperCompiled.AsWrittenAgrees` | src/Dumper/RoutesDumper.php:48-61 | whenever the loop as written ends, the corrected loop ends with the same result, so they differ only by the failure at limit 2 |
| `DumperCompiled.AsWrittenRetryLoopsOn` | src/Dumper/RoutesDumper.php:48-61 | with two or more dynamic routes and every regex too large, the loop as written never ends, while the corrected one fails |
| `DumperCompiled.CompiledAddressed` | src/Dumper/RoutesDumper.php:41-64 | every chunk of a compiled table is addressed |
| `DumperRun.DumpState.constructor` | src/Dumper/RoutesDumper.php:138-144 | the state starts with an empty regex, no lists and marks at 0 |
| `DumperRun.DumpState.EnterNode` | src/Dumper/RoutesDumper.php:223-225 | entering a node opens it in the state, and the regex field stays the spelled text |
| `DumperRun.DumpState.LeaveNode` | src/Dumper/RoutesDumper.php:227-228 | leaving a node closes it in the state |
| `DumperRun.DumpState.StartChunk` | src/Dumper/RoutesDumper.php:169-173 | a chunk starts with `{^(?` and the mark advanced by four |
| `DumperRun.DumpState.CloseChunk` | src/Dumper/RoutesDumper.php:187-189 | a chunk is closed by `)/?$}` and its modifiers, with markTail reset |
| `DumperRun.DumpState.ShareMark` | src/Dumper/RoutesDumper.php:235-237 | a shared leaf appends its entry to the current mark's list |
| `DumperRun.DumpState.AddLeaf` | src/Dumper/RoutesDumper.php:240-246 | the mark arithmetic and the `\|suffix(*:mark)` text of a new leaf, as `NewLeaf` states |
| `DumperRun.NewLeafIs` | src/Dumper/RoutesDumper.php:240-243 | the source's field updates are exactly the new-leaf step, and the regex grows by the leaf text |
| `DumperRun.LeafText` | src/Dumper/RoutesDumper.php:242 | `\|suffix(*:mark)` is the suffix followed by the verb of that mark |
| `DumperRun.CompileStaticPrefixCollection` | src/Dumper/RoutesDumper.php:215-248 | the recursive walk leaves the state as the reference emission of the tree says |
| `DumperRun.ChunkLeaves` | src/Dumper/RoutesDumper.php:176-183 | the inner foreach builds one leaf per route, in order |
| `DumperRun.CompileChunk` | src/Dumper/RoutesDumper.php:168-200 | one iteration over a batch yields the chunk and the state that `EmitChunk` defines |
| `DumperRun.CompileDynamicRoutes` | src/Dumper/RoutesDumper.php:132-206 | compileDynamicRoutes returns exactly `DynamicRoutes`, including the too-large failure |
| `DumperRun.GetCompiledRoutes` | src/Dumper/RoutesDumper.php:41-64 | getCompiledRoutes returns exactly `CompiledRoutes`, whose retry follows the source except that a failure at limit 2 moves on to 1 |
| `RouteTable.Verb` | src/Dumper/RoutesDumper.php:242 | a verb reads `(*…)`, and a disabled one reads `(*F)` |
| `RouteTable.RenderSnoc` | src/Dumper/RoutesDumper.php:242 | spelling one more alternative appends its text and verb |
| `RouteTable.RenderAppend` | src/Dumper/RoutesDumper.php:243 | spelling distributes over concatenation |
| `RouteTable.RenderAround` | src/Router.php:200 | the spelled chunk is the alternatives before i, alternative i with its verb, and those after |
| `RouteTable.VerbAt` | src/Dumper/RoutesDumper.php:240-242 | the verb of alternative i sits two bytes before its position, inside the spelled chunk |
| `RouteTable.PosNext` | src/Dumper/RoutesDumper.php:240-241 | consecutive positions differ by the rest of the verb plus the next alternative's text |
| `RouteTable.PosIncreasing` | src/Dumper/RoutesDumper.php:240 | positions grow along the chunk |
| `RouteTable.MarksIncrease` | src/Dumper/RoutesDumper.php:240 | in an addressed chunk, marks strictly increase |
| `RouteTable.AllAddressedAt` | src/Router.php:177 | each chunk of an addressed table is addressed |
| `Routing.FirstMatch` | src/Router.php:178 | the engine picks the first alternative that still carries a mark and matches; None iff none does |
| `Routing.Disable` | src/Router.php:200 | disabling keeps the length and turns only alternative i's verb into `(*F)` |
| `Routing.DisableParts` | src/Router.php:200 | the alternatives before and after i are untouched |
| `Routing.Restore` | src/Router.php:200 | restoring re-enables every verb and keeps everything else |
| `Routing.SavedAppend` | src/Router.php:201 | the bytes saved by disabled verbs add up over concatenation |
| `Routing.SavedEnabled` | src/Router.php:201 | nothing is saved while every verb is enabled |
| `Routing.RenderSaved` | src/Router.php:201 | the rewritten chunk is shorter than the original by exactly the saved bytes |
| `Routing.RestorePrefix` | src/Router.php:201 | restoring commutes with taking a prefix |
| `Routing.PosSaved` | src/Router.php:200-201 | a position is moved back by exactly the bytes saved before it |
| `Routing.SavedDisable` | src/Router.php:201 | disabling mark m saves the number of digits of m |
| `Routing.SpliceVerb` | src/Router.php:200 | replacing `1 + strlen(m)` bytes at the `:` by `F` turns `(*:m)` into `(*F)` |
| `Routing.RenderSplit` | src/Router.php:200 | the spelled chunk splits around alternative i's verb, and disabling changes only that verb |
| `Routing.AppendTail` | src/Router.php:200 | the text after the last verb stays after the rewritten verb |
| `Routing.Bind` | src/Router.php:191-195 | a (name, value) pair is bound iff some vars[i] is that name and capture 1 + i is set to that value |
| `Routing.StaticCandidates` | src/Router.php:166 | the static entries of the path are tried in order, with no captures |
| `Routing.DynamicCandidates` | src/Router.php:179 | the list of the matched mark is tried in order, each entry with the captures bound |
| `Routing.BindVars` | src/Router.php:191-195 | the foreach over vars returns exactly `Bind` |
| `Routing.TryStatic` | src/Router.php:166-173 | the static foreach returns exactly `Try` of the static candidates with allow empty |
| `Routing.TryList` | src/Router.php:179-198 | the foreach over a mark's list returns exactly `Try` of its candidates |
| `Routing.ScanSkip` | src/Router.php:178 | alternatives that do not match are passed over |
| `Routing.ScanAt` | src/Router.php:178-198 | at a matching alternative its candidates are tried, and only when all are refused does the scan go on |
| `Routing.RestoreDisable` | src/Router.php:200 | disabling a verb does not change the original chunk that restoring gives back |
| `Routing.SpliceRewrite` | src/Router.php:200 | substr_replace at the mark's position spells exactly the chunk with that alternative disabled, and the text after is untouched |
| `Routing.MarkAt` | src/Dumper/RoutesDumper.php:240-242 | in an addressed chunk each mark is the key plus the position of its `:`, and every verb is enabled |
| `Routing.MarkOffset` | src/Router.php:200-201 | after earlier rewrites, `m - offset` is still the position of mark m's `:` |
| `Routing.DisableMark` | src/Router.php:200-201 | the two statements rewrite the regex as disabling alternative i, and offset grows to the key plus the saved bytes |
| `Routing.Advance` | src/Router.php:200-201 | disabling the picked alternative keeps the rewriting invariant one alternative further on |
| `Routing.TryAlt` | src/Router.php:179-198 | trying the picked alternative's list either decides the chunk as the reference scan does, or moves the scan past it |
| `Routing.PickedAfter` | src/Router.php:178 | the engine's pick on the rewritten chunk is the first matching original alternative at or after the scan point |
| `Routing.Turn` | src/Router.php:178-201 | one turn of the while loop returns the reference scan's result, or keeps the loop invariants with a smaller measure |
| `Routing.Started` | src/Router.php:177 | before the while loop the invariants hold for the chunk as stored |
| `Routing.Exhausted` | src/Router.php:178 | when nothing matches any more, the reference scan refuses with the current allow |
| `Routing.ScanChunk` | src/Router.php:177-203 | the while loop with its in-place rewrites returns exactly the reference scan `ScanAlts` of the chunk's alternatives |
| `RoutingProperties.Stop` | src/Router.php:166-189 | the stop index is the first sentinel or accepting candidate, and all before it refuse |
| `RoutingProperties.TryAllowOrder` | src/Router.php:166-197 | allow gains exactly the refused methods not yet present, in the order the refusing candidates list them |
| `RoutingProperties.TryStop` | src/Router.php:166-197 | the inner loop is found exactly at the first accepting candidate (with its action and captures), ends the chunk at a sentinel, else refuses; allow keeps its old keys in order and gains exactly the refused candidates' methods |
| `RoutingProperties.AllowEmpty` | src/Router.php:167-168 | allow is empty afterwards iff it was empty and the very first candidate stopped the loop |
| `RoutingProperties.TryAppend` | src/Router.php:179-198 | the second list is tried only after all of the first is refused |
| `RoutingProperties.ScanAltsFlat` | src/Router.php:177-203 | scanning a chunk tries exactly its matching alternatives' candidates in order, so the first registered route that matches and accepts wins |
| `RoutingProperties.ScanAltsGrows` | src/Router.php:186-188 | scanning a chunk only adds to allow |
| `RoutingProperties.ScanChunksGrows` | src/Router.php:177-203 | the chunk loop only adds to allow |
| `RoutingProperties.StaticFirst` | src/Router.php:166-173 | when a static entry accepts the method, the first accepting one is returned with no variables, whatever the chunks hold |
| `RoutingProperties.StaticRefusedNotFound` | src/Router.php:139-152 | a path whose static entries all refuse the method is never a 404, and a 405 lists every method they name |
| `RouterRun.AddressedTail` | src/Dumper/RoutesDumper.php:187-188 | an addressed chunk is its rendered alternatives followed by the closing text |
| `RouterRun.ScanTable` | src/Router.php:177-205 | the foreach over chunks returns exactly `ScanChunks` in key order |
| `RouterRun.Router.constructor` | src/Router.php:30 | a new router holds the empty table |
| `RouterRun.Router.RegisterRoutes` | src/Router.php:66 | the dumper's result decides: on success its table is installed and stays addressed; on failure the same error is returned and the table is left as it was |
| `RouterRun.Router.DoMatch` | src/Router.php:160-206 | doMatch returns exactly `DoMatch`: the static tier, then the chunks, with allow starting empty |
| `RouterRun.Router.Match` | src/Router.php:139-152 | match returns exactly `Match`: the action, a 405 with allow, or a 404 |
| `RouterRun.Join` | src/Router.php:118 | joining no methods is empty, and one method is itself |
| `RouterRun.RunReply` | src/Router.php:117-129 | Allow is sent iff 405-class; 405 status iff not HEAD or OPTIONS; no-cache headers iff HEAD; 404 iff not found |
| `RouterRun.StaticRefusedNo404` | src/Router.php:127-128 | a path whose static entries all refuse the method never gets a 404 from run |
| `HttpUtils.ServerLookup` | src/HttpUtils.php:27 | `$_SERVER[$name]` is set iff some entry has that name |
| `HttpUtils.TrimLeft` | src/HttpUtils.php:37 | left trimming never lengthens and leaves no leading trimmed byte |
| `HttpUtils.TrimRight` | src/HttpUtils.php:37 | right trimming never lengthens and leaves no trailing trimmed byte |
| `HttpUtils.Trim` | src/HttpUtils.php:37 | trim leaves neither a leading nor a trailing trimmed byte |
| `HttpUtils.TrimLeftSuffix` | src/HttpUtils.php:37 | left trimming removes exactly a prefix of trimmed bytes |
| `HttpUtils.TrimRightPrefix` | src/HttpUtils.php:37 | right trimming removes exactly a suffix of trimmed bytes |
| `HttpUtils.TrimInfix` | src/HttpUtils.php:37 | trim keeps a contiguous middle part; everything removed on either side is the trimmed byte |
| `HttpUtils.TrimmedQuery` | src/HttpUtils.php:37 | the trimmed text before `?` holds no `?` and neither starts nor ends with `/` |
| `HttpUtils.LowerShape` | src/HttpUtils.php:37 | lowercasing leaves no upper-case byte and moves no `?` or `/` |
| `HttpUtils.PathShape` | src/HttpUtils.php:37 | the path starts with `/`, has no `?` or upper-case byte, and is `/` or neither doubles nor ends with a slash |
| `HttpUtils.PathIdempotent` | src/HttpUtils.php:37 | normalising a normalised path changes nothing |
| `HttpUtils.HostShape` | src/HttpUtils.php:27 | the host is a prefix of HTTP_HOST, holds no `:`, and normalising it again changes nothing |
| `HttpUtils.SwapChar` | src/HttpUtils.php:271 | str_replace of one byte replaces every occurrence and nothing else |
| `HttpUtils.UcWords` | src/HttpUtils.php:271 | ucwords upper-cases exactly the bytes at the start or after a delimiter |
| `HttpUtils.NormalizeHeaderNameAt` | src/HttpUtils.php:269-272 | the name keeps its length; `_` and space become `-`; a word start is upper case and every other byte lower case |
| `HttpUtils.NormalizedHasNoSeparator` | src/HttpUtils.php:271 | a normalised name holds no `_` and no space |
| `HttpUtils.Tagged` | src/HttpUtils.php:240-258 | each server entry is paired with the header it gives, if any |
| `HttpUtils.NormalizeHeaders` | src/HttpUtils.php:236-262 | the foreach returns exactly the header map `Collect` builds |
| `HttpUtils.HeadersPresent` | src/HttpUtils.php:240-259 | a header is present iff some server entry gives it |
| `HttpUtils.HeadersLast` | src/HttpUtils.php:252-257 | a header's value is that of the last server entry giving it |
| `HttpUtils.HeadersKeys` | src/HttpUtils.php:236-262 | header names are distinct, and each comes from some server entry |
| `HttpUtils.Heads` | src/HttpUtils.php:240 | the headers given by the entries, one per entry |
| `HttpUtils.HeaderForNormal` | src/HttpUtils.php:252-257 | every header name a server entry gives is normalised |
| `HttpUtils.HeaderNamesNormal` | src/HttpUtils.php:236-262 | no header name in the map holds `_` or a space |
| `HttpUtils.NormalizeIp` | src/HttpUtils.php:278-285 | the loop with early return gives exactly the IP that `IpFrom` chooses |
| `HttpUtils.IpChoice` | src/HttpUtils.php:280-284 | the IP is the value of the first source that is set and valid, tried in the fixed order, or `0.0.0.0` when none is |
| `HttpUtils.Request.constructor` | src/HttpUtils.php:9-19 | a request starts with every cache empty |
| `HttpUtils.Request.GetHost` | src/HttpUtils.php:25-29 | getHost returns the host of HTTP_HOST and caches it; with HTTP_HOST missing it throws a TypeError and caches nothing; other caches are unchanged |
| `HttpUtils.Request.GetPath` | src/HttpUtils.php:35-39 | getPath returns the normalised REQUEST_URI path and caches it; with REQUEST_URI missing it throws a TypeError and caches nothing; other caches are unchanged |
| `HttpUtils.Request.GetHeaders` | src/HttpUtils.php:65-69 | getHeaders returns the header map and caches it |
| `HttpUtils.Request.GetHeader` | src/HttpUtils.php:55-59 | getHeader looks the name up in the cached header map, null when absent |
| `HttpUtils.Request.GetHeaderText` | src/HttpUtils.php:84-87 | the header accessors return the header's value, or `''` when it is absent |
| `HttpUtils.Request.GetIp` | src/HttpUtils.php:138-142 | getIp returns the chosen IP and caches it; other caches are unchanged |
| `HttpUtils.Request.QueryString` | src/HttpUtils.php:75-78 | QUERY_STRING when set, else `''` |
| `Inertia.EvaluateProps` | src/Plugins/Inertia/Inertia.php:195-239 | the foreach that unsets and overwrites entries returns exactly `Evaluated` |
| `Inertia.EvaluatedKeysOrdered` | src/Plugins/Inertia/Inertia.php:197-238 | the output keys are a subsequence of the input keys, in the same order |
| `Inertia.EvaluatedAt` | src/Plugins/Inertia/Inertia.php:197-236 | each key's outcome is the per-prop decision, and keys not in the input are absent |
| `Inertia.EvaluatedKeysIn` | src/Plugins/Inertia/Inertia.php:197-238 | no key outside the input appears in the output |
| `Inertia.AlwaysKept` | src/Plugins/Inertia/Inertia.php:199-202 | an AlwaysProp is always kept, unwrapped, whatever partial, only and except say |
| `Inertia.FullRequest` | src/Plugins/Inertia/Inertia.php:223-235 | in a full request a LazyProp is dropped, a Closure is called and any other value is kept |
| `Inertia.PartialRequest` | src/Plugins/Inertia/Inertia.php:205-233 | in a partial request a prop other than an AlwaysProp is dropped when its key is in except or missing from only, and otherwise its LazyProp or Closure is replaced by its result and a plain value is kept |
| `Inertia.EmptyOnlyKeepsAlways` | src/Plugins/Inertia/Inertia.php:212-222 | a partial request with an empty only keeps exactly the AlwaysProps |
| `Inertia.AssignLookup` | src/Plugins/Inertia/Inertia.php:61-68 | a string key sets one entry; an array merges, its values winning; other keys are unchanged |
| `Inertia.MergeUnique` | src/Plugins/Inertia/Inertia.php:64 | array_merge keeps keys distinct |
| `Inertia.InertiaState.constructor` | src/Plugins/Inertia/Inertia.php:40-44 | init sets the version, with empty view data and shared props |
| `Inertia.InertiaState.ViewData` | src/Plugins/Inertia/Inertia.php:61-68 | viewData assigns into the view data only |
| `Inertia.InertiaState.Share` | src/Plugins/Inertia/Inertia.php:94-101 | share assigns into the shared props only |
| `Inertia.InertiaState.FlushViewData` | src/Plugins/Inertia/Inertia.php:83-86 | flushViewData empties the view data only |
| `Inertia.InertiaState.FlushShared` | src/Plugins/Inertia/Inertia.php:116-119 | flushShared empties the shared props only |
| `Inertia.InertiaState.PageProps` | src/Plugins/Inertia/Inertia.php:163-168 | the page props are the evaluation of the page props merged with the shared ones |
| `Inertia.SharedOverrides` | src/Plugins/Inertia/Inertia.php:164 | a shared prop overrides the page prop of the same name, and other names keep the page's value |
| `Inertia.Listed` | src/Plugins/Inertia/Inertia.php:166-167 | a name is listed iff it is a comma-separated piece of the header other than the falsy `''` and `0` |
| `Inertia.RenderAnswer` | src/Plugins/Inertia/Inertia.php:174-184 | the HTML view is sent iff the X-Inertia header is absent, and a redirect goes to the page's URL |
| `Inertia.RedirectWhen` | src/Plugins/Inertia/Inertia.php:180 | a redirect happens iff the request is Inertia and a GET, and either the version header is missing and the version is not `''`, or the header is neither the same bytes nor the same number as the version |
| `Inertia.NumericVersionsMatch` | src/Plugins/Inertia/Inertia.php:180 | numeric strings compare as numbers, so a version header `01` against the version `1` answers with JSON, not a redirect |
| `Inertia.PartialProps` | src/Plugins/Inertia/Inertia.php:162-168 | the props fail with a TypeError iff the request is partial for this component and the only or except header is missing; a request that is not partial evaluates the merged props as a full request |
| `Inertia.OtherComponentIsFull` | src/Plugins/Inertia/Inertia.php:163-168 | a partial-component header that is neither the same bytes nor the same number as the component makes the request full: it succeeds and its LazyProps are dropped |

## Left out

- PCRE itself is not modelled: `preg_match`, `(*MARK)`, `(*F)`, branch reset and the regex compiler's size limit. They are the oracles `rxMatch`, `leafMatch` and `tooLarge`. The strings handed to them are built and proved concretely.
- `StaticPrefixCollection` is not part of this model. Its tree is the parameter `build`, assumed to keep leaves in order and to nest prefixes.
- The cache file and its VarExporter dump, `findAllClass` and the reflection in `registerRoutesFromControllers` and `run` are left out, because they are filesystem and reflection work. `RegisterRoutes` takes the routes already found.
- `run` is modelled only by the reply it chooses (`RunReply`). Middleware, controller calls, `header` and `die` are I/O.
- `filter_var` is the parameter `validIp`. `getMethod`, the port getters, body and JSON reading, the `output*` functions and `dieStatus` are direct `$_SERVER` reads or I/O.
- `HttpUtils::setHeader` and `hasHeader` are called by the Inertia plugin but defined nowhere, so `render` takes whether the X-Inertia header is present as a parameter.
- The Inertia view closure, `json_encode` and `htmlspecialchars` are output. Closures and LazyProps are opaque thunks evaluated by `call`.
- The Middleware and Controller attributes are read only through reflection.
- ExtractVarsRegex: rewrites only the placeholder just found (see Findings), which also differs from `str_replace` on paths it accepts. `/{id:num}-id:num/{x:num}` becomes `/{id}-id/{x}` in the source but `/{id}-id:num/{x}` in the model. `/a:num/{a:num}` makes the source's resumed `strpos` start past the end of the shortened path, a ValueError, while the model extracts `/a:num/{a}`.
- CompileRoute: inherits that difference from `ExtractVarsRegex`, on the same two paths.
- Route.Compile: inherits that difference from `ExtractVarsRegex`, on the same two paths.
- GetCompiledRoutes: exceptions thrown by `compile()` inside the dumper are not modelled. `RouteInfo` holds a route whose compile succeeded, and nothing builds a `RouteInfo` from an `Attributes.Route`; `DumperNames.CompiledFrom` states the link for a route compiled from its own path.
- RegisterRoutes: inherits the corrected retry of `GetCompiledRoutes`; as written, a failure at limit 2 never returns (see Findings).
- CompileDynamicRoutes: only the size error is modelled (`tooLarge`). Other `preg_match` warnings, which the error handler turns into an ErrorException, are not.
- MergeLookup: `array_merge` renumbers integer keys and appends the second array's integer keys instead of overriding them. Keys are strings here, so an integer-like key such as `"0"` overrides as a string key would.
- AssignLookup: inherits the same string-key view of `array_merge` from `MergeLookup`.
- The loose `==` of `render` compares two numeric strings as numbers (PHP 8). Which strings are numeric and their values are the parameter `num`; `SameNumber` is equality of those values.
- `DumperChunks.DynamicStores` covers a non-empty collection. For an empty one `DynamicRoutes` returns no chunks and no lists, which follows directly from its definition.
- Integer widths do not matter here: marks and offsets are small naturals, and no operation of the core wraps.

## Findings

| source | as written | input that shows it | evidently intended | confidence | as-written member | corrected member |
|---|---|---|---|---|---|---|
| src/Routes/RoutesCompiler.php:81 | `str_replace($var, $args[0], $pattern)` rewrites `name:type` everywhere in the path, including inside a later placeholder whose name ends with the same text | `/{id:num}/{xid:num}`: the first turn also turns `{xid:num}` into `{xid}`, which the next turn rejects as a bad var type | rewrite only the placeholder just found, so the path extracts to `/{id}/{xid}` with both names typed | high, not executed | `CompilerProperties.AsWrittenRejectsSuffixName` | `CompilerProperties.ExtractAcceptsSuffixName` |
| src/Dumper/RoutesDumper.php:56 | `$chunkLimit = 1 + ($chunkLimit >> 1)` maps 2 to 2 | two or more dynamic routes whose combined regex is too large even at two routes per chunk: the retry loop repeats at limit 2 forever | keep `1 + (l >> 1)` above 2, but move from 2 to 1, so the loop reaches 1 and then rethrows | high, not executed | `DumperCompiled.AsWrittenRetryLoopsOn` | `DumperCompiled.AllAttemptsFail` |

The rest of the model uses the corrected behaviour in both cases. `Extract` rewrites only the placeholder just found. `CompiledRoutes` retries with `Shrink`, and `DumperCompiled.AsWrittenAgrees` shows it returns what the loop as written returns whenever that loop ends.
