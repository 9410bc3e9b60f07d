# RadixRouter, modelled in Dafny

A model of `Sirix\Mezzio\Router\RadixRouter`, the Mezzio router adapter over
the radix-tree matcher `Wilaak\Http\RadixRouter`. It covers the adapter's
four parts:

- URI generation from a named route's path template.
  - `extractRouteParameters` reads the `:name`, `:name?` and `:name*` tokens.
  - `validateRequiredParameters` lists the required parameters that have no
    substitution.
  - `replacePathParameters` substitutes values and drops omitted optional
    and wildcard tokens.
  - `normalizePath` collapses slash runs, strips trailing slashes and maps
    the empty path to `/`.
- Deferred injection. `addRoute` only queues a route. The next `match` or
  `generateUri` drains the queue once: it indexes each route by name (the
  last one wins) and registers it with the trie matcher, unless a cache
  was loaded.
- The cache protocol.
  - `loadDispatchData` loads the trie's `tree` and `static` tables at most
    once (`hasCache`).
  - After injection the loaded tables are installed in the trie. When
    nothing was loaded and caching is on, the trie's tables are saved
    instead.
  - `ensureCacheDirectoryExists` guards the save.
- Result marshalling in `match`. The request path is percent-decoded
  (`rawurldecode`, section 2.1 of RFC 3986) and looked up. Code 200 gives
  the route indexed under the handler. Code 405 gives a method failure
  with the allowed methods. Any other code gives a plain failure.

Modules:

| file | module | models |
|---|---|---|
| wrappers.dfy | Wrappers | `Option` (with PHP's `??` as `GetOr`), `Result`, `Outcome` |
| errors.dfy | RouterErrors | the exceptions as values, their messages, `implode` |
| normalize.dfy | PathNormalizer | `normalizePath` |
| template.dfy | PathTemplate | `extractRouteParameters`, `validateRequiredParameters`, `replacePathParameters` |
| substitution.dfy | TemplateSubstitution | the theorem that the substitution patterns fill the parsed template |
| generate.dfy | UriGeneration | `generateUri` once the route is found |
| generate_examples.dfy | GenerationExamples | the generation cases of the test suite, and the prefix collision |
| urldecode.dfy | PercentDecoding | `rawurldecode`, with `rawurlencode` as its partner |
| trie.dfy | TrieMatcher | the trie matcher: `allowedMethods`, `add`, `lookup`, `tree`, `static` |
| filesystem.dfy | FileStore | the cache file and directory, PHP's `dirname` |
| router.dfy | Router | the `RadixRouter` class |

The pure parts are functions and lemmas. The class keeps the source's
fields (`dispatchData`, `routesToInject`, `routes`, `hasCache`,
`cacheEnabled`, `cacheFile`). The methods that change them have `modifies`
clauses. The trie matcher and the filesystem are classes whose fields these
methods update.

A path is read as a sequence of pieces: literal characters and parameter
tokens (`Parse`, whose inverse is `Render`). The parameters
`extractRouteParameters` reports are the tokens of `Parse`, in order.
`Fill` replaces each token by its value and drops omitted optional and
wildcard tokens. The main theorem, `SubstitutionMatchesTemplate`, shows that
running the source's regex patterns one after another over the path
computes exactly `Render(Fill(Parse(path)))`.

The empty-segment check (`Empty segments are not allowed`) is not in this
class. The router hands the path to the trie matcher's `add`, which refuses
it. `Trie.Add` models that refusal with its `rejected` map, carrying the
trie's own message.

What one injection does to the router, the trie and the filesystem is
stated once, as the two-state predicate `RadixRouter.Injected`. `InjectRoutes`
ensures it, and so do `Match` and `GenerateUri`, which inject first. The
router's invariant `Valid` includes `Registered`: every handler the router
has passed to the trie's `add` is a name in its index, because
`injectRoute` indexes a route before adding it and the index only grows.

## Model

| member | source | states |
|---|---|---|
| PathNormalizer.CollapseSlashes | src/RadixRouter.php:260 | the first pattern `#/+#`: the result has no doubled slash, is no longer than the input, and keeps its first and last characters |
| PathNormalizer.StripTrailingSlashes | src/RadixRouter.php:260 | the second pattern `#/+$#` read as end of subject: the result is a prefix of the input, does not end in a slash, and everything it drops is slashes |
| PathNormalizer.NormalizePath | src/RadixRouter.php:257-269 | the normalised path is never empty, has no `//`, and ends in `/` only when it is exactly `/` |
| PathNormalizer.NormalizeFixpoint | src/RadixRouter.php:257-269 | the paths normalisation leaves unchanged are exactly the normal ones (no `//`, leading `/` kept or absent, no trailing `/` except the root), both directions |
| PathNormalizer.NormalizeIdempotent | src/RadixRouter.php:257-269 | normalising twice is normalising once |
| PathNormalizer.NormalizeKeepsNonSlashes | src/RadixRouter.php:257-269 | normalisation only removes or adds slashes; every other character stays, in order |
| PathNormalizer.NormalizeIgnoresDoubledSlash | src/RadixRouter.php:260 | doubling a slash anywhere does not change the normal form |
| PathNormalizer.NormalizeIgnoresTrailingSlash | src/RadixRouter.php:260 | a trailing slash does not change the normal form |
| PathNormalizer.NormalizeDropsTrailingSlashes | src/RadixRouter.php:260 | any run of trailing slashes after a normal path is dropped |
| PathNormalizer.SlashPathIsNormal | src/RadixRouter.php:257-269 | `/s0/s1/...` with non-empty, slash-free segments is normal |
| PathNormalizer.NormalizeExamplesShort | test/RadixRouterTest.php:407-409 | `""` and `/` both normalise to `/` |
| PathNormalizer.NormalizeExampleNormal | test/RadixRouterTest.php:397-410 | `/user/posts` is already normal |
| PathNormalizer.NormalizeExampleDoubled | test/RadixRouterTest.php:399 | `/user//posts` normalises to `/user/posts` |
| PathNormalizer.NormalizeExampleTripled | test/RadixRouterTest.php:401 | `/user///posts` normalises to `/user/posts` |
| PathNormalizer.NormalizeExampleTrailing | test/RadixRouterTest.php:403 | `/user/posts/` normalises to `/user/posts` |
| PathNormalizer.NormalizeExampleTrailingRun | test/RadixRouterTest.php:405 | `/user/posts///` normalises to `/user/posts` |
| PathNormalizer.NormalizePathAsWritten | src/RadixRouter.php:257-269 | normalisation with PCRE's `$` (which also matches before a final newline); its result is never empty |
| PathNormalizer.NormalizeAsWrittenAgrees | src/RadixRouter.php:260 | both readings of `$` agree on every path that does not end in a newline |
| PathNormalizer.NormalizeAsWrittenNotIdempotent | src/RadixRouter.php:260 | as written, `/\n/` normalises to `/\n` and that to `\n`; the corrected reading gives `/\n` both times |
| PathTemplate.NameLength | src/RadixRouter.php:179 | the name class `[^\/?*]+` is matched greedily: every character taken is a name character and the next is not |
| PathTemplate.Parse | src/RadixRouter.php:179 | reading a path yields literal characters and tokens only, and a path not starting with `:` starts with that literal |
| PathTemplate.ParseRenders | src/RadixRouter.php:179 | reading a path and writing it back gives the path: the tokens and literals cover it exactly |
| PathTemplate.ParseWellFormed | src/RadixRouter.php:179 | each token's name is non-empty and maximal, and a token without marker is not followed by `?` or `*` |
| PathTemplate.ExtractRouteParameters | src/RadixRouter.php:177-182 | the parameters are the tokens of the path in order, and each name is non-empty and free of `/`, `?` and `*` |
| PathTemplate.ParseToken | src/RadixRouter.php:179 | `:name`, `:name?` and `:name*` in front of the rest read as one token of that name and modifier |
| PathTemplate.ParsePlain | src/RadixRouter.php:179 | text without `:` reads as literals |
| PathTemplate.MissingNamesEmpty | src/RadixRouter.php:194-214 | no name is missing exactly when every required parameter has a substitution, both directions |
| PathTemplate.ValidateRequiredParameters | src/RadixRouter.php:194-214 | succeeds iff every parameter with neither `?` nor `*` has a key in the substitutions; otherwise fails listing all missing names in pattern order |
| PathTemplate.MatchLength | src/RadixRouter.php:232-236 | a pattern matches only at a `:` and within the subject |
| PathTemplate.PatternsFor | src/RadixRouter.php:229-239 | one pattern per parameter, in order |
| PathTemplate.ReplacePathParameters | src/RadixRouter.php:225-248 | builds one pattern per parameter and applies them in turn, each globally, matching whole names |
| PathTemplate.Fill | src/RadixRouter.php:225-248 | the filled template keeps the shape of the template: each token with a value becomes the value, an omitted `?` or `*` token becomes empty text, and everything else stays |
| TemplateSubstitution.SubstitutionMatchesTemplate | src/RadixRouter.php:225-248 | applying the patterns in turn to a path gives the filled template: each token with a value becomes the value, an omitted `?`/`*` token disappears, an omitted required token stays; holds for whole-name matching, and for the source's prefix matching when no name is a prefix of another |
| TemplateSubstitution.ApplyPatternsRender | src/RadixRouter.php:243 | preg_replace with an array of patterns is the patterns run one after another over the pieces |
| TemplateSubstitution.ReplaceAllRender | src/RadixRouter.php:243 | one global pattern over a rendered path rewrites the matching tokens and nothing else |
| TemplateSubstitution.NoMatchInOtherToken | src/RadixRouter.php:232-236 | a pattern cannot match inside a token of another name when no prefix collision exists |
| TemplateSubstitution.FillLeavesNoToken | src/RadixRouter.php:225-248 | once every required parameter has a value, no token is left after filling |
| UriGeneration.GenerateFromPath | src/RadixRouter.php:159-167 | a generated URI is normal |
| UriGeneration.GenerateFromPathAsWritten | src/RadixRouter.php:159-167 | `generateUri` with the patterns as written: it fails exactly when, and with the same error as, the whole-name reading, and a generated URI is normal |
| UriGeneration.GenerateAsWrittenAgrees | src/RadixRouter.php:232-236 | when no parameter name is a proper prefix of another, the patterns as written generate the same URI as whole-name matching |
| UriGeneration.GenerateFailsIffMissing | src/RadixRouter.php:162-163 | generation fails exactly when a required parameter has no substitution, and the error lists them all in order |
| UriGeneration.GenerateFillsTemplate | src/RadixRouter.php:159-167 | a generated URI is the normalised filled template, with no token left; when no name is a prefix of another, the program's generation (`GenerateFromPathAsWritten`) gives the same URI |
| UriGeneration.GenerateStaticPath | src/RadixRouter.php:159-167 | a parameter-free path yields just its normalised form |
| UriGeneration.GenerateIsStable | src/RadixRouter.php:159-167 | generating from a generated URI gives it back |
| UriGeneration.BuildReads | src/RadixRouter.php:179 | a path written as literal texts and tokens reads as those tokens, and fills as the texts with the values in between |
| UriGeneration.GenerateFromSegments | src/RadixRouter.php:159-167 | generation from such a path is the normalised filled text, for the program's prefix matching too when no name is a prefix of another |
| GenerationExamples.GenerateOptionalOmitted | test/RadixRouter/RadixRouterParameterTest.php:48-55 | `/user/:id/posts/:postId?` with id 123 gives `/user/123/posts` |
| GenerationExamples.GenerateMissingParameters | test/RadixRouter/RadixRouterParameterTest.php:57-65 | `/user/:id/post/:postId` without substitutions fails with "missing required parameters: id, postId" |
| GenerationExamples.MissingMessage | test/RadixRouterTest.php:291-299 | the message of that failure, in the source's format |
| GenerationExamples.GenerateArchiveChain | test/RadixRouter/RadixRouterParameterTest.php:67-76 | `/archive/:year?/:month?/:day?` shortens step by step: `/archive`, `/archive/2023`, `/archive/2023/06`, `/archive/2023/06/15` |
| GenerationExamples.GenerateWildcard | test/RadixRouter/RadixRouterWildcardTest.php:15-31 | `/files/:path*` gives `/files/documents/file.txt` with a slashed value and `/files` without one |
| GenerationExamples.GenerateRoot | test/RadixRouter/RadixRouterUriGenerationTest.php:46-53 | the root route generates `/` |
| GenerationExamples.PrefixCollision | src/RadixRouter.php:232-236 | as written, `/user/:id/:idx` with id 1 and idx 2 becomes `/user/1/1x`; with whole-name matching it is `/user/1/2` |
| PercentDecoding.RawUrlDecode | src/RadixRouter.php:125 | decoding never lengthens the path |
| PercentDecoding.DecodeEncode | src/RadixRouter.php:125 | `rawurldecode` undoes `rawurlencode` on every byte string |
| PercentDecoding.DecodeWithoutPercent | src/RadixRouter.php:125 | a path without `%` is left unchanged |
| PercentDecoding.DecodeEncodedSpace | test/RadixRouterTest.php:207-218 | `/foo%20bar` decodes to `/foo bar` |
| PercentDecoding.DecodeExamples | src/RadixRouter.php:125 | escapes decode in either case; `+` and a `%` without two hex digits are kept |
| TrieMatcher.Trie.Add | src/RadixRouter.php:345 | `add` either refuses the path with the trie's message and changes nothing, or records the registration in the table for its kind of path |
| TrieMatcher.ExtendTwice | src/RadixRouter.php:310-312 | registering two lists in turn is registering both at once |
| FileStore.CacheBlob | src/RadixRouter.php:400-403 | the saved array is non-empty and gives back both tables under `tree` and `static` |
| FileStore.DirnameOfChild | src/RadixRouter.php:424 | the directory of `dir/file` is `dir` |
| FileStore.DirnameOfName | src/RadixRouter.php:424 | a bare file name lies in `.` |
| FileStore.CreatedDirs | src/RadixRouter.php:426 | after `is_dir || mkdir` the directory exists exactly when it existed or could be created, and no other directory appears |
| FileStore.FileSystem.MakeDirectory | src/RadixRouter.php:426 | `mkdir` succeeds exactly for a creatable directory, which then exists |
| Router.IndexAllLastWins | src/RadixRouter.php:310-312 | after injection each queued name maps to the last queued route with that name |
| Router.IndexAllKeeps | src/RadixRouter.php:339 | a name no queued route carries keeps its earlier entry, or its absence |
| Router.IndexAllByName | src/RadixRouter.php:339 | the index keeps every route under its own name |
| Router.EffectiveMethods | src/RadixRouter.php:332-337 | a null or empty method list becomes the trie's `allowedMethods`; any other is kept |
| Router.Registrations | src/RadixRouter.php:310-312 | one `add` per queued route, in queue order |
| Router.FirstRejected | src/RadixRouter.php:310-312 | the first queued route the trie refuses: every earlier one is accepted |
| Router.MatchOutcomes | src/RadixRouter.php:130-134 | code 200, and only it, gives a match carrying the route named by the handler and the lookup's parameters (default none); code 405, and only it, gives a method failure with the allowed methods (default none); every other code gives a failure with null allowed methods |
| Router.GenerateUriFrom | src/RadixRouter.php:152-167 | a generated URI is normal |
| Router.GenerateUriOutcomes | src/RadixRouter.php:152-167 | "route not found" exactly when the name is not indexed; otherwise the generation from the route's path |
| Router.RadixRouter.constructor | src/RadixRouter.php:83-86 | empty queue, index and dispatch data, no cache, then the configuration applied |
| Router.RadixRouter.LoadConfig | src/RadixRouter.php:95-108 | takes each configuration key that is present; the other one and every other field keep their value |
| Router.RadixRouter.AddRoute | src/RadixRouter.php:113-116 | appends the route to the queue; nothing else changes |
| Router.RadixRouter.LoadDispatchData | src/RadixRouter.php:371-389 | `hasCache` goes from false to true, taking the file's array, exactly when the cache file is configured (not null, empty or "0"), exists and yields an array; it never goes back; when `require` throws, it fails with PHP's message and changes nothing |
| Router.RadixRouter.EnsureCacheDirectoryExists | src/RadixRouter.php:422-439 | creates the missing directory when it can, stating the new set of directories; fails with "Failed to create" when it can not, then with "not writable" when it is not writable |
| Router.RadixRouter.CacheDispatchData | src/RadixRouter.php:394-415 | no cache file: nothing happens; otherwise the directory is created when missing and creatable, a directory failure saves nothing, and success saves both trie tables |
| Router.RadixRouter.InjectRoute | src/RadixRouter.php:330-346 | indexes the route under its name, then calls `add` with its effective methods exactly when no cache was loaded |
| Router.RadixRouter.InjectEach | src/RadixRouter.php:310-312 | injects the queued routes in order, stopping at the first refused path when no cache is loaded, with the index still keyed by name |
| Router.RadixRouter.InjectNext | src/RadixRouter.php:310-312 | one turn of the loop: the route joins the index and, unless refused or cached, the tables; a refusal happens exactly when no cache is loaded and the trie refuses the path |
| Router.RadixRouter.InstallOrSave | src/RadixRouter.php:315-324 | loaded dispatch data replaces both trie tables and touches no file; otherwise the tables stay and, with caching on, are saved or the directory error is raised |
| Router.RadixRouter.InjectRoutes | src/RadixRouter.php:300-325 | `Injected`: empty queue or a cache file whose `require` throws: no change at all; otherwise every route is indexed (last one wins) and registered exactly when no cache was loaded, the queue is emptied, and then the loaded tables are installed or the trie's tables saved when caching is on, creating the directory when missing; it fails exactly as `InjectionFailure` says, with the queue left in place on a refused path |
| Router.RadixRouter.Match | src/RadixRouter.php:121-135 | leaves the state `Injected` describes, then marshals the lookup of the decoded path against the resulting tables and index, or fails with the injection's error; with an empty queue it is a pure lookup |
| Router.RadixRouter.GenerateUri | src/RadixRouter.php:148-168 | leaves the state `Injected` describes, then gives the injection's error, "route not found", the missing-parameters failure, or the normalised substituted path of the named route |
| Router.RegisteredAfter | src/RadixRouter.php:339-345 | once routes are indexed and the first of them registered, every handler registered since the router was built is a name in the index |
| Router.InjectionKeepsRegistered | src/RadixRouter.php:310-312 | whether injection stops at the first refused path or runs through, every handler the router has registered is still a name in the index |
| Router.RegisteredHandlerMatches | src/RadixRouter.php:339-345 | in a valid router, a handler the router passed to `add` and the trie reports with code 200 resolves to the route of that name |
| Router.RefusedPathFailsInjection | test/RadixRouter/RadixRouterUriGenerationTest.php:35-44 | a queued path the trie refuses makes the next `generateUri` fail with the trie's message |
| Router.UnloadableCacheFailsInjection | src/RadixRouter.php:381 | a cache file whose `require` throws makes the next `match` or `generateUri` fail with PHP's message |
| Router.CacheDirectoryCreationFails | test/RadixRouterTest.php:364-380 | with caching on and an uncreatable directory, `match` fails naming that directory |
| Router.SaveToCache | src/RadixRouter.php:318-324 | with caching on, no cache file and a writable directory, injection registers every queued route and writes exactly the trie's tables to the cache file |
| Router.CacheRoundTrip | src/RadixRouter.php:306-324 | a router without a cache file saves its tables; a second router with the same routes, the same trie lookup and the same filesystem loads them, installs the same tables, calls no `add`, ends with the same index, and answers `match` with the same result |
| Router.MatchAgrees | src/RadixRouter.php:121-135 | two routers with nothing queued, the same index, the same trie lookup and the same tables give the same `match` result, the lookup of the decoded path |
| RouterErrors.Join | src/RadixRouter.php:208-212 | `implode` of no names is empty and of one name is that name |
| RouterErrors.JoinSnoc | src/RadixRouter.php:208-212 | appending a name to a non-empty list appends the separator and then the name |

## Left out

- The PSR-7 request: `match` takes the request method and the URI path.
  The Mezzio `Route` and `RouteResult` are datatypes. Their own checks,
  such as the empty-method rejection in `Route`'s constructor, are not part
  of this model.
- The trie matcher's internals are not modelled: radix traversal, HEAD
  implied by GET, trailing-slash tolerance and wildcard priority.
  - `lookup` is a function of the two tables, the method and the path,
    given when the trie is built.
  - The tables are lists of registrations: static paths (no `:`) in
    `static` and the others in `tree`.
  - The paths `add` refuses are a map from path to message.
- The filesystem is an oracle object: existing files with what `require`
  does (return an array, return another value, or throw with a message),
  existing directories, and creatable and writable directories.
  - `var_export` serialisation is not modelled. A saved array comes back
    unchanged.
  - A failing `file_put_contents` is not modelled. The source suppresses
    its warning, so that failure would be silent.
  - `mkdir`'s creation of parent directories is not modelled.
- The warning suppression of `executeWithErrorSuppression`
  (src/RadixRouter.php:357-366) is not modelled. Only its callback's effect
  is. PHP's error-handler stack is not modelled either, so the skipped
  `restore_error_handler` after a throwing `require` leaves no trace.
- `TrieMatcher.Trie.Add`: a refusal depends on the path alone. Refusals
  that depend on the methods, or on what the trie already holds (a
  duplicate or conflicting registration), are not modelled. So neither is
  a refusal of the routes re-added when `match` retries after a refused
  path, which keeps the queue.
- `FileStore.Dirname` handles `/`-separated paths only. Windows drive
  letters and backslashes are not modelled.
- `generateUri` ignores its `$options` argument, so the model has none.
- `PathTemplate.ReplacePathParameters` does not interpret backreferences
  (`$1`, `\1`, `${1}`) in substitution values. preg_replace would expand
  them; the model inserts values literally.
- `PathTemplate.ReplacePathParameters` leaves out the `?? $path` fallback.
  preg_replace returns null only on a PCRE runtime error, which is not
  modelled.
- `UriGeneration.GenerateFromPath` matches whole names (the corrected
  behaviour, see Findings). The source's prefix matching is
  `UriGeneration.GenerateFromPathAsWritten`. The two agree whenever no
  parameter name is a proper prefix of another (`GenerateAsWrittenAgrees`).
- `UriGeneration.GenerateFillsTemplate` states the fill for whole-name
  matching. It holds for the source's prefix matching only when no
  parameter name is a proper prefix of another, which its second `ensures`
  covers.
- `UriGeneration.GenerateFromSegments` states the filled text for
  whole-name matching. For prefix matching it holds only when no parameter
  name is a proper prefix of another.
- `Router.GenerateUriFrom` generates with `GenerateFromPath`, i.e. whole-name
  matching. On names where one is a proper prefix of another, the source's
  `generateUri` gives `GenerateFromPathAsWritten`'s result instead.
- `Router.RadixRouter.GenerateUri` substitutes with whole-name matching. On
  names where one is a proper prefix of another, the source's
  `generateUri` rewrites the longer token too (see Findings).
- `PathTemplate.ReplacePathParameters` matches whole names (the corrected
  behaviour, see Findings). The source's prefix matching is
  `PathTemplate.SubstituteAsWritten`.
- `TemplateSubstitution.SubstitutionMatchesTemplate` requires names and
  values without `:`. The source's names may contain `:`, and since the
  patterns run in turn, a later pattern could rewrite text inside an
  earlier value.
- `PathNormalizer.NormalizePath` reads `$` as the end of the subject (the
  corrected behaviour, see Findings). The source's reading is
  `PathNormalizer.NormalizePathAsWritten`.
- The source's `marshalMatchedRoute` takes `&$this->routes[$handler]` by
  reference, which for an unknown handler first stores a null entry. The
  model raises `UnknownHandler` and leaves out that entry, which no
  `isset` ever sees.
- PHP turns numeric-string array keys into integers. This does not change
  any lookup and is not modelled.
- A configuration value of the wrong type (a PHP TypeError) is not
  modelled.
- Strings are byte strings: a byte is a `char` below 256. Multi-byte
  characters are not interpreted.
- A cache file that yields an empty array is modelled as written.
  - It sets `hasCache`, so no route is added to the trie.
  - Because the dispatch data is empty, the trie's tables are then saved
    over the cache.

## Findings

| source | as written | input that shows it | evidently intended | confidence | as-written member | corrected member |
|---|---|---|---|---|---|---|
| src/RadixRouter.php:232-236 | the pattern `:(name)(\?\|\*)?` has no boundary after the name, so the pattern for one parameter also rewrites the start of a longer name | `/user/:id/:idx` with id 1 and idx 2 becomes `/user/1/1x` | each token replaced by its own value: `/user/1/2` | high that the output differs, not executed | GenerationExamples.PrefixCollision | TemplateSubstitution.SubstitutionMatchesTemplate |
| src/RadixRouter.php:260 | `#/+$#` has no D modifier, so `$` also matches before a final newline and the slash in front of it is removed | `/\n/` normalises to `/\n`, and that to `\n`: normalising twice differs from once | strip only the slashes at the very end, so that normalisation is idempotent | low (a path ending in a newline is unusual), not executed | PathNormalizer.NormalizeAsWrittenNotIdempotent | PathNormalizer.NormalizeIdempotent |
