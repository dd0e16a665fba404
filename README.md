# robots.txt engine, modelled in Dafny

The repository ships three near-copies of one robots.txt engine. Each is a C#
class `Robots`, and each is modelled here as written.

- Nick.RobotsParser (module `NickParser`)
- Robots/ (module `RobotsParser`)
- RobotsSharp (module `SharpParser`)

Each engine:

- loads the text of a robots.txt file;
- splits it into lines the way `StringReader.ReadLine` does;
- dispatches every line on a lower-cased, fixed-order prefix test (`user-agent:`, `disallow:`, `allow:`, `sitemap:`, `crawl-delay:`);
- builds an ordered list of `Useragent` groups and a set of sitemap URLs;
- answers allow, disallow and crawl-delay queries by exact, first-match group lookup, with or without a fallback to the `"*"` group;
- resolves sitemap indexes and urlsets fetched over HTTP.

Two variants also flatten a tree of sitemap indexes depth-first into a list of
URLs, and report progress after each urlset.

Shared modules:

- `Text`: ASCII `ToLower`, ordinal (character-by-character) `IndexOf`/`Contains`/`StartsWith`, and `Trim(' ')`. In .NET only `Contains` is ordinal; see "Left out".
- `Lines`: `ReadLine` splitting on `"\r\n"`, `"\r"` or `"\n"`.
- `Int32Text`: `int.Parse` as an optional sign plus decimal digits within the signed 32-bit range.
- `RobotsConst` and `SharpConst`: the two `Const` classes.
- `Agent`, `NickUseragent` and `SharpUseragent`: the `Useragent` record and the two rule-matching variants.
- `Directives`: the parse loop as a specification, parameterised by a `Dialect`. A `Dialect` holds the five compared strings, their lengths, and whether the `"<!DOCTYPE html> "` line is skipped.
- `Sitemaps`: the records the XML deserialiser yields, and the walk of `GetSitemapLinksInternal`.

The collaborators are a `Web` value fixed for one `Robots` object. They are the HTTP client, the gzip codec, the UTF-8 decoder and `XmlSerializer`. They appear as abstract functions:

- `get` gives either `Threw` (the client threw before any response, as on a DNS failure or a refused connection) or `Answered` with a success flag and a body;
- `gunzip` gives an `Option`;
- `utf8` decodes the bytes;
- `xml` gives `Index`, `UrlSet` or `Invalid`.

Exceptions are `Failure` values of a `Result`.

Each `Robots` class keeps the source's fields: the loaded text, the group list and the sitemap set (each `Option`, for null), the accumulated sitemap links, and the progress reports.

- The parse methods loop over the lines and are proved against `Directives.Run`.
- The sitemap walk is a method pair proved against `Sitemaps.WalkFrom`/`WalkAll`.
- The queries are functions whose contracts say which group answers.

Assumptions:

- Nick.RobotsParser's `Const` class is not part of this model. The lower-case prefixes of Robots/Const.cs, with the same lengths, stand in for it.
- The `Useragent` class used by Robots/RobotsParser.cs is not part of this model. That file shares the namespace `RobotsSharpParser` with RobotsSharp/RobotsSharpParser/Useragent.cs, so its queries use that file's matching: substring containment, with no blanket `"/"` rule.
- Where the repository's documentation and its code disagree, the code is followed.
  - In RobotsSharp, the `disallow:`, `allow:`, `sitemap:` and `crawl-delay:` lines never match (see Findings), and the class is modelled that way: every group it loads is bare, its sitemap set stays empty, and a file with a rule line fails to load.
  - RobotsSharp's unit tests expect them to parse.

## Model

| member | source | states |
|---|---|---|
| RobotsConst.LengthsMatch | Robots/Const.cs:9-22 | each `…Length` constant is the length of its prefix (9, 6, 11, 8, 12), so `Substring(length)` drops exactly the prefix |
| RobotsConst.AllLowerCase | Robots/Const.cs:9-21 | every prefix is its own lower-cased form, so testing the lower-cased line against it is a case-insensitive prefix test |
| SharpConst.LengthsMatch | RobotsSharp/RobotsSharpParser/Const.cs:11-24 | each `…Length` constant is the length of its capitalised prefix |
| SharpConst.CapitalisedNeverMatchLowered | RobotsSharp/RobotsSharpParser/Const.cs:11-23 | no lower-cased string starts with `Disallow:`, `Allow:`, `Sitemap:` or `Crawl-delay:` |
| SharpConst.UserAgentLowered | RobotsSharp/RobotsSharpParser/Robots.cs:100 | the one constant that is lower-cased before comparison becomes `user-agent:` |
| Text.Lower | Nick.RobotsParser/RobotsParser.cs:89 | `ToLower` keeps the length, maps each upper-case ASCII letter to its lower-case letter and leaves every other character alone |
| Text.IndexOf | Nick.RobotsParser/RobotsParser.cs:294 | the answer is an offset where the pattern occurs and no earlier offset has it; None means it occurs nowhere |
| Text.NoneBeforeFirst | Nick.RobotsParser/RobotsParser.cs:294 | the text up to the first occurrence, plus all but its last character, contains no occurrence |
| Text.ContainsEmpty | Nick.RobotsParser/Useragent.cs:20 | every path contains `""` |
| Text.TrimInfix | Nick.RobotsParser/RobotsParser.cs:91 | `Trim(' ')` yields an infix of the input framed by spaces only, with no space left at either end |
| Text.TrimIdempotent | Nick.RobotsParser/RobotsParser.cs:91 | trimming a trimmed value changes nothing |
| Text.TrimKeepsTab | Nick.RobotsParser/RobotsParser.cs:91 | only `' '` is trimmed: a tab survives |
| Lines.Lines | Nick.RobotsParser/RobotsParser.cs:87 | no line `ReadLine` returns holds a `'\r'` or `'\n'` |
| Lines.LinesUnlines | Nick.RobotsParser/RobotsParser.cs:87 | text whose lines each end in `"\n"` splits back into exactly those lines, with no extra empty line after the last terminator |
| Lines.LinesUnlinesCrlf | Nick.RobotsParser/RobotsParser.cs:87 | the same with `"\r\n"`, which counts as one terminator, not two |
| Lines.LinesUnterminatedLast | Nick.RobotsParser/RobotsParser.cs:87 | a final line without a terminator is still returned, and nothing follows it |
| Int32Text.ParseInt32 | Nick.RobotsParser/RobotsParser.cs:102 | a parsed crawl delay lies in the signed 32-bit range and came from non-empty text |
| Int32Text.ParseShowInt | Nick.RobotsParser/RobotsParser.cs:102 | every 32-bit value written in decimal parses back to itself |
| Int32Text.ParsedIsSignedDigits | Nick.RobotsParser/RobotsParser.cs:102 | text that parses is an optional sign followed by digits only |
| Agent.New | Nick.RobotsParser/Useragent.cs:9-17 | a new group has the given name, empty `Allowed` and `Disallowed` sets and `Crawldelay` 0 |
| Agent.FindFirst | Nick.RobotsParser/RobotsParser.cs:164 | the lookup finds the first group whose name equals the key exactly, and finds nothing exactly when no group has that name |
| Agent.FirstIsUnique | Nick.RobotsParser/RobotsParser.cs:167 | at most one position is the first with a given name |
| NickUseragent.AllowedIff | Nick.RobotsParser/Useragent.cs:20 | `IsAllowed(path)` holds exactly when some allowed entry occurs in `path` at some offset |
| NickUseragent.BlanketDisallow | Nick.RobotsParser/Useragent.cs:21-22 | with `"/"` disallowed, every path is disallowed, including `""` and paths with no slash |
| NickUseragent.EmptyEntryMatchesAll | Nick.RobotsParser/Useragent.cs:20-22 | an entry `""` matches every path, in either set |
| NickUseragent.Monotone | Nick.RobotsParser/Useragent.cs:20-22 | adding entries never turns a true answer into false |
| NickUseragent.DisallowIgnoresAllowed | Nick.RobotsParser/Useragent.cs:22 | the disallow answer does not depend on the allowed set |
| NickUseragent.NewAnswersFalse | Nick.RobotsParser/Useragent.cs:9-22 | a new group answers false to both queries for every path |
| SharpUseragent.DisallowedIff | RobotsSharp/RobotsSharpParser/Useragent.cs:24 | `IsDisallowed(path)` holds exactly when some disallowed entry occurs in `path`; there is no blanket rule |
| SharpUseragent.SlashDoesNotBlockEmptyPath | RobotsSharp/RobotsSharpParser/Useragent.cs:24 | with `Disallowed = {"/"}`, the empty path is not disallowed |
| SharpUseragent.EmptySetsAnswerFalse | RobotsSharp/RobotsSharpParser/Useragent.cs:11-24 | with empty sets, both queries are false for every path |
| Directives.Start | Nick.RobotsParser/RobotsParser.cs:80-86 | a parse starts with no groups, the given sitemap set, and an unlisted `"*"` placeholder as current agent |
| Directives.SetCurrent | Nick.RobotsParser/RobotsParser.cs:96-102 | a rule line replaces the current agent, keeps the group count and every earlier group, and leaves the sitemaps alone |
| Directives.RunStopsAtFirstFailure | Nick.RobotsParser/RobotsParser.cs:87-106 | the loop stops at the first line that throws, and the state left behind is the state after all earlier lines: nothing is rolled back |
| Directives.RunStopped | Nick.RobotsParser/RobotsParser.cs:87-106 | after a line has thrown, the lines after it are never read |
| Directives.StepNames | Nick.RobotsParser/RobotsParser.cs:89-102 | one line appends exactly one group if it is a user-agent line, whose name is the line's value, and no group otherwise |
| Directives.StepSitemaps | Nick.RobotsParser/RobotsParser.cs:99-100 | only a sitemap line adds to the sitemap set, and it adds its value |
| Directives.RunNames | Nick.RobotsParser/RobotsParser.cs:86-106 | after a parse, the group names are those of the user-agent lines read before any error, in order and with repeats; the sitemaps are the earlier ones plus those of the sitemap lines read |
| Directives.NoAgentLinesNoGroups | Nick.RobotsParser/RobotsParser.cs:86-98 | lines with no user-agent line among them leave the group list empty |
| Directives.StepIgnoresPlaceholder | Nick.RobotsParser/RobotsParser.cs:89-102 | two states listing the same groups and sitemaps take one line alike: the same error, or again the same groups and sitemaps |
| Directives.RunIgnoresPlaceholder | Nick.RobotsParser/RobotsParser.cs:86-106 | two parses from states listing the same groups and sitemaps end with the same failure and the same groups and sitemaps, whatever the placeholder holds |
| Directives.RunAppend | Nick.RobotsParser/RobotsParser.cs:87-106 | when a prefix of the lines goes through, the loop over the whole continues from the state the prefix left |
| Directives.RulesBeforeFirstAgentUnlisted | Nick.RobotsParser/RobotsParser.cs:86-102 | rules before the first user-agent line go to the unlisted placeholder: the file yields the same groups, and throws exactly when, its lines after that prefix do from a fresh start |
| Directives.RuleLineTouchesOnlyLatest | Nick.RobotsParser/RobotsParser.cs:95-102 | a non-user-agent line keeps the number of groups, every earlier group, and the name of the latest |
| Directives.CrawlDelayOverwrites | Nick.RobotsParser/RobotsParser.cs:101-102 | a valid crawl-delay line sets the current group's delay, overwriting any earlier one |
| Directives.BadCrawlDelayThrows | Nick.RobotsParser/RobotsParser.cs:101-102 | a crawl-delay value that is not a 32-bit integer throws and leaves the state as it was |
| Directives.NoPrefixWithoutLetter | Nick.RobotsParser/RobotsParser.cs:89-101 | a line not starting with a letter matches none of the five prefixes |
| Directives.CommentsSkipped | Nick.RobotsParser/RobotsParser.cs:103-104 | empty lines and `#` lines are skipped and change nothing |
| Directives.SpacesLineRejected | Nick.RobotsParser/RobotsParser.cs:103-106 | a non-empty line of spaces is unparsable and throws |
| Directives.DoctypeLine | Nick.RobotsParser/RobotsParser.cs:103-106 | the exact line `"<!DOCTYPE html> "` is skipped by a dialect that tolerates it and throws in any other |
| Directives.KeysCaseInsensitive | Nick.RobotsParser/RobotsParser.cs:89-101 | a line's kind depends only on its lower-cased form |
| Sitemaps.Decompress | Robots/RobotsParser.cs:229-230 | when gzip fails the raw bytes are used unchanged; otherwise the decompressed bytes are used |
| Sitemaps.RunningCountsTrack | Robots/RobotsParser.cs:259-260 | one progress report per urlset; the reports never decrease, and the last equals the number of links accumulated |
| Sitemaps.FlattenAppend | Robots/RobotsParser.cs:259 | flattening two runs of urlsets is flattening each and concatenating |
| Sitemaps.RunningCountsAppend | Robots/RobotsParser.cs:259-260 | progress over two runs of urlsets is progress over the first, then over the second from where it left off |
| Sitemaps.ChildStep | Robots/RobotsParser.cs:250-253 | walking one more child of an index appends that child's entries and reports after those of the earlier children |
| Sitemaps.StoppedStaysStopped | Robots/RobotsParser.cs:250-253 | once a child's walk has thrown, later children are never visited |
| Sitemaps.IndexOfUrlSets | Robots/RobotsParser.cs:248-262 | an index whose children are all urlsets yields exactly their entry lists, child after child, in document order |
| Sitemaps.FlattenSize | Robots/RobotsParser.cs:259 | the number of links appended is the sum of the urlset sizes |
| Sitemaps.SelfReferenceNeverFinishes | Nick.RobotsParser/RobotsParser.cs:244-252 | an index that lists itself never finishes and appends nothing, whatever the depth bound |
| RobotsParser.ParserDialect | Robots/RobotsParser.cs:98-112 | the dialect compared by this variant is well formed, has letter-initial prefixes, and does not skip the DOCTYPE line |
| RobotsParser.PageFallsBackToRaw | Robots/RobotsParser.cs:241-248 | a fetch that throws or answers a non-success status is unreachable; a body the codec cannot gunzip is deserialised as it arrived, any other after decompression |
| RobotsParser.Robots.ParseRobots | Robots/RobotsParser.cs:84-118 | with no text, throws not-loaded and changes nothing; otherwise replaces the group list and sitemap set with those the loop built from empty, and returns the first line's error if any |
| RobotsParser.Robots.Load | Robots/RobotsParser.cs:128-132 | stores the text and leaves the groups, sitemaps and outcome of parsing it from empty |
| RobotsParser.Robots.UserAgents | Robots/RobotsParser.cs:135-143 | the list once parsed, otherwise RobotsNotloadedException |
| RobotsParser.Robots.Sitemaps | Robots/RobotsParser.cs:146-154 | the set once parsed, otherwise RobotsNotloadedException |
| RobotsParser.Robots.GetAllowedPaths | Robots/RobotsParser.cs:156 | the allowed set of the first group with exactly that name; no such group throws |
| RobotsParser.Robots.GetDisallowedPaths | Robots/RobotsParser.cs:157 | the disallowed set of the first group with exactly that name; no such group throws |
| RobotsParser.Robots.IsPathAllowed | Robots/RobotsParser.cs:158-164 | true iff the agent's first group allows the path, or the agent is not `"*"` and the first `"*"` group allows it; throws exactly when that fallback is needed and there is no `"*"` group |
| RobotsParser.Robots.IsPathDisallowed | Robots/RobotsParser.cs:166-172 | the same OR-fallback on the disallow answer |
| RobotsParser.Robots.GetCrawlDelay | Robots/RobotsParser.cs:174-180 | the first group with that name answers, even with 0; without one, `"*"` answers 0 and any other agent takes the first `"*"` group's delay, throwing if there is none |
| RobotsParser.Robots.GetSitemapsInternal | Robots/RobotsParser.cs:223-236 | fails exactly when the fetch fails or the content is not a sitemap index; a fetched non-index is a deserialisation error; success returns the index's entries |
| RobotsParser.Robots.GetSitemapIndexes | Robots/RobotsParser.cs:182-201 | throws before a load; a URL resolves only that URL; `""` visits each known sitemap once, concatenating entries and stopping at the first error, and on success visits them all |
| RobotsParser.Robots.GetUrls | Robots/RobotsParser.cs:203-219 | fails exactly when the fetch fails or the content is not a urlset; success returns its urls |
| RobotsParser.Robots.GetSitemapLinksInternal | Robots/RobotsParser.cs:239-263 | appends to the links the depth-first, document-order flattening of the walk, and one running count per urlset; invalid content adds nothing; the result says whether and where it stopped |
| RobotsParser.Robots.GetChildLinks | Robots/RobotsParser.cs:250-253 | the loop over an index's children appends the walks of the children in order, stopping at the first that throws |
| NickParser.ParserDialect | Nick.RobotsParser/RobotsParser.cs:89-106 | the dialect is well formed, has letter-initial prefixes, and skips the DOCTYPE line |
| NickParser.StripVersionRemovesDeclaration | Nick.RobotsParser/RobotsParser.cs:292-298 | the result is a suffix of the input; without `"?>"` it is the input; otherwise what is cut ends with the first `"?>"` and has no earlier one |
| NickParser.PagesIgnoreGunzip | Nick.RobotsParser/RobotsParser.cs:246-247 | no page depends on the gzip codec; a fetch that throws or answers a non-success status is unreachable |
| NickParser.ParseKeepsSitemaps | Nick.RobotsParser/RobotsParser.cs:81-100 | a parse keeps every known sitemap and adds those of the sitemap lines read before any error |
| NickParser.Robots.ParseRobots | Nick.RobotsParser/RobotsParser.cs:75-109 | with no text, throws not-loaded and changes nothing; otherwise a fresh group list, the existing sitemap set (or an empty one) extended by the loop, and the first line's error if any |
| NickParser.Robots.LoadRobotsContent | Nick.RobotsParser/RobotsParser.cs:135-140 | stores the text, parses it onto the existing sitemaps, and answers true unless parsing throws |
| NickParser.Robots.UserAgents | Nick.RobotsParser/RobotsParser.cs:143-151 | the list once parsed, otherwise RobotsNotloadedException |
| NickParser.Robots.Sitemaps | Nick.RobotsParser/RobotsParser.cs:154-162 | the set once it exists, otherwise RobotsNotloadedException |
| NickParser.Robots.GetAllowedPaths | Nick.RobotsParser/RobotsParser.cs:164 | the allowed set of the first group with exactly that name; no such group throws |
| NickParser.Robots.GetDisallowedPaths | Nick.RobotsParser/RobotsParser.cs:165 | the disallowed set of the first group with exactly that name; no such group throws |
| NickParser.Robots.IsPathAllowed | Nick.RobotsParser/RobotsParser.cs:166-172 | true iff the agent's first group allows the path, or the agent is not `"*"` and the first `"*"` group allows it; throws exactly when that fallback is needed and there is no `"*"` group |
| NickParser.Robots.IsPathDisallowed | Nick.RobotsParser/RobotsParser.cs:174-180 | the same OR-fallback on the disallow answer, with the blanket `"/"` rule |
| NickParser.Robots.GetCrawlDelay | Nick.RobotsParser/RobotsParser.cs:182-188 | the first group with that name answers, even with 0; without one, `"*"` answers 0 and any other agent takes the first `"*"` group's delay, throwing if there is none |
| NickParser.Robots.GetSitemapsInternal | Nick.RobotsParser/RobotsParser.cs:232-241 | a failed fetch throws; a non-index throws unless errors are suppressed, in which case it yields no entries; an index yields its entries |
| NickParser.Robots.GetSitemapIndexes | Nick.RobotsParser/RobotsParser.cs:190-214 | a non-empty URL is added to the set first, creating it if needed; with no set, throws if nothing was loaded and answers nothing otherwise; with a set, visits each member once, concatenating entries and stopping at the first error |
| NickParser.Robots.GetUrls | Nick.RobotsParser/RobotsParser.cs:216-228 | a failed fetch throws; a non-urlset throws unless errors are suppressed, in which case it yields nothing; a urlset yields its urls |
| NickParser.Robots.GetSitemapLinksInternal | Nick.RobotsParser/RobotsParser.cs:244-262 | appends to the links the depth-first, document-order flattening of the walk, and one running count per urlset; invalid content adds nothing |
| NickParser.Robots.GetChildLinks | Nick.RobotsParser/RobotsParser.cs:249-252 | the loop over an index's children appends the walks of the children in order, stopping at the first that throws |
| SharpParser.WrittenDialect | RobotsSharp/RobotsSharpParser/Robots.cs:100-114 | the comparison as written is well formed and does not skip the DOCTYPE line |
| SharpParser.WrittenRecognisesOnlyUserAgents | RobotsSharp/RobotsSharpParser/Robots.cs:106-113 | as written, no line is ever taken for a disallow, allow, sitemap or crawl-delay line |
| SharpParser.WrittenRejectsDisallow | RobotsSharp/RobotsSharpParser/Robots.cs:106-117 | as written, a line beginning `Disallow:` is unparsable and throws |
| SharpParser.WrittenStepKeepsBare | RobotsSharp/RobotsSharpParser/Robots.cs:100-117 | as written, no line adds a rule to a group or a sitemap to the set |
| SharpParser.WrittenParseHasNoRules | RobotsSharp/RobotsSharpParser/Robots.cs:91-119 | as written, every parsed group is exactly a new `Useragent` and the sitemap set stays empty, whatever the text |
| SharpParser.CorrectedDialect | RobotsSharp/RobotsSharpParser/Robots.cs:100-114 | the corrected comparison is well formed, has letter-initial prefixes, and does not skip the DOCTYPE line |
| SharpParser.DisallowRecognised | RobotsSharp/RobotsSharpParser/Robots.cs:106-107 | corrected, a `Disallow:` line adds its trimmed value to the current group's disallowed set |
| SharpParser.UserAgentCountIsAgentLines | RobotsSharp/RobotsSharpParser/Robots.cs:100-147 | after a parse with the comparison as written, the group count is the number of user-agent lines read before any error, repeats included |
| SharpParser.Robots.SetIgnoreErrors | RobotsSharp/RobotsSharpParser/Robots.cs:55 | the setter changes the flag and nothing else |
| SharpParser.Robots.ParseRobotsAsync | RobotsSharp/RobotsSharpParser/Robots.cs:89-120 | resets both the group list and the sitemap set; with no text the `StringReader` then throws `ArgumentNullException`; otherwise they hold what the loop as written built from empty, with the first line's error if any; in every case each group is a bare `new Useragent(name)` and the sitemap set is empty |
| SharpParser.Robots.Load | RobotsSharp/RobotsSharpParser/Robots.cs:135-139 | stores the text and leaves the groups, sitemaps and outcome of parsing it as written from empty: bare groups and no sitemaps |
| SharpParser.Robots.UserAgentCount | RobotsSharp/RobotsSharpParser/Robots.cs:147 | the number of groups; with no list it dereferences null |
| SharpParser.Robots.UserAgents | RobotsSharp/RobotsSharpParser/Robots.cs:150-158 | the list once parsed, otherwise RobotsNotloadedException |
| SharpParser.Robots.Sitemaps | RobotsSharp/RobotsSharpParser/Robots.cs:161-169 | the set once parsed, otherwise RobotsNotloadedException |
| SharpParser.Robots.First | RobotsSharp/RobotsSharpParser/Robots.cs:171-175 | the first group with exactly that name; no such group throws, even for `"*"` |
| SharpParser.Robots.GetAllowedPaths | RobotsSharp/RobotsSharpParser/Robots.cs:171 | the allowed set of the first group with exactly that name; no such group throws |
| SharpParser.Robots.GetDisallowedPaths | RobotsSharp/RobotsSharpParser/Robots.cs:172 | the disallowed set of the first group with exactly that name; no such group throws |
| SharpParser.Robots.IsPathAllowed | RobotsSharp/RobotsSharpParser/Robots.cs:173 | the first group with exactly that name answers, with no fallback; no such group throws |
| SharpParser.Robots.IsPathDisallowed | RobotsSharp/RobotsSharpParser/Robots.cs:174 | the first group with exactly that name answers, with no fallback; no such group throws |
| SharpParser.Robots.GetCrawlDelay | RobotsSharp/RobotsSharpParser/Robots.cs:175 | the delay of the first group with exactly that name; no default, and no such group throws |
| SharpParser.Robots.GetSitemapsInternal | RobotsSharp/RobotsSharpParser/Robots.cs:243-258 | a failed fetch throws; a non-index throws unless IgnoreErrors is set, in which case it yields no entries; an index yields its entries |
| SharpParser.Robots.GetSitemapIndexesAsync | RobotsSharp/RobotsSharpParser/Robots.cs:187-199 | a URL resolves only that URL; `""` with no set dereferences null; otherwise visits each member once, concatenating entries and stopping at the first error |
| SharpParser.Robots.GetUrlsAsync | RobotsSharp/RobotsSharpParser/Robots.cs:211-239 | a request that throws propagates its exception; a non-success status yields nothing whatever IgnoreErrors says; a non-urlset throws exactly when IgnoreErrors is off; otherwise the urlset's urls |

## Left out

- Network loading is not modelled, because it is network plumbing. This covers `LoadRobotsFromUrl`, `Load()`, `LoadAsync()`, the HTTP client's construction and headers, and the `Uri` checks in the constructors.
- The HTTP client, the gzip codec, the UTF-8 decoder and `XmlSerializer` are abstract functions of a `Web` value. They are library code.
- `NamespaceIgnorantXmlTextReader` is not part of this model.
- `Task`, `async`/`await` and `.Wait()` are left out: the code is sequential once awaited.
- RobotsSharp's synchronous wrappers `GetSitemapIndexes`, `GetUrls` and `Load()` are the same operation as their async counterparts. So is `LoadAsync(string)`, which is the same as `Load(string)`.
- The `OnProgress` event is an appended sequence of the reported counts. Whether a handler is attached does not change the engine's state.
- `Dispose` and the finalizers are left out: they only release the HTTP client.
- The `RobotsNotloadedException` classes become the `NotLoaded` error value.
- Null arguments are not modelled (`sitemap` passed as null, `ArgumentNullException`). Dafny values are never null.
- A deserialised document whose `sitemap` or `url` list is null is folded into `Invalid`.
  - Nick.RobotsParser and Robots/ treat it the same as invalid content.
  - In RobotsSharp's `GetSitemapsInternal`, such an index returns a null list, and the caller's `AddRange` then throws. The model instead follows the invalid-content path.
- `ToLower` is ASCII lower-casing, not culture-specific.
- `Text.StartsWith`, `Text.IndexOf`: ordinal comparisons, whereas .NET's `string.StartsWith(string)` and `string.IndexOf(string)` compare with the current culture. Under a culture that ignores characters such as the soft hyphen U+00AD, the source takes `"\u00ADuser-agent: *"` for a user-agent line (named `": *"`), and the model rejects it as unparsable. This affects the dispatch in all three parse loops and `StripVersionFromString`. Culture data is outside the model.
- `int.Parse` is reduced to an optional sign and decimal digits in the signed 32-bit range. Surrounding whitespace other than `' '`, thousands separators and culture formats are not modelled.
- HashSet iteration order is unspecified. `GetSitemapIndexes`/`GetSitemapIndexesAsync` return the order they chose as a ghost value, and are specified for every order.
- `RobotsParser.Robots.GetSitemapLinksInternal`, `NickParser.Robots.GetSitemapLinksInternal`: these take a `fuel` bound on the recursion depth. Running out is reported as a stop. The source has no visited set and no depth bound, so a cycle of indexes recurses until the stack overflows. `Sitemaps.SelfReferenceNeverFinishes` shows that no bound suffices for a self-listing index.
- `GetChildLinks` is the `foreach` inside `GetSitemapLinksInternal`, written as a separate method so that each loop proof stays small.
- `Useragent` groups are values, not shared objects. The parser's `currentAgent` alias to the latest listed group is modelled as "the last group, or the unlisted placeholder", which is what the aliasing amounts to.

## Findings

| source | as written | input that shows it | evidently intended | confidence | as-written member | corrected member |
|---|---|---|---|---|---|---|
| RobotsSharp/RobotsSharpParser/Robots.cs:106-113 | The lower-cased line is compared with `Const.Disallow`, `Const.Allow`, `Const.Sitemap` and `Const.Crawldelay`, which are capitalised (`"Disallow:"` …), so none of the four can match. Every such line falls through to the throw at lines 116-117, and no file with a rule or sitemap line loads. | `"User-agent: *\nDisallow: /cgi-bin/"`: the second line throws "Unable to parse". RobotsSharp/UnitTests/RobotsSharpTests.cs:19-24 expects such a file to load and its paths to be disallowed. | Compare against the lower-cased constants, as line 100 does for `Const.UserAgent`. Robots/Const.cs, in the same namespace, has exactly these constants in lower case. | high, not executed | SharpParser.WrittenRejectsDisallow (with SharpParser.WrittenDialect and SharpParser.WrittenParseHasNoRules; SharpParser.Robots.Load runs this comparison) | SharpParser.DisallowRecognised (with SharpParser.CorrectedDialect) |
