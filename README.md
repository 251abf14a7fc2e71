# Roblox rich-member finder, modelled in Dafny

The repository holds two browser-extension popups that list the wealthiest
members of a Roblox community (a "group").

- `roblox-richest-extension/popup.js` is the newer popup. It works in six steps:
  - it extracts a group id from a link or a bare number;
  - it enumerates the group's members role by role, with cursor pagination, de-duplicated by user id;
  - it values each member by their limited items: items with a recent average price (RAP) of at least 10,000, created by Roblox itself. Creators are resolved by a two-tier batched lookup;
  - it attaches the value to each member, twelve members per batch;
  - it sorts the list, richest first, and stores it;
  - it requests the members' avatar headshots in batches of 100, where a failed request is reported after the list is stored.
- `popup.js` is the older popup, the class `RobloxRichPlayersFinder`. It works in three steps:
  - it parses a `/communities/<id>` link;
  - it reads up to ten pages of members;
  - for the first fifty members it estimates wealth (the Rolimons value, or 1,000 per collectible), keeps those worth at least 10,000, and sorts them richest first.

Every HTTP exchange is an input to the model:
- A single request is a `Response` (a parsed body, or a failure status).
- A cursor-paginated listing is the sequence of responses it gives to successive requests.
- A batch endpoint is a function from a batch of ids to a response.

Nothing is fetched. The loops are `method`s proved against specification functions. Each popup's mutable state is a class:
- `Richest.RichestPopup` holds the newer popup's globals `lastGroupId` and `lastData`.
- `Finder.RichPlayersFinder` holds the older popup's fields.

Modules:
- `Common` covers options, results and digits.
- `Collections` holds `chunk`, filtering, first-occurrence de-duplication and the descending in-place sort.
- `Paging` is the cursor loop.
- `GroupId` is `extractGroupId` and the leftmost-match machinery.
- `Html` is `escapeHtml`.
- `Creators` is `fetchAssetCreators`.
- `LimitedRap` is `fetchUserLimitedRAP`.
- `Enrich` is `enrichMembersWithValue`.
- `Richest` covers member enumeration, group validation and the popup state.
- `Finder` is the older popup.

## Model

| member | source | states |
|---|---|---|
| Collections.Chunk | roblox-richest-extension/popup.js:95-99 | the loop's output is the partition `Chunks(arr, size)` |
| Collections.ChunksFlatten | roblox-richest-extension/popup.js:95-99 | concatenating the chunks gives back the input |
| Collections.ChunksShape | roblox-richest-extension/popup.js:95-99 | every chunk holds 1 to `size` elements and every chunk but the last exactly `size`; a non-empty input gives at least one chunk |
| Collections.ChunkElements | roblox-richest-extension/popup.js:95-99 | every element of a chunk is an element of the input |
| Collections.DedupBy | roblox-richest-extension/popup.js:70-78 | the `seen`-set loop returns `FirstOccurrences(all, key)`: each element whose key was seen earlier is dropped |
| Collections.DedupDistinct | roblox-richest-extension/popup.js:70-78 | the de-duplicated list has pairwise-distinct keys |
| Collections.DedupSameKeys | roblox-richest-extension/popup.js:70-78 | de-duplication keeps exactly the set of keys of the input |
| Collections.DedupKeepsFirst | roblox-richest-extension/popup.js:70-78 | every element that is the first with its key is kept |
| Collections.DedupSubsequence | roblox-richest-extension/popup.js:70-78 | the output is a subsequence of the input, so first-seen order is preserved |
| Collections.FilterSpec | roblox-richest-extension/popup.js:157-161 | filtering keeps exactly the elements satisfying the test, in order, and never lengthens the list |
| Collections.InsertInPlace | roblox-richest-extension/popup.js:265 | one insertion step extends the sorted prefix by one element and leaves everything after it in place; it keeps the multiset of the array and the order among equal keys |
| Collections.SortByKeyDescending | roblox-richest-extension/popup.js:265 | after the in-place sort the key never increases along the array, the array holds the same multiset of elements, and elements with equal keys keep their original relative order (the sort is stable) |
| Collections.SwapKeepsKeyOrder | roblox-richest-extension/popup.js:265 | exchanging two neighbours with different keys keeps, for every key, the order of the elements with that key |
| Collections.StableOnTies | roblox-richest-extension/popup.js:265 | what stability pins down: when all keys of the input tie, a result with the same per-key order is the input itself |
| Paging.FollowCursor | roblox-richest-extension/popup.js:60-68 | the cursor loop reads responses up to the first failure or missing cursor; it returns that failure, or the pages' data concatenated in page order |
| Paging.StopIndex | roblox-richest-extension/popup.js:67-68 | the index at which the loop stops is the first response that fails or carries no cursor |
| Paging.ResultIgnoresLaterPages | roblox-richest-extension/popup.js:60-68 | responses after the stopping one are never consulted: listings that agree up to it give the same result |
| Paging.AllDataPrefix | roblox-richest-extension/popup.js:60-68 | reading more pages only extends the collected data |
| GroupId.TrimStart | roblox-richest-extension/popup.js:17 | returns a suffix of the input that does not start with ECMAScript white space or a line terminator |
| GroupId.TrimEnd | roblox-richest-extension/popup.js:17 | returns a prefix of the input that does not end with ECMAScript white space or a line terminator |
| GroupId.TrimStartSpec | roblox-richest-extension/popup.js:17 | every character cut off the front by TrimStart is white space or a line terminator |
| GroupId.TrimEndSpec | roblox-richest-extension/popup.js:17 | every character cut off the back by TrimEnd is white space or a line terminator |
| GroupId.TrimIsSlice | roblox-richest-extension/popup.js:17 | the trimmed value is a contiguous slice of the input, everything before and after it is white space, and it neither starts nor ends with white space |
| GroupId.FindMatch | roblox-richest-extension/popup.js:19-23 | the index found is a match and no earlier index matches; with no result, no index matches |
| GroupId.DigitRun | roblox-richest-extension/popup.js:19-23 | the greedy `\d+`: the whole run of digits at the given index |
| GroupId.CaptureSpec | roblox-richest-extension/popup.js:19-25 | a capture exists exactly when the expression matches somewhere, and it is the digit run of the leftmost match, at least the minimum length |
| GroupId.ExtractGroupId | roblox-richest-extension/popup.js:15-26 | empty input gives null; any id returned is a non-empty string of digits |
| GroupId.ExtractGroupIdPriority | roblox-richest-extension/popup.js:15-26 | the `/communities/` capture wins over the `/groups/` capture, which wins over the first run of three or more digits; with none of these the result is null |
| GroupId.NoDigitsNoId | roblox-richest-extension/popup.js:15-26 | input without any digit yields null |
| GroupId.AbcHasNoId | roblox-richest-extension/popup.js:15-26 | `"abc"` yields null |
| GroupId.ExtractBareId | roblox-richest-extension/popup.js:24-25 | the bare id `"123456"` is returned as it is |
| GroupId.ExtractCommunityPath | roblox-richest-extension/popup.js:19-20 | `"/communities/123456"` yields `"123456"` |
| GroupId.ExtractGroupPath | roblox-richest-extension/popup.js:21-22 | `"/groups/123456"` yields `"123456"` |
| Html.EscapeHtml | roblox-richest-extension/popup.js:232-240 | the output contains no raw `<`, `>`, `"` or `'`; text without any of `&<>"'` is unchanged; the output is never shorter |
| Html.EscapeHtmlEntities | roblox-richest-extension/popup.js:234-238 | each of `&<>"'` maps to its fixed character reference |
| Html.EscapeHtmlAppend | roblox-richest-extension/popup.js:232-240 | escaping works character by character: it distributes over concatenation |
| Html.EscapeHtmlRoundTrip | roblox-richest-extension/popup.js:232-240 | decoding the five references gives back the original text, so escaping loses nothing |
| Creators.RunTier | roblox-richest-extension/popup.js:107-125 | one tier sends its batches in order and merges each successful answer; a failed batch leaves the map unchanged |
| Creators.FetchAssetCreators | roblox-richest-extension/popup.js:101-148 | the result is the GET tier over batches of 50, then the POST tier over batches of 60 of the ids still missing |
| Creators.BatchSizes | roblox-richest-extension/popup.js:106-128 | GET requests carry 1 to 50 ids and POST requests 1 to 60 |
| Creators.PostAsksOnlyForMissing | roblox-richest-extension/popup.js:127-128 | the POST tier requests only requested ids that are absent from the map after the GET tier |
| Creators.PostCoversMissing | roblox-richest-extension/popup.js:127-128 | every requested id left unresolved by the GET tier is requested by the POST tier |
| Creators.TierKeepsKeys | roblox-richest-extension/popup.js:107-145 | a tier never removes a resolved asset |
| Creators.FailingTierIsNoOp | roblox-richest-extension/popup.js:122-124 | a tier whose every request fails leaves the map as it was, raising nothing |
| Creators.TierEntriesFromAnswers | roblox-richest-extension/popup.js:107-145 | every entry of the map was already there or comes from a record of a successful answer |
| LimitedRap.ReadPreliminary | roblox-richest-extension/popup.js:153-165 | the inventory loop fails with the first failed page, or returns the items with RAP of at least 10,000 in page order |
| LimitedRap.SumOwned | roblox-richest-extension/popup.js:171-182 | the summing loop yields `Summarize(prelim, creators)` |
| LimitedRap.FetchUserLimitedRap | roblox-richest-extension/popup.js:150-183 | the method returns `UserRap`: inventory failure, the zero summary for an empty preliminary list, or the summary against the creators of its distinct asset ids |
| LimitedRap.UserRapSpec | roblox-richest-extension/popup.js:150-183 | the call fails exactly when an inventory page fails. Otherwise the preliminary list holds exactly the items with RAP of at least 10,000 in page order; an empty one gives `{0, 0, []}`; and the total is at least 10,000 times the count |
| LimitedRap.SummarizeSpec | roblox-richest-extension/popup.js:171-182 | owned items are exactly the preliminary items with creator metadata whose id is "1" or whose name is "Roblox", in order; items without metadata are excluded; `totalRAP` is their sum and `qualifyingCount` their number |
| LimitedRap.SumRapLowerBound | roblox-richest-extension/popup.js:158-160 | a sum of items each worth at least 10,000 is at least 10,000 times their number |
| LimitedRap.UniqueAssetIdsSpec | roblox-richest-extension/popup.js:169-170 | creator lookups are asked for pairwise-distinct ids, exactly the asset ids of the preliminary items |
| LimitedRap.WealthExample | roblox-richest-extension/popup.js:157-182 | three items (Roblox 15,000; Roblox 5,000; other creator 20,000) give a total of 15,000 with one qualifying item |
| Enrich.Valued | roblox-richest-extension/popup.js:188-195 | the record extends the member; a failed lookup gives the zero summary; the total is at least 10,000 times the count |
| Enrich.EnrichBatch | roblox-richest-extension/popup.js:188-196 | a batch values every member in order; a failure never aborts the batch |
| Enrich.EnrichMembersWithValue | roblox-richest-extension/popup.js:185-200 | the output has the input's length and order, and each record is that member's own valuation |
| Richest.ValidateGroupId | roblox-richest-extension/popup.js:49-53 | the lookup fails, or the result says whether the id is among the groups returned; an empty answer gives false |
| Richest.FetchAllMembers | roblox-richest-extension/popup.js:55-79 | the method returns `AllMembers`: the roles failure, the first member-page failure, or the first occurrences, by user id, of the role listings concatenated |
| Richest.RoleListingsOk | roblox-richest-extension/popup.js:58-69 | the enumeration succeeds exactly when every role's listing does |
| Richest.RoleListingsData | roblox-richest-extension/popup.js:58-69 | a successful enumeration yields the role listings' members concatenated in role order |
| Richest.RoleFailurePersists | roblox-richest-extension/popup.js:58-69 | a failure among the first roles is the failure of the whole enumeration |
| Richest.AllMembersSpec | roblox-richest-extension/popup.js:70-78 | members have pairwise-distinct user ids, the same set of user ids as the listings, each first occurrence kept, nobody added |
| Richest.SortByRap | roblox-richest-extension/popup.js:265 | the valued members come back as a permutation of themselves with total RAP non-increasing, members of equal total RAP in their original order |
| Richest.MemberIds | roblox-richest-extension/popup.js:247 | the ids of the members, one per member, in list order |
| Richest.FirstFailureSpec | roblox-richest-extension/popup.js:85-91 | no failure means every headshot request succeeded; a failure is the status of a failing batch whose predecessors all succeeded |
| Richest.LoadAvatars | roblox-richest-extension/popup.js:81-93 | the batch loop raises the first failing headshot request over the ids in batches of 100, and an empty list requests nothing |
| Richest.RichestPopup.Run | roblox-richest-extension/popup.js:256-271 | a failed enumeration is raised and leaves `lastData` unchanged; otherwise `lastData` becomes the valued members sorted stably by total RAP, largest first, and then the first failed headshot request, if any, is raised |
| Richest.RichestPopup.Search | roblox-richest-extension/popup.js:273-292 | no id, a failed validation or an invalid group is reported and changes nothing; a valid id is remembered and run, and the outcome is "Done." exactly when the run raises nothing, else the raised status, with `lastData` as the run leaves it |
| Richest.RichestPopup.Refresh | roblox-richest-extension/popup.js:294-297 | without a remembered group nothing happens and there is no result; otherwise the remembered group is run again, with the same guarantees as a search run |
| Richest.ShownRichestFirst | roblox-richest-extension/popup.js:265-266 | the stored list, shown in order by `renderList`, starts with a member whose total RAP is at least every other member's |
| Richest.RichestPopup.constructor | roblox-richest-extension/popup.js:7-8 | the popup starts with no remembered group and no result |
| Finder.ParseCommunityUrl | popup.js:54-80 | every failure message starts with "Invalid URL format: "; success needs a host containing "roblox.com" and yields 1 to 20 digits |
| Finder.ParseCommunityUrlSpec | popup.js:54-80 | the checks in order: host, then the `/communities/<digits>` leftmost capture, then the 20-digit limit, each with its own message |
| Finder.PagesFetched | popup.js:136-167 | between 1 and 10 responses are read |
| Finder.FetchedFrom | popup.js:140-167 | the loop stops at the first response without a cursor or at the tenth |
| Finder.FetchCommunityMembers | popup.js:133-174 | the loop returns the first failure, or the data of the pages read, in page order |
| Finder.CapAgreesWithUncapped | popup.js:137-167 | a listing that stops within ten pages is read exactly as an uncapped loop reads it |
| Finder.CapStopsLongListings | popup.js:137-167 | a listing that would go on is cut after ten pages |
| Finder.BasicInventoryValue | popup.js:249-268 | 1,000 per collectible on the first page; non-negative, a multiple of 1,000, and 0 when the request fails |
| Finder.RolimonValue | popup.js:231-247 | the player's Rolimons value when the lookup succeeds and knows the player, otherwise 0; it never fails |
| Finder.PlayerWealth | popup.js:214-229 | a positive Rolimons value wins, otherwise the inventory estimate; never negative, and 0 exactly when neither source gives anything |
| Finder.Examined | popup.js:180 | `Math.min(members.length, 50)` |
| Finder.CandidatesSpec | popup.js:180-206 | a player is a candidate exactly when some member contributes it |
| Finder.KeptSpec | popup.js:176-212 | at most 50 kept; each kept player is worth at least 10,000; exactly the qualifying players among the first min(n, 50) members, with rank 0 when missing |
| Finder.AnalyzePlayersWealth | popup.js:176-212 | the result is the kept players, as a permutation, sorted by total value, non-increasing, players of equal value in member order |
| Finder.AnalyzeAsWritten | popup.js:183-205 | as written, the analysis succeeds exactly when every examined member has a user |
| Finder.AsWrittenAbortsOnMissingUser | popup.js:202-205 | one member without a user aborts the analysis as written, where the intended result is an empty list |
| Finder.CorrectedSkipsMissingUser | popup.js:202-205 | with the intended skip, a member without a user contributes nothing and leaves the others' entries as they were |
| Finder.CachedRichestFirst | popup.js:108-111 | the cached list, shown in order by `displayResults`, starts with a player whose total value is at least every other cached player's |
| Finder.RichPlayersFinder.constructor | popup.js:2-5 | the finder starts with no community, no search running and no cached result |
| Finder.RichPlayersFinder.SearchPlayers | popup.js:82-120 | the outcome is "empty input" exactly for blank input; a non-blank input is rejected exactly when the link does not parse, with the parser's message; both change nothing; a parsed id is always loaded as `LoadCommunity` states |
| Finder.RichPlayersFinder.LoadCommunity | popup.js:91-119 | the parsed id is remembered; a failed fetch or an empty member list leaves the cache as it was; otherwise the cache becomes the kept players, sorted stably by total value |
| Finder.RichPlayersFinder.RefreshResults | popup.js:122-131 | without a remembered community nothing changes and "nothing to refresh" is reported; otherwise the cache is dropped and the search runs again with the guarantees of `SearchPlayers`, starting from an empty cache |

## Left out

- DOM rendering and status text (`renderList`, `displayResults`, `showLoading`, `showError`, `setStatus`, `updateProgress`, the buttons' disabled state) are presentation only. Searches report an outcome value instead.
- `chrome.storage` load and save (popup.js:27-52) are external I/O. The constructor starts with empty state.
- The event listeners and the Enter-key wiring are left out. The `Search`, `Refresh`, `SearchPlayers` and `RefreshResults` methods stand for the click handlers.
- `fetch` and `response.json` are left out. Responses are inputs, and a body that fails to parse counts as a failed response.
- The text of error messages built from HTTP statuses or URLs is left out; the status is kept instead.
- The avatar images are DOM decoration. Of `loadAvatars`, only the headshot requests and the failure they raise are modelled.
- The WHATWG URL constructor is a foreign library. Its result, a host name and path or an error message, is an input.
- `formatRobux` and `formatNumber` depend on floating point and locale.
- The DOM-based `escapeHtml` of popup.js:352-356 relies on the browser's serializer.
- The click handlers are modelled as running to completion one at a time. In the source they are `async` and can interleave at each `await`. In the newer popup nothing disables the search button during a run, so a second search can change `lastGroupId` while the first run is still going; `lastGroupId` and `lastData` can then name different groups, and the last run to finish writes `lastData`. In the older popup a refresh clicked during a search starts a second `searchPlayers`; the two race on `cachedResults`, and the first to finish clears `isSearching`.
- `Promise.all` parallelism and the 100 ms `delay` are modelled as sequential evaluation. This keeps order and failure isolation, not timing.
- Field-name fallbacks (`item.id || item.assetId`, `creator.creatorTargetId || creator.Id`, `recentAveragePrice || recentAverageSalePrice`) are left out. Records enter the model already normalised, and RAP and values are integers.
- A member page entry without `user` is a `TypeError` in `fetchAllMembers`. In the model, members enter already extracted.
- Paging.FollowCursor and the other cursor loops require the listing to end (`Ends`). The source has no guard against an upstream that returns cursors forever, and such a listing would loop without end.
- Finder.RichPlayersFinder.LoadCommunity: analyses the members with the corrected skip of a member without `user` (see Findings). As written, such a member among the first fifty makes `analyzePlayersWealth` throw. The search then reports that error and leaves `cachedResults` as it was, where the model caches the kept players.
- Finder.FetchCommunityMembers: `members.push(...data.data)` for an absent `data` is taken as an empty page.
- `member.role?.rank || 0` is modelled as the rank, or 0 when missing. A present rank of 0 also gives 0.

## Findings

| source | as written | input that shows it | evidently intended | confidence | as-written member | corrected member |
|---|---|---|---|---|---|---|
| popup.js:202-205 | the `catch` block logs `member.user.name`. The only statement of the `try` that can throw is the `member.user` access, so when `user` is absent the handler throws again and aborts the whole analysis and the search | a members page whose entry has no `user` field | skip the member and continue with the next, as the comment says | not executed | Finder.AsWrittenAbortsOnMissingUser | Finder.CorrectedSkipsMissingUser |

Three points worth knowing:
- The Rolimons shortcut exists only in the older popup.
- The 10,000 threshold is a constant, not a parameter.
- Both sorts are stable, as `Array.prototype.sort` is: members of equal value keep their input order.
