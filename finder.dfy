/** The older popup, class `RobloxRichPlayersFinder`: parse a community link,
    read up to ten pages of members, estimate the wealth of the first fifty
    and keep those worth at least 10,000, richest first. */
module Finder {
  import opened Common
  import opened Collections
  import opened Paging
  import opened GroupId

  // ---------------------------------------------------------------- parseCommunityUrl

  /** What the URL constructor yields for a link: its host name and path. */
  datatype UrlParts = UrlParts(hostname: string, pathname: string)

  const UrlErrorPrefix := "Invalid URL format: "
  const RobloxHost := "roblox.com"
  const NotRobloxMessage := "Not a valid Roblox URL"
  const NoIdMessage := "Community ID not found in URL"
  const BadIdMessage := "Invalid community ID format"
  const MaxIdDigits := 20

  /** `/^\d{1,20}$/`. */
  predicate IsIdFormat(id: string) {
    1 <= |id| <= MaxIdDigits && AllDigits(id)
  }

  /** `parseCommunityUrl`, given what the URL constructor made of the link
      (an error message when it threw). Every failure is re-raised with the
      prefix "Invalid URL format: ". */
  function ParseCommunityUrl(url: Result<UrlParts>): (r: Result<string>)
    ensures r.Err? ==> StartsWith(r.message, UrlErrorPrefix)
    ensures r.Ok? ==> url.Ok? && Contains(url.value.hostname, RobloxHost) && IsIdFormat(r.value)
  {
    if url.Err? then Err(UrlErrorPrefix + url.message)
    else if !Contains(url.value.hostname, RobloxHost) then Err(UrlErrorPrefix + NotRobloxMessage)
    else
      CaptureSpec(url.value.pathname, CommunitiesPath, 1);
      match Capture(url.value.pathname, CommunitiesPath, 1)
      case None => Err(UrlErrorPrefix + NoIdMessage)
      case Some(id) => if IsIdFormat(id) then Result.Ok(id) else Err(UrlErrorPrefix + BadIdMessage)
  }

  /** The checks in order: the host must contain "roblox.com"; the path must
      contain `/communities/<digits>`, and the id is the digit run of the
      leftmost such match; that run must be at most 20 digits long. */
  lemma ParseCommunityUrlSpec(url: Result<UrlParts>)
    ensures url.Err? ==> ParseCommunityUrl(url) == Err(UrlErrorPrefix + url.message)
    ensures url.Ok? && !Contains(url.value.hostname, RobloxHost) ==>
              ParseCommunityUrl(url) == Err(UrlErrorPrefix + NotRobloxMessage)
    ensures url.Ok? && Contains(url.value.hostname, RobloxHost) ==>
              var path := url.value.pathname;
              && (!HasMatch(path, CommunitiesPath, 1) ==> ParseCommunityUrl(url) == Err(UrlErrorPrefix + NoIdMessage))
              && (HasMatch(path, CommunitiesPath, 1) ==>
                    var id := Capture(path, CommunitiesPath, 1).value;
                    && IsLeftmostCapture(path, CommunitiesPath, 1, id)
                    && (|id| <= MaxIdDigits ==> ParseCommunityUrl(url) == Result.Ok(id))
                    && (|id| > MaxIdDigits ==> ParseCommunityUrl(url) == Err(UrlErrorPrefix + BadIdMessage)))
  {
    if url.Ok? {
      var path := url.value.pathname;
      CaptureSpec(path, CommunitiesPath, 1);
      if HasMatch(path, CommunitiesPath, 1) {
        var id := Capture(path, CommunitiesPath, 1).value;
        var i: nat :| MatchAt(path, CommunitiesPath, 1, i)
                      && (forall j :: 0 <= j < i ==> !MatchAt(path, CommunitiesPath, 1, j))
                      && MaximalDigitsAt(path, i + |CommunitiesPath|, id);
      }
    }
  }

  // ---------------------------------------------------------------- fetchCommunityMembers

  const MaxPages := 10

  /** The listing either is long enough for the cap or stops by itself. */
  ghost predicate Fetchable<T>(pages: seq<Response<Page<T>>>) {
    MaxPages <= |pages| || Ends(pages)
  }

  /** The number of responses read from index `k` on, when none before `k`
      stopped the loop. */
  function FetchedFrom<T>(pages: seq<Response<Page<T>>>, k: nat): (n: nat)
    requires Fetchable(pages) && k < MaxPages && k < |pages|
    requires forall j :: 0 <= j < k ==> !Stops(pages[j])
    ensures k < n <= MaxPages && n <= |pages|
    ensures Stops(pages[n - 1]) || n == MaxPages
    ensures forall j :: 0 <= j < n - 1 ==> !Stops(pages[j])
    decreases MaxPages - k
  {
    if Stops(pages[k]) || k + 1 == MaxPages then k + 1
    else
      assert k + 1 < |pages| by {
        if |pages| < MaxPages {
          var s :| 0 <= s < |pages| && Stops(pages[s]);
          assert s > k;
        }
      }
      FetchedFrom(pages, k + 1)
  }

  /** The number of responses `fetchCommunityMembers` reads: up to the first
      one without a cursor (or failed), and never more than ten. */
  function PagesFetched<T>(pages: seq<Response<Page<T>>>): (n: nat)
    requires Fetchable(pages) && pages != []
    ensures 0 < n <= MaxPages && n <= |pages|
    ensures Stops(pages[n - 1]) || n == MaxPages
    ensures forall j :: 0 <= j < n - 1 ==> !Stops(pages[j])
  {
    FetchedFrom(pages, 0)
  }

  /** The loop stops at the first response that stops it or at the cap,
      whichever comes first, so that count is determined. */
  lemma FetchedExactly<T>(pages: seq<Response<Page<T>>>, n: nat)
    requires Fetchable(pages) && pages != []
    requires 0 < n <= MaxPages && n <= |pages|
    requires Stops(pages[n - 1]) || n == MaxPages
    requires forall j :: 0 <= j < n - 1 ==> !Stops(pages[j])
    ensures PagesFetched(pages) == n
  {
  }

  /** `fetchCommunityMembers`: the do-while loop that stops on a missing
      cursor or after ten pages; a failed request aborts it. */
  method FetchCommunityMembers<T>(pages: seq<Response<Page<T>>>) returns (r: Response<seq<T>>)
    requires Fetchable(pages) && pages != []
    ensures r == Collect(pages, PagesFetched(pages))
  {
    var members: seq<T> := [];
    var pageCount := 0;
    while true
      invariant pageCount < PagesFetched(pages)
      invariant forall j :: 0 <= j < pageCount ==> !Stops(pages[j])
      invariant members == AllData(pages[..pageCount])
      decreases MaxPages - pageCount
    {
      var response := pages[pageCount];
      assert pages[..pageCount + 1][..pageCount] == pages[..pageCount];
      if response.Failed? {
        FetchedExactly(pages, pageCount + 1);
        return Failed(response.status);
      }
      members := members + response.value.data;
      var cursor := response.value.nextPageCursor;
      pageCount := pageCount + 1;
      if !(cursor != "" && pageCount < MaxPages) {
        FetchedExactly(pages, pageCount);
        return Response.Ok(members);
      }
    }
  }

  /** The cap matters only for long listings: a listing that stops within ten
      pages is read exactly as an uncapped cursor loop would read it. */
  lemma CapAgreesWithUncapped<T>(pages: seq<Response<Page<T>>>)
    requires Ends(pages) && StopIndex(pages) < MaxPages
    ensures PagesFetched(pages) == Consumed(pages)
  {
  }

  /** Without a stopping response among the first ten, exactly ten are read. */
  lemma CapStopsLongListings<T>(pages: seq<Response<Page<T>>>)
    requires MaxPages <= |pages|
    requires forall j :: 0 <= j < MaxPages ==> !Stops(pages[j])
    ensures PagesFetched(pages) == MaxPages
  {
  }

  // ---------------------------------------------------------------- calculatePlayerWealth

  const MinValue := 10000
  const ValuePerCollectible := 1000
  const MaxAnalyzed := 50

  /** What the Rolimons player lookup and the collectibles listing answer. */
  datatype WealthApi = WealthApi(
    /** `playerinfo[userId].value` when the lookup succeeded and knows the
        player (an absent value counts as 0); None when it does not. */
    rolimons: int -> Response<Option<int>>,
    /** The number of entries in the first page of the user's collectibles. */
    collectibleCount: int -> Response<nat>)

  /** `getRolimonValue`: never fails; 0 when the player is unknown. */
  function RolimonValue(api: WealthApi, userId: int): (v: int)
    ensures api.rolimons(userId).Ok? && api.rolimons(userId).value.Some? ==>
              v == api.rolimons(userId).value.value
    ensures api.rolimons(userId).Failed? || api.rolimons(userId).value.None? ==> v == 0
  {
    var reply := api.rolimons(userId);
    if reply.Ok? && reply.value.Some? then reply.value.value else 0
  }

  /** `getBasicInventoryValue`: 1000 per collectible on the first page; never
      fails, and 0 when the request does. */
  function BasicInventoryValue(api: WealthApi, userId: int): (v: int)
    ensures v >= 0 && v % ValuePerCollectible == 0
    ensures api.collectibleCount(userId).Failed? ==> v == 0
    ensures api.collectibleCount(userId).Ok? ==> v / ValuePerCollectible == api.collectibleCount(userId).value
  {
    var reply := api.collectibleCount(userId);
    if reply.Ok? then ValuePerCollectible * reply.value else 0
  }

  /** `calculatePlayerWealth`: a positive Rolimons value wins, otherwise the
      collectible-count estimate; the result is never negative, and it is 0
      exactly when neither source gives anything. */
  function PlayerWealth(api: WealthApi, userId: int): (v: int)
    ensures v >= 0
    ensures RolimonValue(api, userId) > 0 ==> v == RolimonValue(api, userId)
    ensures RolimonValue(api, userId) <= 0 ==> v == BasicInventoryValue(api, userId)
    ensures v == 0 <==> RolimonValue(api, userId) <= 0 && BasicInventoryValue(api, userId) == 0
  {
    var rolimons := RolimonValue(api, userId);
    if rolimons > 0 then rolimons else BasicInventoryValue(api, userId)
  }

  // ---------------------------------------------------------------- analyzePlayersWealth

  datatype User = User(userId: int, name: string, displayName: string)

  /** One entry of the members listing: `member.user` (possibly absent) and
      `member.role?.rank`. */
  datatype GroupMember = GroupMember(user: Option<User>, rank: Option<int>)

  datatype RichPlayer = RichPlayer(userId: int, username: string, displayName: string, totalValue: int, rank: int)

  /** `member.role?.rank || 0`. */
  function RankOrZero(rank: Option<int>): int {
    if rank.Some? then rank.value else 0
  }

  function TotalValueOf(p: RichPlayer): int {
    p.totalValue
  }

  /** `Math.min(members.length, 50)`. */
  function Examined(n: nat): (m: nat)
    ensures m <= n && m <= MaxAnalyzed
    ensures m == n || m == MaxAnalyzed
  {
    if n < MaxAnalyzed then n else MaxAnalyzed
  }

  /** The entry one member contributes: none when the member has no user
      (skipped) or is worth less than 10,000. */
  function Entry(m: GroupMember, api: WealthApi): Option<RichPlayer> {
    if m.user.None? then None
    else
      var u := m.user.value;
      var value := PlayerWealth(api, u.userId);
      if value >= MinValue then Some(RichPlayer(u.userId, u.name, u.displayName, value, RankOrZero(m.rank)))
      else None
  }

  /** The entries of `members`, in member order. */
  function Candidates(members: seq<GroupMember>, api: WealthApi): seq<RichPlayer> {
    if members == [] then []
    else
      var before := Candidates(members[..|members| - 1], api);
      match Entry(members[|members| - 1], api)
      case None => before
      case Some(p) => before + [p]
  }

  /** The players the analysis keeps, before sorting. */
  function Kept(members: seq<GroupMember>, api: WealthApi): seq<RichPlayer> {
    Candidates(members[..Examined(|members|)], api)
  }

  /** A player is a candidate exactly when some member contributes it. */
  lemma {:induction false} CandidatesSpec(members: seq<GroupMember>, api: WealthApi)
    ensures |Candidates(members, api)| <= |members|
    ensures forall p :: p in Candidates(members, api) <==>
              exists i :: 0 <= i < |members| && Entry(members[i], api) == Some(p)
  {
    if members != [] {
      var init := members[..|members| - 1];
      CandidatesSpec(init, api);
      forall p
        ensures p in Candidates(members, api) <==>
                  exists i :: 0 <= i < |members| && Entry(members[i], api) == Some(p)
      {
        if exists i :: 0 <= i < |init| && Entry(init[i], api) == Some(p) {
          var i :| 0 <= i < |init| && Entry(init[i], api) == Some(p);
          assert members[i] == init[i];
        }
        if i :| 0 <= i < |members| && Entry(members[i], api) == Some(p) {
          if i < |init| {
            assert init[i] == members[i];
          }
        }
      }
    }
  }

  /** The analysis looks at no more than the first fifty members, keeps only
      players worth at least 10,000 with their rank (0 when missing), and
      keeps every such player among those fifty. */
  lemma KeptSpec(members: seq<GroupMember>, api: WealthApi)
    ensures |Kept(members, api)| <= MaxAnalyzed
    ensures forall p :: p in Kept(members, api) ==> p.totalValue >= MinValue
    ensures forall p :: p in Kept(members, api) <==>
              exists i :: 0 <= i < Examined(|members|) && Entry(members[i], api) == Some(p)
    ensures forall i :: 0 <= i < Examined(|members|) && members[i].user.Some?
                          && PlayerWealth(api, members[i].user.value.userId) >= MinValue ==>
              var u := members[i].user.value;
              RichPlayer(u.userId, u.name, u.displayName, PlayerWealth(api, u.userId), RankOrZero(members[i].rank))
                in Kept(members, api)
  {
    var examined := members[..Examined(|members|)];
    CandidatesSpec(examined, api);
    forall p | p in Kept(members, api)
      ensures p.totalValue >= MinValue
    {
      var i :| 0 <= i < |examined| && Entry(examined[i], api) == Some(p);
    }
    forall p
      ensures p in Kept(members, api) <==>
                exists i :: 0 <= i < Examined(|members|) && Entry(members[i], api) == Some(p)
    {
      if i :| 0 <= i < Examined(|members|) && Entry(members[i], api) == Some(p) {
        assert examined[i] == members[i];
      }
      if p in Kept(members, api) {
        var i :| 0 <= i < |examined| && Entry(examined[i], api) == Some(p);
        assert examined[i] == members[i];
      }
    }
    forall i | 0 <= i < Examined(|members|) && members[i].user.Some?
                 && PlayerWealth(api, members[i].user.value.userId) >= MinValue
      ensures var u := members[i].user.value;
              RichPlayer(u.userId, u.name, u.displayName, PlayerWealth(api, u.userId), RankOrZero(members[i].rank))
                in Kept(members, api)
    {
      assert examined[i] == members[i];
    }
  }

  /** The `for` loop with the skip the catch block is meant to perform,
      followed by the in-place sort: the result holds exactly the kept
      players, sorted by total value, largest first, players of equal value
      in member order. */
  method AnalyzePlayersWealth(members: seq<GroupMember>, api: WealthApi) returns (richPlayers: seq<RichPlayer>)
    ensures NonIncreasing(richPlayers, TotalValueOf)
    ensures multiset(richPlayers) == multiset(Kept(members, api))
    ensures SameKeyOrder(richPlayers, Kept(members, api), TotalValueOf)
  {
    var found: seq<RichPlayer> := [];
    var limit := Examined(|members|);
    var i := 0;
    while i < limit
      invariant 0 <= i <= limit
      invariant found == Candidates(members[..i], api)
    {
      assert members[..i + 1][..i] == members[..i];
      var member := members[i];
      if member.user.Some? {
        var user := member.user.value;
        var totalValue := PlayerWealth(api, user.userId);
        if totalValue >= MinValue {
          found := found + [RichPlayer(user.userId, user.name, user.displayName, totalValue, RankOrZero(member.rank))];
        }
      }
      i := i + 1;
    }
    var sorted := new RichPlayer[|found|](k requires 0 <= k < |found| => found[k]);
    assert sorted[..] == found;
    SortByKeyDescending(sorted, TotalValueOf);
    richPlayers := sorted[..];
  }

  /** As written, the loop body can throw only when `member.user` is absent,
      and the catch block then reads `member.user.name` and throws again: the
      whole analysis aborts (None) instead of skipping the member. */
  function AnalyzeAsWritten(members: seq<GroupMember>, api: WealthApi): (r: Option<seq<RichPlayer>>)
    ensures r.Some? <==> forall i :: 0 <= i < Examined(|members|) ==> members[i].user.Some?
  {
    if exists i :: 0 <= i < Examined(|members|) && members[i].user.None? then None
    else Some(Kept(members, api))
  }

  /** A single member without a user: the code as written aborts the whole
      analysis, while the intended behaviour skips the member and returns an
      empty list. */
  lemma AsWrittenAbortsOnMissingUser(api: WealthApi)
    ensures AnalyzeAsWritten([GroupMember(None, Some(5))], api) == None
    ensures Kept([GroupMember(None, Some(5))], api) == []
  {
    var ms := [GroupMember(None, Some(5))];
    assert Examined(|ms|) == 1 && ms[..1] == ms && ms[..0] == [];
    assert Entry(ms[0], api) == None;
    assert Candidates(ms, api) == Candidates([], api);
  }

  /** The intended behaviour isolates failures: a member without a user is
      skipped and the others' entries are kept, in order. */
  lemma {:induction false} CorrectedSkipsMissingUser(before: seq<GroupMember>, after: seq<GroupMember>, api: WealthApi, rank: Option<int>)
    ensures Candidates(before + [GroupMember(None, rank)] + after, api) == Candidates(before + after, api)
    decreases |after|
  {
    var skipped := GroupMember(None, rank);
    if after == [] {
      assert before + [skipped] + after == before + [skipped];
      assert (before + [skipped])[..|before|] == before;
      assert before + after == before;
    } else {
      var init := after[..|after| - 1];
      var last := after[|after| - 1];
      CorrectedSkipsMissingUser(before, init, api, rank);
      assert (before + [skipped] + after)[..|before + [skipped] + after| - 1] == before + [skipped] + init;
      assert (before + after)[..|before + after| - 1] == before + init;
    }
  }

  // ---------------------------------------------------------------- the popup

  /** The network as the older popup sees it. */
  datatype FinderApi = FinderApi(
    /** The URL constructor applied to the trimmed input. */
    parseUrl: string -> Result<UrlParts>,
    /** `GET /v1/groups/<id>/users`, page by page. */
    groupUsers: string -> seq<Response<Page<GroupMember>>>,
    wealth: WealthApi)

  ghost predicate Reachable(api: FinderApi) {
    forall id :: api.groupUsers(id) != [] && Fetchable(api.groupUsers(id))
  }

  /** How a search ends, as the popup reports it. */
  datatype SearchOutcome =
    | EmptyInput                    // "Please enter a Roblox community URL"
    | UrlRejected(message: string)  // the `Invalid URL format: ...` message
    | FetchFailed(status: int)      // "Error fetching community members: ..."
    | NoMembers                     // "No members found in this community ..."
    | Found(players: seq<RichPlayer>)
    | NothingToRefresh              // "No community to refresh"

  /** The state after a search reached the members listing of `id`: the id
      is remembered; a failed fetch or an empty community keeps the cached
      results; success caches the kept players, sorted richest first. */
  ghost predicate Loaded(f: RichPlayersFinder, id: string, api: FinderApi, outcome: SearchOutcome,
                         previous: Option<seq<RichPlayer>>)
    requires Reachable(api)
    reads f
  {
    var members := Collect(api.groupUsers(id), PagesFetched(api.groupUsers(id)));
    && f.currentCommunityId == Some(id)
    && (outcome.FetchFailed? ==> members.Failed? && outcome.status == members.status && f.cachedResults == previous)
    && (outcome.NoMembers? ==> members == Response.Ok([]) && f.cachedResults == previous)
    && (outcome.Found? ==>
          && members.Ok? && members.value != []
          && f.cachedResults == Some(outcome.players)
          && NonIncreasing(outcome.players, TotalValueOf)
          && multiset(outcome.players) == multiset(Kept(members.value, api.wealth))
          && SameKeyOrder(outcome.players, Kept(members.value, api.wealth), TotalValueOf))
  }

  /** The state after `searchPlayers` on `input`, from the remembered id
      `previousId` and the cache `previous`: blank input is refused and a
      rejected link reports the parser's message, both changing nothing;
      a parsed link is always loaded. */
  ghost predicate Searched(f: RichPlayersFinder, input: string, api: FinderApi, outcome: SearchOutcome,
                           previousId: Option<string>, previous: Option<seq<RichPlayer>>)
    requires Reachable(api)
    reads f
  {
    var url := Trim(input);
    var parsed := ParseCommunityUrl(api.parseUrl(url));
    && (outcome == EmptyInput <==> url == [])
    && (url == [] ==> f.currentCommunityId == previousId && f.cachedResults == previous)
    && (url != [] && parsed.Err? ==>
          outcome == UrlRejected(parsed.message)
          && f.currentCommunityId == previousId && f.cachedResults == previous)
    && (url != [] && parsed.Ok? ==>
          (outcome.Found? || outcome.FetchFailed? || outcome.NoMembers?)
          && Loaded(f, parsed.value, api, outcome, previous))
  }

  /** The cached list, shown in order, starts with the richest player: the
      first card's total value is at least every other cached player's. */
  lemma CachedRichestFirst(f: RichPlayersFinder)
    requires f.Valid() && f.cachedResults.Some? && f.cachedResults.value != []
    ensures forall q :: q in f.cachedResults.value ==> TotalValueOf(q) <= TotalValueOf(f.cachedResults.value[0])
  {
  }

  class RichPlayersFinder {
    var currentCommunityId: Option<string>
    var isSearching: bool
    var cachedResults: Option<seq<RichPlayer>>

    /** Between events no search is running, and cached results are sorted
        richest first. */
    ghost predicate Valid()
      reads this
    {
      && !isSearching
      && (cachedResults.Some? ==> NonIncreasing(cachedResults.value, TotalValueOf))
    }

    constructor ()
      ensures Valid()
      ensures currentCommunityId == None && !isSearching && cachedResults == None
    {
      currentCommunityId := None;
      isSearching := false;
      cachedResults := None;
    }

    /** `searchPlayers` on the text of the input box. */
    method SearchPlayers(input: string, api: FinderApi) returns (outcome: SearchOutcome)
      requires Valid() && Reachable(api)
      modifies this
      ensures Valid()
      ensures Searched(this, input, api, outcome, old(currentCommunityId), old(cachedResults))
    {
      var url := Trim(input);
      if url == [] {
        return EmptyInput;
      }
      var parsed := ParseCommunityUrl(api.parseUrl(url));
      if parsed.Err? {
        return UrlRejected(parsed.message);
      }
      outcome := LoadCommunity(parsed.value, api);
    }

    /** The `try` block once the id is parsed: remember it, read the members,
        analyse them and cache the result. */
    method LoadCommunity(id: string, api: FinderApi) returns (outcome: SearchOutcome)
      requires Valid() && Reachable(api) && IsIdFormat(id)
      modifies this
      ensures Valid()
      ensures outcome.Found? || outcome.FetchFailed? || outcome.NoMembers?
      ensures Loaded(this, id, api, outcome, old(cachedResults))
    {
      currentCommunityId := Some(id);
      isSearching := true;
      var pages := api.groupUsers(id);
      var members := FetchCommunityMembers(pages);
      if members.Failed? {
        isSearching := false;
        return FetchFailed(members.status);
      }
      if members.value == [] {
        isSearching := false;
        return NoMembers;
      }
      var richPlayers := AnalyzePlayersWealth(members.value, api.wealth);
      cachedResults := Some(richPlayers);
      isSearching := false;
      return Found(richPlayers);
    }

    /** `refreshResults`: with a remembered community, drop the cached
        results and search again with the text of the input box. */
    method RefreshResults(input: string, api: FinderApi) returns (outcome: SearchOutcome)
      requires Valid() && Reachable(api)
      modifies this
      ensures Valid()
      ensures old(currentCommunityId).None? ==>
                outcome == NothingToRefresh && cachedResults == old(cachedResults)
                && currentCommunityId == old(currentCommunityId)
      ensures old(currentCommunityId).Some? ==>
                Searched(this, input, api, outcome, old(currentCommunityId), None)
    {
      if currentCommunityId.None? {
        return NothingToRefresh;
      }
      cachedResults := None;
      outcome := SearchPlayers(input, api);
    }
  }
}
