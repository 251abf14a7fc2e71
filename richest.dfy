/** The richest-members popup: list a group's members role by role,
    de-duplicate them, value each one and keep the list sorted richest first.
    The popup's two globals, the last group searched and the last result,
    become the fields of `RichestPopup`. */
module Richest {
  import Common
  import opened Collections
  import opened Paging
  import opened GroupId
  import opened Creators
  import opened LimitedRap
  import opened Enrich

  /** What the Roblox web API answers, as functions of the request. */
  datatype Api = Api(
    /** `GET /v2/groups?groupIds=<id>`: the ids of the groups found. */
    groups: string -> Response<seq<string>>,
    /** `GET /v1/groups/<id>/roles`: the ids of the group's roles. */
    roles: string -> Response<seq<int>>,
    /** `GET /v1/groups/<id>/roles/<role>/users`, page by page. */
    roleUsers: (string, int) -> seq<Response<Page<Member>>>,
    /** `GET /v1/users/<id>/assets/collectibles`, page by page. */
    inventory: Inventory,
    /** The catalogue's batched GET and POST creator lookups. */
    assetsGet: Lookup,
    detailsPost: Lookup,
    /** `GET /v1/users/avatar-headshot?userIds=...`, one batch of user ids. */
    headshots: seq<int> -> Response<seq<Thumbnail>>)

  /** One headshot of the thumbnails answer. */
  datatype Thumbnail = Thumbnail(targetId: int, imageUrl: string)

  /** Every listing eventually stops its cursor loop. */
  ghost predicate Finite(api: Api) {
    && (forall g, role :: Ends(api.roleUsers(g, role)))
    && (forall user :: Ends(api.inventory(user)))
  }

  function UserId(m: Member): int {
    m.userId
  }

  // ---------------------------------------------------------------- validateGroupId

  /** `validateGroupId`: the lookup fails, or says whether the group was found. */
  function ValidateGroupId(groupId: string, found: Response<seq<string>>): (r: Response<bool>)
    ensures r.Failed? <==> found.Failed?
    ensures r.Ok? ==> (r.value <==> exists k :: 0 <= k < |found.value| && found.value[k] == groupId)
    ensures r.Ok? && found.value == [] ==> !r.value
  {
    match found
    case Failed(status) => Failed(status)
    case Ok(ids) => Ok(groupId in ids)
  }

  // ---------------------------------------------------------------- fetchAllMembers

  /** What the cursor loop over one role's member pages returns. */
  function RoleResult(listing: int -> seq<Response<Page<Member>>>, role: int): Response<seq<Member>>
    requires forall role :: Ends(listing(role))
  {
    Collect(listing(role), Consumed(listing(role)))
  }

  /** The members of the listed roles, role after role, in page order; the
      first failing request aborts the enumeration. */
  function RoleListings(roleIds: seq<int>, listing: int -> seq<Response<Page<Member>>>): Response<seq<Member>>
    requires forall role :: Ends(listing(role))
  {
    if roleIds == [] then Ok([])
    else
      var last := roleIds[|roleIds| - 1];
      match RoleListings(roleIds[..|roleIds| - 1], listing)
      case Failed(status) => Failed(status)
      case Ok(before) =>
        match RoleResult(listing, last)
        case Failed(status) => Failed(status)
        case Ok(members) => Ok(before + members)
  }

  /** A failure among the first roles is the failure of the whole enumeration. */
  lemma {:induction false} RoleFailurePersists(roleIds: seq<int>, n: nat, listing: int -> seq<Response<Page<Member>>>)
    requires forall role :: Ends(listing(role))
    requires n <= |roleIds| && RoleListings(roleIds[..n], listing).Failed?
    ensures RoleListings(roleIds, listing) == RoleListings(roleIds[..n], listing)
  {
    if n < |roleIds| {
      var init := roleIds[..|roleIds| - 1];
      assert init[..n] == roleIds[..n];
      RoleFailurePersists(init, n, listing);
    } else {
      assert roleIds[..n] == roleIds;
    }
  }

  /** `fetchAllMembers`: fail if the roles or any member page fails,
      otherwise every listed member once, at its first position. */
  function AllMembers(roles: Response<seq<int>>, listing: int -> seq<Response<Page<Member>>>): Response<seq<Member>>
    requires forall role :: Ends(listing(role))
  {
    match roles
    case Failed(status) => Failed(status)
    case Ok(roleIds) =>
      match RoleListings(roleIds, listing)
      case Failed(status) => Failed(status)
      case Ok(all) => Ok(FirstOccurrences(all, UserId))
  }

  /** The listing of one group's roles. */
  function GroupListing(api: Api, groupId: string): int -> seq<Response<Page<Member>>> {
    role => api.roleUsers(groupId, role)
  }

  method FetchAllMembers(roles: Response<seq<int>>, listing: int -> seq<Response<Page<Member>>>)
    returns (r: Response<seq<Member>>)
    requires forall role :: Ends(listing(role))
    ensures r == AllMembers(roles, listing)
  {
    if roles.Failed? {
      return Failed(roles.status);
    }
    var roleIds := roles.value;
    var all: seq<Member> := [];
    var i := 0;
    while i < |roleIds|
      invariant 0 <= i <= |roleIds|
      invariant RoleListings(roleIds[..i], listing) == Ok(all)
    {
      assert roleIds[..i + 1][..i] == roleIds[..i];
      var role := roleIds[i];
      assert Ends(listing(role));
      var page := FollowCursor(listing(role));
      if page.Failed? {
        RoleFailurePersists(roleIds, i + 1, listing);
        return Failed(page.status);
      }
      all := all + page.value;
      i := i + 1;
    }
    assert roleIds[..i] == roleIds;
    var unique := DedupBy(all, UserId);
    return Ok(unique);
  }

  /** The members one role's listing yields (none when it fails). */
  function ListingData(listing: int -> seq<Response<Page<Member>>>, role: int): seq<Member>
    requires forall role :: Ends(listing(role))
  {
    match RoleResult(listing, role)
    case Ok(members) => members
    case Failed(_) => []
  }

  /** One role's listing completes without a failed request. */
  predicate ListingOk(listing: int -> seq<Response<Page<Member>>>, role: int)
    requires forall role :: Ends(listing(role))
  {
    RoleResult(listing, role).Ok?
  }

  /** The enumeration succeeds exactly when every role's listing does. */
  lemma {:induction false} RoleListingsOk(roleIds: seq<int>, listing: int -> seq<Response<Page<Member>>>)
    requires forall role :: Ends(listing(role))
    ensures RoleListings(roleIds, listing).Ok? <==> forall k :: 0 <= k < |roleIds| ==> ListingOk(listing, roleIds[k])
  {
    if roleIds != [] {
      var n := |roleIds|;
      var init := roleIds[..n - 1];
      RoleListingsOk(init, listing);
      assert forall k :: 0 <= k < n - 1 ==> init[k] == roleIds[k];
    }
  }

  /** The members of each listed role, one sequence per role, in role order. */
  function RoleParts(roleIds: seq<int>, listing: int -> seq<Response<Page<Member>>>): (parts: seq<seq<Member>>)
    requires forall role :: Ends(listing(role))
    ensures |parts| == |roleIds|
    ensures forall k :: 0 <= k < |roleIds| ==> parts[k] == ListingData(listing, roleIds[k])
  {
    seq(|roleIds|, k requires 0 <= k < |roleIds| => ListingData(listing, roleIds[k]))
  }

  lemma RolePartsSnoc(roleIds: seq<int>, listing: int -> seq<Response<Page<Member>>>)
    requires forall role :: Ends(listing(role))
    requires roleIds != []
    ensures RoleParts(roleIds, listing) ==
              RoleParts(roleIds[..|roleIds| - 1], listing) + [ListingData(listing, roleIds[|roleIds| - 1])]
  {
    var n := |roleIds|;
    var parts := RoleParts(roleIds, listing);
    var init := roleIds[..n - 1];
    var initParts := RoleParts(init, listing);
    forall k | 0 <= k < n - 1
      ensures initParts[k] == parts[k]
    {
      assert init[k] == roleIds[k];
    }
    assert parts == initParts + [parts[n - 1]];
  }

  /** A successful enumeration yields the listings' members concatenated in
      role order. */
  lemma {:induction false} RoleListingsData(roleIds: seq<int>, listing: int -> seq<Response<Page<Member>>>)
    requires forall role :: Ends(listing(role))
    requires RoleListings(roleIds, listing).Ok?
    ensures RoleListings(roleIds, listing).value == Flatten(RoleParts(roleIds, listing))
  {
    var n := |roleIds|;
    if n > 0 {
      var init := roleIds[..n - 1];
      var last := ListingData(listing, roleIds[n - 1]);
      assert RoleListings(init, listing).Ok?;
      RoleListingsData(init, listing);
      assert RoleListings(roleIds, listing).value == RoleListings(init, listing).value + last;
      RolePartsSnoc(roleIds, listing);
      FlattenSnoc(RoleParts(init, listing), last);
    }
  }

  /** A successful enumeration lists every member once (pairwise distinct
      user ids), loses no one (the same set of user ids as the role
      listings), keeps each member where it first appeared, and adds no one. */
  lemma AllMembersSpec(roles: Response<seq<int>>, listing: int -> seq<Response<Page<Member>>>)
    requires forall role :: Ends(listing(role))
    ensures AllMembers(roles, listing).Ok? <==>
              roles.Ok? && RoleListings(roles.value, listing).Ok?
    ensures AllMembers(roles, listing).Ok? ==>
              var all := RoleListings(roles.value, listing).value;
              var unique := AllMembers(roles, listing).value;
              && (forall i, j :: 0 <= i < j < |unique| ==> unique[i].userId != unique[j].userId)
              && Keys(unique, UserId) == Keys(all, UserId)
              && (forall i :: 0 <= i < |all| && IsFirst(all, UserId, i) ==> all[i] in unique)
              && IsSubsequence(unique, all)
  {
    if roles.Ok? && RoleListings(roles.value, listing).Ok? {
      var all := RoleListings(roles.value, listing).value;
      DedupDistinct(all, UserId);
      DedupSameKeys(all, UserId);
      DedupKeepsFirst(all, UserId);
      DedupSubsequence(all, UserId);
    }
  }

  // ---------------------------------------------------------------- the popup

  /** The sort key of `run`: `b.totalRAP - a.totalRAP`. */
  function RapOf(v: ValuedMember): int {
    v.rap.totalRAP
  }

  /** The valuation of every member, in member order. */
  function ValueAll(members: seq<Member>, api: Api): seq<ValuedMember>
    requires Finite(api)
  {
    seq(|members|, k requires 0 <= k < |members| => Valued(members[k], api.inventory, api.assetsGet, api.detailsPost))
  }

  /** How a search ends, as the status line reports it. */
  datatype Outcome =
    | Done                      // "Done."
    | NoGroupId                 // "Enter a Roblox community link or numeric ID."
    | InvalidGroup              // "Invalid community ID."
    | HttpError(status: int)    // the message of the failed request

  /** `members.sort((a, b) => b.totalRAP - a.totalRAP)`: the same members,
      richest first, members of equal total RAP in their original order. */
  method SortByRap(members: seq<ValuedMember>) returns (sorted: seq<ValuedMember>)
    ensures NonIncreasing(sorted, RapOf)
    ensures multiset(sorted) == multiset(members)
    ensures SameKeyOrder(sorted, members, RapOf)
  {
    var a := new ValuedMember[|members|](k requires 0 <= k < |members| => members[k]);
    assert a[..] == members;
    SortByKeyDescending(a, RapOf);
    sorted := a[..];
  }

  /** `data` is the valuation of `members`, sorted by total RAP, largest
      first, ties in member order. */
  ghost predicate Ranked(data: seq<ValuedMember>, members: seq<Member>, api: Api)
    requires Finite(api)
  {
    && NonIncreasing(data, RapOf)
    && multiset(data) == multiset(ValueAll(members, api))
    && SameKeyOrder(data, ValueAll(members, api), RapOf)
  }

  // ---------------------------------------------------------------- loadAvatars

  /** User ids per headshot request. */
  const AvatarBatchSize := 100

  /** `members.map(m => m.userId)`. */
  function MemberIds(members: seq<ValuedMember>): (ids: seq<int>)
    ensures |ids| == |members|
    ensures forall k :: 0 <= k < |members| ==> ids[k] == members[k].member.userId
  {
    seq(|members|, k requires 0 <= k < |members| => members[k].member.userId)
  }

  /** The status of the first failing request among `batches`, if any. */
  function FirstFailure(batches: seq<seq<int>>, headshots: seq<int> -> Response<seq<Thumbnail>>): Common.Option<int> {
    if batches == [] then Common.None
    else if headshots(batches[0]).Failed? then Common.Some(headshots(batches[0]).status)
    else FirstFailure(batches[1..], headshots)
  }

  /** What `loadAvatars` raises: the first failing headshot request over the
      members' ids in batches of 100. Images only decorate the list. */
  function AvatarFailure(members: seq<ValuedMember>, headshots: seq<int> -> Response<seq<Thumbnail>>): Common.Option<int> {
    FirstFailure(Chunks(MemberIds(members), AvatarBatchSize), headshots)
  }

  /** The batches are requested in order and the first failure is raised:
      no failure means every request succeeded, and a failure is the status
      of a failing batch all of whose predecessors succeeded. */
  lemma {:induction false} FirstFailureSpec(batches: seq<seq<int>>, headshots: seq<int> -> Response<seq<Thumbnail>>)
    ensures FirstFailure(batches, headshots).None? <==> forall k :: 0 <= k < |batches| ==> headshots(batches[k]).Ok?
    ensures FirstFailure(batches, headshots).Some? ==>
              exists k :: 0 <= k < |batches|
                && headshots(batches[k]) == Failed(FirstFailure(batches, headshots).value)
                && forall j :: 0 <= j < k ==> headshots(batches[j]).Ok?
  {
    if batches != [] && headshots(batches[0]).Ok? {
      var rest := batches[1..];
      FirstFailureSpec(rest, headshots);
      assert forall k :: 0 <= k < |rest| ==> rest[k] == batches[k + 1];
      if FirstFailure(rest, headshots).Some? {
        var k :| 0 <= k < |rest|
          && headshots(rest[k]) == Failed(FirstFailure(rest, headshots).value)
          && forall j :: 0 <= j < k ==> headshots(rest[j]).Ok?;
        assert headshots(batches[k + 1]) == Failed(FirstFailure(batches, headshots).value);
      }
    } else if batches != [] {
      assert headshots(batches[0]) == Failed(FirstFailure(batches, headshots).value);
    }
  }

  /** `fetchUserAvatarThumbs`: the loop over the batches, which stops at the
      first failed request. An empty list asks for nothing. */
  method LoadAvatars(members: seq<ValuedMember>, headshots: seq<int> -> Response<seq<Thumbnail>>)
    returns (failure: Common.Option<int>)
    ensures failure == AvatarFailure(members, headshots)
    ensures members == [] ==> failure.None?
  {
    var ids := MemberIds(members);
    var batches := Chunk(ids, AvatarBatchSize);
    var i := 0;
    while i < |batches|
      invariant 0 <= i <= |batches|
      invariant FirstFailure(batches[i..], headshots) == FirstFailure(batches, headshots)
    {
      assert batches[i..][1..] == batches[i + 1..];
      var answer := headshots(batches[i]);
      if answer.Failed? {
        return Common.Some(answer.status);
      }
      i := i + 1;
    }
    return Common.None;
  }

  // ---------------------------------------------------------------- the popup

  /** The state after `run(groupId)` from the result `previous`, and what it
      raised (`failure`): a failed enumeration is raised and changes nothing;
      otherwise the result becomes the ranked valuation of the members, and
      only then a failed headshot request is raised. */
  ghost predicate Ran(p: RichestPopup, groupId: string, api: Api, failure: Common.Option<int>,
                      previous: Common.Option<seq<ValuedMember>>)
    requires Finite(api)
    reads p
  {
    var members := AllMembers(api.roles(groupId), GroupListing(api, groupId));
    && (members.Failed? ==> failure == Common.Some(members.status) && p.lastData == previous)
    && (members.Ok? ==>
          && p.lastData.Some?
          && Ranked(p.lastData.value, members.value, api)
          && failure == AvatarFailure(p.lastData.value, api.headshots))
  }

  /** What the status line ends with when the search ran the group. */
  function Reported(failure: Common.Option<int>): Outcome {
    match failure
    case None => Done
    case Some(status) => HttpError(status)
  }

  /** The state after a click on search with `raw` in the input box: without
      an id, on a failed or negative validation nothing changes and that is
      reported; a valid id is remembered and run. */
  ghost predicate Searched(p: RichestPopup, raw: string, api: Api, outcome: Outcome,
                           previousId: Common.Option<string>, previous: Common.Option<seq<ValuedMember>>)
    requires Finite(api)
    reads p
  {
    var g := ExtractGroupId(raw);
    && (g.None? ==> outcome == NoGroupId && p.lastGroupId == previousId && p.lastData == previous)
    && (g.Some? ==>
          var valid := ValidateGroupId(g.value, api.groups(g.value));
          && (valid.Failed? ==>
                outcome == HttpError(valid.status) && p.lastGroupId == previousId && p.lastData == previous)
          && (valid == Ok(false) ==>
                outcome == InvalidGroup && p.lastGroupId == previousId && p.lastData == previous)
          && (valid == Ok(true) ==>
                && p.lastGroupId == g
                && (outcome.Done? || outcome.HttpError?)
                && Ran(p, g.value, api, if outcome.Done? then Common.None else Common.Some(outcome.status), previous)))
  }

  /** The list on screen starts with the richest member: the first card's
      total RAP is at least every other shown member's. */
  lemma ShownRichestFirst(p: RichestPopup)
    requires p.Valid() && p.lastData.Some? && p.lastData.value != []
    ensures forall m :: m in p.lastData.value ==> RapOf(m) <= RapOf(p.lastData.value[0])
  {
  }

  class RichestPopup {
    /** `lastGroupId`: the group of the last search that validated. */
    var lastGroupId: Common.Option<string>
    /** `lastData`: the members of the last completed run, richest first. */
    var lastData: Common.Option<seq<ValuedMember>>

    /** A result exists only for a remembered group, and it is sorted by
        total RAP, largest first. */
    ghost predicate Valid()
      reads this
    {
      && (lastData.Some? ==> lastGroupId.Some?)
      && (lastData.Some? ==> NonIncreasing(lastData.value, RapOf))
    }

    constructor ()
      ensures Valid()
      ensures lastGroupId == Common.None && lastData == Common.None
    {
      lastGroupId := Common.None;
      lastData := Common.None;
    }

    /** `run(groupId)`: enumerate, value and sort the members, store them,
        then load their avatars. What it raises is returned. */
    method Run(groupId: string, api: Api) returns (failure: Common.Option<int>)
      requires Finite(api) && Valid() && lastGroupId == Common.Some(groupId)
      modifies this
      ensures Valid() && lastGroupId == old(lastGroupId)
      ensures Ran(this, groupId, api, failure, old(lastData))
    {
      var listing := GroupListing(api, groupId);
      var members := FetchAllMembers(api.roles(groupId), listing);
      if members.Failed? {
        return Common.Some(members.status);
      }
      var valued := EnrichMembersWithValue(members.value, api.inventory, api.assetsGet, api.detailsPost);
      assert valued == ValueAll(members.value, api);
      var sorted := SortByRap(valued);
      lastData := Common.Some(sorted);
      failure := LoadAvatars(sorted, api.headshots);
    }

    /** The search button: extract the id, validate it, remember it, run;
        whatever is raised ends up on the status line. */
    method Search(raw: string, api: Api) returns (outcome: Outcome)
      requires Finite(api) && Valid()
      modifies this
      ensures Valid()
      ensures Searched(this, raw, api, outcome, old(lastGroupId), old(lastData))
    {
      var groupId := ExtractGroupId(raw);
      if groupId.None? {
        return NoGroupId;
      }
      var valid := ValidateGroupId(groupId.value, api.groups(groupId.value));
      if valid.Failed? {
        return HttpError(valid.status);
      }
      if !valid.value {
        return InvalidGroup;
      }
      lastGroupId := groupId;
      var failure := Run(groupId.value, api);
      outcome := Reported(failure);
    }

    /** The refresh button: re-run the remembered group, or do nothing. What
        the run raises is returned (the handler does not catch it). */
    method Refresh(api: Api) returns (failure: Common.Option<int>)
      requires Finite(api) && Valid()
      modifies this
      ensures Valid() && lastGroupId == old(lastGroupId)
      ensures old(lastGroupId).None? ==> failure.None? && lastData == old(lastData) && lastData.None?
      ensures old(lastGroupId).Some? ==> Ran(this, old(lastGroupId).value, api, failure, old(lastData))
    {
      if lastGroupId.None? {
        return Common.None;
      }
      failure := Run(lastGroupId.value, api);
    }
  }
}
