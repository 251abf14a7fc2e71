/** `fetchUserLimitedRAP`: a user's total recent average price (RAP) over the
    limited items they own that are worth at least 10,000 and were made by
    Roblox itself. */
module LimitedRap {
  import opened Collections
  import opened Paging
  import opened Creators

  /** Items below this RAP are never counted. */
  const MinRap := 10000
  /** The first-party creator: id "1" or name "Roblox". */
  const RobloxCreatorId := "1"
  const RobloxCreatorName := "Roblox"

  /** One collectible of the inventory listing, with its RAP already read. */
  datatype Collectible = Collectible(assetId: string, name: string, rap: int)

  datatype RapSummary = RapSummary(totalRAP: int, qualifyingCount: nat, ownedItems: seq<Collectible>)

  const NoRap := RapSummary(0, 0, [])

  predicate MeetsThreshold(item: Collectible) {
    item.rap >= MinRap
  }

  predicate IsRoblox(meta: CreatorInfo) {
    meta.creatorId == RobloxCreatorId || meta.creatorName == RobloxCreatorName
  }

  /** A preliminary item counts when its creator is known and is Roblox
      (`if(!meta) continue;` skips unknown creators). */
  function OwnedWith(creators: CreatorMap): Collectible -> bool {
    (item: Collectible) => item.assetId in creators && IsRoblox(creators[item.assetId])
  }

  function Self(id: string): string {
    id
  }

  /** `prelim.map(i => i.assetId)`. */
  function AssetIds(items: seq<Collectible>): (ids: seq<string>)
    ensures |ids| == |items| && forall i :: 0 <= i < |items| ==> ids[i] == items[i].assetId
  {
    seq(|items|, i requires 0 <= i < |items| => items[i].assetId)
  }

  /** `Array.from(new Set(...))`: the distinct asset ids in first-seen order. */
  function UniqueAssetIds(prelim: seq<Collectible>): seq<string> {
    FirstOccurrences(AssetIds(prelim), Self)
  }

  function SumRap(items: seq<Collectible>): int {
    if items == [] then 0 else SumRap(items[..|items| - 1]) + items[|items| - 1].rap
  }

  /** The summary for the preliminary items once their creators are known. */
  function Summarize(prelim: seq<Collectible>, creators: CreatorMap): RapSummary {
    var owned := Filter(prelim, OwnedWith(creators));
    RapSummary(SumRap(owned), |owned|, owned)
  }

  /** The preliminary list: a failed inventory page fails the whole call,
      otherwise the items worth at least `MinRap`, in page order. */
  function Preliminary(pages: seq<Response<Page<Collectible>>>): Response<seq<Collectible>>
    requires Ends(pages)
  {
    match Collect(pages, Consumed(pages))
    case Failed(status) => Failed(status)
    case Ok(items) => Ok(Filter(items, MeetsThreshold))
  }

  /** What `fetchUserLimitedRAP` returns for an inventory listing and the two
      creator lookups. */
  function UserRap(pages: seq<Response<Page<Collectible>>>, get: Lookup, post: Lookup): Response<RapSummary>
    requires Ends(pages)
  {
    match Preliminary(pages)
    case Failed(status) => Failed(status)
    case Ok(prelim) =>
      if prelim == [] then Ok(NoRap)
      else Ok(Summarize(prelim, AssetCreators(UniqueAssetIds(prelim), get, post)))
  }

  /** The inventory loop: read pages while they carry a cursor, keeping the
      items worth at least `MinRap`. */
  method ReadPreliminary(pages: seq<Response<Page<Collectible>>>) returns (r: Response<seq<Collectible>>)
    requires Ends(pages)
    ensures r == Preliminary(pages)
  {
    var prelim: seq<Collectible> := [];
    var k := 0;
    while true
      invariant k <= StopIndex(pages)
      invariant prelim == Filter(AllData(pages[..k]), MeetsThreshold)
      decreases StopIndex(pages) - k
    {
      var page := pages[k];
      assert pages[..k + 1][..k] == pages[..k];
      if page.Failed? {
        return Failed(page.status);
      }
      var data := page.value.data;
      FilterAppend(AllData(pages[..k]), data, MeetsThreshold);
      prelim := KeepValuable(prelim, data);
      if page.value.nextPageCursor == "" {
        return Ok(prelim);
      }
      k := k + 1;
    }
  }

  /** The inner `for` over one page's items. */
  method KeepValuable(prelim: seq<Collectible>, data: seq<Collectible>) returns (r: seq<Collectible>)
    ensures r == prelim + Filter(data, MeetsThreshold)
  {
    r := prelim;
    var j := 0;
    while j < |data|
      invariant 0 <= j <= |data|
      invariant r == prelim + Filter(data[..j], MeetsThreshold)
    {
      assert data[..j + 1][..j] == data[..j];
      if data[j].rap >= MinRap {
        r := r + [data[j]];
      }
      j := j + 1;
    }
    assert data[..j] == data;
  }

  /** The final loop: sum the RAP of the items whose creator is Roblox. */
  method SumOwned(prelim: seq<Collectible>, creators: CreatorMap) returns (s: RapSummary)
    ensures s == Summarize(prelim, creators)
  {
    var total := 0;
    var owned: seq<Collectible> := [];
    var i := 0;
    while i < |prelim|
      invariant 0 <= i <= |prelim|
      invariant owned == Filter(prelim[..i], OwnedWith(creators))
      invariant total == SumRap(owned)
    {
      assert prelim[..i + 1][..i] == prelim[..i];
      var it := prelim[i];
      if it.assetId in creators {
        var meta := creators[it.assetId];
        if meta.creatorId == RobloxCreatorId || meta.creatorName == RobloxCreatorName {
          total := total + it.rap;
          owned := owned + [it];
        }
      }
      i := i + 1;
    }
    assert prelim[..i] == prelim;
    s := RapSummary(total, |owned|, owned);
  }

  method FetchUserLimitedRap(pages: seq<Response<Page<Collectible>>>, get: Lookup, post: Lookup)
    returns (r: Response<RapSummary>)
    requires Ends(pages)
    ensures r == UserRap(pages, get, post)
  {
    var read := ReadPreliminary(pages);
    if read.Failed? {
      return Failed(read.status);
    }
    var prelim := read.value;
    if prelim == [] {
      return Ok(NoRap);
    }
    var uniqueIds := DedupBy(AssetIds(prelim), Self);
    var creators := FetchAssetCreators(uniqueIds, get, post);
    var summary := SumOwned(prelim, creators);
    return Ok(summary);
  }

  // ---------------------------------------------------------------- properties

  lemma {:induction false} SumRapLowerBound(items: seq<Collectible>)
    requires forall x :: x in items ==> MeetsThreshold(x)
    ensures SumRap(items) >= MinRap * |items|
  {
    if items != [] {
      var init := items[..|items| - 1];
      assert forall x :: x in init ==> x in items;
      assert items[|items| - 1] in items;
      SumRapLowerBound(init);
    }
  }

  /** The summary counts exactly the preliminary items whose creator is known
      to be Roblox, in their original order: `totalRAP` is their RAP sum,
      `qualifyingCount` their number, and every one is worth at least 10,000. */
  lemma SummarizeSpec(prelim: seq<Collectible>, creators: CreatorMap)
    requires forall x :: x in prelim ==> MeetsThreshold(x)
    ensures var s := Summarize(prelim, creators);
      && (forall x :: x in s.ownedItems <==>
            x in prelim && x.assetId in creators && IsRoblox(creators[x.assetId]))
      && IsSubsequence(s.ownedItems, prelim)
      && s.qualifyingCount == |s.ownedItems|
      && s.totalRAP == SumRap(s.ownedItems)
      && s.totalRAP >= MinRap * s.qualifyingCount
  {
    var owned := Filter(prelim, OwnedWith(creators));
    FilterSpec(prelim, OwnedWith(creators));
    SumRapLowerBound(owned);
  }

  /** The whole call: it fails exactly when an inventory page fails; otherwise
      the preliminary list holds exactly the items worth at least 10,000 in
      page order, an empty one gives the zero summary, and a non-empty one is
      summarised against the creators resolved for its distinct asset ids. */
  lemma UserRapSpec(pages: seq<Response<Page<Collectible>>>, get: Lookup, post: Lookup)
    requires Ends(pages)
    ensures UserRap(pages, get, post).Failed? <==> Collect(pages, Consumed(pages)).Failed?
    ensures Collect(pages, Consumed(pages)).Ok? ==>
      var items := Collect(pages, Consumed(pages)).value;
      var prelim := Filter(items, MeetsThreshold);
      && (forall x :: x in prelim <==> x in items && x.rap >= MinRap)
      && IsSubsequence(prelim, items)
      && (prelim == [] ==> UserRap(pages, get, post) == Ok(NoRap))
      && (prelim != [] ==>
            UserRap(pages, get, post) == Ok(Summarize(prelim, AssetCreators(UniqueAssetIds(prelim), get, post))))
      && UserRap(pages, get, post).value.totalRAP >= MinRap * UserRap(pages, get, post).value.qualifyingCount
  {
    var c := Collect(pages, Consumed(pages));
    if c.Ok? {
      var prelim := Filter(c.value, MeetsThreshold);
      FilterSpec(c.value, MeetsThreshold);
      if prelim != [] {
        SummarizeSpec(prelim, AssetCreators(UniqueAssetIds(prelim), get, post));
      }
    }
  }

  /** Creators are looked up once per asset: the ids sent are pairwise
      distinct and are exactly the asset ids of the preliminary items. */
  lemma UniqueAssetIdsSpec(prelim: seq<Collectible>)
    ensures var ids := UniqueAssetIds(prelim);
      && (forall i, j :: 0 <= i < j < |ids| ==> ids[i] != ids[j])
      && (forall id :: id in ids <==> exists x :: x in prelim && x.assetId == id)
  {
    var all := AssetIds(prelim);
    var ids := UniqueAssetIds(prelim);
    DedupDistinct(all, Self);
    DedupSameKeys(all, Self);
    forall id
      ensures id in ids <==> exists x :: x in prelim && x.assetId == id
    {
      if id in ids {
        var i :| 0 <= i < |ids| && ids[i] == id;
        KeyIn(ids, Self, i);
        var w := KeyWitness(all, Self, id);
        assert prelim[w] in prelim;
      }
      if x :| x in prelim && x.assetId == id {
        var w :| 0 <= w < |prelim| && prelim[w] == x;
        KeyIn(all, Self, w);
        var i := KeyWitness(ids, Self, id);
      }
    }
  }

  /** Three collectibles: one Roblox-made worth 15,000, one Roblox-made worth
      5,000 (below the threshold) and one worth 20,000 by another creator.
      Only the first counts. */
  lemma WealthExample()
    ensures var a := Collectible("1", "Hat", 15000);
      var b := Collectible("2", "Cap", 5000);
      var c := Collectible("3", "Crown", 20000);
      var creators := map["1" := CreatorInfo("1", "Roblox", "User"),
                          "2" := CreatorInfo("1", "Roblox", "User"),
                          "3" := CreatorInfo("42", "OtherUser", "User")];
      var prelim := Filter([a, b, c], MeetsThreshold);
      && prelim == [a, c]
      && Summarize(prelim, creators) == RapSummary(15000, 1, [a])
  {
    var a := Collectible("1", "Hat", 15000);
    var b := Collectible("2", "Cap", 5000);
    var c := Collectible("3", "Crown", 20000);
    var creators := map["1" := CreatorInfo("1", "Roblox", "User"),
                        "2" := CreatorInfo("1", "Roblox", "User"),
                        "3" := CreatorInfo("42", "OtherUser", "User")];
    assert [a, b, c][..2] == [a, b] && [a, b][..1] == [a] && [a][..0] == [];
    assert Filter([a], MeetsThreshold) == [a];
    assert Filter([a, b], MeetsThreshold) == [a];
    assert Filter([a, b, c], MeetsThreshold) == [a, c];
    assert [a, c][..1] == [a];
    assert OwnedWith(creators)(a) && !OwnedWith(creators)(c);
    assert Filter([a], OwnedWith(creators)) == [a];
    assert Filter([a, c], OwnedWith(creators)) == [a];
    assert SumRap([a]) == 15000 by { assert [a][..0] == []; }
  }
}
