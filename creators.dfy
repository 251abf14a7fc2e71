/** `fetchAssetCreators`: resolve the creator of each asset id in two tiers.
    First the batched GET lookup, 50 ids per request; then, for the ids still
    unresolved, the batched POST details lookup, 60 ids per request. A failed
    request is swallowed and leaves the map as it was. */
module Creators {
  import opened Collections
  import opened Paging

  const GetBatchSize := 50
  const PostBatchSize := 60

  datatype CreatorInfo = CreatorInfo(creatorId: string, creatorName: string, creatorType: string)

  /** One asset of a lookup answer, already normalised to the common shape. */
  datatype AssetRecord = AssetRecord(assetId: string, creator: CreatorInfo)

  /** A batch endpoint: the answer to a request for a batch of ids. */
  type Lookup = seq<string> -> Response<seq<AssetRecord>>

  type CreatorMap = map<string, CreatorInfo>

  /** `resultMap[assetId] = {...}` for every record of an answer, in order;
      a later record for the same asset overwrites an earlier one. */
  function Record(m: CreatorMap, records: seq<AssetRecord>): CreatorMap {
    if records == [] then m
    else
      var last := records[|records| - 1];
      Record(m, records[..|records| - 1])[last.assetId := last.creator]
  }

  /** The map after one tier has sent `batches` in order. */
  function ApplyBatches(m: CreatorMap, batches: seq<seq<string>>, lookup: Lookup): CreatorMap {
    if batches == [] then m
    else
      var before := ApplyBatches(m, batches[..|batches| - 1], lookup);
      match lookup(batches[|batches| - 1])
      case Ok(records) => Record(before, records)
      case Failed(_) => before
  }

  /** `ids.filter(id => !resultMap[id])`. */
  function AbsentFrom(m: CreatorMap): string -> bool {
    id => id !in m
  }

  /** The map after the GET tier. */
  function AfterGetTier(ids: seq<string>, get: Lookup): CreatorMap {
    ApplyBatches(map[], Chunks(ids, GetBatchSize), get)
  }

  /** The batches the POST tier sends: the still-missing ids, 60 at a time. */
  function PostBatches(ids: seq<string>, get: Lookup): seq<seq<string>> {
    Chunks(Filter(ids, AbsentFrom(AfterGetTier(ids, get))), PostBatchSize)
  }

  /** The map `fetchAssetCreators` returns. */
  function AssetCreators(ids: seq<string>, get: Lookup, post: Lookup): CreatorMap {
    ApplyBatches(AfterGetTier(ids, get), PostBatches(ids, get), post)
  }

  /** Send `batches` in order and merge every successful answer into `m`;
      a failing request changes nothing (the empty `catch`). */
  method RunTier(m: CreatorMap, batches: seq<seq<string>>, lookup: Lookup) returns (result: CreatorMap)
    ensures result == ApplyBatches(m, batches, lookup)
  {
    result := m;
    var i := 0;
    while i < |batches|
      invariant 0 <= i <= |batches|
      invariant result == ApplyBatches(m, batches[..i], lookup)
    {
      assert batches[..i + 1][..i] == batches[..i];
      var response := lookup(batches[i]);
      if response.Ok? {
        var records := response.value;
        ghost var before := result;
        var j := 0;
        while j < |records|
          invariant 0 <= j <= |records|
          invariant result == Record(before, records[..j])
        {
          assert records[..j + 1][..j] == records[..j];
          result := result[records[j].assetId := records[j].creator];
          j := j + 1;
        }
        assert records[..j] == records;
      }
      i := i + 1;
    }
    assert batches[..i] == batches;
  }

  method FetchAssetCreators(assetIds: seq<string>, get: Lookup, post: Lookup) returns (result: CreatorMap)
    ensures result == AssetCreators(assetIds, get, post)
  {
    var getBatches := Chunk(assetIds, GetBatchSize);
    result := RunTier(map[], getBatches, get);
    var missing: seq<string> := [];
    var i := 0;
    while i < |assetIds|
      invariant 0 <= i <= |assetIds|
      invariant missing == Filter(assetIds[..i], AbsentFrom(result))
    {
      assert assetIds[..i + 1][..i] == assetIds[..i];
      if assetIds[i] !in result {
        missing := missing + [assetIds[i]];
      }
      i := i + 1;
    }
    assert assetIds[..i] == assetIds;
    var postBatches := Chunk(missing, PostBatchSize);
    result := RunTier(result, postBatches, post);
  }

  // ---------------------------------------------------------------- properties

  /** No GET request carries more than 50 ids and no POST request more than 60;
      none is empty. */
  lemma BatchSizes(ids: seq<string>, get: Lookup)
    ensures forall b :: b in Chunks(ids, GetBatchSize) ==> 1 <= |b| <= GetBatchSize
    ensures forall b :: b in PostBatches(ids, get) ==> 1 <= |b| <= PostBatchSize
  {
    ChunksShape(ids, GetBatchSize);
    ChunksShape(Filter(ids, AbsentFrom(AfterGetTier(ids, get))), PostBatchSize);
  }

  /** The POST tier asks only for requested ids that the GET tier left unresolved. */
  lemma PostAsksOnlyForMissing(ids: seq<string>, get: Lookup)
    ensures forall b, id :: b in PostBatches(ids, get) && id in b ==>
              id in ids && id !in AfterGetTier(ids, get)
  {
    var afterGet := AfterGetTier(ids, get);
    var missing := Filter(ids, AbsentFrom(afterGet));
    FilterSpec(ids, AbsentFrom(afterGet));
    forall b, id | b in PostBatches(ids, get) && id in b
      ensures id in ids && id !in afterGet
    {
      var k :| 0 <= k < |Chunks(missing, PostBatchSize)| && Chunks(missing, PostBatchSize)[k] == b;
      ChunkElements(missing, PostBatchSize, k, id);
    }
  }

  /** Every id the GET tier did not resolve is asked for by the POST tier. */
  lemma PostCoversMissing(ids: seq<string>, get: Lookup)
    ensures forall id :: id in ids && id !in AfterGetTier(ids, get) ==> id in Flatten(PostBatches(ids, get))
  {
    var missing := Filter(ids, AbsentFrom(AfterGetTier(ids, get)));
    FilterSpec(ids, AbsentFrom(AfterGetTier(ids, get)));
    ChunksFlatten(missing, PostBatchSize);
  }

  /** A tier never loses a resolved asset: failures change nothing, answers
      only add or overwrite entries. */
  lemma {:induction false} TierKeepsKeys(m: CreatorMap, batches: seq<seq<string>>, lookup: Lookup)
    ensures m.Keys <= ApplyBatches(m, batches, lookup).Keys
  {
    if batches != [] {
      var init := batches[..|batches| - 1];
      TierKeepsKeys(m, init, lookup);
      match lookup(batches[|batches| - 1])
      case Ok(records) => RecordKeepsKeys(ApplyBatches(m, init, lookup), records);
      case Failed(_) =>
    }
  }

  lemma {:induction false} RecordKeepsKeys(m: CreatorMap, records: seq<AssetRecord>)
    ensures m.Keys <= Record(m, records).Keys
  {
    if records != [] {
      RecordKeepsKeys(m, records[..|records| - 1]);
    }
  }

  /** When every request of a tier fails, the tier leaves the map unchanged. */
  lemma {:induction false} FailingTierIsNoOp(m: CreatorMap, batches: seq<seq<string>>, lookup: Lookup)
    requires forall b :: b in batches ==> lookup(b).Failed?
    ensures ApplyBatches(m, batches, lookup) == m
  {
    if batches != [] {
      var init := batches[..|batches| - 1];
      assert forall b :: b in init ==> b in batches;
      FailingTierIsNoOp(m, init, lookup);
    }
  }

  /** Every entry of the final map comes from an answer: nothing is invented. */
  lemma {:induction false} TierEntriesFromAnswers(m: CreatorMap, batches: seq<seq<string>>, lookup: Lookup, id: string)
    requires id in ApplyBatches(m, batches, lookup)
    ensures id in m || exists b, r :: b in batches && lookup(b).Ok? && r in lookup(b).value && r.assetId == id
  {
    if batches != [] {
      var init, last := batches[..|batches| - 1], batches[|batches| - 1];
      var before := ApplyBatches(m, init, lookup);
      if lookup(last).Ok? && id !in before {
        RecordEntriesFromRecords(before, lookup(last).value, id);
      } else {
        TierEntriesFromAnswers(m, init, lookup, id);
        if !(id in m) {
          var b, r :| b in init && lookup(b).Ok? && r in lookup(b).value && r.assetId == id;
          assert b in batches;
        }
      }
    }
  }

  lemma {:induction false} RecordEntriesFromRecords(m: CreatorMap, records: seq<AssetRecord>, id: string)
    requires id in Record(m, records) && id !in m
    ensures exists r :: r in records && r.assetId == id
  {
    var last := records[|records| - 1];
    if last.assetId != id {
      RecordEntriesFromRecords(m, records[..|records| - 1], id);
      var r :| r in records[..|records| - 1] && r.assetId == id;
      assert r in records;
    }
  }
}
