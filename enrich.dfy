/** `enrichMembersWithValue`: attach each member's limited-item RAP summary,
    twelve members per batch. A member whose lookup fails gets the zero
    summary; the other members are not affected. */
module Enrich {
  import opened Collections
  import opened Paging
  import opened Creators
  import opened LimitedRap

  const EnrichBatchSize := 12

  /** A group member as the member listing reports it. */
  datatype Member = Member(userId: int, username: string)

  /** `{ ...m, totalRAP, qualifyingCount, ownedItems }`. */
  datatype ValuedMember = ValuedMember(member: Member, rap: RapSummary)

  /** Each user's collectibles listing, as successive responses. */
  type Inventory = int -> seq<Response<Page<Collectible>>>

  /** Every member's listing eventually stops the cursor loop. */
  predicate AllEnd(inventory: Inventory, members: seq<Member>) {
    forall k :: 0 <= k < |members| ==> Ends(inventory(members[k].userId))
  }

  /** The record the enricher produces for one member: the `try` gives the
      summary, the `catch` the zero summary. */
  function Valued(m: Member, inventory: Inventory, get: Lookup, post: Lookup): (r: ValuedMember)
    requires Ends(inventory(m.userId))
    ensures r.member == m
    ensures UserRap(inventory(m.userId), get, post).Failed? ==> r.rap == NoRap
    ensures r.rap.totalRAP >= MinRap * r.rap.qualifyingCount
  {
    UserRapSpec(inventory(m.userId), get, post);
    match UserRap(inventory(m.userId), get, post)
    case Ok(summary) => ValuedMember(m, summary)
    case Failed(_) => ValuedMember(m, NoRap)
  }

  /** `result` holds, position by position, the record of each of `members`. */
  ghost predicate ValuedAll(result: seq<ValuedMember>, members: seq<Member>, inventory: Inventory, get: Lookup, post: Lookup) {
    && AllEnd(inventory, members)
    && |result| == |members|
    && forall k :: 0 <= k < |members| ==> result[k] == Valued(members[k], inventory, get, post)
  }

  /** One batch: every member of the batch is looked up; a failure is caught
      per member and never aborts the batch. */
  method EnrichBatch(batch: seq<Member>, inventory: Inventory, get: Lookup, post: Lookup)
    returns (valued: seq<ValuedMember>)
    requires AllEnd(inventory, batch)
    ensures ValuedAll(valued, batch, inventory, get, post)
  {
    valued := [];
    var j := 0;
    while j < |batch|
      invariant 0 <= j <= |batch|
      invariant ValuedAll(valued, batch[..j], inventory, get, post)
    {
      var m := batch[j];
      var r := FetchUserLimitedRap(inventory(m.userId), get, post);
      var v := if r.Ok? then ValuedMember(m, r.value) else ValuedMember(m, NoRap);
      ValuedAllSnoc(valued, batch, j, v, inventory, get, post);
      valued := valued + [v];
      j := j + 1;
    }
    assert batch[..j] == batch;
  }

  lemma ValuedAllSnoc(valued: seq<ValuedMember>, batch: seq<Member>, j: nat, v: ValuedMember,
                      inventory: Inventory, get: Lookup, post: Lookup)
    requires j < |batch| && AllEnd(inventory, batch)
    requires ValuedAll(valued, batch[..j], inventory, get, post)
    requires v == Valued(batch[j], inventory, get, post)
    ensures ValuedAll(valued + [v], batch[..j + 1], inventory, get, post)
  {
    assert batch[..j + 1] == batch[..j] + [batch[j]];
  }

  lemma ValuedAllAppend(r1: seq<ValuedMember>, m1: seq<Member>, r2: seq<ValuedMember>, m2: seq<Member>,
                        inventory: Inventory, get: Lookup, post: Lookup)
    requires ValuedAll(r1, m1, inventory, get, post) && ValuedAll(r2, m2, inventory, get, post)
    ensures ValuedAll(r1 + r2, m1 + m2, inventory, get, post)
  {
    forall k | 0 <= k < |m1 + m2|
      ensures Ends(inventory((m1 + m2)[k].userId))
      ensures (r1 + r2)[k] == Valued((m1 + m2)[k], inventory, get, post)
    {
      if k >= |m1| {
        assert (m1 + m2)[k] == m2[k - |m1|];
      }
    }
  }

  /** The output has the members' length and order, and each record is that
      member's own valuation, whatever happened to the others. */
  method EnrichMembersWithValue(members: seq<Member>, inventory: Inventory, get: Lookup, post: Lookup)
    returns (result: seq<ValuedMember>)
    requires AllEnd(inventory, members)
    ensures ValuedAll(result, members, inventory, get, post)
  {
    result := [];
    var chunks := Chunk(members, EnrichBatchSize);
    ChunksFlatten(members, EnrichBatchSize);
    var i := 0;
    while i < |chunks|
      invariant 0 <= i <= |chunks|
      invariant ValuedAll(result, Flatten(chunks[..i]), inventory, get, post)
    {
      var batch := chunks[i];
      forall k | 0 <= k < |batch|
        ensures Ends(inventory(batch[k].userId))
      {
        ChunkElements(members, EnrichBatchSize, i, batch[k]);
        var w :| 0 <= w < |members| && members[w] == batch[k];
      }
      var valued := EnrichBatch(batch, inventory, get, post);
      ValuedAllAppend(result, Flatten(chunks[..i]), valued, batch, inventory, get, post);
      assert chunks[..i + 1] == chunks[..i] + [batch];
      FlattenSnoc(chunks[..i], batch);
      result := result + valued;
      i := i + 1;
    }
    assert chunks[..i] == chunks;
  }
}
