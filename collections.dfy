/** Sequence helpers the popups build on: fixed-size chunking (`chunk`),
    order-preserving filtering, de-duplication that keeps the first
    occurrence of each key (the `seen` set loop and `Array.from(new Set(...))`),
    and the descending in-place sort done by `Array.prototype.sort`. */
module Collections {

  /** Concatenation of a sequence of sequences, left to right. */
  function Flatten<T>(ss: seq<seq<T>>): seq<T> {
    if ss == [] then [] else ss[0] + Flatten(ss[1..])
  }

  lemma {:induction false} FlattenSnoc<T>(ss: seq<seq<T>>, s: seq<T>)
    ensures Flatten(ss + [s]) == Flatten(ss) + s
  {
    if ss == [] {
      assert ss + [s] == [s];
    } else {
      assert (ss + [s])[1..] == ss[1..] + [s];
      FlattenSnoc(ss[1..], s);
    }
  }

  // ---------------------------------------------------------------- chunk

  /** The partition `chunk(arr, size)` produces: consecutive slices of
      `size` elements, the last one possibly shorter. */
  function Chunks<T>(s: seq<T>, size: nat): seq<seq<T>>
    requires size > 0
    decreases |s|
  {
    if s == [] then []
    else if |s| <= size then [s]
    else [s[..size]] + Chunks(s[size..], size)
  }

  /** Every chunk is non-empty and at most `size` long; all but the last are full. */
  ghost predicate ChunkShape<T>(cs: seq<seq<T>>, size: nat) {
    && (forall k :: 0 <= k < |cs| ==> 1 <= |cs[k]| <= size)
    && (forall k :: 0 <= k < |cs| - 1 ==> |cs[k]| == size)
  }

  /** Concatenating the chunks gives back the input. */
  lemma {:induction false} ChunksFlatten<T>(s: seq<T>, size: nat)
    requires size > 0
    ensures Flatten(Chunks(s, size)) == s
    decreases |s|
  {
    if s == [] {
    } else if |s| <= size {
      assert Flatten([s]) == s + Flatten([]);
    } else {
      ChunksFlatten(s[size..], size);
      assert s == s[..size] + s[size..];
    }
  }

  /** Chunk sizes: between 1 and `size`, exactly `size` except for the last. */
  lemma {:induction false} ChunksShape<T>(s: seq<T>, size: nat)
    requires size > 0
    ensures ChunkShape(Chunks(s, size), size)
    ensures s != [] ==> |Chunks(s, size)| > 0
    decreases |s|
  {
    if s == [] {
    } else if |s| <= size {
    } else {
      ChunksShape(s[size..], size);
      var rest := Chunks(s[size..], size);
      assert Chunks(s, size) == [s[..size]] + rest;
    }
  }

  /** Every element of a chunk is an element of the chunked sequence. */
  lemma ChunkElements<T>(s: seq<T>, size: nat, k: nat, x: T)
    requires size > 0
    requires k < |Chunks(s, size)| && x in Chunks(s, size)[k]
    ensures x in s
  {
    ChunksFlatten(s, size);
    FlattenContains(Chunks(s, size), k, x);
  }

  lemma {:induction false} FlattenContains<T>(ss: seq<seq<T>>, k: nat, x: T)
    requires k < |ss| && x in ss[k]
    ensures x in Flatten(ss)
  {
    if k > 0 {
      FlattenContains(ss[1..], k - 1, x);
    }
  }

  /** `chunk(arr, size)`: push `arr.slice(i, i + size)` for i = 0, size, 2*size, ...
      The index jumps to the end of the slice it just took, which differs from
      `i += size` only on the last, short slice, after which both loops stop. */
  method Chunk<T>(arr: seq<T>, size: nat) returns (out: seq<seq<T>>)
    requires size > 0
    ensures out == Chunks(arr, size)
  {
    out := [];
    var i := 0;
    while i < |arr|
      invariant 0 <= i <= |arr|
      invariant out + Chunks(arr[i..], size) == Chunks(arr, size)
      decreases |arr| - i
    {
      var end := if i + size <= |arr| then i + size else |arr|;
      assert Chunks(arr[i..], size) == [arr[i..end]] + Chunks(arr[end..], size) by {
        if |arr[i..]| > size {
          assert arr[i..][..size] == arr[i..end];
          assert arr[i..][size..] == arr[end..];
        } else {
          assert arr[i..] == arr[i..end];
          assert arr[end..] == [];
          assert Chunks(arr[i..], size) == [arr[i..end]];
        }
      }
      out := out + [arr[i..end]];
      i := end;
    }
    assert arr[i..] == [];
  }

  // ---------------------------------------------------------------- filtering

  /** The elements of `s` satisfying `p`, in their original order. */
  function Filter<T>(s: seq<T>, p: T -> bool): seq<T> {
    if s == [] then []
    else
      var rest := Filter(s[..|s| - 1], p);
      if p(s[|s| - 1]) then rest + [s[|s| - 1]] else rest
  }

  /** `a` can be obtained from `b` by deleting elements (relative order kept). */
  ghost predicate IsSubsequence<T>(a: seq<T>, b: seq<T>)
    decreases |b|
  {
    || a == []
    || (&& b != []
        && (|| (a[|a| - 1] == b[|b| - 1] && IsSubsequence(a[..|a| - 1], b[..|b| - 1]))
            || IsSubsequence(a, b[..|b| - 1])))
  }

  /** A filter keeps exactly the elements satisfying the predicate, in order. */
  lemma {:induction false} FilterSpec<T>(s: seq<T>, p: T -> bool)
    ensures forall x :: x in Filter(s, p) <==> x in s && p(x)
    ensures IsSubsequence(Filter(s, p), s)
    ensures |Filter(s, p)| <= |s|
  {
    if s != [] {
      var init, last := s[..|s| - 1], s[|s| - 1];
      FilterSpec(init, p);
      assert s == init + [last];
      var r := Filter(s, p);
      if p(last) {
        assert r[..|r| - 1] == Filter(init, p);
      }
    }
  }

  /** Filtering distributes over concatenation. */
  lemma {:induction false} FilterAppend<T>(a: seq<T>, b: seq<T>, p: T -> bool)
    ensures Filter(a + b, p) == Filter(a, p) + Filter(b, p)
    decreases |b|
  {
    if b == [] {
      assert a + b == a;
    } else {
      var init, last := b[..|b| - 1], b[|b| - 1];
      assert (a + b)[..|a + b| - 1] == a + init;
      FilterAppend(a, init, p);
    }
  }

  // ---------------------------------------------------------------- de-duplication

  /** The keys of the elements of `s`. */
  function Keys<T, K(==)>(s: seq<T>, key: T -> K): set<K> {
    if s == [] then {} else Keys(s[..|s| - 1], key) + {key(s[|s| - 1])}
  }

  /** The key of every element is among the keys. */
  lemma {:induction false} KeyIn<T, K>(s: seq<T>, key: T -> K, i: nat)
    requires i < |s|
    ensures key(s[i]) in Keys(s, key)
  {
    if i < |s| - 1 {
      KeyIn(s[..|s| - 1], key, i);
    }
  }

  /** Every key is the key of some element. */
  lemma {:induction false} KeyWitness<T, K>(s: seq<T>, key: T -> K, k: K) returns (i: nat)
    requires k in Keys(s, key)
    ensures i < |s| && key(s[i]) == k
  {
    if key(s[|s| - 1]) == k {
      i := |s| - 1;
    } else {
      i := KeyWitness(s[..|s| - 1], key, k);
    }
  }

  /** The element at index `i` is the first one with its key. */
  ghost predicate IsFirst<T, K>(s: seq<T>, key: T -> K, i: nat)
    requires i < |s|
  {
    forall j :: 0 <= j < i ==> key(s[j]) != key(s[i])
  }

  /** `s` with every element dropped whose key occurred earlier. */
  function FirstOccurrences<T, K(==)>(s: seq<T>, key: T -> K): seq<T> {
    if s == [] then []
    else
      var init, last := s[..|s| - 1], s[|s| - 1];
      if key(last) in Keys(init, key) then FirstOccurrences(init, key)
      else FirstOccurrences(init, key) + [last]
  }

  /** De-duplication keeps the same set of keys. */
  lemma {:induction false} DedupSameKeys<T, K>(s: seq<T>, key: T -> K)
    ensures Keys(FirstOccurrences(s, key), key) == Keys(s, key)
  {
    if s != [] {
      var init, last := s[..|s| - 1], s[|s| - 1];
      DedupSameKeys(init, key);
      var r := FirstOccurrences(s, key);
      if key(last) !in Keys(init, key) {
        assert r[..|r| - 1] == FirstOccurrences(init, key);
      }
    }
  }

  /** After de-duplication no two elements share a key. */
  lemma {:induction false} DedupDistinct<T, K>(s: seq<T>, key: T -> K)
    ensures forall i, j :: 0 <= i < j < |FirstOccurrences(s, key)| ==>
              key(FirstOccurrences(s, key)[i]) != key(FirstOccurrences(s, key)[j])
  {
    if s != [] {
      var init, last := s[..|s| - 1], s[|s| - 1];
      DedupDistinct(init, key);
      var prev := FirstOccurrences(init, key);
      if key(last) !in Keys(init, key) {
        DedupSameKeys(init, key);
        var r := FirstOccurrences(s, key);
        assert r == prev + [last];
        forall i, j | 0 <= i < j < |r|
          ensures key(r[i]) != key(r[j])
        {
          if j == |r| - 1 {
            assert r[i] == prev[i];
            KeyIn(prev, key, i);
            assert r[j] == last;
          } else {
            assert r[i] == prev[i] && r[j] == prev[j];
          }
        }
      }
    }
  }

  /** Every first occurrence in the input survives de-duplication. */
  lemma {:induction false} DedupKeepsFirst<T, K>(s: seq<T>, key: T -> K)
    ensures forall i :: 0 <= i < |s| && IsFirst(s, key, i) ==> s[i] in FirstOccurrences(s, key)
  {
    if s != [] {
      var init, last := s[..|s| - 1], s[|s| - 1];
      DedupKeepsFirst(init, key);
      var r := FirstOccurrences(s, key);
      var prev := FirstOccurrences(init, key);
      assert forall x :: x in prev ==> x in r;
      forall i | 0 <= i < |s| && IsFirst(s, key, i)
        ensures s[i] in r
      {
        if i < |s| - 1 {
          assert s[i] == init[i];
          assert IsFirst(init, key, i);
        } else if key(last) in Keys(init, key) {
          var j := KeyWitness(init, key, key(last));
          assert false;
        }
      }
    }
  }

  /** De-duplication only deletes elements, so first-seen order is kept. */
  lemma {:induction false} DedupSubsequence<T, K>(s: seq<T>, key: T -> K)
    ensures IsSubsequence(FirstOccurrences(s, key), s)
  {
    if s != [] {
      var init, last := s[..|s| - 1], s[|s| - 1];
      DedupSubsequence(init, key);
      var r := FirstOccurrences(s, key);
      if key(last) !in Keys(init, key) {
        assert r[..|r| - 1] == FirstOccurrences(init, key);
      }
    }
  }

  /** The `seen`-set loop of `fetchAllMembers` (and what `Array.from(new Set(xs))`
      computes): walk the input once, keep an element when its key is unseen. */
  method DedupBy<T, K(==)>(all: seq<T>, key: T -> K) returns (unique: seq<T>)
    ensures unique == FirstOccurrences(all, key)
  {
    var seen: set<K> := {};
    unique := [];
    var i := 0;
    while i < |all|
      invariant 0 <= i <= |all|
      invariant seen == Keys(all[..i], key)
      invariant unique == FirstOccurrences(all[..i], key)
    {
      var m := all[i];
      assert all[..i + 1][..i] == all[..i] && all[..i + 1][i] == m;
      if key(m) !in seen {
        seen := seen + {key(m)};
        unique := unique + [m];
      }
      i := i + 1;
    }
    assert all[..i] == all;
  }

  // ---------------------------------------------------------------- sorting

  /** `s` is sorted so that `key` never increases from left to right. */
  ghost predicate NonIncreasing<T>(s: seq<T>, key: T -> int) {
    forall p, q :: 0 <= p < q < |s| ==> key(s[p]) >= key(s[q])
  }

  /** The first `n` elements are in non-increasing key order. */
  ghost predicate SortedPrefix<T>(s: seq<T>, key: T -> int, n: nat)
    requires n <= |s|
  {
    forall p, q :: 0 <= p < q < n ==> key(s[p]) >= key(s[q])
  }

  /** The test "has key `v`". */
  function HasKey<T>(key: T -> int, v: int): T -> bool {
    (x: T) => key(x) == v
  }

  /** Stability: for every key value, the elements with that key appear in
      `r` in the same order as in `s`. */
  ghost predicate SameKeyOrder<T>(r: seq<T>, s: seq<T>, key: T -> int) {
    forall v :: Filter(r, HasKey(key, v)) == Filter(s, HasKey(key, v))
  }

  /** Exchanging two neighbours with different keys keeps every key's order. */
  lemma SwapKeepsKeyOrder<T>(s: seq<T>, key: T -> int, j: nat)
    requires 0 < j < |s| && key(s[j - 1]) != key(s[j])
    ensures SameKeyOrder(s[j - 1 := s[j]][j := s[j - 1]], s, key)
  {
    var t := s[j - 1 := s[j]][j := s[j - 1]];
    var x, y := s[j - 1], s[j];
    var pre, post := s[..j - 1], s[j + 1..];
    assert s == pre + [x, y] + post;
    assert t == pre + [y, x] + post;
    assert [x, y][..1] == [x] && [y, x][..1] == [y] && [x][..0] == [] && [y][..0] == [];
    forall v
      ensures Filter(t, HasKey(key, v)) == Filter(s, HasKey(key, v))
    {
      var p := HasKey(key, v);
      FilterAppend(pre + [x, y], post, p);
      FilterAppend(pre, [x, y], p);
      FilterAppend(pre + [y, x], post, p);
      FilterAppend(pre, [y, x], p);
    }
  }

  /** A filter whose test every element passes keeps everything. */
  lemma {:induction false} FilterAll<T>(s: seq<T>, p: T -> bool)
    requires forall x :: x in s ==> p(x)
    ensures Filter(s, p) == s
  {
    if s != [] {
      var init := s[..|s| - 1];
      assert forall x :: x in init ==> x in s;
      FilterAll(init, p);
      assert s[|s| - 1] in s;
    }
  }

  /** What stability promises: where all keys of the input tie, the result is
      the input itself. */
  lemma StableOnTies<T>(r: seq<T>, s: seq<T>, key: T -> int, v: int)
    requires forall x :: x in s ==> key(x) == v
    requires SameKeyOrder(r, s, key)
    ensures r == s
  {
    forall z | z in r
      ensures key(z) == v
    {
      var w := key(z);
      FilterSpec(r, HasKey(key, w));
      FilterSpec(s, HasKey(key, w));
      assert z in Filter(s, HasKey(key, w));
    }
    FilterAll(r, HasKey(key, v));
    FilterAll(s, HasKey(key, v));
    assert Filter(r, HasKey(key, v)) == Filter(s, HasKey(key, v));
  }

  /** `a.sort((x, y) => key(y) - key(x))`: sort in place, largest key first,
      stably as `Array.prototype.sort` does. Insertion sort: each element in
      turn is moved left past the elements with a strictly smaller key. */
  method SortByKeyDescending<T>(a: array<T>, key: T -> int)
    modifies a
    ensures NonIncreasing(a[..], key)
    ensures multiset(a[..]) == old(multiset(a[..]))
    ensures SameKeyOrder(a[..], old(a[..]), key)
  {
    var i := 0;
    while i < a.Length
      invariant 0 <= i <= a.Length
      invariant SortedPrefix(a[..], key, i)
      invariant multiset(a[..]) == old(multiset(a[..]))
      invariant SameKeyOrder(a[..], old(a[..]), key)
    {
      InsertInPlace(a, key, i);
      i := i + 1;
    }
  }

  /** While `s[i]`'s element sits at `j`: every other pair up to `i` is in
      order and it has a larger key than everything after it. */
  ghost predicate Inserting<T>(s: seq<T>, key: T -> int, i: nat, j: nat)
    requires j <= i < |s|
  {
    && (forall p, q :: 0 <= p < q <= i && p != j && q != j ==> key(s[p]) >= key(s[q]))
    && (forall q :: j < q <= i ==> key(s[j]) > key(s[q]))
  }

  lemma InsertingStep<T>(s: seq<T>, key: T -> int, i: nat, j: nat)
    requires 0 < j <= i < |s| && Inserting(s, key, i, j) && key(s[j - 1]) < key(s[j])
    ensures Inserting(s[j - 1 := s[j]][j := s[j - 1]], key, i, j - 1)
  {
  }

  lemma InsertingDone<T>(s: seq<T>, key: T -> int, i: nat, j: nat)
    requires j <= i < |s| && Inserting(s, key, i, j) && (j == 0 || key(s[j - 1]) >= key(s[j]))
    ensures SortedPrefix(s, key, i + 1)
  {
  }

  /** Move `a[i]` left past the elements with a smaller key. */
  method InsertInPlace<T>(a: array<T>, key: T -> int, i: nat)
    requires i < a.Length && SortedPrefix(a[..], key, i)
    modifies a
    ensures SortedPrefix(a[..], key, i + 1)
    ensures multiset(a[..]) == old(multiset(a[..]))
    ensures SameKeyOrder(a[..], old(a[..]), key)
    ensures a[i + 1..] == old(a[i + 1..])
  {
    var j := i;
    while j > 0 && key(a[j - 1]) < key(a[j])
      invariant 0 <= j <= i
      invariant Inserting(a[..], key, i, j)
      invariant multiset(a[..]) == old(multiset(a[..]))
      invariant SameKeyOrder(a[..], old(a[..]), key)
      invariant a[i + 1..] == old(a[i + 1..])
    {
      ghost var before := a[..];
      SwapAdjacent(a, j);
      InsertingStep(before, key, i, j);
      SwapKeepsKeyOrder(before, key, j);
      j := j - 1;
    }
    InsertingDone(a[..], key, i, j);
  }

  /** Exchange `a[j - 1]` and `a[j]`. */
  method SwapAdjacent<T>(a: array<T>, j: nat)
    requires 0 < j < a.Length
    modifies a
    ensures a[..] == old(a[..])[j - 1 := old(a[j])][j := old(a[j - 1])]
    ensures multiset(a[..]) == old(multiset(a[..]))
  {
    a[j - 1], a[j] := a[j], a[j - 1];
  }
}
