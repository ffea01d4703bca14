/** The benchmark's sharded engine: the same layout without block index or pruning, as the simple
    reference for the store's search. */
module ReferenceEngine {
  import opened Bytes
  import opened Bits
  import opened TopK
  import opened VectorIndex
  import opened VectorStore
  import opened Pruning
  import opened Search
  import opened FlatLayout
  import opened VectorEngine

  function PlainDistances(vectors: seq<Vector>, s: nat, query: Vector): seq<Candidate>
    requires Uniform(vectors, |query|)
  {
    seq(|vectors|, i requires 0 <= i < |vectors| => Candidate(Hamming(vectors[i], query, |query|), s, i))
  }

  class PlainShard {
    var keys: seq<bytes>
    var data: seq<Word>
    var floatData: seq<F32>
    ghost var vectors: seq<Vector>
    ghost var floats: seq<seq<F32>>

    ghost predicate Valid(nb: nat)
      reads this
    {
      && |keys| == |vectors| == |floats| && Uniform(vectors, nb)
      && data == Flat(vectors) && floatData == Flat(floats)
    }

    constructor ()
      ensures keys == [] && data == [] && floatData == [] && vectors == [] && floats == []
    {
      keys, data, floatData := [], [], [];
      vectors, floats := [], [];
    }

    method Append(key: bytes, vector: Vector, floatVector: seq<F32>, nb: nat)
      requires Valid(nb) && |vector| == nb
      modifies this
      ensures Valid(nb) && keys == old(keys) + [key]
      ensures vectors == old(vectors) + [vector] && floats == old(floats) + [floatVector]
    {
      FlatAppend(vectors, vector);
      FlatAppend(floats, floatVector);
      keys, data, floatData := keys + [key], data + vector, floatData + floatVector;
      vectors, floats := vectors + [vector], floats + [floatVector];
    }

    method DistanceTo(i: nat, query: Vector, nb: nat) returns (dist: nat)
      requires Valid(nb) && i < |vectors| && |query| == nb
      ensures dist == Hamming(vectors[i], query, nb)
    {
      FlatRow(vectors, nb, i);
      var candidate := data[i * nb..i * nb + nb];
      dist := 0;
      for j := 0 to nb
        invariant dist == Hamming(vectors[i], query, j)
      {
        dist := dist + Popcount(Xor(candidate[j], query[j]));
      }
    }

    /** Every vector goes through the heap, which drops its worst when over k. */
    method Search(s: nat, query: Vector, nb: nat, k: nat) returns (best: seq<Candidate>, ghost rest: seq<Candidate>)
      requires Valid(nb) && |query| == nb
      ensures Selects(best, rest, PlainDistances(vectors, s, query), k) && Ascending(Costs(best))
    {
      var heap := new BinaryHeap();
      ghost var all := PlainDistances(vectors, s, query);
      ghost var seen: seq<Candidate> := [];
      rest := [];
      for i := 0 to |keys|
        invariant seen == all[..i] && Selects(heap.items, rest, seen, k)
      {
        var dist := DistanceTo(i, query, nb);
        var c := Candidate(dist, s, i);
        SliceNext(all, 0, i);
        rest := heap.PushTrim(c, k, rest, seen);
        seen := seen + [c];
      }
      assert all[..|keys|] == all;
      best := SortByCost(heap.items);
      SameSelection(heap.items, best, rest, all, k);
    }
  }

  class ShardedVectorEngine {
    const nb: nat
    var shards: seq<PlainShard>

    ghost predicate Valid()
      reads this, shards
    {
      && (forall i, j :: 0 <= i < j < |shards| ==> shards[i] != shards[j])
      && forall i :: 0 <= i < |shards| ==> shards[i].Valid(nb)
    }

    /** The engine holds the keys, bit vectors and floats of the store; the store alone pads or cuts floats. */
    ghost predicate Mirrors(s: Store)
      reads this, shards
    {
      && |shards| == |s.shards| && nb == s.Words()
      && forall i :: 0 <= i < |shards| ==>
           SameRows(shards[i].keys, shards[i].vectors, shards[i].floats, s.shards[i], s.dim)
    }

    constructor (dim: nat, numShards: nat)
      requires dim % 64 == 0
      ensures Valid() && Mirrors(New(dim, numShards))
    {
      nb := dim / 64;
      shards := [];
      new;
      for i := 0 to numShards
        invariant |shards| == i && nb == dim / 64
        invariant forall j :: 0 <= j < i ==> fresh(shards[j]) && shards[j].Valid(nb)
        invariant forall j :: 0 <= j < i ==>
                    SameRows(shards[j].keys, shards[j].vectors, shards[j].floats, EMPTY_SHARD, dim)
        invariant forall j, k :: 0 <= j < k < i ==> shards[j] != shards[k]
      {
        var shard := new PlainShard();
        shards := shards + [shard];
      }
    }

    /** Adding with the store's own counter keeps the two in step. */
    method Add(key: bytes, vector: Vector, floats: seq<F32>, globalIdx: nat, ghost s: Store)
      requires Valid() && |vector| == nb && shards != []
      requires StoreOk(s) && Mirrors(s) && globalIdx == s.counter
      modifies shards
      ensures Valid() && Mirrors(VectorStore.Add(s, key, vector, floats))
    {
      var at := globalIdx % |shards|;
      shards[at].Append(key, vector, floats, nb);
    }

    /** The unpruned selection: the k smallest distances of every store the engine mirrors. */
    method SelectSharded(query: Vector, k: nat, ghost s: Store) returns (chosen: seq<Candidate>)
      requires Valid() && Mirrors(s) && QueryOk(s, query)
      ensures IsTopK(chosen, Join(DistanceParts(s, query)), k)
      ensures Costs(chosen) == Smallest(Join(DistanceParts(s, query)), k)
    {
      var kepts: seq<seq<Candidate>> := [];
      ghost var rests: seq<seq<Candidate>> := [];
      ghost var parts := DistanceParts(s, query);
      for i := 0 to |shards|
        invariant |kepts| == |rests| == i && forall j :: 0 <= j < i ==> Selects(kepts[j], rests[j], parts[j], k)
      {
        var best;
        ghost var rest;
        best, rest := shards[i].Search(i, query, nb, k);
        assert parts[i] == PlainDistances(shards[i].vectors, i, query);
        kepts, rests := kepts + [best], rests + [rest];
      }
      ghost var rest;
      chosen, rest := SharedVectorStore.Merge(kepts, k);
      MergedIsGlobal(kepts, rests, parts, chosen, rest, k);
      SelectionListsSmallest(chosen, rest + Join(rests), Join(parts), k);
    }

    /** `search_sharded_parallel`: the keys and distances of a selection of the store's k nearest vectors, none
        listed twice, ascending. */
    method SearchSharded(query: Vector, k: nat, ghost s: Store)
      returns (result: seq<(bytes, int)>, ghost selected: seq<Candidate>)
      requires Valid() && Mirrors(s) && QueryOk(s, query)
      ensures IsTopK(selected, Join(DistanceParts(s, query)), k) && Matches(s, query, selected, result)
      ensures Numbers(result) == Smallest(Join(DistanceParts(s, query)), k)
    {
      var chosen := SelectSharded(query, k, s);
      AllStored(chosen, s, query, k);
      result := KeysOf(chosen, query, s);
      selected := chosen;
      assert Numbers(result) == Costs(chosen);
    }

    method KeysOf(chosen: seq<Candidate>, query: Vector, ghost s: Store) returns (result: seq<(bytes, int)>)
      requires Valid() && Mirrors(s) && QueryOk(s, query)
      requires Distinct(chosen) && forall c :: c in chosen ==> Stored(s, query, c)
      ensures Matches(s, query, chosen, result)
    {
      result := [];
      for i := 0 to |chosen|
        invariant Matches(s, query, chosen[..i], result)
      {
        var c := chosen[i];
        assert c in chosen && chosen[..i + 1] == chosen[..i] + [c];
        result := result + [(shards[c.shard].keys[c.local], c.cost)];
      }
      assert chosen[..|chosen|] == chosen;
    }
  }

  /** The rows of a plain shard are those of a store's shard. */
  ghost predicate SameRows(keys: seq<bytes>, vectors: seq<Vector>, floats: seq<seq<F32>>, shard: Shard, dim: nat) {
    && keys == shard.keys && vectors == shard.vectors && |floats| == |shard.floats|
    && forall j :: 0 <= j < |floats| ==> Fit(floats[j], dim) == shard.floats[j]
  }

  lemma AllStored(chosen: seq<Candidate>, s: Store, query: Vector, k: nat)
    requires QueryOk(s, query) && IsTopK(chosen, Join(DistanceParts(s, query)), k)
    ensures Distinct(chosen) && forall c :: c in chosen ==> Stored(s, query, c)
  {
    var parts := DistanceParts(s, query);
    var rest :| Selects(chosen, rest, Join(parts), k);
    JoinDistinct(parts);
    SelectedDistinct(chosen, rest, Join(parts), k);
    forall c | c in chosen
      ensures Stored(s, query, c)
    {
      ChosenFrom(chosen, rest, Join(parts), k, c);
      var i := InJoin(parts, c);
    }
  }
}
