/** The vector store as it runs: shards with flat arrays updated in place, the incremental block
    rebuild, and the search loops over bounded heaps. */
module VectorEngine {
  import opened Bytes
  import opened Bits
  import opened TopK
  import opened VectorIndex
  import opened VectorStore
  import opened Pruning
  import opened Search
  import opened FlatLayout

  lemma SliceNext<T>(s: seq<T>, from: nat, i: nat)
    requires from <= i < |s|
    ensures s[from..i + 1] == s[from..i] + [s[i]]
  {
  }

  // ---------- One shard ----------

  class CoreShard {
    var keys: seq<bytes>
    var data: seq<Word>
    var floatData: seq<F32>
    var blocks: seq<Block>
    ghost var vectors: seq<Vector>
    ghost var floats: seq<seq<F32>>

    ghost predicate Valid(dim: nat)
      reads this
    {
      ShardOk(Value(), dim) && data == Flat(vectors) && floatData == Flat(floats)
    }

    ghost function Value(): Shard
      reads this
    {
      Shard(keys, vectors, floats, blocks)
    }

    constructor ()
      ensures Value() == EMPTY_SHARD && data == [] && floatData == []
    {
      keys, data, floatData, blocks := [], [], [], [];
      vectors, floats := [], [];
    }

    /** The vector-by-vector, bit-by-bit tally of one word column. */
    static method TallyColumn(data: seq<Word>, lo: nat, hi: nat, nb: nat, j: nat, ghost vs: seq<Vector>)
      returns (counts: array<nat>)
      requires lo <= hi <= |vs| && j < nb && Uniform(vs, nb) && data == Flat(vs)
      ensures fresh(counts) && counts.Length == 64
      ensures forall b: nat :: b < 64 ==> counts[b] == Tally(vs[lo..hi], 64 * j + b)
    {
      counts := new nat[64](_ => 0);
      for v := lo to hi
        invariant forall b: nat :: b < 64 ==> counts[b] == Tally(vs[lo..v], 64 * j + b)
      {
        FlatRow(vs, nb, v);
        var word := data[v * nb + j];
        assert word == Flat(vs)[v * nb..v * nb + nb][j] == vs[v][j];
        CountWord(counts, word);
        forall b: nat | b < 64
          ensures Tally(vs[lo..v + 1], 64 * j + b) == Tally(vs[lo..v], 64 * j + b) + (if word[b] then 1 else 0)
        {
          assert vs[lo..v + 1][..v - lo] == vs[lo..v];
          BitOfWord(vs[v], j, b);
        }
      }
    }

    static method CountWord(counts: array<nat>, word: Word)
      requires counts.Length == 64
      modifies counts
      ensures forall b: nat :: b < 64 ==> counts[b] == old(counts[b]) + (if word[b] then 1 else 0)
    {
      for b := 0 to 64
        invariant forall i: nat :: i < b ==> counts[i] == old(counts[i]) + (if word[i] then 1 else 0)
        invariant forall i: nat :: b <= i < 64 ==> counts[i] == old(counts[i])
      {
        if word[b] {
          counts[b] := counts[b] + 1;
        }
      }
    }

    /** The threshold loop: high first, low only when not high. */
    static method Classify(counts: array<nat>, highThreshold: nat, lowThreshold: nat) returns (sh: Word, sl: Word)
      requires counts.Length == 64
      ensures forall b: nat :: b < 64 ==> sh[b] == (counts[b] >= highThreshold)
      ensures forall b: nat :: b < 64 ==> sl[b] == (counts[b] < highThreshold && counts[b] <= lowThreshold)
    {
      sh, sl := ZERO, ZERO;
      for b := 0 to 64
        invariant forall i: nat :: i < 64 ==> sh[i] == (i < b && counts[i] >= highThreshold)
        invariant forall i: nat :: i < 64 ==>
                    sl[i] == (i < b && counts[i] < highThreshold && counts[i] <= lowThreshold)
      {
        if counts[b] >= highThreshold {
          sh := sh[b := true];
        } else if counts[b] <= lowThreshold {
          sl := sl[b := true];
        }
      }
    }

    /** One word column of the signature and how many of its bits stay open. */
    method ClassifyColumn(lo: nat, hi: nat, nb: nat, j: nat, ghost want: Block) returns (sh: Word, sl: Word, free: nat)
      requires lo <= hi <= |vectors| && j < nb && Uniform(vectors, nb) && data == Flat(vectors)
      requires want == Signature(vectors[lo..hi], nb, lo)
      ensures |want.high| == |want.low| == nb && sh == want.high[j] && sl == want.low[j]
      ensures FreeBits(want.high, want.low, j + 1) == FreeBits(want.high, want.low, j) + free
    {
      var w := hi - lo;
      var counts := TallyColumn(data, lo, hi, nb, j, vectors);
      sh, sl := Classify(counts, w * 7 / 10, w * 3 / 10);
      assert sh == HighWord(vectors[lo..hi], j) && sl == LowWord(vectors[lo..hi], j);
      free := Popcount(Not(Or(sh, sl)));
    }

    /** `compute_signature` over the flat data is the signature of the vectors lo..hi. */
    method ComputeSignature(lo: nat, hi: nat, nb: nat) returns (sig: Block)
      requires lo <= hi <= |vectors| && Uniform(vectors, nb) && data == Flat(vectors)
      ensures sig == Signature(vectors[lo..hi], nb, lo)
    {
      ghost var want := Signature(vectors[lo..hi], nb, lo);
      var high: seq<Word>, low: seq<Word>, superpositions := [], [], 0;
      for j := 0 to nb
        invariant high == want.high[0..j] && low == want.low[0..j]
        invariant superpositions == FreeBits(want.high, want.low, j)
      {
        var sh, sl, free := ClassifyColumn(lo, hi, nb, j, want);
        SliceNext(want.high, 0, j);
        SliceNext(want.low, 0, j);
        high, low := high + [sh], low + [sl];
        superpositions := superpositions + free;
      }
      assert want.high[0..nb] == want.high && want.low[0..nb] == want.low;
      sig := Block(high, low, superpositions, lo, hi);
    }

    /** `rebuild_blocks`: refresh the last block when the count is right, else push the missing ones. */
    method RebuildBlocks(nb: nat)
      requires |keys| == |vectors| && Uniform(vectors, nb) && data == Flat(vectors)
      requires blocks != [] ==> blocks[|blocks| - 1].start <= |vectors|
      modifies this`blocks
      ensures blocks == Rebuild(old(blocks), vectors, nb)
    {
      var n := |keys|;
      var expected := n / BLOCK_SIZE;
      if n % BLOCK_SIZE != 0 {
        expected := expected + 1;
      }
      if |blocks| == expected && blocks != [] {
        var last := blocks[|blocks| - 1];
        if last.end != n {
          var sig := ComputeSignature(last.start, n, nb);
          assert vectors[last.start..n] == vectors[last.start..];
          blocks := blocks[..|blocks| - 1] + [sig];
        }
        return;
      }
      PushBlocks(n, expected, nb);
    }

    method PushBlocks(n: nat, expected: nat, nb: nat)
      requires n == |vectors| && expected == BlockCount(n) && Uniform(vectors, nb) && data == Flat(vectors)
      modifies this`blocks
      ensures blocks == old(blocks) + NewBlocks(|old(blocks)|, vectors, nb)
    {
      var first := |blocks|;
      ghost var missing := NewBlocks(first, vectors, nb);
      var b := first;
      while b < expected
        invariant first <= b && (b <= expected || b == first)
        invariant blocks == old(blocks) + missing[..b - first]
      {
        var sig := ComputeSignature(b * BLOCK_SIZE, BlockEnd(b, n), nb);
        assert sig == BlockAt(vectors, nb, b) == missing[b - first];
        blocks := blocks + [sig];
        b := b + 1;
      }
      assert missing[..b - first] == missing;
    }

    /** What `add` does under the shard's write lock. */
    method Append(dim: nat, key: bytes, vector: Vector, floatVector: seq<F32>)
      requires Valid(dim) && |vector| == dim / 64
      modifies this
      ensures Valid(dim)
      ensures Value() == VectorStore.Insert(old(Value()), dim, key, vector, floatVector)
    {
      InsertKeepsOk(Value(), dim, key, vector, floatVector);
      FlatAppend(vectors, vector);
      FlatAppend(floats, Fit(floatVector, dim));
      keys := keys + [key];
      data := data + vector;
      floatData := floatData + Fit(floatVector, dim);
      vectors := vectors + [vector];
      floats := floats + [Fit(floatVector, dim)];
      RebuildBlocks(dim / 64);
    }

    method Clear(dim: nat)
      modifies this
      ensures Valid(dim) && Value() == EMPTY_SHARD
    {
      keys, data, floatData, blocks := [], [], [], [];
      vectors, floats := [], [];
    }

    // ---------- Scanning the shard ----------

    /** XOR/popcount distance of stored vector i, read from the flat data. */
    method DistanceTo(i: nat, query: Vector, nb: nat) returns (dist: nat)
      requires i < |vectors| && Uniform(vectors, nb) && data == Flat(vectors) && |query| == nb
      ensures dist == Hamming(vectors[i], query, nb)
    {
      FlatRow(vectors, nb, i);
      var candidate := data[i * nb..i * nb + nb];
      dist := 0;
      for j := 0 to nb
        invariant dist == Hamming(vectors[i], query, j)
      {
        dist := dist + Popcount(Xor(candidate[j], query[j]));
      }
    }

    /** The score of one block, with the saturating subtraction at the end. */
    static method ScoreBlock(block: Block, query: Vector, queryLow: Vector, nb: nat) returns (score: nat)
      requires |query| == nb && queryLow == Complement(query) && nb <= |block.high| && nb <= |block.low|
      ensures score == Score(query, block, nb)
    {
      var raw := 0;
      for j := 0 to nb
        invariant raw == RawScore(query, queryLow, block, j)
      {
        raw := raw + Popcount(Xor(query[j], block.high[j]));
        raw := raw + Popcount(Xor(queryLow[j], block.low[j]));
      }
      score := if raw >= block.superpositions then raw - block.superpositions else 0;
    }

    method ScoreBlocks(dim: nat, s: nat, query: Vector) returns (evals: seq<Candidate>)
      requires Valid(dim) && |query| == dim / 64
      ensures evals == Scores(Value(), dim, s, query)
    {
      var queryLow := Complement(query);
      evals := [];
      for b := 0 to |blocks|
        invariant evals == Scores(Value(), dim, s, query)[..b]
      {
        var score := ScoreBlock(blocks[b], query, queryLow, dim / 64);
        evals := evals + [Candidate(score, s, b)];
      }
    }

    /** The members of block b with their distances. */
    method MeasureBlock(b: nat, dim: nat, s: nat, query: Vector) returns (group: seq<Candidate>)
      requires Valid(dim) && |query| == dim / 64 && b < |blocks|
      ensures group == Groups(Distances(Value(), dim, s, query))[b]
    {
      assert blocks[b] == BlockAt(vectors, dim / 64, b);
      var from, to := blocks[b].start, blocks[b].end;
      ghost var all := Distances(Value(), dim, s, query);
      group := [];
      for i := from to to
        invariant group == all[from..i]
      {
        var dist := DistanceTo(i, query, dim / 64);
        SliceNext(all, from, i);
        group := group + [Candidate(dist, s, i)];
      }
    }

    /** The pruning test: the heap is full and its worst is no worse than the score. */
    static method FullWithin(heap: BinaryHeap, score: int, k: nat, ghost rest: seq<Candidate>,
                             ghost seen: seq<Candidate>) returns (full: bool)
      requires k >= 1 && Selects(heap.items, rest, seen, k)
      ensures full <==> Within(seen, score) >= k
    {
      StopTest(heap.items, rest, seen, k, score);
      full := false;
      if |heap.items| >= k {
        var top := heap.Peek();
        full := score >= top.cost;
      }
    }

    /** Scans blocks in the order of `evals` until the heap is full of candidates at least as cheap as
        the next block's score. */
    method ScanBlocks(heap: BinaryHeap, evals: seq<Candidate>, dim: nat, s: nat, query: Vector, k: nat,
                      ghost groups: seq<seq<Candidate>>) returns (ghost stop: nat, ghost rest: seq<Candidate>)
      requires Valid(dim) && |query| == dim / 64 && (k >= 1 || evals == [])
      requires groups == Groups(Distances(Value(), dim, s, query))
      requires heap.items == [] && forall n :: 0 <= n < |evals| ==> evals[n].local < |blocks|
      modifies heap
      ensures StopsAt(groups, evals, k, stop) && Selects(heap.items, rest, Scanned(groups, evals[..stop]), k)
    {
      rest := [];
      ghost var seen: seq<Candidate> := [];
      var n := 0;
      while n < |evals|
        invariant n <= |evals| && seen == Scanned(groups, evals[..n])
        invariant Selects(heap.items, rest, seen, k)
        invariant RunsThrough(groups, evals, k, n)
      {
        var full := FullWithin(heap, evals[n].cost, k, rest, seen);
        if full {
          break;
        }
        var group := MeasureBlock(evals[n].local, dim, s, query);
        rest := heap.OfferAll(group, k, rest, seen);
        RunsOn(groups, evals, k, n);
        ScannedNext(groups, evals, n);
        seen := seen + group;
        n := n + 1;
      }
      stop := n;
    }

    /** The pruned scan both searches start with: blocks in score order, cut off by the heap's worst. */
    method ScanPruned(dim: nat, s: nat, query: Vector, k: nat) returns (kept: seq<Candidate>, ghost scan: Scan)
      requires Valid(dim) && |query| == dim / 64 && (k >= 1 || blocks == [])
      ensures ScansShard(scan, Value(), dim, s, query, k) && kept == scan.kept
      ensures exists run :: ScansShard(run, Value(), dim, s, query, k) && run.kept == kept
    {
      ghost var groups := Groups(Distances(Value(), dim, s, query));
      var scores := ScoreBlocks(dim, s, query);
      var evals := SortByCost(scores);
      forall n | 0 <= n < |evals|
        ensures evals[n].local < |blocks|
      {
        assert evals[n] in multiset(scores);
      }
      assert |evals| == |multiset(evals)| == |multiset(scores)| == |scores|;
      var heap := new BinaryHeap();
      ghost var stop, rest := ScanBlocks(heap, evals, dim, s, query, k, groups);
      kept := heap.items;
      scan := Scan(evals, stop, kept, rest);
    }

    method FloatRow(dim: nat, i: nat) returns (row: seq<F32>)
      requires Valid(dim) && i < |floats|
      ensures row == floats[i]
    {
      FlatRow(floats, dim, i);
      row := floatData[i * dim..i * dim + dim];
    }

    /** Float rerank of one shard's coarse candidates, read from the flat float data. */
    method Rerank(dim: nat, i: nat, kept: seq<Candidate>, query: seq<F32>, k: nat, scoring: Scoring)
      returns (best: seq<Candidate>, ghost loser: seq<Candidate>)
      requires Valid(dim) && k >= 1 && forall c :: c in kept ==> c.local < |vectors|
      ensures Selects(best, loser, Map(Rescored(scoring, Value(), i, query), kept), k)
    {
      var scored: seq<Candidate> := [];
      ghost var want := Map(Rescored(scoring, Value(), i, query), kept);
      for n := 0 to |kept|
        invariant scored == want[..n]
      {
        assert kept[n] in kept;
        var local := kept[n].local;
        var row := FloatRow(dim, local);
        scored := scored + [Candidate(-scoring.score(query, row), i, local)];
      }
      assert want[..|kept|] == want;
      var heap := new BinaryHeap();
      loser := heap.OfferAll(scored, k, [], []);
      best := heap.items;
      assert [] + scored == scored;
    }
  }

  // ---------- The store ----------

  class SharedVectorStore {
    const dim: nat
    var shards: seq<CoreShard>
    var writeCounter: nat

    ghost var state: Store  // what is stored, as a value

    ghost predicate Valid()
      reads this, shards
    {
      && StoreOk(state) && state.dim == dim && state.counter == writeCounter && |state.shards| == |shards|
      && (forall i, j :: 0 <= i < j < |shards| ==> shards[i] != shards[j])
      && (forall i :: 0 <= i < |shards| ==> shards[i].Valid(dim) && shards[i].Value() == state.shards[i])
    }

    /** At least four shards, one per CPU otherwise. */
    constructor (dim: nat, cpus: nat)
      requires dim % 64 == 0
      ensures Valid() && state == New(dim, if cpus > 4 then cpus else 4)
    {
      this.dim := dim;
      this.shards := [];
      this.writeCounter := 0;
      var n := if cpus > 4 then cpus else 4;
      this.state := New(dim, n);
      new;
      for i := 0 to n
        invariant |shards| == i && writeCounter == 0 && state == New(dim, n)
        invariant forall j :: 0 <= j < i ==>
                    fresh(shards[j]) && shards[j].Valid(dim) && shards[j].Value() == EMPTY_SHARD
        invariant forall j, k :: 0 <= j < k < i ==> shards[j] != shards[k]
      {
        var shard := new CoreShard();
        shards := shards + [shard];
      }
    }

    /** Round-robin insertion: claim the next number, append to shard number mod S. */
    method Add(key: bytes, vector: Vector, floatVector: seq<F32>)
      requires Valid() && |vector| == dim / 64
      modifies this`writeCounter, this`state, shards
      ensures Valid() && shards == old(shards)
      ensures state == VectorStore.Add(old(state), key, vector, floatVector)
    {
      var idx := writeCounter;
      writeCounter := writeCounter + 1;
      var at := idx % |shards|;
      AddKeepsOk(state, key, vector, floatVector);
      shards[at].Append(dim, key, vector, floatVector);
      state := VectorStore.Add(state, key, vector, floatVector);
    }

    method Len() returns (total: nat)
      requires Valid()
      ensures total == TotalVectors(state.shards)
    {
      total := 0;
      ghost var all := state.shards;
      for i := 0 to |shards|
        invariant total == TotalVectors(all[..i])
      {
        total := total + |shards[i].keys|;
        assert all[..i + 1][..i] == all[..i];
      }
      assert all[..|all|] == all;
    }

    method Clear()
      requires Valid()
      modifies this`writeCounter, this`state, shards
      ensures Valid() && shards == old(shards)
      ensures state == VectorStore.Clear(old(state))
    {
      for i := 0 to |shards|
        invariant shards == old(shards) && state == old(state)
        invariant forall j :: 0 <= j < i ==> shards[j].Valid(dim) && shards[j].Value() == EMPTY_SHARD
      {
        shards[i].Clear(dim);
      }
      writeCounter := 0;
      ClearKeepsOk(state);
      state := VectorStore.Clear(state);
    }

    /** The merge both searches end with: a bounded heap over all shards' answers, then a sort. */
    static method Merge(parts: seq<seq<Candidate>>, k: nat) returns (chosen: seq<Candidate>, ghost rest: seq<Candidate>)
      ensures Selects(chosen, rest, Join(parts), k) && Ascending(Costs(chosen))
    {
      var merged := new BinaryHeap();
      rest := [];
      for i := 0 to |parts|
        invariant Selects(merged.items, rest, Join(parts[..i]), k)
      {
        rest := merged.PushTrimAll(parts[i], k, rest, Join(parts[..i]));
        assert parts[..i + 1][..i] == parts[..i];
      }
      assert parts[..|parts|] == parts;
      chosen := SortByCost(merged.items);
      SameSelection(merged.items, chosen, rest, Join(parts), k);
    }

    /** The pruned scan of every shard. */
    method ScanShards(query: Vector, k: nat) returns (kepts: seq<seq<Candidate>>, ghost scans: seq<Scan>)
      requires Valid() && |query| == dim / 64
      requires k >= 1 || forall i :: 0 <= i < |shards| ==> shards[i].blocks == []
      ensures ScansStore(scans, state, query, k) && kepts == Kepts(scans)
    {
      kepts, scans := [], [];
      for i := 0 to |shards|
        invariant |scans| == i && kepts == Kepts(scans) && ScansFirst(scans, state, query, k)
      {
        var kept;
        ghost var scan;
        kept, scan := shards[i].ScanPruned(dim, i, query, k);
        ScansNext(scans, state, query, k, scan);
        KeptsNext(scans, scan);
        kepts, scans := kepts + [kept], scans + [scan];
      }
    }

    /** Replaces candidates by the keys stored at their places. */
    method KeysOf(chosen: seq<Candidate>, query: Vector) returns (result: seq<(bytes, int)>)
      requires Valid() && |query| == dim / 64
      requires Distinct(chosen) && forall c :: c in chosen ==> Stored(state, query, c)
      ensures Matches(state, query, chosen, result)
    {
      result := [];
      for i := 0 to |chosen|
        invariant Matches(state, query, chosen[..i], result)
      {
        var c := chosen[i];
        assert c in chosen;
        assert chosen[..i + 1] == chosen[..i] + [c];
        result := result + [(shards[c.shard].keys[c.local], c.cost)];
      }
      assert chosen[..|chosen|] == chosen;
    }

    /** Scans and merge of `search`. */
    method SearchCandidates(query: Vector, k: nat) returns (chosen: seq<Candidate>, ghost run: SearchRun)
      requires Valid() && |query| == dim / 64
      requires k >= 1 || forall i :: 0 <= i < |shards| ==> shards[i].blocks == []
      ensures IsSearch(run, state, query, k) && run.chosen == chosen
      ensures Distinct(chosen) && forall c :: c in chosen ==> Stored(state, query, c)
    {
      var kepts;
      ghost var scans, rest;
      kepts, scans := ScanShards(query, k);
      chosen, rest := Merge(kepts, k);
      run := SearchRun(scans, chosen, rest);
      SearchAnswer(scans, state, query, k, chosen, rest);
    }

    /** `search`: pruned scans, merge, keys. The numbers are the k smallest distances of the store when k covers
        it, and whenever the skipped blocks were skipped soundly. */
    method Search(query: Vector, k: nat) returns (result: seq<(bytes, int)>, ghost run: SearchRun)
      requires Valid() && |query| == dim / 64
      requires k >= 1 || forall i :: 0 <= i < |shards| ==> shards[i].blocks == []
      ensures IsSearch(run, state, query, k) && Matches(state, query, run.chosen, result)
      ensures Ascending(Numbers(result)) && |result| == Min(k, TotalVectors(state.shards))
      ensures Covers(state, k) ==> Numbers(result) == Smallest(Join(DistanceParts(state, query)), k)
      ensures AllSound(run.scans, state, query) ==>
                Numbers(result) == Smallest(Join(DistanceParts(state, query)), k)
    {
      var merged;
      merged, run := SearchCandidates(query, k);
      result := KeysOf(merged, query);
      AnswerMeans(run, state, query, k, result);
    }

    /** Reranks every shard's coarse candidates by float score. */
    method RerankShards(kepts: seq<seq<Candidate>>, floats: seq<F32>, k: nat, scoring: Scoring, query: Vector,
                        width: nat, ghost scans: seq<Scan>)
      returns (bests: seq<seq<Candidate>>, ghost losers: seq<seq<Candidate>>)
      requires Valid() && |query| == dim / 64 && k >= 1
      requires ScansStore(scans, state, query, width) && kepts == Kepts(scans)
      ensures Reranks(scans, bests, losers, scoring, state, floats, k)
    {
      bests, losers := [], [];
      for i := 0 to |shards|
        invariant |bests| == i && RerankedFirst(scans, bests, losers, scoring, state, floats, k)
      {
        forall c | c in kepts[i]
          ensures c.local < |shards[i].vectors|
        {
          KeptIsStored(scans[i], state, i, query, width, c);
        }
        var best;
        ghost var loser;
        best, loser := shards[i].Rerank(dim, i, kepts[i], floats, k, scoring);
        RerankedNext(scans, bests, losers, scoring, state, floats, k, best, loser);
        bests, losers := bests + [best], losers + [loser];
      }
    }

    /** Coarse scans, reranks and merge of `search_reranked`. */
    method RerankCandidates(query: Vector, floats: seq<F32>, k: nat, scoring: Scoring, width: nat)
      returns (chosen: seq<Candidate>, ghost run: RerankRun)
      requires Valid() && |query| == dim / 64 && width >= k >= 1
      ensures IsRerank(run, scoring, state, query, floats, k, width) && run.chosen == chosen
    {
      var kepts, bests;
      ghost var scans, losers, rest;
      kepts, scans := ScanShards(query, width);
      bests, losers := RerankShards(kepts, floats, k, scoring, query, width, scans);
      chosen, rest := Merge(MapEach(Rounded(scoring), bests), k);
      run := RerankRun(scans, bests, losers, chosen, rest);
    }

    /** `search_reranked`: coarse scan to a bounded width, float rerank, merge. The scores are the k largest of
        the store when every shard fits the width. */
    method SearchReranked(query: Vector, floats: seq<F32>, k: nat, scoring: Scoring)
      returns (result: seq<(bytes, real)>, ghost run: RerankRun)
      requires Valid() && |query| == dim / 64
      requires k >= 1 || TotalVectors(state.shards) == 0
      ensures OutcomeOf(run, scoring, state, query, floats, k, result)
      ensures MatchesScores(scoring, state, floats, run.chosen, result)
      ensures |result| == Min(k, TotalVectors(state.shards))
      ensures TotalVectors(state.shards) > 0 ==> RightlyPooled(run, state, k)
      ensures Monotone(scoring.lossy) && FitsWidth(state, WidthOf(state, k)) ==>
                Numbers(result) == ShownScores(scoring, Smallest(Join(ScoreParts(scoring, state, floats)), k))
    {
      run := RerankRun([], [], [], [], []);
      var total := Len();
      result := [];
      if total > 0 {
        var final;
        final, run := RerankCandidates(query, floats, k, scoring, RerankWidth(total, |shards|, k));
        RerankAnswer(run.scans, run.bests, run.losers, run.chosen, run.rest, scoring, state, query, floats, k,
                     WidthOf(state, k));
        RerankPool(run, scoring, state, query, floats, k);
        result := ScoredKeys(final, floats, scoring);
      }
      assert OutcomeOf(run, scoring, state, query, floats, k, result);
      ghost var chosen := OutcomeMeans(scoring, state, query, floats, k, result);
    }

    method ScoredKeys(chosen: seq<Candidate>, floats: seq<F32>, scoring: Scoring) returns (result: seq<(bytes, real)>)
      requires Valid() && Distinct(chosen) && forall c :: c in chosen ==> StoredScore(scoring, state, floats, c)
      ensures MatchesScores(scoring, state, floats, chosen, result)
    {
      result := [];
      for i := 0 to |chosen|
        invariant MatchesScores(scoring, state, floats, chosen[..i], result)
      {
        var c := chosen[i];
        assert c in chosen;
        assert chosen[..i + 1] == chosen[..i] + [c];
        result := result + [(shards[c.shard].keys[c.local], scoring.shown(-c.cost))];
      }
      assert chosen[..|chosen|] == chosen;
    }
  }
}
