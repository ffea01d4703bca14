/** When pruned search is exact, as a condition on sizes alone: k must exceed everything before the last block.
    For every smaller k there are contents on which every search fails. */
module SearchLimits {
  import opened Bytes
  import opened Counting
  import opened Bits
  import opened TopK
  import opened VectorIndex
  import opened VectorStore
  import opened Quantizer
  import opened Pruning
  import opened Search
  import opened Instances

  // ---------- Misleading contents ----------

  function Signs(dim: nat, positive: nat -> bool): (r: seq<F32>)
    ensures |r| == dim
  {
    seq(dim, p requires 0 <= p < dim => if positive(p) then Finite(1.0) else Finite(-1.0))
  }

  function Far(): nat -> bool {
    p => true
  }

  function Near(): nat -> bool {
    p => p == 0
  }

  function Exact(): nat -> bool {
    p => false
  }

  /** Slot j of a misleading shard of n vectors, by signs: vectors one bit off the query, then at the start of
      the last block the query itself, then its opposite. */
  function Misleading(n: nat, j: nat): nat -> bool {
    if j < BeforeLast(n) then Near() else if j == BeforeLast(n) then Exact() else Far()
  }

  /** The query all contents are misleading for. */
  function Query(dim: nat): Vector {
    Quantize(Signs(dim, Exact()), dim)
  }

  function VectorOf(dim: nat, positive: nat -> bool): Vector {
    Quantize(Signs(dim, positive), dim)
  }

  lemma VectorBit(dim: nat, positive: nat -> bool, p: nat)
    requires dim % 64 == 0
    ensures Bit(VectorOf(dim, positive), p) == (p < dim && positive(p))
  {
    QuantizedBit(Signs(dim, positive), dim, p);
  }

  lemma {:induction false} CountNone(n: nat, f: nat -> bool)
    requires forall p: nat :: p < n ==> !f(p)
    ensures Count(n, f) == 0
  {
    if n > 0 {
      CountNone(n - 1, f);
    }
  }

  /** The distance of such a vector is the number of its positive signs. */
  lemma DistanceIsPositives(dim: nat, positive: nat -> bool)
    requires dim % 64 == 0
    ensures Hamming(VectorOf(dim, positive), Query(dim), dim / 64) == Count(dim, positive)
  {
    var a, b := VectorOf(dim, positive), Query(dim);
    var differ := (p: nat) => Bit(a, p) != Bit(b, p);
    HammingCountsBits(a, b, dim / 64, differ);
    forall p: nat | p < dim
      ensures differ(p) == positive(p)
    {
      VectorBit(dim, positive, p);
      VectorBit(dim, Exact(), p);
    }
    CountSame(dim, differ, positive);
    assert 64 * (dim / 64) == dim;
  }

  lemma Distances3(dim: nat)
    requires dim % 64 == 0 && dim > 0
    ensures Hamming(VectorOf(dim, Near()), Query(dim), dim / 64) == 1
    ensures Hamming(VectorOf(dim, Exact()), Query(dim), dim / 64) == 0
    ensures Hamming(VectorOf(dim, Far()), Query(dim), dim / 64) == dim
  {
    DistanceIsPositives(dim, Near());
    CountFirst(dim, Near());
    DistanceIsPositives(dim, Exact());
    CountNone(dim, Exact());
    DistanceIsPositives(dim, Far());
    CountAll(dim, Far());
  }

  /** A shard of n vectors with the misleading contents. */
  ghost predicate IsMisleading(shard: Shard, dim: nat, n: nat) {
    && ShardOk(shard, dim) && |shard.vectors| == n
    && forall j: nat :: j < n ==> shard.vectors[j] == VectorOf(dim, Misleading(n, j))
  }

  // ---------- Its block scores ----------

  /** Blocks before the last score 2: twice the distance of their members. */
  lemma EarlyScore(shard: Shard, dim: nat, n: nat, b: nat)
    requires IsMisleading(shard, dim, n) && dim > 0 && dim % 64 == 0 && (b + 1) * BLOCK_SIZE <= BeforeLast(n)
    ensures b < |shard.blocks| && Score(Query(dim), shard.blocks[b], dim / 64) == 2
  {
    var near, query, from := VectorOf(dim, Near()), Query(dim), b * BLOCK_SIZE;
    var copies := shard.vectors[from..from + BLOCK_SIZE];
    assert BlockEnd(b, n) == from + BLOCK_SIZE;
    assert shard.blocks[b] == Signature(copies, dim / 64, from);
    forall i | 0 <= i < |copies|
      ensures copies[i] == near
    {
      assert copies[i] == shard.vectors[from + i] && from + i < BeforeLast(n);
    }
    CopiesScore(copies, near, from, query, (p: nat) => Bit(near, p) != Bit(query, p));
    Distances3(dim);
  }

  lemma {:induction false} TallyAfterFirst(vs: seq<Vector>, p: nat)
    requires vs != [] && !Bit(vs[0], p) && forall i :: 0 < i < |vs| ==> Bit(vs[i], p)
    ensures Tally(vs, p) == |vs| - 1
  {
    if |vs| > 1 {
      TallyAfterFirst(vs[..|vs| - 1], p);
    }
  }

  /** The last block, the query and then its opposites, is decided against the query at every position. */
  lemma LastScore(shard: Shard, dim: nat, n: nat)
    requires IsMisleading(shard, dim, n) && dim > 0 && dim % 64 == 0 && n > 0
    ensures |shard.blocks| == BeforeLast(n) / BLOCK_SIZE + 1
    ensures Score(Query(dim), shard.blocks[BeforeLast(n) / BLOCK_SIZE], dim / 64) == 2 * dim
  {
    var query, from, b := Query(dim), BeforeLast(n), BeforeLast(n) / BLOCK_SIZE;
    var vs := shard.vectors[from..n];
    assert BlockCount(n) == b + 1 && BlockEnd(b, n) == n && b * BLOCK_SIZE == from;
    assert shard.blocks[b] == Signature(vs, dim / 64, from);
    LastBlockAgainst(vs, dim, from);
  }

  lemma LastBlockAgainst(vs: seq<Vector>, dim: nat, from: nat)
    requires dim > 0 && dim % 64 == 0 && vs != [] && vs[0] == VectorOf(dim, Exact())
    requires forall i :: 0 < i < |vs| ==> vs[i] == VectorOf(dim, Far())
    ensures Score(Query(dim), Signature(vs, dim / 64, from), dim / 64) == 2 * dim
  {
    var query, all := Query(dim), (p: nat) => true;
    assert 64 * (dim / 64) == dim;
    forall p: nat | p < dim
      ensures Against(Signature(vs, dim / 64, from), query, p) == all(p)
    {
      VectorBit(dim, Exact(), p);
      VectorBit(dim, Far(), p);
      TallyAfterFirst(vs, p);
      SignatureBits(vs, dim / 64, from, p);
    }
    ScoreByPositions(vs, from, query, all);
    CountAll(dim, all);
  }

  // ---------- Its scans ----------

  /** The one dearest block comes last in score order; the others all cost the same. */
  lemma DearestLast(evals: seq<Candidate>, scores: seq<Candidate>, b: nat)
    requires multiset(evals) == multiset(scores) && Ascending(Costs(evals)) && |scores| == b + 1
    requires forall i :: 0 <= i < b ==> scores[i].cost < scores[b].cost && scores[i].local < b
    ensures |evals| == b + 1 && evals[b] == scores[b]
    ensures forall i :: 0 <= i < b ==> evals[i].local < b
  {
    var x := scores[b];
    assert |multiset(evals)| == |multiset(scores)|;
    assert scores == scores[..b] + [x] && multiset(scores)[x] == 1;
    assert x in multiset(evals);
    var m :| 0 <= m < |evals| && evals[m] == x;
    assert Costs(evals)[m] <= Costs(evals)[b];
    assert evals[b] in multiset(scores);
    assert evals == evals[..b] + [x];
    forall i | 0 <= i < b
      ensures evals[i].local < b
    {
      assert evals[i] in multiset(scores);
      assert evals[i] in evals[..b];
    }
  }

  lemma {:induction false} FullGroups(groups: seq<seq<Candidate>>, evals: seq<Candidate>)
    requires forall i :: 0 <= i < |evals| ==> |GroupOf(groups, evals[i])| == BLOCK_SIZE
    ensures |Scanned(groups, evals)| == BLOCK_SIZE * |evals|
  {
    if evals != [] {
      FullGroups(groups, evals[..|evals| - 1]);
    }
  }

  /** Before the last block everything scanned is at distance 1. */
  lemma EarlyCandidates(all: seq<Candidate>, evals: seq<Candidate>, c: Candidate)
    requires forall i :: 0 <= i < |evals| ==> evals[i].local < BeforeLast(|all|) / BLOCK_SIZE
    requires forall i :: 0 <= i < BeforeLast(|all|) ==> all[i].cost == 1
    requires c in Scanned(Groups(all), evals)
    ensures c.cost == 1
  {
    var j := InScanned(Groups(all), evals, c);
    var from := evals[j].local * BLOCK_SIZE;
    assert BlockEnd(evals[j].local, |all|) == from + BLOCK_SIZE <= BeforeLast(|all|);
    assert Groups(all)[evals[j].local] == all[from..from + BLOCK_SIZE];
  }

  /** Candidates and block scores as in a misleading shard. */
  ghost predicate Misled(all: seq<Candidate>, scores: seq<Candidate>) {
    var b := BeforeLast(|all|) / BLOCK_SIZE;
    && |scores| == b + 1 && (forall i :: 0 <= i <= b ==> scores[i].local == i)
    && (forall i :: 0 <= i < b ==> scores[i].cost == 2) && scores[b].cost > 2
    && forall i :: 0 <= i < BeforeLast(|all|) ==> all[i].cost == 1
  }

  lemma EarlyGroup(all: seq<Candidate>, b: nat)
    requires b < BeforeLast(|all|) / BLOCK_SIZE
    ensures b < |Groups(all)| && |Groups(all)[b]| == BLOCK_SIZE
  {
    assert BlockEnd(b, |all|) == b * BLOCK_SIZE + BLOCK_SIZE;
  }

  /** All blocks before the last together hold enough candidates within any positive score. */
  lemma EarlyWithin(all: seq<Candidate>, early: seq<Candidate>, score: int)
    requires score >= 1 && forall i :: 0 <= i < BeforeLast(|all|) ==> all[i].cost == 1
    requires forall i :: 0 <= i < |early| ==> early[i].local < BeforeLast(|all|) / BLOCK_SIZE
    ensures Within(Scanned(Groups(all), early), score) == BLOCK_SIZE * |early|
  {
    var seen := Scanned(Groups(all), early);
    forall i | 0 <= i < |early|
      ensures |GroupOf(Groups(all), early[i])| == BLOCK_SIZE
    {
      EarlyGroup(all, early[i].local);
    }
    FullGroups(Groups(all), early);
    forall c | c in seen
      ensures c.cost <= score
    {
      EarlyCandidates(all, early, c);
    }
    WithinBounds(seen, score);
  }

  /** Such a scan never reaches the last block. */
  lemma NeverLast(evals: seq<Candidate>, stop: nat, all: seq<Candidate>, scores: seq<Candidate>,
                  k: nat)
    requires multiset(evals) == multiset(scores) && Ascending(Costs(evals)) && StopsAt(Groups(all), evals, k, stop)
    requires Misled(all, scores) && k <= BeforeLast(|all|)
    ensures stop < |evals| && forall i :: 0 <= i < stop ==> evals[i].local < BeforeLast(|all|) / BLOCK_SIZE
  {
    var b := BeforeLast(|all|) / BLOCK_SIZE;
    DearestLast(evals, scores, b);
    var early, last := evals[..b], evals[b].cost;
    EarlyWithin(all, early, last);
    WholeBlocks(|all|);
    StopsBefore(Groups(all), evals, k, stop, b);
  }

  lemma WholeBlocks(n: nat)
    ensures BLOCK_SIZE * (BeforeLast(n) / BLOCK_SIZE) == BeforeLast(n)
  {
  }

  /** A scan does not get past a block whose score k candidates already meet. */
  lemma StopsBefore(groups: seq<seq<Candidate>>, evals: seq<Candidate>, k: nat, stop: nat, j: nat)
    requires StopsAt(groups, evals, k, stop) && j < |evals|
    requires Within(Scanned(groups, evals[..j]), evals[j].cost) >= k
    ensures stop <= j
  {
  }

  lemma KeepsWorse(scan: Scan, all: seq<Candidate>, scores: seq<Candidate>, k: nat)
    requires IsScan(scan, Groups(all), scores, k) && Misled(all, scores) && 1 <= k <= BeforeLast(|all|)
    ensures |scan.kept| == k && forall c :: c in scan.kept ==> c.cost == 1
  {
    NeverLast(scan.evals, scan.stop, all, scores, k);
    PruneCertificate(scan, Groups(all), scores, k);
    forall c | c in scan.kept
      ensures c.cost == 1
    {
      ChosenFrom(scan.kept, scan.rest, scan.Seen(Groups(all)), k, c);
      EarlyCandidates(all, scan.evals[..scan.stop], c);
    }
  }

  lemma MisleadingCandidates(shard: Shard, dim: nat, n: nat, s: nat)
    requires IsMisleading(shard, dim, n) && dim > 0 && dim % 64 == 0 && n > 0
    ensures var all := Distances(shard, dim, s, Query(dim));
            && |all| == n && Misled(all, Scores(shard, dim, s, Query(dim))) && all[BeforeLast(n)].cost == 0
  {
    Distances3(dim);
    LastScore(shard, dim, n);
    forall b: nat | b < BeforeLast(n) / BLOCK_SIZE
      ensures Score(Query(dim), shard.blocks[b], dim / 64) == 2
    {
      EarlyScore(shard, dim, n, b);
    }
  }

  /** For every number of vectors and every k that does not exceed what precedes the last block: every scan of
      the misleading shard keeps k vectors at distance 1 although the query itself is stored. */
  lemma PruningMisses(shard: Shard, dim: nat, n: nat, s: nat, k: nat, scan: Scan)
    requires IsMisleading(shard, dim, n) && dim > 0 && dim % 64 == 0 && 1 <= k <= BeforeLast(n)
    requires ScansShard(scan, shard, dim, s, Query(dim), k)
    ensures |scan.kept| == k && (forall c :: c in scan.kept ==> c.cost == 1)
    ensures Distances(shard, dim, s, Query(dim))[BeforeLast(n)].cost == 0
  {
    MisleadingCandidates(shard, dim, n, s);
    KeepsWorse(scan, Distances(shard, dim, s, Query(dim)), Scores(shard, dim, s, Query(dim)), k);
  }

  // ---------- The exact condition for one shard ----------

  function MisleadingShard(dim: nat, n: nat): Shard {
    var vectors := seq(n, j requires 0 <= j < n => VectorOf(dim, Misleading(n, j)));
    var floats := seq(n, j requires 0 <= j < n => Signs(dim, Misleading(n, j)));
    Shard(seq(n, _ => []), vectors, floats, Blocks(vectors, dim / 64))
  }

  /** Every scan for k of every shard of n vectors, whatever they are and whatever is asked, is a top k. */
  ghost predicate ScansExactly(dim: nat, n: nat, k: nat) {
    forall shard: Shard, s: nat, query: Vector, scan: Scan ::
      Ready(shard, dim, query) && |shard.vectors| == n && ScansShard(scan, shard, dim, s, query, k) ==>
        IsTopK(scan.kept, Distances(shard, dim, s, query), k)
  }

  /** A selection of dear candidates is no top k when a cheap one is there. */
  lemma NotTopK(kept: seq<Candidate>, all: seq<Candidate>, k: nat, j: nat)
    requires j < |all| && kept != [] && forall c :: c in kept ==> c.cost > all[j].cost
    ensures !IsTopK(kept, all, k)
  {
    forall rest: seq<Candidate> | multiset(kept) + multiset(rest) == multiset(all)
      ensures all[j] in rest
    {
      assert all[j] in multiset(kept) + multiset(rest);
    }
    assert kept[0] in kept;
  }

  /** k exceeds the 128s before the last, perhaps partial, 128 of n. */
  predicate PastLast(k: nat, n: nat) {
    n == 0 || k > 128 * ((n - 1) / 128)
  }

  lemma PastLastIs(k: nat, n: nat)
    requires k >= 1
    ensures PastLast(k, n) <==> k > BeforeLast(n)
  {
  }

  /** The pruned scan of shards of n vectors is exact if and only if k exceeds what precedes the last block. */
  lemma ScansExactlyIff(dim: nat, n: nat, k: nat)
    requires dim > 0 && dim % 64 == 0 && k >= 1
    ensures ScansExactly(dim, n, k) <==> PastLast(k, n)
  {
    PastLastIs(k, n);
    if k > BeforeLast(n) {
      forall shard: Shard, s: nat, query: Vector, scan: Scan |
        Ready(shard, dim, query) && |shard.vectors| == n && ScansShard(scan, shard, dim, s, query, k)
        ensures IsTopK(scan.kept, Distances(shard, dim, s, query), k)
      {
        NothingToSkip(scan, shard, dim, s, query, k);
      }
    } else {
      var shard := MisleadingShard(dim, n);
      var scan := ScanExists(shard, dim, 0, Query(dim), k);
      PruningMisses(shard, dim, n, 0, k, scan);
      NotTopK(scan.kept, Distances(shard, dim, 0, Query(dim)), k, BeforeLast(n));
    }
  }

  // ---------- The exact condition for a store ----------

  /** Every search for k in every store of n vectors in S shards that adds can produce finds the nearest. */
  ghost predicate SearchesExactly(dim: nat, shards: nat, n: nat, k: nat) {
    forall s: Store, query: Vector, run: SearchRun ::
      Reached(s, dim, shards, n) && QueryOk(s, query) && IsSearch(run, s, query, k) ==> FindsNearest(run, s, query, k)
  }

  /** The largest shard misleading, all others one bit off the query. */
  function MisleadingFill(dim: nat, size: nat): Filling {
    (i: nat, j: nat) => Signs(dim, if i == 0 then Misleading(size, j) else Near())
  }

  lemma MisleadingStore(dim: nat, shards: nat, n: nat) returns (s: Store)
    requires dim > 0 && dim % 64 == 0 && shards > 0
    ensures Reached(s, dim, shards, n) && QueryOk(s, Query(dim))
    ensures IsMisleading(s.shards[0], dim, Share(n, shards, 0))
    ensures forall i: nat, j: nat :: 0 < i < shards && j < |s.shards[i].vectors| ==>
              s.shards[i].vectors[j] == VectorOf(dim, Near())
  {
    var fill := MisleadingFill(dim, Share(n, shards, 0));
    s := StoreOf(dim, shards, n, fill);
    forall i: nat | i < shards
      ensures FilledShard(s.shards[i], dim, Share(n, shards, i), i, fill)
    {
    }
  }

  /** In such a store every search keeps only vectors at distance 1. */
  lemma StoreMisses(s: Store, dim: nat, shards: nat, n: nat, k: nat, run: SearchRun, c: Candidate)
    requires dim > 0 && dim % 64 == 0 && 1 <= k <= BeforeLast(n) && s.dim == dim && |s.shards| == shards > 0
    requires QueryOk(s, Query(dim)) && IsSearch(run, s, Query(dim), k) && IsMisleading(s.shards[0], dim, n)
    requires forall i: nat, j: nat :: 0 < i < shards && j < |s.shards[i].vectors| ==>
               s.shards[i].vectors[j] == VectorOf(dim, Near())
    requires c in run.chosen
    ensures c.cost == 1
  {
    ChosenFrom(run.chosen, run.rest, Join(Kepts(run.scans)), k, c);
    var i := InJoin(Kepts(run.scans), c);
    if i == 0 {
      PruningMisses(s.shards[0], dim, n, 0, k, run.scans[0]);
    } else {
      KeptIsStored(run.scans[i], s, i, Query(dim), k, c);
      Distances3(dim);
    }
  }

  lemma FailsOn(s: Store, dim: nat, shards: nat, n: nat, k: nat, run: SearchRun)
    requires dim > 0 && dim % 64 == 0 && shards > 0 && 1 <= k <= BeforeLast(Share(n, shards, 0))
    requires s.dim == dim && |s.shards| == shards && QueryOk(s, Query(dim)) && IsSearch(run, s, Query(dim), k)
    requires IsMisleading(s.shards[0], dim, Share(n, shards, 0))
    requires forall i: nat, j: nat :: 0 < i < shards && j < |s.shards[i].vectors| ==>
               s.shards[i].vectors[j] == VectorOf(dim, Near())
    ensures !FindsNearest(run, s, Query(dim), k)
  {
    var size, parts := Share(n, shards, 0), DistanceParts(s, Query(dim));
    MisleadingCandidates(s.shards[0], dim, size, 0);
    var exact := parts[0][BeforeLast(size)];
    JoinHas(parts, 0, exact);
    forall c | c in run.chosen
      ensures c.cost > exact.cost
    {
      StoreMisses(s, dim, shards, size, k, run, c);
    }
    NotSmallest(run.chosen, Join(parts), k, exact);
  }

  lemma BeforeLastGrows(a: nat, b: nat)
    requires a <= b
    ensures BeforeLast(a) <= BeforeLast(b)
  {
  }

  lemma ReachedIsCovered(s: Store, dim: nat, shards: nat, n: nat, k: nat)
    requires shards > 0 && Reached(s, dim, shards, n) && k > BeforeLast(Share(n, shards, 0))
    ensures Covers(s, k)
  {
    ReachedSizes(s, dim, shards, n);
    forall i | 0 <= i < shards
      ensures k > BeforeLast(|s.shards[i].vectors|)
    {
      BeforeLastGrows(|s.shards[i].vectors|, Share(n, shards, 0));
    }
  }

  lemma ReachedIsExact(s: Store, query: Vector, run: SearchRun, dim: nat, shards: nat, n: nat,
                       k: nat)
    requires shards > 0 && Reached(s, dim, shards, n) && k > BeforeLast(Share(n, shards, 0))
    requires QueryOk(s, query) && IsSearch(run, s, query, k)
    ensures FindsNearest(run, s, query, k)
  {
    ReachedIsCovered(s, dim, shards, n, k);
    CoveredIsExact(run, s, query, k);
  }

  lemma EnoughIsExact(dim: nat, shards: nat, n: nat, k: nat)
    requires shards > 0 && k > BeforeLast(Share(n, shards, 0))
    ensures SearchesExactly(dim, shards, n, k)
  {
    forall s: Store, query: Vector, run: SearchRun |
      Reached(s, dim, shards, n) && QueryOk(s, query) && IsSearch(run, s, query, k)
      ensures FindsNearest(run, s, query, k)
    {
      ReachedIsExact(s, query, run, dim, shards, n, k);
    }
  }

  lemma LessIsNot(dim: nat, shards: nat, n: nat, k: nat)
    requires dim > 0 && dim % 64 == 0 && shards > 0 && 1 <= k <= BeforeLast(Share(n, shards, 0))
    ensures !SearchesExactly(dim, shards, n, k)
  {
    var s := MisleadingStore(dim, shards, n);
    var run := SearchExists(s, Query(dim), k);
    FailsOn(s, dim, shards, n, k, run);
  }

  /** Sharded search over n vectors dealt to S shards is exact if and only if k exceeds what precedes the last
      block of the largest shard. */
  lemma SearchesExactlyIff(dim: nat, shards: nat, n: nat, k: nat)
    requires dim > 0 && dim % 64 == 0 && shards > 0 && k >= 1
    ensures SearchesExactly(dim, shards, n, k) <==> PastLast(k, Share(n, shards, 0))
  {
    PastLastIs(k, Share(n, shards, 0));
    if k > BeforeLast(Share(n, shards, 0)) {
      EnoughIsExact(dim, shards, n, k);
    } else {
      LessIsNot(dim, shards, n, k);
    }
  }

  // ---------- How early a scan stops ----------

  lemma GroupSize(all: seq<Candidate>, block: Candidate)
    ensures |GroupOf(Groups(all), block)| <= 128
  {
  }

  lemma NoneCostly(cs: seq<Candidate>, t: int)
    requires forall c :: c in cs ==> c.cost <= t
    ensures Within(cs, t) == |cs|
  {
    WithinBounds(cs, t);
  }

  lemma GroupFrom(all: seq<Candidate>, block: Candidate, c: Candidate)
    requires c in GroupOf(Groups(all), block)
    ensures c in all
  {
  }

  lemma {:induction false} ScannedFrom(all: seq<Candidate>, evals: seq<Candidate>, c: Candidate)
    requires c in Scanned(Groups(all), evals)
    ensures c in all
  {
    if c in Scanned(Groups(all), evals[..|evals| - 1]) {
      ScannedFrom(all, evals[..|evals| - 1], c);
    } else {
      GroupFrom(all, evals[|evals| - 1], c);
    }
  }

  /** While none of the candidates is dear and fewer than k are within a block's score, fewer than k are seen. */
  lemma FewSeen(all: seq<Candidate>, evals: seq<Candidate>, k: nat, t: int)
    requires (forall c :: c in all ==> c.cost <= 0) && t >= 0 && Within(Scanned(Groups(all), evals), t) < k
    ensures |Scanned(Groups(all), evals)| < k
  {
    forall c | c in Scanned(Groups(all), evals)
      ensures c.cost <= t
    {
      ScannedFrom(all, evals, c);
    }
    NoneCostly(Scanned(Groups(all), evals), t);
  }

  lemma StopsSoon(scan: Scan, all: seq<Candidate>, scores: seq<Candidate>, k: nat)
    requires IsScan(scan, Groups(all), scores, k) && forall c :: c in all ==> c.cost <= 0
    requires forall b :: b in scores ==> b.cost >= 0
    ensures |scan.Seen(Groups(all))| < k + 128
  {
    if scan.stop > 0 {
      var j := scan.stop - 1;
      var block := scan.evals[j];
      assert block in multiset(scores);
      FewSeen(all, scan.evals[..j], k, block.cost);
      ScannedNext(Groups(all), scan.evals, j);
      GroupSize(all, block);
    }
  }

  /** The stopping test is met by equality: among copies of the query a scan for k looks at fewer than k + 128
      vectors, however many there are. */
  lemma ScansFew(scan: Scan, shard: Shard, dim: nat, s: nat, query: Vector, k: nat)
    requires Ready(shard, dim, query) && ScansShard(scan, shard, dim, s, query, k)
    requires forall v :: v in shard.vectors ==> v == query
    ensures |scan.Seen(Groups(Distances(shard, dim, s, query)))| < k + 128
  {
    var all := Distances(shard, dim, s, query);
    forall c | c in all
      ensures c.cost <= 0
    {
      var i :| 0 <= i < |all| && all[i] == c;
      assert shard.vectors[i] in shard.vectors;
      NoDistance(query);
    }
    StopsSoon(scan, all, Scores(shard, dim, s, query), k);
  }

  lemma NoDistance(v: Vector)
    ensures Hamming(v, v, |v|) == 0
  {
    var differ := (p: nat) => Bit(v, p) != Bit(v, p);
    HammingCountsBits(v, v, |v|, differ);
    CountNone(64 * |v|, differ);
  }
}
