/** When two-stage search is exact, as a condition on sizes alone: every shard must fit the rerank width. For
    every store size where one does not there are contents whose best vector by dot product is lost. */
module RerankLimits {
  import opened Bytes
  import opened Counting
  import opened Bits
  import opened TopK
  import opened VectorIndex
  import opened VectorStore
  import opened Quantizer
  import opened Pruning
  import opened Search
  import opened Instances
  import opened SearchLimits

  // ---------- Scores that are dot products ----------

  function Product(a: F32, b: F32): real {
    if a.Finite? && b.Finite? then a.value * b.value else 0.0
  }

  /** The exact dot product of the first n components. */
  function Dot(a: seq<F32>, b: seq<F32>, n: nat): real
    requires n <= |a| && n <= |b|
  {
    if n == 0 then 0.0 else Dot(a, b, n - 1) + Product(a[n - 1], b[n - 1])
  }

  predicate AllFinite(v: seq<F32>) {
    forall f :: f in v ==> f.Finite?
  }

  /** Scaled by 10^7 and cast to i32: toward zero and saturating. */
  function CastScore(x: real): int {
    var scaled := Truncated(x * 10000000.0);
    if scaled > I32_MAX then I32_MAX else if scaled < -I32_MAX - 1 then -I32_MAX - 1 else scaled
  }

  const I32_MAX: int := 0x7fff_ffff

  function Truncated(x: real): int {
    if x >= 0.0 then x.Floor else -(-x).Floor
  }

  /** The components that whole groups of eight of both vectors cover. */
  function Lanes(a: seq<F32>, b: seq<F32>): (n: nat)
    ensures n <= |a| && n <= |b|
  {
    8 * Min(|a| / 8, |b| / 8)
  }

  function CodeScore(q: seq<F32>, v: seq<F32>): int {
    CastScore(Dot(q, v, Lanes(q, v)))
  }

  /** On finite vectors the score is the dot product under the code's cast. The trip through f32 keeps order and
      tells one half from one, both of which it represents exactly. */
  ghost predicate ScoresAsCoded(scoring: Scoring) {
    && Monotone(scoring.lossy) && scoring.lossy(HALF) < scoring.lossy(ONE)
    && forall q: seq<F32>, v: seq<F32> :: AllFinite(q) && AllFinite(v) ==> scoring.score(q, v) == CodeScore(q, v)
  }

  /** The scores of 0.5 and 1.0. */
  const HALF: int := 5000000
  const ONE: int := 10000000

  /** The code's scores with nothing lost on the way to the merge. */
  function PlainScoring(): Scoring {
    Scoring(CodeScore, x => x, x => x as real / 10000000.0)
  }

  lemma PlainScoringOk()
    ensures ScoresAsCoded(PlainScoring())
  {
  }

  // ---------- The outlier ----------

  /** The query: positive in the first component, zero elsewhere, so all its sign bits are set. */
  function Probe(dim: nat): seq<F32> {
    seq(dim, p requires 0 <= p < dim => if p == 0 then Finite(0.5) else Finite(0.0))
  }

  function Ones(dim: nat): seq<F32> {
    seq(dim, _ => Finite(1.0))
  }

  /** One large component against many of the wrong sign: twice the dot product of `Ones`, but the only vector at
      a positive distance. All products and sums on the way are exact in f32. */
  function Outlier(dim: nat): seq<F32> {
    seq(dim, p requires 0 <= p < dim => if p == 0 then Finite(2.0) else Finite(-1.0))
  }

  lemma {:induction false} DotOfProbe(dim: nat, n: nat)
    requires n <= dim
    ensures Dot(Probe(dim), Ones(dim), n) == if n == 0 then 0.0 else 0.5
    ensures Dot(Probe(dim), Outlier(dim), n) == if n == 0 then 0.0 else 1.0
  {
    if n > 0 {
      DotOfProbe(dim, n - 1);
      assert Product(Probe(dim)[n - 1], Ones(dim)[n - 1]) == if n == 1 then 0.5 else 0.0;
      assert Product(Probe(dim)[n - 1], Outlier(dim)[n - 1]) == if n == 1 then 1.0 else 0.0;
    }
  }

  lemma AllLanes(a: seq<F32>, b: seq<F32>, dim: nat)
    requires |a| == dim == |b| && dim % 64 == 0
    ensures Lanes(a, b) == dim
  {
    assert dim % 8 == 0;
  }

  lemma CastExact()
    ensures CastScore(0.5) == HALF && CastScore(1.0) == ONE
  {
    assert 0.5 * 10000000.0 == HALF as real && 1.0 * 10000000.0 == ONE as real;
  }

  lemma CodeScores(scoring: Scoring, q: seq<F32>, v: seq<F32>, dim: nat)
    requires ScoresAsCoded(scoring) && AllFinite(q) && AllFinite(v) && |q| == dim == |v| && dim % 64 == 0
    ensures scoring.score(q, v) == CastScore(Dot(q, v, dim))
  {
    AllLanes(q, v, dim);
  }

  /** The outlier scores 10^7 and `Ones` half as much, at every dimension. */
  lemma OutlierScoresMore(scoring: Scoring, dim: nat)
    requires ScoresAsCoded(scoring) && dim > 0 && dim % 64 == 0
    ensures scoring.score(Probe(dim), Ones(dim)) == HALF && scoring.score(Probe(dim), Outlier(dim)) == ONE
  {
    DotOfProbe(dim, dim);
    CastExact();
    CodeScores(scoring, Probe(dim), Ones(dim), dim);
    CodeScores(scoring, Probe(dim), Outlier(dim), dim);
  }

  function VectorFor(dim: nat, outlier: bool): Vector {
    Quantize(if outlier then Outlier(dim) else Ones(dim), dim)
  }

  lemma OutlierBits(dim: nat, p: nat)
    requires dim % 64 == 0 && p < dim
    ensures Bit(VectorFor(dim, false), p) && Bit(VectorFor(dim, true), p) == (p == 0)
  {
    QuantizedBit(Ones(dim), dim, p);
    QuantizedBit(Outlier(dim), dim, p);
  }

  /** The query has the bits of `Ones`. */
  lemma ProbeBits(dim: nat)
    ensures Quantize(Probe(dim), dim) == VectorFor(dim, false)
  {
    var a, b := Quantize(Probe(dim), dim), VectorFor(dim, false);
    forall j: nat | j < dim / 64
      ensures a[j] == b[j]
    {
      forall i: nat | i < 64
        ensures a[j][i] == b[j][i]
      {
        assert 64 * j + i < dim && Sign(Probe(dim), 64 * j + i) && Sign(Ones(dim), 64 * j + i);
      }
    }
  }

  lemma {:induction false} CountSome(n: nat, f: nat -> bool, p: nat)
    requires p < n && f(p)
    ensures Count(n, f) > 0
  {
    if p < n - 1 {
      CountSome(n - 1, f, p);
    }
  }

  lemma OutlierDistances(dim: nat)
    requires dim % 64 == 0 && dim > 0
    ensures Hamming(VectorFor(dim, false), VectorFor(dim, false), dim / 64) == 0
    ensures Hamming(VectorFor(dim, true), VectorFor(dim, false), dim / 64) > 0
  {
    var same := (p: nat) => Sign(Ones(dim), p) != Sign(Ones(dim), p);
    var differ := (p: nat) => Sign(Outlier(dim), p) != Sign(Ones(dim), p);
    DistanceIsSignDisagreement(Ones(dim), Ones(dim), dim, same);
    DistanceIsSignDisagreement(Outlier(dim), Ones(dim), dim, differ);
    CountNone(dim, same);
    CountSome(dim, differ, 1);
  }

  /** A shard of copies of `Ones`, the last perhaps replaced by the outlier. */
  ghost predicate IsUniform(shard: Shard, dim: nat, outlier: bool) {
    && ShardOk(shard, dim)
    && forall j: nat :: j < |shard.vectors| ==>
         var last := outlier && j == |shard.vectors| - 1;
         && shard.vectors[j] == VectorFor(dim, last)
         && shard.floats[j] == if last then Outlier(dim) else Ones(dim)
  }

  lemma {:induction false} TallyAll(vs: seq<Vector>, p: nat)
    requires forall i :: 0 <= i < |vs| ==> Bit(vs[i], p)
    ensures Tally(vs, p) == |vs|
  {
    if vs != [] {
      TallyAll(vs[..|vs| - 1], p);
    }
  }

  lemma TallyButLast(vs: seq<Vector>, p: nat)
    requires vs != [] && forall i :: 0 <= i < |vs| - 1 ==> Bit(vs[i], p)
    ensures |vs| - 1 <= Tally(vs, p) <= |vs|
  {
    TallyAll(vs[..|vs| - 1], p);
  }

  /** Every block scores 0 for the query of all ones, whether it ends in the outlier or not. */
  lemma BlockScore(vs: seq<Vector>, dim: nat, from: nat)
    requires dim % 64 == 0 && vs != [] && forall i :: 0 <= i < |vs| - 1 ==> vs[i] == VectorFor(dim, false)
    ensures Score(VectorFor(dim, false), Signature(vs, dim / 64, from), dim / 64) == 0
  {
    var query, none := VectorFor(dim, false), (p: nat) => false;
    assert 64 * (dim / 64) == dim;
    forall p: nat | p < dim
      ensures Against(Signature(vs, dim / 64, from), query, p) == none(p)
    {
      OutlierBits(dim, p);
      TallyButLast(vs, p);
      SignatureBits(vs, dim / 64, from, p);
    }
    ScoreByPositions(vs, from, query, none);
    CountNone(dim, none);
  }

  lemma UniformScores(shard: Shard, dim: nat, outlier: bool, s: nat)
    requires IsUniform(shard, dim, outlier) && dim % 64 == 0
    ensures var scores := Scores(shard, dim, s, VectorFor(dim, false));
            forall b :: 0 <= b < |scores| ==> scores[b].cost == 0
  {
    var n := |shard.vectors|;
    forall b: nat | b < BlockCount(n)
      ensures Score(VectorFor(dim, false), shard.blocks[b], dim / 64) == 0
    {
      var from, to := b * BLOCK_SIZE, BlockEnd(b, n);
      var vs := shard.vectors[from..to];
      assert from < to <= n && shard.blocks[b] == Signature(vs, dim / 64, from);
      forall i | 0 <= i < |vs| - 1
        ensures vs[i] == VectorFor(dim, false)
      {
        assert vs[i] == shard.vectors[from + i];
      }
      BlockScore(vs, dim, from);
    }
  }

  lemma UniformDistances(shard: Shard, dim: nat, outlier: bool, s: nat)
    requires IsUniform(shard, dim, outlier) && dim % 64 == 0 && dim > 0
    ensures var all := Distances(shard, dim, s, VectorFor(dim, false));
            forall j: nat :: j < |all| ==> (all[j].cost > 0 <==> outlier && j == |all| - 1) && all[j].cost >= 0
  {
    OutlierDistances(dim);
  }

  // ---------- Its scan ----------

  lemma CostlyOnce(all: seq<Candidate>, x: Candidate)
    requires all != [] && x == all[|all| - 1] && x.cost > 0
    requires forall i :: 0 <= i < |all| - 1 ==> all[i].cost <= 0
    ensures multiset(all)[x] == 1 && forall r :: r in multiset(all) && r != x ==> r.cost <= 0
  {
    var near := all[..|all| - 1];
    assert all == near + [x] && x !in near;
    forall r | r in multiset(all) && r != x
      ensures r.cost <= 0
    {
      assert r in near;
    }
  }

  /** When something cheap was turned away the costly one was not kept. */
  lemma NotBoth(all: seq<Candidate>, kept: seq<Candidate>, rest: seq<Candidate>, k: nat,
                x: Candidate, r: Candidate)
    requires Selects(kept, rest, all, k)
    requires multiset(all)[x] == 1 && forall y :: y in multiset(all) && y != x ==> y.cost <= 0
    requires x.cost > 0 && r in rest
    ensures x !in kept
  {
    assert multiset(kept)[x] + multiset(rest)[x] == 1;
    assert r in multiset(all);
  }

  /** A scan for fewer than all candidates, where only the last has a positive cost and all blocks score 0,
      turns that one away. */
  lemma CostlyTurnedAway(scan: Scan, all: seq<Candidate>, scores: seq<Candidate>, k: nat,
                         c: Candidate)
    requires IsScan(scan, Groups(all), scores, k) && k < |all| && c in scan.kept
    requires multiset(scan.Seen(Groups(all)) + scan.Skipped(Groups(all))) == multiset(all)
    requires forall b :: 0 <= b < |scores| ==> scores[b].cost == 0
    requires all[|all| - 1].cost > 0 && forall i :: 0 <= i < |all| - 1 ==> all[i].cost <= 0
    ensures c.cost <= 0
  {
    var x, seen := all[|all| - 1], scan.Seen(Groups(all));
    if scan.stop < |scan.evals| {
      PruneCertificate(scan, Groups(all), scores, k);
      assert scan.evals[scan.stop] in multiset(scores);
    } else {
      assert scan.evals[scan.stop..] == [];
      assert seen + [] == seen;
      SelectionSize(scan.kept, scan.rest, all, k);
      CostlyOnce(all, x);
      NotBoth(all, scan.kept, scan.rest, k, x, scan.rest[0]);
      ChosenFrom(scan.kept, scan.rest, all, k, c);
      assert c in multiset(all);
    }
  }

  lemma KeptFromShard(scan: Scan, shard: Shard, dim: nat, s: nat, query: Vector, k: nat,
                      c: Candidate)
    requires Ready(shard, dim, query) && ScansShard(scan, shard, dim, s, query, k) && c in scan.kept
    ensures c.local < |shard.vectors| && c == Distances(shard, dim, s, query)[c.local]
  {
    var all := Distances(shard, dim, s, query);
    var seen, skipped := scan.Seen(Groups(all)), scan.Skipped(Groups(all));
    ScanCoversShard(scan, shard, dim, s, query, k);
    ChosenFrom(scan.kept, scan.rest, seen, k, c);
    assert c in multiset(seen) && multiset(seen + skipped) == multiset(seen) + multiset(skipped);
    assert c in multiset(all);
  }

  lemma KeptIsCheap(scan: Scan, shard: Shard, dim: nat, s: nat, outlier: bool, k: nat, c: Candidate)
    requires IsUniform(shard, dim, outlier) && outlier && dim % 64 == 0 && dim > 0 && k < |shard.vectors|
    requires ScansShard(scan, shard, dim, s, VectorFor(dim, false), k) && c in scan.kept
    ensures c.cost <= 0
  {
    var query := VectorFor(dim, false);
    ScanCoversShard(scan, shard, dim, s, query, k);
    UniformDistances(shard, dim, outlier, s);
    UniformScores(shard, dim, outlier, s);
    CostlyTurnedAway(scan, Distances(shard, dim, s, query), Scores(shard, dim, s, query), k, c);
  }

  /** Whatever a scan keeps of such a shard is a copy of `Ones`, when it keeps fewer than all or there is no
      outlier. */
  lemma KeepsOnes(scan: Scan, shard: Shard, dim: nat, s: nat, outlier: bool, k: nat, c: Candidate)
    requires IsUniform(shard, dim, outlier) && dim % 64 == 0 && dim > 0 && (outlier ==> k < |shard.vectors|)
    requires ScansShard(scan, shard, dim, s, VectorFor(dim, false), k) && c in scan.kept
    ensures c.local < |shard.floats| && shard.floats[c.local] == Ones(dim)
  {
    if outlier {
      KeptIsCheap(scan, shard, dim, s, outlier, k, c);
    }
    KeptFromShard(scan, shard, dim, s, VectorFor(dim, false), k, c);
    UniformDistances(shard, dim, outlier, s);
  }

  // ---------- Stores where a shard does not fit ----------

  /** The largest shard ends in the outlier, everything else is `Ones`. */
  function OutlierFill(dim: nat, size: nat): Filling {
    (i: nat, j: nat) => if i == 0 && j == size - 1 then Outlier(dim) else Ones(dim)
  }

  ghost predicate HasOutlier(s: Store, dim: nat) {
    && s.dim == dim && s.shards != [] && StoreOk(s) && s.shards[0].vectors != []
    && forall i: nat :: i < |s.shards| ==> IsUniform(s.shards[i], dim, i == 0)
  }

  lemma OutlierStore(dim: nat, shards: nat, n: nat) returns (s: Store)
    requires dim % 64 == 0 && shards > 0 && n > 0
    ensures Reached(s, dim, shards, n) && HasOutlier(s, dim)
  {
    var size := Share(n, shards, 0);
    var fill := OutlierFill(dim, size);
    s := StoreOf(dim, shards, n, fill);
    ShareOfSome(n, shards);
    forall i: nat | i < shards
      ensures IsUniform(s.shards[i], dim, i == 0)
    {
      assert FilledShard(s.shards[i], dim, Share(n, shards, i), i, fill);
      FitsItself(Ones(dim), dim);
      FitsItself(Outlier(dim), dim);
    }
    assert FilledShard(s.shards[0], dim, size, 0, fill);
  }

  lemma ShareOfSome(n: nat, shards: nat)
    requires n > 0 && shards > 0
    ensures Share(n, shards, 0) > 0
  {
    QuotientRemainder(n, shards);
  }

  lemma FitsItself(floats: seq<F32>, dim: nat)
    requires |floats| == dim
    ensures Fit(floats, dim) == floats
  {
  }

  lemma ScoreIsLow(kept: seq<Candidate>, best: seq<Candidate>, loser: seq<Candidate>,
                   scoring: Scoring, shard: Shard, i: nat, query: seq<F32>, near: seq<F32>,
                   k: nat, c: Candidate)
    requires forall d :: d in kept ==> d.local < |shard.floats| && shard.floats[d.local] == near
    requires Selects(best, loser, Map(Rescored(scoring, shard, i, query), kept), k)
    requires c in Map(Rounded(scoring), best)
    ensures c.cost == -scoring.lossy(scoring.score(query, near))
  {
    var b := BestIsStored(best, loser, Map(Rescored(scoring, shard, i, query), kept), scoring, k, c);
    var d := MapMember(Rescored(scoring, shard, i, query), kept, b);
    assert -b.cost == scoring.score(query, near);
  }

  /** In a store whose first shard does not fit the width, no two-stage search for the probe returns the outlier. */
  lemma OnlyOnesChosen(run: RerankRun, s: Store, dim: nat, scoring: Scoring, k: nat, width: nat,
                       c: Candidate)
    requires HasOutlier(s, dim) && dim % 64 == 0 && dim > 0 && width < |s.shards[0].vectors|
    requires QueryOk(s, VectorFor(dim, false)) && c in run.chosen
    requires IsRerank(run, scoring, s, VectorFor(dim, false), Probe(dim), k, width)
    ensures c.cost == -scoring.lossy(scoring.score(Probe(dim), Ones(dim)))
  {
    var parts := MapEach(Rounded(scoring), run.bests);
    ChosenFrom(run.chosen, run.rest, Join(parts), k, c);
    var i := InJoin(parts, c);
    forall d | d in run.scans[i].kept
      ensures d.local < |s.shards[i].floats| && s.shards[i].floats[d.local] == Ones(dim)
    {
      KeepsOnes(run.scans[i], s.shards[i], dim, i, i == 0, width, d);
    }
    ScoreIsLow(run.scans[i].kept, run.bests[i], run.losers[i], scoring, s.shards[i], i, Probe(dim), Ones(dim), k, c);
  }

  /** Some stored vector has this score. */
  ghost predicate Scored(scoring: Scoring, s: Store, floats: seq<F32>, score: int) {
    exists c :: StoredScore(scoring, s, floats, c) && c.cost == -score
  }

  /** Reranking loses the best: under the code's scores and for every width a shard exceeds, every two-stage
      search for the probe lists only scores of one half, though a vector with score one is stored. */
  lemma RerankMisses(run: RerankRun, s: Store, dim: nat, scoring: Scoring, k: nat, width: nat)
    requires HasOutlier(s, dim) && dim % 64 == 0 && dim > 0 && k >= 1 && width < |s.shards[0].vectors|
    requires QueryOk(s, VectorFor(dim, false)) && ScoresAsCoded(scoring)
    requires IsRerank(run, scoring, s, VectorFor(dim, false), Probe(dim), k, width)
    ensures forall c :: c in run.chosen ==> c.cost == -scoring.lossy(HALF)
    ensures Scored(scoring, s, Probe(dim), scoring.lossy(ONE)) && !FindsBest(run, scoring, s, Probe(dim), k)
  {
    var parts, last := ScoreParts(scoring, s, Probe(dim)), |s.shards[0].vectors| - 1;
    var best := parts[0][last];
    assert s.shards[0].floats[last] == Outlier(dim);
    OutlierScoresMore(scoring, dim);
    assert StoredScore(scoring, s, Probe(dim), best);
    assert best in parts[0];
    JoinHas(parts, 0, best);
    forall c | c in run.chosen
      ensures c.cost == -scoring.lossy(HALF)
    {
      OnlyOnesChosen(run, s, dim, scoring, k, width, c);
    }
    NotSmallest(run.chosen, Join(parts), k, best);
  }

  // ---------- The exact condition ----------

  /** Every two-stage search for k in every store of n vectors in S shards that adds can produce, for every
      query, returns the k largest scores. */
  ghost predicate ReranksExactly(scoring: Scoring, dim: nat, shards: nat, n: nat, k: nat) {
    forall s: Store, floats: seq<F32>, run: RerankRun ::
      Reached(s, dim, shards, n) && RunsOn(run, scoring, s, dim, floats, k) ==> FindsBest(run, scoring, s, floats, k)
  }

  /** A search as the server asks for it, with the width the code computes. */
  ghost predicate RunsOn(run: RerankRun, scoring: Scoring, s: Store, dim: nat, floats: seq<F32>, k: nat) {
    && QueryOk(s, Quantize(floats, dim))
    && IsRerank(run, scoring, s, Quantize(floats, dim), floats, k, WidthOf(s, k))
  }

  lemma FittingIsExact(s: Store, dim: nat, shards: nat, n: nat, floats: seq<F32>, scoring: Scoring,
                       k: nat, run: RerankRun)
    requires shards > 0 && Reached(s, dim, shards, n) && Monotone(scoring.lossy)
    requires RunsOn(run, scoring, s, dim, floats, k)
    requires forall i: nat :: i < shards ==> Share(n, shards, i) <= RerankWidth(n, shards, k)
    ensures FindsBest(run, scoring, s, floats, k)
  {
    ReachedSizes(s, dim, shards, n);
    RerankExact(run.scans, run.bests, run.losers, run.chosen, run.rest, scoring, s, Quantize(floats, dim), floats, k,
                WidthOf(s, k));
  }

  lemma AllFitting(scoring: Scoring, dim: nat, shards: nat, n: nat, k: nat)
    requires Monotone(scoring.lossy)
    requires shards > 0 && forall i: nat :: i < shards ==> Share(n, shards, i) <= RerankWidth(n, shards, k)
    ensures ReranksExactly(scoring, dim, shards, n, k)
  {
    forall s: Store, floats: seq<F32>, run: RerankRun |
      Reached(s, dim, shards, n) && RunsOn(run, scoring, s, dim, floats, k)
      ensures FindsBest(run, scoring, s, floats, k)
    {
      FittingIsExact(s, dim, shards, n, floats, scoring, k, run);
    }
  }

  /** A store and a search that misses its best. */
  lemma MissingRun(scoring: Scoring, dim: nat, shards: nat, n: nat, k: nat) returns (s: Store, run: RerankRun)
    requires ScoresAsCoded(scoring) && dim > 0 && dim % 64 == 0 && shards > 0 && k >= 1
    requires Share(n, shards, 0) > RerankWidth(n, shards, k)
    ensures Reached(s, dim, shards, n) && RunsOn(run, scoring, s, dim, Probe(dim), k)
    ensures !FindsBest(run, scoring, s, Probe(dim), k)
  {
    s := OutlierStore(dim, shards, n);
    ReachedSizes(s, dim, shards, n);
    ProbeBits(dim);
    assert |s.shards[0].vectors| == Share(n, shards, 0) > WidthOf(s, k) && QueryOk(s, VectorFor(dim, false));
    run := RerankExists(scoring, s, VectorFor(dim, false), Probe(dim), k, WidthOf(s, k));
    RerankMisses(run, s, dim, scoring, k, WidthOf(s, k));
  }

  lemma NotFitting(scoring: Scoring, dim: nat, shards: nat, n: nat, k: nat)
    requires ScoresAsCoded(scoring) && dim > 0 && dim % 64 == 0 && shards > 0 && k >= 1
    requires Share(n, shards, 0) > RerankWidth(n, shards, k)
    ensures !ReranksExactly(scoring, dim, shards, n, k)
  {
    var s, run := MissingRun(scoring, dim, shards, n, k);
  }

  /** Whatever order-keeping trip the scores make, two-stage search over n vectors dealt to S shards is exact if
      and only if k is at least the largest shard, or the store has at most 1000 vectors dealt out evenly. */
  lemma ReranksExactlyIff(scoring: Scoring, dim: nat, shards: nat, n: nat, k: nat)
    requires ScoresAsCoded(scoring) && dim > 0 && dim % 64 == 0 && shards > 0 && k >= 1
    ensures ReranksExactly(scoring, dim, shards, n, k) <==> k >= Share(n, shards, 0) || (n <= 1000 && n % shards == 0)
  {
    FullyRerankedIff(n, shards, k);
    if forall i: nat :: i < shards ==> Share(n, shards, i) <= RerankWidth(n, shards, k) {
      AllFitting(scoring, dim, shards, n, k);
    } else {
      NotFitting(scoring, dim, shards, n, k);
    }
  }
}
