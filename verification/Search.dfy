/** Whole-store search on values: the per-shard scans, the merge, and the coarse-then-rerank pipeline,
    against the sorted list of all distances or scores. */
module Search {
  import opened Bytes
  import opened Bits
  import opened TopK
  import opened VectorIndex
  import opened VectorStore
  import opened Pruning

  ghost predicate QueryOk(s: Store, query: Vector) {
    StoreOk(s) && |query| == s.Words()
  }

  /** Every stored vector at its distance, shard by shard. */
  function DistanceParts(s: Store, query: Vector): seq<seq<Candidate>>
    requires QueryOk(s, query)
  {
    seq(|s.shards|, i requires 0 <= i < |s.shards| => Distances(s.shards[i], s.dim, i, query))
  }

  /** Scans of the first shards. */
  ghost predicate ScansFirst(scans: seq<Scan>, s: Store, query: Vector, k: nat)
    requires QueryOk(s, query)
  {
    |scans| <= |s.shards| && forall i :: 0 <= i < |scans| ==> ScansShard(scans[i], s.shards[i], s.dim, i, query, k)
  }

  ghost predicate ScansStore(scans: seq<Scan>, s: Store, query: Vector, k: nat)
    requires QueryOk(s, query)
  {
    |scans| == |s.shards| && ScansFirst(scans, s, query, k)
  }

  lemma ScansNext(scans: seq<Scan>, s: Store, query: Vector, k: nat, scan: Scan)
    requires QueryOk(s, query) && |scans| < |s.shards| && ScansFirst(scans, s, query, k)
    requires ScansShard(scan, s.shards[|scans|], s.dim, |scans|, query, k)
    ensures ScansFirst(scans + [scan], s, query, k)
  {
    var longer := scans + [scan];
    forall i | 0 <= i < |longer|
      ensures ScansShard(longer[i], s.shards[i], s.dim, i, query, k)
    {
      if i < |scans| {
        assert longer[i] == scans[i];
      } else {
        assert longer[i] == scan;
      }
    }
  }

  function Kepts(scans: seq<Scan>): (r: seq<seq<Candidate>>)
    ensures |r| == |scans| && forall i :: 0 <= i < |scans| ==> r[i] == scans[i].kept
  {
    seq(|scans|, i requires 0 <= i < |scans| => scans[i].kept)
  }

  lemma KeptsNext(scans: seq<Scan>, scan: Scan)
    ensures Kepts(scans + [scan]) == Kepts(scans) + [scan.kept]
  {
  }

  /** The ascending list of the k smallest costs of `all`. */
  function Smallest(all: seq<Candidate>, k: nat): seq<int> {
    var sorted := Sort(Costs(all));
    if k < |sorted| then sorted[..k] else sorted
  }

  lemma SelectionListsSmallest(kept: seq<Candidate>, rest: seq<Candidate>, all: seq<Candidate>, k: nat)
    requires Selects(kept, rest, all, k) && Ascending(Costs(kept))
    ensures Costs(kept) == Smallest(all, k)
  {
    SelectionIsSortedPrefix(kept, rest, all, k);
  }

  /** No scan skipped a block that scores above one of its members' distances. */
  ghost predicate AllSound(scans: seq<Scan>, s: Store, query: Vector)
    requires QueryOk(s, query) && |scans| == |s.shards|
  {
    forall i :: 0 <= i < |scans| ==> SoundlySkipped(scans[i], Groups(DistanceParts(s, query)[i]))
  }

  lemma ScansAreSelections(scans: seq<Scan>, s: Store, query: Vector, k: nat) returns (rests: seq<seq<Candidate>>)
    requires QueryOk(s, query) && ScansStore(scans, s, query, k) && AllSound(scans, s, query)
    ensures SelectsEach(Kepts(scans), rests, DistanceParts(s, query), k)
  {
    var kepts, alls := Kepts(scans), DistanceParts(s, query);
    forall i | 0 <= i < |alls|
      ensures IsTopK(kepts[i], alls[i], k)
    {
      PrunedExact(scans[i], s.shards[i], s.dim, i, query, k);
    }
    rests := CollectRests(kepts, alls, k, |alls|);
  }

  /** Pruned, sharded search is exact when pruning was sound: the distances returned are the k
      smallest of the whole store, in ascending order. */
  lemma SearchExact(scans: seq<Scan>, s: Store, query: Vector, k: nat,
                    chosen: seq<Candidate>, rest: seq<Candidate>)
    requires QueryOk(s, query) && ScansStore(scans, s, query, k) && AllSound(scans, s, query)
    requires Selects(chosen, rest, Join(Kepts(scans)), k) && Ascending(Costs(chosen))
    ensures Costs(chosen) == Smallest(Join(DistanceParts(s, query)), k)
  {
    var rests := ScansAreSelections(scans, s, query, k);
    var kepts, alls := Kepts(scans), DistanceParts(s, query);
    MergedIsGlobal(kepts, rests, alls, chosen, rest, k);
    SelectionListsSmallest(chosen, rest + Join(rests), Join(alls), k);
  }

  /** k exceeds what comes before the last block of every shard. */
  ghost predicate Covers(s: Store, k: nat) {
    forall i :: 0 <= i < |s.shards| ==> k > BeforeLast(|s.shards[i].vectors|)
  }

  /** Soundness is automatic when k covers the store: nothing is skipped. */
  lemma WideEnoughIsSound(scans: seq<Scan>, s: Store, query: Vector, k: nat)
    requires QueryOk(s, query) && ScansStore(scans, s, query, k) && Covers(s, k)
    ensures AllSound(scans, s, query)
  {
    forall i | 0 <= i < |scans|
      ensures SoundlySkipped(scans[i], Groups(DistanceParts(s, query)[i]))
    {
      NothingToSkip(scans[i], s.shards[i], s.dim, i, query, k);
    }
  }

  /** One whole search: the scans of all shards and the merge of what they kept. */
  datatype SearchRun = SearchRun(scans: seq<Scan>, chosen: seq<Candidate>, rest: seq<Candidate>)

  ghost predicate IsSearch(run: SearchRun, s: Store, query: Vector, k: nat)
    requires QueryOk(s, query)
  {
    && ScansStore(run.scans, s, query, k)
    && Selects(run.chosen, run.rest, Join(Kepts(run.scans)), k) && Ascending(Costs(run.chosen))
  }

  /** The search returns the k smallest distances of the store, ascending. */
  ghost predicate FindsNearest(run: SearchRun, s: Store, query: Vector, k: nat)
    requires QueryOk(s, query)
  {
    Costs(run.chosen) == Smallest(Join(DistanceParts(s, query)), k)
  }

  /** On a store that k covers every search finds the nearest. */
  lemma CoveredIsExact(run: SearchRun, s: Store, query: Vector, k: nat)
    requires QueryOk(s, query) && IsSearch(run, s, query, k) && Covers(s, k)
    ensures FindsNearest(run, s, query, k)
  {
    WideEnoughIsSound(run.scans, s, query, k);
    SearchExact(run.scans, s, query, k, run.chosen, run.rest);
  }

  // ---------- How many results ----------

  function Min(a: nat, b: nat): nat {
    if a < b then a else b
  }

  lemma KeptSize(scan: Scan, shard: Shard, dim: nat, s: nat, query: Vector, k: nat)
    requires Ready(shard, dim, query) && ScansShard(scan, shard, dim, s, query, k)
    ensures |scan.kept| == Min(k, |shard.vectors|)
  {
    var all := Distances(shard, dim, s, query);
    ScanCoversShard(scan, shard, dim, s, query, k);
    PruneCertificate(scan, Groups(all), Scores(shard, dim, s, query), k);
    SelectionSize(scan.kept, scan.rest, scan.Seen(Groups(all)), k);
    assert |multiset(scan.Seen(Groups(all)) + scan.Skipped(Groups(all)))| == |multiset(all)|;
    if scan.stop == |scan.evals| {
      assert scan.evals[scan.stop..] == [];
    }
  }

  /** Keeping k of every part leaves min(k, total) to choose from. */
  lemma {:induction false} JoinSizes(kepts: seq<seq<Candidate>>, shards: seq<Shard>, k: nat)
    requires |kepts| == |shards| && forall i :: 0 <= i < |kepts| ==> |kepts[i]| == Min(k, |shards[i].keys|)
    ensures Min(k, |Join(kepts)|) == Min(k, TotalVectors(shards))
  {
    if kepts != [] {
      JoinSizes(kepts[..|kepts| - 1], shards[..|shards| - 1], k);
    }
  }

  /** Every search returns min(k, N) results. */
  lemma SearchSize(run: SearchRun, s: Store, query: Vector, k: nat)
    requires QueryOk(s, query) && IsSearch(run, s, query, k)
    ensures |run.chosen| == Min(k, TotalVectors(s.shards))
  {
    var kepts := Kepts(run.scans);
    forall i | 0 <= i < |kepts|
      ensures |kepts[i]| == Min(k, |s.shards[i].keys|)
    {
      KeptSize(run.scans[i], s.shards[i], s.dim, i, query, k);
    }
    JoinSizes(kepts, s.shards, k);
    SelectionSize(run.chosen, run.rest, Join(kepts), k);
  }

  /** Each result is a stored key with the distance of its own vector, and no vector is listed twice. */
  ghost predicate Matches(s: Store, query: Vector, chosen: seq<Candidate>, result: seq<(bytes, int)>)
    requires QueryOk(s, query)
  {
    && |result| == |chosen| && Distinct(chosen)
    && forall i :: 0 <= i < |chosen| ==>
         && Stored(s, query, chosen[i])
         && result[i] == (s.shards[chosen[i].shard].keys[chosen[i].local], chosen[i].cost)
  }

  ghost predicate Stored(s: Store, query: Vector, c: Candidate)
    requires QueryOk(s, query)
  {
    && c.shard < |s.shards| && c.local < |s.shards[c.shard].vectors|
    && c.cost == Hamming(s.shards[c.shard].vectors[c.local], query, |query|)
  }

  /** The numbers of an answer. */
  function Numbers<T>(result: seq<(bytes, T)>): (r: seq<T>)
    ensures |r| == |result|
  {
    seq(|result|, i requires 0 <= i < |result| => result[i].1)
  }

  lemma DistancesDistinct(shard: Shard, dim: nat, s: nat, query: Vector)
    requires Ready(shard, dim, query)
    ensures FromShard(Distances(shard, dim, s, query), s)
  {
  }

  lemma KeptDistinct(scan: Scan, shard: Shard, dim: nat, s: nat, query: Vector, k: nat)
    requires Ready(shard, dim, query) && ScansShard(scan, shard, dim, s, query, k)
    ensures FromShard(scan.kept, s)
  {
    var all := Distances(shard, dim, s, query);
    var seen, skipped := scan.Seen(Groups(all)), scan.Skipped(Groups(all));
    ScanCoversShard(scan, shard, dim, s, query, k);
    DistancesDistinct(shard, dim, s, query);
    assert multiset(seen) <= multiset(seen + skipped) && multiset(scan.kept) <= multiset(seen);
    PartDistinct(scan.kept, all);
    forall c | c in scan.kept
      ensures c.shard == s
    {
      assert c in multiset(scan.kept);
      assert c in multiset(all);
    }
  }

  /** No search returns a stored vector twice. */
  lemma SearchDistinct(scans: seq<Scan>, s: Store, query: Vector, k: nat, chosen: seq<Candidate>, rest: seq<Candidate>)
    requires QueryOk(s, query) && ScansStore(scans, s, query, k) && Selects(chosen, rest, Join(Kepts(scans)), k)
    ensures Distinct(chosen)
  {
    var kepts := Kepts(scans);
    forall i | 0 <= i < |kepts|
      ensures FromShard(kepts[i], i)
    {
      KeptDistinct(scans[i], s.shards[i], s.dim, i, query, k);
    }
    JoinDistinct(kepts);
    SelectedDistinct(chosen, rest, Join(kepts), k);
  }

  lemma {:induction false} InJoin(parts: seq<seq<Candidate>>, c: Candidate) returns (i: nat)
    requires c in Join(parts)
    ensures i < |parts| && c in parts[i]
  {
    var last := |parts| - 1;
    if c in Join(parts[..last]) {
      i := InJoin(parts[..last], c);
    } else {
      i := last;
    }
  }

  lemma KeptIsStored(scan: Scan, s: Store, i: nat, query: Vector, k: nat, c: Candidate)
    requires QueryOk(s, query) && i < |s.shards| && ScansShard(scan, s.shards[i], s.dim, i, query, k)
    requires c in scan.kept
    ensures Stored(s, query, c) && c.shard == i
  {
    var all := Distances(s.shards[i], s.dim, i, query);
    ScanCoversShard(scan, s.shards[i], s.dim, i, query, k);
    var seen, skipped := scan.Seen(Groups(all)), scan.Skipped(Groups(all));
    assert c in multiset(scan.kept) + multiset(scan.rest);
    assert c in multiset(seen);
    assert c in multiset(seen + skipped);
    assert c in multiset(all);
  }

  lemma MergedIsStored(scans: seq<Scan>, s: Store, query: Vector, k: nat, c: Candidate)
    requires QueryOk(s, query) && ScansStore(scans, s, query, k) && c in Join(Kepts(scans))
    ensures Stored(s, query, c)
  {
    var i := InJoin(Kepts(scans), c);
    KeptIsStored(scans[i], s, i, query, k, c);
  }

  /** What `search` promises of its merged candidates. */
  lemma SearchAnswer(scans: seq<Scan>, s: Store, query: Vector, k: nat, chosen: seq<Candidate>, rest: seq<Candidate>)
    requires QueryOk(s, query) && ScansStore(scans, s, query, k)
    requires Selects(chosen, rest, Join(Kepts(scans)), k) && Ascending(Costs(chosen))
    ensures Distinct(chosen) && forall c :: c in chosen ==> Stored(s, query, c)
    ensures AllSound(scans, s, query) ==> Costs(chosen) == Smallest(Join(DistanceParts(s, query)), k)
  {
    forall c | c in chosen
      ensures Stored(s, query, c)
    {
      ChosenFrom(chosen, rest, Join(Kepts(scans)), k, c);
      MergedIsStored(scans, s, query, k, c);
    }
    SearchDistinct(scans, s, query, k, chosen, rest);
    if AllSound(scans, s, query) {
      SearchExact(scans, s, query, k, chosen, rest);
    }
  }

  /** What an answer with the keys of a search's candidates says. */
  lemma AnswerMeans(run: SearchRun, s: Store, query: Vector, k: nat, result: seq<(bytes, int)>)
    requires QueryOk(s, query) && IsSearch(run, s, query, k) && Matches(s, query, run.chosen, result)
    ensures Ascending(Numbers(result)) && |result| == Min(k, TotalVectors(s.shards))
    ensures Covers(s, k) ==> Numbers(result) == Smallest(Join(DistanceParts(s, query)), k)
    ensures AllSound(run.scans, s, query) ==> Numbers(result) == Smallest(Join(DistanceParts(s, query)), k)
  {
    assert Numbers(result) == Costs(run.chosen);
    SearchSize(run, s, query, k);
    SearchAnswer(run.scans, s, query, k, run.chosen, run.rest);
    if Covers(s, k) {
      CoveredIsExact(run, s, query, k);
    }
  }

  // ---------- Coarse filter, then rerank ----------

  /** The float side of reranking: `score` is the dot product scaled and cast to i32, `lossy` is that
      integer divided by 1e7 as a float and multiplied back, `shown` is it divided and returned. */
  datatype Scoring = Scoring(score: (seq<F32>, seq<F32>) -> int, lossy: int -> int, shown: int -> real)

  ghost predicate Monotone(f: int -> int) {
    forall a: int, b: int :: a <= b ==> f(a) <= f(b)
  }

  /** A candidate re-costed by its float score; larger scores are cheaper. */
  function Rescored(scoring: Scoring, shard: Shard, i: nat, query: seq<F32>): Candidate -> Candidate {
    (c: Candidate) =>
      if c.local < |shard.floats| then Candidate(-scoring.score(query, shard.floats[c.local]), i, c.local)
      else c
  }

  /** The trip of a score through f32 between the local heaps and the merge. */
  function Rounded(scoring: Scoring): Candidate -> Candidate {
    (c: Candidate) => Candidate(-scoring.lossy(-c.cost), c.shard, c.local)
  }

  function MapEach(h: Candidate -> Candidate, parts: seq<seq<Candidate>>): (r: seq<seq<Candidate>>)
    ensures |r| == |parts| && forall i :: 0 <= i < |parts| ==> r[i] == Map(h, parts[i])
  {
    seq(|parts|, i requires 0 <= i < |parts| => Map(h, parts[i]))
  }

  /** Every stored vector at its rounded score, shard by shard. */
  function ScoreParts(scoring: Scoring, s: Store, query: seq<F32>): seq<seq<Candidate>> {
    seq(|s.shards|, i requires 0 <= i < |s.shards| =>
      var floats := s.shards[i].floats;
      seq(|floats|, j requires 0 <= j < |floats| =>
        Candidate(-scoring.lossy(scoring.score(query, floats[j])), i, j)))
  }

  /** How many candidates each shard hands to the rerank stage. */
  function RerankWidth(total: nat, shards: nat, k: nat): nat
    requires shards > 0
  {
    var pool := if total / 500 > 1000 then total / 500 else 1000;
    var r := if pool < total then pool else total;
    if r / shards > k then r / shards else k
  }

  /** Stage two, first shards: shard i keeps the k best scores among the candidates its scan kept. */
  ghost predicate RerankedFirst(scans: seq<Scan>, bests: seq<seq<Candidate>>, losers: seq<seq<Candidate>>,
                                scoring: Scoring, s: Store, query: seq<F32>, k: nat) {
    && |bests| == |losers| <= |scans| == |s.shards|
    && forall i :: 0 <= i < |bests| ==>
         Selects(bests[i], losers[i], Map(Rescored(scoring, s.shards[i], i, query), scans[i].kept), k)
  }

  ghost predicate Reranks(scans: seq<Scan>, bests: seq<seq<Candidate>>, losers: seq<seq<Candidate>>,
                          scoring: Scoring, s: Store, query: seq<F32>, k: nat) {
    |bests| == |scans| && RerankedFirst(scans, bests, losers, scoring, s, query, k)
  }

  lemma RerankedNext(scans: seq<Scan>, bests: seq<seq<Candidate>>, losers: seq<seq<Candidate>>, scoring: Scoring,
                     s: Store, query: seq<F32>, k: nat, best: seq<Candidate>, loser: seq<Candidate>)
    requires |bests| < |scans| && RerankedFirst(scans, bests, losers, scoring, s, query, k)
    requires var i := |bests|;
             Selects(best, loser, Map(Rescored(scoring, s.shards[i], i, query), scans[i].kept), k)
    ensures RerankedFirst(scans, bests + [best], losers + [loser], scoring, s, query, k)
  {
  }

  lemma RerankedSelection(best: seq<Candidate>, loser: seq<Candidate>, kept: seq<Candidate>, all: seq<Candidate>,
                          h: Candidate -> Candidate, scoring: Scoring, k: nat)
    requires Selects(best, loser, Map(h, kept), k) && multiset(kept) == multiset(all) && Monotone(scoring.lossy)
    ensures Selects(Map(Rounded(scoring), best), Map(Rounded(scoring), loser), Map(Rounded(scoring), Map(h, all)), k)
  {
    MapPermuted(h, kept, all);
    MonotoneKeepsSelection(Rounded(scoring), best, loser, Map(h, all), k);
  }

  lemma ScorePart(scoring: Scoring, s: Store, i: nat, query: Vector, floats: seq<F32>)
    requires QueryOk(s, query) && i < |s.shards|
    ensures var scored := Map(Rescored(scoring, s.shards[i], i, floats), Distances(s.shards[i], s.dim, i, query));
            Map(Rounded(scoring), scored) == ScoreParts(scoring, s, floats)[i]
  {
  }

  lemma RerankedShard(scan: Scan, best: seq<Candidate>, loser: seq<Candidate>, scoring: Scoring, s: Store, i: nat,
                      query: Vector, floats: seq<F32>, k: nat, width: nat)
    requires QueryOk(s, query) && i < |s.shards| && Monotone(scoring.lossy)
    requires ScansShard(scan, s.shards[i], s.dim, i, query, width) && |s.shards[i].vectors| <= width
    requires Selects(best, loser, Map(Rescored(scoring, s.shards[i], i, floats), scan.kept), k)
    ensures Selects(Map(Rounded(scoring), best), Map(Rounded(scoring), loser), ScoreParts(scoring, s, floats)[i], k)
  {
    var all := Distances(s.shards[i], s.dim, i, query);
    RoomForAll(scan, s.shards[i], s.dim, i, query, width);
    RerankedSelection(best, loser, scan.kept, all, Rescored(scoring, s.shards[i], i, floats), scoring, k);
    ScorePart(scoring, s, i, query, floats);
  }

  /** No shard holds more than `width` vectors. */
  ghost predicate FitsWidth(s: Store, width: nat) {
    forall i :: 0 <= i < |s.shards| ==> |s.shards[i].vectors| <= width
  }

  /** Two-stage search is a true global top k when every shard fits the rerank width: the scores
      returned are the k largest rounded scores of the whole store, in descending order (costs are
      negated scores). */
  lemma RerankExact(scans: seq<Scan>, bests: seq<seq<Candidate>>, losers: seq<seq<Candidate>>,
                    chosen: seq<Candidate>, rest: seq<Candidate>, scoring: Scoring, s: Store,
                    query: Vector, floats: seq<F32>, k: nat, width: nat)
    requires QueryOk(s, query) && Monotone(scoring.lossy)
    requires ScansStore(scans, s, query, width) && Reranks(scans, bests, losers, scoring, s, floats, k)
    requires Selects(chosen, rest, Join(MapEach(Rounded(scoring), bests)), k) && Ascending(Costs(chosen))
    requires FitsWidth(s, width)
    ensures Costs(chosen) == Smallest(Join(ScoreParts(scoring, s, floats)), k)
  {
    var kepts, rests := MapEach(Rounded(scoring), bests), MapEach(Rounded(scoring), losers);
    var alls := ScoreParts(scoring, s, floats);
    forall i | 0 <= i < |alls|
      ensures Selects(kepts[i], rests[i], alls[i], k)
    {
      RerankedShard(scans[i], bests[i], losers[i], scoring, s, i, query, floats, k, width);
    }
    MergedIsGlobal(kepts, rests, alls, chosen, rest, k);
    SelectionListsSmallest(chosen, rest + Join(rests), Join(alls), k);
  }

  /** One whole two-stage search: the coarse scans, what each shard's rerank kept and dropped, the merge. */
  datatype RerankRun = RerankRun(
    scans: seq<Scan>,
    bests: seq<seq<Candidate>>,
    losers: seq<seq<Candidate>>,
    chosen: seq<Candidate>,
    rest: seq<Candidate>)

  ghost predicate IsRerank(run: RerankRun, scoring: Scoring, s: Store, query: Vector, floats: seq<F32>, k: nat,
                           width: nat)
    requires QueryOk(s, query)
  {
    && ScansStore(run.scans, s, query, width)
    && Reranks(run.scans, run.bests, run.losers, scoring, s, floats, k)
    && Selects(run.chosen, run.rest, Join(MapEach(Rounded(scoring), run.bests)), k) && Ascending(Costs(run.chosen))
  }

  /** The width the code computes for a store. */
  function WidthOf(s: Store, k: nat): nat
    requires s.shards != []
  {
    RerankWidth(TotalVectors(s.shards), |s.shards|, k)
  }

  /** The two-stage search returns the k largest rounded scores of the store, descending. */
  ghost predicate FindsBest(run: RerankRun, scoring: Scoring, s: Store, floats: seq<F32>, k: nat) {
    Costs(run.chosen) == Smallest(Join(ScoreParts(scoring, s, floats)), k)
  }

  /** Every two-stage search returns min(k, N) results. */
  lemma RerankSize(run: RerankRun, scoring: Scoring, s: Store, query: Vector, floats: seq<F32>,
                   k: nat, width: nat)
    requires QueryOk(s, query) && IsRerank(run, scoring, s, query, floats, k, width) && width >= k
    ensures |run.chosen| == Min(k, TotalVectors(s.shards))
  {
    var kepts := MapEach(Rounded(scoring), run.bests);
    forall i | 0 <= i < |kepts|
      ensures |kepts[i]| == Min(k, |s.shards[i].keys|)
    {
      KeptSize(run.scans[i], s.shards[i], s.dim, i, query, width);
      SelectionSize(run.bests[i], run.losers[i],
                    Map(Rescored(scoring, s.shards[i], i, floats), run.scans[i].kept), k);
    }
    JoinSizes(kepts, s.shards, k);
    SelectionSize(run.chosen, run.rest, Join(kepts), k);
  }

  /** Each result is a stored key with the rounded score of its own float vector, as the float returned, and no
      vector is listed twice. */
  ghost predicate MatchesScores(scoring: Scoring, s: Store, floats: seq<F32>, chosen: seq<Candidate>,
                                result: seq<(bytes, real)>) {
    && |result| == |chosen| && Distinct(chosen)
    && forall i :: 0 <= i < |chosen| ==>
         && StoredScore(scoring, s, floats, chosen[i])
         && result[i] == (s.shards[chosen[i].shard].keys[chosen[i].local], scoring.shown(-chosen[i].cost))
  }

  ghost predicate StoredScore(scoring: Scoring, s: Store, floats: seq<F32>, c: Candidate) {
    && c.shard < |s.shards| && c.local < |s.shards[c.shard].floats| == |s.shards[c.shard].keys|
    && c.cost == -scoring.lossy(scoring.score(floats, s.shards[c.shard].floats[c.local]))
  }

  /** Costs as the scores returned for them. */
  function ShownScores(scoring: Scoring, costs: seq<int>): (r: seq<real>)
    ensures |r| == |costs|
  {
    seq(|costs|, i requires 0 <= i < |costs| => scoring.shown(-costs[i]))
  }

  /** No two-stage search returns a stored vector twice. */
  lemma RerankDistinct(scans: seq<Scan>, bests: seq<seq<Candidate>>, losers: seq<seq<Candidate>>,
                       chosen: seq<Candidate>, rest: seq<Candidate>, scoring: Scoring, s: Store,
                       query: Vector, floats: seq<F32>, k: nat, width: nat)
    requires QueryOk(s, query) && ScansStore(scans, s, query, width)
    requires Reranks(scans, bests, losers, scoring, s, floats, k)
    requires Selects(chosen, rest, Join(MapEach(Rounded(scoring), bests)), k)
    ensures Distinct(chosen)
  {
    var parts := MapEach(Rounded(scoring), bests);
    forall i | 0 <= i < |parts|
      ensures FromShard(parts[i], i)
    {
      BestDistinct(scans[i], bests[i], losers[i], scoring, s, i, query, floats, k, width);
    }
    JoinDistinct(parts);
    SelectedDistinct(chosen, rest, Join(parts), k);
  }

  lemma BestDistinct(scan: Scan, best: seq<Candidate>, loser: seq<Candidate>, scoring: Scoring, s: Store, i: nat,
                     query: Vector, floats: seq<F32>, k: nat, width: nat)
    requires QueryOk(s, query) && i < |s.shards| && ScansShard(scan, s.shards[i], s.dim, i, query, width)
    requires Selects(best, loser, Map(Rescored(scoring, s.shards[i], i, floats), scan.kept), k)
    ensures FromShard(Map(Rounded(scoring), best), i)
  {
    var h := Rescored(scoring, s.shards[i], i, floats);
    KeptDistinct(scan, s.shards[i], s.dim, i, query, width);
    MapDistinct(h, scan.kept);
    SelectedDistinct(best, loser, Map(h, scan.kept), k);
    MapDistinct(Rounded(scoring), best);
    forall c | c in Map(Rounded(scoring), best)
      ensures c.shard == i
    {
      var b := BestIsStored(best, loser, Map(h, scan.kept), scoring, k, c);
      RescoredIsStored(scan, scoring, s, i, query, floats, width, b);
    }
  }

  lemma RescoredIsStored(scan: Scan, scoring: Scoring, s: Store, i: nat, query: Vector, floats: seq<F32>,
                         width: nat, b: Candidate)
    requires QueryOk(s, query) && i < |s.shards| && ScansShard(scan, s.shards[i], s.dim, i, query, width)
    requires b in Map(Rescored(scoring, s.shards[i], i, floats), scan.kept)
    ensures b.shard == i && b.local < |s.shards[i].floats|
    ensures b.cost == -scoring.score(floats, s.shards[i].floats[b.local])
  {
    var d := MapMember(Rescored(scoring, s.shards[i], i, floats), scan.kept, b);
    KeptIsStored(scan, s, i, query, width, d);
  }

  lemma BestIsStored(best: seq<Candidate>, loser: seq<Candidate>, pool: seq<Candidate>, scoring: Scoring, k: nat,
                     c: Candidate) returns (b: Candidate)
    requires Selects(best, loser, pool, k) && c in Map(Rounded(scoring), best)
    ensures b in pool && c == Rounded(scoring)(b)
  {
    b := MapMember(Rounded(scoring), best, c);
    assert b in multiset(best) + multiset(loser);
    assert b in multiset(pool);
  }

  lemma RoundedIsStored(scoring: Scoring, s: Store, floats: seq<F32>, b: Candidate, c: Candidate)
    requires b.shard < |s.shards| && b.local < |s.shards[b.shard].floats| == |s.shards[b.shard].keys|
    requires b.cost == -scoring.score(floats, s.shards[b.shard].floats[b.local]) && c == Rounded(scoring)(b)
    ensures StoredScore(scoring, s, floats, c)
  {
    assert -b.cost == scoring.score(floats, s.shards[b.shard].floats[b.local]);
  }

  lemma RerankedIsStored(scans: seq<Scan>, bests: seq<seq<Candidate>>, losers: seq<seq<Candidate>>,
                         scoring: Scoring, s: Store, query: Vector, floats: seq<F32>, k: nat, width: nat, c: Candidate)
    requires QueryOk(s, query) && ScansStore(scans, s, query, width)
    requires Reranks(scans, bests, losers, scoring, s, floats, k)
    requires c in Join(MapEach(Rounded(scoring), bests))
    ensures StoredScore(scoring, s, floats, c)
  {
    var i := InJoin(MapEach(Rounded(scoring), bests), c);
    var pool := Map(Rescored(scoring, s.shards[i], i, floats), scans[i].kept);
    var b := BestIsStored(bests[i], losers[i], pool, scoring, k, c);
    RescoredIsStored(scans[i], scoring, s, i, query, floats, width, b);
    RoundedIsStored(scoring, s, floats, b, c);
  }

  lemma ChosenFrom(chosen: seq<Candidate>, rest: seq<Candidate>, pool: seq<Candidate>, k: nat, c: Candidate)
    requires Selects(chosen, rest, pool, k) && c in chosen
    ensures c in pool
  {
    assert c in multiset(chosen) + multiset(rest);
    assert c in multiset(pool);
  }

  /** What `search_reranked` promises of its merged candidates. */
  lemma RerankAnswer(scans: seq<Scan>, bests: seq<seq<Candidate>>, losers: seq<seq<Candidate>>,
                     chosen: seq<Candidate>, rest: seq<Candidate>, scoring: Scoring, s: Store,
                     query: Vector, floats: seq<F32>, k: nat, width: nat)
    requires QueryOk(s, query) && ScansStore(scans, s, query, width)
    requires Reranks(scans, bests, losers, scoring, s, floats, k)
    requires Selects(chosen, rest, Join(MapEach(Rounded(scoring), bests)), k) && Ascending(Costs(chosen))
    ensures Distinct(chosen) && forall c :: c in chosen ==> StoredScore(scoring, s, floats, c)
    ensures Monotone(scoring.lossy) && FitsWidth(s, width) ==>
              Costs(chosen) == Smallest(Join(ScoreParts(scoring, s, floats)), k)
  {
    forall c | c in chosen
      ensures StoredScore(scoring, s, floats, c)
    {
      ChosenFrom(chosen, rest, Join(MapEach(Rounded(scoring), bests)), k, c);
      RerankedIsStored(scans, bests, losers, scoring, s, query, floats, k, width, c);
    }
    RerankDistinct(scans, bests, losers, chosen, rest, scoring, s, query, floats, k, width);
    if Monotone(scoring.lossy) && FitsWidth(s, width) {
      RerankExact(scans, bests, losers, chosen, rest, scoring, s, query, floats, k, width);
    }
  }

  /** With nothing stored there is nothing to return. */
  lemma NoScores(scoring: Scoring, s: Store, floats: seq<F32>, k: nat)
    requires StoreOk(s) && TotalVectors(s.shards) == 0
    ensures Smallest(Join(ScoreParts(scoring, s, floats)), k) == []
  {
    NoneStored(s.shards);
    JoinOfEmpty(ScoreParts(scoring, s, floats));
  }

  lemma {:induction false} NoneStored(shards: seq<Shard>)
    requires TotalVectors(shards) == 0
    ensures forall i :: 0 <= i < |shards| ==> shards[i].keys == []
  {
    if shards != [] {
      NoneStored(shards[..|shards| - 1]);
    }
  }

  lemma {:induction false} JoinOfEmpty(parts: seq<seq<Candidate>>)
    requires forall i :: 0 <= i < |parts| ==> parts[i] == []
    ensures Join(parts) == []
  {
    if parts != [] {
      JoinOfEmpty(parts[..|parts| - 1]);
    }
  }

  /** What `search_reranked` may return: nothing for an empty store, else the answer of some two-stage search
      of the width the code computes. */
  ghost predicate RerankOutcome(scoring: Scoring, s: Store, query: Vector, floats: seq<F32>, k: nat,
                                result: seq<(bytes, real)>)
    requires QueryOk(s, query)
  {
    exists run :: OutcomeOf(run, scoring, s, query, floats, k, result)
  }

  ghost predicate OutcomeOf(run: RerankRun, scoring: Scoring, s: Store, query: Vector, floats: seq<F32>, k: nat,
                            result: seq<(bytes, real)>)
    requires QueryOk(s, query)
  {
    if TotalVectors(s.shards) == 0 then result == []
    else
      && IsRerank(run, scoring, s, query, floats, k, WidthOf(s, k))
      && MatchesScores(scoring, s, floats, run.chosen, result)
  }

  lemma NumbersAreScores(scoring: Scoring, s: Store, floats: seq<F32>, chosen: seq<Candidate>,
                         result: seq<(bytes, real)>)
    requires MatchesScores(scoring, s, floats, chosen, result)
    ensures Numbers(result) == ShownScores(scoring, Costs(chosen))
  {
  }

  /** How many candidates a shard may hand to the rerank stage: a 500th of the store but at least 1000 in all, no
      more than there are vectors, dealt evenly to the shards and rounded down, and at least k. */
  ghost predicate IsPool(w: nat, n: nat, shards: nat, k: nat) {
    && w >= k && (w + 1) * shards > Min(n, 1000) && (w + 1) * shards > n / 500
    && (w > k ==> w * shards <= n && (w * shards <= 1000 || w * shards <= n / 500))
  }

  lemma WidthIsPool(n: nat, shards: nat, k: nat)
    requires shards > 0
    ensures IsPool(RerankWidth(n, shards, k), n, shards, k)
  {
    var pool := if n / 500 > 1000 then n / 500 else 1000;
    var r := if pool < n then pool else n;
    PoolAtLeast(r, shards, k);
    QuotientBounds(r, shards);
  }

  lemma PoolAtLeast(r: nat, shards: nat, k: nat)
    requires shards > 0
    ensures (r / shards + 1) * shards > r && (r / shards <= k ==> (k + 1) * shards > r)
  {
    var q := r / shards;
    QuotientBounds(r, shards);
    NextRow(q, shards);
    NextRow(k, shards);
    if q < k {
      RowBelow(q, k, shards);
    }
  }

  lemma NextRow(w: nat, m: nat)
    ensures (w + 1) * m == w * m + m
  {
  }

  lemma QuotientBounds(r: nat, m: nat)
    requires m > 0
    ensures r / m * m <= r < r / m * m + m
  {
    assert r == r / m * m + r % m;
  }

  /** There is only one such number. */
  lemma PoolUnique(v: nat, w: nat, n: nat, shards: nat, k: nat)
    requires shards > 0 && IsPool(v, n, shards, k) && IsPool(w, n, shards, k)
    ensures v == w
  {
    NextRow(v, shards);
    NextRow(w, shards);
    if v < w {
      RowBelow(v, w, shards);
    } else if w < v {
      RowBelow(w, v, shards);
    }
  }

  /** Every shard hands w candidates to the rerank stage, or all it has. */
  ghost predicate Pooled(run: RerankRun, s: Store, w: nat) {
    |run.scans| == |s.shards| && forall i :: 0 <= i < |s.shards| ==>
      |run.scans[i].kept| == Min(|s.shards[i].vectors|, w)
  }

  ghost predicate RightlyPooled(run: RerankRun, s: Store, k: nat) {
    exists w :: IsPool(w, TotalVectors(s.shards), |s.shards|, k) && Pooled(run, s, w)
  }

  lemma RerankPool(run: RerankRun, scoring: Scoring, s: Store, query: Vector, floats: seq<F32>, k: nat)
    requires QueryOk(s, query) && IsRerank(run, scoring, s, query, floats, k, WidthOf(s, k))
    ensures RightlyPooled(run, s, k)
  {
    var w := WidthOf(s, k);
    WidthIsPool(TotalVectors(s.shards), |s.shards|, k);
    forall i | 0 <= i < |s.shards|
      ensures |run.scans[i].kept| == Min(|s.shards[i].vectors|, w)
    {
      KeptSize(run.scans[i], s.shards[i], s.dim, i, query, w);
    }
    assert Pooled(run, s, w);
  }

  /** What an answer with the keys and scores of a two-stage search's candidates says. */
  lemma RerankMeans(run: RerankRun, scoring: Scoring, s: Store, query: Vector, floats: seq<F32>,
                    k: nat, width: nat, result: seq<(bytes, real)>)
    requires QueryOk(s, query) && IsRerank(run, scoring, s, query, floats, k, width) && width >= k
    requires MatchesScores(scoring, s, floats, run.chosen, result)
    ensures |result| == Min(k, TotalVectors(s.shards))
    ensures Monotone(scoring.lossy) && FitsWidth(s, width) ==>
              Numbers(result) == ShownScores(scoring, Smallest(Join(ScoreParts(scoring, s, floats)), k))
  {
    RerankSize(run, scoring, s, query, floats, k, width);
    NumbersAreScores(scoring, s, floats, run.chosen, result);
    if Monotone(scoring.lossy) && FitsWidth(s, width) {
      RerankExact(run.scans, run.bests, run.losers, run.chosen, run.rest, scoring, s, query, floats, k, width);
    }
  }

  /** Every outcome lists min(k, N) stored vectors, none twice, by key and own rounded score, and when every
      shard fits the width these are the k largest scores of the store in descending order. */
  lemma OutcomeMeans(scoring: Scoring, s: Store, query: Vector, floats: seq<F32>, k: nat,
                     result: seq<(bytes, real)>) returns (chosen: seq<Candidate>)
    requires QueryOk(s, query) && RerankOutcome(scoring, s, query, floats, k, result)
    ensures MatchesScores(scoring, s, floats, chosen, result) && |result| == Min(k, TotalVectors(s.shards))
    ensures Monotone(scoring.lossy) && FitsWidth(s, WidthOf(s, k)) ==>
              Numbers(result) == ShownScores(scoring, Smallest(Join(ScoreParts(scoring, s, floats)), k))
  {
    var run :| OutcomeOf(run, scoring, s, query, floats, k, result);
    if TotalVectors(s.shards) == 0 {
      chosen := [];
      NoScores(scoring, s, floats, k);
    } else {
      chosen := run.chosen;
      RerankMeans(run, scoring, s, query, floats, k, WidthOf(s, k), result);
    }
  }

  /** When that holds, for N vectors dealt round-robin to S shards: exactly when k is at least the
      largest shard, or the store has at most 1000 vectors dealt out evenly. */
  lemma FullyRerankedIff(n: nat, shards: nat, k: nat)
    requires shards > 0
    ensures (forall i: nat :: i < shards ==> Share(n, shards, i) <= RerankWidth(n, shards, k))
       <==> k >= Share(n, shards, 0) || (n <= 1000 && n % shards == 0)
  {
    var pool := if n / 500 > 1000 then n / 500 else 1000;
    var r := if pool < n then pool else n;
    forall i: nat | i < shards
      ensures Share(n, shards, i) <= Share(n, shards, 0)
    {
    }
    QuotientGap(r, n, shards);
    assert 0 < shards && (r / shards >= Share(n, shards, 0) <==> n <= 1000 && n % shards == 0);
  }

  /** The same for a store itself, whatever adds and clears produced it. */
  lemma StoreFullyRerankedIff(s: Store, since: seq<Op>, k: nat)
    requires HistoryOk(s, since)
    ensures FitsWidth(s, RerankWidth(TotalVectors(s.shards), |s.shards|, k))
       <==> k >= Share(|since|, |s.shards|, 0) || (|since| <= 1000 && |since| % |s.shards| == 0)
  {
    FullyRerankedIff(|since|, |s.shards|, k);
  }

  /** r / m reaches the size of the largest shard only when r is all of n and m divides it. */
  lemma QuotientGap(r: nat, n: nat, m: nat)
    requires m > 0 && r <= n
    ensures r / m >= Share(n, m, 0) <==> r == n && n % m == 0
  {
    assert r == (r / m) * m + r % m && n == (n / m) * m + n % m;
  }
}
