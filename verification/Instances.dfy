/** Stores with prescribed contents that adds can produce, and the existence of scans and searches on every
    store: what makes statements about all stores and all searches say something. */
module Instances {
  import opened Bytes
  import opened Bits
  import opened TopK
  import opened VectorIndex
  import opened VectorStore
  import opened Quantizer
  import opened Pruning
  import opened Search

  // ---------- Stores ----------

  /** Some history of adds and clears leaves this store, n adds after its last clear. */
  ghost predicate Reached(s: Store, dim: nat, shards: nat, n: nat) {
    s.dim == dim && |s.shards| == shards && exists since :: HistoryOk(s, since) && |since| == n
  }

  /** Shard i of such a store holds its share, and the first shard is the largest. */
  lemma ReachedSizes(s: Store, dim: nat, shards: nat, n: nat)
    requires Reached(s, dim, shards, n)
    ensures StoreOk(s) && TotalVectors(s.shards) == n
    ensures forall i :: 0 <= i < shards ==> |s.shards[i].vectors| == Share(n, shards, i) <= Share(n, shards, 0)
  {
    var since :| HistoryOk(s, since) && |since| == n;
  }

  /** What to put into slot j of shard i. */
  type Filling = (nat, nat) -> seq<F32>

  function AddNumber(dim: nat, shards: nat, m: nat, fill: Filling): (op: Op)
    requires shards > 0
    ensures op.AddOp? && |op.vector| == dim / 64
  {
    var floats := fill(m % shards, m / shards);
    AddOp([], Quantize(floats, dim), floats)
  }

  function AddsOf(dim: nat, shards: nat, n: nat, fill: Filling): seq<Op>
    requires shards > 0
  {
    seq(n, m requires 0 <= m < n => AddNumber(dim, shards, m, fill))
  }

  lemma AddsFit(dim: nat, shards: nat, n: nat, fill: Filling)
    requires shards > 0
    ensures Fitting(AddsOf(dim, shards, n, fill), dim / 64)
    ensures forall op :: op in AddsOf(dim, shards, n, fill) ==> op.AddOp?
  {
    var ops := AddsOf(dim, shards, n, fill);
    forall op | op in ops
      ensures op.AddOp? && |op.vector| == dim / 64
    {
      var m :| 0 <= m < n && ops[m] == op;
    }
  }

  lemma {:induction false} NoClears(ops: seq<Op>)
    requires forall op :: op in ops ==> op.AddOp?
    ensures SinceClear(ops) == ops
  {
    if ops != [] {
      assert ops[|ops| - 1] in ops;
      NoClears(ops[..|ops| - 1]);
    }
  }

  /** Slot j of shard i is filled by add number j S + i. */
  lemma SlotNumber(n: nat, shards: nat, i: nat, j: nat) returns (m: nat)
    requires i < shards && j < Share(n, shards, i)
    ensures m < n && m % shards == i && m / shards == j
  {
    m := j * shards + i;
    DivModUnique(m, shards, j, i);
    if j < n / shards {
      RowBelow(j, n / shards, shards);
    }
    QuotientRemainder(n, shards);
  }

  lemma QuotientRemainder(n: nat, m: nat)
    requires m > 0
    ensures n == n / m * m + n % m
  {
  }

  /** Shard i holds what the filling says. */
  ghost predicate Filled(s: Store, n: nat, fill: Filling) {
    && StoreOk(s) && s.counter == n == TotalVectors(s.shards)
    && forall i: nat :: i < |s.shards| ==> FilledShard(s.shards[i], s.dim, Share(n, |s.shards|, i), i, fill)
  }

  ghost predicate FilledShard(shard: Shard, dim: nat, size: nat, i: nat, fill: Filling) {
    && |shard.vectors| == |shard.floats| == |shard.keys| == size
    && forall j: nat :: j < size ==>
         shard.vectors[j] == Quantize(fill(i, j), dim) && shard.floats[j] == Fit(fill(i, j), dim)
  }

  lemma FilledByAdds(s: Store, shards: nat, n: nat, fill: Filling, i: nat)
    requires |s.shards| == shards && i < shards && Dealt(s, AddsOf(s.dim, shards, n, fill))
    ensures FilledShard(s.shards[i], s.dim, Share(n, shards, i), i, fill)
  {
    var ops := AddsOf(s.dim, shards, n, fill);
    forall j: nat | j < Share(n, shards, i)
      ensures s.shards[i].vectors[j] == Quantize(fill(i, j), s.dim) && s.shards[i].floats[j] == Fit(fill(i, j), s.dim)
    {
      var m := SlotNumber(n, shards, i, j);
      assert DealtAt(s, m, ops[m]);
    }
  }

  /** Any filling is reached by adding its vectors one after the other. */
  lemma StoreOf(dim: nat, shards: nat, n: nat, fill: Filling) returns (s: Store)
    requires dim % 64 == 0 && shards > 0
    ensures Reached(s, dim, shards, n) && Filled(s, n, fill)
  {
    var ops := AddsOf(dim, shards, n, fill);
    AddsFit(dim, shards, n, fill);
    EveryHistory(dim, shards, ops);
    NoClears(ops);
    s := Run(New(dim, shards), ops);
    forall i: nat | i < shards
      ensures FilledShard(s.shards[i], dim, Share(n, shards, i), i, fill)
    {
      FilledByAdds(s, shards, n, fill, i);
    }
  }

  // ---------- Scans and searches ----------

  lemma {:induction false} StopExists(groups: seq<seq<Candidate>>, evals: seq<Candidate>, k: nat, n: nat)
    returns (stop: nat)
    requires n <= |evals| && RunsThrough(groups, evals, k, n)
    ensures StopsAt(groups, evals, k, stop)
    decreases |evals| - n
  {
    if n == |evals| || Within(Scanned(groups, evals[..n]), evals[n].cost) >= k {
      stop := n;
    } else {
      RunsOn(groups, evals, k, n);
      stop := StopExists(groups, evals, k, n + 1);
    }
  }

  /** Every shard can be scanned for every query. */
  lemma ScanExists(shard: Shard, dim: nat, s: nat, query: Vector, k: nat) returns (scan: Scan)
    requires Ready(shard, dim, query)
    ensures ScansShard(scan, shard, dim, s, query, k)
  {
    var groups := Groups(Distances(shard, dim, s, query));
    var evals := SortedExists(Scores(shard, dim, s, query));
    var stop := StopExists(groups, evals, k, 0);
    var kept, rest := SelectionExists(Scanned(groups, evals[..stop]), k);
    scan := Scan(evals, stop, kept, rest);
  }

  lemma {:induction false} ScansExist(s: Store, query: Vector, k: nat, n: nat) returns (scans: seq<Scan>)
    requires QueryOk(s, query) && n <= |s.shards|
    ensures |scans| == n && ScansFirst(scans, s, query, k)
  {
    scans := [];
    if n > 0 {
      scans := ScansExist(s, query, k, n - 1);
      var scan := ScanExists(s.shards[n - 1], s.dim, n - 1, query, k);
      ScansNext(scans, s, query, k, scan);
      scans := scans + [scan];
    }
  }

  lemma SearchExists(s: Store, query: Vector, k: nat) returns (run: SearchRun)
    requires QueryOk(s, query)
    ensures IsSearch(run, s, query, k)
  {
    var scans := ScansExist(s, query, k, |s.shards|);
    var chosen, rest := SelectionExists(Join(Kepts(scans)), k);
    run := SearchRun(scans, chosen, rest);
  }

  lemma {:induction false} RerankedExist(scans: seq<Scan>, scoring: Scoring, s: Store, floats: seq<F32>, k: nat, n: nat)
    returns (bests: seq<seq<Candidate>>, losers: seq<seq<Candidate>>)
    requires |scans| == |s.shards| && n <= |scans|
    ensures |bests| == n && RerankedFirst(scans, bests, losers, scoring, s, floats, k)
  {
    bests, losers := [], [];
    if n > 0 {
      bests, losers := RerankedExist(scans, scoring, s, floats, k, n - 1);
      var best, loser := SelectionExists(Map(Rescored(scoring, s.shards[n - 1], n - 1, floats), scans[n - 1].kept), k);
      RerankedNext(scans, bests, losers, scoring, s, floats, k, best, loser);
      bests, losers := bests + [best], losers + [loser];
    }
  }

  lemma RerankExists(scoring: Scoring, s: Store, query: Vector, floats: seq<F32>, k: nat, width: nat)
    returns (run: RerankRun)
    requires QueryOk(s, query)
    ensures IsRerank(run, scoring, s, query, floats, k, width)
  {
    var scans := ScansExist(s, query, width, |s.shards|);
    var bests, losers := RerankedExist(scans, scoring, s, floats, k, |s.shards|);
    var chosen, rest := SelectionExists(Join(MapEach(Rounded(scoring), bests)), k);
    run := RerankRun(scans, bests, losers, chosen, rest);
  }

  // ---------- The smallest of all ----------

  lemma {:induction false} JoinHas(parts: seq<seq<Candidate>>, i: nat, c: Candidate)
    requires i < |parts| && c in parts[i]
    ensures c in Join(parts)
  {
    if i < |parts| - 1 {
      JoinHas(parts[..|parts| - 1], i, c);
    }
  }

  /** The head of the k smallest is no larger than any candidate's cost. */
  lemma SmallestHead(all: seq<Candidate>, k: nat, c: Candidate)
    requires c in all && k >= 1
    ensures |Smallest(all, k)| >= 1 && Smallest(all, k)[0] <= c.cost
  {
    var costs := Costs(all);
    SortCorrect(costs);
    SortLength(costs);
    var i :| 0 <= i < |all| && all[i] == c;
    assert costs[i] in multiset(Sort(costs));
    var j :| 0 <= j < |Sort(costs)| && Sort(costs)[j] == costs[i];
  }

  /** A list of candidates that all cost more than one of `all` is not the smallest of `all`. */
  lemma NotSmallest(chosen: seq<Candidate>, all: seq<Candidate>, k: nat, c: Candidate)
    requires c in all && k >= 1 && forall x :: x in chosen ==> x.cost > c.cost
    ensures Costs(chosen) != Smallest(all, k)
  {
    SmallestHead(all, k, c);
    if chosen != [] {
      assert chosen[0] in chosen;
    }
  }
}
