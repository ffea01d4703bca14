/** Scanning one shard block by block in score order and stopping early: what the answer is, when it
    is exact, and that it is not exact in general. */
module Pruning {
  import opened Bytes
  import opened Bits
  import opened Counting
  import opened TopK
  import opened VectorIndex
  import opened VectorStore

  ghost predicate Ready(shard: Shard, dim: nat, query: Vector) {
    ShardOk(shard, dim) && |query| == dim / 64
  }

  /** Every vector of shard number `s`, at its Hamming distance to the query. */
  function Distances(shard: Shard, dim: nat, s: nat, query: Vector): seq<Candidate>
    requires Ready(shard, dim, query)
  {
    seq(|shard.vectors|, i requires 0 <= i < |shard.vectors| =>
      Candidate(Hamming(shard.vectors[i], query, |query|), s, i))
  }

  /** Every block at its score. */
  function Scores(shard: Shard, dim: nat, s: nat, query: Vector): seq<Candidate>
    requires Ready(shard, dim, query)
  {
    seq(|shard.blocks|, b requires 0 <= b < |shard.blocks| =>
      Candidate(Score(query, shard.blocks[b], |query|), s, b))
  }

  /** The candidates cut into the blocks' ranges of 128. */
  function Groups(all: seq<Candidate>): seq<seq<Candidate>> {
    seq(BlockCount(|all|), b requires 0 <= b < BlockCount(|all|) => all[b * BLOCK_SIZE..BlockEnd(b, |all|)])
  }

  function GroupOf(groups: seq<seq<Candidate>>, block: Candidate): seq<Candidate> {
    if block.local < |groups| then groups[block.local] else []
  }

  /** The candidates of the listed blocks, in scan order. */
  function Scanned(groups: seq<seq<Candidate>>, evals: seq<Candidate>): seq<Candidate> {
    if evals == [] then []
    else Scanned(groups, evals[..|evals| - 1]) + GroupOf(groups, evals[|evals| - 1])
  }

  lemma ScannedNext(groups: seq<seq<Candidate>>, evals: seq<Candidate>, n: nat)
    requires n < |evals|
    ensures Scanned(groups, evals[..n + 1]) == Scanned(groups, evals[..n]) + GroupOf(groups, evals[n])
  {
    assert evals[..n + 1][..n] == evals[..n];
  }

  /** One run of a shard scan: the block order, where it stopped, what it kept and turned away. */
  datatype Scan = Scan(evals: seq<Candidate>, stop: nat, kept: seq<Candidate>, rest: seq<Candidate>) {
    function Seen(groups: seq<seq<Candidate>>): seq<Candidate>
      requires stop <= |evals|
    {
      Scanned(groups, evals[..stop])
    }

    function Skipped(groups: seq<seq<Candidate>>): seq<Candidate>
      requires stop <= |evals|
    {
      Scanned(groups, evals[stop..])
    }
  }

  /** No block before n has its score met by k candidates scanned before it. */
  ghost predicate RunsThrough(groups: seq<seq<Candidate>>, evals: seq<Candidate>, k: nat, n: nat)
    requires n <= |evals|
  {
    forall j :: 0 <= j < n ==> Within(Scanned(groups, evals[..j]), evals[j].cost) < k
  }

  lemma RunsOn(groups: seq<seq<Candidate>>, evals: seq<Candidate>, k: nat, n: nat)
    requires n < |evals| && RunsThrough(groups, evals, k, n)
    requires Within(Scanned(groups, evals[..n]), evals[n].cost) < k
    ensures RunsThrough(groups, evals, k, n + 1)
  {
  }

  /** The scan of blocks in the order `evals` stops before block `stop`: the first block whose score
      is met by k candidates already scanned. */
  ghost predicate StopsAt(groups: seq<seq<Candidate>>, evals: seq<Candidate>, k: nat, stop: nat) {
    && stop <= |evals| && RunsThrough(groups, evals, k, stop)
    && (stop < |evals| ==> Within(Scanned(groups, evals[..stop]), evals[stop].cost) >= k)
  }

  /** A run over the block scores in ascending order, however ties among them are ordered. */
  ghost predicate IsScan(scan: Scan, groups: seq<seq<Candidate>>, scores: seq<Candidate>, k: nat) {
    && multiset(scan.evals) == multiset(scores) && Ascending(Costs(scan.evals))
    && StopsAt(groups, scan.evals, k, scan.stop)
    && Selects(scan.kept, scan.rest, scan.Seen(groups), k)
  }

  /** A scan of shard number s of a store. */
  ghost predicate ScansShard(scan: Scan, shard: Shard, dim: nat, s: nat, query: Vector, k: nat)
    requires Ready(shard, dim, query)
  {
    IsScan(scan, Groups(Distances(shard, dim, s, query)), Scores(shard, dim, s, query), k)
  }

  // ---------- The stopping test ----------

  /** The test on a full heap's worst element is the test "k of the scanned are within t". */
  lemma StopTest(kept: seq<Candidate>, rest: seq<Candidate>, seen: seq<Candidate>, k: nat, t: int)
    requires Selects(kept, rest, seen, k)
    ensures |kept| >= k && (forall c :: c in kept ==> c.cost <= t) <==> Within(seen, t) >= k
  {
    WithinPermuted(kept + rest, seen, t);
    WithinConcat(kept, rest, t);
    WithinBounds(kept, t);
    WithinBounds(rest, t);
    if exists c :: c in kept && c.cost > t {
      assert forall y :: y in rest ==> y.cost > t;
    }
  }

  // ---------- The scanned and skipped blocks are the whole shard ----------

  lemma {:induction false} ScannedConcat(groups: seq<seq<Candidate>>, a: seq<Candidate>, b: seq<Candidate>)
    ensures Scanned(groups, a + b) == Scanned(groups, a) + Scanned(groups, b)
  {
    if b == [] {
      assert a + b == a;
    } else {
      var front, last := b[..|b| - 1], b[|b| - 1];
      ScannedConcat(groups, a, front);
      var x, y, g := Scanned(groups, a), Scanned(groups, front), GroupOf(groups, last);
      assert Scanned(groups, a + b) == (x + y) + g by {
        assert (a + b)[..|a + b| - 1] == a + front && (a + b)[|a + b| - 1] == last;
      }
      assert (x + y) + g == x + (y + g);
    }
  }

  lemma ScannedOne(groups: seq<seq<Candidate>>, front: seq<Candidate>, x: Candidate, back: seq<Candidate>)
    ensures Scanned(groups, front + [x] + back) == Scanned(groups, front) + GroupOf(groups, x) + Scanned(groups, back)
  {
    ScannedConcat(groups, front + [x], back);
    assert (front + [x])[..|front|] == front;
  }

  lemma ScannedMoved(groups: seq<seq<Candidate>>, rest: seq<Candidate>, x: Candidate,
                     front: seq<Candidate>, back: seq<Candidate>)
    requires multiset(Scanned(groups, rest)) == multiset(Scanned(groups, front + back))
    ensures multiset(Scanned(groups, rest + [x])) == multiset(Scanned(groups, front + [x] + back))
  {
    var f, g, h := Scanned(groups, front), GroupOf(groups, x), Scanned(groups, back);
    ScannedConcat(groups, front, back);
    ScannedOne(groups, front, x, back);
    assert (rest + [x])[..|rest|] == rest;
    calc {
      multiset(Scanned(groups, rest + [x]));
      multiset(f + h) + multiset(g);
      multiset(f + g + h);
    }
  }

  lemma {:induction false} ScannedPermuted(groups: seq<seq<Candidate>>, a: seq<Candidate>, b: seq<Candidate>)
    requires multiset(a) == multiset(b)
    ensures multiset(Scanned(groups, a)) == multiset(Scanned(groups, b))
    decreases |a|
  {
    if a == [] {
      assert |b| == |multiset(b)| == 0;
      assert b == [];
    } else {
      var rest, x, front, back := MatchLast(a, b);
      ScannedPermuted(groups, rest, front + back);
      ScannedMoved(groups, rest, x, front, back);
    }
  }

  /** Blocks taken in index order spell out the shard. */
  lemma {:induction false} ScannedInOrder(all: seq<Candidate>, blocks: seq<Candidate>, n: nat)
    requires n <= |blocks| == BlockCount(|all|)
    requires forall b :: 0 <= b < |blocks| ==> blocks[b].local == b
    ensures Scanned(Groups(all), blocks[..n]) == all[..if n == 0 then 0 else BlockEnd(n - 1, |all|)]
  {
    if n > 0 {
      ScannedInOrder(all, blocks, n - 1);
      assert blocks[..n][..n - 1] == blocks[..n - 1];
      var from, to := (n - 1) * BLOCK_SIZE, BlockEnd(n - 1, |all|);
      assert n > 1 ==> BlockEnd(n - 2, |all|) == from;
      assert all[..to] == all[..from] + all[from..to];
    }
  }

  lemma SeenAndSkipped(groups: seq<seq<Candidate>>, evals: seq<Candidate>, scores: seq<Candidate>, stop: nat)
    requires multiset(evals) == multiset(scores) && stop <= |evals|
    ensures multiset(Scanned(groups, evals[..stop]) + Scanned(groups, evals[stop..]))
         == multiset(Scanned(groups, scores))
  {
    assert evals == evals[..stop] + evals[stop..];
    ScannedConcat(groups, evals[..stop], evals[stop..]);
    ScannedPermuted(groups, evals, scores);
  }

  lemma AllBlocksScanned(shard: Shard, dim: nat, s: nat, query: Vector)
    requires Ready(shard, dim, query)
    ensures var all := Distances(shard, dim, s, query);
            Scanned(Groups(all), Scores(shard, dim, s, query)) == all
  {
    var all, scores := Distances(shard, dim, s, query), Scores(shard, dim, s, query);
    ScannedInOrder(all, scores, |scores|);
    assert scores[..|scores|] == scores;
  }

  lemma ScanCoversShard(scan: Scan, shard: Shard, dim: nat, s: nat, query: Vector, k: nat)
    requires Ready(shard, dim, query) && ScansShard(scan, shard, dim, s, query, k)
    ensures var all := Distances(shard, dim, s, query);
            multiset(scan.Seen(Groups(all)) + scan.Skipped(Groups(all))) == multiset(all)
  {
    AllBlocksScanned(shard, dim, s, query);
    SeenAndSkipped(Groups(Distances(shard, dim, s, query)), scan.evals, Scores(shard, dim, s, query), scan.stop);
  }

  // ---------- What a pruned scan guarantees ----------

  /** Certificate: when blocks are skipped the heap is full, and no kept distance exceeds any
      skipped block's score. */
  lemma PruneCertificate(scan: Scan, groups: seq<seq<Candidate>>, scores: seq<Candidate>, k: nat)
    requires IsScan(scan, groups, scores, k)
    ensures scan.stop < |scan.evals| ==> |scan.kept| == k
    ensures forall j, c :: scan.stop <= j < |scan.evals| && c in scan.kept ==> c.cost <= scan.evals[j].cost
  {
    if scan.stop < |scan.evals| {
      StopTest(scan.kept, scan.rest, scan.Seen(groups), k, scan.evals[scan.stop].cost);
      forall j | scan.stop <= j < |scan.evals|
        ensures scan.evals[scan.stop].cost <= scan.evals[j].cost
      {
        assert Costs(scan.evals)[scan.stop] <= Costs(scan.evals)[j];
      }
    }
  }

  lemma {:induction false} InScanned(groups: seq<seq<Candidate>>, evals: seq<Candidate>, y: Candidate)
    returns (j: nat)
    requires y in Scanned(groups, evals)
    ensures j < |evals| && y in GroupOf(groups, evals[j])
  {
    var last := |evals| - 1;
    if y in Scanned(groups, evals[..last]) {
      j := InScanned(groups, evals[..last], y);
    } else {
      j := last;
    }
  }

  lemma StillSelects(kept: seq<Candidate>, rest: seq<Candidate>, seen: seq<Candidate>, extra: seq<Candidate>,
                     all: seq<Candidate>, k: nat)
    requires Selects(kept, rest, seen, k) && multiset(seen + extra) == multiset(all)
    requires extra != [] ==> |kept| == k
    requires forall c, y :: c in kept && y in extra ==> c.cost <= y.cost
    ensures Selects(kept, rest + extra, all, k)
  {
    assert multiset(kept) + multiset(rest + extra) == multiset(all);
  }

  lemma NoneBeaten(kept: seq<Candidate>, rest: seq<Candidate>, rest': seq<Candidate>, extra: seq<Candidate>,
                   all: seq<Candidate>, k: nat, c: Candidate, y: Candidate)
    requires multiset(kept) + multiset(rest + extra) == multiset(all) && Selects(kept, rest', all, k)
    requires c in kept && y in extra
    ensures c.cost <= y.cost
  {
    assert multiset(rest') == multiset(all) - multiset(kept) == multiset(rest + extra);
    assert y in multiset(rest') && y in rest';
  }

  ghost predicate NoneNearer(scan: Scan, groups: seq<seq<Candidate>>)
    requires scan.stop <= |scan.evals|
  {
    forall c, y :: c in scan.kept && y in scan.Skipped(groups) ==> c.cost <= y.cost
  }

  /** The pruned answer is a true top k of the shard exactly when no skipped vector is nearer than
      a kept one. */
  lemma PrunedExactIff(scan: Scan, shard: Shard, dim: nat, s: nat, query: Vector, k: nat)
    requires Ready(shard, dim, query) && ScansShard(scan, shard, dim, s, query, k)
    ensures IsTopK(scan.kept, Distances(shard, dim, s, query), k)
       <==> NoneNearer(scan, Groups(Distances(shard, dim, s, query)))
  {
    var all := Distances(shard, dim, s, query);
    var groups := Groups(all);
    var seen, skipped := scan.Seen(groups), scan.Skipped(groups);
    ScanCoversShard(scan, shard, dim, s, query, k);
    if NoneNearer(scan, groups) {
      PruneCertificate(scan, groups, Scores(shard, dim, s, query), k);
      StillSelects(scan.kept, scan.rest, seen, skipped, all, k);
    }
    forall rest, c, y | Selects(scan.kept, rest, all, k) && c in scan.kept && y in skipped
      ensures c.cost <= y.cost
    {
      assert multiset(scan.kept) + multiset(scan.rest + skipped) == multiset(seen + skipped);
      NoneBeaten(scan.kept, scan.rest, rest, skipped, all, k, c, y);
    }
  }

  /** No skipped block scores above the distance of any of its members. */
  ghost predicate SoundlySkipped(scan: Scan, groups: seq<seq<Candidate>>) {
    forall j, y :: scan.stop <= j < |scan.evals| && y in GroupOf(groups, scan.evals[j])
      ==> scan.evals[j].cost <= y.cost
  }

  lemma SoundMeansNoneNearer(scan: Scan, groups: seq<seq<Candidate>>, scores: seq<Candidate>, k: nat)
    requires IsScan(scan, groups, scores, k) && SoundlySkipped(scan, groups)
    ensures NoneNearer(scan, groups)
  {
    PruneCertificate(scan, groups, scores, k);
    forall c, y | c in scan.kept && y in scan.Skipped(groups)
      ensures c.cost <= y.cost
    {
      SkippedMember(scan, groups, y);
    }
  }

  lemma SkippedMember(scan: Scan, groups: seq<seq<Candidate>>, y: Candidate)
    requires scan.stop <= |scan.evals| && y in scan.Skipped(groups)
    ensures exists j :: scan.stop <= j < |scan.evals| && y in GroupOf(groups, scan.evals[j])
  {
    var j := InScanned(groups, scan.evals[scan.stop..], y);
    assert y in GroupOf(groups, scan.evals[scan.stop + j]);
  }

  /** Exactness under sound scores: if no skipped block scores above any of its members' distances,
      nothing was lost. */
  lemma PrunedExact(scan: Scan, shard: Shard, dim: nat, s: nat, query: Vector, k: nat)
    requires Ready(shard, dim, query) && ScansShard(scan, shard, dim, s, query, k)
    requires SoundlySkipped(scan, Groups(Distances(shard, dim, s, query)))
    ensures IsTopK(scan.kept, Distances(shard, dim, s, query), k)
  {
    var all := Distances(shard, dim, s, query);
    SoundMeansNoneNearer(scan, Groups(all), Scores(shard, dim, s, query), k);
    PrunedExactIff(scan, shard, dim, s, query, k);
  }

  lemma SkippedNotEmpty(groups: seq<seq<Candidate>>, evals: seq<Candidate>, scores: seq<Candidate>, stop: nat)
    requires multiset(evals) == multiset(scores) && stop < |evals|
    requires forall b :: b in scores ==> GroupOf(groups, b) != []
    ensures Scanned(groups, evals[stop..]) != []
  {
    var e, later := evals[stop], evals[stop + 1..];
    assert e in multiset(scores);
    assert evals[stop..] == [] + [e] + later;
    ScannedOne(groups, [], e, later);
  }

  lemma GroupsNotEmpty(shard: Shard, dim: nat, s: nat, query: Vector)
    requires Ready(shard, dim, query)
    ensures forall b :: b in Scores(shard, dim, s, query)
              ==> GroupOf(Groups(Distances(shard, dim, s, query)), b) != []
  {
  }

  lemma NothingSkipped(scan: Scan, groups: seq<seq<Candidate>>, scores: seq<Candidate>, k: nat, all: seq<Candidate>)
    requires IsScan(scan, groups, scores, k) && |all| <= k
    requires multiset(scan.Seen(groups) + scan.Skipped(groups)) == multiset(all)
    requires forall b :: b in scores ==> GroupOf(groups, b) != []
    ensures scan.stop == |scan.evals|
    ensures scan.rest == [] && multiset(scan.kept) == multiset(all)
  {
    KeepsEverything(scan.kept, scan.rest, scan.Seen(groups), scan.Skipped(groups), all, k);
    if scan.stop < |scan.evals| {
      SkippedNotEmpty(groups, scan.evals, scores, scan.stop);
      WithinBounds(scan.Seen(groups), scan.evals[scan.stop].cost);
    } else {
      assert scan.evals[scan.stop..] == [];
    }
  }

  /** With room for the whole shard nothing is skipped and everything is kept. */
  lemma RoomForAll(scan: Scan, shard: Shard, dim: nat, s: nat, query: Vector, k: nat)
    requires Ready(shard, dim, query) && ScansShard(scan, shard, dim, s, query, k)
    requires |shard.vectors| <= k
    ensures scan.stop == |scan.evals|
    ensures scan.rest == [] && multiset(scan.kept) == multiset(Distances(shard, dim, s, query))
  {
    var all := Distances(shard, dim, s, query);
    ScanCoversShard(scan, shard, dim, s, query, k);
    GroupsNotEmpty(shard, dim, s, query);
    NothingSkipped(scan, Groups(all), Scores(shard, dim, s, query), k, all);
  }

  /** How many vectors come before the last block. */
  function BeforeLast(n: nat): nat {
    if n == 0 then 0 else (n - 1) / BLOCK_SIZE * BLOCK_SIZE
  }

  lemma {:induction false} ScannedAtLeast(groups: seq<seq<Candidate>>, evals: seq<Candidate>, j: nat)
    requires j < |evals|
    ensures |Scanned(groups, evals)| >= |GroupOf(groups, evals[j])|
  {
    if j < |evals| - 1 {
      ScannedAtLeast(groups, evals[..|evals| - 1], j);
    }
  }

  lemma GroupAtLeast(all: seq<Candidate>, b: nat)
    requires b < BlockCount(|all|)
    ensures |Groups(all)[b]| >= |all| - BeforeLast(|all|)
  {
  }

  /** A scan that stops early has seen no more than what comes before the last block. */
  lemma SeenWhenStopped(scan: Scan, shard: Shard, dim: nat, s: nat, query: Vector, k: nat)
    requires Ready(shard, dim, query) && ScansShard(scan, shard, dim, s, query, k) && scan.stop < |scan.evals|
    ensures |scan.Seen(Groups(Distances(shard, dim, s, query)))| <= BeforeLast(|shard.vectors|)
  {
    var all := Distances(shard, dim, s, query);
    var groups, scores := Groups(all), Scores(shard, dim, s, query);
    var next := scan.evals[scan.stop];
    assert next in multiset(scores);
    GroupAtLeast(all, next.local);
    ScannedAtLeast(groups, scan.evals[scan.stop..], 0);
    ScanCoversShard(scan, shard, dim, s, query, k);
    assert |multiset(scan.Seen(groups) + scan.Skipped(groups))| == |multiset(all)|;
  }

  /** When k exceeds everything before the last block the scan skips nothing, so it is exact. */
  lemma NothingToSkip(scan: Scan, shard: Shard, dim: nat, s: nat, query: Vector, k: nat)
    requires Ready(shard, dim, query) && ScansShard(scan, shard, dim, s, query, k)
    requires k > BeforeLast(|shard.vectors|)
    ensures scan.stop == |scan.evals|
    ensures Selects(scan.kept, scan.rest, Distances(shard, dim, s, query), k)
  {
    var groups := Groups(Distances(shard, dim, s, query));
    ScanCoversShard(scan, shard, dim, s, query, k);
    if scan.stop < |scan.evals| {
      WithinBounds(scan.Seen(groups), scan.evals[scan.stop].cost);
      SeenWhenStopped(scan, shard, dim, s, query, k);
    } else {
      assert scan.evals[scan.stop..] == [];
      assert scan.Seen(groups) + [] == scan.Seen(groups);
    }
  }

  lemma KeepsEverything(kept: seq<Candidate>, rest: seq<Candidate>, seen: seq<Candidate>, skipped: seq<Candidate>,
                        all: seq<Candidate>, k: nat)
    requires Selects(kept, rest, seen, k) && multiset(seen + skipped) == multiset(all) && |all| <= k
    ensures |seen| + |skipped| == |all| && rest == []
    ensures skipped == [] ==> multiset(kept) == multiset(all)
  {
    assert |all| == |multiset(all)| == |multiset(seen + skipped)|;
    SelectionSize(kept, rest, seen, k);
    if skipped == [] {
      assert seen + skipped == seen;
    }
  }

  // ---------- Scores of blocks of copies ----------

  lemma {:induction false} CountAll(n: nat, f: nat -> bool)
    requires forall p: nat :: p < n ==> f(p)
    ensures Count(n, f) == n
  {
    if n > 0 {
      CountAll(n - 1, f);
    }
  }

  lemma {:induction false} CountFirst(n: nat, f: nat -> bool)
    requires n > 0 && f(0) && forall p: nat :: 0 < p < n ==> !f(p)
    ensures Count(n, f) == 1
  {
    if n > 1 {
      CountFirst(n - 1, f);
    }
  }

  lemma ScoreByPositions(vs: seq<Vector>, start: nat, query: Vector, against: nat -> bool)
    requires forall p: nat :: p < 64 * |query| ==> Against(Signature(vs, |query|, start), query, p) == against(p)
    ensures Score(query, Signature(vs, |query|, start), |query|) == 2 * Count(64 * |query|, against)
  {
    var nb, block := |query|, Signature(vs, |query|, start);
    ScoreMeaning(vs, nb, start, query);
    var against' := (p: nat) => Against(block, query, p);
    CountSame(64 * nb, against', against);
  }

  /** The score of a block of one vector does not depend on the vector: its high threshold is 0, so
      every bit is high and every unset bit of the query counts twice. */
  lemma LoneVectorScore(v: Vector, start: nat, query: Vector, unset: nat -> bool)
    requires forall p: nat :: unset(p) == !Bit(query, p)
    ensures Score(query, Signature([v], |query|, start), |query|) == 2 * Count(64 * |query|, unset)
  {
    forall p: nat | p < 64 * |query|
      ensures Against(Signature([v], |query|, start), query, p) == unset(p)
    {
      SignatureBits([v], |query|, start, p);
    }
    ScoreByPositions([v], start, query, unset);
  }

  lemma {:induction false} TallyOfCopies(vs: seq<Vector>, v: Vector, p: nat)
    requires forall i :: 0 <= i < |vs| ==> vs[i] == v
    ensures Tally(vs, p) == (if Bit(v, p) then |vs| else 0)
  {
    if vs != [] {
      TallyOfCopies(vs[..|vs| - 1], v, p);
    }
  }

  lemma CopiesBit(copies: seq<Vector>, v: Vector, start: nat, query: Vector, p: nat)
    requires |copies| >= 2 && p < 64 * |query|
    requires forall i :: 0 <= i < |copies| ==> copies[i] == v
    ensures Against(Signature(copies, |query|, start), query, p) == (Bit(v, p) != Bit(query, p))
  {
    SignatureBits(copies, |query|, start, p);
    TallyOfCopies(copies, v, p);
  }

  /** Copies of one vector score twice their distance: the score is no lower bound even there. */
  lemma CopiesScore(copies: seq<Vector>, v: Vector, start: nat, query: Vector, differs: nat -> bool)
    requires |v| == |query| && |copies| >= 2
    requires forall i :: 0 <= i < |copies| ==> copies[i] == v
    requires forall p: nat :: differs(p) == (Bit(v, p) != Bit(query, p))
    ensures Score(query, Signature(copies, |query|, start), |query|) == 2 * Hamming(v, query, |query|)
  {
    forall p: nat | p < 64 * |query|
      ensures Against(Signature(copies, |query|, start), query, p) == differs(p)
    {
      CopiesBit(copies, v, start, query, p);
    }
    ScoreByPositions(copies, start, query, differs);
    HammingCountsBits(v, query, |query|, differs);
  }
}
