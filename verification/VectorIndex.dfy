/** The block signatures of a vector shard: what one signature is, how the block list follows the
    vectors, and what the pruning score of a block says about the vectors in it. Stored vectors are
    sequences of words here; `CoreShard` keeps them concatenated in one flat array. */
module VectorIndex {
  import opened Counting
  import opened Bits

  const BLOCK_SIZE: nat := 128

  type Vector = seq<Word>

  datatype Block = Block(high: seq<Word>, low: seq<Word>, superpositions: nat, start: nat, end: nat)

  /** Every vector has nb words. */
  predicate Uniform(vs: seq<Vector>, nb: nat) {
    forall i :: 0 <= i < |vs| ==> |vs[i]| == nb
  }

  // ---------- One signature ----------

  /** How many of the vectors have bit p set. */
  function Tally(vs: seq<Vector>, p: nat): nat {
    if vs == [] then 0 else Tally(vs[..|vs| - 1], p) + (if Bit(vs[|vs| - 1], p) then 1 else 0)
  }

  function HighWord(vs: seq<Vector>, j: nat): Word {
    seq(64, b requires 0 <= b < 64 => Tally(vs, 64 * j + b) >= |vs| * 7 / 10)
  }

  function LowWord(vs: seq<Vector>, j: nat): Word {
    seq(64, b requires 0 <= b < 64 =>
      var t := Tally(vs, 64 * j + b);
      t < |vs| * 7 / 10 && t <= |vs| * 3 / 10)
  }

  /** Positions in superposition: neither high nor low. */
  function FreeBits(high: seq<Word>, low: seq<Word>, n: nat): nat
    requires n <= |high| && n <= |low|
  {
    if n == 0 then 0 else FreeBits(high, low, n - 1) + Popcount(Not(Or(high[n - 1], low[n - 1])))
  }

  /** The signature of the vectors `vs`, stored from index `start`. */
  function Signature(vs: seq<Vector>, nb: nat, start: nat): Block {
    var high := seq(nb, j requires 0 <= j < nb => HighWord(vs, j));
    var low := seq(nb, j requires 0 <= j < nb => LowWord(vs, j));
    Block(high, low, FreeBits(high, low, nb), start, start + |vs|)
  }

  // ---------- The block list ----------

  function BlockCount(n: nat): nat {
    n / BLOCK_SIZE + (if n % BLOCK_SIZE != 0 then 1 else 0)
  }

  function BlockEnd(i: nat, n: nat): nat {
    var end := (i + 1) * BLOCK_SIZE;
    if end < n then end else n
  }

  /** The i-th block of the index, computed from scratch. */
  function BlockAt(vs: seq<Vector>, nb: nat, i: nat): Block
    requires i < BlockCount(|vs|)
  {
    Signature(vs[i * BLOCK_SIZE..BlockEnd(i, |vs|)], nb, i * BLOCK_SIZE)
  }

  /** The index computed from scratch: all vectors tiled in 128s, only the last block partial. */
  function Blocks(vs: seq<Vector>, nb: nat): seq<Block> {
    seq(BlockCount(|vs|), i requires 0 <= i < BlockCount(|vs|) => BlockAt(vs, nb, i))
  }

  function NewBlocks(from: nat, vs: seq<Vector>, nb: nat): seq<Block> {
    if from < BlockCount(|vs|) then
      seq(BlockCount(|vs|) - from, i requires 0 <= i < BlockCount(|vs|) - from => BlockAt(vs, nb, from + i))
    else []
  }

  /** What one call of `rebuild_blocks` leaves, given the blocks it finds. */
  function Rebuild(blocks: seq<Block>, vs: seq<Vector>, nb: nat): seq<Block>
    requires blocks != [] ==> blocks[|blocks| - 1].start <= |vs|
  {
    if |blocks| == BlockCount(|vs|) && blocks != [] then
      var last := blocks[|blocks| - 1];
      if last.end != |vs| then blocks[..|blocks| - 1] + [Signature(vs[last.start..], nb, last.start)] else blocks
    else
      blocks + NewBlocks(|blocks|, vs, nb)
  }

  /** A block that keeps its end keeps its signature when vectors are appended. */
  lemma OldBlockStable(vs: seq<Vector>, more: seq<Vector>, nb: nat, i: nat)
    requires i < BlockCount(|vs|) && BlockEnd(i, |vs|) == BlockEnd(i, |vs + more|)
    ensures BlockAt(vs + more, nb, i) == BlockAt(vs, nb, i)
  {
    var from, to := i * BLOCK_SIZE, BlockEnd(i, |vs|);
    assert (vs + more)[from..to] == vs[from..to];
  }

  /** What the refresh puts into the last block. */
  lemma LastBlockIs(vs: seq<Vector>, nb: nat, last: nat)
    requires vs != [] && last == BlockCount(|vs|) - 1
    ensures Blocks(vs, nb)[last] == Signature(vs[last * BLOCK_SIZE..], nb, last * BLOCK_SIZE)
    ensures Blocks(vs, nb)[last].start == last * BLOCK_SIZE && Blocks(vs, nb)[last].end == |vs|
  {
    assert BlockEnd(last, |vs|) == |vs|;
    assert vs[last * BLOCK_SIZE..] == vs[last * BLOCK_SIZE..|vs|];
  }

  lemma LastBlockRefreshed(vs: seq<Vector>, more: seq<Vector>, nb: nat)
    requires more != [] && BlockCount(|vs + more|) == BlockCount(|vs|) && vs != []
    ensures Rebuild(Blocks(vs, nb), vs + more, nb) == Blocks(vs + more, nb)
  {
    var was, all, last := Blocks(vs, nb), vs + more, BlockCount(|vs|) - 1;
    var want, from := Blocks(all, nb), last * BLOCK_SIZE;
    LastBlockIs(vs, nb, last);
    LastBlockIs(all, nb, last);
    forall i: nat | i < last
      ensures was[i] == want[i]
    {
      OldBlockStable(vs, more, nb, i);
    }
    assert was[..last] + [want[last]] == want;
  }

  lemma BlocksAppended(vs: seq<Vector>, more: seq<Vector>, nb: nat)
    requires |vs| % BLOCK_SIZE == 0 && more != []
    ensures Rebuild(Blocks(vs, nb), vs + more, nb) == Blocks(vs + more, nb)
  {
    var was, all := Blocks(vs, nb), vs + more;
    var want := Blocks(all, nb);
    assert |was| < |want|;
    forall i: nat | i < |was|
      ensures was[i] == want[i]
    {
      OldBlockStable(vs, more, nb, i);
    }
    assert want == was + NewBlocks(|was|, all, nb);
  }

  lemma NothingAppended(vs: seq<Vector>, nb: nat)
    ensures Rebuild(Blocks(vs, nb), vs, nb) == Blocks(vs, nb)
  {
  }

  /** The incremental rebuild restores the index exactly when it does not leave a partial block
      behind: always after one `add`, not after every batch of appends. */
  lemma RebuildRestores(vs: seq<Vector>, more: seq<Vector>, nb: nat)
    ensures Rebuild(Blocks(vs, nb), vs + more, nb) == Blocks(vs + more, nb)
       <==> |vs| % BLOCK_SIZE == 0 || BlockCount(|vs + more|) == BlockCount(|vs|)
  {
    if more == [] {
      NothingAppended(vs, nb);
      assert vs + more == vs;
    } else if |vs| % BLOCK_SIZE == 0 {
      BlocksAppended(vs, more, nb);
    } else if BlockCount(|vs + more|) == BlockCount(|vs|) {
      LastBlockRefreshed(vs, more, nb);
    } else {
      var last := BlockCount(|vs|) - 1;
      assert Rebuild(Blocks(vs, nb), vs + more, nb)[last].end == |vs|;
      assert Blocks(vs + more, nb)[last].end != |vs|;
    }
  }

  /** One vector more never leaves a partial block behind. */
  lemma RebuildAfterAdd(vs: seq<Vector>, vector: Vector, nb: nat)
    ensures Rebuild(Blocks(vs, nb), vs + [vector], nb) == Blocks(vs + [vector], nb)
  {
    RebuildRestores(vs, [vector], nb);
  }

  // ---------- The score of a block ----------

  /** Sum of the two popcounts per word that the search adds up for a block. */
  function RawScore(query: Vector, queryLow: seq<Word>, block: Block, n: nat): nat
    requires n <= |query| && n <= |queryLow| && n <= |block.high| && n <= |block.low|
  {
    if n == 0 then 0
    else RawScore(query, queryLow, block, n - 1)
         + Popcount(Xor(query[n - 1], block.high[n - 1])) + Popcount(Xor(queryLow[n - 1], block.low[n - 1]))
  }

  /** The score after `saturating_sub`. */
  function Score(query: Vector, block: Block, nb: nat): nat
    requires nb == |query| && nb <= |block.high| && nb <= |block.low|
  {
    var raw := RawScore(query, Complement(query), block, nb);
    if raw >= block.superpositions then raw - block.superpositions else 0
  }

  predicate Decided(block: Block, p: nat) {
    Bit(block.high, p) || Bit(block.low, p)
  }

  /** A decided position whose value differs from the query's. */
  predicate Against(block: Block, query: Vector, p: nat) {
    if Bit(query, p) then Bit(block.low, p) else Bit(block.high, p)
  }

  /** A decided position whose value is the query's. */
  predicate For(block: Block, query: Vector, p: nat) {
    if Bit(query, p) then Bit(block.high, p) else Bit(block.low, p)
  }

  function Disagreeing(block: Block, query: Vector, nb: nat): nat {
    Count(64 * nb, (p: nat) => Against(block, query, p))
  }

  function Agreeing(block: Block, query: Vector, nb: nat): nat {
    Count(64 * nb, (p: nat) => For(block, query, p))
  }

  function Superposed(block: Block, nb: nat): nat {
    Count(64 * nb, (p: nat) => !Decided(block, p))
  }

  lemma SignatureWords(vs: seq<Vector>, nb: nat, start: nat, j: nat, b: nat)
    requires j < nb && b < 64
    ensures var block, t := Signature(vs, nb, start), Tally(vs, 64 * j + b);
            && block.high[j][b] == (t >= |vs| * 7 / 10)
            && block.low[j][b] == (t < |vs| * 7 / 10 && t <= |vs| * 3 / 10)
  {
    var block := Signature(vs, nb, start);
    assert block.high[j] == HighWord(vs, j) && block.low[j] == LowWord(vs, j);
  }

  /** A signature never calls a bit both high and low, and its bits are the thresholds on the tally. */
  lemma SignatureBits(vs: seq<Vector>, nb: nat, start: nat, p: nat)
    requires p < 64 * nb
    ensures var block, t := Signature(vs, nb, start), Tally(vs, p);
            && Bit(block.high, p) == (t >= |vs| * 7 / 10)
            && Bit(block.low, p) == (t < |vs| * 7 / 10 && t <= |vs| * 3 / 10)
  {
    var j, b := p / 64, p % 64;
    assert 64 * j + b == p;
    SignatureWords(vs, nb, start, j, b);
  }

  lemma {:induction false} FreeBitsOfWords(block: Block, n: nat, free: nat -> bool)
    requires n <= |block.high| && n <= |block.low|
    requires forall m: nat, i: nat :: m < n && i < 64 ==>
      Not(Or(block.high[m], block.low[m]))[i] == free(64 * m + i)
    ensures FreeBits(block.high, block.low, n) == Count(64 * n, free)
  {
    if n > 0 {
      FreeBitsOfWords(block, n - 1, free);
      var w, base := Not(Or(block.high[n - 1], block.low[n - 1])), 64 * (n - 1);
      forall i: nat | i < |w|
        ensures free(base + i) == w[i]
      {
      }
      CountInRun(w, base, free);
      assert base + |w| == 64 * n;
    }
  }

  lemma FreeBitsAreSuperposed(block: Block, n: nat, free: nat -> bool)
    requires n <= |block.high| && n <= |block.low|
    requires forall p: nat :: free(p) == !Decided(block, p)
    ensures FreeBits(block.high, block.low, n) == Count(64 * n, free)
  {
    forall m: nat, i: nat | m < n && i < 64
      ensures Not(Or(block.high[m], block.low[m]))[i] == free(64 * m + i)
    {
      BitOfWord(block.high, m, i);
      BitOfWord(block.low, m, i);
    }
    FreeBitsOfWords(block, n, free);
  }

  lemma {:induction false} RawScoreIsTwoDistances(query: Vector, queryLow: seq<Word>, block: Block, n: nat)
    requires n <= |query| && n <= |queryLow| && n <= |block.high| && n <= |block.low|
    ensures RawScore(query, queryLow, block, n) == Hamming(query, block.high, n) + Hamming(queryLow, block.low, n)
  {
    if n > 0 {
      RawScoreIsTwoDistances(query, queryLow, block, n - 1);
    }
  }

  lemma ComplementBit(v: seq<Word>, p: nat)
    requires p < 64 * |v|
    ensures Bit(Complement(v), p) == !Bit(v, p)
  {
  }

  /** Two counts that together meet each position 0, 1 or 2 times. */
  lemma {:induction false} PairCount(n: nat, f: nat -> bool, g: nat -> bool, both: nat -> bool, one: nat -> bool)
    requires forall p: nat :: p < n ==> (both(p) ==> f(p) && g(p) && !one(p))
    requires forall p: nat :: p < n ==> (one(p) ==> f(p) != g(p))
    requires forall p: nat :: p < n ==> (!both(p) && !one(p) ==> !f(p) && !g(p))
    ensures Count(n, f) + Count(n, g) == 2 * Count(n, both) + Count(n, one)
  {
    if n > 0 {
      PairCount(n - 1, f, g, both, one);
    }
  }

  /** What the score means: every decided bit against the query counts twice, the superposed bits
      cancel, and the subtraction never saturates. */
  lemma ScoreMeaning(vs: seq<Vector>, nb: nat, start: nat, query: Vector)
    requires |query| == nb
    ensures var block := Signature(vs, nb, start);
            var d, a, s := Disagreeing(block, query, nb), Agreeing(block, query, nb), Superposed(block, nb);
            && d + a + s == 64 * nb
            && block.superpositions == s
            && RawScore(query, Complement(query), block, nb) == 2 * d + s
            && Score(query, block, nb) == 2 * d
  {
    var block := Signature(vs, nb, start);
    var n, notQuery := 64 * nb, Complement(query);
    var against := (p: nat) => Against(block, query, p);
    var agree := (p: nat) => For(block, query, p);
    var free := (p: nat) => !Decided(block, p);
    var high := (p: nat) => Bit(query, p) != Bit(block.high, p);
    var low := (p: nat) => Bit(notQuery, p) != Bit(block.low, p);
    forall p: nat | p < n
      ensures !(Bit(block.high, p) && Bit(block.low, p)) && Bit(notQuery, p) == !Bit(query, p)
    {
      SignatureBits(vs, nb, start, p);
      ComplementBit(query, p);
    }
    RawScoreIsTwoDistances(query, notQuery, block, nb);
    HammingCountsBits(query, block.high, nb, high);
    HammingCountsBits(notQuery, block.low, nb, low);
    PairCount(n, high, low, against, free);
    FreeBitsAreSuperposed(block, nb, free);
    SumByKind(n, (p: nat) => 0, against, agree, free, 0, 0, 0, 0, 0, 0);
  }

  // ---------- The score against the members' distances ----------

  /** Sum of the vectors' distances to the query. */
  function TotalDistance(vs: seq<Vector>, nb: nat, query: Vector): nat
    requires Uniform(vs, nb) && |query| == nb
  {
    if vs == [] then 0
    else TotalDistance(vs[..|vs| - 1], nb, query) + Hamming(vs[|vs| - 1], query, nb)
  }

  /** How many of the vectors differ from the query at position p. */
  function Misses(vs: seq<Vector>, query: Vector, p: nat): nat {
    if Bit(query, p) then |vs| - (TallyAtMost(vs, p); Tally(vs, p)) else Tally(vs, p)
  }

  lemma {:induction false} TallyAtMost(vs: seq<Vector>, p: nat)
    ensures Tally(vs, p) <= |vs|
  {
    if vs != [] {
      TallyAtMost(vs[..|vs| - 1], p);
    }
  }

  /** Double counting: the vectors' distances, summed by position instead of by vector. */
  lemma {:induction false} DistancesByPosition(vs: seq<Vector>, nb: nat, query: Vector, misses: nat -> int)
    requires Uniform(vs, nb) && |query| == nb
    requires forall p: nat :: misses(p) == Misses(vs, query, p)
    ensures TotalDistance(vs, nb, query) == Sum(64 * nb, misses)
  {
    if vs == [] {
      SumZero(64 * nb, misses);
    } else {
      var front, last := vs[..|vs| - 1], vs[|vs| - 1];
      var fewer: nat -> int := (p: nat) => Misses(front, query, p);
      var differ := (p: nat) => Bit(last, p) != Bit(query, p);
      var one: nat -> int := (p: nat) => if differ(p) then 1 else 0;
      DistancesByPosition(front, nb, query, fewer);
      HammingCountsBits(last, query, nb, differ);
      CountAsSum(64 * nb, differ, one);
      SumPlus(64 * nb, fewer, one, misses);
    }
  }

  /** Bounds on the number m of members that miss the query at p, by the kind of that position. */
  predicate PositionBounded(block: Block, query: Vector, p: nat, m: int, high: int, low: int, w: int) {
    && !(Bit(block.high, p) && Bit(block.low, p))
    && (Against(block, query, p) ==> high <= m <= w)
    && (For(block, query, p) ==> 0 <= m <= w - high)
    && (!Decided(block, p) ==> low + 1 <= m <= w - low - 1)
  }

  lemma PositionBounds(vs: seq<Vector>, nb: nat, start: nat, query: Vector, p: nat)
    requires p < 64 * nb
    ensures PositionBounded(Signature(vs, nb, start), query, p, Misses(vs, query, p),
                            |vs| * 7 / 10, |vs| * 3 / 10, |vs|)
  {
    SignatureBits(vs, nb, start, p);
    TallyAtMost(vs, p);
  }

  /** The sum of the members' distances lies between the sums of the per-position bounds. */
  predicate TotalBounded(block: Block, query: Vector, nb: nat, total: int, high: int, low: int, w: int) {
    var d, a, s := Disagreeing(block, query, nb), Agreeing(block, query, nb), Superposed(block, nb);
    d * high + s * (low + 1) <= total <= d * w + a * (w - high) + s * (w - low - 1)
  }

  lemma SumOverBlock(block: Block, query: Vector, nb: nat, f: nat -> int, high: int, low: int, w: int)
    requires forall p: nat :: p < 64 * nb ==> PositionBounded(block, query, p, f(p), high, low, w)
    ensures TotalBounded(block, query, nb, Sum(64 * nb, f), high, low, w)
  {
    var n := 64 * nb;
    var against := (p: nat) => Against(block, query, p);
    var agree := (p: nat) => For(block, query, p);
    var free := (p: nat) => !Decided(block, p);
    forall p: nat | p < n
      ensures !(Bit(block.high, p) && Bit(block.low, p))
      ensures against(p) ==> high <= f(p) <= w
      ensures agree(p) ==> 0 <= f(p) <= w - high
      ensures free(p) ==> low + 1 <= f(p) <= w - low - 1
    {
      assert PositionBounded(block, query, p, f(p), high, low, w);
    }
    SumByKind(n, f, against, agree, free, high, 0, low + 1, w, w - high, w - low - 1);
  }

  /** What the score does bound: the sum of the members' distances, from both sides. */
  lemma BlockDistanceBounds(vs: seq<Vector>, nb: nat, start: nat, query: Vector)
    requires Uniform(vs, nb) && |query| == nb
    ensures TotalBounded(Signature(vs, nb, start), query, nb, TotalDistance(vs, nb, query),
                         |vs| * 7 / 10, |vs| * 3 / 10, |vs|)
  {
    var block := Signature(vs, nb, start);
    var misses: nat -> int := (p: nat) => Misses(vs, query, p);
    forall p: nat | p < 64 * nb
      ensures PositionBounded(block, query, p, misses(p), |vs| * 7 / 10, |vs| * 3 / 10, |vs|)
    {
      PositionBounds(vs, nb, start, query, p);
    }
    DistancesByPosition(vs, nb, query, misses);
    SumOverBlock(block, query, nb, misses, |vs| * 7 / 10, |vs| * 3 / 10, |vs|);
  }
}
