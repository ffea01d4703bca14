/** The sharded, append-only vector store: quantiser, shards with their flat arrays and block index,
    and the round-robin `add`, `clear` and `len`. */
module VectorStore {
  import opened Bytes
  import opened VectorIndex

  // ---------- Values ----------

  /** What a shard holds: entry i is key i, bit vector i and float vector i. */
  datatype Shard = Shard(keys: seq<bytes>, vectors: seq<Vector>, floats: seq<seq<F32>>, blocks: seq<Block>)

  datatype Store = Store(dim: nat, shards: seq<Shard>, counter: nat) {
    function Words(): nat {
      dim / 64
    }
  }

  const EMPTY_SHARD: Shard := Shard([], [], [], [])

  ghost predicate ShardOk(s: Shard, dim: nat) {
    && |s.keys| == |s.vectors| == |s.floats|
    && Uniform(s.vectors, dim / 64)
    && (forall i :: 0 <= i < |s.floats| ==> |s.floats[i]| == dim)
    && s.blocks == Blocks(s.vectors, dim / 64)
  }

  ghost predicate StoreOk(s: Store) {
    && s.dim % 64 == 0 && s.shards != []
    && forall i :: 0 <= i < |s.shards| ==> ShardOk(s.shards[i], s.dim)
  }

  /** A float vector padded with 0.0 or truncated to `dim` entries. */
  function Fit(floats: seq<F32>, dim: nat): (r: seq<F32>)
    ensures |r| == dim
    ensures forall i :: 0 <= i < dim ==> r[i] == (if i < |floats| then floats[i] else Finite(0.0))
  {
    seq(dim, i requires 0 <= i < dim => if i < |floats| then floats[i] else Finite(0.0))
  }

  function Insert(s: Shard, dim: nat, key: bytes, vector: Vector, floats: seq<F32>): Shard
    requires s.blocks != [] ==> s.blocks[|s.blocks| - 1].start <= |s.vectors|
  {
    Shard(s.keys + [key], s.vectors + [vector], s.floats + [Fit(floats, dim)],
          Rebuild(s.blocks, s.vectors + [vector], dim / 64))
  }

  function Add(s: Store, key: bytes, vector: Vector, floats: seq<F32>): Store
    requires StoreOk(s)
  {
    var at := s.counter % |s.shards|;
    s.(shards := s.shards[at := Insert(s.shards[at], s.dim, key, vector, floats)], counter := s.counter + 1)
  }

  function Clear(s: Store): Store {
    s.(shards := seq(|s.shards|, _ => EMPTY_SHARD), counter := 0)
  }

  function New(dim: nat, shards: nat): Store {
    Store(dim, seq(shards, _ => EMPTY_SHARD), 0)
  }

  function TotalVectors(shards: seq<Shard>): nat {
    if shards == [] then 0 else TotalVectors(shards[..|shards| - 1]) + |shards[|shards| - 1].keys|
  }

  // ---------- Invariants over every history of adds and clears ----------

  datatype Op = AddOp(key: bytes, vector: Vector, floats: seq<F32>) | ClearOp

  lemma InsertKeepsOk(s: Shard, dim: nat, key: bytes, vector: Vector, floats: seq<F32>)
    requires ShardOk(s, dim) && |vector| == dim / 64
    ensures s.blocks != [] ==> s.blocks[|s.blocks| - 1].start <= |s.vectors|
    ensures ShardOk(Insert(s, dim, key, vector, floats), dim)
  {
    RebuildAfterAdd(s.vectors, vector, dim / 64);
  }

  lemma AddKeepsOk(s: Store, key: bytes, vector: Vector, floats: seq<F32>)
    requires StoreOk(s) && |vector| == s.Words()
    ensures StoreOk(Add(s, key, vector, floats))
  {
    InsertKeepsOk(s.shards[s.counter % |s.shards|], s.dim, key, vector, floats);
  }

  lemma ClearKeepsOk(s: Store)
    requires StoreOk(s)
    ensures StoreOk(Clear(s))
  {
  }

  lemma {:induction false} TotalAfterInsert(shards: seq<Shard>, at: nat, s: Shard)
    requires at < |shards|
    ensures TotalVectors(shards[at := s]) == TotalVectors(shards) - |shards[at].keys| + |s.keys|
  {
    var last := |shards| - 1;
    if at < last {
      TotalAfterInsert(shards[..last], at, s);
      assert shards[at := s][..last] == shards[..last][at := s];
    } else {
      assert shards[at := s][..last] == shards[..last];
    }
  }

  lemma {:induction false} TotalOfEmpty(n: nat)
    ensures TotalVectors(seq(n, _ => EMPTY_SHARD)) == 0
  {
    if n > 0 {
      TotalOfEmpty(n - 1);
      assert seq(n, _ => EMPTY_SHARD)[..n - 1] == seq(n - 1, _ => EMPTY_SHARD);
    }
  }

  /** Entry n since the last clear sits in shard n mod S at slot n div S, and nothing else is stored. */
  ghost predicate Dealt(s: Store, since: seq<Op>) {
    && s.shards != [] && s.counter == |since|
    && (forall i :: 0 <= i < |s.shards| ==>
          && |s.shards[i].keys| == |s.shards[i].vectors| == |s.shards[i].floats| == Share(|since|, |s.shards|, i))
    && (forall n :: 0 <= n < |since| ==> since[n].AddOp? && DealtAt(s, n, since[n]))
  }

  ghost predicate DealtAt(s: Store, n: nat, op: Op)
    requires s.shards != [] && op.AddOp?
  {
    var shard, slot := s.shards[n % |s.shards|], n / |s.shards|;
    && slot < |shard.keys| == |shard.vectors| == |shard.floats|
    && shard.keys[slot] == op.key && shard.vectors[slot] == op.vector && shard.floats[slot] == Fit(op.floats, s.dim)
  }

  /** How many of the numbers below n leave remainder i modulo m. */
  function Share(n: nat, m: nat, i: nat): nat
    requires m > 0
  {
    n / m + (if i < n % m then 1 else 0)
  }

  /** Every vector added has the width of the store. */
  ghost predicate Fitting(ops: seq<Op>, words: nat) {
    forall op :: op in ops && op.AddOp? ==> |op.vector| == words
  }

  function Run(s: Store, ops: seq<Op>): (r: Store)
    requires StoreOk(s) && Fitting(ops, s.Words())
    ensures StoreOk(r) && r.dim == s.dim && |r.shards| == |s.shards|
  {
    if ops == [] then s
    else
      var before := Run(s, ops[..|ops| - 1]);
      var op := ops[|ops| - 1];
      if op.ClearOp? then Clear(before)
      else
        assert op in ops;
        AddKeepsOk(before, op.key, op.vector, op.floats);
        Add(before, op.key, op.vector, op.floats)
  }

  /** The operations after the last clear. */
  function SinceClear(ops: seq<Op>): seq<Op> {
    if ops == [] || ops[|ops| - 1].ClearOp? then []
    else SinceClear(ops[..|ops| - 1]) + [ops[|ops| - 1]]
  }

  lemma DivModUnique(n: nat, m: nat, q: nat, r: nat)
    requires r < m && n == q * m + r
    ensures n / m == q && n % m == r
  {
    var d := q - n / m;
    assert d * m == n % m - r by {
      assert n == (n / m) * m + n % m;
    }
  }

  lemma {:induction false} RowBelow(j: nat, q: nat, width: nat)
    requires j < q
    ensures j * width + width <= q * width
  {
    assert q * width == (q - 1) * width + width;
    if j < q - 1 {
      RowBelow(j, q - 1, width);
    }
  }

  lemma ShareStep(n: nat, m: nat, i: nat)
    requires m > 0 && i < m
    ensures Share(n + 1, m, i) == Share(n, m, i) + (if i == n % m then 1 else 0)
    ensures i == n % m ==> Share(n, m, i) == n / m
  {
    var q, r := n / m, n % m;
    assert n == q * m + r;
    if r == m - 1 {
      DivModUnique(n + 1, m, q + 1, 0);
    } else {
      DivModUnique(n + 1, m, q, r + 1);
    }
  }

  lemma DealtStep(s: Store, since: seq<Op>, op: Op)
    requires StoreOk(s) && Dealt(s, since) && op.AddOp?
    ensures Dealt(Add(s, op.key, op.vector, op.floats), since + [op])
  {
    var m, n, after := |s.shards|, |since|, Add(s, op.key, op.vector, op.floats);
    forall i | 0 <= i < m
      ensures |after.shards[i].keys| == |after.shards[i].vectors| == |after.shards[i].floats| == Share(n + 1, m, i)
    {
      ShareStep(n, m, i);
    }
    ShareStep(n, m, n % m);
    assert DealtAt(after, n, op);
    forall j | 0 <= j < n
      ensures DealtAt(after, j, since[j])
    {
      assert DealtAt(s, j, since[j]);
    }
  }

  /** What holds of the store when `since` are the operations after the last clear. */
  ghost predicate HistoryOk(s: Store, since: seq<Op>) {
    StoreOk(s) && Dealt(s, since) && TotalVectors(s.shards) == s.counter
  }

  lemma AddHistory(s: Store, since: seq<Op>, op: Op)
    requires HistoryOk(s, since) && op.AddOp? && |op.vector| == s.Words()
    ensures HistoryOk(Add(s, op.key, op.vector, op.floats), since + [op])
  {
    AddKeepsOk(s, op.key, op.vector, op.floats);
    DealtStep(s, since, op);
    var at := s.counter % |s.shards|;
    TotalAfterInsert(s.shards, at, Insert(s.shards[at], s.dim, op.key, op.vector, op.floats));
  }

  lemma EmptyHistory(s: Store)
    requires s.dim % 64 == 0 && s.shards != [] && s.counter == 0
    requires s.shards == seq(|s.shards|, _ => EMPTY_SHARD)
    ensures HistoryOk(s, [])
  {
    TotalOfEmpty(|s.shards|);
  }

  /** The index invariant, the placement of every entry and the total hold after every history of
      adds and clears. */
  lemma {:induction false} EveryHistory(dim: nat, shards: nat, ops: seq<Op>)
    requires dim % 64 == 0 && shards > 0 && Fitting(ops, dim / 64)
    ensures StoreOk(New(dim, shards))
    ensures HistoryOk(Run(New(dim, shards), ops), SinceClear(ops))
  {
    EmptyHistory(New(dim, shards));
    if ops != [] {
      var front, op := ops[..|ops| - 1], ops[|ops| - 1];
      EveryHistory(dim, shards, front);
      var before := Run(New(dim, shards), front);
      if op.ClearOp? {
        EmptyHistory(Clear(before));
      } else {
        assert op in ops;
        AddHistory(before, SinceClear(front), op);
      }
    }
  }
}
