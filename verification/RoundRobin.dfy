/** Concurrent `add`s as two steps, claiming a number and inserting under the shard's lock, in any
    interleaving of any number of threads: the round-robin conservation law, and where every entry ends up. */
module RoundRobin {
  import opened VectorStore

  type Entry = op: Op | op.AddOp? witness AddOp([], [], [])

  /** An entry and the number its thread claimed for it. */
  datatype Item = Item(number: nat, entry: Entry)

  /** What each shard holds in order of insertion, what every number so far was claimed for, and the claims not
      yet inserted. */
  datatype State = State(shards: seq<seq<Item>>, claimed: seq<Entry>, pending: multiset<Item>) {
    /** The write counter. */
    function Counter(): nat {
      |claimed|
    }
  }

  /** `fetch_add`, or the insertion for a number claimed earlier. */
  datatype Step = Claim(entry: Entry) | Settle(item: Item)

  ghost predicate Enabled(s: State, step: Step) {
    step.Claim? || step.item in s.pending
  }

  ghost function Next(s: State, step: Step): State
    requires s.shards != [] && Enabled(s, step)
  {
    match step
    case Claim(entry) =>
      s.(claimed := s.claimed + [entry], pending := s.pending + multiset{Item(s.Counter(), entry)})
    case Settle(item) =>
      var at := item.number % |s.shards|;
      s.(shards := s.shards[at := s.shards[at] + [item]], pending := s.pending - multiset{item})
  }

  ghost predicate Reaches(s: State, steps: seq<Step>, t: State)
    decreases |steps|
  {
    if steps == [] then s == t
    else s.shards != [] && Enabled(s, steps[0]) && Reaches(Next(s, steps[0]), steps[1..], t)
  }

  ghost function Start(shards: nat): State {
    State(seq(shards, _ => []), [], multiset{})
  }

  // ---------- How many entries each shard holds ----------

  /** Pending claims on shard i. */
  ghost function PendingOn(pending: multiset<Item>, shards: nat, i: nat): nat
    requires shards > 0
    decreases |pending|
  {
    if pending == multiset{} then 0
    else
      var item :| item in pending;
      PendingOn(pending - multiset{item}, shards, i) + (if item.number % shards == i then 1 else 0)
  }

  lemma {:induction false} PendingTake(pending: multiset<Item>, shards: nat, i: nat, item: Item)
    requires shards > 0 && item in pending
    ensures PendingOn(pending, shards, i)
         == PendingOn(pending - multiset{item}, shards, i) + (if item.number % shards == i then 1 else 0)
    decreases |pending|
  {
    var other :| other in pending
      && PendingOn(pending, shards, i)
         == PendingOn(pending - multiset{other}, shards, i) + (if other.number % shards == i then 1 else 0);
    if other != item {
      var without, others := pending - multiset{item}, pending - multiset{other};
      assert other in without && item in others && |without| < |pending| && |others| < |pending|;
      PendingTake(others, shards, i, item);
      PendingTake(without, shards, i, other);
      assert others - multiset{item} == without - multiset{other};
    }
  }

  /** Shard i's vectors plus the claims still pending on it are the numbers dealt to it so far. */
  ghost predicate Conserved(s: State) {
    && s.shards != []
    && forall i: nat :: i < |s.shards| ==>
         |s.shards[i]| + PendingOn(s.pending, |s.shards|, i) == Share(s.Counter(), |s.shards|, i)
  }

  lemma ClaimConserves(s: State, entry: Entry, i: nat)
    requires Conserved(s) && i < |s.shards|
    ensures var t, m := Next(s, Claim(entry)), |s.shards|;
            |t.shards[i]| + PendingOn(t.pending, m, i) == Share(t.Counter(), m, i)
  {
    var t, m, item := Next(s, Claim(entry)), |s.shards|, Item(s.Counter(), entry);
    PendingTake(t.pending, m, i, item);
    assert t.pending - multiset{item} == s.pending;
    ShareStep(s.Counter(), m, i);
  }

  lemma SettleConserves(s: State, item: Item, i: nat)
    requires Conserved(s) && item in s.pending && i < |s.shards|
    ensures var t, m := Next(s, Settle(item)), |s.shards|;
            |t.shards[i]| + PendingOn(t.pending, m, i) == Share(t.Counter(), m, i)
  {
    PendingTake(s.pending, |s.shards|, i, item);
  }

  lemma StepConserves(s: State, step: Step)
    requires Conserved(s) && Enabled(s, step)
    ensures Conserved(Next(s, step))
  {
    forall i: nat | i < |s.shards|
      ensures |Next(s, step).shards[i]| + PendingOn(Next(s, step).pending, |s.shards|, i)
           == Share(Next(s, step).Counter(), |s.shards|, i)
    {
      match step
      case Claim(entry) => ClaimConserves(s, entry, i);
      case Settle(item) => SettleConserves(s, item, i);
    }
  }

  /** Conservation over every interleaving. */
  lemma {:induction false} RunConserves(s: State, steps: seq<Step>, t: State)
    requires Conserved(s) && Reaches(s, steps, t)
    ensures Conserved(t) && |t.shards| == |s.shards|
    decreases |steps|
  {
    if steps != [] {
      StepConserves(s, steps[0]);
      RunConserves(Next(s, steps[0]), steps[1..], t);
    }
  }

  // ---------- Where each entry is ----------

  /** How often an item is in shard i or on its way there. */
  ghost function Copies(s: State, item: Item, i: nat): nat
    requires i < |s.shards|
  {
    multiset(s.shards[i])[item] + (if item.number % |s.shards| == i then s.pending[item] else 0)
  }

  /** The item was claimed, for this shard. */
  ghost predicate Due(s: State, item: Item, i: nat)
    requires s.shards != []
  {
    item.number < s.Counter() && s.claimed[item.number] == item.entry && item.number % |s.shards| == i
  }

  /** Every claimed entry is once in, or on its way to, the shard of its number, and nothing else is anywhere. */
  ghost predicate Placed(s: State) {
    && s.shards != []
    && forall item: Item, i: nat :: i < |s.shards| ==> Copies(s, item, i) == if Due(s, item, i) then 1 else 0
  }

  lemma StepPlaces(s: State, step: Step)
    requires Placed(s) && Enabled(s, step)
    ensures Placed(Next(s, step))
  {
    var t := Next(s, step);
    forall item: Item, i: nat | i < |s.shards|
      ensures Copies(t, item, i) == if Due(t, item, i) then 1 else 0
    {
      assert Copies(s, item, i) == if Due(s, item, i) then 1 else 0;
      if step.Claim? {
        ClaimPlaces(s, step.entry, item, i);
      } else {
        SettlePlaces(s, step.item, item, i);
      }
    }
  }

  lemma ClaimPlaces(s: State, entry: Entry, item: Item, i: nat)
    requires i < |s.shards| && Copies(s, item, i) == if Due(s, item, i) then 1 else 0
    ensures var t := Next(s, Claim(entry)); Copies(t, item, i) == if Due(t, item, i) then 1 else 0
  {
    if item.number % |s.shards| == i && item == Item(s.Counter(), entry) {
      assert !Due(s, item, i);
    }
  }

  lemma SettlePlaces(s: State, settled: Item, item: Item, i: nat)
    requires settled in s.pending && i < |s.shards|
    ensures Copies(Next(s, Settle(settled)), item, i) == Copies(s, item, i)
    ensures Due(Next(s, Settle(settled)), item, i) == Due(s, item, i)
  {
  }

  lemma {:induction false} RunPlaces(s: State, steps: seq<Step>, t: State)
    requires Placed(s) && Reaches(s, steps, t)
    ensures Placed(t)
    decreases |steps|
  {
    if steps != [] {
      StepPlaces(s, steps[0]);
      RunPlaces(Next(s, steps[0]), steps[1..], t);
    }
  }

  // ---------- Quiescence ----------

  function Total(shards: seq<seq<Item>>): nat {
    if shards == [] then 0 else Total(shards[..|shards| - 1]) + |shards[|shards| - 1]|
  }

  /** The numbers below n, counted by remainder: the first k remainders. */
  lemma {:induction false} SharesAddUp(shards: seq<seq<Item>>, n: nat, m: nat)
    requires |shards| <= m && m > 0
    requires forall i: nat :: i < |shards| ==> |shards[i]| == Share(n, m, i)
    ensures Total(shards) == |shards| * (n / m) + (if |shards| < n % m then |shards| else n % m)
  {
    if shards != [] {
      var k := |shards| - 1;
      SharesAddUp(shards[..k], n, m);
      assert (k + 1) * (n / m) == k * (n / m) + n / m;
    }
  }

  lemma Balanced(shards: seq<seq<Item>>, n: nat)
    requires shards != [] && forall i: nat :: i < |shards| ==> |shards[i]| == Share(n, |shards|, i)
    ensures Total(shards) == n
  {
    var m := |shards|;
    SharesAddUp(shards, n, m);
    assert n == m * (n / m) + n % m;
  }

  /** When all claims are settled, shard sizes differ by at most one and `len` is the counter. */
  lemma Quiescent(shards: nat, steps: seq<Step>, t: State)
    requires shards > 0 && Reaches(Start(shards), steps, t) && t.pending == multiset{}
    ensures |t.shards| == shards && Total(t.shards) == t.Counter()
    ensures forall i: nat, j: nat :: i < shards && j < shards ==> |t.shards[i]| <= |t.shards[j]| + 1
  {
    RunConserves(Start(shards), steps, t);
    forall i: nat | i < shards
      ensures |t.shards[i]| == Share(t.Counter(), shards, i)
    {
      assert PendingOn(t.pending, shards, i) == 0;
    }
    Balanced(t.shards, t.Counter());
  }

  /** And every claimed entry sits in the shard of its number exactly once, with nothing else stored anywhere. */
  lemma QuiescentEntries(shards: nat, steps: seq<Step>, t: State, item: Item, i: nat)
    requires i < shards && Reaches(Start(shards), steps, t) && t.pending == multiset{}
    ensures |t.shards| == shards && multiset(t.shards[i])[item] == if Due(t, item, i) then 1 else 0
  {
    RunConserves(Start(shards), steps, t);
    RunPlaces(Start(shards), steps, t);
    assert Copies(t, item, i) == multiset(t.shards[i])[item];
  }
}
