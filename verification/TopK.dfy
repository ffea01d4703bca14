/** Bounded selection of the cheapest candidates: what the heaps, the shard merge and the final
    sorts of the vector store are for. A candidate's cost is its Hamming distance, or the negated
    rerank score (the rerank ordering is reversed in the source for the same purpose). */
module TopK {

  datatype Candidate = Candidate(cost: int, shard: nat, local: nat)

  /** `kept` is a choice of the k cheapest members of `all` (every member when there are at most k),
      `rest` is what was turned away. Ties may be broken either way. */
  ghost predicate Selects(kept: seq<Candidate>, rest: seq<Candidate>, all: seq<Candidate>, k: nat) {
    && multiset(kept) + multiset(rest) == multiset(all)
    && |kept| <= k
    && (rest != [] ==> |kept| == k)
    && forall a, b :: a in kept && b in rest ==> a.cost <= b.cost
  }

  ghost predicate IsTopK(kept: seq<Candidate>, all: seq<Candidate>, k: nat) {
    exists rest :: Selects(kept, rest, all, k)
  }

  // ---------- Counting the candidates within a cost ----------

  function Within(cs: seq<Candidate>, t: int): nat {
    if cs == [] then 0
    else Within(cs[..|cs| - 1], t) + (if cs[|cs| - 1].cost <= t then 1 else 0)
  }

  lemma {:induction false} WithinConcat(a: seq<Candidate>, b: seq<Candidate>, t: int)
    ensures Within(a + b, t) == Within(a, t) + Within(b, t)
  {
    if b == [] {
      assert a + b == a;
    } else {
      assert (a + b)[..|a + b| - 1] == a + b[..|b| - 1];
      WithinConcat(a, b[..|b| - 1], t);
    }
  }

  lemma {:induction false} WithinBounds(cs: seq<Candidate>, t: int)
    ensures Within(cs, t) <= |cs|
    ensures Within(cs, t) == |cs| <==> forall c :: c in cs ==> c.cost <= t
    ensures Within(cs, t) == 0 <==> forall c :: c in cs ==> c.cost > t
  {
    if cs != [] {
      var front := cs[..|cs| - 1];
      assert cs == front + [cs[|cs| - 1]];
      WithinBounds(front, t);
    }
  }

  lemma {:induction false} WithinMonotone(cs: seq<Candidate>, t: int, u: int)
    requires t <= u
    ensures Within(cs, t) <= Within(cs, u)
  {
    if cs != [] {
      WithinMonotone(cs[..|cs| - 1], t, u);
    }
  }

  lemma WithoutAt<T>(s: seq<T>, j: nat)
    requires j < |s|
    ensures multiset(s) == multiset(s[..j] + s[j + 1..]) + multiset{s[j]}
  {
    assert s == s[..j] + [s[j]] + s[j + 1..];
  }

  lemma WithoutLast<T>(s: seq<T>)
    requires s != []
    ensures multiset(s) == multiset(s[..|s| - 1]) + multiset{s[|s| - 1]}
  {
    assert s == s[..|s| - 1] + [s[|s| - 1]];
  }

  /** Takes the last element of `a` out of a rearrangement `b` of `a`. */
  lemma TakeOut<T>(a: seq<T>, b: seq<T>) returns (j: nat)
    requires multiset(a) == multiset(b) && a != []
    ensures j < |b| && b[j] == a[|a| - 1]
    ensures multiset(a[..|a| - 1]) == multiset(b[..j] + b[j + 1..])
  {
    var x := a[|a| - 1];
    WithoutLast(a);
    assert x in multiset(b);
    j :| 0 <= j < |b| && b[j] == x;
    WithoutAt(b, j);
    var front, others := a[..|a| - 1], b[..j] + b[j + 1..];
    assert multiset(front) == multiset(a) - multiset{x} == multiset(others);
  }

  /** The last element of `a`, matched with an equal element of its rearrangement `b`. */
  lemma MatchLast<T>(a: seq<T>, b: seq<T>) returns (rest: seq<T>, x: T, front: seq<T>, back: seq<T>)
    requires multiset(a) == multiset(b) && a != []
    ensures a == rest + [x] && b == front + [x] + back
    ensures multiset(rest) == multiset(front + back)
  {
    var j := TakeOut(a, b);
    rest, x, front, back := a[..|a| - 1], b[j], b[..j], b[j + 1..];
  }

  lemma {:induction false} WithinPermuted(a: seq<Candidate>, b: seq<Candidate>, t: int)
    requires multiset(a) == multiset(b)
    ensures Within(a, t) == Within(b, t)
    decreases |a|
  {
    if a == [] {
      assert |b| == |multiset(b)| == 0;
    } else {
      var j := TakeOut(a, b);
      WithinPermuted(a[..|a| - 1], b[..j] + b[j + 1..], t);
      assert b == (b[..j] + [b[j]]) + b[j + 1..];
      WithinConcat(b[..j] + [b[j]], b[j + 1..], t);
      WithinConcat(b[..j], b[j + 1..], t);
      assert (b[..j] + [b[j]])[..j] == b[..j];
    }
  }

  /** Candidates that already have k rivals at most as costly can be added to the rejected side:
      the rule behind both block pruning and merging per-shard answers. */
  lemma Outclassed(kept: seq<Candidate>, rest: seq<Candidate>, pool: seq<Candidate>, extra: seq<Candidate>, k: nat)
    requires Selects(kept, rest, pool, k)
    requires forall y :: y in extra ==> Within(pool, y.cost) >= k
    ensures Selects(kept, rest + extra, pool + extra, k)
  {
    forall x, y | x in kept && y in extra
      ensures x.cost <= y.cost && |kept| == k
    {
      WithinPermuted(kept + rest, pool, y.cost);
      WithinConcat(kept, rest, y.cost);
      WithinBounds(kept, y.cost);
      WithinBounds(rest, y.cost);
    }
    forall y | y in extra
      ensures |kept| == k
    {
      WithinPermuted(kept + rest, pool, y.cost);
      WithinConcat(kept, rest, y.cost);
      WithinBounds(kept, y.cost);
      WithinBounds(rest, y.cost);
    }
    if extra != [] {
      assert extra[0] in extra;
    }
  }

  lemma SameSelection(kept: seq<Candidate>, sorted: seq<Candidate>, rest: seq<Candidate>, all: seq<Candidate>, k: nat)
    requires Selects(kept, rest, all, k) && multiset(sorted) == multiset(kept)
    ensures Selects(sorted, rest, all, k)
  {
    assert |sorted| == |multiset(sorted)| == |multiset(kept)| == |kept|;
    forall a | a in sorted
      ensures a in kept
    {
      assert a in multiset(sorted);
    }
  }

  /** Everything rejected by a selection has k rivals at most as costly in the pool. */
  lemma RejectedAreOutclassed(kept: seq<Candidate>, rest: seq<Candidate>, all: seq<Candidate>, k: nat, y: Candidate)
    requires Selects(kept, rest, all, k) && y in rest
    ensures Within(kept, y.cost) == k
  {
    WithinBounds(kept, y.cost);
  }

  // ---------- Sorted costs: the answer as a list of numbers ----------

  function Costs(cs: seq<Candidate>): (r: seq<int>)
    ensures |r| == |cs| && forall i :: 0 <= i < |cs| ==> r[i] == cs[i].cost
  {
    seq(|cs|, i requires 0 <= i < |cs| => cs[i].cost)
  }

  predicate Ascending(s: seq<int>) {
    forall i, j :: 0 <= i < j < |s| ==> s[i] <= s[j]
  }

  function Insert(x: int, s: seq<int>): seq<int> {
    if s == [] || x <= s[0] then [x] + s else [s[0]] + Insert(x, s[1..])
  }

  /** Reference definition: all costs in ascending order. */
  function Sort(s: seq<int>): seq<int> {
    if s == [] then [] else Insert(s[0], Sort(s[1..]))
  }

  lemma {:induction false} InsertPermutes(x: int, s: seq<int>)
    ensures multiset(Insert(x, s)) == multiset(s) + multiset{x}
  {
    if s != [] && x > s[0] {
      InsertPermutes(x, s[1..]);
      assert s == [s[0]] + s[1..];
    }
  }

  lemma {:induction false} InsertSorted(x: int, s: seq<int>)
    requires Ascending(s)
    ensures Ascending(Insert(x, s))
  {
    if s != [] && x > s[0] {
      var t := Insert(x, s[1..]);
      InsertSorted(x, s[1..]);
      InsertPermutes(x, s[1..]);
      forall y | y in t
        ensures s[0] <= y
      {
        assert y in multiset(t);
        assert y == x || y in s[1..];
      }
      Prepend(s[0], t);
    } else if s != [] {
      Prepend(x, s);
    }
  }

  lemma Prepend(x: int, s: seq<int>)
    requires Ascending(s) && forall y :: y in s ==> x <= y
    ensures Ascending([x] + s)
  {
    forall j | 0 < j <= |s|
      ensures x <= ([x] + s)[j]
    {
      assert s[j - 1] in s;
    }
  }

  lemma {:induction false} SortCorrect(s: seq<int>)
    ensures Ascending(Sort(s)) && multiset(Sort(s)) == multiset(s)
  {
    if s != [] {
      SortCorrect(s[1..]);
      InsertSorted(s[0], Sort(s[1..]));
      InsertPermutes(s[0], Sort(s[1..]));
      assert s == [s[0]] + s[1..];
    }
  }

  lemma {:induction false} AscendingUnique(a: seq<int>, b: seq<int>)
    requires Ascending(a) && Ascending(b) && multiset(a) == multiset(b)
    ensures a == b
  {
    assert |a| == |multiset(a)| == |multiset(b)| == |b|;
    if a != [] {
      var n := |a| - 1;
      SameLast(a, b);
      AscendingUnique(a[..n], b[..n]);
      assert a == a[..n] + [a[n]] && b == b[..n] + [b[n]];
    }
  }

  lemma SameLast(a: seq<int>, b: seq<int>)
    requires Ascending(a) && Ascending(b) && multiset(a) == multiset(b) && |a| == |b| > 0
    ensures a[|a| - 1] == b[|a| - 1] && multiset(a[..|a| - 1]) == multiset(b[..|a| - 1])
  {
    var n := |a| - 1;
    assert a[n] in multiset(b) && b[n] in multiset(a);
    assert a[n] == b[n];
    WithoutLast(a);
    WithoutLast(b);
    assert multiset(a[..n]) == multiset(a) - multiset{a[n]} == multiset(b[..n]);
  }

  lemma {:induction false} CostsPermuted(a: seq<Candidate>, b: seq<Candidate>)
    requires multiset(a) == multiset(b)
    ensures multiset(Costs(a)) == multiset(Costs(b))
    decreases |a|
  {
    if a == [] {
      assert |b| == |multiset(b)| == 0;
    } else {
      var j := TakeOut(a, b);
      CostsPermuted(a[..|a| - 1], b[..j] + b[j + 1..]);
      assert Costs(a) == Costs(a[..|a| - 1]) + [b[j].cost];
      assert Costs(b) == Costs(b[..j]) + [b[j].cost] + Costs(b[j + 1..]);
      assert Costs(b[..j] + b[j + 1..]) == Costs(b[..j]) + Costs(b[j + 1..]);
    }
  }

  /** A selection listed in ascending order is exactly the head of the sorted list of all costs. */
  lemma SelectionIsSortedPrefix(kept: seq<Candidate>, rest: seq<Candidate>, all: seq<Candidate>, k: nat)
    requires Selects(kept, rest, all, k) && Ascending(Costs(kept))
    ensures |kept| == (if k < |all| then k else |all|) && |Sort(Costs(all))| == |all|
    ensures Costs(kept) == Sort(Costs(all))[..|kept|]
  {
    SelectionSize(kept, rest, all, k);
    var tail := Sort(Costs(rest));
    SortCorrect(Costs(rest));
    SortCorrect(Costs(all));
    SortLength(Costs(all));
    var line := Costs(kept) + tail;
    KeptBelowRest(kept, rest, all, k, tail);
    SplitCosts(kept, rest, all, tail);
    AscendingUnique(line, Sort(Costs(all)));
    assert line[..|kept|] == Costs(kept);
  }

  lemma SplitCosts(kept: seq<Candidate>, rest: seq<Candidate>, all: seq<Candidate>, tail: seq<int>)
    requires multiset(kept) + multiset(rest) == multiset(all) && multiset(tail) == multiset(Costs(rest))
    ensures multiset(Costs(kept) + tail) == multiset(Costs(all))
  {
    CostsPermuted(kept + rest, all);
    assert Costs(kept + rest) == Costs(kept) + Costs(rest);
  }

  lemma SelectionSize(kept: seq<Candidate>, rest: seq<Candidate>, all: seq<Candidate>, k: nat)
    requires Selects(kept, rest, all, k)
    ensures |all| == |kept| + |rest|
    ensures |kept| == (if k < |all| then k else |all|)
  {
    assert |all| == |multiset(all)| == |multiset(kept) + multiset(rest)|;
  }

  lemma SortLength(s: seq<int>)
    ensures |Sort(s)| == |s|
  {
    SortCorrect(s);
    assert |Sort(s)| == |multiset(Sort(s))| == |multiset(s)|;
  }

  lemma KeptBelowRest(kept: seq<Candidate>, rest: seq<Candidate>, all: seq<Candidate>, k: nat, tail: seq<int>)
    requires Selects(kept, rest, all, k) && Ascending(Costs(kept))
    requires Ascending(tail) && multiset(tail) == multiset(Costs(rest))
    ensures Ascending(Costs(kept) + tail)
  {
    forall i, j | 0 <= i < |kept| && 0 <= j < |tail|
      ensures Costs(kept)[i] <= tail[j]
    {
      assert tail[j] in multiset(Costs(rest));
      var n :| 0 <= n < |rest| && Costs(rest)[n] == tail[j];
      assert kept[i] in kept && rest[n] in rest;
    }
  }

  // ---------- Selections of selections ----------

  function Join(parts: seq<seq<Candidate>>): seq<Candidate> {
    if parts == [] then [] else Join(parts[..|parts| - 1]) + parts[|parts| - 1]
  }

  /** Part i keeps its k cheapest, for every i. */
  ghost predicate SelectsEach(kepts: seq<seq<Candidate>>, rests: seq<seq<Candidate>>, alls: seq<seq<Candidate>>,
                              k: nat) {
    |kepts| == |rests| == |alls| && forall i :: 0 <= i < |alls| ==> Selects(kepts[i], rests[i], alls[i], k)
  }

  lemma {:induction false} CollectRests(kepts: seq<seq<Candidate>>, alls: seq<seq<Candidate>>, k: nat, n: nat)
    returns (rests: seq<seq<Candidate>>)
    requires n <= |kepts| == |alls|
    requires forall i :: 0 <= i < n ==> IsTopK(kepts[i], alls[i], k)
    ensures |rests| == n && forall i :: 0 <= i < n ==> Selects(kepts[i], rests[i], alls[i], k)
  {
    rests := [];
    if n > 0 {
      var before := CollectRests(kepts, alls, k, n - 1);
      var rest :| Selects(kepts[n - 1], rest, alls[n - 1], k);
      rests := before + [rest];
    }
  }

  lemma {:induction false} JoinSelections(kepts: seq<seq<Candidate>>, rests: seq<seq<Candidate>>,
                                          alls: seq<seq<Candidate>>, k: nat)
    requires SelectsEach(kepts, rests, alls, k)
    ensures multiset(Join(kepts) + Join(rests)) == multiset(Join(alls))
    ensures forall y :: y in Join(rests) ==> Within(Join(kepts), y.cost) >= k
  {
    if alls != [] {
      var n := |alls| - 1;
      JoinSelections(kepts[..n], rests[..n], alls[..n], k);
      forall y | y in Join(rests)
        ensures Within(Join(kepts), y.cost) >= k
      {
        WithinConcat(Join(kepts[..n]), kepts[n], y.cost);
        if y in rests[n] {
          RejectedAreOutclassed(kepts[n], rests[n], alls[n], k, y);
        }
      }
    }
  }

  /** Merging: the k cheapest of the parts' k cheapest are the k cheapest of everything. */
  lemma MergedIsGlobal(kepts: seq<seq<Candidate>>, rests: seq<seq<Candidate>>, alls: seq<seq<Candidate>>,
                       chosen: seq<Candidate>, rest: seq<Candidate>, k: nat)
    requires SelectsEach(kepts, rests, alls, k) && Selects(chosen, rest, Join(kepts), k)
    ensures Selects(chosen, rest + Join(rests), Join(alls), k)
  {
    JoinSelections(kepts, rests, alls, k);
    Outclassed(chosen, rest, Join(kepts), Join(rests), k);
  }

  function Map(h: Candidate -> Candidate, cs: seq<Candidate>): (r: seq<Candidate>)
    ensures |r| == |cs| && forall i :: 0 <= i < |cs| ==> r[i] == h(cs[i])
  {
    seq(|cs|, i requires 0 <= i < |cs| => h(cs[i]))
  }

  lemma {:induction false} MapPermuted(h: Candidate -> Candidate, a: seq<Candidate>, b: seq<Candidate>)
    requires multiset(a) == multiset(b)
    ensures multiset(Map(h, a)) == multiset(Map(h, b))
    decreases |a|
  {
    if a == [] {
      assert |b| == |multiset(b)| == 0;
    } else {
      var rest, x, front, back := MatchLast(a, b);
      MapPermuted(h, rest, front + back);
      assert Map(h, a) == Map(h, rest) + [h(x)];
      assert Map(h, b) == Map(h, front) + [h(x)] + Map(h, back);
      assert Map(h, front + back) == Map(h, front) + Map(h, back);
    }
  }

  lemma MapMember(h: Candidate -> Candidate, cs: seq<Candidate>, a: Candidate) returns (x: Candidate)
    requires a in Map(h, cs)
    ensures x in cs && h(x) == a
  {
    var i :| 0 <= i < |cs| && Map(h, cs)[i] == a;
    x := cs[i];
  }

  lemma MapSplit(h: Candidate -> Candidate, kept: seq<Candidate>, rest: seq<Candidate>, all: seq<Candidate>)
    requires multiset(kept) + multiset(rest) == multiset(all)
    ensures multiset(Map(h, kept)) + multiset(Map(h, rest)) == multiset(Map(h, all))
  {
    MapPermuted(h, kept + rest, all);
    assert Map(h, kept + rest) == Map(h, kept) + Map(h, rest);
  }

  /** A monotone change of costs, even a lossy one, keeps a selection a selection. */
  lemma MonotoneKeepsSelection(h: Candidate -> Candidate, kept: seq<Candidate>, rest: seq<Candidate>,
                               all: seq<Candidate>, k: nat)
    requires Selects(kept, rest, all, k)
    requires forall a: Candidate, b: Candidate :: a.cost <= b.cost ==> h(a).cost <= h(b).cost
    ensures Selects(Map(h, kept), Map(h, rest), Map(h, all), k)
  {
    MapSplit(h, kept, rest, all);
    forall a, b | a in Map(h, kept) && b in Map(h, rest)
      ensures a.cost <= b.cost
    {
      var x := MapMember(h, kept, a);
      var y := MapMember(h, rest, b);
      assert x.cost <= y.cost;
    }
  }

  // ---------- Every place at most once ----------

  predicate SamePlace(a: Candidate, b: Candidate) {
    a.shard == b.shard && a.local == b.local
  }

  /** No stored entry is listed twice. */
  ghost predicate Distinct(cs: seq<Candidate>) {
    forall i, j :: 0 <= i < j < |cs| ==> !SamePlace(cs[i], cs[j])
  }

  lemma ListedTwice(part: seq<Candidate>, i: nat, j: nat)
    requires i < j < |part| && part[i] == part[j]
    ensures multiset(part)[part[i]] >= 2
  {
    var x := part[i];
    assert part == part[..j] + part[j..] && x in part[..j] && x in part[j..];
    assert multiset(part) == multiset(part[..j]) + multiset(part[j..]);
  }

  lemma Another(all: seq<Candidate>, a: nat) returns (b: nat)
    requires a < |all| && multiset(all)[all[a]] >= 2
    ensures b < |all| && a != b && all[b] == all[a]
  {
    WithoutAt(all, a);
    var others := all[..a] + all[a + 1..];
    assert all[a] in multiset(others);
    b :| b < |others| && others[b] == all[a];
    b := if b < a then b else b + 1;
  }

  /** Two members of a part of `all` sit at different positions of `all`. */
  lemma Positions(part: seq<Candidate>, all: seq<Candidate>, i: nat, j: nat) returns (a: nat, b: nat)
    requires multiset(part) <= multiset(all) && i < j < |part|
    ensures a < |all| && b < |all| && a != b && all[a] == part[i] && all[b] == part[j]
  {
    assert part[i] in multiset(part) && part[j] in multiset(part);
    a :| a < |all| && all[a] == part[i];
    if part[i] == part[j] {
      ListedTwice(part, i, j);
      b := Another(all, a);
    } else {
      b :| b < |all| && all[b] == part[j];
    }
  }

  lemma PartDistinct(part: seq<Candidate>, all: seq<Candidate>)
    requires multiset(part) <= multiset(all) && Distinct(all)
    ensures Distinct(part)
  {
    forall i, j | 0 <= i < j < |part|
      ensures !SamePlace(part[i], part[j])
    {
      var a, b := Positions(part, all, i, j);
      assert !SamePlace(all[if a < b then a else b], all[if a < b then b else a]);
    }
  }

  lemma SelectedDistinct(kept: seq<Candidate>, rest: seq<Candidate>, all: seq<Candidate>, k: nat)
    requires Selects(kept, rest, all, k) && Distinct(all)
    ensures Distinct(kept)
  {
    assert multiset(kept) <= multiset(kept) + multiset(rest);
    PartDistinct(kept, all);
  }

  lemma MapDistinct(h: Candidate -> Candidate, cs: seq<Candidate>)
    requires Distinct(cs) && forall c :: c in cs ==> SamePlace(h(c), c)
    ensures Distinct(Map(h, cs))
  {
    forall i, j | 0 <= i < j < |cs|
      ensures !SamePlace(Map(h, cs)[i], Map(h, cs)[j])
    {
      assert cs[i] in cs && cs[j] in cs;
    }
  }

  /** Entries of shard i only, none of them twice. */
  ghost predicate FromShard(part: seq<Candidate>, i: nat) {
    Distinct(part) && forall c :: c in part ==> c.shard == i
  }

  lemma {:induction false} JoinDistinct(parts: seq<seq<Candidate>>)
    requires forall i :: 0 <= i < |parts| ==> FromShard(parts[i], i)
    ensures Distinct(Join(parts)) && forall c :: c in Join(parts) ==> c.shard < |parts|
  {
    if parts != [] {
      var last := |parts| - 1;
      JoinDistinct(parts[..last]);
      var front, part := Join(parts[..last]), parts[last];
      forall i, j | 0 <= i < j < |front + part|
        ensures !SamePlace((front + part)[i], (front + part)[j])
      {
        if i < |front| <= j {
          assert front[i] in front && part[j - |front|] in part;
        }
      }
    }
  }

  // ---------- Selections exist ----------

  lemma {:induction false} InsertionPoint(s: seq<Candidate>, c: Candidate) returns (at: nat)
    requires Ascending(Costs(s))
    ensures at <= |s| && (forall j :: 0 <= j < at ==> s[j].cost <= c.cost) && (at < |s| ==> c.cost <= s[at].cost)
  {
    at := |s|;
    if s != [] && s[|s| - 1].cost > c.cost {
      assert Costs(s[..|s| - 1]) == Costs(s)[..|s| - 1];
      at := InsertionPoint(s[..|s| - 1], c);
    }
  }

  lemma {:induction false} SortedExists(cs: seq<Candidate>) returns (r: seq<Candidate>)
    ensures multiset(r) == multiset(cs) && Ascending(Costs(r))
  {
    r := [];
    if cs != [] {
      var front, c := cs[..|cs| - 1], cs[|cs| - 1];
      var s := SortedExists(front);
      var at := InsertionPoint(s, c);
      InsertedBetween(s, at, c);
      r := s[..at] + [c] + s[at..];
      assert cs == front + [c];
    }
  }

  lemma SelectionExists(all: seq<Candidate>, k: nat)
    returns (kept: seq<Candidate>, rest: seq<Candidate>)
    ensures Selects(kept, rest, all, k) && Ascending(Costs(kept))
  {
    var line := SortedExists(all);
    var n := if k < |line| then k else |line|;
    kept, rest := line[..n], line[n..];
    assert line == kept + rest;
    forall a, b | a in kept && b in rest
      ensures a.cost <= b.cost
    {
      var i :| 0 <= i < n && line[i] == a;
      var j :| n <= j < |line| && line[j] == b;
      assert Costs(line)[i] <= Costs(line)[j];
    }
    assert Costs(kept) == Costs(line)[..n];
  }

  // ---------- One more candidate ----------

  lemma RoomForOne(kept: seq<Candidate>, rest: seq<Candidate>, seen: seq<Candidate>, c: Candidate, k: nat)
    requires Selects(kept, rest, seen, k) && |kept| < k
    ensures Selects(kept + [c], rest, seen + [c], k)
  {
  }

  lemma TurnedAway(kept: seq<Candidate>, rest: seq<Candidate>, seen: seq<Candidate>, c: Candidate, k: nat)
    requires Selects(kept, rest, seen, k) && |kept| == k
    requires forall x :: x in kept ==> x.cost <= c.cost
    ensures Selects(kept, rest + [c], seen + [c], k)
  {
  }

  /** Pushing `c` and removing a costliest element `out` keeps the selection. */
  lemma Displaced(kept: seq<Candidate>, kept': seq<Candidate>, rest: seq<Candidate>, seen: seq<Candidate>,
                  c: Candidate, out: Candidate, k: nat)
    requires Selects(kept, rest, seen, k) && |kept| == k
    requires multiset(kept + [c]) == multiset(kept') + multiset{out}
    requires forall x :: x in kept + [c] ==> x.cost <= out.cost
    ensures Selects(kept', rest + [out], seen + [c], k)
  {
    assert |kept + [c]| == |multiset(kept + [c])| == |kept'| + 1;
    calc {
      multiset(kept') + multiset(rest + [out]);
      multiset(kept') + multiset{out} + multiset(rest);
      multiset(kept + [c]) + multiset(rest);
      multiset(kept) + multiset(rest) + multiset{c};
      multiset(seen + [c]);
    }
    forall x, y | x in kept' && y in rest + [out]
      ensures x.cost <= y.cost
    {
      assert x in multiset(kept');
      assert x in multiset(kept + [c]);
      assert out in multiset(kept + [c]);
      if y in rest {
        if x !in kept {
          assert multiset(kept + [c])[c] == multiset(kept)[c] + 1;
          assert multiset(kept)[c] == 0;
          assert out in kept;
        }
      }
    }
  }

  // ---------- The heap and the sort the source takes from its standard library ----------

  /** A max-heap by cost. Only the order in which equal costs leave it is unspecified. */
  class BinaryHeap {
    var items: seq<Candidate>

    constructor ()
      ensures items == []
    {
      items := [];
    }

    method Push(c: Candidate)
      modifies this
      ensures items == old(items) + [c]
    {
      items := items + [c];
    }

    method Peek() returns (c: Candidate)
      requires items != []
      ensures c in items && forall x :: x in items ==> x.cost <= c.cost
    {
      var at := MaxIndex();
      c := items[at];
    }

    method Pop() returns (c: Candidate)
      requires items != []
      modifies this
      ensures c in old(items) && forall x :: x in old(items) ==> x.cost <= c.cost
      ensures multiset(old(items)) == multiset(items) + multiset{c}
      ensures |items| == |old(items)| - 1
    {
      var at := MaxIndex();
      c := items[at];
      assert items == items[..at] + [c] + items[at + 1..];
      items := items[..at] + items[at + 1..];
    }

    method MaxIndex() returns (at: nat)
      requires items != []
      ensures at < |items| && forall i :: 0 <= i < |items| ==> items[i].cost <= items[at].cost
    {
      at := 0;
      for i := 1 to |items|
        invariant at < |items| && forall j :: 0 <= j < i ==> items[j].cost <= items[at].cost
      {
        if items[i].cost > items[at].cost {
          at := i;
        }
      }
    }

    /** Scan step of a shard search: grow to k, then replace the worst only by something strictly better. */
    method Offer(c: Candidate, k: nat, ghost rest: seq<Candidate>, ghost seen: seq<Candidate>)
      returns (ghost rest': seq<Candidate>)
      requires k >= 1 && Selects(items, rest, seen, k)
      modifies this
      ensures Selects(items, rest', seen + [c], k)
    {
      if |items| < k {
        rest' := rest;
        RoomForOne(items, rest, seen, c, k);
        Push(c);
      } else {
        var top := Peek();
        if c.cost < top.cost {
          ghost var was := items;
          Push(c);
          var out := Pop();
          rest' := rest + [out];
          Displaced(was, items, rest, seen, c, out, k);
        } else {
          TurnedAway(items, rest, seen, c, k);
          rest' := rest + [c];
        }
      }
    }

    /** Offers candidates one after the other. */
    method OfferAll(cs: seq<Candidate>, k: nat, ghost rest: seq<Candidate>, ghost seen: seq<Candidate>)
      returns (ghost rest': seq<Candidate>)
      requires k >= 1 && Selects(items, rest, seen, k)
      modifies this
      ensures Selects(items, rest', seen + cs, k)
    {
      rest' := rest;
      ghost var done := seen;
      for i := 0 to |cs|
        invariant done == seen + cs[..i] && Selects(items, rest', done, k)
      {
        rest' := Offer(cs[i], k, rest', done);
        done := done + [cs[i]];
      }
      assert cs[..|cs|] == cs;
    }

    /** Merges candidates one after the other. */
    method PushTrimAll(cs: seq<Candidate>, k: nat, ghost rest: seq<Candidate>, ghost seen: seq<Candidate>)
      returns (ghost rest': seq<Candidate>)
      requires Selects(items, rest, seen, k)
      modifies this
      ensures Selects(items, rest', seen + cs, k)
    {
      rest' := rest;
      ghost var done := seen;
      for i := 0 to |cs|
        invariant done == seen + cs[..i] && Selects(items, rest', done, k)
      {
        rest' := PushTrim(cs[i], k, rest', done);
        done := done + [cs[i]];
      }
      assert cs[..|cs|] == cs;
    }

    /** Merge step: push, then drop the worst when over k. */
    method PushTrim(c: Candidate, k: nat, ghost rest: seq<Candidate>, ghost seen: seq<Candidate>)
      returns (ghost rest': seq<Candidate>)
      requires Selects(items, rest, seen, k)
      modifies this
      ensures Selects(items, rest', seen + [c], k)
    {
      rest' := rest;
      ghost var was := items;
      Push(c);
      if |items| > k {
        var out := Pop();
        rest' := rest + [out];
        Displaced(was, items, rest, seen, c, out, k);
      } else {
        RoomForOne(was, rest, seen, c, k);
      }
    }
  }

  /** `sort_unstable_by`: some ascending rearrangement. */
  method SortByCost(cs: seq<Candidate>) returns (r: seq<Candidate>)
    ensures multiset(r) == multiset(cs) && Ascending(Costs(r))
  {
    r := [];
    for i := 0 to |cs|
      invariant multiset(r) == multiset(cs[..i]) && Ascending(Costs(r))
    {
      r := InsertByCost(r, cs[i]);
      assert cs[..i + 1] == cs[..i] + [cs[i]];
    }
    assert cs[..|cs|] == cs;
  }

  method InsertByCost(s: seq<Candidate>, c: Candidate) returns (r: seq<Candidate>)
    requires Ascending(Costs(s))
    ensures multiset(r) == multiset(s) + multiset{c} && Ascending(Costs(r))
  {
    var at := 0;
    while at < |s| && s[at].cost <= c.cost
      invariant at <= |s| && forall j :: 0 <= j < at ==> s[j].cost <= c.cost
    {
      at := at + 1;
    }
    r := s[..at] + [c] + s[at..];
    InsertedBetween(s, at, c);
  }

  lemma InsertedBetween(s: seq<Candidate>, at: nat, c: Candidate)
    requires at <= |s| && Ascending(Costs(s))
    requires forall j :: 0 <= j < at ==> s[j].cost <= c.cost
    requires at < |s| ==> c.cost <= s[at].cost
    ensures var r := s[..at] + [c] + s[at..];
            multiset(r) == multiset(s) + multiset{c} && Ascending(Costs(r))
  {
    var r := s[..at] + [c] + s[at..];
    WithoutAt(r, at);
    assert r[..at] + r[at + 1..] == s;
    AscendingAround(Costs(s), at, c.cost);
    assert Costs(r) == Costs(s)[..at] + [c.cost] + Costs(s)[at..];
  }

  lemma AscendingAround(s: seq<int>, at: nat, x: int)
    requires at <= |s| && Ascending(s)
    requires forall j :: 0 <= j < at ==> s[j] <= x
    requires at < |s| ==> x <= s[at]
    ensures Ascending(s[..at] + [x] + s[at..])
  {
  }
}
