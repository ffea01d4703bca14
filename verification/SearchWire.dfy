/** VSEARCH on the wire: what its reply says when the server answers by the two-stage search. */
module SearchWire {
  import opened Bytes
  import opened Resp
  import opened Commands
  import opened Codec
  import opened TopK
  import opened VectorStore
  import opened Quantizer
  import opened Streaming
  import opened Server
  import opened Session
  import opened Replay
  import opened History
  import Search
  import Instances

  /** The scores as the reply prints them: scaled and cast to an integer. */
  function PrintedScores(result: seq<(bytes, real)>, printed: real -> int): (r: seq<(bytes, int)>)
    ensures |r| == |result|
    ensures forall i :: 0 <= i < |r| ==> r[i].0 == result[i].0 && r[i].1 == printed(result[i].1)
  {
    seq(|result|, i requires 0 <= i < |result| => (result[i].0, printed(result[i].1)))
  }

  /** A possible answer of the two-stage search for these floats. */
  ghost predicate Possible(scoring: Search.Scoring, s: LiveStore, floats: seq<F32>, k: nat,
                           result: seq<(bytes, real)>) {
    Search.RerankOutcome(scoring, s, Quantize(floats, s.dim), floats, k, result)
  }

  /** The server's search is the two-stage search: it gives one of its possible answers, printed. */
  ghost predicate AnswersBySearch(env: Env, scoring: Search.Scoring, printed: real -> int) {
    forall s: LiveStore, floats: seq<F32>, k: nat :: AnswerIs(env, scoring, printed, s, floats, k)
  }

  ghost predicate AnswerIs(env: Env, scoring: Search.Scoring, printed: real -> int, s: LiveStore, floats: seq<F32>,
                           k: nat) {
    k >= 1 || TotalVectors(s.shards) == 0 ==>
      exists result :: Possible(scoring, s, floats, k, result)
                    && env.search(s, floats, k) == PrintedScores(result, printed)
  }

  /** The scores are the k largest of the store in descending order. */
  ghost predicate IsBest(scoring: Search.Scoring, s: LiveStore, floats: seq<F32>, k: nat, result: seq<(bytes, real)>) {
    var best := Search.Smallest(Join(Search.ScoreParts(scoring, s, floats)), k);
    Search.Numbers(result) == Search.ShownScores(scoring, best)
  }

  lemma PossibleMeans(scoring: Search.Scoring, s: LiveStore, floats: seq<F32>, k: nat,
                      result: seq<(bytes, real)>) returns (chosen: seq<Candidate>)
    requires Possible(scoring, s, floats, k, result)
    ensures Search.MatchesScores(scoring, s, floats, chosen, result)
    ensures |result| == Search.Min(k, TotalVectors(s.shards))
    ensures Search.Monotone(scoring.lossy) && Search.FitsWidth(s, Search.WidthOf(s, k)) ==>
              IsBest(scoring, s, floats, k, result)
  {
    chosen := Search.OutcomeMeans(scoring, s, Quantize(floats, s.dim), floats, k, result);
  }

  lemma AnswerExists(env: Env, scoring: Search.Scoring, printed: real -> int, s: LiveStore,
                     floats: seq<F32>, k: nat) returns (result: seq<(bytes, real)>)
    requires AnswersBySearch(env, scoring, printed) && (k >= 1 || TotalVectors(s.shards) == 0)
    ensures Possible(scoring, s, floats, k, result) && env.search(s, floats, k) == PrintedScores(result, printed)
  {
    assert AnswerIs(env, scoring, printed, s, floats, k);
    result :| Possible(scoring, s, floats, k, result) && env.search(s, floats, k) == PrintedScores(result, printed);
  }

  lemma ReplyShows(env: Env, d: Data, floats: seq<F32>, k: nat, results: seq<(bytes, int)>)
    requires ModelOk(env.model) && env.search(d.vectors, floats, k) == results
    ensures Reply(env, d, VSearch(k, floats), []) == SearchAnswer(results)
  {
  }

  /** The server's search answers with this possible answer of the two-stage search, printed; it lists the chosen
      vectors, none twice, by key and own score. */
  ghost predicate Answered(env: Env, scoring: Search.Scoring, printed: real -> int, d: Data, floats: seq<F32>, k: nat,
                           result: seq<(bytes, real)>, chosen: seq<Candidate>) {
    && env.search(d.vectors, floats, k) == PrintedScores(result, printed)
    && Possible(scoring, d.vectors, floats, k, result)
    && Search.MatchesScores(scoring, d.vectors, floats, chosen, result)
  }

  /** Every VSEARCH for at least one neighbour, or in an empty store, is answered so, with min(k, N) vectors; when
      every shard fits the width theirs are the k largest scores, descending. */
  lemma SearchReply(env: Env, scoring: Search.Scoring, printed: real -> int, d: Data,
                    floats: seq<F32>, k: nat)
    returns (result: seq<(bytes, real)>, chosen: seq<Candidate>)
    requires ModelOk(env.model) && AnswersBySearch(env, scoring, printed)
    requires k >= 1 || TotalVectors(d.vectors.shards) == 0
    ensures Reply(env, d, VSearch(k, floats), []) == SearchAnswer(PrintedScores(result, printed))
    ensures Answered(env, scoring, printed, d, floats, k, result, chosen)
    ensures |result| == Search.Min(k, TotalVectors(d.vectors.shards))
    ensures Search.Monotone(scoring.lossy) && Search.FitsWidth(d.vectors, Search.WidthOf(d.vectors, k)) ==>
              IsBest(scoring, d.vectors, floats, k, result)
  {
    result := AnswerExists(env, scoring, printed, d.vectors, floats, k);
    chosen := PossibleMeans(scoring, d.vectors, floats, k, result);
    ReplyShows(env, d, floats, k, PrintedScores(result, printed));
  }

  /** A VSEARCH on the store that these changes left. */
  lemma HistoryThenSearch(env: Env, scoring: Search.Scoring, printed: real -> int, live: Data,
                          shards: nat, since: seq<Op>, floats: seq<F32>, k: nat)
    returns (result: seq<(bytes, real)>, chosen: seq<Candidate>)
    requires ModelOk(env.model) && AnswersBySearch(env, scoring, printed) && k >= 1
    requires |live.vectors.shards| == shards && HistoryOk(live.vectors, since)
    ensures Answered(env, scoring, printed, live, floats, k, result, chosen) && |result| == Search.Min(k, |since|)
    ensures Search.Monotone(scoring.lossy) && (k >= Share(|since|, shards, 0) || Even(|since|, shards)) ==>
              IsBest(scoring, live.vectors, floats, k, result)
  {
    Search.StoreFullyRerankedIff(live.vectors, since, k);
    result, chosen := SearchReply(env, scoring, printed, live, floats, k);
  }

  /** At most 1000 vectors, dealt out evenly. */
  predicate Even(n: nat, shards: nat)
    requires shards > 0
  {
    n <= 1000 && n % shards == 0
  }

  // ---------- On the wire ----------

  lemma SearchEffect(env: Env, s: Server, cmd: Command)
    requires ModelOk(env.model) && cmd.VSearch?
    ensures Reply(env, s.data, cmd, []) == SearchAnswer(env.search(s.data.vectors, cmd.floats, cmd.k))
    ensures Handled(env, s, cmd, []) == s && Asked(cmd) == 0
  {
  }

  /** A VSEARCH for at least one neighbour is answered, in every state and with anything behind it. */
  lemma SearchServed(env: Env, s: Server, args: seq<bytes>, rest: bytes, k: nat, floats: seq<F32>)
    requires ModelOk(env.model) && args != [] && Fits(args) && k >= 1
    requires Decode(env.text, args) == Some((VSearch(k, floats), |args|))
    ensures Request(args) + rest != []
    ensures Step(env, s, Request(args) + rest)
         == Done(s, SearchAnswer(env.search(s.data.vectors, floats, k)), |Request(args)|)
  {
    var cmd := VSearch(k, floats);
    SearchEffect(env, s, cmd);
    StepWhole(env, s, args, rest, cmd, |args|);
    assert args[|args|..] == [];
  }

  /** A VSEARCH ends the connection if and only if it asks for no neighbour and something is stored. */
  lemma SearchCrashesIff(env: Env, s: Server, args: seq<bytes>, rest: bytes, k: nat, floats: seq<F32>)
    requires ModelOk(env.model) && args != [] && Fits(args)
    requires Decode(env.text, args) == Some((VSearch(k, floats), |args|))
    ensures Request(args) + rest != []
    ensures Step(env, s, Request(args) + rest) == Crash <==> k == 0 && TotalVectors(s.data.vectors.shards) > 0
  {
    var items, len := StepRequest(env, s, args, rest, VSearch(k, floats), |args|, |args|);
  }

  lemma SearchLast(env: Env, s: Server, args: seq<bytes>, k: nat, floats: seq<F32>)
    requires ModelOk(env.model) && args != [] && Fits(args) && k >= 1
    requires Decode(env.text, args) == Some((VSearch(k, floats), |args|))
    ensures Drain(StepOf(env), s, Request(args))
         == Drained(s, SearchAnswer(env.search(s.data.vectors, floats, k)), [], true)
  {
    var cmd := VSearch(k, floats);
    SearchEffect(env, s, cmd);
    RequestLast(env, s, args, cmd, |args|, []);
  }

  /** A VSEARCH behind any bytes that leave nothing unread. */
  lemma SearchBehind(env: Env, s: Server, buf: bytes, args: seq<bytes>, k: nat, floats: seq<F32>)
    requires ModelOk(env.model) && args != [] && Fits(args) && k >= 1
    requires Decode(env.text, args) == Some((VSearch(k, floats), |args|))
    ensures var r := Drain(StepOf(env), s, buf);
            r.alive && r.tail == [] ==>
              Drain(StepOf(env), s, buf + Request(args))
              == Drained(r.state, r.out + SearchAnswer(env.search(r.state.data.vectors, floats, k)), [], true)
  {
    var r := Drain(StepOf(env), s, buf);
    DrainMore(env, s, buf, Request(args));
    if r.alive && r.tail == [] {
      SearchLast(env, r.state, args, k, floats);
      assert [] + Request(args) == Request(args);
    }
  }

  lemma DrainMore(env: Env, s: Server, a: bytes, b: bytes)
    requires ModelOk(env.model)
    ensures Drain(StepOf(env), s, a + b) == Resume(StepOf(env), Drain(StepOf(env), s, a), b)
  {
    StepProgress(env);
    StepsAreStable(env);
    DrainSplit(StepOf(env), s, a, b);
  }

  /** A search in the store that a run left. */
  lemma RunAnswers(env: Env, scoring: Search.Scoring, printed: real -> int, d: Data, dim: nat,
                   shards: nat, buf: bytes, k: nat, floats: seq<F32>)
    returns (live: Drained<Server>, changes: seq<Change>, n: nat, result: seq<(bytes, real)>, chosen: seq<Candidate>)
    requires ModelOk(env.model) && env.persist && FloatsOk(env.text) && AnswersBySearch(env, scoring, printed)
    requires dim % 64 == 0 && shards > 0 && d.vectors == New(dim, shards) && k >= 1
    ensures live == Drain(StepOf(env), Server(d, []), buf) && IsHistory(env, d, live.state, changes)
    ensures n == |SinceClear(Ops(dim, changes))| && |result| == Search.Min(k, n)
    ensures Answered(env, scoring, printed, live.state.data, floats, k, result, chosen)
    ensures Search.Monotone(scoring.lossy) && (k >= Share(n, shards, 0) || Even(n, shards)) ==>
              IsBest(scoring, live.state.data.vectors, floats, k, result)
  {
    changes := ServerStoreOk(env, d, dim, shards, buf);
    live := Drain(StepOf(env), Server(d, []), buf);
    n := |SinceClear(Ops(dim, changes))|;
    ShardsKept(env, d, changes);
    result, chosen := HistoryThenSearch(env, scoring, printed, live.state.data, shards, SinceClear(Ops(dim, changes)),
                                        floats, k);
  }

  /** After any run of the server from an empty store of S shards with N adds since the last clear, the next VSEARCH
      is answered with min(k, N) of the stored vectors; with k at least the largest shard, or on at most 1000
      vectors dealt out evenly, they are the k best. */
  lemma RunThenSearch(env: Env, scoring: Search.Scoring, printed: real -> int, d: Data, dim: nat,
                      shards: nat, buf: bytes, args: seq<bytes>, k: nat, floats: seq<F32>)
    returns (live: Drained<Server>, changes: seq<Change>, n: nat, result: seq<(bytes, real)>, chosen: seq<Candidate>)
    requires ModelOk(env.model) && env.persist && FloatsOk(env.text) && AnswersBySearch(env, scoring, printed)
    requires dim % 64 == 0 && shards > 0 && d.vectors == New(dim, shards) && k >= 1
    requires args != [] && Fits(args) && Decode(env.text, args) == Some((VSearch(k, floats), |args|))
    ensures live == Drain(StepOf(env), Server(d, []), buf) && IsHistory(env, d, live.state, changes)
    ensures live.alive && live.tail == [] ==>
              Drain(StepOf(env), Server(d, []), buf + Request(args))
              == Drained(live.state, live.out + SearchAnswer(PrintedScores(result, printed)), [], true)
    ensures n == |SinceClear(Ops(dim, changes))| && |result| == Search.Min(k, n)
    ensures Answered(env, scoring, printed, live.state.data, floats, k, result, chosen)
    ensures Search.Monotone(scoring.lossy) && (k >= Share(n, shards, 0) || Even(n, shards)) ==>
              IsBest(scoring, live.state.data.vectors, floats, k, result)
  {
    live, changes, n, result, chosen := RunAnswers(env, scoring, printed, d, dim, shards, buf, k, floats);
    SearchBehind(env, Server(d, []), buf, args, k, floats);
    assert env.search(live.state.data.vectors, floats, k) == PrintedScores(result, printed);
  }

  // ---------- Reading the reply ----------

  /** A result as a client reads it: a bulk string and an integer line. */
  function ReadResult(s: bytes, i: nat): Parse<(bytes, int)> {
    match ParseBulk(s, i)
    case NoParse => NoParse
    case Parsed(key, len) =>
      match ReadInt(s, i + len)
      case NoParse => NoParse
      case Parsed(score, more) => Parsed((key, score), len + more)
  }

  type ResultReader = (bytes, nat) -> Parse<(bytes, int)>

  /** n results in a row, each read by `read`. */
  function ReadAll(read: ResultReader, s: bytes, i: nat, n: nat): Parse<seq<(bytes, int)>> {
    if n == 0 then Parsed([], 0)
    else
      match ReadAll(read, s, i, n - 1)
      case NoParse => NoParse
      case Parsed(front, len) =>
        match read(s, i + len)
        case NoParse => NoParse
        case Parsed(last, more) => Parsed(front + [last], len + more)
  }

  predicate Sendable(results: seq<(bytes, int)>) {
    forall r :: r in results ==> |r.0| < U32 && -(U32 as int) < r.1 < U32
  }

  lemma ReadParts(s: bytes, i: nat, key: bytes, len: nat, score: int, more: nat)
    requires ParseBulk(s, i) == Parsed(key, len) && ReadInt(s, i + len) == Parsed(score, more)
    ensures ReadResult(s, i) == Parsed((key, score), len + more)
  {
  }

  /** Two lines printed one behind the other, each of which reads back where it stands. */
  lemma LinesRead(result: (bytes, int), s: bytes, i: nat, key: bytes, score: bytes)
    requires Occurs(key + score, s, i)
    requires Occurs(key, s, i) ==> ParseBulk(s, i) == Parsed(result.0, |key|)
    requires Occurs(score, s, i + |key|) ==> ReadInt(s, i + |key|) == Parsed(result.1, |score|)
    ensures ReadResult(s, i) == Parsed(result, |key + score|)
  {
    OccursSplit(key, score, s, i);
    ReadParts(s, i, result.0, |key|, result.1, |score|);
  }

  lemma ResultRead(result: (bytes, int), s: bytes, i: nat)
    requires |result.0| < U32 && -(U32 as int) < result.1 < U32 && Occurs(SearchResult(result), s, i)
    ensures ReadResult(s, i) == Parsed(result, |SearchResult(result)|)
  {
    var key, score := Bulk(result.0), IntReply(result.1);
    if Occurs(key, s, i) {
      BulkRoundTrip(result.0, s, i);
    }
    if Occurs(score, s, i + |key|) {
      IntRoundTrip(result.1, s, i + |key|);
    }
    LinesRead(result, s, i, key, score);
  }

  type Printer = ((bytes, int)) -> bytes

  /** Results printed one behind the other. */
  function PrintAll(show: Printer, results: seq<(bytes, int)>): bytes {
    if results == [] then [] else PrintAll(show, results[..|results| - 1]) + show(results[|results| - 1])
  }

  lemma {:induction false} PrintedIs(results: seq<(bytes, int)>)
    ensures SearchResults(results) == PrintAll(SearchResult, results)
  {
    if results != [] {
      PrintedIs(results[..|results| - 1]);
    }
  }

  /** `read` reads back each of these results wherever `show` printed it in s. */
  ghost predicate ResultsBack(read: ResultReader, show: Printer, results: seq<(bytes, int)>, s: bytes) {
    forall r: (bytes, int), j: nat {:trigger Occurs(show(r), s, j)} ::
      r in results && Occurs(show(r), s, j) ==> read(s, j) == Parsed(r, |show(r)|)
  }

  lemma ReadSnoc(read: ResultReader, s: bytes, i: nat, front: seq<(bytes, int)>, len: nat, last: (bytes, int),
                 more: nat)
    requires ReadAll(read, s, i, |front|) == Parsed(front, len) && read(s, i + len) == Parsed(last, more)
    ensures ReadAll(read, s, i, |front| + 1) == Parsed(front + [last], len + more)
  {
  }

  lemma {:induction false} ResultsRead(read: ResultReader, show: Printer, results: seq<(bytes, int)>, s: bytes, i: nat)
    requires ResultsBack(read, show, results, s) && Occurs(PrintAll(show, results), s, i)
    ensures ReadAll(read, s, i, |results|) == Parsed(results, |PrintAll(show, results)|)
  {
    if results != [] {
      var front, last := results[..|results| - 1], results[|results| - 1];
      var head := PrintAll(show, front);
      assert last in results && forall r :: r in front ==> r in results;
      OccursSplit(head, show(last), s, i);
      ResultsRead(read, show, front, s, i);
      assert read(s, i + |head|) == Parsed(last, |show(last)|);
      ReadSnoc(read, s, i, front, |head|, last, |show(last)|);
      assert front + [last] == results;
    }
  }

  lemma ReplyReads(results: seq<(bytes, int)>, reply: bytes)
    requires Sendable(results)
    ensures ResultsBack(ReadResult, SearchResult, results, reply)
  {
    forall r: (bytes, int), j: nat {:trigger Occurs(SearchResult(r), reply, j)} |
      r in results && Occurs(SearchResult(r), reply, j)
      ensures ReadResult(reply, j) == Parsed(r, |SearchResult(r)|)
    {
      ResultRead(r, reply, j);
    }
  }

  /** The reply to a search reads back as its results: the header counts keys and scores, and each key comes with its
      own score, in order, up to the last byte. */
  lemma SearchReadBack(results: seq<(bytes, int)>)
    requires Sendable(results) && 2 * |results| < U32
    ensures var reply, head := SearchAnswer(results), |Size('*', 2 * |results|)|;
            && ParseSize('*', reply, 0) == Parsed(2 * |results|, head)
            && ReadAll(ReadResult, reply, head, |results|) == Parsed(results, |reply| - head)
  {
    var reply, head, body := SearchAnswer(results), Size('*', 2 * |results|), SearchResults(results);
    assert Occurs(head + body, reply, 0) by {
      assert reply[0..|reply|] == reply;
    }
    OccursSplit(head, body, reply, 0);
    SizeRoundTrip('*', 2 * |results|, reply, 0);
    PrintedIs(results);
    ReplyReads(results, reply);
    ResultsRead(ReadResult, SearchResult, results, reply, |head|);
  }

  lemma {:induction false} ShardsKept(env: Env, d: Data, changes: seq<Change>)
    requires ModelOk(env.model)
    ensures |ApplyAll(env, d, changes).vectors.shards| == |d.vectors.shards|
  {
    if changes != [] {
      ShardsKept(env, d, changes[..|changes| - 1]);
    }
  }

  // ---------- Such servers exist ----------

  lemma PossibleExists(scoring: Search.Scoring, s: LiveStore, floats: seq<F32>, k: nat)
    returns (result: seq<(bytes, real)>)
    ensures Possible(scoring, s, floats, k, result)
  {
    var query := Quantize(floats, s.dim);
    var run := Instances.RerankExists(scoring, s, query, floats, k, Search.WidthOf(s, k));
    result := [];
    if TotalVectors(s.shards) > 0 {
      forall c | c in run.chosen
        ensures Search.StoredScore(scoring, s, floats, c)
      {
        Search.ChosenFrom(run.chosen, run.rest, Join(Search.MapEach(Search.Rounded(scoring), run.bests)), k, c);
        Search.RerankedIsStored(run.scans, run.bests, run.losers, scoring, s, query, floats, k,
                                Search.WidthOf(s, k), c);
      }
      Search.RerankDistinct(run.scans, run.bests, run.losers, run.chosen, run.rest, scoring, s, query, floats, k,
                            Search.WidthOf(s, k));
      result := KeysFor(scoring, s, floats, run.chosen);
    }
    assert Search.OutcomeOf(run, scoring, s, query, floats, k, result);
  }

  lemma {:induction false} KeysFor(scoring: Search.Scoring, s: LiveStore, floats: seq<F32>, chosen: seq<Candidate>)
    returns (result: seq<(bytes, real)>)
    requires Distinct(chosen) && forall c :: c in chosen ==> Search.StoredScore(scoring, s, floats, c)
    ensures Search.MatchesScores(scoring, s, floats, chosen, result)
  {
    result := [];
    if chosen != [] {
      var front, c := chosen[..|chosen| - 1], chosen[|chosen| - 1];
      result := KeysFor(scoring, s, floats, front);
      assert c in chosen;
      result := result + [(s.shards[c.shard].keys[c.local], scoring.shown(-c.cost))];
    }
  }

  ghost function SomeSearch(scoring: Search.Scoring, printed: real -> int, s: Store, floats: seq<F32>, k: nat):
    seq<(bytes, int)>
  {
    if StoreOk(s) && exists result :: Possible(scoring, s, floats, k, result) then
      var result :| Possible(scoring, s, floats, k, result);
      PrintedScores(result, printed)
    else []
  }

  lemma SomeSearchAnswers(env: Env, scoring: Search.Scoring, printed: real -> int, s: LiveStore,
                          floats: seq<F32>, k: nat)
    requires env.search(s, floats, k) == SomeSearch(scoring, printed, s, floats, k)
    ensures AnswerIs(env, scoring, printed, s, floats, k)
  {
    var result := PossibleExists(scoring, s, floats, k);
  }

  /** For every scoring there is a server that answers by the two-stage search. */
  lemma SearchersExist(env: Env, scoring: Search.Scoring, printed: real -> int) returns (other: Env)
    ensures other == env.(search := other.search) && AnswersBySearch(other, scoring, printed)
  {
    other := env.(search := (s, floats, k) => SomeSearch(scoring, printed, s, floats, k));
    forall s: LiveStore, floats: seq<F32>, k: nat
      ensures AnswerIs(other, scoring, printed, s, floats, k)
    {
      SomeSearchAnswers(other, scoring, printed, s, floats, k);
    }
  }
}
