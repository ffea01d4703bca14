/** Recovery from a file in which batches were written more than once: the contents are those after a
    prefix of the commands sent, though single HMSETs depend on what was there before. */
module Recovery {
  import opened Bytes
  import opened Commands
  import opened HashEngine
  import opened Codec
  import opened VectorStore
  import opened Server
  import opened KeyValue
  import opened Replay
  import opened Worker
  import opened Resp
  import opened Streaming
  import opened History
  import Log

  // ---------- What a batch does to one key ----------

  /** The effect of changes on one key: none, a final value whatever was there, or more hash entries. */
  datatype Effect = Same | Becomes(value: Option<Plain>) | Extends(entries: map<bytes, bytes>)

  function EntriesIn(p: Option<Plain>): map<bytes, bytes> {
    if p.Some? && p.value.Hash? then p.value.entries else map[]
  }

  function On(e: Effect, p: Option<Plain>): Option<Plain> {
    match e
    case Same => p
    case Becomes(value) => value
    case Extends(entries) => Some(Hash(EntriesIn(p) + entries))
  }

  function Composed(first: Effect, second: Effect): Effect {
    match second
    case Same => first
    case Becomes(_) => second
    case Extends(entries) =>
      match first
      case Same => second
      case Becomes(value) => Becomes(Some(Hash(EntriesIn(value) + entries)))
      case Extends(earlier) => Extends(earlier + entries)
  }

  lemma ComposedLaw(first: Effect, second: Effect, p: Option<Plain>)
    ensures On(Composed(first, second), p) == On(second, On(first, p))
  {
    if first.Extends? && second.Extends? {
      assert EntriesIn(p) + (first.entries + second.entries) == EntriesIn(p) + first.entries + second.entries;
    }
  }

  lemma OnTwice(e: Effect, p: Option<Plain>)
    ensures On(e, On(e, p)) == On(e, p)
  {
    if e.Extends? {
      assert EntriesIn(p) + e.entries + e.entries == EntriesIn(p) + e.entries;
    }
  }

  function EffectOf(c: Change, key: bytes): Effect {
    match c
    case Put(k, val, cascade) => if k == key then Becomes(Some(Str(val, cascade))) else Same
    case Remove(k) => if k == key then Becomes(None) else Same
    case Override(k, fields) => if k == key then Extends(AsMap(fields)) else Same
    case Insert(_, _) => Same
    case Reset => Becomes(None)
  }

  function EffectOfAll(changes: seq<Change>, key: bytes): Effect {
    if changes == [] then Same
    else Composed(EffectOfAll(changes[..|changes| - 1], key), EffectOf(changes[|changes| - 1], key))
  }

  function Lookup(kv: Content, key: bytes): Option<Plain> {
    if key in kv then Some(kv[key]) else None
  }

  lemma OneEffect(kv: Content, c: Change, key: bytes)
    ensures Lookup(KeyValue.Next(kv, c), key) == On(EffectOf(c, key), Lookup(kv, key))
  {
  }

  /** A batch acts on every key by its effect. */
  lemma {:induction false} AllEffects(kv: Content, changes: seq<Change>, key: bytes)
    ensures Lookup(NextAll(kv, changes), key) == On(EffectOfAll(changes, key), Lookup(kv, key))
  {
    if changes != [] {
      var front, c := changes[..|changes| - 1], changes[|changes| - 1];
      AllEffects(kv, front, key);
      OneEffect(NextAll(kv, front), c, key);
      ComposedLaw(EffectOfAll(front, key), EffectOf(c, key), Lookup(kv, key));
    }
  }

  lemma SameContent(a: Content, b: Content)
    requires forall key :: Lookup(a, key) == Lookup(b, key)
    ensures a == b
  {
    forall key
      ensures key in a <==> key in b
      ensures key in a && key in b ==> a[key] == b[key]
    {
      assert Lookup(a, key) == Lookup(b, key);
    }
  }

  /** Any batch applied twice in a row leaves what it left the first time, for every mix of commands and
      whatever the contents were. */
  lemma BatchTwice(kv: Content, changes: seq<Change>)
    ensures NextAll(NextAll(kv, changes), changes) == NextAll(kv, changes)
  {
    forall key
      ensures Lookup(NextAll(NextAll(kv, changes), changes), key) == Lookup(NextAll(kv, changes), key)
    {
      AllEffects(kv, changes, key);
      AllEffects(NextAll(kv, changes), changes, key);
      OnTwice(EffectOfAll(changes, key), Lookup(kv, key));
    }
    SameContent(NextAll(NextAll(kv, changes), changes), NextAll(kv, changes));
  }

  // ---------- Repeated batches in a log ----------

  lemma {:induction false} NextAllConcat(kv: Content, a: seq<Change>, b: seq<Change>)
    ensures NextAll(kv, a + b) == NextAll(NextAll(kv, a), b)
  {
    if b == [] {
      assert a + b == a;
    } else {
      assert (a + b)[..|a + b| - 1] == a + b[..|b| - 1];
      NextAllConcat(kv, a, b[..|b| - 1]);
    }
  }

  /** The contents after replaying entries. */
  function ContentsAfter(kv: Content, entries: seq<Log.Entry>): Content {
    NextAll(kv, AsChanges(entries))
  }

  lemma ContentsConcat(kv: Content, a: seq<Log.Entry>, b: seq<Log.Entry>)
    ensures ContentsAfter(kv, a + b) == ContentsAfter(ContentsAfter(kv, a), b)
  {
    AsChangesConcat(a, b);
    NextAllConcat(kv, AsChanges(a), AsChanges(b));
  }

  /** Retries do not change the contents: a batch written n >= 1 times in a row replays as if written once. */
  lemma {:induction false} RepeatsAreOnce(kv: Content, batch: seq<Log.Entry>, n: nat)
    requires n >= 1
    ensures ContentsAfter(kv, Repeated(batch, n)) == ContentsAfter(kv, batch)
  {
    if n == 1 {
      assert Repeated(batch, 0) + batch == batch;
    } else {
      RepeatsAreOnce(kv, batch, n - 1);
      ContentsConcat(kv, Repeated(batch, n - 1), batch);
      BatchTwice(kv, AsChanges(batch));
    }
  }

  lemma {:induction false} ReplicatedIsOnce(kv: Content, commits: seq<Committed>)
    requires forall c :: c in commits ==> c.copies >= 1
    ensures ContentsAfter(kv, Replicated(commits)) == ContentsAfter(kv, Batches(commits))
  {
    if commits != [] {
      var front, c := commits[..|commits| - 1], commits[|commits| - 1];
      assert c in commits;
      ReplicatedIsOnce(kv, front);
      ContentsConcat(kv, Replicated(front), Repeated(c.batch, c.copies));
      ContentsConcat(kv, Batches(front), c.batch);
      RepeatsAreOnce(ContentsAfter(kv, Batches(front)), c.batch, c.copies);
    }
  }

  // ---------- Repeated batches and the vector store ----------

  predicate Adds(changes: seq<Change>) {
    exists c :: c in changes && c.Insert?
  }

  predicate Resets(changes: seq<Change>) {
    Reset in changes
  }

  lemma {:induction false} ShapeKept(s: LiveStore, changes: seq<Change>)
    ensures var r := VectorsAfter(s, changes); r.dim == s.dim && |r.shards| == |s.shards|
  {
    if changes != [] {
      ShapeKept(s, changes[..|changes| - 1]);
    }
  }

  lemma {:induction false} ResetForgets(a: LiveStore, b: LiveStore, changes: seq<Change>)
    requires a.dim == b.dim && |a.shards| == |b.shards| && Resets(changes)
    ensures VectorsAfter(a, changes) == VectorsAfter(b, changes)
  {
    var front := changes[..|changes| - 1];
    if changes[|changes| - 1] == Reset {
      ShapeKept(a, front);
      ShapeKept(b, front);
      assert ClearVectors(VectorsAfter(a, front)).shards == ClearVectors(VectorsAfter(b, front)).shards;
    } else {
      ResetForgets(a, b, front);
    }
  }

  function AddCount(changes: seq<Change>): nat {
    if changes == [] then 0
    else AddCount(changes[..|changes| - 1]) + (if changes[|changes| - 1].Insert? then 1 else 0)
  }

  lemma {:induction false} CounterGrows(s: LiveStore, changes: seq<Change>)
    requires !Resets(changes)
    ensures VectorsAfter(s, changes).counter == s.counter + AddCount(changes)
    ensures Adds(changes) <==> AddCount(changes) > 0
    ensures !Adds(changes) ==> VectorsAfter(s, changes) == s
  {
    if changes != [] {
      var front, c := changes[..|changes| - 1], changes[|changes| - 1];
      assert c in changes;
      CounterGrows(s, front);
    }
  }

  /** VADD is not protected from retries: a batch written twice leaves the vector store as if written once
      exactly when it adds no vector or also flushes. */
  lemma VectorsTwiceIff(s: LiveStore, changes: seq<Change>)
    ensures VectorsAfter(VectorsAfter(s, changes), changes) == VectorsAfter(s, changes)
       <==> !Adds(changes) || Resets(changes)
  {
    ShapeKept(s, changes);
    if Resets(changes) {
      ResetForgets(VectorsAfter(s, changes), s, changes);
    } else {
      CounterGrows(s, changes);
      CounterGrows(VectorsAfter(s, changes), changes);
    }
  }

  /** A batch that may be replayed again without changing the vector store. */
  predicate Harmless(batch: seq<Log.Entry>) {
    !Adds(AsChanges(batch)) || Resets(AsChanges(batch))
  }

  /** The vector store after replaying entries. */
  function VectorsOf(s: LiveStore, entries: seq<Log.Entry>): LiveStore {
    VectorsAfter(s, AsChanges(entries))
  }

  lemma {:induction false} VectorsAfterConcat(s: LiveStore, a: seq<Change>, b: seq<Change>)
    ensures VectorsAfter(s, a + b) == VectorsAfter(VectorsAfter(s, a), b)
  {
    if b == [] {
      assert a + b == a;
    } else {
      assert (a + b)[..|a + b| - 1] == a + b[..|b| - 1];
      VectorsAfterConcat(s, a, b[..|b| - 1]);
    }
  }

  lemma VectorsOfConcat(s: LiveStore, a: seq<Log.Entry>, b: seq<Log.Entry>)
    ensures VectorsOf(s, a + b) == VectorsOf(VectorsOf(s, a), b)
  {
    AsChangesConcat(a, b);
    VectorsAfterConcat(s, AsChanges(a), AsChanges(b));
  }

  predicate Flushes(batch: seq<Log.Entry>) {
    Resets(AsChanges(batch))
  }

  lemma {:induction false} HarmlessRepeats(s: LiveStore, batch: seq<Log.Entry>, n: nat)
    requires n >= 1 && (n > 1 ==> Harmless(batch))
    ensures VectorsOf(s, Repeated(batch, n)) == VectorsOf(s, batch)
  {
    if n == 1 {
      assert Repeated(batch, 0) + batch == batch;
    } else {
      HarmlessRepeats(s, batch, n - 1);
      VectorsOfConcat(s, Repeated(batch, n - 1), batch);
      VectorsTwiceIff(s, AsChanges(batch));
    }
  }

  lemma {:induction false} RepeatsGrow(s: LiveStore, batch: seq<Log.Entry>, n: nat)
    requires n >= 1 && !Flushes(batch)
    ensures VectorsOf(s, Repeated(batch, n)).counter >= s.counter + AddCount(AsChanges(batch))
    ensures n > 1 && !Harmless(batch) ==>
              VectorsOf(s, Repeated(batch, n)).counter > s.counter + AddCount(AsChanges(batch))
  {
    var before := VectorsOf(s, Repeated(batch, n - 1));
    VectorsOfConcat(s, Repeated(batch, n - 1), batch);
    CounterGrows(before, AsChanges(batch));
    if n == 1 {
      assert before == s;
    } else {
      RepeatsGrow(s, batch, n - 1);
    }
  }

  ghost predicate SameShape(a: LiveStore, b: LiveStore) {
    a.dim == b.dim && |a.shards| == |b.shards|
  }

  /** One more batch, perhaps repeated, on a store that has met retries and on one that has not. */
  lemma OneBatch(a: LiveStore, b: LiveStore, c: Committed)
    requires SameShape(a, b) && c.copies >= 1 && a.counter >= b.counter
    ensures var after, once := VectorsOf(a, Repeated(c.batch, c.copies)), VectorsOf(b, c.batch);
            && SameShape(after, once)
            && (Flushes(c.batch) || (a == b && (c.copies > 1 ==> Harmless(c.batch))) ==> after == once)
            && (!Flushes(c.batch) && (a.counter > b.counter || (c.copies > 1 && !Harmless(c.batch))) ==>
                  after.counter > once.counter)
  {
    ShapeKept(a, AsChanges(Repeated(c.batch, c.copies)));
    ShapeKept(b, AsChanges(c.batch));
    if Flushes(c.batch) {
      HarmlessRepeats(a, c.batch, c.copies);
      ResetForgets(a, b, AsChanges(c.batch));
    } else {
      RepeatsGrow(a, c.batch, c.copies);
      CounterGrows(b, AsChanges(c.batch));
      if c.copies > 1 ==> Harmless(c.batch) {
        HarmlessRepeats(a, c.batch, c.copies);
      }
    }
  }

  /** Every batch in the file more than once that adds vectors without flushing has a flushing batch behind it. */
  ghost predicate RetriesFlushed(written: seq<Committed>) {
    forall i :: 0 <= i < |written| && written[i].copies > 1 && !Harmless(written[i].batch) ==> FlushedAfter(written, i)
  }

  ghost predicate FlushedAfter(written: seq<Committed>, i: nat) {
    exists j :: i < j < |written| && Flushes(written[j].batch)
  }

  lemma FlushedNext(front: seq<Committed>, c: Committed, i: nat)
    requires i < |front|
    ensures FlushedAfter(front + [c], i) <==> FlushedAfter(front, i) || Flushes(c.batch)
  {
    var longer := front + [c];
    if FlushedAfter(front, i) {
      var j :| i < j < |front| && Flushes(front[j].batch);
      assert longer[j] == front[j];
    }
    if FlushedAfter(longer, i) {
      var j :| i < j < |longer| && Flushes(longer[j].batch);
      assert j < |front| ==> longer[j] == front[j];
    }
    assert longer[|front|] == c;
  }

  lemma RetriesFlushedNext(front: seq<Committed>, c: Committed)
    ensures RetriesFlushed(front + [c])
       <==> Flushes(c.batch) || (RetriesFlushed(front) && (c.copies > 1 ==> Harmless(c.batch)))
  {
    var longer := front + [c];
    forall i | 0 <= i < |front|
      ensures longer[i] == front[i] && (FlushedAfter(longer, i) <==> FlushedAfter(front, i) || Flushes(c.batch))
    {
      FlushedNext(front, c, i);
    }
    assert longer[|front|] == c && !FlushedAfter(longer, |front|);
  }

  lemma {:induction false} ReplicatedVectors(v: LiveStore, written: seq<Committed>)
    requires forall c :: c in written ==> c.copies >= 1
    ensures var many, once := VectorsOf(v, Replicated(written)), VectorsOf(v, Batches(written));
            && SameShape(many, once)
            && (RetriesFlushed(written) ==> many == once)
            && (!RetriesFlushed(written) ==> many.counter > once.counter)
  {
    if written != [] {
      var front, c := written[..|written| - 1], written[|written| - 1];
      assert c in written && front + [c] == written;
      ReplicatedVectors(v, front);
      VectorsOfConcat(v, Replicated(front), Repeated(c.batch, c.copies));
      VectorsOfConcat(v, Batches(front), c.batch);
      OneBatch(VectorsOf(v, Replicated(front)), VectorsOf(v, Batches(front)), c);
      RetriesFlushedNext(front, c);
    }
  }

  /** Replaying batches with their repetitions gives the vector store of replaying each once if and only if
      every harmful retry is flushed away later. */
  lemma ReplicatedVectorsIff(v: LiveStore, written: seq<Committed>)
    requires forall c :: c in written ==> c.copies >= 1
    ensures VectorsOf(v, Replicated(written)) == VectorsOf(v, Batches(written)) <==> RetriesFlushed(written)
  {
    ReplicatedVectors(v, written);
  }

  // ---------- Crash at any moment ----------

  /** The commands a file is good for: the committed batches and, once written, the batch at hand. */
  function Recovered(s: State): seq<Log.Entry> {
    Batches(s.commits) + (if s.copies == 0 then [] else s.batch)
  }

  lemma OnDiskOk(t: Text, s: State)
    requires Safe(t, s) && LogOk(t, s.sent)
    ensures LogOk(t, OnDisk(s))
  {
    forall e | e in OnDisk(s)
      ensures e in s.sent
    {
      if e in Replicated(s.commits) {
        InReplicated(s.commits, e);
      } else {
        InRepeated(s.batch, s.copies, e);
      }
    }
  }

  lemma {:induction false} InRepeated(batch: seq<Log.Entry>, n: nat, e: Log.Entry)
    requires e in Repeated(batch, n)
    ensures e in batch
  {
    if e in Repeated(batch, n - 1) {
      InRepeated(batch, n - 1, e);
    }
  }

  lemma {:induction false} InReplicated(commits: seq<Committed>, e: Log.Entry)
    requires e in Replicated(commits)
    ensures e in Batches(commits)
  {
    var front, c := commits[..|commits| - 1], commits[|commits| - 1];
    if e in Replicated(front) {
      InReplicated(front, e);
    } else {
      InRepeated(c.batch, c.copies, e);
    }
  }

  lemma OnDiskIsOnce(kv: Content, s: State)
    requires forall c :: c in s.commits ==> c.copies >= 1
    ensures ContentsAfter(kv, OnDisk(s)) == ContentsAfter(kv, Recovered(s))
  {
    var done := Batches(s.commits);
    ReplicatedIsOnce(kv, s.commits);
    ContentsConcat(kv, Replicated(s.commits), Repeated(s.batch, s.copies));
    if s.copies == 0 {
      assert done + [] == done;
      assert ContentsAfter(ContentsAfter(kv, done), []) == ContentsAfter(kv, done);
    } else {
      ContentsConcat(kv, done, s.batch);
      RepeatsAreOnce(ContentsAfter(kv, done), s.batch, s.copies);
    }
  }

  /** The batches in the file: the committed ones and, once written, the batch at hand. */
  function InFile(s: State): seq<Committed> {
    s.commits + (if s.copies == 0 then [] else [Committed(s.batch, s.copies)])
  }

  lemma InFileIs(s: State)
    ensures OnDisk(s) == Replicated(InFile(s)) && Recovered(s) == Batches(InFile(s))
  {
    if s.copies == 0 {
      assert InFile(s) == s.commits;
    } else {
      assert InFile(s)[..|s.commits|] == s.commits;
    }
  }

  /** The vector store rebuilt from the file is the one after the same prefix if and only if every batch in the
      file that was written more than once and adds vectors without flushing is followed by one that flushes. */
  lemma VectorRecoveryIff(t: Text, prior: seq<Log.Entry>, steps: seq<Step>, s: State, v: LiveStore)
    requires VerbsOk(t) && Reaches(t, Start(t, prior), steps, s) && LogOk(t, s.sent)
    ensures VectorsAfter(v, Decoded(t, s.file)) == VectorsOf(v, Recovered(s)) <==> RetriesFlushed(InFile(s))
  {
    EveryRunSafe(t, prior, steps, s);
    OnDiskOk(t, s);
    LogDecodes(t, OnDisk(s));
    InFileIs(s);
    ReplicatedVectorsIff(v, InFile(s));
  }

  /** Stop the worker at any point of any run and replay the file: the contents are those after a prefix
      of the commands sent, and that prefix holds every committed batch. */
  lemma CrashRecovery(t: Text, prior: seq<Log.Entry>, steps: seq<Step>, s: State)
    requires VerbsOk(t) && Reaches(t, Start(t, prior), steps, s) && LogOk(t, s.sent)
    ensures Recovered(s) <= s.sent && Batches(s.commits) <= Recovered(s)
    ensures NextAll(EMPTY_CONTENT, Decoded(t, s.file)) == ContentsAfter(EMPTY_CONTENT, Recovered(s))
  {
    EveryRunSafe(t, prior, steps, s);
    OnDiskOk(t, s);
    LogDecodes(t, OnDisk(s));
    OnDiskIsOnce(EMPTY_CONTENT, s);
  }

  // ---------- Crash in the middle of a write ----------

  lemma OneMorePrinted(t: Text, batch: seq<Log.Entry>, m: nat)
    requires m < |batch|
    ensures Printed(t, batch[..m + 1]) == Log.ToResp(t, batch[0]) + Printed(t, batch[1..][..m])
  {
    var front := batch[..m + 1];
    assert front[0] == batch[0] && front[1..] == batch[1..][..m];
  }

  /** Some of a batch's bytes: whole entries and then the beginning of the next. */
  lemma {:induction false} TornBatch(t: Text, batch: seq<Log.Entry>, part: bytes) returns (n: nat, torn: bytes)
    requires part < Printed(t, batch)
    ensures n < |batch| && part == Printed(t, batch[..n]) + torn && torn < Log.ToResp(t, batch[n])
  {
    var first, later := Log.ToResp(t, batch[0]), batch[1..];
    if part < first {
      n, torn := 0, part;
      assert Printed(t, batch[..0]) == [];
    } else {
      var m, others := 0, part[|first|..];
      assert part == first + others && others < Printed(t, later);
      m, torn := TornBatch(t, later, others);
      n := m + 1;
      OneMorePrinted(t, batch, m);
      BytesAssoc(first, Printed(t, later[..m]), torn);
    }
  }

  lemma MoreOnDisk(t: Text, done: seq<Log.Entry>, more: seq<Log.Entry>, torn: bytes)
    requires VerbsOk(t) && LogOk(t, done) && LogOk(t, more)
    ensures Decoded(t, Printed(t, done) + (Printed(t, more) + torn)) == AsChanges(done + more) + Decoded(t, torn)
  {
    PrintedConcat(t, done, more);
    BytesAssoc(Printed(t, done), Printed(t, more), torn);
    BothOk(t, done, more);
    LogThenMore(t, done + more, torn);
  }

  lemma BothOk(t: Text, a: seq<Log.Entry>, b: seq<Log.Entry>)
    requires LogOk(t, a) && LogOk(t, b)
    ensures LogOk(t, a + b)
  {
  }

  lemma TornContents(s: State, more: seq<Log.Entry>)
    requires s.copies == 0 && forall c :: c in s.commits ==> c.copies >= 1
    ensures ContentsAfter(EMPTY_CONTENT, OnDisk(s) + more) == ContentsAfter(EMPTY_CONTENT, Batches(s.commits) + more)
  {
    OnDiskIsOnce(EMPTY_CONTENT, s);
    ContentsConcat(EMPTY_CONTENT, OnDisk(s), more);
    ContentsConcat(EMPTY_CONTENT, Batches(s.commits), more);
    assert Recovered(s) == Batches(s.commits);
  }

  lemma PartOk(t: Text, s: State, n: nat)
    requires Safe(t, s) && LogOk(t, s.sent) && n <= |s.batch|
    ensures LogOk(t, s.batch[..n]) && Batches(s.commits) + s.batch[..n] <= s.sent
  {
    forall e | e in s.batch[..n]
      ensures e in s.sent
    {
      assert e in s.batch;
    }
  }

  /** The worker dies while it writes a batch for the first time and some of the bytes reach the file. It recovers
      the contents after a prefix of what was sent that holds every committed batch, with the first n entries of the
      batch, if and only if no command is found in the bytes of the entry that was torn; none is when no byte of it
      after the first is a star. */
  lemma TornWrite(t: Text, prior: seq<Log.Entry>, steps: seq<Step>, s: State, part: bytes)
    returns (n: nat, torn: bytes)
    requires VerbsOk(t) && Reaches(t, Start(t, prior), steps, s) && LogOk(t, s.sent)
    requires s.phase.Writing? && s.copies == 0 && part < Printed(t, s.batch)
    ensures n < |s.batch| && part == Printed(t, s.batch[..n]) + torn && torn < Log.ToResp(t, s.batch[n])
    ensures Batches(s.commits) + s.batch[..n] <= s.sent
    ensures Decoded(t, s.file + part) == AsChanges(OnDisk(s) + s.batch[..n]) <==> Decoded(t, torn) == []
    ensures (torn != [] ==> '*' !in torn[1..]) ==> Decoded(t, torn) == []
    ensures ContentsAfter(EMPTY_CONTENT, OnDisk(s) + s.batch[..n])
         == ContentsAfter(EMPTY_CONTENT, Batches(s.commits) + s.batch[..n])
  {
    EveryRunSafe(t, prior, steps, s);
    OnDiskOk(t, s);
    n, torn := TornBatch(t, s.batch, part);
    assert s.batch[n] in s.batch && s.batch[n] in s.sent;
    PartOk(t, s, n);
    MoreOnDisk(t, OnDisk(s), s.batch[..n], torn);
    if torn != [] ==> '*' !in torn[1..] {
      TornSkipped(t, s.batch[n], torn);
    }
    TornContents(s, s.batch[..n]);
  }

  /** A log holds nothing it does not remember. */
  lemma LogIsRemembered(t: Text, entries: seq<Log.Entry>)
    requires LogOk(t, entries)
    ensures Remembered(t, ContentsAfter(EMPTY_CONTENT, entries)) == ContentsAfter(EMPTY_CONTENT, entries)
  {
    forall c | c in AsChanges(entries)
      ensures Faithful(t, c)
    {
      var i :| 0 <= i < |entries| && AsChange(entries[i]) == c;
      assert entries[i] in entries;
    }
    FaithfulHistory(t, AsChanges(entries));
  }

  /** The data a server starts with: what replaying the log of earlier sessions makes of an empty database. */
  ghost predicate StartsFrom(env: Env, blank: Data, prior: seq<Log.Entry>, d: Data)
    requires ModelOk(env.model)
  {
    blank.db == map[] && d == ApplyAll(env, blank, Decoded(env.text, Printed(env.text, prior)))
  }

  lemma StartMeans(env: Env, blank: Data, prior: seq<Log.Entry>, d: Data)
    requires ModelOk(env.model) && OrdersOk(env) && VerbsOk(env.text) && LogOk(env.text, prior)
    requires StartsFrom(env, blank, prior, d) && NeverFull(EMPTY_CONTENT, AsChanges(prior))
    ensures Represents(env.model, d.db, ContentsAfter(EMPTY_CONTENT, prior))
  {
    LogDecodes(env.text, prior);
    LogChangesOk(env.text, prior);
    HistoryMeans(env, blank, EMPTY_CONTENT, AsChanges(prior));
  }

  /** No hash fills up while the earlier log is replayed or in the run after it. */
  ghost predicate RunNeverFull(prior: seq<Log.Entry>, changes: seq<Change>) {
    NeverFull(EMPTY_CONTENT, AsChanges(prior)) && NeverFull(ContentsAfter(EMPTY_CONTENT, prior), changes)
  }

  lemma {:induction false} NeverFullConcat(kv: Content, a: seq<Change>, b: seq<Change>)
    requires NeverFull(kv, a) && NeverFull(NextAll(kv, a), b)
    ensures NeverFull(kv, a + b)
  {
    NextAllConcat(kv, a, b);
    if b == [] {
      assert a + b == a;
    } else {
      assert (a + b)[..|a + b| - 1] == a + b[..|b| - 1];
      NeverFullConcat(kv, a, b[..|b| - 1]);
    }
  }

  ghost predicate Unretried(written: seq<Committed>) {
    forall c :: c in written ==> c.copies == 1
  }

  lemma {:induction false} OnceEach(written: seq<Committed>)
    requires Unretried(written)
    ensures Replicated(written) == Batches(written)
  {
    if written != [] {
      var c := written[|written| - 1];
      assert c in written;
      OnceEach(written[..|written| - 1]);
      assert Repeated(c.batch, 1) == Repeated(c.batch, 0) + c.batch == c.batch;
    }
  }

  /** A file without retries fills no hash that the sessions it comes from did not fill. */
  lemma UnretriedNeverFull(t: Text, prior: seq<Log.Entry>, changes: seq<Change>, s: State)
    requires AllLog(t, changes) && LogOk(t, prior) && RunNeverFull(prior, changes)
    requires Recovered(s) <= prior + LoggedAll(t, changes) && Unretried(InFile(s))
    ensures NeverFull(EMPTY_CONTENT, AsChanges(OnDisk(s)))
  {
    var log := LoggedAll(t, changes);
    InFileIs(s);
    OnceEach(InFile(s));
    LogIsRemembered(t, prior);
    LoggedNeverFull(t, ContentsAfter(EMPTY_CONTENT, prior), changes);
    NeverFullConcat(EMPTY_CONTENT, AsChanges(prior), AsChanges(log));
    AsChangesConcat(prior, log);
    NeverFullPrefix(EMPTY_CONTENT, AsChanges(prior + log), |Recovered(s)|);
    assert AsChanges(prior + log)[..|Recovered(s)|] == AsChanges(Recovered(s));
  }

  lemma FoundNeverFull(t: Text, prior: seq<Log.Entry>, steps: seq<Step>, changes: seq<Change>, s: State)
    requires VerbsOk(t) && Reaches(t, Start(t, prior), steps, s) && LogOk(t, s.sent) && LogOk(t, prior)
    requires AllLog(t, changes) && s.sent == prior + LoggedAll(t, changes)
    requires Unretried(InFile(s)) && RunNeverFull(prior, changes)
    ensures NeverFull(EMPTY_CONTENT, Decoded(t, s.file))
  {
    EveryRunSafe(t, prior, steps, s);
    OnDiskOk(t, s);
    LogDecodes(t, OnDisk(s));
    CrashRecovery(t, prior, steps, s);
    UnretriedNeverFull(t, prior, changes, s);
  }

  /** From a client's bytes to the disk and back, in any session. The server starts from the log of
      earlier sessions. Whatever a client sends, however it is cut into reads, and wherever the worker of
      that run is stopped: the live database stands for the earlier contents and then the run's changes; a
      database rebuilt from the file stands for the contents after a prefix of everything logged that
      includes every committed batch; and when the worker has caught up, these are the live contents as
      the log remembers them. The rebuilt vector store follows the same prefix exactly when every retried batch
      that adds without flushing is flushed away later, and that of the prefix is the live one when the worker
      has caught up. */
  lemma EndToEnd(env: Env, again: Env, blank: Data, prior: seq<Log.Entry>, d: Data, cuts: seq<bytes>,
                 steps: seq<Step>, s: State) returns (changes: seq<Change>)
    requires ModelOk(env.model) && env.persist && OrdersOk(env) && OrdersOk(again)
    requires VerbsOk(env.text) && FloatsOk(env.text)
    requires again.model == env.model && again.text == env.text
    requires LogOk(env.text, prior) && StartsFrom(env, blank, prior, d)
    requires Reaches(env.text, Start(env.text, prior), steps, s)
    requires s.sent == prior + Feed(StepOf(env), Server(d, []), [], cuts).state.sent
    ensures var live := Feed(StepOf(env), Server(d, []), [], cuts).state;
            var found := Decoded(env.text, s.file);
            var contents := NextAll(ContentsAfter(EMPTY_CONTENT, prior), changes);
            && IsHistory(env, d, live, changes)
            && (RunNeverFull(prior, changes) ==> Represents(env.model, live.data.db, contents))
            && Recovered(s) <= s.sent && Batches(s.commits) <= Recovered(s)
            && (NeverFull(EMPTY_CONTENT, found) ==>
                  Represents(env.model, ApplyAll(again, blank, found).db, ContentsAfter(EMPTY_CONTENT, Recovered(s))))
            && (Unretried(InFile(s)) && RunNeverFull(prior, changes) ==> NeverFull(EMPTY_CONTENT, found))
            && (ApplyAll(again, blank, found).vectors == VectorsOf(blank.vectors, Recovered(s)) <==>
                  RetriesFlushed(InFile(s)))
            && (Recovered(s) == s.sent ==>
                  && ContentsAfter(EMPTY_CONTENT, Recovered(s)) == Remembered(env.text, contents)
                  && VectorsOf(blank.vectors, Recovered(s)) == live.data.vectors)
  {
    var t := env.text;
    FragmentationIndependence(env, Server(d, []), cuts);
    changes := RunIsHistory(env, d, Concat(cuts));
    LogsAreOk(t, changes);
    LiveMeans(env, blank, prior, d, changes);
    FileMeans(again, blank, prior, steps, s);
    if Unretried(InFile(s)) && RunNeverFull(prior, changes) {
      FoundNeverFull(t, prior, steps, changes, s);
    }
    LogIsRemembered(t, prior);
    HistoryRemembered(t, ContentsAfter(EMPTY_CONTENT, prior), changes);
    ContentsConcat(EMPTY_CONTENT, prior, LoggedAll(t, changes));
    LiveVectors(env, blank, prior, d, changes);
    FileVectors(again, blank, prior, steps, s);
  }

  lemma LiveVectors(env: Env, blank: Data, prior: seq<Log.Entry>, d: Data, changes: seq<Change>)
    requires ModelOk(env.model) && VerbsOk(env.text) && LogOk(env.text, prior) && StartsFrom(env, blank, prior, d)
    ensures ApplyAll(env, d, changes).vectors == VectorsOf(blank.vectors, prior + LoggedAll(env.text, changes))
  {
    LogDecodes(env.text, prior);
    ApplyAllVectors(env, blank, AsChanges(prior));
    ApplyAllVectors(env, d, changes);
    VectorsLogged(env.text, d.vectors, changes);
    VectorsOfConcat(blank.vectors, prior, LoggedAll(env.text, changes));
  }

  lemma FileVectors(again: Env, blank: Data, prior: seq<Log.Entry>, steps: seq<Step>, s: State)
    requires ModelOk(again.model) && VerbsOk(again.text)
    requires Reaches(again.text, Start(again.text, prior), steps, s) && LogOk(again.text, s.sent)
    ensures ApplyAll(again, blank, Decoded(again.text, s.file)).vectors == VectorsOf(blank.vectors, Recovered(s))
       <==> RetriesFlushed(InFile(s))
  {
    ApplyAllVectors(again, blank, Decoded(again.text, s.file));
    VectorRecoveryIff(again.text, prior, steps, s, blank.vectors);
  }

  lemma LiveMeans(env: Env, blank: Data, prior: seq<Log.Entry>, d: Data, changes: seq<Change>)
    requires ModelOk(env.model) && OrdersOk(env) && VerbsOk(env.text) && LogOk(env.text, prior)
    requires StartsFrom(env, blank, prior, d) && ChangesOk(changes)
    ensures RunNeverFull(prior, changes) ==>
              Represents(env.model, ApplyAll(env, d, changes).db, NextAll(ContentsAfter(EMPTY_CONTENT, prior), changes))
  {
    if RunNeverFull(prior, changes) {
      StartMeans(env, blank, prior, d);
      HistoryMeans(env, d, ContentsAfter(EMPTY_CONTENT, prior), changes);
    }
  }

  lemma FileMeans(again: Env, blank: Data, prior: seq<Log.Entry>, steps: seq<Step>, s: State)
    requires ModelOk(again.model) && OrdersOk(again) && VerbsOk(again.text) && blank.db == map[]
    requires Reaches(again.text, Start(again.text, prior), steps, s) && LogOk(again.text, s.sent)
    ensures Recovered(s) <= s.sent && Batches(s.commits) <= Recovered(s)
    ensures var found := Decoded(again.text, s.file);
            NeverFull(EMPTY_CONTENT, found) ==>
              Represents(again.model, ApplyAll(again, blank, found).db, ContentsAfter(EMPTY_CONTENT, Recovered(s)))
  {
    CrashRecovery(again.text, prior, steps, s);
    FoundOk(again.text, prior, steps, s);
    if NeverFull(EMPTY_CONTENT, Decoded(again.text, s.file)) {
      HistoryMeans(again, blank, EMPTY_CONTENT, Decoded(again.text, s.file));
    }
  }

  lemma FoundOk(t: Text, prior: seq<Log.Entry>, steps: seq<Step>, s: State)
    requires VerbsOk(t) && Reaches(t, Start(t, prior), steps, s) && LogOk(t, s.sent)
    ensures ChangesOk(Decoded(t, s.file))
  {
    EveryRunSafe(t, prior, steps, s);
    OnDiskOk(t, s);
    LogDecodes(t, OnDisk(s));
    LogChangesOk(t, OnDisk(s));
  }
}
