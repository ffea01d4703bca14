/** Every run of the server is a history of changes that its log can hold, so replaying the log after any
    client's bytes rebuilds what the run left behind. */
module History {
  import opened Bytes
  import opened Resp
  import opened Commands
  import opened HashEngine
  import opened Codec
  import opened VectorStore
  import opened Quantizer
  import opened Streaming
  import opened Server
  import opened KeyValue
  import opened Replay
  import Log

  // ---------- What the parser yields fits the log ----------

  ghost predicate Short(items: seq<bytes>) {
    forall x :: x in items ==> |x| < U32
  }

  lemma BulkShort(s: bytes, i: nat)
    requires ParseBulk(s, i).Parsed?
    ensures |ParseBulk(s, i).value| < U32
  {
  }

  /** What this reader finds in s is short. */
  ghost predicate ReadsShort(parse: Reader, s: bytes) {
    forall j: nat :: parse(s, j).Parsed? ==> |parse(s, j).value| < U32
  }

  lemma BulksReadShort(s: bytes)
    ensures ReadsShort(ParseBulk, s)
  {
    forall j: nat | ParseBulk(s, j).Parsed?
      ensures |ParseBulk(s, j).value| < U32
    {
      BulkShort(s, j);
    }
  }

  lemma {:induction false} ManyShort(parse: Reader, s: bytes, i: nat, n: nat)
    requires i <= |s| && ParseMany(parse, s, i, n).Parsed? && ReadsShort(parse, s)
    ensures Short(ParseMany(parse, s, i, n).value)
    decreases n
  {
    if n > 0 {
      ManyShort(parse, s, i + parse(s, i).len, n - 1);
    }
  }

  lemma BulksShort(s: bytes, i: nat, n: nat)
    requires i <= |s| && ParseBulks(s, i, n).Parsed?
    ensures Short(ParseBulks(s, i, n).value)
  {
    BulksReadShort(s);
    ManyShort(ParseBulk, s, i, n);
  }

  lemma SizeShort(s: bytes)
    requires ParseSize('*', s, 0).Parsed?
    ensures ParseSize('*', s, 0).value < U32
  {
  }

  lemma RawShort(arity: ArityTable, parse: Reader, s: bytes)
    requires ParseRaw(arity, parse, s).Parsed? && ReadsShort(parse, s)
    ensures var raw := ParseRaw(arity, parse, s).value; raw.argc < U32 && Short(raw.items)
  {
    var raw, size, first, later := PartsOfRaw(arity, parse, s);
    SizeShort(s);
    ManyShort(parse, s, size + first, |raw.items|);
  }

  lemma {:induction false} PairsShort(t: Text, items: seq<bytes>)
    requires Short(items) && Pairs(t, items).Some?
    ensures var fields := Pairs(t, items).value; |fields| == |items| / 2 && Log.NamesOk(t, fields)
  {
    if |items| >= 2 {
      var later := Pairs(t, items[2..]).value;
      PairsShort(t, items[2..]);
      assert Pairs(t, items).value == [(items[0], items[1])] + later;
      assert items[0] in items && items[1] in items;
    }
  }

  lemma {:induction false} FloatsParsed(t: Text, items: seq<bytes>)
    requires FloatsOk(t) && Floats(t, items).Some?
    ensures var floats := Floats(t, items).value;
            |floats| == |items| && forall f :: f in floats ==> PrintsBack(t, f)
  {
    if items != [] {
      FloatsParsed(t, items[1..]);
      var f, later := t.parseF32(items[0]).value, Floats(t, items[1..]).value;
      assert Floats(t, items).value == [f] + later;
      assert PrintsBack(t, f);
    }
  }

  lemma OneLogs(t: Text, c: Change, e: Log.Entry)
    requires Logged(t, c) == [e] && Log.EntryOk(t, e) && Log.Readable(e)
    ensures AllLog(t, [c])
  {
  }

  lemma HmSetLogs(t: Text, raw: Raw)
    requires ArityFor(t, raw.name, raw.argc) == Some(|raw.items|) && t.verb(raw.name) == HMSET
    requires raw.argc < U32 && Short(raw.items) && Build(t, raw).Some?
    ensures AllLog(t, Changes(Build(t, raw).value, []))
  {
    var HmSet(key, fields) := Build(t, raw).value;
    var items := raw.items;
    assert items[0] in items;
    PairsShort(t, items[1..]);
    OneLogs(t, Override(key, fields), Log.HmSet(key, fields));
  }

  lemma VAddLogs(t: Text, raw: Raw)
    requires ArityFor(t, raw.name, raw.argc) == Some(|raw.items|) && t.verb(raw.name) == VADD
    requires FloatsOk(t) && raw.argc < U32 && Short(raw.items) && Build(t, raw).Some?
    ensures AllLog(t, Changes(Build(t, raw).value, []))
  {
    var VAdd(key, floats) := Build(t, raw).value;
    assert raw.items[0] in raw.items;
    FloatsParsed(t, raw.items[1..]);
    OneLogs(t, Insert(key, floats), Log.VAdd(key, floats));
  }

  lemma {:induction false} PutsLog(t: Text, items: seq<bytes>)
    requires Short(items)
    ensures AllLog(t, Puts(items))
  {
    if |items| >= 2 {
      var front, key, val := items[..|items| - 2], items[|items| - 2], items[|items| - 1];
      PutsLog(t, front);
      assert key in items && val in items;
      forall c | c in Puts(items)
        ensures ChangeLogs(t, c)
      {
        assert c in Puts(front) || c == Put(key, val, false);
      }
    }
  }

  lemma BuildLogs(t: Text, raw: Raw, items: seq<bytes>)
    requires ArityFor(t, raw.name, raw.argc) == Some(|raw.items|)
    requires FloatsOk(t) && raw.argc < U32 && Short(raw.items) && Short(items) && Build(t, raw).Some?
    ensures AllLog(t, Changes(Build(t, raw).value, items))
  {
    match t.verb(raw.name)
    case SET =>
      assert raw.items[0] in raw.items && raw.items[1] in raw.items;
      OneLogs(t, Put(raw.items[0], raw.items[1], true), Log.Set(raw.items[0], raw.items[1]));
    case DEL =>
      assert raw.items[0] in raw.items;
      OneLogs(t, Remove(raw.items[0]), Log.Del(raw.items[0]));
    case FLUSHDB =>
      OneLogs(t, Reset, Log.FlushDb);
    case HMSET =>
      HmSetLogs(t, raw);
    case VADD =>
      VAddLogs(t, raw);
    case MSET =>
      PutsLog(t, items);
    case _ =>
  }

  lemma CommandLogs(t: Text, s: bytes, items: seq<bytes>)
    requires FloatsOk(t) && ParseCommand(t, s).Parsed? && Short(items)
    ensures AllLog(t, Changes(ParseCommand(t, s).value, items))
  {
    BulksReadShort(s);
    RawShort(ArityOf(t), ParseBulk, s);
    BuildLogs(t, ParseRaw(ArityOf(t), ParseBulk, s).value, items);
  }

  // ---------- Runs as histories ----------

  lemma {:induction false} ApplyAllConcat(env: Env, d: Data, a: seq<Change>, b: seq<Change>)
    requires ModelOk(env.model)
    ensures ApplyAll(env, ApplyAll(env, d, a), b) == ApplyAll(env, d, a + b)
  {
    if b == [] {
      assert a + b == a;
    } else {
      assert (a + b)[..|a + b| - 1] == a + b[..|b| - 1];
      ApplyAllConcat(env, d, a, b[..|b| - 1]);
    }
  }

  lemma {:induction false} LoggedAllConcat(t: Text, a: seq<Change>, b: seq<Change>)
    ensures LoggedAll(t, a + b) == LoggedAll(t, a) + LoggedAll(t, b)
  {
    if b == [] {
      assert a + b == a;
    } else {
      assert (a + b)[..|a + b| - 1] == a + b[..|b| - 1];
      LoggedAllConcat(t, a, b[..|b| - 1]);
    }
  }

  /** The state is what the history made of the initial data, and all of it was sent to the log. */
  ghost predicate IsHistory(env: Env, d: Data, s: Server, changes: seq<Change>)
    requires ModelOk(env.model)
  {
    && s.data == ApplyAll(env, d, changes) && s.sent == LoggedAll(env.text, changes)
    && AllLog(env.text, changes)
  }

  lemma HandledHistory(env: Env, d: Data, s: Server, changes: seq<Change>, cmd: Command,
                       items: seq<bytes>)
    requires ModelOk(env.model) && env.persist && IsHistory(env, d, s, changes)
    requires AllLog(env.text, Changes(cmd, items))
    ensures IsHistory(env, d, Handled(env, s, cmd, items), changes + Changes(cmd, items))
  {
    AfterAllIs(env, s, Changes(cmd, items));
    ApplyAllConcat(env, d, changes, Changes(cmd, items));
    LoggedAllConcat(env.text, changes, Changes(cmd, items));
  }

  lemma {:induction false} AfterAllIs(env: Env, s: Server, changes: seq<Change>)
    requires ModelOk(env.model)
    ensures AfterAll(env, s, changes).data == ApplyAll(env, s.data, changes)
    ensures env.persist ==> AfterAll(env, s, changes).sent == s.sent + LoggedAll(env.text, changes)
  {
    if changes != [] {
      AfterAllIs(env, s, changes[..|changes| - 1]);
    }
  }

  lemma StepHistory(env: Env, d: Data, s: Server, changes: seq<Change>, buf: bytes)
    returns (after: seq<Change>)
    requires ModelOk(env.model) && env.persist && IsHistory(env, d, s, changes)
    requires FloatsOk(env.text) && buf != [] && Step(env, s, buf).Done?
    ensures IsHistory(env, d, Step(env, s, buf).state, after)
  {
    after := changes;
    if buf[0] == '*' {
      var Parsed(cmd, len) := ParseCommand(env.text, buf);
      var items := ParseBulks(buf, len, Asked(cmd)).value;
      BulksShort(buf, len, Asked(cmd));
      CommandLogs(env.text, buf, items);
      HandledHistory(env, d, s, changes, cmd, items);
      after := changes + Changes(cmd, items);
    }
  }

  /** Every run from a server with an empty log is a history. */
  lemma RunIsHistory(env: Env, d: Data, buf: bytes) returns (changes: seq<Change>)
    requires ModelOk(env.model) && env.persist && FloatsOk(env.text)
    ensures IsHistory(env, d, Drain(StepOf(env), Server(d, []), buf).state, changes)
  {
    var inv := (s: Server) => exists cs :: IsHistory(env, d, s, cs);
    assert IsHistory(env, d, Server(d, []), []);
    forall s: Server, b: bytes {:trigger StepOf(env)(s, b)} | inv(s) && b != [] && StepOf(env)(s, b).Done?
      ensures inv(StepOf(env)(s, b).state)
    {
      var cs :| IsHistory(env, d, s, cs);
      var after := StepHistory(env, d, s, cs, b);
    }
    DrainKeeps(StepOf(env), inv, Server(d, []), buf);
    changes :| IsHistory(env, d, Drain(StepOf(env), Server(d, []), buf).state, changes);
  }

  /** The whole circle: whatever bytes a client sends and however they are cut, replaying the log the run
      sent off gives back the vector store exactly and, of the contents, all UTF-8 keys with every string
      as if SET; the live database holds the same contents. Everything is answered as before the restart if
      and only if every string is unharmed. */
  lemma RunIsReplayed(env: Env, again: Env, d: Data, cuts: seq<bytes>)
    returns (changes: seq<Change>, kv: Content)
    requires ModelOk(env.model) && env.persist && OrdersOk(env) && OrdersOk(again)
    requires VerbsOk(env.text) && FloatsOk(env.text)
    requires again.model == env.model && again.text == env.text && d.db == map[]
    ensures var live := Feed(StepOf(env), Server(d, []), [], cuts).state;
            var replayed := ApplyAll(again, d, Decoded(env.text, Printed(env.text, live.sent)));
            && IsHistory(env, d, live, changes)
            && replayed.vectors == live.data.vectors
            && (NeverFull(EMPTY_CONTENT, changes) ==>
                  && Represents(env.model, live.data.db, kv)
                  && Represents(env.model, replayed.db, Remembered(env.text, kv))
                  && (SameAnswers(env.model, env.text, live.data.db, replayed.db) <==>
                        forall k :: k in kv ==> Unharmed(env.model, env.text, k, kv[k])))
  {
    FragmentationIndependence(env, Server(d, []), cuts);
    changes := RunIsHistory(env, d, Concat(cuts));
    kv := NextAll(EMPTY_CONTENT, changes);
    LiveIsReplayed(env, again, d, changes);
    if NeverFull(EMPTY_CONTENT, changes) {
      var file := Printed(env.text, LoggedAll(env.text, changes));
      SameAnswersIff(env.model, env.text, ApplyAll(env, d, changes).db,
                     ApplyAll(again, d, Decoded(env.text, file)).db, kv);
    }
  }

  // ---------- Runs without MSET ----------

  /** Changes that every command but MSET makes. */
  ghost predicate Faithful(t: Text, c: Change) {
    && (c.Put? ==> c.cascade && t.utf8(c.key))
    && (c.Override? ==> t.utf8(c.key))
  }

  ghost predicate AllFaithful(t: Text, changes: seq<Change>) {
    forall c :: c in changes ==> Faithful(t, c)
  }

  /** Without MSET the log remembers everything. */
  lemma {:induction false} FaithfulHistory(t: Text, changes: seq<Change>)
    requires AllFaithful(t, changes)
    ensures Remembered(t, NextAll(EMPTY_CONTENT, changes)) == NextAll(EMPTY_CONTENT, changes)
  {
    if changes != [] {
      var front, c := changes[..|changes| - 1], changes[|changes| - 1];
      assert c in changes;
      FaithfulHistory(t, front);
      RememberedIff(t, NextAll(EMPTY_CONTENT, front));
      RememberedIff(t, NextAll(EMPTY_CONTENT, changes));
    }
  }

  /** Without MSET no command but VSEARCH notices a restart, hash fields perhaps coming in another order, and the
      store that VSEARCH looks into is the same. */
  lemma FaithfulRestart(env: Env, again: Env, d: Data, changes: seq<Change>)
    requires ModelOk(env.model) && OrdersOk(env) && OrdersOk(again) && VerbsOk(env.text)
    requires again.model == env.model && again.text == env.text && d.db == map[]
    requires AllLog(env.text, changes) && AllFaithful(env.text, changes)
    ensures var file := Printed(env.text, LoggedAll(env.text, changes));
            var live, replayed := ApplyAll(env, d, changes), ApplyAll(again, d, Decoded(env.text, file));
            && replayed.vectors == live.vectors
            && (NeverFull(EMPTY_CONTENT, changes) ==> Unnoticed(env, again, live, replayed))
  {
    var kv := NextAll(EMPTY_CONTENT, changes);
    var file := Printed(env.text, LoggedAll(env.text, changes));
    LiveIsReplayed(env, again, d, changes);
    FaithfulHistory(env.text, changes);
    if NeverFull(EMPTY_CONTENT, changes) {
      SameContents(env, again, ApplyAll(env, d, changes), ApplyAll(again, d, Decoded(env.text, file)), kv);
    }
  }

  /** None of the commands that the loop handles is an MSET. */
  ghost predicate NoMSet(env: Env, s: Server, buf: bytes)
    requires ModelOk(env.model)
    decreases |buf|
  {
    StepOf(env)(s, buf).Done? ==>
      var next := StepOf(env)(s, buf).next;
      && (buf[0] == '*' ==> !ParseCommand(env.text, buf).value.MSetHeader?)
      && (0 < next <= |buf| ==> NoMSet(env, StepOf(env)(s, buf).state, buf[next..]))
  }

  lemma BuildFaithful(t: Text, raw: Raw, items: seq<bytes>)
    requires ArityFor(t, raw.name, raw.argc) == Some(|raw.items|)
    requires Build(t, raw).Some? && !Build(t, raw).value.MSetHeader?
    ensures AllFaithful(t, Changes(Build(t, raw).value, items))
  {
    match Build(t, raw).value
    case Set(key, val) => assert Faithful(t, Put(key, val, true));
    case HmSet(key, fields) => assert Faithful(t, Override(key, fields));
    case _ =>
  }

  lemma CommandFaithful(t: Text, s: bytes, items: seq<bytes>)
    requires ParseCommand(t, s).Parsed? && !ParseCommand(t, s).value.MSetHeader?
    ensures AllFaithful(t, Changes(ParseCommand(t, s).value, items))
  {
    BuildFaithful(t, ParseRaw(ArityOf(t), ParseBulk, s).value, items);
  }

  lemma StepFaithful(env: Env, d: Data, s: Server, changes: seq<Change>, buf: bytes)
    returns (after: seq<Change>)
    requires ModelOk(env.model) && env.persist && IsHistory(env, d, s, changes) && AllFaithful(env.text, changes)
    requires FloatsOk(env.text) && buf != [] && Step(env, s, buf).Done? && NoMSet(env, s, buf)
    ensures IsHistory(env, d, Step(env, s, buf).state, after) && AllFaithful(env.text, after)
  {
    after := changes;
    if buf[0] == '*' {
      var Parsed(cmd, len) := ParseCommand(env.text, buf);
      var items := ParseBulks(buf, len, Asked(cmd)).value;
      BulksShort(buf, len, Asked(cmd));
      CommandLogs(env.text, buf, items);
      CommandFaithful(env.text, buf, items);
      HandledHistory(env, d, s, changes, cmd, items);
      after := changes + Changes(cmd, items);
    }
  }

  lemma {:induction false} FaithfulDrain(env: Env, d: Data, s: Server, before: seq<Change>, buf: bytes)
    returns (changes: seq<Change>)
    requires ModelOk(env.model) && env.persist && FloatsOk(env.text) && NoMSet(env, s, buf)
    requires IsHistory(env, d, s, before) && AllFaithful(env.text, before)
    ensures IsHistory(env, d, Drain(StepOf(env), s, buf).state, changes) && AllFaithful(env.text, changes)
    decreases |buf|
  {
    changes := before;
    if buf != [] && Step(env, s, buf).Done? {
      StepProgress(env);
      var Done(t, _, next) := StepOf(env)(s, buf);
      var after := StepFaithful(env, d, s, before, buf);
      changes := FaithfulDrain(env, d, t, after, buf[next..]);
    }
  }

  /** Whatever bytes without an MSET a client sends, however they are cut, no command notices a restart. */
  lemma FaithfulRun(env: Env, again: Env, d: Data, cuts: seq<bytes>)
    returns (changes: seq<Change>)
    requires ModelOk(env.model) && env.persist && OrdersOk(env) && OrdersOk(again)
    requires VerbsOk(env.text) && FloatsOk(env.text)
    requires again.model == env.model && again.text == env.text && d.db == map[]
    requires NoMSet(env, Server(d, []), Concat(cuts))
    ensures var live := Feed(StepOf(env), Server(d, []), [], cuts).state;
            var replayed := ApplyAll(again, d, Decoded(env.text, Printed(env.text, live.sent)));
            && IsHistory(env, d, live, changes) && replayed.vectors == live.data.vectors
            && (NeverFull(EMPTY_CONTENT, changes) ==> Unnoticed(env, again, live.data, replayed))
  {
    FragmentationIndependence(env, Server(d, []), cuts);
    changes := FaithfulDrain(env, d, Server(d, []), [], Concat(cuts));
    FaithfulRestart(env, again, d, changes);
  }

  // ---------- The vector store in a run ----------

  /** The adds and clears among a history's changes. */
  function Ops(dim: nat, changes: seq<Change>): seq<Op> {
    if changes == [] then []
    else
      var c, before := changes[|changes| - 1], Ops(dim, changes[..|changes| - 1]);
      if c.Insert? then before + [AddOp(c.key, Quantize(c.floats, dim), c.floats)]
      else if c.Reset? then before + [ClearOp]
      else before
  }

  lemma {:induction false} OpsFit(dim: nat, changes: seq<Change>)
    ensures Fitting(Ops(dim, changes), dim / 64)
  {
    if changes != [] {
      OpsFit(dim, changes[..|changes| - 1]);
    }
  }

  lemma RunNext(s: LiveStore, ops: seq<Op>, op: Op)
    requires Fitting(ops + [op], s.Words())
    ensures Fitting(ops, s.Words())
    ensures op.AddOp? ==> Run(s, ops + [op]) == Add(Run(s, ops), op.key, op.vector, op.floats)
    ensures op.ClearOp? ==> Run(s, ops + [op]) == Clear(Run(s, ops))
  {
  }

  lemma OneOp(s: LiveStore, before: LiveStore, ops: seq<Op>, op: Op, c: Change)
    requires Fitting(ops + [op], s.Words()) && Fitting(ops, s.Words()) && before == Run(s, ops)
    requires (c.Insert? && op == AddOp(c.key, Quantize(c.floats, s.dim), c.floats)) || (c.Reset? && op == ClearOp)
    ensures ChangeVectors(before, c) == Run(s, ops + [op])
  {
    RunNext(s, ops, op);
  }

  lemma {:induction false} StoreIsRun(s: LiveStore, changes: seq<Change>)
    ensures Fitting(Ops(s.dim, changes), s.Words())
    ensures VectorsAfter(s, changes) == Run(s, Ops(s.dim, changes))
  {
    OpsFit(s.dim, changes);
    if changes != [] {
      var front, c := changes[..|changes| - 1], changes[|changes| - 1];
      StoreIsRun(s, front);
      if c.Insert? || c.Reset? {
        var op := if c.Reset? then ClearOp else AddOp(c.key, Quantize(c.floats, s.dim), c.floats);
        OneOp(s, VectorsAfter(s, front), Ops(s.dim, front), op, c);
      }
    }
  }

  /** In every run of the server from an empty store the vector store is what the adds since the last clear
      of that run leave: it keeps the index invariant, has every entry where round-robin puts it and nothing
      else, and counts what it holds. */
  lemma ServerStoreOk(env: Env, d: Data, dim: nat, shards: nat, buf: bytes)
    returns (changes: seq<Change>)
    requires ModelOk(env.model) && env.persist && FloatsOk(env.text)
    requires dim % 64 == 0 && shards > 0 && d.vectors == New(dim, shards)
    ensures var live := Drain(StepOf(env), Server(d, []), buf).state;
            IsHistory(env, d, live, changes) && HistoryOk(live.data.vectors, SinceClear(Ops(dim, changes)))
  {
    changes := RunIsHistory(env, d, buf);
    ApplyAllVectors(env, d, changes);
    StoreIsRun(d.vectors, changes);
    OpsFit(dim, changes);
    EveryHistory(dim, shards, Ops(dim, changes));
  }
}
