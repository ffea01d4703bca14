/** What the database means: a map from keys to plain values and plain hashes, and every command as an
    operation on that map. */
module KeyValue {
  import opened Bytes
  import opened Resp
  import opened Commands
  import opened HashEngine
  import opened Codec
  import opened VectorStore
  import opened Server
  import Log

  /** A string with the codec it was stored through, or a hash. */
  datatype Plain = Str(text: bytes, cascade: bool) | Hash(entries: map<bytes, bytes>)

  type Content = map<bytes, Plain>

  /** A stored value stands for a plain one. */
  ghost predicate Means(m: Model, v: Value, p: Plain)
    requires ModelOk(m)
  {
    match p
    case Str(text, cascade) => v == Encode(m, text, cascade)
    case Hash(entries) => v.FlatHash? && Holds(v.buf, entries)
  }

  ghost predicate Represents(m: Model, db: map<bytes, Value>, kv: Content)
    requires ModelOk(m)
  {
    db.Keys == kv.Keys && forall k :: k in kv ==> Means(m, db[k], kv[k])
  }

  /** The simple map operation behind each change. */
  function Next(kv: Content, c: Change): Content {
    match c
    case Put(key, val, cascade) => kv[key := Str(val, cascade)]
    case Remove(key) => kv - {key}
    case Override(key, fields) => kv[key := Hash(EntriesOf(kv, key) + AsMap(fields))]
    case Insert(_, _) => kv
    case Reset => map[]
  }

  /** What HMSET finds: a key that is missing or holds a string starts from nothing. */
  function EntriesOf(kv: Content, key: bytes): map<bytes, bytes> {
    if key in kv && kv[key].Hash? then kv[key].entries else map[]
  }

  function NextAll(kv: Content, changes: seq<Change>): Content {
    if changes == [] then kv else Next(NextAll(kv, changes[..|changes| - 1]), changes[|changes| - 1])
  }

  // ---------- Sizes ----------

  /** Field counts and lengths that the packed buffers' u32 can hold. */
  ghost predicate ChangeOk(c: Change) {
    c.Override? ==> FieldsOk(c.fields)
  }

  ghost predicate ChangesOk(changes: seq<Change>) {
    forall c :: c in changes ==> ChangeOk(c)
  }

  /** No hash holds 2^32 fields or more. */
  ghost predicate Countable(kv: Content) {
    forall k :: k in kv && kv[k].Hash? ==> |kv[k].entries| < U32
  }

  /** No hash ever does, after any prefix of the history. */
  ghost predicate NeverFull(kv: Content, changes: seq<Change>) {
    Countable(NextAll(kv, changes)) && (changes != [] ==> NeverFull(kv, changes[..|changes| - 1]))
  }

  /** A buffer only stands for maps that u32 sizes can describe. */
  lemma HeldIsOk(buf: bytes, entries: map<bytes, bytes>)
    requires Holds(buf, entries)
    ensures MapOk(entries)
  {
    var fields :| HoldsAs(buf, entries, fields);
    AsMapOk(fields);
  }

  lemma OverrideOk(entries: map<bytes, bytes>, fields: seq<Field>)
    requires MapOk(entries) && FieldsOk(fields) && |entries + AsMap(fields)| < U32
    ensures MapOk(entries + AsMap(fields))
  {
    AsMapOk(fields);
  }

  // ---------- The database implements the map ----------

  lemma HashesAreHashes(m: Model, db: map<bytes, Value>, kv: Content, key: bytes)
    requires ModelOk(m) && Represents(m, db, kv) && key in kv
    ensures key in db && (db[key].FlatHash? <==> kv[key].Hash?)
    ensures kv[key].Hash? ==> Holds(db[key].buf, kv[key].entries)
  {
    assert Means(m, db[key], kv[key]);
  }

  /** Merging fields into a buffer that stands for a map. */
  lemma HeldMerged(order: Order, buf: bytes, entries: map<bytes, bytes>, fields: seq<Field>, after: map<bytes, bytes>)
    requires OrderOk(order) && Holds(buf, entries) && after == entries + AsMap(fields) && MapOk(after)
    ensures Holds(Merge(order, buf, fields), after)
  {
    MergeHolds(order, buf, entries, fields);
  }

  lemma OverrideHolds(m: Model, order: Order, db: map<bytes, Value>, kv: Content, key: bytes,
                      fields: seq<Field>, after: map<bytes, bytes>)
    requires ModelOk(m) && Represents(m, db, kv) && OrderOk(order)
    requires FieldsOk(fields) && after == EntriesOf(kv, key) + AsMap(fields) && MapOk(after)
    ensures Holds(Merged(order, db, key, fields), after)
  {
    if key in kv {
      HashesAreHashes(m, db, kv, key);
    }
    if key in kv && kv[key].Hash? {
      HeldMerged(order, db[key].buf, kv[key].entries, fields, after);
    } else {
      assert after == AsMap(fields);
      PackHolds(fields);
    }
  }

  lemma UpdateMeans(m: Model, db: map<bytes, Value>, kv: Content, key: bytes, v: Value, p: Plain)
    requires ModelOk(m) && Represents(m, db, kv) && Means(m, v, p)
    ensures Represents(m, db[key := v], kv[key := p])
  {
  }

  lemma OverrideMeans(m: Model, order: Order, db: map<bytes, Value>, kv: Content, key: bytes,
                      fields: seq<Field>, after: map<bytes, bytes>)
    requires ModelOk(m) && Represents(m, db, kv) && OrderOk(order)
    requires FieldsOk(fields) && after == EntriesOf(kv, key) + AsMap(fields) && MapOk(after)
    ensures Represents(m, db[key := FlatHash(Merged(order, db, key, fields))], kv[key := Hash(after)])
  {
    OverrideHolds(m, order, db, kv, key, fields, after);
    UpdateMeans(m, db, kv, key, FlatHash(Merged(order, db, key, fields)), Hash(after));
  }

  lemma OverrideFits(m: Model, db: map<bytes, Value>, kv: Content, c: Change)
    requires ModelOk(m) && Represents(m, db, kv) && ChangeOk(c) && c.Override? && Countable(Next(kv, c))
    ensures MapOk(EntriesOf(kv, c.key) + AsMap(c.fields))
  {
    if c.key in kv && kv[c.key].Hash? {
      HashesAreHashes(m, db, kv, c.key);
      HeldIsOk(db[c.key].buf, kv[c.key].entries);
    }
    assert Next(kv, c)[c.key].entries == EntriesOf(kv, c.key) + AsMap(c.fields);
    OverrideOk(EntriesOf(kv, c.key), c.fields);
  }

  lemma ChangeMeans(m: Model, order: Order, db: map<bytes, Value>, kv: Content, c: Change)
    requires ModelOk(m) && Represents(m, db, kv) && OrderOk(order) && ChangeOk(c) && Countable(Next(kv, c))
    ensures Represents(m, ChangeDb(m, order, db, c), Next(kv, c))
  {
    match c
    case Put(key, val, cascade) =>
      UpdateMeans(m, db, kv, key, Encode(m, val, cascade), Str(val, cascade));
    case Override(key, fields) =>
      OverrideFits(m, db, kv, c);
      OverrideMeans(m, order, db, kv, key, fields, EntriesOf(kv, key) + AsMap(fields));
    case Remove(key) =>
    case Insert(_, _) =>
    case Reset =>
  }

  ghost predicate OrdersOk(env: Env) {
    forall n: nat :: OrderOk(env.order(n))
  }

  const EMPTY_CONTENT: Content := map[]

  /** After every history of changes in which no hash ever holds 2^32 fields, the database stands for the map
      that the simple operations build. */
  lemma {:induction false} HistoryMeans(env: Env, d: Data, kv: Content, changes: seq<Change>)
    requires ModelOk(env.model) && OrdersOk(env) && Represents(env.model, d.db, kv)
    requires ChangesOk(changes) && NeverFull(kv, changes)
    ensures Represents(env.model, ApplyAll(env, d, changes).db, NextAll(kv, changes))
  {
    if changes != [] {
      var front, c := changes[..|changes| - 1], changes[|changes| - 1];
      assert c in changes;
      HistoryMeans(env, d, kv, front);
      var before := ApplyAll(env, d, front);
      ChangeMeans(env.model, env.order(before.merges), before.db, NextAll(kv, front), c);
    }
  }

  /** The bound is exact: a packed hash counts its fields in 32 bits, so the database stands for the map after
      every prefix of a history if and only if no hash ever holds more. */
  lemma PrefixesMeanIff(env: Env, d: Data, kv: Content, changes: seq<Change>)
    requires ModelOk(env.model) && OrdersOk(env) && Represents(env.model, d.db, kv) && ChangesOk(changes)
    ensures (forall n :: 0 <= n <= |changes| ==>
               Represents(env.model, ApplyAll(env, d, changes[..n]).db, NextAll(kv, changes[..n])))
       <==> NeverFull(kv, changes)
  {
    if NeverFull(kv, changes) {
      forall n | 0 <= n <= |changes|
        ensures Represents(env.model, ApplyAll(env, d, changes[..n]).db, NextAll(kv, changes[..n]))
      {
        NeverFullPrefix(kv, changes, n);
        HistoryMeans(env, d, kv, changes[..n]);
      }
    } else {
      var n := FirstFull(kv, changes);
      if Represents(env.model, ApplyAll(env, d, changes[..n]).db, NextAll(kv, changes[..n])) {
        MeansIsCountable(env.model, ApplyAll(env, d, changes[..n]).db, NextAll(kv, changes[..n]));
      }
    }
  }

  lemma {:induction false} NeverFullPrefix(kv: Content, changes: seq<Change>, n: nat)
    requires NeverFull(kv, changes) && n <= |changes|
    ensures NeverFull(kv, changes[..n])
  {
    if n == |changes| {
      assert changes[..n] == changes;
    } else {
      assert changes[..|changes| - 1][..n] == changes[..n];
      NeverFullPrefix(kv, changes[..|changes| - 1], n);
    }
  }

  lemma {:induction false} FirstFull(kv: Content, changes: seq<Change>) returns (n: nat)
    requires !NeverFull(kv, changes)
    ensures n <= |changes| && !Countable(NextAll(kv, changes[..n]))
  {
    if Countable(NextAll(kv, changes)) {
      var front := changes[..|changes| - 1];
      n := FirstFull(kv, front);
      assert front[..n] == changes[..n];
    } else {
      n := |changes|;
      assert changes[..n] == changes;
    }
  }

  lemma MeansIsCountable(m: Model, db: map<bytes, Value>, kv: Content)
    requires ModelOk(m) && Represents(m, db, kv)
    ensures Countable(kv)
  {
    forall k | k in kv && kv[k].Hash?
      ensures |kv[k].entries| < U32
    {
      HashesAreHashes(m, db, kv, k);
      HeldIsOk(db[k].buf, kv[k].entries);
    }
  }

  /** A value of at most 64 bytes is stored inline, a longer one as its chunks, with its length. */
  lemma StoredInline(m: Model, val: bytes, cascade: bool)
    requires ModelOk(m)
    ensures |val| <= 64 ==> Encode(m, val, cascade).Single? && Encode(m, val, cascade).len == |val|
    ensures |val| > 64 ==>
              && Encode(m, val, cascade).Multi? && Encode(m, val, cascade).originalLen == |val|
              && |Encode(m, val, cascade).chunks| == (|val| + 63) / 64
  {
    Chosen(m, val);
  }

  // ---------- Replies in terms of the map ----------

  /** A string read through the other codec than it was stored with: the text under the keystream. */
  function Crossed(m: Model, text: bytes): bytes
    requires ModelOk(m)
  {
    ApplyKeystream(m, ExpertKey(m, text), text)
  }

  function Read(m: Model, p: Plain, cascade: bool): bytes
    requires ModelOk(m) && p.Str?
  {
    if p.cascade == cascade then p.text else Crossed(m, p.text)
  }

  function PlainGet(m: Model, kv: Content, key: bytes): bytes
    requires ModelOk(m)
  {
    if key !in kv then NULL else if kv[key].Hash? then WRONG_TYPE else Bulk(Read(m, kv[key], true))
  }

  function PlainMGet(m: Model, kv: Content, key: bytes): bytes
    requires ModelOk(m)
  {
    if key !in kv || kv[key].Hash? || kv[key].text == [] then NULL else Bulk(Read(m, kv[key], false))
  }

  lemma EncodeReads(m: Model, text: bytes, cascade: bool)
    requires ModelOk(m)
    ensures var (idx, chunks) := if cascade then ForwardCascade(m, text) else ForwardRaw(m, text);
            && ReconstructCascade(m, idx, chunks, |text|) == Read(m, Str(text, cascade), true)
            && ReconstructRaw(m, idx, chunks, |text|) == Read(m, Str(text, cascade), false)
  {
    RawRoundTrip(m, text);
    CascadeRoundTrip(m, text);
    CrossedReads(m, text);
  }

  /** A stored string reads back through either codec. */
  ghost predicate ReadsAs(m: Model, v: Value, p: Plain)
    requires ModelOk(m) && p.Str?
  {
    match v
    case Single(idx, data, len) =>
      && len == |p.text| && ReconstructCascade(m, idx, [data], len) == Read(m, p, true)
      && ReconstructRaw(m, idx, [data], len) == Read(m, p, false)
    case Multi(len, idx, chunks) =>
      && len == |p.text| && ReconstructCascade(m, idx, chunks, len) == Read(m, p, true)
      && ReconstructRaw(m, idx, chunks, len) == Read(m, p, false)
    case FlatHash(_) => false
  }

  /** It does, however many chunks it takes. */
  lemma StoredReads(m: Model, v: Value, p: Plain)
    requires ModelOk(m) && p.Str? && Means(m, v, p)
    ensures ReadsAs(m, v, p)
  {
    EncodeReads(m, p.text, p.cascade);
    var (idx, chunks) := if p.cascade then ForwardCascade(m, p.text) else ForwardRaw(m, p.text);
    if |chunks| == 1 {
      assert [chunks[0]] == chunks;
    }
  }

  /** The value under a key is what the contents say. */
  lemma KeyReads(m: Model, db: map<bytes, Value>, kv: Content, key: bytes)
    requires ModelOk(m) && Represents(m, db, kv)
    ensures key in db <==> key in kv
    ensures key in kv ==> (db[key].FlatHash? <==> kv[key].Hash?)
    ensures key in kv && kv[key].Str? ==> ReadsAs(m, db[key], kv[key])
  {
    if key in kv {
      assert Means(m, db[key], kv[key]);
      if kv[key].Str? {
        StoredReads(m, db[key], kv[key]);
      }
    }
  }

  /** GET: the value SET stored; a value MSET stored comes back under the keystream. */
  lemma GetMeans(m: Model, db: map<bytes, Value>, kv: Content, key: bytes)
    requires ModelOk(m) && Represents(m, db, kv)
    ensures GetReply(m, db, key) == PlainGet(m, kv, key)
  {
    KeyReads(m, db, kv, key);
  }

  lemma MGetMeans(m: Model, db: map<bytes, Value>, kv: Content, key: bytes)
    requires ModelOk(m) && Represents(m, db, kv)
    ensures MGetReply(m, db, key) == PlainMGet(m, kv, key)
  {
    KeyReads(m, db, kv, key);
  }

  /** HGETALL: the size and the fields, in some order, of a list that stands for the hash. */
  lemma HashMeans(m: Model, db: map<bytes, Value>, kv: Content, key: bytes)
    returns (fields: seq<Field>)
    requires ModelOk(m) && Represents(m, db, kv) && key in kv && kv[key].Hash?
    ensures FieldsOk(fields) && AsMap(fields) == kv[key].entries
    ensures HashAnswer(db, key) == Size('*', 2 * |fields|) + BulkAll(Flattened(fields))
  {
    assert Means(m, db[key], kv[key]);
    fields :| HoldsAs(db[key].buf, kv[key].entries, fields);
    PackRoundTrip(fields);
  }

  function PlainMGets(m: Model, kv: Content, keys: seq<bytes>): bytes
    requires ModelOk(m)
  {
    if keys == [] then [] else PlainMGets(m, kv, keys[..|keys| - 1]) + PlainMGet(m, kv, keys[|keys| - 1])
  }

  lemma {:induction false} MGetsMean(m: Model, db: map<bytes, Value>, kv: Content, keys: seq<bytes>)
    requires ModelOk(m) && Represents(m, db, kv)
    ensures MGetReplies(m, db, keys) == PlainMGets(m, kv, keys)
  {
    if keys != [] {
      MGetsMean(m, db, kv, keys[..|keys| - 1]);
      MGetMeans(m, db, kv, keys[|keys| - 1]);
    }
  }

  /** A hash written out: its size and its fields, in some order and perhaps with overwritten duplicates. */
  ghost predicate ListsHash(reply: bytes, entries: map<bytes, bytes>) {
    exists fields :: FieldsOk(fields) && AsMap(fields) == entries && Lists(reply, fields)
  }

  ghost predicate Lists(reply: bytes, fields: seq<Field>) {
    reply == Size('*', 2 * |fields|) + BulkAll(Flattened(fields))
  }

  /** Replies that a client cannot tell apart: equal, or the same hash with its fields in another order. */
  ghost predicate Alike(a: bytes, b: bytes) {
    a == b || exists entries :: ListsHash(a, entries) && ListsHash(b, entries)
  }

  /** The answer to a command in terms of the plain contents alone. */
  ghost predicate Answers(m: Model, kv: Content, cmd: Command, items: seq<bytes>, reply: bytes)
    requires ModelOk(m)
  {
    match cmd
    case Get(key) => reply == PlainGet(m, kv, key)
    case Del(key) => reply == IntReply(if key in kv then 1 else 0)
    case Exists(key) => reply == IntReply(if key in kv then 1 else 0)
    case MGetHeader(n) => reply == Size('*', n) + PlainMGets(m, kv, items)
    case HGetAll(key) =>
      if key !in kv then reply == "*0\r\n"
      else if kv[key].Hash? then ListsHash(reply, kv[key].entries)
      else reply == WRONG_TYPE
    case Set(_, _) => reply == OK
    case MSetHeader(_) => reply == OK
    case HmSet(_, _) => reply == OK
    case FlushDb => reply == OK
    case _ => true
  }

  lemma HashAnswerMeans(m: Model, db: map<bytes, Value>, kv: Content, key: bytes)
    requires ModelOk(m) && Represents(m, db, kv)
    ensures key in kv && kv[key].Hash? ==> ListsHash(HashAnswer(db, key), kv[key].entries)
    ensures key in kv && kv[key].Str? ==> HashAnswer(db, key) == WRONG_TYPE
    ensures key !in kv ==> HashAnswer(db, key) == "*0\r\n"
  {
    KeyReads(m, db, kv, key);
    if key in kv && kv[key].Hash? {
      var fields := HashMeans(m, db, kv, key);
      assert Lists(HashAnswer(db, key), fields);
    }
  }

  /** Every key-value command answers as the plain map says. */
  lemma ReplyMeans(env: Env, d: Data, kv: Content, cmd: Command, items: seq<bytes>)
    requires ModelOk(env.model) && Represents(env.model, d.db, kv)
    ensures Answers(env.model, kv, cmd, items, Reply(env, d, cmd, items))
  {
    match cmd
    case Get(key) => GetMeans(env.model, d.db, kv, key);
    case MGetHeader(_) => MGetsMean(env.model, d.db, kv, items);
    case HGetAll(key) => HashAnswerMeans(env.model, d.db, kv, key);
    case _ =>
  }

  /** No command tells two databases apart that stand for the same contents. */
  ghost predicate Unnoticed(env: Env, again: Env, a: Data, b: Data)
    requires ModelOk(env.model) && ModelOk(again.model)
  {
    forall cmd: Command, items: seq<bytes> :: !cmd.VSearch? ==>
      Alike(Reply(env, a, cmd, items), Reply(again, b, cmd, items))
  }

  lemma SameContents(env: Env, again: Env, a: Data, b: Data, kv: Content)
    requires ModelOk(env.model) && again.model == env.model
    requires Represents(env.model, a.db, kv) && Represents(env.model, b.db, kv)
    ensures Unnoticed(env, again, a, b)
  {
    forall cmd: Command, items: seq<bytes> | !cmd.VSearch?
      ensures Alike(Reply(env, a, cmd, items), Reply(again, b, cmd, items))
    {
      ReplyMeans(env, a, kv, cmd, items);
      ReplyMeans(again, b, kv, cmd, items);
    }
  }
}
