/** The server's state and the command dispatcher: what every command does to the database, the vector
    store and the persistence channel, and what it answers. */
module Server {
  import opened Bytes
  import opened Resp
  import opened Commands
  import opened HashEngine
  import opened Codec
  import opened Quantizer
  import opened VectorStore
  import opened Streaming
  import Log

  type ExpertIndex = n: nat | n < 100

  /** `NeuralValue`; a single chunk holds at most 64 bytes. */
  datatype Value =
    | Single(bestIdx: ExpertIndex, data: Chunk, len: nat)
    | Multi(originalLen: nat, bestIdx: ExpertIndex, chunks: seq<Chunk>)
    | FlatHash(buf: bytes)

  type LiveStore = s: Store | StoreOk(s) witness New(0, 1)

  /** Everything a command can change except the channel; `merges` counts the HMSETs handled. */
  datatype Data = Data(db: map<bytes, Value>, vectors: LiveStore, merges: nat)

  /** The data and what was sent to the persistence channel so far. */
  datatype Server = Server(data: Data, sent: seq<Log.Entry>)

  /** What the server is built on. The n-th merge lists its map in the order `order(n)`; `search` is the
      vector search's answer, keys and printed scores; `persist` says whether there is a channel. */
  datatype Env = Env(
    text: Text,
    model: Model,
    order: nat -> Order,
    search: (Store, seq<F32>, nat) -> seq<(bytes, int)>,
    persist: bool)

  const OK: bytes := "+OK\r\n"
  const NULL: bytes := "$-1\r\n"
  const WRONG_TYPE: bytes := "-WRONGTYPE Operation " + "against a key holding " + "the wrong kind of value\r\n"
  const INFO_TEXT: bytes := "redis_version:3.0.0\r\n" + "omega_drive_version:3.0.0\r\n" + "role:master\r\n"

  // ---------- Changes ----------

  /** One change to the data. A value is put through the cascade codec (SET) or the raw one (MSET). */
  datatype Change =
    | Put(key: bytes, val: bytes, cascade: bool)
    | Remove(key: bytes)
    | Override(key: bytes, fields: seq<Field>)
    | Insert(key: bytes, floats: seq<F32>)
    | Reset

  function Stored(idx: ExpertIndex, chunks: seq<Chunk>, len: nat): Value {
    if |chunks| == 1 then Single(idx, chunks[0], len) else Multi(len, idx, chunks)
  }

  function Encode(m: Model, val: bytes, cascade: bool): Value
    requires ModelOk(m)
  {
    var (idx, chunks) := if cascade then ForwardCascade(m, val) else ForwardRaw(m, val);
    Stored(idx, chunks, |val|)
  }

  function Merged(order: Order, db: map<bytes, Value>, key: bytes, fields: seq<Field>): bytes {
    if key in db && db[key].FlatHash? then Merge(order, db[key].buf, fields) else Pack(fields)
  }

  function ChangeDb(m: Model, order: Order, db: map<bytes, Value>, c: Change): map<bytes, Value>
    requires ModelOk(m)
  {
    match c
    case Put(key, val, cascade) => db[key := Encode(m, val, cascade)]
    case Remove(key) => db - {key}
    case Override(key, fields) => db[key := FlatHash(Merged(order, db, key, fields))]
    case Insert(_, _) => db
    case Reset => map[]
  }

  function ChangeVectors(s: LiveStore, c: Change): LiveStore {
    match c
    case Insert(key, floats) => AddVector(s, key, floats)
    case Reset => ClearVectors(s)
    case _ => s
  }

  function Apply(env: Env, d: Data, c: Change): Data
    requires ModelOk(env.model)
  {
    Data(ChangeDb(env.model, env.order(d.merges), d.db, c), ChangeVectors(d.vectors, c),
         if c.Override? then d.merges + 1 else d.merges)
  }

  function AddVector(s: LiveStore, key: bytes, floats: seq<F32>): LiveStore {
    AddKeepsOk(s, key, Quantize(floats, s.dim), floats);
    Add(s, key, Quantize(floats, s.dim), floats)
  }

  function ClearVectors(s: LiveStore): LiveStore {
    ClearKeepsOk(s);
    Clear(s)
  }

  function ApplyAll(env: Env, d: Data, changes: seq<Change>): Data
    requires ModelOk(env.model)
  {
    if changes == [] then d
    else Apply(env, ApplyAll(env, d, changes[..|changes| - 1]), changes[|changes| - 1])
  }

  /** What is sent to the persistence channel for a change: nothing for a key that is not UTF-8, which
      only MSET lets through. */
  function Logged(t: Text, c: Change): seq<Log.Entry> {
    match c
    case Put(key, val, _) => if t.utf8(key) then [Log.Set(key, val)] else []
    case Remove(key) => [Log.Del(key)]
    case Override(key, fields) => [Log.HmSet(key, fields)]
    case Insert(key, floats) => [Log.VAdd(key, floats)]
    case Reset => [Log.FlushDb]
  }

  function LoggedAll(t: Text, changes: seq<Change>): seq<Log.Entry> {
    if changes == [] then []
    else LoggedAll(t, changes[..|changes| - 1]) + Logged(t, changes[|changes| - 1])
  }

  // ---------- Commands ----------

  /** How many bulk strings the dispatcher itself reads from the rest of the buffer. */
  function Asked(cmd: Command): nat {
    match cmd
    case MSetHeader(n) => 2 * (n / 2)
    case MGetHeader(n) => n
    case _ => 0
  }

  function Puts(items: seq<bytes>): seq<Change> {
    if |items| < 2 then []
    else Puts(items[..|items| - 2]) + [Put(items[|items| - 2], items[|items| - 1], false)]
  }

  function Changes(cmd: Command, items: seq<bytes>): seq<Change> {
    match cmd
    case Set(key, val) => [Put(key, val, true)]
    case Del(key) => [Remove(key)]
    case FlushDb => [Reset]
    case MSetHeader(_) => Puts(items)
    case HmSet(key, fields) => [Override(key, fields)]
    case VAdd(key, floats) => [Insert(key, floats)]
    case _ => []
  }

  /** A bulk string whose size line announces the stored length. */
  function Sized(len: nat, data: bytes): bytes {
    Size('$', len) + data + CRLF
  }

  function GetReply(m: Model, db: map<bytes, Value>, key: bytes): bytes
    requires ModelOk(m)
  {
    if key !in db then NULL
    else
      match db[key]
      case Single(idx, data, len) => Sized(len, ReconstructCascade(m, idx, [data], len))
      case Multi(len, idx, chunks) => Sized(len, ReconstructCascade(m, idx, chunks, len))
      case FlatHash(_) => WRONG_TYPE
  }

  /** One element of an MGET answer: missing keys, hashes and empty values are all null. */
  function MGetReply(m: Model, db: map<bytes, Value>, key: bytes): bytes
    requires ModelOk(m)
  {
    if key !in db then NULL
    else
      match db[key]
      case Single(idx, data, len) => if len > 0 then Sized(len, ReconstructRaw(m, idx, [data], len)) else NULL
      case Multi(len, idx, chunks) => if len > 0 then Sized(len, ReconstructRaw(m, idx, chunks, len)) else NULL
      case FlatHash(_) => NULL
  }

  function MGetReplies(m: Model, db: map<bytes, Value>, keys: seq<bytes>): bytes
    requires ModelOk(m)
  {
    if keys == [] then []
    else MGetReplies(m, db, keys[..|keys| - 1]) + MGetReply(m, db, keys[|keys| - 1])
  }

  function HashAnswer(db: map<bytes, Value>, key: bytes): bytes {
    if key !in db then "*0\r\n" else if db[key].FlatHash? then HashReply(db[key].buf) else WRONG_TYPE
  }

  function SearchResults(results: seq<(bytes, int)>): bytes {
    if results == [] then []
    else SearchResults(results[..|results| - 1]) + SearchResult(results[|results| - 1])
  }

  function SearchResult(result: (bytes, int)): bytes {
    Bulk(result.0) + IntReply(result.1)
  }

  function SearchAnswer(results: seq<(bytes, int)>): bytes {
    Size('*', 2 * |results|) + SearchResults(results)
  }

  function Reply(env: Env, d: Data, cmd: Command, items: seq<bytes>): bytes
    requires ModelOk(env.model)
  {
    match cmd
    case Ping => "+PONG\r\n"
    case Set(_, _) => OK
    case Get(key) => GetReply(env.model, d.db, key)
    case Del(key) => IntReply(if key in d.db then 1 else 0)
    case Exists(key) => IntReply(if key in d.db then 1 else 0)
    case MSetHeader(_) => OK
    case MGetHeader(n) => Size('*', n) + MGetReplies(env.model, d.db, items)
    case Select(_) => OK
    case Save => "-ERR unhandled\r\n"
    case BgSave => "-ERR unhandled\r\n"
    case FlushDb => OK
    case Info => Bulk(INFO_TEXT)
    case HmSet(_, _) => OK
    case HGetAll(key) => HashAnswer(d.db, key)
    case ZAdd(_) => ":1\r\n"
    case VAdd(_, _) => OK
    case VSearch(k, floats) => SearchAnswer(env.search(d.vectors, floats, k))
    case Unknown(_) => "*0\r\n"
  }

  /** A search for zero neighbours peeks into an empty heap as soon as anything is stored. */
  predicate Panics(d: Data, cmd: Command) {
    cmd.VSearch? && cmd.k == 0 && TotalVectors(d.vectors.shards) > 0
  }

  // ---------- One pass of the loop ----------

  /** A change to the data and then its message to the persistence channel, if there is one. */
  function After(env: Env, s: Server, c: Change): Server
    requires ModelOk(env.model)
  {
    Server(Apply(env, s.data, c), if env.persist then s.sent + Logged(env.text, c) else s.sent)
  }

  function AfterAll(env: Env, s: Server, changes: seq<Change>): Server
    requires ModelOk(env.model)
  {
    if changes == [] then s
    else After(env, AfterAll(env, s, changes[..|changes| - 1]), changes[|changes| - 1])
  }

  function Handled(env: Env, s: Server, cmd: Command, items: seq<bytes>): Server
    requires ModelOk(env.model)
  {
    AfterAll(env, s, Changes(cmd, items))
  }

  /** A parsed command that ends at pos of the buffer. */
  function Dispatch(env: Env, s: Server, cmd: Command, buf: bytes, pos: nat): Outcome<Server>
    requires ModelOk(env.model) && pos <= |buf|
  {
    match ParseBulks(buf, pos, Asked(cmd))
    case NoParse => Wait
    case Parsed(items, len) =>
      if Panics(s.data, cmd) then Crash
      else Done(Handled(env, s, cmd, items), Reply(env, s.data, cmd, items), pos + len)
  }

  /** The first line feed at or after i, or the end of the buffer. */
  function LineEnd(buf: bytes, i: nat): (r: nat)
    requires i <= |buf|
    ensures i <= r <= |buf| && (r < |buf| ==> buf[r] == '\n')
    decreases |buf| - i
  {
    if i == |buf| || buf[i] == '\n' then i else LineEnd(buf, i + 1)
  }

  function Step(env: Env, s: Server, buf: bytes): Outcome<Server>
    requires ModelOk(env.model) && buf != []
  {
    if buf[0] == '*' then
      match ParseCommand(env.text, buf)
      case NoParse => Wait
      case Parsed(cmd, len) => Dispatch(env, s, cmd, buf, len)
    else if LineEnd(buf, 0) == |buf| then Wait
    else Done(s, [], LineEnd(buf, 0) + 1)
  }

  function StepOf(env: Env): Stepper<Server>
    requires ModelOk(env.model)
  {
    (s, buf) => if buf == [] then Wait else Step(env, s, buf)
  }

  // ---------- Independence from fragmentation ----------

  lemma StepProgress(env: Env)
    requires ModelOk(env.model)
    ensures Progress(StepOf(env))
  {
  }

  lemma {:induction false} LineEndStable(buf: bytes, more: bytes, i: nat)
    requires i <= |buf| && LineEnd(buf, i) < |buf|
    ensures LineEnd(buf + more, i) == LineEnd(buf, i)
    decreases |buf| - i
  {
    if buf[i] != '\n' {
      LineEndStable(buf, more, i + 1);
    }
  }

  lemma DispatchStable(env: Env, s: Server, cmd: Command, buf: bytes, pos: nat, more: bytes)
    requires ModelOk(env.model) && pos <= |buf| && !Dispatch(env, s, cmd, buf, pos).Wait?
    ensures Dispatch(env, s, cmd, buf + more, pos) == Dispatch(env, s, cmd, buf, pos)
  {
    BulksStable(buf, pos, Asked(cmd), more);
  }

  lemma StepStable(env: Env, s: Server, buf: bytes, more: bytes)
    requires ModelOk(env.model) && buf != [] && !Step(env, s, buf).Wait?
    ensures Step(env, s, buf + more) == Step(env, s, buf)
  {
    assert (buf + more)[0] == buf[0];
    if buf[0] == '*' {
      CommandStable(env.text, buf, more);
      var Parsed(cmd, len) := ParseCommand(env.text, buf);
      DispatchStable(env, s, cmd, buf, len, more);
    } else {
      LineEndStable(buf, more, 0);
    }
  }

  lemma StepsAreStable(env: Env)
    requires ModelOk(env.model)
    ensures Stable(StepOf(env))
  {
    forall t: Server, a: bytes, b: bytes {:trigger StepOf(env)(t, a + b)} | a != [] && !StepOf(env)(t, a).Wait?
      ensures StepOf(env)(t, a + b) == StepOf(env)(t, a)
    {
      StepStable(env, t, a, b);
    }
  }

  /** However a client's bytes are cut into reads, the server ends in the same state with the same
      replies, the same bytes left unread, and crashes or not alike. */
  lemma FragmentationIndependence(env: Env, s: Server, cuts: seq<bytes>)
    requires ModelOk(env.model)
    ensures Feed(StepOf(env), s, [], cuts) == Drain(StepOf(env), s, Concat(cuts))
  {
    StepProgress(env);
    StepsAreStable(env);
    Fragmentation(StepOf(env), s, cuts);
  }
}
