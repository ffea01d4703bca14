/** What a client sees on the wire: requests are handled whole, and a value written comes back. */
module Session {
  import opened Bytes
  import opened Resp
  import opened Commands
  import opened HashEngine
  import opened Codec
  import opened Streaming
  import opened Server
  import opened KeyValue
  import Log

  lemma PrefixOccurs(a: bytes, b: bytes)
    ensures Occurs(a, a + b, 0) && (a + b)[|a|..] == b
  {
    assert (a + b)[0..|a|] == a;
  }

  lemma RequestIsTagged(args: seq<bytes>, rest: bytes)
    ensures Request(args) + rest != [] && (Request(args) + rest)[0] == '*'
  {
  }

  lemma StepParsed(env: Env, s: Server, buf: bytes, cmd: Command, len: nat)
    requires ModelOk(env.model) && buf != [] && buf[0] == '*' && ParseCommand(env.text, buf) == Parsed(cmd, len)
    ensures Step(env, s, buf) == Dispatch(env, s, cmd, buf, len)
  {
  }

  lemma DispatchRead(env: Env, s: Server, cmd: Command, buf: bytes, pos: nat,
                     items: seq<bytes>, len: nat)
    requires ModelOk(env.model) && pos <= |buf|
    requires ParseBulks(buf, pos, Asked(cmd)) == Parsed(items, len)
    ensures Dispatch(env, s, cmd, buf, pos)
         == if Panics(s.data, cmd) then Crash
            else Done(Handled(env, s, cmd, items), Reply(env, s.data, cmd, items), pos + len)
  {
  }

  /** What the parser makes of a request with more bytes behind it. */
  lemma RequestParsed(t: Text, args: seq<bytes>, rest: bytes, cmd: Command, used: nat)
    requires args != [] && Fits(args) && Decode(t, args) == Some((cmd, used))
    ensures ParseCommand(t, Request(args) + rest) == Parsed(cmd, |RequestPrefix(args, used)|)
    ensures Request(args) + rest != [] && (Request(args) + rest)[0] == '*'
  {
    RequestIsTagged(args, rest);
    PrefixOccurs(Request(args), rest);
    ParseRequest(t, args, Request(args) + rest);
  }

  lemma BulksBehind(items: seq<bytes>, head: bytes, later: bytes, rest: bytes)
    requires later == BulkAll(items) && forall x :: x in items ==> |x| < U32
    ensures ParseBulks(head + later + rest, |head|, |items|) == Parsed(items, |later|)
  {
    PrefixOccurs(head + later, rest);
    OccursSplit(head, later, head + later + rest, 0);
    BulksRoundTrip(items, head + later + rest, |head|);
  }

  lemma Assoc(a: bytes, b: bytes, c: bytes)
    ensures a + b + c == a + (b + c)
  {
  }

  lemma Joined(size: bytes, front: seq<bytes>, back: seq<bytes>)
    ensures size + BulkAll(front + back) == size + BulkAll(front) + BulkAll(back)
  {
    PrintManyConcat(Bulk, front, back);
    Assoc(size, BulkAll(front), BulkAll(back));
  }

  /** A request up to its a-th argument, the arguments from there to the b-th, and the others. */
  lemma RequestCut(args: seq<bytes>, a: nat, b: nat) returns (head: bytes, items: seq<bytes>, others: seq<bytes>)
    requires a <= b <= |args|
    ensures head == RequestPrefix(args, a) && items == args[a..b] && others == args[b..]
    ensures RequestPrefix(args, b) == head + BulkAll(items)
    ensures Request(args) == head + BulkAll(items) + BulkAll(others)
  {
    head, items, others := RequestPrefix(args, a), args[a..b], args[b..];
    assert args[..b] == args[..a] + items && args == args[..b] + others;
    Joined(Size('*', |args|), args[..a], items);
    Joined(Size('*', |args|), args[..b], others);
  }

  /** The dispatcher reads the arguments that follow those the parser took. */
  lemma ArgsFollow(args: seq<bytes>, a: nat, b: nat, rest: bytes)
    returns (items: seq<bytes>, from: nat, len: nat, to: nat)
    requires a <= b <= |args| && Fits(args)
    ensures items == args[a..b] && from == |RequestPrefix(args, a)| && to == |RequestPrefix(args, b)|
    ensures from + len == to <= |Request(args)|
    ensures ParseBulks(Request(args) + rest, from, b - a) == Parsed(items, len)
  {
    var head, others;
    head, items, others := RequestCut(args, a, b);
    var later, behind := BulkAll(items), BulkAll(others);
    from, len, to := |head|, |later|, |head| + |later|;
    assert Request(args) + rest == head + later + behind + rest;
    Assoc(head + later, behind, rest);
    BulksBehind(items, head, later, behind + rest);
  }

  lemma StepFromParts(env: Env, s: Server, buf: bytes, cmd: Command, head: nat, items: seq<bytes>, len: nat)
    requires ModelOk(env.model) && buf != [] && buf[0] == '*' && ParseCommand(env.text, buf) == Parsed(cmd, head)
    requires head <= |buf| && ParseBulks(buf, head, Asked(cmd)) == Parsed(items, len)
    ensures Step(env, s, buf)
         == if Panics(s.data, cmd) then Crash
            else Done(Handled(env, s, cmd, items), Reply(env, s.data, cmd, items), head + len)
  {
    StepParsed(env, s, buf, cmd, head);
    DispatchRead(env, s, cmd, buf, head, items, len);
  }

  lemma StepTaken(env: Env, s: Server, args: seq<bytes>, rest: bytes, cmd: Command, used: nat, last: nat)
    returns (items: seq<bytes>, len: nat)
    requires ModelOk(env.model) && Fits(args) && last == used + Asked(cmd) && last <= |args|
    requires Request(args) + rest != [] && (Request(args) + rest)[0] == '*'
    requires ParseCommand(env.text, Request(args) + rest) == Parsed(cmd, |RequestPrefix(args, used)|)
    ensures items == args[used..last] && len == |RequestPrefix(args, last)| <= |Request(args)|
    ensures Step(env, s, Request(args) + rest)
         == if Panics(s.data, cmd) then Crash
            else Done(Handled(env, s, cmd, items), Reply(env, s.data, cmd, items), len)
  {
    var head, more;
    items, head, more, len := ArgsFollow(args, used, last, rest);
    StepFromParts(env, s, Request(args) + rest, cmd, head, items, more);
  }

  /** What one pass makes of a request the parser understands: it takes the parser's arguments and those the
      dispatcher asks for, and only a search for nothing in a store with something in it dies. */
  lemma StepRequest(env: Env, s: Server, args: seq<bytes>, rest: bytes, cmd: Command, used: nat, last: nat)
    returns (items: seq<bytes>, len: nat)
    requires ModelOk(env.model) && args != [] && Fits(args) && Decode(env.text, args) == Some((cmd, used))
    requires last == used + Asked(cmd) && last <= |args|
    ensures items == args[used..last] && len == |RequestPrefix(args, last)| <= |Request(args)|
    ensures Request(args) + rest != []
    ensures Step(env, s, Request(args) + rest)
         == if Panics(s.data, cmd) then Crash
            else Done(Handled(env, s, cmd, items), Reply(env, s.data, cmd, items), len)
  {
    RequestParsed(env.text, args, rest, cmd, used);
    items, len := StepTaken(env, s, args, rest, cmd, used, last);
  }

  /** A request all of whose arguments are taken. */
  lemma StepWhole(env: Env, s: Server, args: seq<bytes>, rest: bytes, cmd: Command, used: nat)
    requires ModelOk(env.model) && args != [] && Fits(args) && Decode(env.text, args) == Some((cmd, used))
    requires used + Asked(cmd) == |args| && !Panics(s.data, cmd)
    ensures Request(args) + rest != []
    ensures Step(env, s, Request(args) + rest)
         == Done(Handled(env, s, cmd, args[used..]), Reply(env, s.data, cmd, args[used..]), |Request(args)|)
  {
    var items, len := StepRequest(env, s, args, rest, cmd, used, |args|);
    assert args[..|args|] == args && args[used..|args|] == args[used..];
  }

  /** The loop after a first step that handles a whole request. */
  lemma DrainAfter(env: Env, s: Server, request: bytes, rest: bytes, t: Server, reply: bytes)
    requires ModelOk(env.model) && request != [] && Step(env, s, request + rest) == Done(t, reply, |request|)
    ensures Drain(StepOf(env), s, request + rest) == Prefixed(reply, Drain(StepOf(env), t, rest))
  {
    PrefixOccurs(request, rest);
  }

  /** A request all of whose arguments are taken, those after the first `used` by the dispatcher. */
  ghost predicate Whole(env: Env, s: Server, args: seq<bytes>, cmd: Command, used: nat)
    requires ModelOk(env.model)
  {
    && args != [] && Fits(args) && Decode(env.text, args) == Some((cmd, used))
    && used + Asked(cmd) == |args| && !Panics(s.data, cmd)
  }

  /** It is answered and handled, and the loop goes on behind it. */
  lemma RequestThen(env: Env, s: Server, args: seq<bytes>, rest: bytes, cmd: Command, used: nat, items: seq<bytes>)
    requires ModelOk(env.model) && Whole(env, s, args, cmd, used) && items == args[used..]
    ensures Drain(StepOf(env), s, Request(args) + rest)
         == Prefixed(Reply(env, s.data, cmd, items), Drain(StepOf(env), Handled(env, s, cmd, items), rest))
  {
    StepWhole(env, s, args, rest, cmd, used);
    RequestIsTagged(args, []);
    assert Request(args) + [] == Request(args);
    DrainAfter(env, s, Request(args), rest, Handled(env, s, cmd, items), Reply(env, s.data, cmd, items));
  }

  lemma RequestLast(env: Env, s: Server, args: seq<bytes>, cmd: Command, used: nat, items: seq<bytes>)
    requires ModelOk(env.model) && Whole(env, s, args, cmd, used) && items == args[used..]
    ensures Drain(StepOf(env), s, Request(args))
         == Drained(Handled(env, s, cmd, items), Reply(env, s.data, cmd, items), [], true)
  {
    RequestThen(env, s, args, [], cmd, used, items);
    assert Request(args) + [] == Request(args);
    assert Reply(env, s.data, cmd, items) + [] == Reply(env, s.data, cmd, items);
  }

  lemma GetDecodes(t: Text, key: bytes)
    requires VerbsOk(t) && t.utf8(key)
    ensures Decode(t, ["GET", key]) == Some((Get(key), 2))
  {
    NamesOfVerbs();
    KnownVerb(t, "GET");
    assert ["GET", key][1..2] == [key];
  }

  lemma SetDecodes(t: Text, key: bytes, val: bytes)
    requires VerbsOk(t) && t.utf8(key)
    ensures Decode(t, ["SET", key, val]) == Some((Set(key, val), 3))
  {
    NamesOfVerbs();
    KnownVerb(t, "SET");
    assert ["SET", key, val][1..3] == [key, val];
  }

  lemma HeadersDecode(t: Text, args: seq<bytes>)
    requires VerbsOk(t) && args != []
    ensures args[0] == "MSET" ==> Decode(t, args) == Some((MSetHeader(|args| - 1), 1))
    ensures args[0] == "MGET" ==> Decode(t, args) == Some((MGetHeader(|args| - 1), 1))
  {
    KnownVerbs(t);
    assert args[1..1] == [];
  }

  lemma GetOfEncoded(m: Model, db: map<bytes, Value>, key: bytes, val: bytes)
    requires ModelOk(m) && key in db && db[key] == Encode(m, val, true)
    ensures GetReply(m, db, key) == Bulk(val)
  {
    var one: map<bytes, Value>, kv: Content := map[key := db[key]], map[key := Str(val, true)];
    GetMeans(m, one, kv, key);
  }

  lemma MGetOfEncoded(m: Model, db: map<bytes, Value>, key: bytes, val: bytes)
    requires ModelOk(m) && key in db && db[key] == Encode(m, val, false)
    ensures MGetReply(m, db, key) == if val == [] then NULL else Bulk(val)
  {
    var one: map<bytes, Value>, kv: Content := map[key := db[key]], map[key := Str(val, false)];
    MGetMeans(m, one, kv, key);
  }

  lemma AfterPut(env: Env, s: Server, key: bytes, val: bytes, cascade: bool)
    requires ModelOk(env.model)
    ensures var db := AfterAll(env, s, [Put(key, val, cascade)]).data.db;
            key in db && db[key] == Encode(env.model, val, cascade)
  {
  }

  lemma GetLast(env: Env, s: Server, args: seq<bytes>, key: bytes)
    requires ModelOk(env.model) && VerbsOk(env.text) && env.text.utf8(key) && |key| < U32 && args == ["GET", key]
    ensures Drain(StepOf(env), s, Request(args)) == Drained(s, GetReply(env.model, s.data.db, key), [], true)
  {
    GetDecodes(env.text, key);
    RequestLast(env, s, args, Get(key), 2, []);
  }

  lemma SetFirst(env: Env, s: Server, args: seq<bytes>, key: bytes, val: bytes, rest: bytes)
    returns (t: Server)
    requires ModelOk(env.model) && VerbsOk(env.text) && env.text.utf8(key) && |key| < U32 && |val| < U32
    requires args == ["SET", key, val]
    ensures Drain(StepOf(env), s, Request(args) + rest) == Prefixed(OK, Drain(StepOf(env), t, rest))
    ensures key in t.data.db && t.data.db[key] == Encode(env.model, val, true)
  {
    SetDecodes(env.text, key, val);
    RequestThen(env, s, args, rest, Set(key, val), 3, []);
    t := Handled(env, s, Set(key, val), []);
    AfterPut(env, s, key, val, true);
  }

  /** SET then GET over the wire, in any state of the server, for a value of any length the protocol can
      carry: the reply is the value byte for byte. */
  lemma SetThenGet(env: Env, s: Server, key: bytes, val: bytes)
    requires ModelOk(env.model) && VerbsOk(env.text) && env.text.utf8(key) && |key| < U32 && |val| < U32
    ensures var r := Drain(StepOf(env), s, Request(["SET", key, val]) + Request(["GET", key]));
            r.alive && r.tail == [] && r.out == OK + Bulk(val)
  {
    var t := SetFirst(env, s, ["SET", key, val], key, val, Request(["GET", key]));
    GetOfEncoded(env.model, t.data.db, key, val);
    GetLast(env, t, ["GET", key], key);
  }

  lemma MSetFirst(env: Env, s: Server, args: seq<bytes>, key: bytes, val: bytes, rest: bytes)
    returns (t: Server)
    requires ModelOk(env.model) && VerbsOk(env.text) && |key| < U32 && |val| < U32
    requires args == ["MSET", key, val]
    ensures Drain(StepOf(env), s, Request(args) + rest) == Prefixed(OK, Drain(StepOf(env), t, rest))
    ensures key in t.data.db && t.data.db[key] == Encode(env.model, val, false)
  {
    HeadersDecode(env.text, args);
    NamesFit();
    assert args[1..] == [key, val];
    RequestThen(env, s, args, rest, MSetHeader(2), 1, [key, val]);
    t := Handled(env, s, MSetHeader(2), [key, val]);
    OnePut(key, val);
    AfterPut(env, s, key, val, false);
  }

  lemma MGetLast(env: Env, s: Server, args: seq<bytes>, key: bytes)
    requires ModelOk(env.model) && VerbsOk(env.text) && |key| < U32 && args == ["MGET", key]
    ensures Drain(StepOf(env), s, Request(args))
         == Drained(s, Size('*', 1) + MGetReply(env.model, s.data.db, key), [], true)
  {
    HeadersDecode(env.text, args);
    NamesFit();
    assert args[1..] == [key];
    OneMGet(env.model, s.data.db, key);
    RequestLast(env, s, args, MGetHeader(1), 1, [key]);
  }

  /** MSET then MGET likewise, except that an empty value reads as null. */
  lemma MSetThenMGet(env: Env, s: Server, key: bytes, val: bytes)
    requires ModelOk(env.model) && VerbsOk(env.text) && |key| < U32 && |val| < U32
    ensures var r := Drain(StepOf(env), s, Request(["MSET", key, val]) + Request(["MGET", key]));
            r.alive && r.tail == [] && r.out == OK + (Size('*', 1) + if val == [] then NULL else Bulk(val))
  {
    var t := MSetFirst(env, s, ["MSET", key, val], key, val, Request(["MGET", key]));
    MGetOfEncoded(env.model, t.data.db, key, val);
    MGetLast(env, t, ["MGET", key], key);
  }

  lemma NamesFit()
    ensures |"MSET"| < U32 && |"MGET"| < U32
  {
  }

  lemma OnePut(key: bytes, val: bytes)
    ensures Puts([key, val]) == [Put(key, val, false)]
  {
  }

  lemma OneMGet(m: Model, db: map<bytes, Value>, key: bytes)
    requires ModelOk(m)
    ensures MGetReplies(m, db, [key]) == MGetReply(m, db, key)
  {
  }

  // ---------- HMSET then HGETALL ----------

  /** A request that HMSET takes whole. */
  function HmSetArgs(key: bytes, fields: seq<Field>): seq<bytes> {
    ["HMSET", key] + Flattened(fields)
  }

  lemma HmSetDecodes(t: Text, key: bytes, fields: seq<Field>)
    requires VerbsOk(t) && fields != [] && Log.EntryOk(t, Log.HmSet(key, fields))
    ensures Decode(t, HmSetArgs(key, fields)) == Some((HmSet(key, fields), 2 + 2 * |fields|))
  {
    Log.EntryDecodes(t, Log.HmSet(key, fields));
  }

  lemma HGetAllDecodes(t: Text, key: bytes)
    requires VerbsOk(t) && t.utf8(key)
    ensures Decode(t, ["HGETALL", key]) == Some((HGetAll(key), 2))
  {
    MoreNamesOfVerbs();
    KnownVerb(t, "HGETALL");
    assert ["HGETALL", key][1..2] == [key];
  }

  lemma OneAfter(env: Env, s: Server, c: Change)
    requires ModelOk(env.model)
    ensures AfterAll(env, s, [c]) == After(env, s, c)
  {
  }

  lemma HmSetEffect(env: Env, s: Server, cmd: Command)
    requires ModelOk(env.model) && cmd.HmSet? && (cmd.key in s.data.db ==> !s.data.db[cmd.key].FlatHash?)
    ensures Reply(env, s.data, cmd, []) == OK
    ensures var db := Handled(env, s, cmd, []).data.db; cmd.key in db && db[cmd.key] == FlatHash(Pack(cmd.fields))
  {
    var c := Override(cmd.key, cmd.fields);
    OneAfter(env, s, c);
    assert Merged(env.order(s.data.merges), s.data.db, cmd.key, cmd.fields) == Pack(cmd.fields);
  }

  lemma HGetAllEffect(env: Env, s: Server, cmd: Command)
    requires ModelOk(env.model) && cmd.HGetAll?
    ensures Reply(env, s.data, cmd, []) == HashAnswer(s.data.db, cmd.key) && Handled(env, s, cmd, []) == s
  {
  }

  lemma HmSetFirst(env: Env, s: Server, args: seq<bytes>, key: bytes, fields: seq<Field>, rest: bytes)
    returns (t: Server)
    requires ModelOk(env.model) && VerbsOk(env.text) && fields != [] && args == HmSetArgs(key, fields)
    requires Log.EntryOk(env.text, Log.HmSet(key, fields)) && (key in s.data.db ==> !s.data.db[key].FlatHash?)
    ensures Drain(StepOf(env), s, Request(args) + rest) == Prefixed(OK, Drain(StepOf(env), t, rest))
    ensures key in t.data.db && t.data.db[key] == FlatHash(Pack(fields))
  {
    var cmd := HmSet(key, fields);
    HmSetDecodes(env.text, key, fields);
    Log.ArgsFit(env.text, Log.HmSet(key, fields));
    RequestThen(env, s, args, rest, cmd, |args|, []);
    t := Handled(env, s, cmd, []);
    HmSetEffect(env, s, cmd);
  }

  lemma HGetAllLast(env: Env, s: Server, args: seq<bytes>, key: bytes)
    requires ModelOk(env.model) && VerbsOk(env.text) && env.text.utf8(key) && |key| < U32 && args == ["HGETALL", key]
    ensures Drain(StepOf(env), s, Request(args)) == Drained(s, HashAnswer(s.data.db, key), [], true)
  {
    var cmd := HGetAll(key);
    HGetAllDecodes(env.text, key);
    HGetAllEffect(env, s, cmd);
    RequestLast(env, s, args, cmd, 2, []);
  }

  lemma PackedAnswer(db: map<bytes, Value>, key: bytes, fields: seq<Field>)
    requires FieldsOk(fields) && key in db && db[key] == FlatHash(Pack(fields))
    ensures Lists(HashAnswer(db, key), fields)
  {
    PackRoundTrip(fields);
  }

  /** HMSET then HGETALL over the wire, in any state of the server in which the key holds no hash: the fields come
      back, in the order given. */
  lemma HmSetThenHGetAll(env: Env, s: Server, key: bytes, fields: seq<Field>)
    requires ModelOk(env.model) && VerbsOk(env.text) && fields != []
    requires Log.EntryOk(env.text, Log.HmSet(key, fields)) && (key in s.data.db ==> !s.data.db[key].FlatHash?)
    ensures var r := Drain(StepOf(env), s, Request(HmSetArgs(key, fields)) + Request(["HGETALL", key]));
            r.alive && r.tail == [] && r.out == OK + (Size('*', 2 * |fields|) + BulkAll(Flattened(fields)))
  {
    var t := HmSetFirst(env, s, HmSetArgs(key, fields), key, fields, Request(["HGETALL", key]));
    PackedAnswer(t.data.db, key, fields);
    HGetAllLast(env, t, ["HGETALL", key], key);
  }
}
