/** The protocol as a table: for every verb, which argument lists are requests, what they do to the plain
    contents and the vector store, and what is answered. The server serves every printed request so, refuses
    every other list for good, and dies on one kind only. */
module Interpreter {
  import opened Bytes
  import opened Resp
  import opened Commands
  import opened HashEngine
  import opened Codec
  import opened VectorStore
  import opened Quantizer
  import opened Streaming
  import opened Server
  import opened KeyValue
  import opened Replay
  import opened History
  import opened Session

  // ---------- The table ----------

  /** The plain contents and the vector store. */
  datatype World = World(kv: Content, vectors: LiveStore)

  /** Items two by two. */
  function Paired(items: seq<bytes>): (r: seq<Field>)
    ensures |r| == |items| / 2
  {
    seq(|items| / 2, i requires 0 <= i < |items| / 2 => (items[2 * i], items[2 * i + 1]))
  }

  predicate NamesOk(t: Text, fields: seq<Field>) {
    forall f :: f in fields ==> t.utf8(f.0)
  }

  /** Every item is the text of a number. */
  predicate Numeric(t: Text, items: seq<bytes>) {
    forall i :: 0 <= i < |items| ==> t.utf8(items[i]) && t.parseF32(items[i]).Some?
  }

  function NumbersOf(t: Text, items: seq<bytes>): (r: seq<F32>)
    requires Numeric(t, items)
    ensures |r| == |items|
  {
    seq(|items|, i requires 0 <= i < |items| => t.parseF32(items[i]).value)
  }

  /** Enough arguments, and texts and numbers where they are needed. */
  predicate Accepts(t: Text, args: seq<bytes>)
    requires args != []
  {
    t.utf8(args[0]) &&
    match t.verb(args[0])
    case SET => |args| >= 3 && t.utf8(args[1])
    case GET => |args| >= 2 && t.utf8(args[1])
    case DEL => |args| >= 2 && t.utf8(args[1])
    case HGETALL => |args| >= 2 && t.utf8(args[1])
    case SELECT => |args| >= 2 && t.utf8(args[1]) && t.parseU8(args[1]).Some?
    case HMSET => |args| >= 4 && t.utf8(args[1]) && NamesOk(t, Paired(args[2..]))
    case ZADD => |args| >= 4 && t.utf8(args[1])
    case VADD => |args| >= 3 && t.utf8(args[1]) && Numeric(t, args[2..])
    case VSEARCH => |args| >= 3 && t.utf8(args[1]) && t.parseUsize(args[1]).Some? && Numeric(t, args[2..])
    case _ => true
  }

  /** How many arguments are taken, the name included. */
  function Taken(t: Text, args: seq<bytes>): (n: nat)
    requires args != [] && Accepts(t, args)
    ensures 1 <= n <= |args|
  {
    match t.verb(args[0])
    case SET => 3
    case GET => 2
    case DEL => 2
    case HGETALL => 2
    case SELECT => 2
    case ZADD => 2
    case HMSET => if |args| % 2 == 0 then |args| else |args| - 1
    case MSET => if |args| % 2 == 1 then |args| else |args| - 1
    case MGET => |args|
    case VADD => |args|
    case VSEARCH => |args|
    case _ => 1
  }

  /** n pairs of an MSET, each overwriting the ones before. */
  function Stores(kv: Content, args: seq<bytes>, n: nat): Content
    requires 2 * n < |args|
  {
    if n == 0 then kv else Stores(kv, args, n - 1)[args[2 * n - 1] := Str(args[2 * n], false)]
  }

  /** The entries of a hash, none for a missing key or a string. */
  function HashAt(kv: Content, key: bytes): map<bytes, bytes> {
    if key in kv && kv[key].Hash? then kv[key].entries else map[]
  }

  function AfterRequest(t: Text, args: seq<bytes>, w: World): World
    requires args != [] && Accepts(t, args)
  {
    match t.verb(args[0])
    case SET => w.(kv := w.kv[args[1] := Str(args[2], true)])
    case DEL => w.(kv := w.kv - {args[1]})
    case MSET => w.(kv := Stores(w.kv, args, (|args| - 1) / 2))
    case HMSET => w.(kv := w.kv[args[1] := Hash(HashAt(w.kv, args[1]) + AsMap(Paired(args[2..])))])
    case VADD => w.(vectors := AddVector(w.vectors, args[1], NumbersOf(t, args[2..])))
    case FLUSHDB => World(map[], ClearVectors(w.vectors))
    case _ => w
  }

  const WRONG_KIND: bytes := "-WRONGTYPE Operation " + "against a key holding " + "the wrong kind of value\r\n"

  /** A value as GET shows it, and as MGET does. */
  function GetAnswer(m: Model, kv: Content, key: bytes): bytes
    requires ModelOk(m)
  {
    if key !in kv then "$-1\r\n"
    else
      match kv[key]
      case Hash(_) => WRONG_KIND
      case Str(text, cascade) => Bulk(if cascade then text else Crossed(m, text))
  }

  function MGetAnswer(m: Model, kv: Content, key: bytes): bytes
    requires ModelOk(m)
  {
    if key !in kv || kv[key].Hash? || kv[key].text == [] then "$-1\r\n"
    else Bulk(if kv[key].cascade then Crossed(m, kv[key].text) else kv[key].text)
  }

  function MGetAnswers(m: Model, kv: Content, keys: seq<bytes>): bytes
    requires ModelOk(m)
  {
    if keys == [] then [] else MGetAnswer(m, kv, keys[0]) + MGetAnswers(m, kv, keys[1..])
  }

  ghost predicate HGetAllAnswer(kv: Content, key: bytes, reply: bytes) {
    if key !in kv then reply == "*0\r\n"
    else if kv[key].Hash? then ListsHash(reply, kv[key].entries)
    else reply == WRONG_KIND
  }

  ghost predicate Answers(env: Env, args: seq<bytes>, w: World, reply: bytes)
    requires ModelOk(env.model) && args != [] && Accepts(env.text, args)
  {
    var t, m := env.text, env.model;
    match t.verb(args[0])
    case GET => reply == GetAnswer(m, w.kv, args[1])
    case DEL => reply == if args[1] in w.kv then ":1\r\n" else ":0\r\n"
    case MGET => reply == Size('*', |args| - 1) + MGetAnswers(m, w.kv, args[1..])
    case HGETALL => HGetAllAnswer(w.kv, args[1], reply)
    case VSEARCH =>
      reply == SearchAnswer(env.search(w.vectors, NumbersOf(t, args[2..]), t.parseUsize(args[1]).value))
    case PING => reply == "+PONG\r\n"
    case INFO => reply == Bulk("redis_version:3.0.0\r\n" + "omega_drive_version:3.0.0\r\n" + "role:master\r\n")
    case ZADD => reply == ":1\r\n"
    case SAVE => reply == "-ERR unhandled\r\n"
    case BGSAVE => reply == "-ERR unhandled\r\n"
    case OTHER => reply == "*0\r\n"
    case _ => reply == "+OK\r\n"
  }

  /** A search for no neighbours when something is stored. */
  predicate Fatal(t: Text, args: seq<bytes>, w: World)
    requires args != [] && Accepts(t, args)
  {
    t.verb(args[0]) == VSEARCH && t.parseUsize(args[1]) == Some(0) && TotalVectors(w.vectors.shards) > 0
  }

  // ---------- The parser follows the table ----------

  function CommandOf(t: Text, args: seq<bytes>): Command
    requires args != [] && Accepts(t, args)
  {
    match t.verb(args[0])
    case PING => Ping
    case SET => Set(args[1], args[2])
    case GET => Get(args[1])
    case DEL => Del(args[1])
    case MGET => MGetHeader(|args| - 1)
    case MSET => MSetHeader(|args| - 1)
    case SELECT => Select(t.parseU8(args[1]).value)
    case SAVE => Save
    case BGSAVE => BgSave
    case FLUSHDB => FlushDb
    case INFO => Info
    case HMSET => HmSet(args[1], Paired(args[2..]))
    case HGETALL => HGetAll(args[1])
    case ZADD => ZAdd(args[1])
    case VADD => VAdd(args[1], NumbersOf(t, args[2..]))
    case VSEARCH => VSearch(t.parseUsize(args[1]).value, NumbersOf(t, args[2..]))
    case OTHER => Unknown(args[0])
  }

  lemma PairedCons(items: seq<bytes>)
    requires |items| >= 2
    ensures Paired(items) == [(items[0], items[1])] + Paired(items[2..])
  {
  }

  lemma {:induction false} PairsAre(t: Text, items: seq<bytes>)
    ensures Pairs(t, items)
         == if NamesOk(t, Paired(items)) then Some(Paired(items)) else None
  {
    if |items| >= 2 {
      PairsAre(t, items[2..]);
      PairedCons(items);
      var f, later := (items[0], items[1]), Paired(items[2..]);
      assert forall x :: x in [f] + later <==> x == f || x in later;
    }
  }

  lemma NotNumeric(t: Text, items: seq<bytes>)
    requires items != [] && !Numeric(t, items) && Numeric(t, items[1..])
    ensures !t.utf8(items[0]) || t.parseF32(items[0]).None?
  {
    if t.utf8(items[0]) && t.parseF32(items[0]).Some? {
      forall i | 0 <= i < |items|
        ensures t.utf8(items[i]) && t.parseF32(items[i]).Some?
      {
        assert i > 0 ==> items[i] == items[1..][i - 1];
      }
    }
  }

  lemma {:induction false} FloatsAre(t: Text, items: seq<bytes>)
    ensures Floats(t, items) == if Numeric(t, items) then Some(NumbersOf(t, items)) else None
  {
    if items != [] {
      var later := items[1..];
      FloatsAre(t, later);
      if Numeric(t, items) {
        assert NumbersOf(t, items) == [t.parseF32(items[0]).value] + NumbersOf(t, later);
      } else if Numeric(t, later) {
        NotNumeric(t, items);
      }
    }
  }

  lemma PairedUsed(args: seq<bytes>, n: nat)
    requires |args| >= 4 && n == 1 + 2 * ((|args| - 2) / 2)
    ensures n < |args| && Paired(args[2..n + 1]) == Paired(args[2..])
  {
  }

  /** The parser takes a request for the command the table has for it, and refuses every other list. */
  lemma DecodesAs(t: Text, args: seq<bytes>)
    requires args != []
    ensures !Accepts(t, args) ==> Decode(t, args) == None
    ensures Accepts(t, args) ==>
              && Decode(t, args).Some? && Decode(t, args).value.0 == CommandOf(t, args)
              && Decode(t, args).value.1 + Asked(CommandOf(t, args)) == Taken(t, args)
  {
    if ArityFor(t, args[0], |args|).Some? {
      var n := ArityFor(t, args[0], |args|).value;
      var items := args[1..n + 1];
      match t.verb(args[0])
      case HMSET => HmSetDecodes(t, args, n, items);
      case VADD => NumbersDecode(t, args, n, items);
      case VSEARCH => NumbersDecode(t, args, n, items);
      case _ =>
    }
  }

  lemma HmSetDecodes(t: Text, args: seq<bytes>, n: nat, items: seq<bytes>)
    requires |args| >= 4 && n == 1 + 2 * ((|args| - 2) / 2) && items == args[1..n + 1]
    ensures items[0] == args[1]
    ensures Pairs(t, items[1..]) == if NamesOk(t, Paired(args[2..])) then Some(Paired(args[2..])) else None
  {
    assert items[1..] == args[2..n + 1];
    PairedUsed(args, n);
    PairsAre(t, items[1..]);
  }

  lemma NumbersDecode(t: Text, args: seq<bytes>, n: nat, items: seq<bytes>)
    requires |args| >= 3 && n == |args| - 1 && items == args[1..n + 1]
    ensures items[0] == args[1]
    ensures Floats(t, items[1..]) == if Numeric(t, args[2..]) then Some(NumbersOf(t, args[2..])) else None
  {
    assert items[1..] == args[2..];
    FloatsAre(t, items[1..]);
  }

  // ---------- The dispatcher follows the table ----------

  lemma NextAllSnoc(kv: Content, done: seq<Change>, c: Change)
    ensures NextAll(kv, done + [c]) == KeyValue.Next(NextAll(kv, done), c)
  {
    assert (done + [c])[..|done|] == done;
  }

  lemma LastPut(args: seq<bytes>, n: nat) returns (done: seq<Change>)
    requires n > 0 && 2 * n < |args|
    ensures done == Puts(args[1..2 * (n - 1) + 1])
    ensures Puts(args[1..2 * n + 1]) == done + [Put(args[2 * n - 1], args[2 * n], false)]
  {
    var items := args[1..2 * n + 1];
    done := Puts(args[1..2 * (n - 1) + 1]);
    assert items[..|items| - 2] == args[1..2 * (n - 1) + 1];
  }

  lemma {:induction false} StoresAre(kv: Content, args: seq<bytes>, n: nat)
    requires 2 * n < |args|
    ensures NextAll(kv, Puts(args[1..2 * n + 1])) == Stores(kv, args, n)
  {
    if n > 0 {
      StoresAre(kv, args, n - 1);
      var done := LastPut(args, n);
      NextAllSnoc(kv, done, Put(args[2 * n - 1], args[2 * n], false));
    }
  }

  /** The changes a request stands for, and the arguments the dispatcher reads itself. */
  function ItemsOf(t: Text, args: seq<bytes>): seq<bytes>
    requires args != [] && Accepts(t, args)
  {
    args[Taken(t, args) - Asked(CommandOf(t, args))..Taken(t, args)]
  }

  function ChangesOf(t: Text, args: seq<bytes>): seq<Change>
    requires args != [] && Accepts(t, args)
  {
    Changes(CommandOf(t, args), ItemsOf(t, args))
  }

  lemma OneChange(kv: Content, s: LiveStore, c: Change)
    ensures NextAll(kv, [c]) == KeyValue.Next(kv, c) && VectorsAfter(s, [c]) == ChangeVectors(s, c)
  {
    assert [c][..0] == [];
    assert NextAll(kv, []) == kv && VectorsAfter(s, []) == s;
  }

  lemma {:induction false} PutsKeepVectors(s: LiveStore, items: seq<bytes>)
    ensures VectorsAfter(s, Puts(items)) == s
  {
    if |items| >= 2 {
      var front := items[..|items| - 2];
      PutsKeepVectors(s, front);
      var all, done := Puts(items), Puts(front);
      assert all[..|all| - 1] == done;
    }
  }

  lemma ChangesAre(t: Text, args: seq<bytes>)
    requires args != [] && Accepts(t, args)
    ensures match t.verb(args[0])
            case SET => ChangesOf(t, args) == [Put(args[1], args[2], true)]
            case DEL => ChangesOf(t, args) == [Remove(args[1])]
            case HMSET => ChangesOf(t, args) == [Override(args[1], Paired(args[2..]))]
            case VADD => ChangesOf(t, args) == [Insert(args[1], NumbersOf(t, args[2..]))]
            case FLUSHDB => ChangesOf(t, args) == [Reset]
            case MSET => ChangesOf(t, args) == Puts(ItemsOf(t, args))
            case _ => ChangesOf(t, args) == []
  {
  }

  lemma MSetItems(t: Text, args: seq<bytes>, n: nat)
    requires args != [] && Accepts(t, args) && t.verb(args[0]) == MSET && n == (|args| - 1) / 2
    ensures 2 * n < |args| && ItemsOf(t, args) == args[1..2 * n + 1]
  {
  }

  lemma RequestChanges(t: Text, args: seq<bytes>, w: World, changes: seq<Change>)
    requires args != [] && Accepts(t, args) && changes == ChangesOf(t, args)
    ensures NextAll(w.kv, changes) == AfterRequest(t, args, w).kv
    ensures VectorsAfter(w.vectors, changes) == AfterRequest(t, args, w).vectors
  {
    ChangesAre(t, args);
    if t.verb(args[0]) == MSET {
      var n := (|args| - 1) / 2;
      MSetItems(t, args, n);
      StoresAre(w.kv, args, n);
      PutsKeepVectors(w.vectors, ItemsOf(t, args));
    } else if changes != [] {
      OneChange(w.kv, w.vectors, changes[0]);
    }
  }

  lemma {:induction false} MGetAnswersSnoc(m: Model, kv: Content, keys: seq<bytes>, key: bytes)
    requires ModelOk(m)
    ensures MGetAnswers(m, kv, keys + [key]) == MGetAnswers(m, kv, keys) + MGetAnswer(m, kv, key)
  {
    if keys == [] {
      assert [key][1..] == [];
      assert MGetAnswers(m, kv, [key]) == MGetAnswer(m, kv, key) + MGetAnswers(m, kv, []);
      assert [] + [key] == [key];
    } else {
      assert (keys + [key])[1..] == keys[1..] + [key];
      MGetAnswersSnoc(m, kv, keys[1..], key);
      Assoc(MGetAnswer(m, kv, keys[0]), MGetAnswers(m, kv, keys[1..]), MGetAnswer(m, kv, key));
    }
  }

  lemma MGetRepliesSnoc(m: Model, db: map<bytes, Value>, keys: seq<bytes>, key: bytes)
    requires ModelOk(m)
    ensures MGetReplies(m, db, keys + [key]) == MGetReplies(m, db, keys) + MGetReply(m, db, key)
  {
    assert (keys + [key])[..|keys|] == keys;
  }

  lemma {:induction false} MGetAnswered(m: Model, db: map<bytes, Value>, kv: Content, keys: seq<bytes>)
    requires ModelOk(m) && Represents(m, db, kv)
    ensures MGetReplies(m, db, keys) == MGetAnswers(m, kv, keys)
  {
    if keys != [] {
      var front, key := keys[..|keys| - 1], keys[|keys| - 1];
      assert keys == front + [key];
      MGetAnswered(m, db, kv, front);
      MGetMeans(m, db, kv, key);
      MGetAnswersSnoc(m, kv, front, key);
      MGetRepliesSnoc(m, db, front, key);
    }
  }

  /** The server stands for a world. */
  ghost predicate Stands(env: Env, s: Server, w: World)
    requires ModelOk(env.model)
  {
    Represents(env.model, s.data.db, w.kv) && s.data.vectors == w.vectors
  }

  lemma DelAnswered(found: bool)
    ensures IntReply(if found then 1 else 0) == if found then ":1\r\n" else ":0\r\n"
  {
  }

  lemma MGetServed(env: Env, args: seq<bytes>, s: Server, w: World)
    requires ModelOk(env.model) && args != [] && Accepts(env.text, args) && Stands(env, s, w)
    requires env.text.verb(args[0]) == MGET
    ensures Reply(env, s.data, CommandOf(env.text, args), ItemsOf(env.text, args))
         == Size('*', |args| - 1) + MGetAnswers(env.model, w.kv, args[1..])
  {
    assert ItemsOf(env.text, args) == args[1..];
    MGetAnswered(env.model, s.data.db, w.kv, args[1..]);
  }

  lemma HGetAllServed(m: Model, db: map<bytes, Value>, kv: Content, key: bytes)
    requires ModelOk(m) && Represents(m, db, kv)
    ensures HGetAllAnswer(kv, key, HashAnswer(db, key))
  {
    HashAnswerMeans(m, db, kv, key);
  }

  lemma ReadsServed(env: Env, cmd: Command, items: seq<bytes>, s: Server, w: World)
    requires ModelOk(env.model) && Stands(env, s, w)
    ensures cmd.Get? ==> Reply(env, s.data, cmd, items) == GetAnswer(env.model, w.kv, cmd.key)
    ensures cmd.Del? ==> Reply(env, s.data, cmd, items) == if cmd.key in w.kv then ":1\r\n" else ":0\r\n"
    ensures cmd.HGetAll? ==> HGetAllAnswer(w.kv, cmd.key, Reply(env, s.data, cmd, items))
  {
    if cmd.Get? {
      GetMeans(env.model, s.data.db, w.kv, cmd.key);
    } else if cmd.Del? {
      DelAnswered(cmd.key in w.kv);
    } else if cmd.HGetAll? {
      HGetAllServed(env.model, s.data.db, w.kv, cmd.key);
    }
  }

  lemma RequestAnswered(env: Env, args: seq<bytes>, s: Server, w: World)
    requires ModelOk(env.model) && args != [] && Accepts(env.text, args) && Stands(env, s, w)
    ensures Answers(env, args, w, Reply(env, s.data, CommandOf(env.text, args), ItemsOf(env.text, args)))
  {
    var cmd, items := CommandOf(env.text, args), ItemsOf(env.text, args);
    if env.text.verb(args[0]) == MGET {
      MGetServed(env, args, s, w);
    } else {
      ReadsServed(env, cmd, items, s, w);
    }
  }

  // ---------- One request on the wire ----------

  /** A hash this request leaves has at most 2^32 - 1 fields. */
  predicate Countable32(t: Text, args: seq<bytes>, w: World)
    requires args != [] && Accepts(t, args)
  {
    t.verb(args[0]) == HMSET ==> |HashAt(w.kv, args[1]) + AsMap(Paired(args[2..]))| < 0x1_0000_0000
  }

  lemma RequestSizes(t: Text, args: seq<bytes>)
    requires args != [] && Accepts(t, args) && Fits(args)
    ensures ChangesOk(ChangesOf(t, args))
  {
    ChangesAre(t, args);
    if t.verb(args[0]) == HMSET {
      var fields := Paired(args[2..]);
      assert FieldsOk(fields) by {
        forall f | f in fields
          ensures |f.0| < U32 && |f.1| < U32
        {
          var i :| 0 <= i < |fields| && fields[i] == f;
          assert f.0 == args[2 * i + 2] && f.1 == args[2 * i + 3];
        }
      }
    } else if t.verb(args[0]) == MSET {
      PutsOk(ItemsOf(t, args));
    }
  }

  lemma {:induction false} PutsOk(items: seq<bytes>)
    ensures forall c :: c in Puts(items) ==> c.Put?
  {
    if |items| >= 2 {
      PutsOk(items[..|items| - 2]);
    }
  }

  lemma {:induction false} PutsNeverFull(kv: Content, changes: seq<Change>)
    requires Countable(kv) && forall c :: c in changes ==> c.Put?
    ensures NeverFull(kv, changes)
  {
    if changes != [] {
      PutsNeverFull(kv, changes[..|changes| - 1]);
      assert changes[|changes| - 1] in changes;
    }
  }

  lemma OneNeverFull(kv: Content, c: Change)
    requires Countable(kv)
    requires c.Override? ==> |HashAt(kv, c.key) + AsMap(c.fields)| < U32
    ensures NeverFull(kv, [c])
  {
    assert [c][..0] == [] && NextAll(kv, []) == kv;
    assert NeverFull(kv, []);
    NextAllSnoc(kv, [], c);
    assert [] + [c] == [c];
  }

  lemma RequestNeverFull(t: Text, args: seq<bytes>, w: World)
    requires args != [] && Accepts(t, args) && Countable32(t, args, w) && Countable(w.kv)
    ensures NeverFull(w.kv, ChangesOf(t, args))
  {
    ChangesAre(t, args);
    if t.verb(args[0]) == MSET {
      PutsOk(ItemsOf(t, args));
      PutsNeverFull(w.kv, ChangesOf(t, args));
    } else if ChangesOf(t, args) != [] {
      OneNeverFull(w.kv, ChangesOf(t, args)[0]);
    }
  }

  /** What the server holds after a request is what the table says. */
  lemma RequestDone(env: Env, args: seq<bytes>, s: Server, w: World)
    requires ModelOk(env.model) && OrdersOk(env) && args != [] && Accepts(env.text, args) && Fits(args)
    requires Stands(env, s, w) && Countable32(env.text, args, w)
    ensures Stands(env, Handled(env, s, CommandOf(env.text, args), ItemsOf(env.text, args)),
                   AfterRequest(env.text, args, w))
  {
    var changes := ChangesOf(env.text, args);
    AfterAllIs(env, s, changes);
    ApplyAllVectors(env, s.data, changes);
    RequestChanges(env.text, args, w, changes);
    RequestSizes(env.text, args);
    MeansIsCountable(env.model, s.data.db, w.kv);
    RequestNeverFull(env.text, args, w);
    HistoryMeans(env, s.data, w.kv, changes);
  }

  lemma PanicsIff(t: Text, args: seq<bytes>, d: Data, w: World)
    requires args != [] && Accepts(t, args) && d.vectors == w.vectors
    ensures Panics(d, CommandOf(t, args)) <==> Fatal(t, args, w)
  {
  }

  lemma RequestTaken(env: Env, args: seq<bytes>, rest: bytes, s: Server)
    requires ModelOk(env.model) && args != [] && Accepts(env.text, args) && Fits(args)
    ensures Request(args) + rest != []
    ensures var cmd, items := CommandOf(env.text, args), ItemsOf(env.text, args);
            Step(env, s, Request(args) + rest)
            == if Panics(s.data, cmd) then Crash
               else Done(Handled(env, s, cmd, items), Reply(env, s.data, cmd, items),
                         |RequestPrefix(args, Taken(env.text, args))|)
  {
    DecodesAs(env.text, args);
    var (cmd, used) := Decode(env.text, args).value;
    var items, len := StepRequest(env, s, args, rest, cmd, used, Taken(env.text, args));
  }

  /** One pass on a request with anything behind it: it is served as the table says, up to its last argument
      taken; or it dies, if and only if the request is fatal. */
  lemma RequestServed(env: Env, args: seq<bytes>, rest: bytes, s: Server, w: World)
    returns (after: Server, reply: bytes)
    requires ModelOk(env.model) && OrdersOk(env) && args != [] && Accepts(env.text, args) && Fits(args)
    requires Stands(env, s, w) && Countable32(env.text, args, w)
    ensures Request(args) + rest != []
    ensures Step(env, s, Request(args) + rest)
         == if Fatal(env.text, args, w) then Crash
            else Done(after, reply, |RequestPrefix(args, Taken(env.text, args))|)
    ensures Stands(env, after, AfterRequest(env.text, args, w)) && Answers(env, args, w, reply)
  {
    RequestTaken(env, args, rest, s);
    RequestDone(env, args, s, w);
    RequestAnswered(env, args, s, w);
    PanicsIff(env.text, args, s.data, w);
    after := Handled(env, s, CommandOf(env.text, args), ItemsOf(env.text, args));
    reply := Reply(env, s.data, CommandOf(env.text, args), ItemsOf(env.text, args));
  }

  /** A list the table does not accept is never served: the connection waits, whatever comes behind it. */
  lemma RequestRefused(env: Env, args: seq<bytes>, rest: bytes, s: Server)
    requires ModelOk(env.model) && args != [] && !Accepts(env.text, args) && Fits(args)
    ensures Request(args) + rest != [] && Step(env, s, Request(args) + rest) == Wait
  {
    DecodesAs(env.text, args);
    RequestIsTagged(args, rest);
    PrefixOccurs(Request(args), rest);
    ParseRequest(env.text, args, Request(args) + rest);
  }

  // ---------- Inline lines ----------

  /** A line that is not the start of a request. */
  predicate IsInline(line: bytes) {
    '\n' !in line && (line == [] || line[0] != '*')
  }

  lemma {:induction false} LineEndIs(buf: bytes, i: nat, j: nat)
    requires i <= j <= |buf| && (forall k :: i <= k < j ==> buf[k] != '\n') && (j < |buf| ==> buf[j] == '\n')
    ensures LineEnd(buf, i) == j
    decreases j - i
  {
    if i < j {
      LineEndIs(buf, i + 1, j);
    }
  }

  /** A complete inline line is passed over without a reply; one that is not yet complete is waited for. */
  lemma InlineStep(env: Env, s: Server, line: bytes, rest: bytes)
    requires ModelOk(env.model) && IsInline(line)
    ensures Step(env, s, line + ['\n'] + rest) == Done(s, [], |line| + 1)
    ensures line != [] ==> Step(env, s, line) == Wait
  {
    var buf := line + ['\n'] + rest;
    LineEndIs(buf, 0, |line|);
    LineEndIs(line, 0, |line|);
  }

  lemma InlineDrained(env: Env, s: Server, line: bytes, rest: bytes)
    requires ModelOk(env.model) && IsInline(line)
    ensures Drain(StepOf(env), s, line + ['\n'] + rest) == Drain(StepOf(env), s, rest)
  {
    InlineStep(env, s, line, rest);
    Assoc(line, ['\n'], rest);
    var buf := line + ['\n'] + rest;
    assert buf[|line| + 1..] == rest;
    PrefixedTwice([], [], Drain(StepOf(env), s, rest));
  }

  /** A bulk string outside a request is two inline lines, unless its text holds a line feed or starts a
      request. */
  lemma BulkIsLines(x: bytes) returns (line: bytes)
    requires IsInline(x)
    ensures IsInline(line) && IsInline(x + ['\r']) && Bulk(x) == line + ['\n'] + (x + ['\r'] + ['\n'])
  {
    line := ['$'] + Decimal(|x|) + ['\r'];
    DecimalDigits(|x|);
    assert '\n' !in Decimal(|x|);
    assert CRLF == ['\r'] + ['\n'];
    assert Size('$', |x|) == line + ['\n'];
  }

  lemma BulkDrained(env: Env, s: Server, x: bytes, rest: bytes)
    requires ModelOk(env.model) && IsInline(x)
    ensures Drain(StepOf(env), s, Bulk(x) + rest) == Drain(StepOf(env), s, rest)
  {
    var line := BulkIsLines(x);
    var text := x + ['\r'];
    InlineDrained(env, s, line, text + ['\n'] + rest);
    InlineDrained(env, s, text, rest);
    Assoc(line + ['\n'], text + ['\n'], rest);
  }

  lemma {:induction false} BulksDrained(env: Env, s: Server, items: seq<bytes>, rest: bytes)
    requires ModelOk(env.model) && forall x :: x in items ==> IsInline(x)
    ensures Drain(StepOf(env), s, BulkAll(items) + rest) == Drain(StepOf(env), s, rest)
  {
    if items == [] {
      assert BulkAll(items) + rest == rest;
    } else {
      assert items[0] in items;
      BulksDrained(env, s, items[1..], rest);
      BulkDrained(env, s, items[0], BulkAll(items[1..]) + rest);
      Assoc(Bulk(items[0]), BulkAll(items[1..]), rest);
    }
  }

  // ---------- Conversations ----------

  /** Requests printed one after the other. */
  function Spoken(talk: seq<seq<bytes>>): bytes {
    if talk == [] then [] else Request(talk[0]) + Spoken(talk[1..])
  }

  /** A request that is served: accepted, not fatal, its sizes in range, and no argument left over that would be
      taken for the start of another request. */
  ghost predicate Served(t: Text, args: seq<bytes>, w: World) {
    && args != [] && Fits(args) && Accepts(t, args) && !Fatal(t, args, w) && Countable32(t, args, w)
    && forall x :: x in args[Taken(t, args)..] ==> IsInline(x)
  }

  ghost predicate AllServed(t: Text, talk: seq<seq<bytes>>, w: World) {
    talk != [] ==> Served(t, talk[0], w) && AllServed(t, talk[1..], AfterRequest(t, talk[0], w))
  }

  function AfterTalk(t: Text, talk: seq<seq<bytes>>, w: World): World
    requires AllServed(t, talk, w)
  {
    if talk == [] then w else AfterTalk(t, talk[1..], AfterRequest(t, talk[0], w))
  }

  /** Reply i answers request i in the world the requests before it left. */
  ghost predicate AllAnswered(env: Env, talk: seq<seq<bytes>>, w: World, replies: seq<bytes>)
    requires ModelOk(env.model) && AllServed(env.text, talk, w)
  {
    && |replies| == |talk|
    && (talk != [] ==>
          && Answers(env, talk[0], w, replies[0])
          && AllAnswered(env, talk[1..], AfterRequest(env.text, talk[0], w), replies[1..]))
  }

  /** One request and what comes behind it. */
  lemma RequestDrained(env: Env, args: seq<bytes>, rest: bytes, s: Server, w: World)
    returns (after: Server, reply: bytes)
    requires ModelOk(env.model) && OrdersOk(env) && Stands(env, s, w) && Served(env.text, args, w)
    ensures Drain(StepOf(env), s, Request(args) + rest) == Prefixed(reply, Drain(StepOf(env), after, rest))
    ensures Stands(env, after, AfterRequest(env.text, args, w)) && Answers(env, args, w, reply)
  {
    var n := Taken(env.text, args);
    after, reply := RequestServed(env, args, rest, s, w);
    var head, items, others := RequestCut(args, n, n);
    assert BulkAll(items) == [];
    assert head + [] == head;
    Assoc(head, BulkAll(others), rest);
    DrainAfter(env, s, head, BulkAll(others) + rest, after, reply);
    BulksDrained(env, after, others, rest);
  }

  /** Every conversation, from any state the server can be in: requests of the table's form, in any number and
      cut into reads anyhow, are answered one by one as the table says, and the server ends in the world the
      table leaves, with nothing left unread. */
  lemma {:induction false} TalkDrained(env: Env, talk: seq<seq<bytes>>, s: Server, w: World)
    returns (replies: seq<bytes>)
    requires ModelOk(env.model) && OrdersOk(env) && Stands(env, s, w) && AllServed(env.text, talk, w)
    ensures AllAnswered(env, talk, w, replies)
    ensures var r := Drain(StepOf(env), s, Spoken(talk));
            r.alive && r.tail == [] && r.out == Concat(replies) && Stands(env, r.state, AfterTalk(env.text, talk, w))
    decreases |talk|
  {
    replies := [];
    if talk != [] {
      var after, reply := RequestDrained(env, talk[0], Spoken(talk[1..]), s, w);
      var later := TalkDrained(env, talk[1..], after, AfterRequest(env.text, talk[0], w));
      replies := [reply] + later;
      assert replies[1..] == later;
    }
  }

  lemma Conversation(env: Env, talk: seq<seq<bytes>>, cuts: seq<bytes>, s: Server, w: World)
    returns (replies: seq<bytes>)
    requires ModelOk(env.model) && OrdersOk(env) && Stands(env, s, w) && AllServed(env.text, talk, w)
    requires Concat(cuts) == Spoken(talk)
    ensures AllAnswered(env, talk, w, replies)
    ensures var r := Feed(StepOf(env), s, [], cuts);
            r.alive && r.tail == [] && r.out == Concat(replies) && Stands(env, r.state, AfterTalk(env.text, talk, w))
  {
    FragmentationIndependence(env, s, cuts);
    replies := TalkDrained(env, talk, s, w);
  }
}
