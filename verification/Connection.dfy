/** The server as it runs: the shared database, changed in place, and one client's connection with its
    read and write buffers. */
module Connection {
  import opened Bytes
  import opened Resp
  import opened Commands
  import opened HashEngine
  import opened Codec
  import opened Quantizer
  import opened VectorStore
  import opened Streaming
  import opened Server
  import opened Replay
  import opened History
  import Log

  class Database {
    const env: Env
    var db: map<bytes, Value>
    var vectors: LiveStore
    var merges: nat
    var sent: seq<Log.Entry>

    ghost function Contents(): Server
      reads this
    {
      Server(Data(db, vectors, merges), sent)
    }

    constructor (env: Env, start: Data)
      ensures this.env == env && Contents() == Server(start, [])
    {
      this.env := env;
      db, vectors, merges, sent := start.db, start.vectors, start.merges, [];
    }

    method Send(e: Log.Entry)
      modifies this`sent
      ensures sent == if env.persist then old(sent) + [e] else old(sent)
    {
      if env.persist {
        sent := sent + [e];
      }
    }

    /** One chunk is stored inline, more as a list. */
    static method Wrap(idx: ExpertIndex, chunks: seq<Chunk>, len: nat) returns (v: Value)
      ensures v == Stored(idx, chunks, len)
    {
      if |chunks| == 1 {
        v := Single(idx, chunks[0], len);
      } else {
        v := Multi(len, idx, chunks);
      }
    }

    method SetValue(key: bytes, val: bytes)
      requires ModelOk(env.model) && env.text.utf8(key)
      modifies this
      ensures Contents() == After(env, old(Contents()), Put(key, val, true))
    {
      var idx, chunks := EncodeCascade(env.model, val);
      var v := Wrap(idx, chunks, |val|);
      db := db[key := v];
      Send(Log.Set(key, val));
    }

    method Delete(key: bytes) returns (found: bool)
      requires ModelOk(env.model)
      modifies this
      ensures found == (key in old(db)) && Contents() == After(env, old(Contents()), Remove(key))
    {
      found := key in db;
      db := db - {key};
      Send(Log.Del(key));
    }

    method Flush()
      requires ModelOk(env.model)
      modifies this
      ensures Contents() == After(env, old(Contents()), Reset)
    {
      db := map[];
      vectors := ClearVectors(vectors);
      Send(Log.FlushDb);
    }

    method SetFields(key: bytes, fields: seq<Field>)
      requires ModelOk(env.model)
      modifies this
      ensures Contents() == After(env, old(Contents()), Override(key, fields))
    {
      var buf;
      if key in db && db[key].FlatHash? {
        buf := MergeBuffers(env.order(merges), db[key].buf, fields);
      } else {
        buf := Serialize(fields);
      }
      db := db[key := FlatHash(buf)];
      merges := merges + 1;
      Send(Log.HmSet(key, fields));
    }

    method AddVectorOf(key: bytes, floats: seq<F32>)
      requires ModelOk(env.model)
      modifies this
      ensures Contents() == After(env, old(Contents()), Insert(key, floats))
    {
      var bits := QuantizeBytewise(floats, vectors.dim);
      AddKeepsOk(vectors, key, bits, floats);
      vectors := Add(vectors, key, bits, floats);
      Send(Log.VAdd(key, floats));
    }

    /** One pair of an MSET; a key that is not UTF-8 is stored but not logged. */
    method SetRaw(key: bytes, val: bytes)
      requires ModelOk(env.model)
      modifies this
      ensures Contents() == After(env, old(Contents()), Put(key, val, false))
    {
      var idx, chunks := EncodeRaw(env.model, val);
      var v := Wrap(idx, chunks, |val|);
      db := db[key := v];
      if env.text.utf8(key) {
        Send(Log.Set(key, val));
      }
    }

    /** An MSET's pairs, one after the other. */
    method SetMany(items: seq<bytes>)
      requires ModelOk(env.model) && |items| % 2 == 0
      modifies this
      ensures Contents() == AfterAll(env, old(Contents()), Puts(items))
    {
      var i := 0;
      ghost var start, now, done := Contents(), Contents(), [];
      while i < |items|
        invariant i <= |items| && i % 2 == 0 && done == Puts(items[..i])
        invariant Contents() == now && now == AfterAll(env, start, done)
      {
        PutsNext(items, i);
        AfterLast(env, start, done, Put(items[i], items[i + 1], false));
        SetRaw(items[i], items[i + 1]);
        now, done := Contents(), Puts(items[..i + 2]);
        i := i + 2;
      }
      assert items[..|items|] == items;
    }

    method ReplyGet(key: bytes) returns (r: bytes)
      requires ModelOk(env.model)
      ensures r == GetReply(env.model, db, key)
    {
      if key !in db {
        return NULL;
      }
      match db[key] {
        case Single(idx, data, len) =>
          var full := DecodeCascade(env.model, idx, [data], len);
          r := Sized(len, full);
        case Multi(len, idx, chunks) =>
          var full := DecodeCascade(env.model, idx, chunks, len);
          r := Sized(len, full);
        case FlatHash(_) =>
          r := WRONG_TYPE;
      }
    }

    method ReplyMGetOne(key: bytes) returns (r: bytes)
      requires ModelOk(env.model)
      ensures r == MGetReply(env.model, db, key)
    {
      if key !in db {
        return NULL;
      }
      var full, len := [], 0;
      match db[key] {
        case Single(idx, data, n) =>
          full := DecodeRaw(env.model, idx, [data], n);
          len := n;
        case Multi(n, idx, chunks) =>
          full := DecodeRaw(env.model, idx, chunks, n);
          len := n;
        case FlatHash(_) =>
      }
      r := if len > 0 then Sized(len, full) else NULL;
    }

    method ReplyMGet(keys: seq<bytes>) returns (r: bytes)
      requires ModelOk(env.model)
      ensures r == Size('*', |keys|) + MGetReplies(env.model, db, keys)
    {
      var head := Size('*', |keys|);
      r := head;
      for i := 0 to |keys|
        invariant r == head + MGetReplies(env.model, db, keys[..i])
      {
        var one := ReplyMGetOne(keys[i]);
        MGetNext(env.model, db, keys, i);
        AppendedTwice(head, MGetReplies(env.model, db, keys[..i]), one);
        r := r + one;
      }
      assert keys[..|keys|] == keys;
    }

    method ReplyHGetAll(key: bytes) returns (r: bytes)
      ensures r == HashAnswer(db, key)
    {
      if key !in db {
        return "*0\r\n";
      }
      if db[key].FlatHash? {
        r := DeserializeIntoResp(db[key].buf, []);
      } else {
        r := WRONG_TYPE;
      }
    }

    static method AppendResult(r: bytes, result: (bytes, int)) returns (more: bytes)
      ensures more == r + SearchResult(result)
    {
      more := r + Bulk(result.0);
      more := more + IntReply(result.1);
    }

    method ReplyVSearch(k: nat, floats: seq<F32>) returns (r: bytes)
      ensures r == SearchAnswer(env.search(vectors, floats, k))
    {
      var results := env.search(vectors, floats, k);
      var head := Size('*', 2 * |results|);
      r := head;
      for i := 0 to |results|
        invariant r == head + SearchResults(results[..i])
      {
        ResultsNext(head, results, i);
        r := AppendResult(r, results[i]);
      }
      assert results[..|results|] == results;
    }

    /** The commands that change something. */
    static predicate Writes(cmd: Command) {
      cmd.Set? || cmd.Del? || cmd.MSetHeader? || cmd.FlushDb? || cmd.HmSet? || cmd.VAdd?
    }

    method ExecuteWrite(cmd: Command, items: seq<bytes>) returns (reply: bytes)
      requires ModelOk(env.model) && Writes(cmd) && |items| == Asked(cmd) && (cmd.Set? ==> env.text.utf8(cmd.key))
      modifies this
      ensures Contents() == AfterAll(env, old(Contents()), Changes(cmd, items))
      ensures reply == Reply(env, old(Contents()).data, cmd, items)
    {
      reply := OK;
      if cmd.MSetHeader? {
        SetMany(items);
        return;
      }
      AfterOne(env, Contents(), Changes(cmd, items)[0]);
      match cmd {
        case Set(key, val) => SetValue(key, val);
        case Del(key) =>
          var found := Delete(key);
          reply := IntReply(if found then 1 else 0);
        case FlushDb => Flush();
        case HmSet(key, fields) => SetFields(key, fields);
        case VAdd(key, floats) => AddVectorOf(key, floats);
      }
    }

    method ExecuteRead(cmd: Command, items: seq<bytes>) returns (reply: bytes)
      requires ModelOk(env.model) && !Writes(cmd) && |items| == Asked(cmd)
      ensures reply == Reply(env, Contents().data, cmd, items)
    {
      match cmd {
        case Ping => reply := "+PONG\r\n";
        case Get(key) => reply := ReplyGet(key);
        case Exists(key) => reply := IntReply(if key in db then 1 else 0);
        case MGetHeader(_) => reply := ReplyMGet(items);
        case Select(_) => reply := OK;
        case Info => reply := Bulk(INFO_TEXT);
        case HGetAll(key) => reply := ReplyHGetAll(key);
        case ZAdd(_) => reply := ":1\r\n";
        case VSearch(k, floats) => reply := ReplyVSearch(k, floats);
        case Unknown(_) => reply := "*0\r\n";
        case Save | BgSave => reply := "-ERR unhandled\r\n";
      }
    }

    /** Carries out one command and answers it. */
    method Execute(cmd: Command, items: seq<bytes>) returns (reply: bytes)
      requires ModelOk(env.model) && |items| == Asked(cmd) && (cmd.Set? ==> env.text.utf8(cmd.key))
      modifies this
      ensures Contents() == Handled(env, old(Contents()), cmd, items)
      ensures reply == Reply(env, old(Contents()).data, cmd, items)
    {
      if Writes(cmd) {
        reply := ExecuteWrite(cmd, items);
      } else {
        reply := ExecuteRead(cmd, items);
      }
    }
  }

  lemma MGetNext(m: Model, db: map<bytes, Value>, keys: seq<bytes>, i: nat)
    requires ModelOk(m) && i < |keys|
    ensures MGetReplies(m, db, keys[..i + 1]) == MGetReplies(m, db, keys[..i]) + MGetReply(m, db, keys[i])
  {
    assert keys[..i + 1][..i] == keys[..i];
  }

  lemma ResultsNext(head: bytes, results: seq<(bytes, int)>, i: nat)
    requires i < |results|
    ensures head + SearchResults(results[..i + 1]) == head + SearchResults(results[..i]) + SearchResult(results[i])
  {
    assert results[..i + 1][..i] == results[..i];
  }

  lemma AfterOne(env: Env, s: Server, c: Change)
    requires ModelOk(env.model)
    ensures AfterAll(env, s, [c]) == After(env, s, c)
  {
  }

  lemma PutsNext(items: seq<bytes>, i: nat)
    requires i + 2 <= |items|
    ensures Puts(items[..i + 2]) == Puts(items[..i]) + [Put(items[i], items[i + 1], false)]
  {
    assert items[..i + 2][..i] == items[..i];
  }

  lemma AfterLast(env: Env, s: Server, changes: seq<Change>, c: Change)
    requires ModelOk(env.model)
    ensures AfterAll(env, s, changes + [c]) == After(env, AfterAll(env, s, changes), c)
  {
    assert (changes + [c])[..|changes|] == changes;
  }

  lemma {:induction false} AfterConcat(env: Env, s: Server, a: seq<Change>, b: seq<Change>)
    requires ModelOk(env.model)
    ensures AfterAll(env, AfterAll(env, s, a), b) == AfterAll(env, s, a + b)
  {
    if b == [] {
      assert a + b == a;
    } else {
      assert (a + b)[..|a + b| - 1] == a + b[..|b| - 1];
      AfterConcat(env, s, a, b[..|b| - 1]);
    }
  }

  // ---------- Start-up replay ----------

  /** One parsed command of the log; those that are never logged are passed over. */
  method ReplayCommand(shared: Database, cmd: Command)
    requires ModelOk(shared.env.model) && (cmd.Set? ==> shared.env.text.utf8(cmd.key))
    modifies shared
    ensures shared.Contents() == AfterAll(shared.env, old(shared.Contents()), Changes(cmd, []))
  {
    if Database.Writes(cmd) && !cmd.MSetHeader? {
      var reply := shared.ExecuteWrite(cmd, []);
    }
  }

  lemma SetKeysAreText(t: Text, buf: bytes)
    requires ParseCommand(t, buf).Parsed?
    ensures var cmd := ParseCommand(t, buf).value; cmd.Set? ==> t.utf8(cmd.key)
  {
  }

  /** A stand-in for the look at the front of a file. */
  ghost predicate LooksLike(front: bytes -> Found, t: Text) {
    forall data: bytes {:trigger Front(t, data)} :: front(data) == Front(t, data)
  }

  /** One position of the file: a command that parses is carried out, anything else is one byte skipped. */
  method ReplayAt(shared: Database, file: bytes, pos: nat, ghost front: bytes -> Found) returns (next: nat)
    requires ModelOk(shared.env.model) && pos < |file| && LooksLike(front, shared.env.text)
    modifies shared
    ensures next == pos + front(file[pos..]).len && pos < next <= |file|
    ensures shared.Contents() == AfterAll(shared.env, old(shared.Contents()), front(file[pos..]).changes)
  {
    ghost var found := Front(shared.env.text, file[pos..]);
    next := pos + 1;
    if file[pos] == '*' {
      var parsed := ParseCommandFast(shared.env.text, file[pos..]);
      if parsed.Parsed? {
        SetKeysAreText(shared.env.text, file[pos..]);
        ReplayCommand(shared, parsed.value);
        next := pos + parsed.len;
      }
    }
  }

  lemma CollectedNext(front: bytes -> Found, file: bytes, pos: nat, next: nat, done: seq<Change>,
                      all: seq<Change>) returns (later: seq<Change>)
    requires pos < next <= |file| && next == pos + front(file[pos..]).len
    requires all == done + Collected(front, file[pos..])
    ensures later == done + front(file[pos..]).changes && all == later + Collected(front, file[next..])
  {
    var rest, found := file[pos..], front(file[pos..]);
    assert rest[found.len..] == file[next..];
    assert Collected(front, rest) == found.changes + Collected(front, file[next..]);
    later := done + found.changes;
  }

  /** The start-up loop over the file's bytes; there is no persistence channel yet. */
  method ReplayFile(shared: Database, file: bytes)
    requires ModelOk(shared.env.model) && !shared.env.persist
    modifies shared
    ensures shared.Contents() == AfterAll(shared.env, old(shared.Contents()), Decoded(shared.env.text, file))
  {
    var t := shared.env.text;
    ReplayAll(shared, file, data => Front(t, data));
  }

  method ReplayAll(shared: Database, file: bytes, ghost front: bytes -> Found)
    requires ModelOk(shared.env.model) && !shared.env.persist && LooksLike(front, shared.env.text) && front([]).len == 0
    modifies shared
    ensures shared.Contents() == AfterAll(shared.env, old(shared.Contents()), Collected(front, file))
  {
    var pos := 0;
    ghost var start, now, done, all := shared.Contents(), shared.Contents(), [], Collected(front, file);
    assert file[0..] == file;
    while pos < |file|
      invariant pos <= |file| && all == done + Collected(front, file[pos..])
      invariant shared.Contents() == now && now == AfterAll(shared.env, start, done)
    {
      AfterConcat(shared.env, start, done, front(file[pos..]).changes);
      var next := ReplayAt(shared, file, pos, front);
      done := CollectedNext(front, file, pos, next, done, all);
      now, pos := shared.Contents(), next;
    }
    assert file[pos..] == [];
    assert done == all;
  }

  // ---------- One client ----------

  /** The write buffer is sent once it is longer than this. */
  const FLUSH_LIMIT: nat := 524288

  /** How one pass over the read buffer ended. */
  datatype Verdict = Moved(next: nat) | Stuck | Died

  /** A pass did what the step function says. */
  ghost predicate Follows(o: Outcome<Server>, v: Verdict, pos: nat, was: Server, now: Server, reply: bytes) {
    match o
    case Done(state, answer, next) => v == Moved(pos + next) && now == state && reply == answer
    case Wait => v == Stuck && now == was && reply == []
    case Crash => v == Died && now == was && reply == []
  }

  method FindLineEnd(buf: bytes, pos: nat) returns (end: nat)
    requires pos <= |buf|
    ensures end == pos + LineEnd(buf[pos..], 0)
  {
    end := pos;
    ghost var rest := buf[pos..];
    while end < |buf| && buf[end] != '\n'
      invariant pos <= end <= |buf| && LineEnd(rest, 0) == LineEnd(rest, end - pos)
    {
      end := end + 1;
    }
  }

  /** The arguments the dispatcher reads itself. */
  method ArgsAt(buf: bytes, pos: nat, consumed: nat, n: nat) returns (r: Parse<seq<bytes>>)
    requires pos + consumed <= |buf|
    ensures r == ParseBulks(buf[pos..], consumed, n) && (r.Parsed? ==> |r.value| == n)
  {
    BulksShift(buf, pos, consumed, n);
    r := ParseBulksAt(buf, pos + consumed, n);
  }

  method DispatchAt(shared: Database, buf: bytes, pos: nat, cmd: Command, consumed: nat)
    returns (v: Verdict, reply: bytes)
    requires ModelOk(shared.env.model) && pos + consumed <= |buf| && (cmd.Set? ==> shared.env.text.utf8(cmd.key))
    modifies shared
    ensures Follows(Dispatch(shared.env, old(shared.Contents()), cmd, buf[pos..], consumed), v, pos,
                    old(shared.Contents()), shared.Contents(), reply)
  {
    var args := ArgsAt(buf, pos, consumed, Asked(cmd));
    if args.NoParse? {
      return Stuck, [];
    }
    if cmd.VSearch? && cmd.k == 0 && TotalVectors(shared.vectors.shards) > 0 {
      return Died, [];
    }
    reply := shared.Execute(cmd, args.value);
    v := Moved(pos + consumed + args.len);
  }

  /** A stand-in for the step function. */
  ghost predicate StepsLike(step: Stepper<Server>, env: Env)
    requires ModelOk(env.model)
  {
    forall s: Server, buf: bytes {:trigger Step(env, s, buf)} :: buf != [] ==> step(s, buf) == Step(env, s, buf)
  }

  /** One pass of the inner loop at position pos. */
  method Pass(shared: Database, buf: bytes, pos: nat, ghost step: Stepper<Server>) returns (v: Verdict, reply: bytes)
    requires ModelOk(shared.env.model) && pos < |buf| && StepsLike(step, shared.env)
    modifies shared
    ensures Follows(step(old(shared.Contents()), buf[pos..]), v, pos, old(shared.Contents()), shared.Contents(), reply)
    ensures v.Moved? ==> pos < v.next <= |buf|
  {
    reply := [];
    ghost var want := Step(shared.env, shared.Contents(), buf[pos..]);
    if buf[pos] == '*' {
      var parsed := ParseCommandFast(shared.env.text, buf[pos..]);
      if parsed.NoParse? {
        return Stuck, [];
      }
      SetKeysAreText(shared.env.text, buf[pos..]);
      v, reply := DispatchAt(shared, buf, pos, parsed.value, parsed.len);
    } else {
      var end := FindLineEnd(buf, pos);
      v := if end < |buf| then Moved(end + 1) else Stuck;
    }
  }

  /** How a pass moves the loop on: what is still to be drained after it. */
  lemma DrainNext(step: Stepper<Server>, s: Server, t: Server, buf: bytes, pos: nat, v: Verdict,
                  reply: bytes, out: bytes, want: Drained<Server>)
    requires pos < |buf| && want == Prefixed(out, Drain(step, s, buf[pos..]))
    requires Follows(step(s, buf[pos..]), v, pos, s, t, reply) && (v.Moved? ==> pos < v.next <= |buf|)
    ensures v.Moved? ==> want == Prefixed(out + reply, Drain(step, t, buf[v.next..]))
    ensures v.Stuck? ==> want == Drained(t, out, buf[pos..], true)
    ensures v.Died? ==> want == Drained(t, out, [], false)
  {
  }

  lemma AppendedTwice(a: bytes, b: bytes, c: bytes)
    ensures a + b + c == a + (b + c)
    ensures a + [] == a && [] + a == a
  {
  }

  class Client {
    const shared: Database
    var readBuffer: bytes
    var writeBuffer: bytes
    var socket: bytes  // everything written to the socket
    var alive: bool

    constructor (shared: Database)
      ensures this.shared == shared && readBuffer == writeBuffer == socket == [] && alive
    {
      this.shared := shared;
      readBuffer, writeBuffer, socket, alive := [], [], [], true;
    }

    method FlushOver(limit: int)
      modifies this`writeBuffer, this`socket
      ensures socket + writeBuffer == old(socket) + old(writeBuffer)
      ensures |writeBuffer| <= (if limit > 0 then limit else 0)
    {
      if |writeBuffer| > limit {
        socket := socket + writeBuffer;
        writeBuffer := [];
      }
    }

    method Answer(reply: bytes)
      modifies this`writeBuffer, this`socket
      ensures socket + writeBuffer == old(socket + writeBuffer) + reply && |writeBuffer| <= 524288
    {
      ghost var before := socket + writeBuffer;
      writeBuffer := writeBuffer + reply;
      assert socket + writeBuffer == before + reply;
      FlushOver(FLUSH_LIMIT);
    }

    /** One read and the passes over the buffer it allows. A crash loses what was not yet sent. */
    method Receive(chunk: bytes)
      requires ModelOk(shared.env.model) && alive && writeBuffer == []
      modifies this, shared
      ensures var r := Drain(StepOf(shared.env), old(shared.Contents()), old(readBuffer) + chunk);
              && shared.Contents() == r.state && alive == r.alive
              && socket + writeBuffer == old(socket) + r.out
              && (alive ==> readBuffer == r.tail && writeBuffer == [])
    {
      readBuffer := readBuffer + chunk;
      HandleAll(StepOf(shared.env));
    }

    method HandleAll(ghost step: Stepper<Server>)
      requires ModelOk(shared.env.model) && alive && writeBuffer == [] && StepsLike(step, shared.env)
      modifies this, shared
      ensures var r := Drain(step, old(shared.Contents()), old(readBuffer));
              && shared.Contents() == r.state && alive == r.alive
              && socket + writeBuffer == old(socket) + r.out
              && (alive ==> readBuffer == r.tail && writeBuffer == [])
    {
      var pos := 0;
      var buf := readBuffer;
      ghost var start, out: bytes, now, want := socket, [], shared.Contents(), Drain(step, shared.Contents(), buf);
      AppendedTwice(want.out, [], []);
      AppendedTwice(start, [], []);
      assert buf[0..] == buf;
      while pos < |buf|
        invariant pos <= |buf| && alive && readBuffer == buf && now == shared.Contents()
        invariant socket + writeBuffer == start + out
        invariant want == Prefixed(out, Drain(step, now, buf[pos..]))
      {
        var v, reply := Pass(shared, buf, pos, step);
        DrainNext(step, now, shared.Contents(), buf, pos, v, reply, out, want);
        if v.Died? {
          alive := false;
          return;
        }
        if v.Stuck? {
          readBuffer := buf[pos..];
          FlushOver(0);
          return;
        }
        AppendedTwice(start, out, reply);
        Answer(reply);
        now, out, pos := shared.Contents(), out + reply, v.next;
      }
      readBuffer := buf[pos..];
      AppendedTwice(out, [], []);
      FlushOver(0);
    }
  }
}
