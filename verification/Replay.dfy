/** Start-up replay of the append-only log, and that it rebuilds the live state. */
module Replay {
  import opened Bytes
  import opened Resp
  import opened Commands
  import opened HashEngine
  import opened Codec
  import opened VectorStore
  import opened Server
  import opened KeyValue
  import Log

  /** A log: the entries printed one after the other. */
  function Printed(t: Text, entries: seq<Log.Entry>): bytes {
    if entries == [] then [] else Log.ToResp(t, entries[0]) + Printed(t, entries[1..])
  }

  /** The change an entry was logged for, as replay makes it. */
  function AsChange(e: Log.Entry): Change {
    match e
    case Set(key, val) => Put(key, val, true)
    case Del(key) => Remove(key)
    case HmSet(key, fields) => Override(key, fields)
    case VAdd(key, floats) => Insert(key, floats)
    case FlushDb => Reset
  }

  function AsChanges(entries: seq<Log.Entry>): (r: seq<Change>)
    ensures |r| == |entries|
  {
    seq(|entries|, i requires 0 <= i < |entries| => AsChange(entries[i]))
  }

  /** What replay finds at the front of a file and how many bytes it moves on. */
  datatype Found = Found(changes: seq<Change>, len: nat)

  /** A command that parses, or one byte to skip. */
  function Front(t: Text, data: bytes): (r: Found)
    ensures data != [] ==> 0 < r.len <= |data|
  {
    if data == [] then Found([], 0)
    else if data[0] == '*' && ParseCommand(t, data).Parsed? then
      Found(Changes(ParseCommand(t, data).value, []), ParseCommand(t, data).len)
    else Found([], 1)
  }

  /** The changes found from front to back, for any way of looking at the front. */
  function Collected(front: bytes -> Found, data: bytes): seq<Change>
    decreases |data|
  {
    if !(0 < front(data).len <= |data|) then [] else front(data).changes + Collected(front, data[front(data).len..])
  }

  /** The changes found in a file. */
  function Decoded(t: Text, data: bytes): seq<Change> {
    Collected(d => Front(t, d), data)
  }

  // ---------- Reading the log back ----------

  ghost predicate LogOk(t: Text, entries: seq<Log.Entry>) {
    forall e :: e in entries ==> Log.EntryOk(t, e) && Log.Readable(e)
  }

  lemma CommandDecoded(t: Text, data: bytes, cmd: Command, rest: bytes, len: nat)
    requires data != [] && data[0] == '*' && ParseCommand(t, data) == Parsed(cmd, len) && data[len..] == rest
    ensures Decoded(t, data) == Changes(cmd, []) + Decoded(t, rest)
  {
  }

  lemma EntryChanges(e: Log.Entry)
    ensures Changes(Log.AsCommand(e), []) == [AsChange(e)]
  {
  }

  lemma RequestStarts(args: seq<bytes>)
    ensures Request(args) != [] && Request(args)[0] == '*'
  {
  }

  lemma FirstDecoded(t: Text, e: Log.Entry, rest: bytes)
    requires VerbsOk(t) && Log.EntryOk(t, e) && Log.Readable(e)
    ensures Decoded(t, Log.ToResp(t, e) + rest) == [AsChange(e)] + Decoded(t, rest)
  {
    var printed := Log.ToResp(t, e);
    RequestStarts(Log.Args(t, e));
    PrefixDrops(printed, rest);
    Log.EntryRoundTrip(t, e, rest);
    CommandDecoded(t, printed + rest, Log.AsCommand(e), rest, |printed|);
    EntryChanges(e);
  }

  lemma PrefixDrops(a: bytes, b: bytes)
    requires a != []
    ensures (a + b)[|a|..] == b && (a + b)[0] == a[0]
  {
  }

  lemma FirstOfLog(t: Text, entries: seq<Log.Entry>, e: Log.Entry, later: seq<Log.Entry>, rest: bytes)
    requires VerbsOk(t) && entries == [e] + later && Log.EntryOk(t, e) && Log.Readable(e)
    ensures Decoded(t, Printed(t, entries) + rest) == [AsChange(e)] + Decoded(t, Printed(t, later) + rest)
  {
    assert entries[1..] == later;
    var printed, others := Log.ToResp(t, e), Printed(t, later);
    assert printed + others + rest == printed + (others + rest);
    FirstDecoded(t, e, others + rest);
  }

  lemma BytesAssoc(a: bytes, b: bytes, c: bytes)
    ensures a + b + c == a + (b + c)
  {
  }

  lemma ChangesAssoc(a: seq<Change>, b: seq<Change>, c: seq<Change>)
    ensures a + b + c == a + (b + c)
  {
  }

  lemma ConsChanges(e: Log.Entry, later: seq<Log.Entry>, changes: seq<Change>)
    requires changes == AsChanges(later)
    ensures AsChanges([e] + later) == [AsChange(e)] + changes
  {
    AsChangesConcat([e], later);
  }

  lemma LogStep(t: Text, entries: seq<Log.Entry>, e: Log.Entry, later: seq<Log.Entry>, rest: bytes,
                changes: seq<Change>, behind: seq<Change>)
    requires VerbsOk(t) && entries == [e] + later && Log.EntryOk(t, e) && Log.Readable(e)
    requires changes == AsChanges(later) && Decoded(t, Printed(t, later) + rest) == changes + behind
    ensures Decoded(t, Printed(t, entries) + rest) == AsChanges(entries) + behind
  {
    FirstOfLog(t, entries, e, later, rest);
    ConsChanges(e, later, changes);
    ChangesAssoc([AsChange(e)], changes, behind);
  }

  /** Replaying a log with anything behind it decodes exactly the entries written, and then what is behind. */
  lemma {:induction false} LogThenMore(t: Text, entries: seq<Log.Entry>, rest: bytes)
    requires VerbsOk(t) && LogOk(t, entries)
    ensures Decoded(t, Printed(t, entries) + rest) == AsChanges(entries) + Decoded(t, rest)
  {
    if entries == [] {
      assert Printed(t, entries) + rest == rest;
    } else {
      var e, later := entries[0], entries[1..];
      assert entries == [e] + later && e in entries;
      LogThenMore(t, later, rest);
      LogStep(t, entries, e, later, rest, AsChanges(later), Decoded(t, rest));
    }
  }

  /** Replaying a log decodes exactly the entries written to it. */
  lemma LogDecodes(t: Text, entries: seq<Log.Entry>)
    requires VerbsOk(t) && LogOk(t, entries)
    ensures Decoded(t, Printed(t, entries)) == AsChanges(entries)
  {
    LogThenMore(t, entries, []);
    assert Printed(t, entries) + [] == Printed(t, entries);
    assert Decoded(t, []) == [];
  }

  // ---------- What is not a command ----------

  /** Where no command parses, one byte is passed over. */
  lemma ByteSkipped(t: Text, data: bytes)
    requires data != [] && (data[0] != '*' || ParseCommand(t, data).NoParse?)
    ensures Decoded(t, data) == Decoded(t, data[1..])
  {
  }

  /** Bytes that start no command are passed over, however many there are. */
  lemma {:induction false} JunkSkipped(t: Text, junk: bytes, data: bytes)
    requires '*' !in junk
    ensures Decoded(t, junk + data) == Decoded(t, data)
  {
    if junk == [] {
      assert junk + data == data;
    } else {
      assert (junk + data)[1..] == junk[1..] + data && junk[0] in junk;
      ByteSkipped(t, junk + data);
      JunkSkipped(t, junk[1..], data);
    }
  }

  lemma PrefixRefused(t: Text, torn: bytes, whole: bytes)
    requires torn < whole && ParseCommand(t, whole).Parsed? && ParseCommand(t, whole).len == |whole|
    ensures ParseCommand(t, torn).NoParse?
  {
    var more := whole[|torn|..];
    assert torn + more == whole;
    if ParseCommand(t, torn).Parsed? {
      CommandStable(t, torn, more);
    }
  }

  /** The beginning of an entry, cut off before its end, is no command. */
  lemma TornIsNone(t: Text, e: Log.Entry, torn: bytes)
    requires VerbsOk(t) && Log.EntryOk(t, e) && Log.Readable(e) && torn < Log.ToResp(t, e)
    ensures ParseCommand(t, torn).NoParse?
  {
    var whole := Log.ToResp(t, e);
    Log.EntryRoundTrip(t, e, []);
    assert whole + [] == whole;
    PrefixRefused(t, torn, whole);
  }

  /** It adds nothing, unless its text holds what may start a command. */
  lemma TornSkipped(t: Text, e: Log.Entry, torn: bytes)
    requires VerbsOk(t) && Log.EntryOk(t, e) && Log.Readable(e) && torn < Log.ToResp(t, e)
    requires torn != [] ==> '*' !in torn[1..]
    ensures Decoded(t, torn) == []
  {
    if torn != [] {
      TornIsNone(t, e, torn);
      ByteSkipped(t, torn);
      JunkSkipped(t, torn[1..], []);
      assert torn[1..] + [] == torn[1..];
    }
  }

  /** The printed FLUSHDB, and a SET of it up to the end of the value. */
  const FLUSH: bytes := "*1\r\n$7\r\nFLUSHDB\r\n"
  const SET_FLUSH: bytes := "*3\r\n$3\r\nSET\r\n" + "$1\r\nk\r\n" + "$17\r\n"

  lemma FlushPrints(t: Text)
    ensures Log.ToResp(t, Log.FlushDb) == FLUSH && |FLUSH| == 17
  {
    Log.Heads();
  }

  lemma SetFlushPrints(t: Text)
    ensures Log.ToResp(t, Log.Set("k", FLUSH)) == SET_FLUSH + FLUSH + CRLF
  {
    Log.Heads();
    var verb, key, val: bytes := "SET", "k", FLUSH;
    assert [verb] + [key] + [val] == Log.Args(t, Log.Set("k", FLUSH));
    Log.BulkSnoc(Size('*', 3), [verb], key);
    Log.BulkSnoc(Size('*', 3), [verb] + [key], val);
    KeyPrints();
    FlushValuePrints();
  }

  lemma KeyPrints()
    ensures Bulk("k") == "$1\r\nk\r\n"
  {
  }

  lemma FlushValuePrints()
    ensures Bulk(FLUSH) == "$17\r\n" + FLUSH + CRLF
  {
    assert Decimal(17) == "17";
  }

  lemma SetFlushStarts()
    ensures SET_FLUSH != [] && '*' !in SET_FLUSH[1..]
  {
  }

  /** A value that is itself a printed entry is carried out when the entry around it is torn behind it. */
  lemma TornCarriesOut(t: Text)
    requires VerbsOk(t) && t.utf8("k")
    ensures Log.EntryOk(t, Log.Set("k", FLUSH)) && SET_FLUSH + FLUSH < Log.ToResp(t, Log.Set("k", FLUSH))
    ensures Decoded(t, SET_FLUSH + FLUSH) == [Reset]
  {
    SetFlushPrints(t);
    FlushPrints(t);
    SetFlushStarts();
    TornIsNone(t, Log.Set("k", FLUSH), SET_FLUSH + FLUSH);
    FlushBehind(t, SET_FLUSH, FLUSH);
  }

  lemma FlushAlone(t: Text, flush: bytes)
    requires VerbsOk(t) && flush == Log.ToResp(t, Log.FlushDb)
    ensures Decoded(t, flush) == [Reset]
  {
    FirstDecoded(t, Log.FlushDb, []);
    assert flush + [] == flush && Decoded(t, []) == [];
  }

  lemma FlushBehind(t: Text, head: bytes, flush: bytes)
    requires VerbsOk(t) && flush == Log.ToResp(t, Log.FlushDb)
    requires head != [] && '*' !in head[1..] && ParseCommand(t, head + flush).NoParse?
    ensures Decoded(t, head + flush) == [Reset]
  {
    var junk := head[1..];
    assert (head + flush)[1..] == junk + flush;
    ByteSkipped(t, head + flush);
    JunkSkipped(t, junk, flush);
    FlushAlone(t, flush);
  }

  lemma AsChangesConcat(a: seq<Log.Entry>, b: seq<Log.Entry>)
    ensures AsChanges(a + b) == AsChanges(a) + AsChanges(b)
    ensures forall e :: a == [e] ==> AsChanges(a) == [AsChange(e)]
  {
  }

  lemma {:induction false} PrintedConcat(t: Text, a: seq<Log.Entry>, b: seq<Log.Entry>)
    ensures Printed(t, a + b) == Printed(t, a) + Printed(t, b)
  {
    if a == [] {
      assert a + b == b;
    } else {
      assert (a + b)[1..] == a[1..] + b;
      PrintedConcat(t, a[1..], b);
    }
  }

  // ---------- Live against replayed ----------

  function Recoded(p: Plain): Plain {
    if p.Str? then Str(p.text, true) else p
  }

  /** What the log remembers of the contents: the keys that are UTF-8, with every string as if SET. */
  function Remembered(t: Text, kv: Content): Content {
    map k | k in kv && t.utf8(k) :: Recoded(kv[k])
  }

  ghost predicate ChangeLogs(t: Text, c: Change) {
    LogOk(t, Logged(t, c))
  }

  lemma OneRemembered(t: Text, kv: Content, c: Change)
    requires ChangeLogs(t, c)
    ensures Logged(t, c) == [] ==> Remembered(t, Next(kv, c)) == Remembered(t, kv)
    ensures Logged(t, c) != [] ==>
              |Logged(t, c)| == 1 && Remembered(t, Next(kv, c)) == Next(Remembered(t, kv), AsChange(Logged(t, c)[0]))
  {
    var log := Logged(t, c);
    if log != [] {
      assert log[0] in log;
    }
  }

  /** Remembering a history's contents is replaying its log on what was remembered before. */
  lemma {:induction false} HistoryRemembered(t: Text, kv: Content, changes: seq<Change>)
    requires forall c :: c in changes ==> ChangeLogs(t, c)
    ensures Remembered(t, NextAll(kv, changes)) == NextAll(Remembered(t, kv), AsChanges(LoggedAll(t, changes)))
  {
    if changes != [] {
      var front, c := changes[..|changes| - 1], changes[|changes| - 1];
      assert c in changes;
      HistoryRemembered(t, kv, front);
      OneRemembered(t, NextAll(kv, front), c);
      ReplayedNext(Remembered(t, kv), LoggedAll(t, front), Logged(t, c));
    }
  }

  lemma ReplayedNext(kv: Content, entries: seq<Log.Entry>, last: seq<Log.Entry>)
    requires |last| <= 1
    ensures NextAll(kv, AsChanges(entries + last))
         == if last == [] then NextAll(kv, AsChanges(entries))
            else Next(NextAll(kv, AsChanges(entries)), AsChange(last[0]))
  {
    if last == [] {
      assert entries + last == entries;
    } else {
      assert last == [last[0]];
      AsChangesConcat(entries, last);
    }
  }

  /** The store after a history of changes. */
  function VectorsAfter(s: LiveStore, changes: seq<Change>): LiveStore {
    if changes == [] then s else ChangeVectors(VectorsAfter(s, changes[..|changes| - 1]), changes[|changes| - 1])
  }

  lemma {:induction false} ApplyAllVectors(env: Env, d: Data, changes: seq<Change>)
    requires ModelOk(env.model)
    ensures ApplyAll(env, d, changes).vectors == VectorsAfter(d.vectors, changes)
  {
    if changes != [] {
      ApplyAllVectors(env, d, changes[..|changes| - 1]);
    }
  }

  lemma VectorsNext(s: LiveStore, entries: seq<Log.Entry>, last: seq<Log.Entry>)
    requires |last| <= 1
    ensures VectorsAfter(s, AsChanges(entries + last))
         == if last == [] then VectorsAfter(s, AsChanges(entries))
            else ChangeVectors(VectorsAfter(s, AsChanges(entries)), AsChange(last[0]))
  {
    if last == [] {
      assert entries + last == entries;
    } else {
      assert last == [last[0]];
      AsChangesConcat(entries, last);
    }
  }

  lemma OneVectors(t: Text, s: LiveStore, c: Change, log: seq<Log.Entry>)
    requires log == Logged(t, c)
    ensures |log| <= 1
    ensures ChangeVectors(s, c) == if log == [] then s else ChangeVectors(s, AsChange(log[0]))
  {
    match c
    case Put(_, _, _) =>
    case Remove(_) =>
    case Override(_, _) =>
    case Insert(_, _) =>
    case Reset =>
  }

  lemma {:induction false} VectorsLogged(t: Text, s: LiveStore, changes: seq<Change>)
    ensures VectorsAfter(s, AsChanges(LoggedAll(t, changes))) == VectorsAfter(s, changes)
  {
    if changes != [] {
      var front, c := changes[..|changes| - 1], changes[|changes| - 1];
      VectorsLogged(t, s, front);
      OneVectors(t, VectorsAfter(s, front), c, Logged(t, c));
      VectorsNext(s, LoggedAll(t, front), Logged(t, c));
    }
  }

  ghost predicate AllLog(t: Text, changes: seq<Change>) {
    forall c :: c in changes ==> ChangeLogs(t, c)
  }

  lemma {:induction false} LogsAreOk(t: Text, changes: seq<Change>)
    requires AllLog(t, changes)
    ensures LogOk(t, LoggedAll(t, changes)) && ChangesOk(changes)
  {
    if changes != [] {
      var front, c := changes[..|changes| - 1], changes[|changes| - 1];
      assert c in changes;
      LogsAreOk(t, front);
      if c.Override? {
        assert Log.HmSet(c.key, c.fields) in Logged(t, c);
      }
      assert ChangeOk(c);
      forall x | x in changes
        ensures ChangeOk(x)
      {
        assert x in front || x == c;
      }
    }
  }

  lemma LogChangesOk(t: Text, entries: seq<Log.Entry>)
    requires LogOk(t, entries)
    ensures ChangesOk(AsChanges(entries))
  {
    forall c | c in AsChanges(entries)
      ensures ChangeOk(c)
    {
      var i :| 0 <= i < |entries| && AsChange(entries[i]) == c;
      assert entries[i] in entries;
    }
  }

  lemma RememberedCountable(t: Text, kv: Content)
    requires Countable(kv)
    ensures Countable(Remembered(t, kv))
  {
  }

  /** What is logged fills no hash that the history itself does not fill. */
  lemma {:induction false} LoggedNeverFull(t: Text, kv: Content, changes: seq<Change>)
    requires AllLog(t, changes) && NeverFull(kv, changes)
    ensures NeverFull(Remembered(t, kv), AsChanges(LoggedAll(t, changes)))
  {
    HistoryRemembered(t, kv, changes);
    if changes == [] {
      RememberedCountable(t, kv);
    } else {
      var front, c := changes[..|changes| - 1], changes[|changes| - 1];
      LoggedNeverFull(t, kv, front);
      OneLogged(t, c);
      RememberedCountable(t, NextAll(kv, changes));
      NeverFullNext(Remembered(t, kv), LoggedAll(t, front), Logged(t, c));
    }
  }

  lemma OneLogged(t: Text, c: Change)
    ensures |Logged(t, c)| <= 1
  {
  }

  lemma NeverFullNext(kv: Content, entries: seq<Log.Entry>, last: seq<Log.Entry>)
    requires |last| <= 1 && NeverFull(kv, AsChanges(entries)) && Countable(NextAll(kv, AsChanges(entries + last)))
    ensures NeverFull(kv, AsChanges(entries + last))
  {
    if last == [] {
      assert entries + last == entries;
    } else {
      AsChangesConcat(entries, last);
      var after := AsChanges(entries + last);
      assert after[..|after| - 1] == AsChanges(entries);
    }
  }

  /** Replaying the log of any history from the state it started in gives back exactly the same vector store
      and, unless a hash once held 2^32 fields, what the log remembers of the contents, whatever orders the
      hashes are merged in. */
  lemma LiveIsReplayed(env: Env, again: Env, d: Data, changes: seq<Change>)
    requires ModelOk(env.model) && OrdersOk(env) && OrdersOk(again) && VerbsOk(env.text)
    requires again.model == env.model && again.text == env.text && d.db == map[]
    requires AllLog(env.text, changes)
    ensures var file := Printed(env.text, LoggedAll(env.text, changes));
            var live, replayed := ApplyAll(env, d, changes), ApplyAll(again, d, Decoded(env.text, file));
            var kv := NextAll(EMPTY_CONTENT, changes);
            && replayed.vectors == live.vectors
            && (NeverFull(EMPTY_CONTENT, changes) ==>
                  && Represents(env.model, live.db, kv)
                  && Represents(env.model, replayed.db, Remembered(env.text, kv)))
  {
    var t, log := env.text, LoggedAll(env.text, changes);
    LogsAreOk(t, changes);
    LogDecodes(t, log);
    VectorsReplayed(env, again, d, changes);
    if NeverFull(EMPTY_CONTENT, changes) {
      HistoryMeans(env, d, EMPTY_CONTENT, changes);
      ContentsReplayed(t, again, d, changes);
    }
  }

  lemma VectorsReplayed(env: Env, again: Env, d: Data, changes: seq<Change>)
    requires ModelOk(env.model) && again.model == env.model
    ensures ApplyAll(again, d, AsChanges(LoggedAll(env.text, changes))).vectors == ApplyAll(env, d, changes).vectors
  {
    ApplyAllVectors(env, d, changes);
    ApplyAllVectors(again, d, AsChanges(LoggedAll(env.text, changes)));
    VectorsLogged(env.text, d.vectors, changes);
  }

  lemma ContentsReplayed(t: Text, again: Env, d: Data, changes: seq<Change>)
    requires ModelOk(again.model) && OrdersOk(again) && d.db == map[]
    requires AllLog(t, changes) && NeverFull(EMPTY_CONTENT, changes)
    ensures Represents(again.model, ApplyAll(again, d, AsChanges(LoggedAll(t, changes))).db,
                       Remembered(t, NextAll(EMPTY_CONTENT, changes)))
  {
    var log := LoggedAll(t, changes);
    LogsAreOk(t, changes);
    LogChangesOk(t, log);
    LoggedNeverFull(t, EMPTY_CONTENT, changes);
    HistoryRemembered(t, EMPTY_CONTENT, changes);
    assert Remembered(t, EMPTY_CONTENT) == EMPTY_CONTENT;
    HistoryMeans(again, d, EMPTY_CONTENT, AsChanges(log));
  }

  /** The log remembers everything exactly when every key is UTF-8 and no string came through MSET. */
  lemma RememberedIff(t: Text, kv: Content)
    ensures Remembered(t, kv) == kv
       <==> forall k :: k in kv ==> t.utf8(k) && (kv[k].Str? ==> kv[k].cascade)
  {
  }

  // ---------- When a restart is not noticed ----------

  /** Two databases answer every GET, DEL, EXISTS and HGETALL, of keys a client can ask for, and every MGET alike. */
  ghost predicate SameAnswers(m: Model, t: Text, a: map<bytes, Value>, b: map<bytes, Value>)
    requires ModelOk(m)
  {
    forall key: bytes :: SameAnswer(m, t, a, b, key)
  }

  ghost predicate SameAnswer(m: Model, t: Text, a: map<bytes, Value>, b: map<bytes, Value>, key: bytes)
    requires ModelOk(m)
  {
    && MGetReply(m, a, key) == MGetReply(m, b, key)
    && (t.utf8(key) ==>
          && GetReply(m, a, key) == GetReply(m, b, key) && (key in a <==> key in b)
          && Alike(HashAnswer(a, key), HashAnswer(b, key)))
  }

  /** A string that reads alike after a restart: under a UTF-8 key one that came through SET or that the keystream
      leaves alone, and under any other key the empty one. */
  predicate Unharmed(m: Model, t: Text, key: bytes, p: Plain)
    requires ModelOk(m)
  {
    p.Str? ==> if t.utf8(key) then p.cascade || Crossed(m, p.text) == p.text else p.text == []
  }

  lemma BulkIsNotNull(x: bytes)
    ensures Bulk(x) != NULL
  {
    DecimalDigits(|x|);
    assert Bulk(x)[1] == Decimal(|x|)[0];
  }

  lemma BulkInjective(x: bytes, y: bytes)
    requires |x| == |y| && Bulk(x) == Bulk(y)
    ensures x == y
  {
    var head := Size('$', |x|);
    assert x == (head + x + CRLF)[|head|..|head| + |x|];
    assert y == (head + y + CRLF)[|head|..|head| + |y|];
  }

  /** One key before and after a restart. */
  lemma KeyAfterRestart(m: Model, t: Text, kv: Content, r: Content, key: bytes)
    requires ModelOk(m) && r == Remembered(t, kv)
    ensures (key in kv ==> Unharmed(m, t, key, kv[key]))
       <==> (t.utf8(key) ==> PlainGet(m, kv, key) == PlainGet(m, r, key))
            && PlainMGet(m, kv, key) == PlainMGet(m, r, key)
  {
    if key in kv && kv[key].Str? {
      var text := kv[key].text;
      BulkIsNotNull(text);
      BulkIsNotNull(Crossed(m, text));
      if Bulk(text) == Bulk(Crossed(m, text)) {
        BulkInjective(text, Crossed(m, text));
      }
    }
  }

  /** A restart keeps the hashes under keys a client can ask for, and whether there is a value. */
  lemma HashesAfterRestart(m: Model, t: Text, live: map<bytes, Value>, replayed: map<bytes, Value>,
                           kv: Content, key: bytes)
    requires ModelOk(m) && Represents(m, live, kv) && Represents(m, replayed, Remembered(t, kv)) && t.utf8(key)
    ensures (key in live <==> key in replayed) && Alike(HashAnswer(live, key), HashAnswer(replayed, key))
  {
    HashAnswerMeans(m, live, kv, key);
    HashAnswerMeans(m, replayed, Remembered(t, kv), key);
  }

  lemma SameAnswerIff(m: Model, t: Text, live: map<bytes, Value>, replayed: map<bytes, Value>,
                      kv: Content, key: bytes)
    requires ModelOk(m) && Represents(m, live, kv) && Represents(m, replayed, Remembered(t, kv))
    ensures SameAnswer(m, t, live, replayed, key) <==> (key in kv ==> Unharmed(m, t, key, kv[key]))
  {
    KeyAfterRestart(m, t, kv, Remembered(t, kv), key);
    GetMeans(m, live, kv, key);
    GetMeans(m, replayed, Remembered(t, kv), key);
    MGetMeans(m, live, kv, key);
    MGetMeans(m, replayed, Remembered(t, kv), key);
    if t.utf8(key) {
      HashesAfterRestart(m, t, live, replayed, kv, key);
    }
  }

  /** The replayed database answers alike if and only if every string is unharmed. */
  lemma SameAnswersIff(m: Model, t: Text, live: map<bytes, Value>, replayed: map<bytes, Value>,
                       kv: Content)
    requires ModelOk(m) && Represents(m, live, kv) && Represents(m, replayed, Remembered(t, kv))
    ensures SameAnswers(m, t, live, replayed) <==> forall k :: k in kv ==> Unharmed(m, t, k, kv[k])
  {
    forall key: bytes
      ensures SameAnswer(m, t, live, replayed, key) <==> (key in kv ==> Unharmed(m, t, key, kv[key]))
    {
      SameAnswerIff(m, t, live, replayed, kv, key);
    }
  }
}
