/** The command parser: `parse_command_fast`, its stability under more input, and its meaning as an
    interpretation of argument lists. */
module Commands {
  import opened Bytes
  import opened Resp

  datatype Command =
    | Ping
    | Set(key: bytes, val: bytes)
    | Get(key: bytes)
    | Del(key: bytes)
    | Exists(key: bytes)
    | MSetHeader(args: nat)
    | MGetHeader(args: nat)
    | Select(db: nat)
    | Save
    | BgSave
    | FlushDb
    | Info
    | HmSet(key: bytes, fields: seq<(bytes, bytes)>)
    | HGetAll(key: bytes)
    | ZAdd(key: bytes)
    | VAdd(key: bytes, floats: seq<F32>)
    | VSearch(k: nat, floats: seq<F32>)
    | Unknown(name: bytes)

  /** Text handling as arbitrary functions: UTF-8 validity, the verb a command name stands for, number
      parsing and float printing. */
  datatype Text = Text(
    utf8: bytes -> bool,
    verb: bytes -> Verb,
    parseF32: bytes -> Option<F32>,
    showF32: F32 -> bytes,
    parseU8: bytes -> Option<nat>,
    parseUsize: bytes -> Option<nat>)

  /** The verbs the parser knows; EXISTS is dispatched but never parsed. */
  datatype Verb = PING | SET | GET | DEL | MGET | MSET | SELECT | SAVE | BGSAVE | FLUSHDB | INFO | HMSET | HGETALL
    | ZADD | VADD | VSEARCH | OTHER

  /** The match on the upper-cased name. */
  function VerbOf(name: bytes): Verb {
    if name == "PING" then PING
    else if name == "SET" then SET
    else if name == "GET" then GET
    else if name == "DEL" then DEL
    else if name == "MGET" then MGET
    else if name == "MSET" then MSET
    else if name == "SELECT" then SELECT
    else if name == "SAVE" then SAVE
    else if name == "BGSAVE" then BGSAVE
    else if name == "FLUSHDB" then FLUSHDB
    else if name == "INFO" then INFO
    else if name == "HMSET" then HMSET
    else if name == "HGETALL" then HGETALL
    else if name == "ZADD" then ZADD
    else if name == "VADD" then VADD
    else if name == "VSEARCH" then VSEARCH
    else OTHER
  }

  /** Verbs as the server has them: they come from the match on some upper-casing that leaves the verbs' own
      names alone, and those names are UTF-8. */
  ghost predicate VerbsOk(t: Text) {
    exists upper: bytes -> bytes :: VerbsFrom(t, upper)
  }

  /** Every float the parser can yield prints as a short text that parses back to it. */
  ghost predicate FloatsOk(t: Text) {
    forall b: bytes :: t.parseF32(b).Some? ==> PrintsBack(t, t.parseF32(b).value)
  }

  ghost predicate PrintsBack(t: Text, f: F32) {
    t.utf8(t.showF32(f)) && |t.showF32(f)| < U32 && t.parseF32(t.showF32(f)) == Some(f)
  }

  predicate IsVerbName(name: bytes) {
    || name == "SET" || name == "GET" || name == "DEL" || name == "MSET" || name == "MGET"
    || name == "HMSET" || name == "VADD" || name == "FLUSHDB" || name == "PING" || name == "SELECT" || name == "SAVE"
    || name == "BGSAVE" || name == "INFO" || name == "HGETALL" || name == "ZADD" || name == "VSEARCH"
  }

  ghost predicate VerbsFrom(t: Text, upper: bytes -> bytes) {
    && (forall name: bytes {:trigger upper(name)} :: t.verb(name) == VerbOf(upper(name)))
    && (forall name: bytes {:trigger IsVerbName(name)} :: IsVerbName(name) ==> upper(name) == name && t.utf8(name))
  }

  lemma KnownVerb(t: Text, name: bytes)
    requires VerbsOk(t) && IsVerbName(name)
    ensures t.utf8(name) && t.verb(name) == VerbOf(name)
  {
    var upper: bytes -> bytes :| VerbsFrom(t, upper);
    assert upper(name) == name;
  }

  lemma KnownVerbs(t: Text)
    requires VerbsOk(t)
    ensures t.verb("SET") == SET && t.verb("GET") == GET && t.verb("DEL") == DEL && t.verb("MSET") == MSET
    ensures t.verb("MGET") == MGET && t.verb("HMSET") == HMSET && t.verb("VADD") == VADD && t.verb("FLUSHDB") == FLUSHDB
    ensures t.utf8("SET") && t.utf8("GET") && t.utf8("DEL") && t.utf8("MSET")
    ensures t.utf8("MGET") && t.utf8("HMSET") && t.utf8("VADD") && t.utf8("FLUSHDB")
  {
    NamesOfVerbs();
    KnownVerb(t, "SET");
    KnownVerb(t, "GET");
    KnownVerb(t, "DEL");
    KnownVerb(t, "MSET");
    KnownVerb(t, "MGET");
    KnownVerb(t, "HMSET");
    KnownVerb(t, "VADD");
    KnownVerb(t, "FLUSHDB");
  }

  lemma NamesOfVerbs()
    ensures VerbOf("SET") == SET && VerbOf("GET") == GET && VerbOf("DEL") == DEL && VerbOf("MSET") == MSET
    ensures VerbOf("MGET") == MGET && VerbOf("HMSET") == HMSET && VerbOf("VADD") == VADD && VerbOf("FLUSHDB") == FLUSHDB
  {
  }

  lemma MoreNamesOfVerbs()
    ensures VerbOf("PING") == PING && VerbOf("SELECT") == SELECT && VerbOf("SAVE") == SAVE && VerbOf("BGSAVE") == BGSAVE
    ensures VerbOf("INFO") == INFO && VerbOf("HGETALL") == HGETALL && VerbOf("ZADD") == ZADD
    ensures VerbOf("VSEARCH") == VSEARCH
  {
  }

  /** Every other name is unknown. */
  lemma OtherNames(name: bytes)
    ensures VerbOf(name) == OTHER <==> !IsVerbName(name)
  {
  }

  /** How many bulk strings a verb reads after its name, given the announced argument count; None when
      the count is too small. */
  function Arity(verb: Verb, argc: nat): Option<nat>
    requires argc > 0
  {
    match verb
    case SET => if argc < 3 then None else Some(2)
    case GET | DEL | SELECT | HGETALL => if argc < 2 then None else Some(1)
    case HMSET => if argc < 4 then None else Some(1 + 2 * ((argc - 2) / 2))
    case ZADD => if argc < 4 then None else Some(1)
    case VADD | VSEARCH => if argc < 3 then None else Some(argc - 1)
    case _ => Some(0)
  }

  /** Consecutive items as field-value pairs; field names must be UTF-8. */
  function Pairs(t: Text, items: seq<bytes>): Option<seq<(bytes, bytes)>> {
    if |items| < 2 then Some([])
    else
      var later :- Pairs(t, items[2..]);
      if t.utf8(items[0]) then Some([(items[0], items[1])] + later) else None
  }

  function Floats(t: Text, items: seq<bytes>): Option<seq<F32>> {
    if items == [] then Some([])
    else
      var f :- if t.utf8(items[0]) then t.parseF32(items[0]) else None;
      var later :- Floats(t, items[1..]);
      Some([f] + later)
  }

  /** A request as read: announced argument count, command name, and the bulk strings read after it. */
  datatype Raw = Raw(argc: nat, name: bytes, items: seq<bytes>)

  /** How many bulk strings to read after a command name; None for a name or count that is refused. */
  function ArityFor(t: Text, name: bytes, argc: nat): (r: Option<nat>)
    ensures r.Some? ==> r.value < argc && r == Arity(t.verb(name), argc)
  {
    if argc > 0 && t.utf8(name) then Arity(t.verb(name), argc) else None
  }

  function ArityOf(t: Text): ArityTable {
    (name, argc) => ArityFor(t, name, argc)
  }

  /** The command made of what was read. */
  function Build(t: Text, raw: Raw): Option<Command>
    requires ArityFor(t, raw.name, raw.argc) == Some(|raw.items|)
  {
    var items := raw.items;
    match t.verb(raw.name)
    case PING => Some(Ping)
    case SET => if t.utf8(items[0]) then Some(Set(items[0], items[1])) else None
    case GET => if t.utf8(items[0]) then Some(Get(items[0])) else None
    case DEL => if t.utf8(items[0]) then Some(Del(items[0])) else None
    case MGET => Some(MGetHeader(raw.argc - 1))
    case MSET => Some(MSetHeader(raw.argc - 1))
    case SELECT =>
      var db :- if t.utf8(items[0]) then t.parseU8(items[0]) else None;
      Some(Select(db))
    case SAVE => Some(Save)
    case BGSAVE => Some(BgSave)
    case FLUSHDB => Some(FlushDb)
    case INFO => Some(Info)
    case HMSET =>
      var fields :- Pairs(t, items[1..]);
      if t.utf8(items[0]) then Some(HmSet(items[0], fields)) else None
    case HGETALL => if t.utf8(items[0]) then Some(HGetAll(items[0])) else None
    case ZADD => if t.utf8(items[0]) then Some(ZAdd(items[0])) else None
    case VADD =>
      var floats :- Floats(t, items[1..]);
      if t.utf8(items[0]) then Some(VAdd(items[0], floats)) else None
    case VSEARCH =>
      var k :- if t.utf8(items[0]) then t.parseUsize(items[0]) else None;
      var floats :- Floats(t, items[1..]);
      Some(VSearch(k, floats))
    case OTHER => Some(Unknown(raw.name))
  }

  /** How many bulk strings to read after a name, given the announced argument count. */
  type ArityTable = (bytes, nat) -> Option<nat>

  /** A request at the head of the buffer, read as far as its name asks for, and how many bytes it takes. */
  function ParseRaw(arity: ArityTable, parse: Reader, s: bytes): (r: Parse<Raw>)
    ensures r.Parsed? ==> 0 < r.len <= |s| && arity(r.value.name, r.value.argc) == Some(|r.value.items|)
  {
    match ParseSize('*', s, 0)
    case NoParse => NoParse
    case Parsed(argc, size) =>
      match if argc == 0 then NoParse else parse(s, size)
      case NoParse => NoParse
      case Parsed(name, first) =>
        if size + first > |s| || arity(name, argc).None? then NoParse
        else
          match ParseMany(parse, s, size + first, arity(name, argc).value)
          case NoParse => NoParse
          case Parsed(items, later) => Parsed(Raw(argc, name, items), size + first + later)
  }

  function Understood(t: Text, read: Parse<Raw>): (r: Parse<Command>)
    requires read.Parsed? ==> ArityFor(t, read.value.name, read.value.argc) == Some(|read.value.items|)
    ensures r.Parsed? ==> read.Parsed? && r.len == read.len
  {
    match read
    case NoParse => NoParse
    case Parsed(raw, len) =>
      match Build(t, raw)
      case None => NoParse
      case Some(cmd) => Parsed(cmd, len)
  }

  /** `parse_command_fast`: a command at the head of the buffer and how many bytes it takes. */
  function ParseCommand(t: Text, s: bytes): (r: Parse<Command>)
    ensures r.Parsed? ==> 0 < r.len <= |s|
  {
    Understood(t, ParseRaw(ArityOf(t), ParseBulk, s))
  }

  // ---------- More input does not change a parsed command ----------

  lemma RawFromParts(arity: ArityTable, parse: Reader, s: bytes, raw: Raw, size: nat, first: nat,
                     later: nat)
    requires raw.argc > 0 && ParseSize('*', s, 0) == Parsed(raw.argc, size)
    requires parse(s, size) == Parsed(raw.name, first) && size + first <= |s|
    requires arity(raw.name, raw.argc).Some? ==>
               arity(raw.name, raw.argc).value == |raw.items|
               && ParseMany(parse, s, size + first, |raw.items|) == Parsed(raw.items, later)
    ensures ParseRaw(arity, parse, s)
         == if arity(raw.name, raw.argc).Some? then Parsed(raw, size + first + later) else NoParse
  {
  }

  lemma PartsOfRaw(arity: ArityTable, parse: Reader, s: bytes)
    returns (raw: Raw, size: nat, first: nat, later: nat)
    requires ParseRaw(arity, parse, s).Parsed?
    ensures raw.argc > 0 && ParseSize('*', s, 0) == Parsed(raw.argc, size)
    ensures parse(s, size) == Parsed(raw.name, first) && size + first <= |s|
    ensures arity(raw.name, raw.argc) == Some(|raw.items|)
    ensures ParseMany(parse, s, size + first, |raw.items|) == Parsed(raw.items, later)
    ensures ParseRaw(arity, parse, s) == Parsed(raw, size + first + later)
  {
    raw, size := ParseRaw(arity, parse, s).value, ParseSize('*', s, 0).len;
    first := parse(s, size).len;
    later := ParseRaw(arity, parse, s).len - size - first;
  }

  lemma RawStable(arity: ArityTable, parse: Reader, s: bytes, more: bytes)
    requires forall j: nat :: parse(s, j).Parsed? ==> parse(s + more, j) == parse(s, j)
    requires ParseRaw(arity, parse, s).Parsed?
    ensures ParseRaw(arity, parse, s + more) == ParseRaw(arity, parse, s)
  {
    var raw, size, first, later := PartsOfRaw(arity, parse, s);
    SizeStable('*', s, 0, more);
    ManyStable(parse, s, size + first, |raw.items|, more);
    RawFromParts(arity, parse, s + more, raw, size, first, later);
  }

  /** A successful parse of a buffer is unchanged by appending bytes. */
  lemma CommandStable(t: Text, s: bytes, more: bytes)
    requires ParseCommand(t, s).Parsed?
    ensures ParseCommand(t, s + more) == ParseCommand(t, s)
  {
    forall j: nat | ParseBulk(s, j).Parsed?
      ensures ParseBulk(s + more, j) == ParseBulk(s, j)
    {
      BulkStable(s, j, more);
    }
    RawStable(ArityOf(t), ParseBulk, s, more);
  }

  // ---------- What a request means ----------

  /** Reference semantics: the command an argument list stands for, and how many arguments it uses. */
  function Decode(t: Text, args: seq<bytes>): (r: Option<(Command, nat)>)
    requires args != []
    ensures r.Some? ==> 0 < r.value.1 <= |args|
  {
    var n :- ArityFor(t, args[0], |args|);
    var cmd :- Build(t, Raw(|args|, args[0], args[1..n + 1]));
    Some((cmd, n + 1))
  }

  /** Lengths and counts the u32 of `parse_int` can hold. */
  predicate Fits(args: seq<bytes>) {
    |args| < U32 && forall a :: a in args ==> |a| < U32
  }

  /** The printed form of a request up to its n-th argument. */
  function RequestPrefix(args: seq<bytes>, n: nat): bytes
    requires n <= |args|
  {
    Size('*', |args|) + BulkAll(args[..n])
  }

  /** A request cut into its name, the arguments used and the others. */
  lemma RequestSplit(show: bytes -> bytes, args: seq<bytes>, n: nat)
    requires n < |args|
    ensures PrintMany(show, args)
         == show(args[0]) + (PrintMany(show, args[1..n + 1]) + PrintMany(show, args[n + 1..]))
    ensures |PrintMany(show, args[..n + 1])| == |show(args[0])| + |PrintMany(show, args[1..n + 1])|
  {
    var name, used, unused := args[..1], args[1..n + 1], args[n + 1..];
    assert PrintMany(show, name) == show(name[0]) + PrintMany(show, name[1..]) && name[1..] == [];
    assert args == name + (used + unused) && args[..n + 1] == name + used;
    PrintManyConcat(show, name, used + unused);
    PrintManyConcat(show, used, unused);
    PrintManyConcat(show, name, used);
  }

  /** The arguments of a printed request are read back, for every way of printing and reading one. */
  lemma ArgsRead(parse: Reader, show: bytes -> bytes, args: seq<bytes>, s: bytes, size: nat, n: nat)
    returns (items: seq<bytes>, first: nat, later: nat)
    requires n < |args| && ReadsBack(parse, show, args, s) && Occurs(PrintMany(show, args), s, size)
    ensures items == args[1..n + 1] && |items| == n && first + later == |PrintMany(show, args[..n + 1])|
    ensures parse(s, size) == Parsed(args[0], first) && size + first <= |s|
    ensures ParseMany(parse, s, size + first, |items|) == Parsed(items, later)
  {
    items := args[1..n + 1];
    var name, used, unused := show(args[0]), PrintMany(show, items), PrintMany(show, args[n + 1..]);
    first, later := |name|, |used|;
    RequestSplit(show, args, n);
    OccursSplit(name, used + unused, s, size);
    OccursSplit(used, unused, s, size + first);
    ManyRoundTrip(parse, show, items, s, size + first);
  }

  /** What is read of a request whose name asks for n more arguments. */
  ghost predicate IsReadOf(read: Parse<Raw>, args: seq<bytes>, n: Option<nat>)
    requires n.Some? ==> n.value < |args|
  {
    match n
    case None => read == NoParse
    case Some(k) => read == Parsed(Raw(|args|, args[0], args[1..k + 1]), |RequestPrefix(args, k + 1)|)
  }

  lemma RequestParts(args: seq<bytes>, s: bytes, k: nat)
    returns (items: seq<bytes>, size: nat, first: nat, later: nat)
    requires k < |args| && Fits(args) && Occurs(Request(args), s, 0)
    ensures items == args[1..k + 1] && |items| == k
    ensures ParseSize('*', s, 0) == Parsed(|args|, size)
    ensures ParseBulk(s, size) == Parsed(args[0], first) && size + first <= |s|
    ensures ParseMany(ParseBulk, s, size + first, |items|) == Parsed(items, later)
    ensures size + first + later == |RequestPrefix(args, k + 1)|
  {
    var head := Size('*', |args|);
    size := |head|;
    OccursSplit(head, BulkAll(args), s, 0);
    SizeRoundTrip('*', |args|, s, 0);
    BulkReadsBack(args, s);
    items, first, later := ArgsRead(ParseBulk, Bulk, args, s, size, k);
  }

  /** A printed request is read back as far as its name asks for, for every arity table. */
  lemma RequestRead(arity: ArityTable, args: seq<bytes>, s: bytes, n: Option<nat>)
    requires args != [] && Fits(args) && Occurs(Request(args), s, 0)
    requires arity(args[0], |args|) == n && (n.Some? ==> n.value < |args|)
    ensures IsReadOf(ParseRaw(arity, ParseBulk, s), args, n)
  {
    var items, size, first, later := RequestParts(args, s, if n.Some? then n.value else 0);
    RawFromParts(arity, ParseBulk, s, Raw(|args|, args[0], items), size, first, later);
  }

  lemma UnderstoodRead(t: Text, args: seq<bytes>, read: Parse<Raw>)
    requires args != [] && IsReadOf(read, args, ArityFor(t, args[0], |args|))
    ensures Understood(t, read) == (
              match Decode(t, args)
              case None => NoParse
              case Some((cmd, used)) => Parsed(cmd, |RequestPrefix(args, used)|))
  {
  }

  /** The byte parser computes the argument-list semantics: on a buffer that starts with a request that
      fits, it yields the command the arguments stand for and stops after the last one it uses. */
  lemma ParseRequest(t: Text, args: seq<bytes>, s: bytes)
    requires args != [] && Fits(args) && Occurs(Request(args), s, 0)
    ensures ParseCommand(t, s) == (
              match Decode(t, args)
              case None => NoParse
              case Some((cmd, used)) => Parsed(cmd, |RequestPrefix(args, used)|))
  {
    RequestRead(ArityOf(t), args, s, ArityFor(t, args[0], |args|));
    UnderstoodRead(t, args, ParseRaw(ArityOf(t), ParseBulk, s));
  }

  // ---------- The loops ----------

  /** What a collecting loop will return once the rest has been read. */
  ghost function Then<T>(done: seq<T>, rest: Option<seq<T>>): Option<seq<T>> {
    match rest
    case None => None
    case Some(later) => Some(done + later)
  }

  lemma ThenLaws<T>(done: seq<T>, x: T, rest: Option<seq<T>>)
    ensures Then([], rest) == rest
    ensures Then(done, Then([x], rest)) == Then(done + [x], rest)
    ensures Then(done, Some([])) == Some(done)
  {
    if rest.Some? {
      assert [] + rest.value == rest.value;
      assert done + ([x] + rest.value) == done + [x] + rest.value;
    }
    assert done + [] == done;
  }

  method ReadPairs(t: Text, items: seq<bytes>) returns (r: Option<seq<(bytes, bytes)>>)
    requires |items| % 2 == 0
    ensures r == Pairs(t, items)
  {
    var fields: seq<(bytes, bytes)>, pos := [], 0;
    ThenLaws(fields, ([], []), Pairs(t, items));
    while pos < |items|
      invariant pos % 2 == 0 && pos <= |items|
      invariant Pairs(t, items) == Then(fields, Pairs(t, items[pos..]))
    {
      assert items[pos..][2..] == items[pos + 2..];
      if !t.utf8(items[pos]) {
        return None;
      }
      var field := (items[pos], items[pos + 1]);
      ThenLaws(fields, field, Pairs(t, items[pos + 2..]));
      fields, pos := fields + [field], pos + 2;
    }
    ThenLaws(fields, ([], []), None);
    return Some(fields);
  }

  method ReadFloats(t: Text, items: seq<bytes>) returns (r: Option<seq<F32>>)
    ensures r == Floats(t, items)
  {
    var floats: seq<F32> := [];
    ThenLaws(floats, NaN, Floats(t, items));
    for i := 0 to |items|
      invariant Floats(t, items) == Then(floats, Floats(t, items[i..]))
    {
      assert items[i..][1..] == items[i + 1..];
      if !t.utf8(items[i]) {
        return None;
      }
      var f := t.parseF32(items[i]);
      if f.None? {
        return None;
      }
      ThenLaws(floats, f.value, Floats(t, items[i + 1..]));
      floats := floats + [f.value];
    }
    ThenLaws(floats, NaN, None);
    return Some(floats);
  }

  method BuildCommand(t: Text, raw: Raw) returns (r: Option<Command>)
    requires ArityFor(t, raw.name, raw.argc) == Some(|raw.items|)
    ensures r == Build(t, raw)
  {
    var items := raw.items;
    match t.verb(raw.name) {
      case HMSET =>
        var fields := ReadPairs(t, items[1..]);
        if fields.None? || !t.utf8(items[0]) {
          return None;
        }
        return Some(HmSet(items[0], fields.value));
      case VADD =>
        var floats := ReadFloats(t, items[1..]);
        if floats.None? || !t.utf8(items[0]) {
          return None;
        }
        return Some(VAdd(items[0], floats.value));
      case VSEARCH =>
        var k := if t.utf8(items[0]) then t.parseUsize(items[0]) else None;
        if k.None? {
          return None;
        }
        var floats := ReadFloats(t, items[1..]);
        if floats.None? {
          return None;
        }
        return Some(VSearch(k.value, floats.value));
      case _ =>
        return Build(t, raw);
    }
  }

  method ReadRaw(arity: ArityTable, buf: bytes) returns (r: Parse<Raw>)
    ensures r == ParseRaw(arity, ParseBulk, buf)
  {
    var sized := ParseSizeAt('*', buf, 0);
    if sized.NoParse? || sized.value == 0 {
      return NoParse;
    }
    var argc, pos := sized.value, sized.len;
    var named := ParseBulkAt(buf, pos);
    if named.NoParse? || arity(named.value, argc).None? {
      return NoParse;
    }
    pos := pos + named.len;
    var read := ParseBulksAt(buf, pos, arity(named.value, argc).value);
    if read.NoParse? {
      return NoParse;
    }
    return Parsed(Raw(argc, named.value, read.value), pos + read.len);
  }

  /** `parse_command_fast`. */
  method ParseCommandFast(t: Text, buf: bytes) returns (r: Parse<Command>)
    ensures r == ParseCommand(t, buf)
  {
    var raw := ReadRaw(ArityOf(t), buf);
    if raw.NoParse? {
      return NoParse;
    }
    var cmd := BuildCommand(t, raw.value);
    if cmd.None? {
      return NoParse;
    }
    return Parsed(cmd.value, raw.len);
  }
}
