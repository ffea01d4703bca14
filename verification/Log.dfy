/** The append-only log: its entries, how they are printed, and that the command parser reads back
    exactly what was printed. */
module Log {
  import opened Bytes
  import opened Resp
  import opened HashEngine
  import C = Commands

  /** `PersistenceCommand`. */
  datatype Entry =
    | Set(key: bytes, val: bytes)
    | Del(key: bytes)
    | HmSet(key: bytes, fields: seq<Field>)
    | VAdd(key: bytes, floats: seq<F32>)
    | FlushDb

  function Shown(t: C.Text, floats: seq<F32>): (r: seq<bytes>)
    ensures |r| == |floats|
  {
    seq(|floats|, i requires 0 <= i < |floats| => t.showF32(floats[i]))
  }

  /** An entry as the arguments of a request. */
  function Args(t: C.Text, e: Entry): (r: seq<bytes>)
    ensures r != []
  {
    match e
    case Set(key, val) => ["SET", key, val]
    case Del(key) => ["DEL", key]
    case HmSet(key, fields) => ["HMSET", key] + Flattened(fields)
    case VAdd(key, floats) => ["VADD", key] + Shown(t, floats)
    case FlushDb => ["FLUSHDB"]
  }

  /** `to_resp`. */
  function ToResp(t: C.Text, e: Entry): bytes {
    Request(Args(t, e))
  }

  /** The command an entry was logged for. */
  function AsCommand(e: Entry): C.Command {
    match e
    case Set(key, val) => C.Set(key, val)
    case Del(key) => C.Del(key)
    case HmSet(key, fields) => C.HmSet(key, fields)
    case VAdd(key, floats) => C.VAdd(key, floats)
    case FlushDb => C.FlushDb
  }

  /** Keys and field names are `String`s, lengths and counts fit the parser's u32, and floats print as texts
      that parse back to them. */
  ghost predicate EntryOk(t: C.Text, e: Entry) {
    match e
    case Set(key, val) => t.utf8(key) && |key| < U32 && |val| < U32
    case Del(key) => t.utf8(key) && |key| < U32
    case HmSet(key, fields) => t.utf8(key) && |key| < U32 && 2 + 2 * |fields| < U32 && NamesOk(t, fields)
    case VAdd(key, floats) =>
      t.utf8(key) && |key| < U32 && 2 + |floats| < U32 && forall f :: f in floats ==> C.PrintsBack(t, f)
    case FlushDb => true
  }

  ghost predicate NamesOk(t: C.Text, fields: seq<Field>) {
    forall f :: f in fields ==> t.utf8(f.0) && |f.0| < U32 && |f.1| < U32
  }

  /** At least one field or float where the parser insists on one. */
  predicate Readable(e: Entry) {
    (e.HmSet? ==> e.fields != []) && (e.VAdd? ==> e.floats != [])
  }

  // ---------- Reading back ----------

  lemma {:induction false} FlattenedCons(f: Field, fields: seq<Field>)
    ensures Flattened([f] + fields) == [f.0, f.1] + Flattened(fields)
  {
    if fields == [] {
      assert [f] + fields == [f] && [f][..0] == [];
      assert Flattened([f]) == Flattened([]) + [f.0, f.1];
    } else {
      assert ([f] + fields)[..|fields|] == [f] + fields[..|fields| - 1];
      FlattenedCons(f, fields[..|fields| - 1]);
    }
  }

  lemma {:induction false} PairsOfFlattened(t: C.Text, fields: seq<Field>)
    requires NamesOk(t, fields)
    ensures C.Pairs(t, Flattened(fields)) == Some(fields)
  {
    if fields != [] {
      var f, later := fields[0], fields[1..];
      assert fields == [f] + later;
      FlattenedCons(f, later);
      var items := Flattened(fields);
      assert items[0] == f.0 && items[1] == f.1 && items[2..] == Flattened(later);
      PairsOfFlattened(t, later);
    }
  }

  lemma {:induction false} FloatsOfShown(t: C.Text, floats: seq<F32>)
    requires forall f :: f in floats ==> C.PrintsBack(t, f)
    ensures C.Floats(t, Shown(t, floats)) == Some(floats)
  {
    if floats != [] {
      var f, items, later := floats[0], Shown(t, floats), Shown(t, floats[1..]);
      assert items[0] == t.showF32(f) && items[1..] == later;
      assert C.PrintsBack(t, f);
      FloatsOfShown(t, floats[1..]);
      assert floats == [f] + floats[1..];
    }
  }

  /** The arguments of an entry stand for its command and are all used, exactly when it is readable. */
  lemma EntryDecodes(t: C.Text, e: Entry)
    requires C.VerbsOk(t) && EntryOk(t, e)
    ensures C.Decode(t, Args(t, e)) == if Readable(e) then Some((AsCommand(e), |Args(t, e)|)) else None
  {
    C.KnownVerbs(t);
    var args := Args(t, e);
    match e
    case Set(key, val) =>
      assert args[1..3] == [key, val];
    case Del(key) =>
      assert args[1..2] == [key];
    case HmSet(key, fields) =>
      PairsOfFlattened(t, fields);
      HashDecodes(t, args, key, fields);
    case VAdd(key, floats) =>
      FloatsOfShown(t, floats);
      VectorDecodes(t, args, key, floats);
    case FlushDb =>
      assert args[1..1] == [];
  }

  lemma HashDecodes(t: C.Text, args: seq<bytes>, key: bytes, fields: seq<Field>)
    requires args == ["HMSET", key] + Flattened(fields) && t.utf8(args[0]) && t.verb(args[0]) == C.HMSET
    requires t.utf8(key) && C.Pairs(t, Flattened(fields)) == Some(fields)
    ensures C.Decode(t, args) == if fields != [] then Some((C.HmSet(key, fields), |args|)) else None
  {
    var items := [key] + Flattened(fields);
    assert args[1..] == items && items[1..] == Flattened(fields);
    assert args[1..|args|] == args[1..];
  }

  lemma VectorDecodes(t: C.Text, args: seq<bytes>, key: bytes, floats: seq<F32>)
    requires args == ["VADD", key] + Shown(t, floats) && t.utf8(args[0]) && t.verb(args[0]) == C.VADD
    requires t.utf8(key) && C.Floats(t, Shown(t, floats)) == Some(floats)
    ensures C.Decode(t, args) == if floats != [] then Some((C.VAdd(key, floats), |args|)) else None
  {
    var items := [key] + Shown(t, floats);
    assert args[1..] == items && items[1..] == Shown(t, floats);
    assert args[1..|args|] == args[1..];
  }

  lemma ArgsFit(t: C.Text, e: Entry)
    requires C.VerbsOk(t) && EntryOk(t, e)
    ensures C.Fits(Args(t, e))
  {
    forall a | a in Args(t, e)
      ensures |a| < U32
    {
      if e.HmSet? && a in Flattened(e.fields) {
        FlattenedMembers(e.fields, a);
      } else if e.VAdd? && a in Shown(t, e.floats) {
        var i :| 0 <= i < |e.floats| && Shown(t, e.floats)[i] == a;
        assert e.floats[i] in e.floats;
      }
    }
  }

  /** Printing then parsing an entry, with any bytes behind it: the same command and exactly the printed
      bytes, if and only if the entry is readable. */
  lemma EntryRoundTrip(t: C.Text, e: Entry, rest: bytes)
    requires C.VerbsOk(t) && EntryOk(t, e)
    ensures C.ParseCommand(t, ToResp(t, e) + rest)
         == if Readable(e) then Parsed(AsCommand(e), |ToResp(t, e)|) else NoParse
  {
    var args, printed := Args(t, e), ToResp(t, e);
    assert Occurs(printed, printed + rest, 0) by {
      assert (printed + rest)[0..|printed|] == printed;
    }
    ArgsFit(t, e);
    EntryDecodes(t, e);
    C.ParseRequest(t, args, printed + rest);
    assert args[..|args|] == args;
  }

  // ---------- The printing loops ----------

  /** The literal heads `to_resp` starts from. */
  lemma Heads()
    ensures "*3\r\n$3\r\nSET\r\n" == Size('*', 3) + BulkAll(["SET"])
    ensures "*2\r\n$3\r\nDEL\r\n" == Size('*', 2) + BulkAll(["DEL"])
    ensures "*1\r\n$7\r\nFLUSHDB\r\n" == Size('*', 1) + BulkAll(["FLUSHDB"])
  {
    OneBulk("SET");
    OneBulk("DEL");
    OneBulk("FLUSHDB");
  }

  lemma LongHeads()
    ensures "$5\r\nHMSET\r\n" == BulkAll(["HMSET"]) && "$4\r\nVADD\r\n" == BulkAll(["VADD"])
  {
    OneBulk("HMSET");
    OneBulk("VADD");
  }

  lemma OneBulk(x: bytes)
    ensures BulkAll([x]) == Bulk(x)
  {
    assert [x][1..] == [];
    assert PrintMany(Bulk, [x]) == Bulk(x) + PrintMany(Bulk, []);
  }

  /** One more argument behind those printed so far. */
  method AppendBulk(buf: bytes, x: bytes, ghost size: bytes, ghost done: seq<bytes>) returns (r: bytes)
    requires buf == size + BulkAll(done)
    ensures r == size + BulkAll(done + [x])
  {
    BulkSnoc(size, done, x);
    r := WriteBulk(buf, x);
  }

  lemma BulkSnoc(size: bytes, done: seq<bytes>, x: bytes)
    ensures size + BulkAll(done + [x]) == size + BulkAll(done) + Bulk(x)
  {
    PrintManyConcat(Bulk, done, [x]);
    OneBulk(x);
    assert size + (BulkAll(done) + Bulk(x)) == size + BulkAll(done) + Bulk(x);
  }

  method WriteBulk(buf: bytes, x: bytes) returns (r: bytes)
    ensures r == buf + Bulk(x)
  {
    r := buf + Size('$', |x|);
    r := r + x;
    r := r + CRLF;
  }

  method AppendFields(buf: bytes, fields: seq<Field>, ghost size: bytes, ghost done: seq<bytes>) returns (r: bytes)
    requires buf == size + BulkAll(done)
    ensures r == size + BulkAll(done + Flattened(fields))
  {
    r := buf;
    ghost var items := done;
    assert done + [] == done;
    for i := 0 to |fields|
      invariant items == done + Flattened(fields[..i]) && r == size + BulkAll(items)
    {
      var (k, v) := fields[i];
      assert fields[..i + 1][..i] == fields[..i];
      assert items + [k] + [v] == done + (Flattened(fields[..i]) + [k, v]);
      r := AppendBulk(r, k, size, items);
      r := AppendBulk(r, v, size, items + [k]);
      items := items + [k] + [v];
    }
    assert fields[..|fields|] == fields;
  }

  lemma ShownNext(t: C.Text, floats: seq<F32>, done: seq<bytes>, i: nat)
    requires i < |floats|
    ensures var all := done + Shown(t, floats); all[..|done| + i + 1] == all[..|done| + i] + [t.showF32(floats[i])]
  {
  }

  method AppendFloats(t: C.Text, buf: bytes, floats: seq<F32>, ghost size: bytes, ghost done: seq<bytes>)
    returns (r: bytes)
    requires buf == size + BulkAll(done)
    ensures r == size + BulkAll(done + Shown(t, floats))
  {
    r := buf;
    ghost var items, all := done, done + Shown(t, floats);
    for i := 0 to |floats|
      invariant items == all[..|done| + i] && r == size + BulkAll(items)
    {
      var shown := t.showF32(floats[i]);
      ShownNext(t, floats, done, i);
      r := AppendBulk(r, shown, size, items);
      items := items + [shown];
    }
    assert items == all;
  }

  method PrintHash(t: C.Text, key: bytes, fields: seq<Field>) returns (buf: bytes)
    ensures buf == ToResp(t, HmSet(key, fields))
  {
    LongHeads();
    var size := Size('*', 2 + 2 * |fields|);
    buf := AppendBulk(size + "$5\r\nHMSET\r\n", key, size, ["HMSET"]);
    assert ["HMSET"] + [key] == ["HMSET", key];
    buf := AppendFields(buf, fields, size, ["HMSET", key]);
  }

  method PrintVector(t: C.Text, key: bytes, floats: seq<F32>) returns (buf: bytes)
    ensures buf == ToResp(t, VAdd(key, floats))
  {
    LongHeads();
    var size := Size('*', 2 + |floats|);
    buf := AppendBulk(size + "$4\r\nVADD\r\n", key, size, ["VADD"]);
    assert ["VADD"] + [key] == ["VADD", key];
    buf := AppendFloats(t, buf, floats, size, ["VADD", key]);
  }

  /** `to_resp`. */
  method PrintEntry(t: C.Text, e: Entry) returns (buf: bytes)
    ensures buf == ToResp(t, e)
  {
    Heads();
    match e {
      case Set(key, val) =>
        buf := AppendBulk("*3\r\n$3\r\nSET\r\n", key, Size('*', 3), ["SET"]);
        buf := AppendBulk(buf, val, Size('*', 3), ["SET"] + [key]);
        assert ["SET"] + [key] + [val] == Args(t, e);
      case Del(key) =>
        buf := AppendBulk("*2\r\n$3\r\nDEL\r\n", key, Size('*', 2), ["DEL"]);
        assert ["DEL"] + [key] == Args(t, e);
      case HmSet(key, fields) =>
        buf := PrintHash(t, key, fields);
      case VAdd(key, floats) =>
        buf := PrintVector(t, key, floats);
      case FlushDb =>
        buf := "*1\r\n$7\r\nFLUSHDB\r\n";
    }
  }
}
