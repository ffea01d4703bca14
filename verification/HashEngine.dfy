/** Packed hashes: a record count and length-prefixed field-value records in one buffer, merged through
    an unordered map. */
module HashEngine {
  import opened Bytes
  import opened Resp

  type Field = (bytes, bytes)

  // ---------- Big-endian u32 ----------

  /** The k lowest base-256 digits of n, highest first. */
  function BigEndian(n: nat, k: nat): (r: bytes)
    ensures |r| == k
    decreases k, n
  {
    if k == 0 then [] else BigEndian(n / 256, k - 1) + [(n % 256) as char]
  }

  /** The number written at positions i..j. */
  function FromBigEndian(b: bytes, i: nat, j: nat): nat
    requires i <= j <= |b|
    decreases j, |b|
  {
    if i == j then 0 else 256 * FromBigEndian(b, i, j - 1) + b[j - 1] as int
  }

  function Pow256(k: nat): (r: nat)
    ensures r > 0
  {
    if k == 0 then 1 else 256 * Pow256(k - 1)
  }

  lemma {:induction false} BigEndianRoundTrip(n: nat, k: nat, b: bytes, i: nat)
    requires n < Pow256(k) && Occurs(BigEndian(n, k), b, i)
    ensures FromBigEndian(b, i, i + k) == n
  {
    if k > 0 {
      var front := BigEndian(n / 256, k - 1);
      OccursSplit(front, [(n % 256) as char], b, i);
      BigEndianRoundTrip(n / 256, k - 1, b, i);
      assert b[i + k - 1] == b[i + k - 1..i + k][0];
    }
  }

  /** Width of a u32 in bytes. */
  const WIDTH: nat := 4

  /** `(n as u32).to_be_bytes()`; larger numbers are truncated. */
  function Be32(n: nat): (r: bytes)
    ensures |r| == 4
  {
    BigEndian(n % U32, WIDTH)
  }

  function FromBe32(b: bytes, i: nat): nat
    requires i + 4 <= |b|
  {
    FromBigEndian(b, i, i + WIDTH)
  }

  lemma Be32RoundTrip(n: nat, b: bytes, i: nat)
    requires Occurs(Be32(n), b, i)
    ensures FromBe32(b, i) == n % U32
  {
    assert Pow256(4) == U32;
    BigEndianRoundTrip(n % U32, WIDTH, b, i);
  }

  // ---------- Packing and reading ----------

  function Record(f: Field): bytes {
    Be32(|f.0|) + Be32(|f.1|) + f.0 + f.1
  }

  function WriteAll(show: Field -> bytes, fields: seq<Field>): bytes {
    if fields == [] then [] else WriteAll(show, fields[..|fields| - 1]) + show(fields[|fields| - 1])
  }

  /** `serialize`: duplicates are kept. */
  function Pack(fields: seq<Field>): bytes {
    Be32(|fields|) + WriteAll(Record, fields)
  }

  /** One record at a position; NoParse where the reading loops break. */
  function ReadRecord(buf: bytes, pos: nat): (r: Parse<Field>)
    ensures r.Parsed? ==> pos + r.len <= |buf|
  {
    if pos + 8 > |buf| then NoParse
    else
      var mid := pos + 8 + FromBe32(buf, pos);
      var end := mid + FromBe32(buf, pos + 4);
      if end > |buf| then NoParse else Parsed((buf[pos + 8..mid], buf[mid..end]), end - pos)
  }

  /** A parser of one record at a position. */
  type FieldReader = (bytes, nat) -> Parse<Field>

  /** At most n records from a position, up to the first that does not fit. */
  function ReadAll(read: FieldReader, buf: bytes, pos: nat, n: nat): seq<Field>
    decreases n
  {
    if n == 0 || read(buf, pos).NoParse? then []
    else [read(buf, pos).value] + ReadAll(read, buf, pos + read(buf, pos).len, n - 1)
  }

  /** Where those records end. */
  function ReadEnd(read: FieldReader, buf: bytes, pos: nat, n: nat): nat
    decreases n
  {
    if n == 0 || read(buf, pos).NoParse? then pos
    else ReadEnd(read, buf, pos + read(buf, pos).len, n - 1)
  }

  /** The records of a buffer, as both reading loops see them. */
  function Unpack(buf: bytes): seq<Field>
    requires |buf| >= 4
  {
    ReadAll(ReadRecord, buf, 4, FromBe32(buf, 0))
  }

  function UnpackEnd(buf: bytes): nat
    requires |buf| >= 4
  {
    ReadEnd(ReadRecord, buf, 4, FromBe32(buf, 0))
  }

  /** Sizes a u32 can hold. */
  predicate FieldsOk(fields: seq<Field>) {
    |fields| < U32 && forall f :: f in fields ==> |f.0| < U32 && |f.1| < U32
  }

  /** A u32 in four bytes, highest first. */
  function FourBytes(n: nat): bytes
    requires n < 0x1_0000_0000
  {
    [(n / 0x100_0000) as char, (n / 0x1_0000 % 256) as char, (n / 256 % 256) as char, (n % 256) as char]
  }

  lemma Be32Is(n: nat)
    requires n < 0x1_0000_0000
    ensures Be32(n) == FourBytes(n)
  {
    assert n / 256 / 256 == n / 0x1_0000 && n / 0x1_0000 / 256 == n / 0x100_0000;
    assert BigEndian(n, 4) == BigEndian(n / 256, 3) + [(n % 256) as char];
    assert BigEndian(n / 256, 3) == BigEndian(n / 0x1_0000, 2) + [(n / 256 % 256) as char];
    assert BigEndian(n / 0x1_0000, 2) == BigEndian(n / 0x100_0000, 1) + [(n / 0x1_0000 % 256) as char];
    assert BigEndian(n / 0x100_0000, 1) == BigEndian(n / 0x100_0000 / 256, 0) + [(n / 0x100_0000) as char];
  }

  /** The layout of a buffer with one record and of every record behind another: the count, the two lengths, the
      name and the value. */
  lemma Layout(fields: seq<Field>, f: Field)
    requires FieldsOk(fields + [f])
    ensures Pack([f]) == FourBytes(1) + (FourBytes(|f.0|) + FourBytes(|f.1|) + f.0 + f.1)
    ensures Pack(fields + [f])[4..] == Pack(fields)[4..] + (FourBytes(|f.0|) + FourBytes(|f.1|) + f.0 + f.1)
  {
    assert f in fields + [f];
    Be32Is(1);
    Be32Is(|f.0|);
    Be32Is(|f.1|);
    assert [f][..0] == [] && (fields + [f])[..|fields|] == fields;
    assert WriteAll(Record, [f]) == WriteAll(Record, []) + Record(f);
    assert WriteAll(Record, fields + [f]) == WriteAll(Record, fields) + Record(f);
  }

  lemma {:induction false} WriteCons(show: Field -> bytes, f: Field, fields: seq<Field>)
    ensures WriteAll(show, [f] + fields) == show(f) + WriteAll(show, fields)
  {
    if fields == [] {
      assert [f] + fields == [f] && [f][..0] == [];
      assert WriteAll(show, [f]) == WriteAll(show, []) + show(f);
    } else {
      var front := fields[..|fields| - 1];
      assert ([f] + fields)[..|fields|] == [f] + front;
      WriteCons(show, f, front);
    }
  }

  lemma WriteSnoc(show: Field -> bytes, fields: seq<Field>, f: Field)
    ensures WriteAll(show, fields + [f]) == WriteAll(show, fields) + show(f)
  {
    assert (fields + [f])[..|fields|] == fields;
  }

  lemma RecordAt(f: Field, buf: bytes, pos: nat)
    requires pos + 8 <= |buf| && FromBe32(buf, pos) == |f.0| && FromBe32(buf, pos + 4) == |f.1|
    requires Occurs(f.0, buf, pos + 8) && Occurs(f.1, buf, pos + 8 + |f.0|)
    ensures ReadRecord(buf, pos) == Parsed(f, 8 + |f.0| + |f.1|)
  {
  }

  lemma NumberAt(n: nat, b: bytes, i: nat, w: bytes)
    requires n < U32 && w == Be32(n) && Occurs(w, b, i)
    ensures |w| == 4 && FromBe32(b, i) == n
  {
    Be32RoundTrip(n, b, i);
  }

  lemma RecordRead(f: Field, buf: bytes, pos: nat)
    requires |f.0| < U32 && |f.1| < U32 && Occurs(Record(f), buf, pos)
    ensures ReadRecord(buf, pos) == Parsed(f, |Record(f)|)
  {
    RecordParts(f, buf, pos, Be32(|f.0|), Be32(|f.1|));
  }

  lemma RecordParts(f: Field, buf: bytes, pos: nat, k: bytes, v: bytes)
    requires |f.0| < U32 && |f.1| < U32 && k == Be32(|f.0|) && v == Be32(|f.1|)
    requires Occurs(k + v + f.0 + f.1, buf, pos)
    ensures ReadRecord(buf, pos) == Parsed(f, |k + v + f.0 + f.1|)
  {
    OccursSplit(k + v + f.0, f.1, buf, pos);
    OccursSplit(k + v, f.0, buf, pos);
    OccursSplit(k, v, buf, pos);
    NumberAt(|f.0|, buf, pos, k);
    NumberAt(|f.1|, buf, pos + 4, v);
    RecordAt(f, buf, pos);
  }

  /** `read` reads back each of these fields wherever `show` wrote it in s. */
  ghost predicate FieldsBack(read: FieldReader, show: Field -> bytes, fields: seq<Field>, s: bytes) {
    forall f: Field, j: nat {:trigger Occurs(show(f), s, j)} ::
      f in fields && Occurs(show(f), s, j) ==> read(s, j) == Parsed(f, |show(f)|)
  }

  lemma {:induction false} AllRead(read: FieldReader, show: Field -> bytes, fields: seq<Field>, buf: bytes,
                                   pos: nat)
    requires FieldsBack(read, show, fields, buf) && Occurs(WriteAll(show, fields), buf, pos)
    ensures ReadAll(read, buf, pos, |fields|) == fields
    ensures ReadEnd(read, buf, pos, |fields|) == pos + |WriteAll(show, fields)|
  {
    if fields != [] {
      var f, later := fields[0], fields[1..];
      assert fields == [f] + later;
      WriteCons(show, f, later);
      OccursSplit(show(f), WriteAll(show, later), buf, pos);
      assert read(buf, pos) == Parsed(f, |show(f)|);
      AllRead(read, show, later, buf, pos + |show(f)|);
    }
  }

  /** A packed buffer reads back as the fields packed, its count is the number of records in it, and the
      records end at its last byte. */
  lemma PackRoundTrip(fields: seq<Field>)
    requires FieldsOk(fields)
    ensures |Pack(fields)| >= 4 && FromBe32(Pack(fields), 0) == |fields|
    ensures Unpack(Pack(fields)) == fields && UnpackEnd(Pack(fields)) == |Pack(fields)|
  {
    PackedAt(fields, Pack(fields), Be32(|fields|), WriteAll(Record, fields));
  }

  lemma PackedAt(fields: seq<Field>, buf: bytes, head: bytes, body: bytes)
    requires FieldsOk(fields) && head == Be32(|fields|) && body == WriteAll(Record, fields) && buf == head + body
    ensures |buf| >= 4 && FromBe32(buf, 0) == |fields| && Unpack(buf) == fields && UnpackEnd(buf) == |buf|
  {
    assert Occurs(buf, buf, 0) by {
      assert buf[0..0 + |buf|] == buf;
    }
    OccursSplit(head, body, buf, 0);
    NumberAt(|fields|, buf, 0, head);
    RecordsBack(fields, buf);
    AllRead(ReadRecord, Record, fields, buf, 4);
  }

  lemma RecordsBack(fields: seq<Field>, buf: bytes)
    requires FieldsOk(fields)
    ensures FieldsBack(ReadRecord, Record, fields, buf)
  {
    forall f: Field, j: nat {:trigger Occurs(Record(f), buf, j)} | f in fields && Occurs(Record(f), buf, j)
      ensures ReadRecord(buf, j) == Parsed(f, |Record(f)|)
    {
      RecordRead(f, buf, j);
    }
  }

  // ---------- Fields as a map ----------

  /** The map a list of fields stands for: the last duplicate wins. */
  function AsMap(fields: seq<Field>): map<bytes, bytes> {
    if fields == [] then map[]
    else
      var f := fields[|fields| - 1];
      AsMap(fields[..|fields| - 1])[f.0 := f.1]
  }

  lemma {:induction false} AsMapConcat(a: seq<Field>, b: seq<Field>)
    ensures AsMap(a + b) == AsMap(a) + AsMap(b)
  {
    if b == [] {
      assert a + b == a;
    } else {
      assert (a + b)[..|a + b| - 1] == a + b[..|b| - 1];
      AsMapConcat(a, b[..|b| - 1]);
    }
  }

  /** A way to list a map's entries, as iterating a `HashMap` is. */
  type Order = map<bytes, bytes> -> seq<Field>

  ghost predicate Listing(fields: seq<Field>, m: map<bytes, bytes>) {
    && |fields| == |m| && AsMap(fields) == m
    && forall f :: f in fields ==> f.0 in m && m[f.0] == f.1
  }

  ghost predicate OrderOk(order: Order) {
    forall m: map<bytes, bytes> :: Listing(order(m), m)
  }

  /** `merge`. */
  function Merge(order: Order, held: bytes, fields: seq<Field>): bytes {
    if |held| < 4 then Pack(fields) else Pack(order(AsMap(Unpack(held)) + AsMap(fields)))
  }

  /** The buffer is a well-formed packing of the map m. */
  ghost predicate Holds(buf: bytes, m: map<bytes, bytes>) {
    exists fields :: HoldsAs(buf, m, fields)
  }

  ghost predicate HoldsAs(buf: bytes, m: map<bytes, bytes>, fields: seq<Field>) {
    FieldsOk(fields) && buf == Pack(fields) && AsMap(fields) == m
  }

  /** Map sizes a u32 can hold. */
  ghost predicate MapOk(m: map<bytes, bytes>) {
    |m| < U32 && forall k :: k in m ==> |k| < U32 && |m[k]| < U32
  }

  lemma {:induction false} FieldsInMap(fields: seq<Field>, k: bytes)
    requires k in AsMap(fields)
    ensures (k, AsMap(fields)[k]) in fields
  {
    var front, f := fields[..|fields| - 1], fields[|fields| - 1];
    if f.0 != k {
      FieldsInMap(front, k);
    }
  }

  lemma PackHolds(fields: seq<Field>)
    requires FieldsOk(fields)
    ensures Holds(Pack(fields), AsMap(fields))
  {
    assert HoldsAs(Pack(fields), AsMap(fields), fields);
  }

  lemma ListingOk(fields: seq<Field>, m: map<bytes, bytes>)
    requires Listing(fields, m) && MapOk(m)
    ensures FieldsOk(fields)
  {
  }

  /** Merging is map override, whatever order the map is iterated in. */
  lemma MergeHolds(order: Order, held: bytes, m: map<bytes, bytes>, fields: seq<Field>)
    requires OrderOk(order) && Holds(held, m) && MapOk(m + AsMap(fields))
    ensures Holds(Merge(order, held, fields), m + AsMap(fields))
  {
    var was :| HoldsAs(held, m, was);
    PackRoundTrip(was);
    var after := m + AsMap(fields);
    ListingOk(order(after), after);
    assert HoldsAs(Merge(order, held, fields), after, order(after));
  }

  // ---------- Histories ----------

  /** The buffer after a history of HMSETs on one key; each merge may iterate in its own order. */
  function Written(orders: seq<Order>, history: seq<seq<Field>>): bytes
    requires |orders| == |history| > 0
  {
    var n := |history| - 1;
    if n == 0 then Pack(history[0]) else Merge(orders[n], Written(orders[..n], history[..n]), history[n])
  }

  function AllFields(history: seq<seq<Field>>): seq<Field> {
    if history == [] then [] else AllFields(history[..|history| - 1]) + history[|history| - 1]
  }

  lemma {:induction false} DistinctAtMost(fields: seq<Field>)
    ensures |AsMap(fields)| <= |fields|
  {
    if fields != [] {
      var front, f := fields[..|fields| - 1], fields[|fields| - 1];
      DistinctAtMost(front);
      assert AsMap(fields).Keys == AsMap(front).Keys + {f.0};
    }
  }

  /** After every history of HMSETs on a key the buffer holds the override of all field lists in order,
      and its count is the number of its records. */
  lemma {:induction false} HistoryHolds(orders: seq<Order>, history: seq<seq<Field>>)
    requires |orders| == |history| > 0 && forall o :: o in orders ==> OrderOk(o)
    requires FieldsOk(AllFields(history))
    ensures Holds(Written(orders, history), AsMap(AllFields(history)))
  {
    var n := |history| - 1;
    var before, last := AllFields(history[..n]), history[n];
    if n == 0 {
      assert before + last == last;
      PackHolds(last);
    } else {
      FieldsOkSplit(before, last);
      HistoryHolds(orders[..n], history[..n]);
      AsMapConcat(before, last);
      AsMapOk(before + last);
      MergeHolds(orders[n], Written(orders[..n], history[..n]), AsMap(before), last);
    }
  }

  lemma FieldsOkSplit(a: seq<Field>, b: seq<Field>)
    requires FieldsOk(a + b)
    ensures FieldsOk(a) && FieldsOk(b)
  {
  }

  lemma AsMapOk(fields: seq<Field>)
    requires FieldsOk(fields)
    ensures MapOk(AsMap(fields))
  {
    DistinctAtMost(fields);
    var m := AsMap(fields);
    forall k | k in m
      ensures |k| < U32 && |m[k]| < U32
    {
      FieldsInMap(fields, k);
    }
  }

  // ---------- HGETALL ----------

  function Flattened(fields: seq<Field>): (r: seq<bytes>)
    ensures |r| == 2 * |fields|
  {
    if fields == [] then [] else Flattened(fields[..|fields| - 1]) + [fields[|fields| - 1].0, fields[|fields| - 1].1]
  }

  /** `deserialize_into_resp`. */
  function HashReply(buf: bytes): bytes {
    if |buf| < 4 then "*0\r\n" else Size('*', 2 * FromBe32(buf, 0)) + BulkAll(Flattened(Unpack(buf)))
  }

  lemma {:induction false} FlattenedMembers(fields: seq<Field>, x: bytes)
    requires x in Flattened(fields)
    ensures exists f :: f in fields && (x == f.0 || x == f.1)
  {
    var front, f := fields[..|fields| - 1], fields[|fields| - 1];
    if x in Flattened(front) {
      FlattenedMembers(front, x);
    } else {
      assert f in fields;
    }
  }

  /** The reply's header counts the bulk strings that follow, and reading it back yields exactly the
      stored fields and stops at its last byte. */
  lemma HashReadBack(fields: seq<Field>)
    requires FieldsOk(fields) && 2 * |fields| < U32
    ensures var reply := HashReply(Pack(fields));
            && ParseSize('*', reply, 0) == Parsed(2 * |fields|, |Size('*', 2 * |fields|)|)
            && ParseBulks(reply, |Size('*', 2 * |fields|)|, 2 * |fields|)
               == Parsed(Flattened(fields), |reply| - |Size('*', 2 * |fields|)|)
  {
    PackRoundTrip(fields);
    var reply, items := HashReply(Pack(fields)), Flattened(fields);
    var head := Size('*', 2 * |fields|);
    assert Occurs(head + BulkAll(items), reply, 0) by {
      assert reply[0..|reply|] == reply;
    }
    OccursSplit(head, BulkAll(items), reply, 0);
    SizeRoundTrip('*', 2 * |fields|, reply, 0);
    forall x | x in items
      ensures |x| < U32
    {
      FlattenedMembers(fields, x);
    }
    BulksRoundTrip(items, reply, |head|);
  }

  // ---------- The loops ----------

  /** `serialize`. */
  method Serialize(fields: seq<Field>) returns (buf: bytes)
    ensures buf == Pack(fields)
  {
    buf := AppendRecords(Be32(|fields|), fields, Record);
  }

  /** A stand-in for the record format. */
  ghost predicate IsRecordFormat(show: Field -> bytes) {
    forall f: Field {:trigger Record(f)} :: show(f) == Record(f)
  }

  /** What one pass of the loop writes. */
  method AppendRecord(buf: bytes, f: Field, ghost show: Field -> bytes) returns (r: bytes)
    requires IsRecordFormat(show)
    ensures r == buf + show(f)
  {
    r := buf + Be32(|f.0|);
    r := r + Be32(|f.1|);
    r := r + f.0;
    r := r + f.1;
    assert r == buf + Record(f);
  }

  method AppendRecords(count: bytes, fields: seq<Field>, ghost show: Field -> bytes) returns (buf: bytes)
    requires IsRecordFormat(show)
    ensures buf == count + WriteAll(show, fields)
  {
    buf := count;
    ghost var done: seq<Field> := [];
    for i := 0 to |fields|
      invariant done == fields[..i] && buf == count + WriteAll(show, done)
    {
      WriteSnoc(show, done, fields[i]);
      buf := AppendRecord(buf, fields[i], show);
      done := done + [fields[i]];
    }
    assert done == fields;
  }

  lemma ReadNext(read: FieldReader, buf: bytes, pos: nat, n: nat, f: Field, len: nat, done: seq<Field>)
    requires n > 0 && read(buf, pos) == Parsed(f, len)
    ensures done + ReadAll(read, buf, pos, n) == done + [f] + ReadAll(read, buf, pos + len, n - 1)
  {
  }

  /** A stand-in for the record parser on this buffer. */
  ghost predicate IsRecordReader(read: FieldReader, buf: bytes) {
    forall j: nat {:trigger ReadRecord(buf, j)} :: read(buf, j) == ReadRecord(buf, j)
  }

  method NextRecord(buf: bytes, pos: nat, ghost read: FieldReader) returns (r: Parse<Field>)
    requires IsRecordReader(read, buf)
    ensures r == read(buf, pos)
  {
    r := ReadRecord(buf, pos);
  }

  /** The reading loop of `merge`: a map filled record by record. */
  method ReadMap(held: bytes, n: nat, ghost read: FieldReader) returns (entries: map<bytes, bytes>)
    requires IsRecordReader(read, held)
    ensures entries == AsMap(ReadAll(read, held, 4, n))
  {
    var pos: nat := 4;
    ghost var done: seq<Field>, all := [], ReadAll(read, held, 4, n);
    entries := map[];
    for i := 0 to n
      invariant entries == AsMap(done) && all == done + ReadAll(read, held, pos, n - i)
    {
      var next := NextRecord(held, pos, read);
      if next.NoParse? {
        break;
      }
      var (k, v) := next.value;
      ReadNext(read, held, pos, n - i, next.value, next.len, done);
      assert (done + [next.value])[..|done|] == done;
      entries, pos := entries[k := v], pos + next.len;
      done := done + [next.value];
    }
    assert done == all;
  }

  /** `merge`. */
  method MergeBuffers(order: Order, held: bytes, fields: seq<Field>) returns (buf: bytes)
    ensures buf == Merge(order, held, fields)
  {
    if |held| < 4 {
      buf := Serialize(fields);
      return;
    }
    var entries := ReadMap(held, FromBe32(held, 0), ReadRecord);
    ghost var before := entries;
    for i := 0 to |fields|
      invariant entries == before + AsMap(fields[..i])
    {
      assert fields[..i + 1][..i] == fields[..i];
      entries := entries[fields[i].0 := fields[i].1];
    }
    assert fields[..|fields|] == fields;
    buf := Serialize(order(entries));
  }

  /** A record as the reply shows it. */
  function FieldBulks(f: Field): bytes {
    Bulk(f.0) + Bulk(f.1)
  }

  lemma {:induction false} BulksByField(fields: seq<Field>)
    ensures BulkAll(Flattened(fields)) == WriteAll(FieldBulks, fields)
  {
    if fields != [] {
      var front, f := fields[..|fields| - 1], fields[|fields| - 1];
      BulksByField(front);
      PrintManyConcat(Bulk, Flattened(front), [f.0, f.1]);
      assert [f.0, f.1][1..] == [f.1] && [f.1][1..] == [];
      assert PrintMany(Bulk, [f.0, f.1]) == Bulk(f.0) + PrintMany(Bulk, [f.1]);
      assert PrintMany(Bulk, [f.1]) == Bulk(f.1) + PrintMany(Bulk, []);
    }
  }

  lemma HashReplyIs(buf: bytes, n: nat, written: bytes, records: seq<Field>, body: bytes)
    requires |buf| >= 4 && n == FromBe32(buf, 0) && records == ReadAll(ReadRecord, buf, 4, n)
    requires body == WriteAll(FieldBulks, records)
    ensures written + Size('*', 2 * n) + body == written + HashReply(buf)
  {
    BulksByField(records);
    var head := Size('*', 2 * n);
    assert written + head + body == written + (head + body);
  }

  /** `deserialize_into_resp`: streams the reply onto the end of an output buffer. */
  method DeserializeIntoResp(buf: bytes, written: bytes) returns (out: bytes)
    ensures out == written + HashReply(buf)
  {
    if |buf| < 4 {
      return written + "*0\r\n";
    }
    var n := FromBe32(buf, 0);
    ghost var records, body;
    out, records, body := StreamRecords(n, buf, written + Size('*', 2 * n), FieldBulks, ReadRecord);
    HashReplyIs(buf, n, written, records, body);
  }

  method StreamRecords(n: nat, buf: bytes, written: bytes, ghost show: Field -> bytes,
                       ghost read: FieldReader) returns (out: bytes, ghost records: seq<Field>, ghost body: bytes)
    requires IsReplyFormat(show)
    requires IsRecordReader(read, buf)
    ensures records == ReadAll(read, buf, 4, n) && body == WriteAll(show, records) && out == written + body
  {
    out := written;
    var pos: nat := 4;
    ghost var done: seq<Field> := [];
    records := ReadAll(read, buf, 4, n);
    for i := 0 to n
      invariant records == done + ReadAll(read, buf, pos, n - i)
      invariant out == written + WriteAll(show, done)
    {
      var next := NextRecord(buf, pos, read);
      if next.NoParse? {
        break;
      }
      ReadNext(read, buf, pos, n - i, next.value, next.len, done);
      WriteSnoc(show, done, next.value);
      out := AppendField(out, next.value, show);
      done, pos := done + [next.value], pos + next.len;
    }
    assert done == records;
    body := WriteAll(show, records);
  }

  /** A stand-in for the reply format. */
  ghost predicate IsReplyFormat(show: Field -> bytes) {
    forall f: Field {:trigger FieldBulks(f)} :: show(f) == FieldBulks(f)
  }

  method AppendField(buf: bytes, f: Field, ghost show: Field -> bytes) returns (r: bytes)
    requires IsReplyFormat(show)
    ensures r == buf + show(f)
  {
    r := buf + Bulk(f.0);
    r := r + Bulk(f.1);
    assert r == buf + FieldBulks(f);
  }
}
