/** The RESP wire format (sections "Bulk strings" and "Arrays" of the Redis serialization protocol
    specification): parsers at a position of a buffer, printers, and the laws between them. */
module Resp {
  import opened Bytes

  /** `parse_int` accumulates in a u32 that wraps around. */
  const U32: nat := 0x1_0000_0000

  // ---------- Numbers ----------

  predicate IsDigit(c: byte) {
    '0' <= c <= '9'
  }

  function DigitValue(c: byte): int {
    c as int - '0' as int
  }

  /** How many digits start at position i. */
  function DigitRun(s: bytes, i: nat): (n: nat)
    requires i <= |s|
    ensures i + n <= |s|
    decreases |s| - i
  {
    if i == |s| || !IsDigit(s[i]) then 0 else 1 + DigitRun(s, i + 1)
  }

  /** The unbounded value of the digits in positions i..j. */
  function NumberValue(s: bytes, i: nat, j: nat): int
    requires i <= j <= |s|
    decreases j
  {
    if i == j then 0 else 10 * NumberValue(s, i, j - 1) + DigitValue(s[j - 1])
  }

  function Digit(d: nat): byte
    requires d < 10
  {
    ('0' as int + d) as char
  }

  /** `to_string` on an unsigned number. */
  function Decimal(n: nat): (r: bytes)
    ensures r != []
  {
    if n < 10 then [Digit(n)] else Decimal(n / 10) + [Digit(n % 10)]
  }

  /** A number printed anywhere reads as itself. */
  lemma {:induction false} DecimalIsNumber(n: nat, s: bytes, i: nat)
    requires i + |Decimal(n)| <= |s| && s[i..i + |Decimal(n)|] == Decimal(n)
    ensures NumberValue(s, i, i + |Decimal(n)|) == n
  {
    var d := Decimal(n);
    assert s[i + |d| - 1] == s[i..i + |d|][|d| - 1];
    if n >= 10 {
      assert s[i..i + |d| - 1] == s[i..i + |d|][..|d| - 1];
      DecimalIsNumber(n / 10, s, i);
    } else {
      assert NumberValue(s, i, i) == 0;
    }
  }

  lemma {:induction false} DecimalDigits(n: nat)
    ensures forall k :: 0 <= k < |Decimal(n)| ==> IsDigit(Decimal(n)[k])
  {
    if n >= 10 {
      DecimalDigits(n / 10);
    }
  }

  lemma {:induction false} DigitRunIs(s: bytes, i: nat, j: nat)
    requires i <= j < |s| && !IsDigit(s[j])
    requires forall k :: i <= k < j ==> IsDigit(s[k])
    ensures DigitRun(s, i) == j - i
    decreases j - i
  {
    if i < j {
      DigitRunIs(s, i + 1, j);
    }
  }

  lemma {:induction false} DigitRunDigits(s: bytes, i: nat)
    requires i <= |s|
    ensures var j := i + DigitRun(s, i);
            (forall k :: i <= k < j ==> IsDigit(s[k])) && (j < |s| ==> !IsDigit(s[j]))
    decreases |s| - i
  {
    if i < |s| && IsDigit(s[i]) {
      DigitRunDigits(s, i + 1);
    }
  }

  lemma {:induction false} NumberStable(s: bytes, more: bytes, i: nat, j: nat)
    requires i <= j <= |s|
    ensures NumberValue(s + more, i, j) == NumberValue(s, i, j)
    decreases j
  {
    if i < j {
      NumberStable(s, more, i, j - 1);
    }
  }

  // ---------- Parsers at a position of a buffer ----------

  /** What a parser found and how many bytes it takes. */
  datatype Parse<+T> = NoParse | Parsed(value: T, len: nat)

  /** A parser of one item at a position. */
  type Reader = (bytes, nat) -> Parse<bytes>

  /** `parse_int`: value and length of a nonempty run of digits. */
  function ParseInt(s: bytes, i: nat): Parse<nat>
    requires i <= |s|
  {
    var n := DigitRun(s, i);
    if n == 0 then NoParse else Parsed(NumberValue(s, i, i + n) % U32, n)
  }

  /** A tagged size line such as `$5` or `*3`: the number and the line's length. */
  function ParseSize(tag: byte, s: bytes, i: nat): (r: Parse<nat>)
    ensures r.Parsed? ==> 0 < r.len <= |s| - i
  {
    if i >= |s| || s[i] != tag then NoParse
    else
      match ParseInt(s, i + 1)
      case NoParse => NoParse
      case Parsed(size, len) =>
        var end := i + 1 + len;
        if |s| < end + 2 || s[end] != '\r' || s[end + 1] != '\n' then NoParse else Parsed(size, len + 3)
  }

  /** `parse_bulk_str`: data and total length. */
  function ParseBulk(s: bytes, i: nat): (r: Parse<bytes>)
    ensures r.Parsed? ==> 0 < r.len <= |s| - i && |r.value| < r.len
  {
    match ParseSize('$', s, i)
    case NoParse => NoParse
    case Parsed(size, head) =>
      var end := i + head + size;
      if |s| < end + 2 || s[end] != '\r' || s[end + 1] != '\n' then NoParse
      else Parsed(s[i + head..end], head + size + 2)
  }

  /** n items in a row, each read by `parse`: the items and their total length. */
  function ParseMany(parse: Reader, s: bytes, i: nat, n: nat): (r: Parse<seq<bytes>>)
    requires i <= |s|
    ensures r.Parsed? ==> |r.value| == n && r.len <= |s| - i
    decreases n
  {
    if n == 0 then Parsed([], 0)
    else
      match parse(s, i)
      case NoParse => NoParse
      case Parsed(item, len) =>
        if i + len > |s| then NoParse
        else
          match ParseMany(parse, s, i + len, n - 1)
          case NoParse => NoParse
          case Parsed(items, more) => Parsed([item] + items, len + more)
  }

  /** n bulk strings in a row. */
  function ParseBulks(s: bytes, i: nat, n: nat): (r: Parse<seq<bytes>>)
    requires i <= |s|
    ensures r.Parsed? ==> |r.value| == n && r.len <= |s| - i
  {
    ParseMany(ParseBulk, s, i, n)
  }

  // ---------- A successful parse is unchanged by appending bytes ----------

  lemma SizeStable(tag: byte, s: bytes, i: nat, more: bytes)
    requires ParseSize(tag, s, i).Parsed?
    ensures ParseSize(tag, s + more, i) == ParseSize(tag, s, i)
  {
    var end := i + 1 + DigitRun(s, i + 1);
    DigitRunDigits(s, i + 1);
    DigitRunIs(s + more, i + 1, end);
    NumberStable(s, more, i + 1, end);
  }

  lemma BulkStable(s: bytes, i: nat, more: bytes)
    requires ParseBulk(s, i).Parsed?
    ensures ParseBulk(s + more, i) == ParseBulk(s, i)
  {
    SizeStable('$', s, i, more);
    var Parsed(size, head) := ParseSize('$', s, i);
    assert (s + more)[i + head..i + head + size] == s[i + head..i + head + size];
  }

  lemma {:induction false} ManyStable(parse: Reader, s: bytes, i: nat, n: nat, more: bytes)
    requires forall j: nat :: parse(s, j).Parsed? ==> parse(s + more, j) == parse(s, j)
    requires i <= |s| && ParseMany(parse, s, i, n).Parsed?
    ensures ParseMany(parse, s + more, i, n) == ParseMany(parse, s, i, n)
    decreases n
  {
    if n > 0 {
      ManyStable(parse, s, i + parse(s, i).len, n - 1, more);
    }
  }

  lemma BulksStable(s: bytes, i: nat, n: nat, more: bytes)
    requires i <= |s| && ParseBulks(s, i, n).Parsed?
    ensures ParseBulks(s + more, i, n) == ParseBulks(s, i, n)
  {
    forall j: nat | ParseBulk(s, j).Parsed?
      ensures ParseBulk(s + more, j) == ParseBulk(s, j)
    {
      BulkStable(s, j, more);
    }
    ManyStable(ParseBulk, s, i, n, more);
  }

  // ---------- Exactly what is parsed ----------

  predicate AllDigits(s: bytes, i: nat, j: nat)
    requires i <= j <= |s|
  {
    forall k :: i <= k < j ==> IsDigit(s[k])
  }

  /** A line of `len` bytes at position i: the tag, at least one digit, carriage return and line feed. */
  predicate IsSizeLine(tag: byte, s: bytes, i: nat, len: nat) {
    && len >= 4 && i + len <= |s|
    && s[i] == tag && AllDigits(s, i + 1, i + len - 2) && s[i + len - 2] == '\r' && s[i + len - 1] == '\n'
  }

  /** A size is read from such lines and nothing else, and is their number modulo 2^32. */
  lemma SizeIff(tag: byte, s: bytes, i: nat, n: nat, len: nat)
    ensures ParseSize(tag, s, i) == Parsed(n, len)
       <==> IsSizeLine(tag, s, i, len) && n == NumberValue(s, i + 1, i + len - 2) % 0x1_0000_0000
  {
    if i < |s| {
      DigitRunDigits(s, i + 1);
    }
    if IsSizeLine(tag, s, i, len) {
      DigitRunIs(s, i + 1, i + len - 2);
    }
  }

  /** A bulk string: a size line, as many bytes as it says, carriage return and line feed. */
  predicate IsBulk(s: bytes, i: nat, data: bytes, len: nat) {
    && i + len <= |s| && len >= |data| + 6
    && IsSizeLine('$', s, i, len - |data| - 2)
    && NumberValue(s, i + 1, i + len - |data| - 4) % 0x1_0000_0000 == |data|
    && s[i + len - |data| - 2..i + len - 2] == data && s[i + len - 2] == '\r' && s[i + len - 1] == '\n'
  }

  /** Bulk strings are read from those and nothing else. */
  lemma BulkIff(s: bytes, i: nat, data: bytes, len: nat)
    ensures ParseBulk(s, i) == Parsed(data, len) <==> IsBulk(s, i, data, len)
  {
    if ParseBulk(s, i) == Parsed(data, len) {
      var Parsed(size, head) := ParseSize('$', s, i);
      SizeIff('$', s, i, size, head);
    }
    if IsBulk(s, i, data, len) {
      SizeIff('$', s, i, |data|, len - |data| - 2);
    }
  }

  // ---------- Parsing a suffix ----------

  lemma {:induction false} NumberShift(s: bytes, from: nat, i: nat, j: nat)
    requires i <= j && from + j <= |s|
    ensures NumberValue(s[from..], i, j) == NumberValue(s, from + i, from + j)
    decreases j
  {
    if i < j {
      NumberShift(s, from, i, j - 1);
    }
  }

  lemma {:induction false} DigitRunShift(s: bytes, from: nat, i: nat)
    requires from + i <= |s|
    ensures DigitRun(s[from..], i) == DigitRun(s, from + i)
    decreases |s| - i
  {
    if from + i < |s| && IsDigit(s[from + i]) {
      DigitRunShift(s, from, i + 1);
    }
  }

  lemma SizeShift(tag: byte, s: bytes, from: nat, i: nat)
    requires from <= |s|
    ensures ParseSize(tag, s[from..], i) == ParseSize(tag, s, from + i)
  {
    if from + i < |s| {
      DigitRunShift(s, from, i + 1);
      NumberShift(s, from, i + 1, i + 1 + DigitRun(s, from + i + 1));
    }
  }

  lemma BulkShift(s: bytes, from: nat, i: nat)
    requires from <= |s|
    ensures ParseBulk(s[from..], i) == ParseBulk(s, from + i)
  {
    SizeShift('$', s, from, i);
    if ParseBulk(s, from + i).Parsed? {
      var Parsed(size, head) := ParseSize('$', s, from + i);
      assert s[from..][i + head..i + head + size] == s[from + i + head..from + i + head + size];
    }
  }

  lemma {:induction false} ManyShift(parse: Reader, s: bytes, from: nat, i: nat, n: nat)
    requires from + i <= |s| && forall j: nat :: parse(s[from..], j) == parse(s, from + j)
    ensures ParseMany(parse, s[from..], i, n) == ParseMany(parse, s, from + i, n)
    decreases n
  {
    if n > 0 && parse(s, from + i).Parsed? && from + i + parse(s, from + i).len <= |s| {
      ManyShift(parse, s, from, i + parse(s, from + i).len, n - 1);
    }
  }

  lemma BulksShift(s: bytes, from: nat, i: nat, n: nat)
    requires from + i <= |s|
    ensures ParseBulks(s[from..], i, n) == ParseBulks(s, from + i, n)
  {
    forall j: nat
      ensures ParseBulk(s[from..], j) == ParseBulk(s, from + j)
    {
      BulkShift(s, from, j);
    }
    ManyShift(ParseBulk, s, from, i, n);
  }

  // ---------- Printers ----------

  function Size(tag: byte, n: nat): bytes {
    [tag] + Decimal(n) + CRLF
  }

  /** `make_bulk_string`. */
  function Bulk(data: bytes): bytes {
    Size('$', |data|) + data + CRLF
  }

  function PrintMany(show: bytes -> bytes, items: seq<bytes>): bytes {
    if items == [] then [] else show(items[0]) + PrintMany(show, items[1..])
  }

  function BulkAll(items: seq<bytes>): bytes {
    PrintMany(Bulk, items)
  }

  /** A client request: an array of bulk strings. */
  function Request(args: seq<bytes>): bytes {
    Size('*', |args|) + BulkAll(args)
  }

  /** `make_int`. */
  function IntReply(v: int): bytes {
    [':'] + (if v < 0 then ['-'] + Decimal(-v) else Decimal(v)) + CRLF
  }

  // ---------- Printing then parsing ----------

  /** x is written at position i of s. */
  predicate Occurs(x: bytes, s: bytes, i: nat) {
    i + |x| <= |s| && s[i..i + |x|] == x
  }

  lemma OccursSplit(a: bytes, b: bytes, s: bytes, i: nat)
    requires Occurs(a + b, s, i)
    ensures Occurs(a, s, i) && Occurs(b, s, i + |a|)
  {
    var w := s[i..i + |a + b|];
    assert s[i..i + |a|] == w[..|a|] && s[i + |a|..i + |a| + |b|] == w[|a|..];
  }

  /** A printed size of any length is read modulo 2^32. */
  lemma SizeWraps(tag: byte, n: nat, s: bytes, i: nat)
    requires Occurs(Size(tag, n), s, i)
    ensures ParseSize(tag, s, i) == Parsed(n % 0x1_0000_0000, |Size(tag, n)|)
  {
    var ds, end := Decimal(n), i + 1 + |Decimal(n)|;
    OccursSplit([tag] + ds, CRLF, s, i);
    OccursSplit([tag], ds, s, i);
    assert s[i] == s[i..i + 1][0] && s[end] == s[end..end + 2][0] && s[end + 1] == s[end..end + 2][1];
    DecimalDigits(n);
    forall k | i + 1 <= k < end
      ensures IsDigit(s[k])
    {
      assert s[k] == s[i + 1..end][k - i - 1];
    }
    DigitRunIs(s, i + 1, end);
    DecimalIsNumber(n, s, i + 1);
  }

  lemma SizeRoundTrip(tag: byte, n: nat, s: bytes, i: nat)
    requires n < U32 && Occurs(Size(tag, n), s, i)
    ensures ParseSize(tag, s, i) == Parsed(n, |Size(tag, n)|)
  {
    SizeWraps(tag, n, s, i);
  }

  /** An integer line as a client reads it. */
  function ReadInt(s: bytes, i: nat): Parse<int> {
    if i + 1 < |s| && s[i] == ':' && s[i + 1] == '-' then
      match ParseSize('-', s, i + 1)
      case NoParse => NoParse
      case Parsed(n, len) => Parsed(-(n as int), len + 1)
    else
      match ParseSize(':', s, i)
      case NoParse => NoParse
      case Parsed(n, len) => Parsed(n, len)
  }

  /** A printed integer reads as itself, whatever its sign. */
  lemma IntRoundTrip(v: int, s: bytes, i: nat)
    requires -(U32 as int) < v < U32 && Occurs(IntReply(v), s, i)
    ensures ReadInt(s, i) == Parsed(v, |IntReply(v)|)
  {
    if v < 0 {
      assert IntReply(v) == [':'] + Size('-', -v);
      OccursSplit([':'], Size('-', -v), s, i);
      SizeRoundTrip('-', -v, s, i + 1);
      assert s[i] == s[i..i + 1][0];
    } else {
      assert IntReply(v) == Size(':', v);
      SizeRoundTrip(':', v, s, i);
      DecimalDigits(v);
      assert s[i + 1] == s[i..i + |IntReply(v)|][1];
    }
  }

  lemma BulkRoundTrip(data: bytes, s: bytes, i: nat)
    requires |data| < U32 && Occurs(Bulk(data), s, i)
    ensures ParseBulk(s, i) == Parsed(data, |Bulk(data)|)
  {
    var line := Size('$', |data|);
    OccursSplit(line + data, CRLF, s, i);
    OccursSplit(line, data, s, i);
    SizeRoundTrip('$', |data|, s, i);
    var end := i + |line| + |data|;
    assert s[end] == s[end..end + 2][0] && s[end + 1] == s[end..end + 2][1];
  }

  /** `parse` reads back each of these items wherever `show` wrote it in s. */
  ghost predicate ReadsBack(parse: Reader, show: bytes -> bytes, items: seq<bytes>, s: bytes) {
    forall x: bytes, j: nat {:trigger Occurs(show(x), s, j)} ::
      x in items && Occurs(show(x), s, j) ==> parse(s, j) == Parsed(x, |show(x)|)
  }

  lemma {:induction false} ManyRoundTrip(parse: Reader, show: bytes -> bytes, items: seq<bytes>, s: bytes, i: nat)
    requires ReadsBack(parse, show, items, s)
    requires Occurs(PrintMany(show, items), s, i)
    ensures ParseMany(parse, s, i, |items|) == Parsed(items, |PrintMany(show, items)|)
  {
    if items != [] {
      var x, xs := items[0], items[1..];
      assert items == [x] + xs;
      var first, later := show(x), PrintMany(show, xs);
      OccursSplit(first, later, s, i);
      ManyRoundTrip(parse, show, xs, s, i + |first|);
      assert parse(s, i) == Parsed(x, |first|);
      FirstOfMany(parse, s, i, x, xs, |first|, |later|);
    }
  }

  lemma FirstOfMany(parse: Reader, s: bytes, i: nat, x: bytes, xs: seq<bytes>,
                    len: nat, more: nat)
    requires i + len <= |s| && parse(s, i) == Parsed(x, len)
    requires ParseMany(parse, s, i + len, |xs|) == Parsed(xs, more)
    ensures ParseMany(parse, s, i, |xs| + 1) == Parsed([x] + xs, len + more)
  {
  }

  lemma BulkReadsBack(items: seq<bytes>, s: bytes)
    requires forall x :: x in items ==> |x| < U32
    ensures ReadsBack(ParseBulk, Bulk, items, s)
  {
    forall x: bytes, j: nat {:trigger Occurs(Bulk(x), s, j)} | x in items && Occurs(Bulk(x), s, j)
      ensures ParseBulk(s, j) == Parsed(x, |Bulk(x)|)
    {
      BulkRoundTrip(x, s, j);
    }
  }

  lemma BulksRoundTrip(items: seq<bytes>, s: bytes, i: nat)
    requires forall x :: x in items ==> |x| < U32
    requires Occurs(BulkAll(items), s, i)
    ensures ParseBulks(s, i, |items|) == Parsed(items, |BulkAll(items)|)
  {
    BulkReadsBack(items, s);
    ManyRoundTrip(ParseBulk, Bulk, items, s, i);
  }

  lemma {:induction false} PrintManyConcat(show: bytes -> bytes, a: seq<bytes>, b: seq<bytes>)
    ensures PrintMany(show, a + b) == PrintMany(show, a) + PrintMany(show, b)
  {
    if a == [] {
      assert a + b == b;
    } else {
      assert (a + b)[1..] == a[1..] + b;
      PrintManyConcat(show, a[1..], b);
    }
  }

  // ---------- The loops ----------

  method ParseIntAt(buf: bytes, start: nat) returns (r: Parse<nat>)
    requires start <= |buf|
    ensures r == ParseInt(buf, start)
  {
    var i, val := start, 0;
    while i < |buf| && IsDigit(buf[i])
      invariant start <= i <= |buf|
      invariant i - start + DigitRun(buf, i) == DigitRun(buf, start)
      invariant val == NumberValue(buf, start, i) % U32
    {
      WrapStep(NumberValue(buf, start, i), DigitValue(buf[i]));
      val := (val * 10 + (buf[i] as int - '0' as int)) % U32;
      i := i + 1;
    }
    r := if i == start then NoParse else Parsed(val, i - start);
  }

  /** Wrapping after every digit is wrapping once at the end. */
  lemma WrapStep(v: int, d: int)
    ensures (v % U32 * 10 + d) % U32 == (10 * v + d) % U32
  {
    assert 10 * v + d == (v % U32 * 10 + d) + U32 * (10 * (v / U32));
  }

  method ParseSizeAt(tag: byte, buf: bytes, start: nat) returns (r: Parse<nat>)
    ensures r == ParseSize(tag, buf, start)
  {
    var pos := start;
    if pos >= |buf| || buf[pos] != tag {
      return NoParse;
    }
    pos := pos + 1;
    var parsed := ParseIntAt(buf, pos);
    if parsed.NoParse? {
      return NoParse;
    }
    var Parsed(size, len) := parsed;
    pos := pos + len;
    if pos + 2 > |buf| || buf[pos..pos + 2] != CRLF {
      return NoParse;
    }
    return Parsed(size, pos + 2 - start);
  }

  /** `parse_bulk_str`. */
  method ParseBulkAt(buf: bytes, start: nat) returns (r: Parse<bytes>)
    ensures r == ParseBulk(buf, start)
  {
    var head := ParseSizeAt('$', buf, start);
    if head.NoParse? {
      return NoParse;
    }
    var Parsed(size, len) := head;
    var pos := start + len;
    if pos + size > |buf| {
      return NoParse;
    }
    var data := buf[pos..pos + size];
    pos := pos + size;
    if pos + 2 > |buf| || buf[pos..pos + 2] != CRLF {
      return NoParse;
    }
    return Parsed(data, pos + 2 - start);
  }

  /** The argument loops of HMSET, VADD, VSEARCH, MSET and MGET: n bulk strings from an offset. */
  method ParseBulksAt(buf: bytes, start: nat, n: nat) returns (r: Parse<seq<bytes>>)
    requires start <= |buf|
    ensures r == ParseBulks(buf, start, n)
  {
    r := ReadMany(buf, start, n, ParseBulk);
  }

  /** One bulk string, as the result of a stand-in for the parser. */
  method ReadNext(buf: bytes, pos: nat, ghost parse: Reader)
    returns (r: Parse<bytes>)
    requires forall j: nat {:trigger ParseBulk(buf, j)} :: parse(buf, j) == ParseBulk(buf, j)
    ensures r == parse(buf, pos) && (r.Parsed? ==> r.len <= |buf| - pos)
  {
    r := ParseBulkAt(buf, pos);
  }

  method ReadMany(buf: bytes, start: nat, n: nat, ghost parse: Reader)
    returns (r: Parse<seq<bytes>>)
    requires start <= |buf|
    requires forall j: nat {:trigger ParseBulk(buf, j)} :: parse(buf, j) == ParseBulk(buf, j)
    ensures r == ParseMany(parse, buf, start, n)
  {
    var items: seq<bytes>, pos := [], start;
    CompletedNothing(ParseMany(parse, buf, start, n));
    for i := 0 to n
      invariant start <= pos <= |buf| && |items| == i
      invariant ParseMany(parse, buf, start, n) == Completed(items, pos - start, ParseMany(parse, buf, pos, n - i))
    {
      var parsed := ReadNext(buf, pos, parse);
      if parsed.NoParse? {
        return NoParse;
      }
      var Parsed(item, len) := parsed;
      ManyNext(parse, items, pos - start, buf, pos, n - i, item, len);
      items, pos := items + [item], pos + len;
    }
    assert items + [] == items;
    return Parsed(items, pos - start);
  }

  /** What the loop will return once the rest has been parsed. */
  ghost function Completed(items: seq<bytes>, len: nat, rest: Parse<seq<bytes>>): Parse<seq<bytes>> {
    match rest
    case NoParse => NoParse
    case Parsed(later, more) => Parsed(items + later, len + more)
  }

  lemma CompletedNothing(rest: Parse<seq<bytes>>)
    ensures Completed([], 0, rest) == rest
  {
    if rest.Parsed? {
      assert [] + rest.value == rest.value;
    }
  }

  lemma ManyNext(parse: Reader, items: seq<bytes>, done: nat, s: bytes, i: nat, n: nat,
                 item: bytes, len: nat)
    requires n > 0 && parse(s, i) == Parsed(item, len) && i + len <= |s|
    ensures Completed(items, done, ParseMany(parse, s, i, n))
         == Completed(items + [item], done + len, ParseMany(parse, s, i + len, n - 1))
  {
    var rest := ParseMany(parse, s, i + len, n - 1);
    if rest.Parsed? {
      assert items + ([item] + rest.value) == items + [item] + rest.value;
    }
  }
}
