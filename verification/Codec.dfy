/** The value codec: 64-byte zero-padded chunks, an expert key chosen by the router, XOR, and for the
    cascade pair a keystream over the whole value first. */
module Codec {
  import opened Bytes
  import opened FlatLayout

  type Chunk = c: bytes | |c| == 64 witness seq(64, _ => '\0')

  const ZERO_CHUNK: Chunk := seq(64, _ => '\0')

  /** The parts of the model the codec uses. The router and the ChaCha20 keystream (by key, nonce and
      position) are arbitrary functions. */
  datatype Model = Model(bitKeys: seq<Chunk>, route: bytes -> nat, keystream: (bytes, bytes, nat) -> byte)

  ghost predicate ModelOk(m: Model) {
    |m.bitKeys| == 100 && forall c: bytes :: m.route(c) < 100
  }

  // ---------- XOR on bytes ----------

  function Pow2(n: nat): nat {
    if n == 0 then 1 else 2 * Pow2(n - 1)
  }

  function XorBits(a: nat, b: nat, n: nat): (r: nat)
    ensures r < Pow2(n)
    decreases n
  {
    if n == 0 then 0 else 2 * XorBits(a / 2, b / 2, n - 1) + (if a % 2 != b % 2 then 1 else 0)
  }

  lemma {:induction false} XorBitsTwice(a: nat, b: nat, n: nat)
    requires a < Pow2(n)
    ensures XorBits(XorBits(a, b, n), b, n) == a
    decreases n
  {
    if n > 0 {
      XorBitsTwice(a / 2, b / 2, n - 1);
      var r := XorBits(a, b, n);
      assert r / 2 == XorBits(a / 2, b / 2, n - 1) && r % 2 == (if a % 2 != b % 2 then 1 else 0);
    }
  }

  lemma {:induction false} XorBitsFixes(a: nat, b: nat, n: nat)
    requires a < Pow2(n) && b < Pow2(n)
    ensures XorBits(a, b, n) == a <==> b == 0
    decreases n
  {
    if n > 0 {
      XorBitsFixes(a / 2, b / 2, n - 1);
    }
  }

  lemma Pow2Of8()
    ensures Pow2(8) == 256
  {
  }

  function Xor(a: byte, b: byte): byte {
    Pow2Of8();
    XorBits(a as int, b as int, 8) as char
  }

  lemma XorTwice(a: byte, b: byte)
    ensures Xor(Xor(a, b), b) == a
  {
    Pow2Of8();
    XorBitsTwice(a as int, b as int, 8);
  }

  lemma XorFixes(a: byte, b: byte)
    ensures Xor(a, b) == a <==> b == '\0'
  {
    Pow2Of8();
    XorBitsFixes(a as int, b as int, 8);
  }

  /** Bit i of a number. */
  function BitAt(n: nat, i: nat): bool {
    if i == 0 then n % 2 == 1 else BitAt(n / 2, i - 1)
  }

  lemma {:induction false} XorBitsAt(a: nat, b: nat, n: nat, i: nat)
    requires i < n
    ensures BitAt(XorBits(a, b, n), i) == (BitAt(a, i) != BitAt(b, i))
    decreases n
  {
    var r := XorBits(a, b, n);
    assert r / 2 == XorBits(a / 2, b / 2, n - 1) && r % 2 == (if a % 2 != b % 2 then 1 else 0);
    if i > 0 {
      XorBitsAt(a / 2, b / 2, n - 1, i - 1);
    }
  }

  /** Each of the eight bits is set where exactly one operand has it. */
  lemma XorByBits(a: byte, b: byte, i: nat)
    requires i < 8
    ensures BitAt(Xor(a, b) as int, i) == (BitAt(a as int, i) != BitAt(b as int, i))
  {
    Pow2Of8();
    XorBitsAt(a as int, b as int, 8, i);
  }

  // ---------- Specification ----------

  /** An empty value still takes one chunk. */
  function ChunkCount(n: nat): nat {
    if n == 0 then 1 else (n + 63) / 64
  }

  function ChunkAt(input: bytes, i: nat): Chunk {
    seq(64, j requires 0 <= j < 64 => if 64 * i + j < |input| then input[64 * i + j] else '\0')
  }

  /** The zero-padded chunks of a value. */
  function Chunks(input: bytes): seq<Chunk> {
    seq(ChunkCount(|input|), i requires 0 <= i < ChunkCount(|input|) => ChunkAt(input, i))
  }

  function XorChunk(c: Chunk, key: Chunk): Chunk {
    seq(64, j requires 0 <= j < 64 => Xor(c[j], key[j]))
  }

  function XorEach(chunks: seq<Chunk>, key: Chunk): (r: seq<Chunk>)
    ensures |r| == |chunks|
  {
    seq(|chunks|, i requires 0 <= i < |chunks| => XorChunk(chunks[i], key))
  }

  /** Keystream byte for position p under an expert key: its first 32 bytes are the cipher key, the
      next 12 the nonce. */
  function KeystreamByte(m: Model, key: Chunk, p: nat): byte {
    m.keystream(key[0..32], key[32..44], p)
  }

  function ApplyKeystream(m: Model, key: Chunk, input: bytes): (r: bytes)
    ensures |r| == |input|
  {
    seq(|input|, p requires 0 <= p < |input| => Xor(input[p], KeystreamByte(m, key, p)))
  }

  /** The router sees the first chunk of a value of at least 64 bytes, and zeros otherwise. */
  function Expert(m: Model, input: bytes): nat {
    m.route(if |input| >= 64 then input[..64] else ZERO_CHUNK)
  }

  function ExpertKey(m: Model, input: bytes): Chunk
    requires ModelOk(m)
  {
    m.bitKeys[Expert(m, input)]
  }

  /** `forward_raw`. */
  function ForwardRaw(m: Model, input: bytes): (nat, seq<Chunk>)
    requires ModelOk(m)
  {
    (Expert(m, input), XorEach(Chunks(input), ExpertKey(m, input)))
  }

  /** `forward_cascade`. */
  function ForwardCascade(m: Model, input: bytes): (nat, seq<Chunk>)
    requires ModelOk(m)
  {
    (Expert(m, input), XorEach(Chunks(ApplyKeystream(m, ExpertKey(m, input), input)), ExpertKey(m, input)))
  }

  function Truncate(s: bytes, n: nat): bytes {
    if n < |s| then s[..n] else s
  }

  /** `reconstruct_raw`. */
  function ReconstructRaw(m: Model, idx: nat, chunks: seq<Chunk>, len: nat): bytes
    requires ModelOk(m) && idx < 100
  {
    Truncate(Flat(XorEach(chunks, m.bitKeys[idx])), len)
  }

  /** `reconstruct_cascade`. */
  function ReconstructCascade(m: Model, idx: nat, chunks: seq<Chunk>, len: nat): bytes
    requires ModelOk(m) && idx < 100
  {
    ApplyKeystream(m, m.bitKeys[idx], ReconstructRaw(m, idx, chunks, len))
  }

  // ---------- Round trips ----------

  lemma XorEachTwice(chunks: seq<Chunk>, key: Chunk)
    ensures XorEach(XorEach(chunks, key), key) == chunks
  {
    forall i | 0 <= i < |chunks|
      ensures XorChunk(XorChunk(chunks[i], key), key) == chunks[i]
    {
      forall j | 0 <= j < 64
        ensures Xor(Xor(chunks[i][j], key[j]), key[j]) == chunks[i][j]
      {
        XorTwice(chunks[i][j], key[j]);
      }
    }
  }

  lemma KeystreamTwice(m: Model, key: Chunk, input: bytes)
    ensures ApplyKeystream(m, key, ApplyKeystream(m, key, input)) == input
  {
    forall p | 0 <= p < |input|
      ensures Xor(Xor(input[p], KeystreamByte(m, key, p)), KeystreamByte(m, key, p)) == input[p]
    {
      XorTwice(input[p], KeystreamByte(m, key, p));
    }
  }

  lemma FlatOfChunks(chunks: seq<Chunk>, p: nat)
    requires p < 64 * |chunks|
    ensures |Flat(chunks)| == 64 * |chunks| && Flat(chunks)[p] == chunks[p / 64][p % 64]
  {
    FlatLength(chunks, 64);
    FlatRow(chunks, 64, p / 64);
    assert Flat(chunks)[p / 64 * 64..p / 64 * 64 + 64][p % 64] == Flat(chunks)[p];
  }

  /** Cutting into padded chunks loses nothing: the first n bytes of the chunks are the value. */
  lemma ChunksKeepInput(input: bytes)
    ensures Truncate(Flat(Chunks(input)), |input|) == input
  {
    FlatOfChunks(Chunks(input), 0);
    forall p | 0 <= p < |input|
      ensures Flat(Chunks(input))[p] == input[p]
    {
      FlatOfChunks(Chunks(input), p);
      assert 64 * (p / 64) + p % 64 == p;
    }
  }

  /** What the XOR reconstruction reads back from either encoding. */
  lemma RawReads(m: Model, input: bytes)
    requires ModelOk(m)
    ensures var raw := ForwardRaw(m, input); ReconstructRaw(m, raw.0, raw.1, |input|) == input
    ensures var cas := ForwardCascade(m, input);
            ReconstructRaw(m, cas.0, cas.1, |input|) == ApplyKeystream(m, m.bitKeys[cas.0], input)
  {
    var key := ExpertKey(m, input);
    var hidden := ApplyKeystream(m, key, input);
    XorEachTwice(Chunks(input), key);
    XorEachTwice(Chunks(hidden), key);
    ChunksKeepInput(input);
    ChunksKeepInput(hidden);
  }

  /** MSET then MGET: the value comes back byte for byte. */
  lemma RawRoundTrip(m: Model, input: bytes)
    requires ModelOk(m)
    ensures var (idx, chunks) := ForwardRaw(m, input);
            && ReconstructRaw(m, idx, chunks, |input|) == input
            && |chunks| == ChunkCount(|input|)
  {
    RawReads(m, input);
  }

  /** SET then GET: the value comes back byte for byte. */
  lemma CascadeRoundTrip(m: Model, input: bytes)
    requires ModelOk(m)
    ensures var (idx, chunks) := ForwardCascade(m, input);
            && ReconstructCascade(m, idx, chunks, |input|) == input
            && |chunks| == ChunkCount(|input|)
  {
    RawReads(m, input);
    KeystreamTwice(m, ExpertKey(m, input), input);
  }

  /** Crossing the pairs reads the value under the keystream. */
  lemma CrossedReads(m: Model, input: bytes)
    requires ModelOk(m)
    ensures var (idx, chunks) := ForwardCascade(m, input);
            ReconstructRaw(m, idx, chunks, |input|) == ApplyKeystream(m, m.bitKeys[idx], input)
    ensures var (idx, chunks) := ForwardRaw(m, input);
            ReconstructCascade(m, idx, chunks, |input|) == ApplyKeystream(m, m.bitKeys[idx], input)
  {
    RawReads(m, input);
  }

  /** So a crossed pair reads the value exactly when the keystream is zero along it. */
  lemma CrossedReadsIff(m: Model, key: Chunk, input: bytes)
    ensures ApplyKeystream(m, key, input) == input
       <==> forall p: nat :: p < |input| ==> KeystreamByte(m, key, p) == '\0'
  {
    forall p: nat | p < |input|
      ensures ApplyKeystream(m, key, input)[p] == input[p] <==> KeystreamByte(m, key, p) == '\0'
    {
      XorFixes(input[p], KeystreamByte(m, key, p));
    }
  }

  // ---------- What is stored ----------

  /** Byte p of a value, and zero behind its end. */
  function Padded(input: bytes, p: nat): byte {
    if p < |input| then input[p] else '\0'
  }

  /** These are the chunks of a value under an expert chosen by its first 64 bytes, or by zeros when there are
      fewer. */
  predicate ChosenFor(m: Model, input: bytes, idx: nat, chunks: seq<Chunk>)
    requires ModelOk(m)
  {
    && idx == m.route(if |input| < 64 then seq(64, _ => '\0') else input[0..64])
    && |chunks| == (if |input| == 0 then 1 else if |input| % 64 == 0 then |input| / 64 else |input| / 64 + 1)
  }

  lemma CountIs(n: nat)
    ensures ChunkCount(n) == if n == 0 then 1 else if n % 64 == 0 then n / 64 else n / 64 + 1
  {
  }

  lemma Chosen(m: Model, input: bytes)
    requires ModelOk(m)
    ensures var (idx, chunks) := ForwardRaw(m, input); ChosenFor(m, input, idx, chunks)
    ensures var (idx, chunks) := ForwardCascade(m, input); ChosenFor(m, input, idx, chunks)
  {
    CountIs(|input|);
  }

  lemma ChunkByte(input: bytes, key: Chunk, i: nat, j: nat)
    requires i < ChunkCount(|input|) && j < 64
    ensures XorEach(Chunks(input), key)[i][j] == Xor(key[j], Padded(input, 64 * i + j))
  {
    XorCommutes(Padded(input, 64 * i + j), key[j]);
  }

  /** MSET stores every byte, and the zeros behind the value, XORed with the expert's key byte. */
  lemma RawStores(m: Model, input: bytes, i: nat, j: nat)
    requires ModelOk(m)
    ensures var (idx, chunks) := ForwardRaw(m, input);
            && ChosenFor(m, input, idx, chunks)
            && (i < |chunks| && j < 64 ==> chunks[i][j] == Xor(m.bitKeys[idx][j], Padded(input, 64 * i + j)))
  {
    Chosen(m, input);
    if i < ChunkCount(|input|) && j < 64 {
      ChunkByte(input, ExpertKey(m, input), i, j);
    }
  }

  /** Byte p of a value under the keystream of a key, and zero behind its end. */
  function Hidden(m: Model, key: Chunk, input: bytes, p: nat): byte {
    if p < |input| then Xor(input[p], m.keystream(key[0..32], key[32..44], p)) else '\0'
  }

  /** SET stores every byte XORed with the keystream byte at its position and then with the key byte; the zeros
      behind the value get the key byte alone. */
  lemma CascadeStores(m: Model, input: bytes, i: nat, j: nat)
    requires ModelOk(m)
    ensures var (idx, chunks) := ForwardCascade(m, input);
            && ChosenFor(m, input, idx, chunks)
            && (i < |chunks| && j < 64 ==>
                  chunks[i][j] == Xor(m.bitKeys[idx][j], Hidden(m, m.bitKeys[idx], input, 64 * i + j)))
  {
    Chosen(m, input);
    if i < ChunkCount(|input|) && j < 64 {
      var key := ExpertKey(m, input);
      ChunkByte(ApplyKeystream(m, key, input), key, i, j);
    }
  }

  /** So a stored byte is the value's own exactly where the key byte is zero. */
  lemma StoredPlainIff(m: Model, input: bytes, i: nat, j: nat)
    requires ModelOk(m) && i < |ForwardRaw(m, input).1| && j < 64
    ensures var (idx, chunks) := ForwardRaw(m, input);
            chunks[i][j] == Padded(input, 64 * i + j) <==> m.bitKeys[idx][j] == '\0'
  {
    RawStores(m, input, i, j);
    XorCommutes(Padded(input, 64 * i + j), ExpertKey(m, input)[j]);
    XorFixes(Padded(input, 64 * i + j), ExpertKey(m, input)[j]);
  }

  lemma {:induction false} XorBitsCommute(a: nat, b: nat, n: nat)
    ensures XorBits(a, b, n) == XorBits(b, a, n)
    decreases n
  {
    if n > 0 {
      XorBitsCommute(a / 2, b / 2, n - 1);
    }
  }

  lemma XorCommutes(a: byte, b: byte)
    ensures Xor(a, b) == Xor(b, a)
  {
    Pow2Of8();
    XorBitsCommute(a as int, b as int, 8);
  }

  lemma OneZeroChunk(key: Chunk)
    ensures XorEach(Chunks([]), key) == [XorChunk(ZERO_CHUNK, key)]
  {
    assert Chunks([])[0] == ChunkAt([], 0) == ZERO_CHUNK;
  }

  // ---------- The loops ----------

  /** `forward_with_expert_scalar`. */
  method XorRow(row: Chunk, key: Chunk) returns (out: Chunk)
    ensures out == XorChunk(row, key)
  {
    var output := new byte[64](_ => '\0');
    for i := 0 to 64
      invariant forall j :: 0 <= j < i ==> output[j] == Xor(row[j], key[j])
    {
      output[i] := Xor(row[i], key[i]);
    }
    out := output[..];
  }

  /** The chunk loop shared by both encoders. */
  method EncodeChunks(m: Model, idx: nat, input: bytes) returns (results: seq<Chunk>)
    requires ModelOk(m) && idx < 100 && input != []
    ensures results == XorEach(Chunks(input), m.bitKeys[idx])
  {
    results := [];
    for i := 0 to ChunkCount(|input|)
      invariant results == XorEach(Chunks(input), m.bitKeys[idx])[..i]
    {
      var start := i * 64;
      var end := if start + 64 < |input| then start + 64 else |input|;
      var row := input[start..end] + ZERO_CHUNK[end - start..];
      assert row == ChunkAt(input, i);
      var out := XorRow(row, m.bitKeys[idx]);
      results := results + [out];
    }
  }

  method EncodeRaw(m: Model, input: bytes) returns (idx: nat, chunks: seq<Chunk>)
    requires ModelOk(m)
    ensures (idx, chunks) == ForwardRaw(m, input)
  {
    idx := Expert(m, input);
    if input == [] {
      var out := XorRow(ZERO_CHUNK, m.bitKeys[idx]);
      OneZeroChunk(m.bitKeys[idx]);
      chunks := [out];
    } else {
      chunks := EncodeChunks(m, idx, input);
    }
  }

  method EncodeCascade(m: Model, input: bytes) returns (idx: nat, chunks: seq<Chunk>)
    requires ModelOk(m)
    ensures (idx, chunks) == ForwardCascade(m, input)
  {
    idx := Expert(m, input);
    if input == [] {
      var out := XorRow(ZERO_CHUNK, m.bitKeys[idx]);
      assert ApplyKeystream(m, m.bitKeys[idx], input) == [];
      OneZeroChunk(m.bitKeys[idx]);
      chunks := [out];
    } else {
      var temp := new byte[|input|](i requires 0 <= i < |input| => input[i]);
      KeystreamInPlace(m, m.bitKeys[idx], temp);
      assert temp[..] == ApplyKeystream(m, m.bitKeys[idx], input);
      chunks := EncodeChunks(m, idx, temp[..]);
    }
  }

  /** `apply_keystream`: the buffer is overwritten. */
  method KeystreamInPlace(m: Model, key: Chunk, buf: array<byte>)
    modifies buf
    ensures buf[..] == ApplyKeystream(m, key, old(buf[..]))
  {
    for p := 0 to buf.Length
      invariant forall i :: 0 <= i < p ==> buf[i] == Xor(old(buf[i]), KeystreamByte(m, key, i))
      invariant forall i :: p <= i < buf.Length ==> buf[i] == old(buf[i])
    {
      buf[p] := Xor(buf[p], KeystreamByte(m, key, p));
    }
  }

  method DecodeRaw(m: Model, idx: nat, chunks: seq<Chunk>, len: nat) returns (out: bytes)
    requires ModelOk(m) && idx < 100
    ensures out == ReconstructRaw(m, idx, chunks, len)
  {
    out := [];
    ghost var rows := XorEach(chunks, m.bitKeys[idx]);
    for i := 0 to |chunks|
      invariant out == Flat(rows[..i])
    {
      var row := XorRow(chunks[i], m.bitKeys[idx]);
      FlatAppend(rows[..i], row);
      assert rows[..i + 1] == rows[..i] + [row];
      out := out + row;
    }
    assert rows[..|chunks|] == rows;
    if len < |out| {
      out := out[..len];
    }
  }

  method DecodeCascade(m: Model, idx: nat, chunks: seq<Chunk>, len: nat) returns (out: bytes)
    requires ModelOk(m) && idx < 100
    ensures out == ReconstructCascade(m, idx, chunks, len)
  {
    var hidden := DecodeRaw(m, idx, chunks, len);
    var buf := new byte[|hidden|](i requires 0 <= i < |hidden| => hidden[i]);
    assert buf[..] == hidden;
    KeystreamInPlace(m, m.bitKeys[idx], buf);
    out := buf[..];
  }
}
