/** Sign quantisation: one bit per component, packed by bytes and reassembled little-endian. */
module Quantizer {
  import opened Bytes
  import opened Counting
  import opened Bits

  /** The sign of component p as stored: components past the end count as negative. */
  predicate Sign(floats: seq<F32>, p: nat) {
    p < |floats| && floats[p].NonNegative()
  }

  /** Reference definition: bit b of word j is the sign of component 64 j + b. */
  function Quantize(floats: seq<F32>, dim: nat): (r: seq<Word>)
    ensures |r| == dim / 64
  {
    seq(dim / 64, j requires 0 <= j < dim / 64 => seq(64, b requires 0 <= b < 64 => Sign(floats, 64 * j + b)))
  }

  lemma QuantizedBit(floats: seq<F32>, dim: nat, p: nat)
    requires dim % 64 == 0
    ensures Bit(Quantize(floats, dim), p) == (p < dim && Sign(floats, p))
    ensures p < dim && p < |floats| && floats[p].Finite? ==>
              Bit(Quantize(floats, dim), p) == (floats[p].value >= 0.0)
    ensures p < dim && p < |floats| && !floats[p].Finite? ==> Bit(Quantize(floats, dim), p) == floats[p].PosInf?
    ensures p >= dim || p >= |floats| ==> !Bit(Quantize(floats, dim), p)
  {
    var j, b := p / 64, p % 64;
    assert 64 * j + b == p;
  }

  /** The XOR/popcount distance of two quantised vectors is the number of components whose signs disagree. */
  lemma DistanceIsSignDisagreement(x: seq<F32>, y: seq<F32>, dim: nat, disagree: nat -> bool)
    requires dim % 64 == 0
    requires forall p: nat :: disagree(p) == (Sign(x, p) != Sign(y, p))
    ensures Hamming(Quantize(x, dim), Quantize(y, dim), dim / 64) == Count(dim, disagree)
  {
    var a, b := Quantize(x, dim), Quantize(y, dim);
    var differ := (p: nat) => Bit(a, p) != Bit(b, p);
    HammingCountsBits(a, b, dim / 64, differ);
    forall p: nat | p < dim
      ensures differ(p) == disagree(p)
    {
      QuantizedBit(x, dim, p);
      QuantizedBit(y, dim, p);
    }
    CountSame(dim, differ, disagree);
    assert 64 * (dim / 64) == dim;
  }

  /** A byte as its bits. */
  type Octet = o: seq<bool> | |o| == 8 witness seq(8, _ => false)

  /** `SharedVectorStore::quantize`. */
  method QuantizeBytewise(floats: seq<F32>, dim: nat) returns (r: seq<Word>)
    requires dim % 64 == 0
    ensures r == Quantize(floats, dim)
  {
    var packed := PackSigns(floats, dim);
    r := [];
    for i := 0 to dim / 64
      invariant |r| == i && forall j: nat :: j < i ==> r[j] == Quantize(floats, dim)[j]
    {
      var val := AssembleWord(packed[8 * i..8 * i + 8]);
      forall b: nat | b < 64
        ensures val[b] == Sign(floats, 64 * i + b)
      {
        assert val[b] == packed[8 * i + b / 8][b % 8];
        PackedBit(floats, dim, 8 * i + b / 8, b % 8);
        assert 8 * (8 * i + b / 8) + b % 8 == 64 * i + b;
      }
      assert val == Quantize(floats, dim)[i];
      r := r + [val];
    }
  }

  /** Byte m when the components below i are packed. */
  function OctetUpTo(floats: seq<F32>, m: nat, i: nat): Octet {
    seq(8, b requires 0 <= b < 8 => 8 * m + b < i && Sign(floats, 8 * m + b))
  }

  /** All bytes when the components below i are packed. */
  function PackedTo(floats: seq<F32>, n: nat, i: nat): (r: seq<Octet>)
    ensures |r| == n
  {
    seq(n, m requires 0 <= m < n => OctetUpTo(floats, m, i))
  }

  /** Setting the next sign's bit, or leaving it clear, packs one more component. */
  lemma PackedNext(packed: seq<Octet>, floats: seq<F32>, n: nat, i: nat, at: nat, bit: nat)
    requires packed == PackedTo(floats, n, i) && i == 8 * at + bit && bit < 8 && at < n
    ensures (if Sign(floats, i) then packed[at := packed[at][bit := true]] else packed) == PackedTo(floats, n, i + 1)
  {
    var next := if Sign(floats, i) then packed[at := packed[at][bit := true]] else packed;
    forall m: nat | m < n
      ensures next[m] == OctetUpTo(floats, m, i + 1)
    {
      if m == at {
        assert OctetUpTo(floats, m, i + 1) == OctetUpTo(floats, m, i)[bit := Sign(floats, i)];
      }
    }
  }

  lemma PackedNone(floats: seq<F32>, n: nat)
    ensures seq(n, _ => seq(8, _ => false)) == PackedTo(floats, n, 0)
  {
    forall m: nat | m < n
      ensures seq(8, _ => false) == OctetUpTo(floats, m, 0)
    {
    }
  }

  lemma ByteAndBit(i: nat, dim: nat, at: nat, bit: nat)
    requires i < dim && dim % 64 == 0 && at == i / 8 && bit == i % 8
    ensures i == 8 * at + bit && bit < 8 && at < dim / 8
  {
  }

  /** The packing loop: bit i % 8 of byte i / 8 for every component below the limit. */
  method PackSigns(floats: seq<F32>, dim: nat) returns (packed: seq<Octet>)
    requires dim % 64 == 0
    ensures packed == PackedTo(floats, dim / 8, if |floats| < dim then |floats| else dim)
  {
    packed := seq(dim / 8, _ => seq(8, _ => false));
    PackedNone(floats, dim / 8);
    var limit := if |floats| < dim then |floats| else dim;
    for i := 0 to limit
      invariant packed == PackedTo(floats, dim / 8, i)
    {
      var at, bit := i / 8, i % 8;
      ByteAndBit(i, dim, at, bit);
      PackedNext(packed, floats, dim / 8, i, at, bit);
      if floats[i].NonNegative() {
        packed := packed[at := packed[at][bit := true]];
      }
    }
  }

  /** Once all components are packed, bit b of byte m is the sign of component 8 m + b. */
  lemma PackedBit(floats: seq<F32>, dim: nat, m: nat, b: nat)
    requires dim % 64 == 0 && m < dim / 8 && b < 8
    ensures PackedTo(floats, dim / 8, if |floats| < dim then |floats| else dim)[m][b] == Sign(floats, 8 * m + b)
  {
  }

  /** Little-endian assembly: byte j supplies bits 8 j .. 8 j + 7. */
  method AssembleWord(octets: seq<Octet>) returns (val: Word)
    requires |octets| == 8
    ensures forall b: nat :: b < 64 ==> val[b] == octets[b / 8][b % 8]
  {
    val := ZERO;
    for j := 0 to 8
      invariant forall b: nat :: b < 64 ==> val[b] == (b < 8 * j && octets[b / 8][b % 8])
    {
      var shifted: Word := seq(64, b requires 0 <= b < 64 => 8 * j <= b < 8 * j + 8 && octets[j][b - 8 * j]);
      val := Or(val, shifted);
    }
  }

  /** The benchmark engine's direct packing agrees on full-length vectors (it indexes every component). */
  method QuantizeDirect(floats: seq<F32>, dim: nat) returns (r: seq<Word>)
    requires dim % 64 == 0 && |floats| >= dim
    ensures r == Quantize(floats, dim)
  {
    r := seq(dim / 64, _ => ZERO);
    for i := 0 to dim
      invariant |r| == dim / 64
      invariant forall m: nat, b: nat :: m < |r| && b < 64 ==> r[m][b] == (64 * m + b < i && Sign(floats, 64 * m + b))
    {
      if floats[i].NonNegative() {
        var at, bit := i / 64, i % 64;
        r := r[at := r[at][bit := true]];
      }
    }
    assert forall m: nat :: m < |r| ==> r[m] == Quantize(floats, dim)[m];
  }
}
