/** 64-bit words as their bits (index b is the bit of weight 2^b), and packed vectors of words. */
module Bits {
  import opened Counting

  type Word = w: seq<bool> | |w| == 64 witness seq(64, _ => false)

  const ZERO: Word := seq(64, _ => false)

  function Xor(a: Word, b: Word): Word {
    seq(64, i requires 0 <= i < 64 => a[i] != b[i])
  }

  function Not(a: Word): Word {
    seq(64, i requires 0 <= i < 64 => !a[i])
  }

  function Or(a: Word, b: Word): Word {
    seq(64, i requires 0 <= i < 64 => a[i] || b[i])
  }

  /** `count_ones`. */
  function Popcount(w: seq<bool>): nat {
    if w == [] then 0 else Popcount(w[..|w| - 1]) + (if w[|w| - 1] then 1 else 0)
  }

  function Complement(v: seq<Word>): (r: seq<Word>)
    ensures |r| == |v|
  {
    seq(|v|, i requires 0 <= i < |v| => Not(v[i]))
  }

  /** Bit p of a packed vector; positions past the end read as unset. */
  predicate Bit(v: seq<Word>, p: nat) {
    p / 64 < |v| && v[p / 64][p % 64]
  }

  /** Word-by-word XOR/popcount distance over the first n words. */
  function Hamming(a: seq<Word>, b: seq<Word>, n: nat): nat
    requires n <= |a| && n <= |b|
  {
    if n == 0 then 0 else Hamming(a, b, n - 1) + Popcount(Xor(a[n - 1], b[n - 1]))
  }

  lemma BitOfWord(v: seq<Word>, m: nat, i: nat)
    requires m < |v| && i < 64
    ensures Bit(v, 64 * m + i) == v[m][i]
  {
    assert (64 * m + i) / 64 == m && (64 * m + i) % 64 == i;
  }

  /** A run of positions that mirrors a word holds that word's set bits. */
  lemma {:induction false} CountInRun(w: seq<bool>, base: nat, f: nat -> bool)
    requires forall i: nat :: i < |w| ==> f(base + i) == w[i]
    ensures Count(base + |w|, f) == Count(base, f) + Popcount(w)
  {
    if w != [] {
      CountInRun(w[..|w| - 1], base, f);
      assert f(base + (|w| - 1)) == w[|w| - 1];
    }
  }

  lemma {:induction false} HammingCountsWords(a: seq<Word>, b: seq<Word>, n: nat, differ: nat -> bool)
    requires n <= |a| && n <= |b|
    requires forall m: nat, i: nat :: m < n && i < 64 ==> Xor(a[m], b[m])[i] == differ(64 * m + i)
    ensures Hamming(a, b, n) == Count(64 * n, differ)
  {
    if n > 0 {
      HammingCountsWords(a, b, n - 1, differ);
      var w, base := Xor(a[n - 1], b[n - 1]), 64 * (n - 1);
      forall i: nat | i < |w|
        ensures differ(base + i) == w[i]
      {
      }
      CountInRun(w, base, differ);
      assert base + |w| == 64 * n;
    }
  }

  /** The word loop counts the positions where the two packed vectors differ. */
  lemma HammingCountsBits(a: seq<Word>, b: seq<Word>, n: nat, differ: nat -> bool)
    requires n <= |a| && n <= |b|
    requires forall p: nat :: differ(p) == (Bit(a, p) != Bit(b, p))
    ensures Hamming(a, b, n) == Count(64 * n, differ)
  {
    forall m: nat, i: nat | m < n && i < 64
      ensures Xor(a[m], b[m])[i] == differ(64 * m + i)
    {
      BitOfWord(a, m, i);
      BitOfWord(b, m, i);
    }
    HammingCountsWords(a, b, n, differ);
  }
}
