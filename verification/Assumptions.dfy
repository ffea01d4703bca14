/** The parameters the theorems quantify over exist: a text handling, a model and map orders that meet every
    assumption made of them, all at once. */
module Assumptions {
  import opened Bytes
  import opened Resp
  import opened Commands
  import opened HashEngine
  import opened Codec
  import opened Server
  import opened KeyValue
  import opened SearchWire
  import opened RerankLimits

  /** A small float syntax with every kind of value in it. */
  function ParseFloat(b: bytes): Option<F32> {
    if b == "0" then Some(Finite(0.0))
    else if b == "1" then Some(Finite(1.0))
    else if b == "-1" then Some(Finite(-1.0))
    else if b == "inf" then Some(PosInf)
    else if b == "-inf" then Some(NegInf)
    else if b == "NaN" then Some(NaN)
    else None
  }

  /** ASCII is UTF-8. */
  predicate Ascii(b: bytes) {
    forall c :: c in b ==> c < 128 as char
  }

  function ShowFloat(f: F32): (r: bytes)
    ensures |r| <= 4 && Ascii(r)
  {
    match f
    case Finite(v) => if v == 0.0 then "0" else if v > 0.0 then "1" else "-1"
    case PosInf => "inf"
    case NegInf => "-inf"
    case NaN => "NaN"
  }

  lemma FloatPrints(b: bytes)
    requires ParseFloat(b).Some?
    ensures ParseFloat(ShowFloat(ParseFloat(b).value)) == ParseFloat(b)
  {
  }

  function SomeText(): Text {
    Text(Ascii, VerbOf, ParseFloat, ShowFloat, b => if b == "0" then Some(0) else None,
         b => if b == "1" then Some(1) else None)
  }

  lemma NamesAreAscii(name: bytes)
    requires IsVerbName(name)
    ensures Ascii(name)
  {
  }

  lemma TextsExist()
    ensures VerbsOk(SomeText()) && FloatsOk(SomeText())
    ensures SomeText().parseF32("-1") == Some(Finite(-1.0))
  {
    var t := SomeText();
    forall name: bytes {:trigger IsVerbName(name)} | IsVerbName(name)
      ensures t.utf8(name)
    {
      NamesAreAscii(name);
    }
    assert VerbsFrom(t, b => b);
    forall b: bytes | t.parseF32(b).Some?
      ensures PrintsBack(t, t.parseF32(b).value)
    {
      FloatPrints(b);
    }
  }

  /** Any map can be listed. */
  ghost function Listed(m: map<bytes, bytes>): (r: seq<Field>)
    ensures Listing(r, m)
  {
    if m == map[] then []
    else
      var k :| k in m;
      var rest := Listed(m - {k});
      assert (rest + [(k, m[k])])[..|rest|] == rest;
      assert (m - {k})[k := m[k]] == m;
      rest + [(k, m[k])]
  }

  lemma OrdersExist()
    ensures OrderOk(m => Listed(m))
  {
  }

  function SomeModel(): Model {
    Model(seq(100, _ => ZERO_CHUNK), _ => 7, (key, nonce, p) => (p % 256) as char)
  }

  /** A score in ten-thousandths. */
  function PrintedScore(score: real): int {
    Truncated(score * 10000.0)
  }

  /** An environment under which all theorems about runs, searches on the wire, replay and recovery apply. */
  lemma EnvironmentsExist() returns (env: Env)
    ensures ModelOk(env.model) && env.persist && OrdersOk(env) && VerbsOk(env.text) && FloatsOk(env.text)
    ensures AnswersBySearch(env, PlainScoring(), PrintedScore) && ScoresAsCoded(PlainScoring())
  {
    TextsExist();
    OrdersExist();
    PlainScoringOk();
    env := Env(SomeText(), SomeModel(), _ => m => Listed(m), (s, floats, k) => [], true);
    env := SearchersExist(env, PlainScoring(), PrintedScore);
  }
}
