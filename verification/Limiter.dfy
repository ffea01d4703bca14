/** The per-connection token bucket of the LITE tier: how many commands it lets through by a given time. */
module Limiter {

  const CAPACITY: real := 2000.0
  const RATE: real := 200000.0

  /** Bucket state, the time the last command was let through, and two running totals. */
  datatype State = State(tokens: real, lastRefill: real, clock: real, admitted: nat, slept: real)

  /** A command is ready at time `now`; if it has to sleep, it sleeps `extra` longer than asked. */
  datatype Arrival = Arrival(now: real, extra: real)

  function Start(t0: real): State {
    State(CAPACITY, t0, t0, 0, 0.0)
  }

  function Refilled(s: State, now: real): real {
    var t := s.tokens + (now - s.lastRefill) * RATE;
    if t < CAPACITY then t else CAPACITY
  }

  function Admit(s: State, a: Arrival): State {
    var t := Refilled(s, a.now);
    if t < 1.0 then
      var sleep := (1.0 - t) / RATE + a.extra;
      State(0.0, a.now, a.now + sleep, s.admitted + 1, s.slept + sleep)
    else
      State(t - 1.0, a.now, a.now, s.admitted + 1, s.slept)
  }

  /** Commands of one connection are handled one after the other. */
  predicate Possible(s: State, a: Arrival) {
    a.now >= s.clock && a.extra >= 0.0
  }

  ghost predicate Run(s: State, arrivals: seq<Arrival>, t: State)
    decreases |arrivals|
  {
    if arrivals == [] then s == t
    else Possible(s, arrivals[0]) && Run(Admit(s, arrivals[0]), arrivals[1..], t)
  }

  /** Admissions are paid for by refilled tokens or by time slept; slept time is refilled once more,
      because `last_refill` is taken before the sleep. */
  predicate Amortised(s: State, t0: real) {
    && 0.0 <= s.tokens <= CAPACITY
    && t0 <= s.lastRefill <= s.clock && 0.0 <= s.slept <= s.clock - t0
    && s.admitted as real + s.tokens <= CAPACITY + (s.lastRefill - t0) * RATE + s.slept * RATE
  }

  lemma AdmitKeepsAmortised(s: State, a: Arrival, t0: real)
    requires Amortised(s, t0) && Possible(s, a)
    ensures Amortised(Admit(s, a), t0)
  {
  }

  lemma {:induction false} RunKeepsAmortised(s: State, arrivals: seq<Arrival>, t: State, t0: real)
    requires Amortised(s, t0) && Run(s, arrivals, t)
    ensures Amortised(t, t0) && t.admitted == s.admitted + |arrivals|
    decreases |arrivals|
  {
    if arrivals != [] {
      AdmitKeepsAmortised(s, arrivals[0], t0);
      RunKeepsAmortised(Admit(s, arrivals[0]), arrivals[1..], t, t0);
    }
  }

  /** In every run at most 2000 + 2 * 200000 T commands are through after T seconds. */
  lemma AdmissionBound(t0: real, arrivals: seq<Arrival>, t: State)
    requires Run(Start(t0), arrivals, t)
    ensures 0.0 <= t.tokens <= 2000.0
    ensures |arrivals| as real <= 2000.0 + 2.0 * 200000.0 * (t.clock - t0)
  {
    RunKeepsAmortised(Start(t0), arrivals, t, t0);
  }

  // ---------- The factor 2 is real ----------

  lemma {:induction false} RunConcat(s: State, a: seq<Arrival>, m: State, b: seq<Arrival>, t: State)
    requires Run(s, a, m) && Run(m, b, t)
    ensures Run(s, a + b, t)
    decreases |a|
  {
    if a == [] {
      assert a + b == b;
    } else {
      RunConcat(Admit(s, a[0]), a[1..], m, b, t);
      assert (a + b)[0] == a[0] && (a + b)[1..] == a[1..] + b;
    }
  }

  /** n commands at once while at least n tokens are left. */
  lemma {:induction false} Burst(s: State, n: nat) returns (arrivals: seq<Arrival>)
    requires s.lastRefill == s.clock && n as real <= s.tokens <= CAPACITY
    ensures |arrivals| == n
    ensures Run(s, arrivals, State(s.tokens - n as real, s.clock, s.clock, s.admitted + n, s.slept))
    decreases n
  {
    arrivals := [];
    if n > 0 {
      var a := Arrival(s.clock, 0.0);
      assert Admit(s, a) == State(s.tokens - 1.0, s.clock, s.clock, s.admitted + 1, s.slept);
      var later := Burst(Admit(s, a), n - 1);
      arrivals := [a] + later;
      assert arrivals[1..] == later;
    }
  }

  /** From an empty bucket, n pairs of back-to-back commands take n sleeps of 1/200000 s. */
  lemma {:induction false} Pairs(s: State, n: nat) returns (arrivals: seq<Arrival>, t: State)
    requires s.tokens == 0.0 && s.lastRefill == s.clock
    ensures |arrivals| == 2 * n && Run(s, arrivals, t)
    ensures t.tokens == 0.0 && t.lastRefill == t.clock == s.clock + n as real / RATE
    decreases n
  {
    arrivals, t := [], s;
    if n > 0 {
      var sleeper := Arrival(s.clock, 0.0);
      var mid := Admit(s, sleeper);
      var payer := Arrival(mid.clock, 0.0);
      var after := Admit(mid, payer);
      assert after.tokens == 0.0 && after.clock == after.lastRefill == s.clock + 1.0 / RATE;
      assert Run(s, [sleeper, payer], after) by {
        assert [sleeper, payer][1..] == [payer] && [payer][1..] == [];
        assert Run(mid, [payer], after);
      }
      var later;
      later, t := Pairs(after, n - 1);
      RunConcat(s, [sleeper, payer], after, later, t);
      arrivals := [sleeper, payer] + later;
      assert n as real / RATE == 1.0 / RATE + (n - 1) as real / RATE;
    }
  }

  /** The bound is attained for every n, so the limiter admits twice its nominal rate. */
  lemma BoundAttained(t0: real, n: nat) returns (arrivals: seq<Arrival>, t: State)
    ensures Run(Start(t0), arrivals, t)
    ensures t.clock == t0 + n as real / 200000.0
    ensures |arrivals| as real == 2000.0 + 2.0 * 200000.0 * (t.clock - t0)
  {
    var burst := Burst(Start(t0), 2000);
    var empty := State(0.0, t0, t0, 2000, 0.0);
    var pairs;
    pairs, t := Pairs(empty, n);
    RunConcat(Start(t0), burst, empty, pairs, t);
    arrivals := burst + pairs;
    assert n as real == RATE * (n as real / RATE);
  }

  // ---------- What passes at once ----------

  /** What is left to spend at a time: what there was and 200000 a second since, but no more than 2000. */
  function Budget(s: State, now: real): real {
    var grown := s.tokens + 200000.0 * (now - s.lastRefill);
    if grown <= 2000.0 then grown else 2000.0
  }

  ghost predicate AllAt(arrivals: seq<Arrival>, now: real) {
    forall a :: a in arrivals ==> a.now == now && a.extra >= 0.0
  }

  /** Commands that arrive together all pass without sleeping if and only if the budget covers them. */
  lemma {:induction false} BurstIff(s: State, arrivals: seq<Arrival>, now: real, t: State)
    requires 0.0 <= s.tokens <= 2000.0 && s.lastRefill <= s.clock <= now
    requires arrivals != [] && AllAt(arrivals, now)
    ensures |arrivals| as real <= Budget(s, now) ==>
              (Run(s, arrivals, t) <==>
                 t == State(Budget(s, now) - |arrivals| as real, now, now, s.admitted + |arrivals|, s.slept))
    ensures |arrivals| as real > Budget(s, now) && Run(s, arrivals, t) ==> t.slept > s.slept && t.clock > now
    decreases |arrivals|
  {
    var a, later := arrivals[0], arrivals[1..];
    assert a in arrivals;
    var after := Admit(s, a);
    assert Refilled(s, now) == Budget(s, now);
    if later == [] {
      assert Run(after, later, t) <==> after == t;
    } else if Budget(s, now) >= 1.0 {
      assert Budget(after, now) == Budget(s, now) - 1.0;
      BurstIff(after, later, now, t);
    } else {
      assert later[0] in arrivals && after.clock > now;
      assert !Run(after, later, t);
    }
  }

  /** The bucket as `handle_connection` keeps it. */
  class TokenBucket {
    var tokens: real
    var lastRefill: real

    constructor (now: real)
      ensures tokens == CAPACITY && lastRefill == now
    {
      tokens, lastRefill := CAPACITY, now;
    }

    /** Lets one command through; `extra` is how much longer than asked a sleep takes. */
    method Take(now: real, extra: real, ghost s: State) returns (done: real)
      requires tokens == s.tokens && lastRefill == s.lastRefill && Possible(s, Arrival(now, extra))
      modifies this
      ensures var t := Admit(s, Arrival(now, extra));
              tokens == t.tokens && lastRefill == t.lastRefill && done == t.clock
    {
      var elapsed := now - lastRefill;
      lastRefill := now;
      tokens := tokens + elapsed * RATE;
      if tokens >= CAPACITY {
        tokens := CAPACITY;
      }
      if tokens < 1.0 {
        done := now + (1.0 - tokens) / RATE + extra;
        tokens := 0.0;
      } else {
        done := now;
        tokens := tokens - 1.0;
      }
    }
  }
}
