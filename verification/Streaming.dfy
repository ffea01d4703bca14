/** A read loop over a growing buffer, for any step function: how the bytes were cut into reads does not
    matter when a step's decision is unchanged by more input. */
module Streaming {
  import opened Bytes

  /** What one pass of the loop does with the front of the buffer: handle it, wait for more bytes, or die. */
  datatype Outcome<+S> = Done(state: S, reply: bytes, next: nat) | Wait | Crash

  type Stepper<!S> = (S, bytes) -> Outcome<S>

  /** A pass that handles something consumes at least one byte and no more than there are. */
  ghost predicate Progress<S(!new)>(step: Stepper<S>) {
    forall s: S, buf: bytes :: buf != [] && step(s, buf).Done? ==> 0 < step(s, buf).next <= |buf|
  }

  /** A pass that does not wait is unchanged by more bytes. */
  ghost predicate Stable<S(!new)>(step: Stepper<S>) {
    forall s: S, a: bytes, b: bytes {:trigger step(s, a + b)} ::
      a != [] && !step(s, a).Wait? ==> step(s, a + b) == step(s, a)
  }

  /** The state, the replies and the bytes left over when the loop stops; `alive` is false after a crash. */
  datatype Drained<+S> = Drained(state: S, out: bytes, tail: bytes, alive: bool)

  /** The inner loop on one buffer. */
  function Drain<S>(step: Stepper<S>, s: S, buf: bytes): Drained<S>
    decreases |buf|
  {
    if buf == [] then Drained(s, [], [], true)
    else
      match step(s, buf)
      case Wait => Drained(s, [], buf, true)
      case Crash => Drained(s, [], [], false)
      case Done(t, reply, next) =>
        if 0 < next <= |buf| then Prefixed(reply, Drain(step, t, buf[next..])) else Drained(t, reply, buf, true)
  }

  function Prefixed<S>(reply: bytes, r: Drained<S>): Drained<S> {
    r.(out := reply + r.out)
  }

  /** The outer loop: each read is appended to what was left over; nothing is handled after a crash. */
  function Feed<S>(step: Stepper<S>, s: S, pending: bytes, cuts: seq<bytes>): Drained<S>
    decreases |cuts|, 0
  {
    if cuts == [] then Drained(s, [], pending, true)
    else Continue(step, Drain(step, s, pending + cuts[0]), cuts[1..])
  }

  function Continue<S>(step: Stepper<S>, r: Drained<S>, cuts: seq<bytes>): Drained<S>
    decreases |cuts|, 1
  {
    if r.alive then Prefixed(r.out, Feed(step, r.state, r.tail, cuts)) else r
  }

  function Concat(cuts: seq<bytes>): bytes {
    if cuts == [] then [] else cuts[0] + Concat(cuts[1..])
  }

  /** Draining a buffer that arrives in two parts. */
  ghost function Resume<S>(step: Stepper<S>, r: Drained<S>, more: bytes): Drained<S> {
    if r.alive then Prefixed(r.out, Drain(step, r.state, r.tail + more)) else r
  }

  lemma PrefixedTwice<S>(a: bytes, b: bytes, r: Drained<S>)
    ensures Prefixed(a, Prefixed(b, r)) == Prefixed(a + b, r)
    ensures Prefixed([], r) == r
  {
  }

  lemma ResumePrefixed<S>(step: Stepper<S>, reply: bytes, r: Drained<S>, more: bytes)
    ensures Resume(step, Prefixed(reply, r), more) == Prefixed(reply, Resume(step, r, more))
  {
    PrefixedTwice(reply, r.out, Drain(step, r.state, r.tail + more));
  }

  lemma {:induction false} DrainSplit<S(!new)>(step: Stepper<S>, s: S, a: bytes, b: bytes)
    requires Progress(step) && Stable(step)
    ensures Drain(step, s, a + b) == Resume(step, Drain(step, s, a), b)
    decreases |a|
  {
    if a == [] {
      assert a + b == b;
      PrefixedTwice([], [], Drain(step, s, b));
    } else {
      match step(s, a)
      case Wait =>
        PrefixedTwice([], [], Drain(step, s, a + b));
      case Crash =>
        assert step(s, a + b) == step(s, a);
      case Done(t, reply, next) =>
        assert step(s, a + b) == step(s, a);
        assert (a + b)[next..] == a[next..] + b;
        DrainSplit(step, t, a[next..], b);
        ResumePrefixed(step, reply, Drain(step, t, a[next..]), b);
    }
  }

  /** What is left over stays left over until more bytes arrive. */
  lemma {:induction false} DrainIdle<S(!new)>(step: Stepper<S>, s: S, buf: bytes)
    requires Progress(step)
    ensures var r := Drain(step, s, buf); r.alive ==> Drain(step, r.state, r.tail) == Drained(r.state, [], r.tail, true)
    decreases |buf|
  {
    if buf != [] && step(s, buf).Done? {
      DrainIdle(step, step(s, buf).state, buf[step(s, buf).next..]);
    }
  }

  /** For every stream and every way of cutting it into reads: the same state, the same replies, the
      same bytes left over, and the same crash or none, as one read of the whole stream. */
  lemma Fragmentation<S(!new)>(step: Stepper<S>, s: S, cuts: seq<bytes>)
    requires Progress(step) && Stable(step)
    ensures Feed(step, s, [], cuts) == Drain(step, s, Concat(cuts))
  {
    FragmentationFrom(step, s, [], cuts);
    assert [] + Concat(cuts) == Concat(cuts);
  }

  lemma {:induction false} FragmentationFrom<S(!new)>(step: Stepper<S>, s: S, pending: bytes, cuts: seq<bytes>)
    requires Progress(step) && Stable(step)
    requires Drain(step, s, pending) == Drained(s, [], pending, true)
    ensures Feed(step, s, pending, cuts) == Drain(step, s, pending + Concat(cuts))
    decreases |cuts|
  {
    if cuts == [] {
      assert pending + Concat(cuts) == pending;
    } else {
      var read, later := pending + cuts[0], cuts[1..];
      var r := Drain(step, s, read);
      assert pending + Concat(cuts) == read + Concat(later);
      DrainSplit(step, s, read, Concat(later));
      if r.alive {
        DrainIdle(step, s, read);
        FragmentationFrom(step, r.state, r.tail, later);
      }
    }
  }

  /** A property every handled pass keeps is kept by the loop. */
  lemma {:induction false} DrainKeeps<S(!new)>(step: Stepper<S>, inv: S -> bool, s: S, buf: bytes)
    requires forall t: S, b: bytes {:trigger step(t, b)} ::
               inv(t) && b != [] && step(t, b).Done? ==> inv(step(t, b).state)
    requires inv(s)
    ensures inv(Drain(step, s, buf).state)
    decreases |buf|
  {
    if buf != [] && step(s, buf).Done? && 0 < step(s, buf).next <= |buf| {
      DrainKeeps(step, inv, step(s, buf).state, buf[step(s, buf).next..]);
    }
  }
}
