/** The persistence worker: commands go from the channel to a batch and from the batch to the file, with
    retries, and with the decision to commit left to chance. */
module Worker {
  import opened Bytes
  import opened Commands
  import opened Log
  import opened Replay

  // ---------- The state machine ----------

  /** A batch that reached the disk, and how many times it was written. */
  datatype Committed = Committed(batch: seq<Entry>, copies: nat)

  datatype Phase = Collecting | Writing | Syncing

  /** `sent` is everything ever sent; `copies` counts the finished writes of the batch at hand. */
  datatype State = State(
    sent: seq<Entry>,
    channel: seq<Entry>,
    batch: seq<Entry>,
    commits: seq<Committed>,
    copies: nat,
    phase: Phase,
    file: bytes)

  datatype Step = Send(entry: Entry) | Receive | Hold | Begin | WriteFails | WriteSucceeds | SyncFails | SyncSucceeds

  predicate Enabled(s: State, step: Step) {
    match step
    case Send(_) => true
    case Receive => s.phase.Collecting? && s.channel != []
    case Hold => s.phase.Collecting?
    case Begin => s.phase.Collecting? && s.batch != []
    case WriteFails => s.phase.Writing?
    case WriteSucceeds => s.phase.Writing?
    case SyncFails => s.phase.Syncing?
    case SyncSucceeds => s.phase.Syncing?
  }

  /** A failed write leaves the file as it was; a failed fsync leaves the copy just written in it. */
  function Next(t: Text, s: State, step: Step): State
    requires Enabled(s, step)
  {
    match step
    case Send(e) => s.(sent := s.sent + [e], channel := s.channel + [e])
    case Receive => s.(batch := s.batch + [s.channel[0]], channel := s.channel[1..])
    case Hold => s
    case Begin => s.(phase := Writing)
    case WriteFails => s
    case WriteSucceeds => s.(phase := Syncing, copies := s.copies + 1, file := s.file + Printed(t, s.batch))
    case SyncFails => s.(phase := Writing)
    case SyncSucceeds =>
      s.(phase := Collecting, copies := 0, batch := [], commits := s.commits + [Committed(s.batch, s.copies)])
  }

  ghost predicate Reaches(t: Text, s: State, steps: seq<Step>, r: State)
    decreases |steps|
  {
    if steps == [] then s == r else Enabled(s, steps[0]) && Reaches(t, Next(t, s, steps[0]), steps[1..], r)
  }

  /** The worker opens a file that may already hold a log; its entries count as sent and committed once. */
  function Start(t: Text, prior: seq<Entry>): State {
    State(prior, [], [], [Committed(prior, 1)], 0, Collecting, Printed(t, prior))
  }

  function Batches(commits: seq<Committed>): seq<Entry> {
    if commits == [] then [] else Batches(commits[..|commits| - 1]) + commits[|commits| - 1].batch
  }

  function Repeated(entries: seq<Entry>, n: nat): seq<Entry> {
    if n == 0 then [] else Repeated(entries, n - 1) + entries
  }

  /** What the file holds, entry by entry. */
  function Replicated(commits: seq<Committed>): seq<Entry> {
    if commits == [] then []
    else
      var c := commits[|commits| - 1];
      Replicated(commits[..|commits| - 1]) + Repeated(c.batch, c.copies)
  }

  function OnDisk(s: State): seq<Entry> {
    Replicated(s.commits) + Repeated(s.batch, s.copies)
  }

  /** Nothing sent is lost or reordered, and the file is the committed batches in order, each written at
      least once, and then the batch at hand as often as its write succeeded. */
  ghost predicate Safe(t: Text, s: State) {
    && s.sent == Batches(s.commits) + s.batch + s.channel
    && s.file == Printed(t, OnDisk(s))
    && (forall c :: c in s.commits ==> c.copies >= 1)
    && (s.phase.Collecting? ==> s.copies == 0)
    && (s.phase.Syncing? ==> s.copies >= 1)
  }

  lemma ReceiveSafe(t: Text, s: State)
    requires Safe(t, s) && Enabled(s, Receive)
    ensures Safe(t, Next(t, s, Receive))
  {
  }

  lemma OneMoreCopy(commits: seq<Committed>, batch: seq<Entry>, copies: nat)
    ensures Replicated(commits) + Repeated(batch, copies + 1) == Replicated(commits) + Repeated(batch, copies) + batch
  {
    var done, again := Replicated(commits), Repeated(batch, copies);
    assert done + (again + batch) == done + again + batch;
  }

  lemma WriteSafe(t: Text, s: State)
    requires Safe(t, s) && Enabled(s, WriteSucceeds)
    ensures Safe(t, Next(t, s, WriteSucceeds))
  {
    var before, r := OnDisk(s), Next(t, s, WriteSucceeds);
    OneMoreCopy(s.commits, s.batch, s.copies);
    assert OnDisk(r) == before + s.batch;
    PrintedConcat(t, before, s.batch);
  }

  lemma SyncSafe(t: Text, s: State)
    requires Safe(t, s) && Enabled(s, SyncSucceeds)
    ensures Safe(t, Next(t, s, SyncSucceeds))
  {
    var r := Next(t, s, SyncSucceeds);
    BatchDone(s.commits, s.batch, s.copies, s.channel);
    assert OnDisk(r) == OnDisk(s);
  }

  lemma BatchDone(commits: seq<Committed>, batch: seq<Entry>, copies: nat, channel: seq<Entry>)
    ensures var after := commits + [Committed(batch, copies)];
            && Replicated(after) + Repeated([], 0) == Replicated(commits) + Repeated(batch, copies)
            && Batches(after) + [] + channel == Batches(commits) + batch + channel
  {
    assert (commits + [Committed(batch, copies)])[..|commits|] == commits;
  }

  lemma StepSafe(t: Text, s: State, step: Step)
    requires Safe(t, s) && Enabled(s, step)
    ensures Safe(t, Next(t, s, step))
  {
    match step
    case Send(e) =>
      assert s.sent + [e] == Batches(s.commits) + s.batch + (s.channel + [e]);
    case Receive => ReceiveSafe(t, s);
    case WriteSucceeds => WriteSafe(t, s);
    case SyncSucceeds => SyncSafe(t, s);
    case _ =>
  }

  lemma {:induction false} RunSafe(t: Text, s: State, steps: seq<Step>, r: State)
    requires Safe(t, s) && Reaches(t, s, steps, r)
    ensures Safe(t, r)
    decreases |steps|
  {
    if steps != [] {
      StepSafe(t, s, steps[0]);
      RunSafe(t, Next(t, s, steps[0]), steps[1..], r);
    }
  }

  lemma StartSafe(t: Text, prior: seq<Entry>)
    ensures Safe(t, Start(t, prior))
  {
    BatchDone([], prior, 1, []);
    assert Repeated(prior, 1) == Repeated(prior, 0) + prior == prior;
    assert OnDisk(Start(t, prior)) == prior;
  }

  /** No command is lost or reordered at any point of any run, whatever log the file held before. */
  lemma EveryRunSafe(t: Text, prior: seq<Entry>, steps: seq<Step>, r: State)
    requires Reaches(t, Start(t, prior), steps, r)
    ensures Safe(t, r)
  {
    StartSafe(t, prior);
    RunSafe(t, Start(t, prior), steps, r);
  }

  lemma PrintedNext(t: Text, batch: seq<Entry>, i: nat, payload: bytes, printed: bytes)
    requires i < |batch| && payload == Printed(t, batch[..i]) && printed == ToResp(t, batch[i])
    ensures Printed(t, batch[..i + 1]) == payload + printed
  {
    var e := batch[i];
    assert batch[..i + 1] == batch[..i] + [e];
    PrintedConcat(t, batch[..i], [e]);
    assert [e][1..] == [];
    assert Printed(t, [e]) == printed + Printed(t, []);
  }

  // ---------- The worker's loop ----------

  /** What can go wrong with one attempt to save a batch. */
  datatype Fault = WriteFault | SyncFault | NoFault

  class PersistenceWorker {
    const text: Text
    var batch: seq<Entry>
    var file: bytes
    ghost var state: State

    /** Between two rounds of the loop the fields are those of a safe state of the machine. */
    ghost predicate Valid()
      reads this
    {
      Safe(text, state) && state.phase.Collecting? && state.batch == batch && state.file == file
    }

    constructor (text: Text, file: bytes, ghost prior: seq<Entry>)
      requires file == Printed(text, prior)
      ensures Valid() && state == Start(text, prior) && this.text == text
    {
      StartSafe(text, prior);
      this.text, this.file := text, file;
      batch, state := [], Start(text, prior);
    }

    ghost method Act(step: Step)
      requires Enabled(state, step) && Safe(text, state)
      modifies this`state
      ensures state == Next(text, old(state), step) && Safe(text, state)
    {
      StepSafe(text, state, step);
      state := Next(text, state, step);
    }

    /** The `try_recv` loop: everything in the channel joins the batch. */
    method Collect(arrived: seq<Entry>)
      requires Valid() && state.channel == arrived
      modifies this
      ensures Valid() && batch == old(batch) + arrived && file == old(file)
      ensures state == old(state).(batch := batch, channel := [])
    {
      for i := 0 to |arrived|
        invariant Valid() && batch == old(batch) + arrived[..i] && file == old(file)
        invariant state == old(state).(batch := batch, channel := arrived[i..])
      {
        Act(Receive);
        batch := batch + [arrived[i]];
        assert arrived[..i + 1] == arrived[..i] + [arrived[i]] && arrived[i..][1..] == arrived[i + 1..];
      }
      assert arrived[..|arrived|] == arrived;
    }

    method Payload() returns (payload: bytes)
      ensures payload == Printed(text, batch)
    {
      payload := [];
      for i := 0 to |batch|
        invariant payload == Printed(text, batch[..i])
      {
        var printed := PrintEntry(text, batch[i]);
        PrintedNext(text, batch, i, payload, printed);
        payload := payload + printed;
      }
      assert batch[..|batch|] == batch;
    }

    /** The loop is about to write the batch again, `copies` writes of it being in the file. */
    ghost predicate Retrying(before: State, copies: nat)
      reads this
    {
      && Safe(text, state) && state == before.(phase := Writing, copies := copies, file := file)
      && before.batch == batch
    }

    /** A write and its fsync just went through, after `copies` writes. */
    ghost predicate Synced(before: State, copies: nat)
      reads this
    {
      && Safe(text, state) && state == before.(phase := Syncing, copies := copies, file := file)
      && before.batch == batch
    }

    /** One attempt; true when both the write and the fsync went through. */
    method Attempt(payload: bytes, fault: Fault, ghost before: State, ghost copies: nat) returns (success: bool)
      requires Retrying(before, copies) && payload == Printed(text, batch)
      modifies this
      ensures batch == old(batch) && success == fault.NoFault?
      ensures !success ==> Retrying(before, copies + (if fault.SyncFault? then 1 else 0))
      ensures success ==> Synced(before, copies + 1)
    {
      if fault.WriteFault? {
        Act(WriteFails);
        return false;
      }
      file := file + payload;
      Act(WriteSucceeds);
      if fault.SyncFault? {
        Act(SyncFails);
        return false;
      }
      return true;
    }

    /** The retry loop, for as long as the disk answers: it ends at the first attempt that goes through, and is
        still retrying after any run of attempts that all failed. */
    method Retry(payload: bytes, attempts: seq<Fault>, ghost before: State) returns (success: bool)
      requires Retrying(before, 0) && payload == Printed(text, batch)
      modifies this
      ensures batch == old(batch) && success == (NoFault in attempts)
      ensures success ==> Synced(before, 1 + SyncFaults(attempts))
      ensures !success ==> Retrying(before, SyncFaults(attempts))
    {
      var tried := 0;
      success := false;
      while !success && tried < |attempts|
        invariant tried <= |attempts| && batch == old(batch) && before.batch == batch
        invariant success == (NoFault in attempts[..tried])
        invariant !success ==> Retrying(before, SyncFaults(attempts[..tried]))
        invariant success ==> Synced(before, 1 + SyncFaults(attempts[..tried]))
      {
        SyncFaultsNext(attempts, tried);
        success := Attempt(payload, attempts[tried], before, SyncFaults(attempts[..tried]));
        tried := tried + 1;
      }
      SyncFaultsEnd(attempts, tried);
    }

    /** The batch is on disk: clear it. */
    method Clear(ghost before: State, ghost copies: nat)
      requires Synced(before, copies)
      modifies this
      ensures Valid() && batch == []
      ensures state.sent == before.sent && state.channel == before.channel
      ensures state.commits == before.commits + [Committed(before.batch, copies)]
    {
      Act(SyncSucceeds);
      batch := [];
    }

    /** Saves the batch and clears it, or is still trying when all the attempts made so far have failed. */
    method Save(attempts: seq<Fault>) returns (success: bool)
      requires Valid() && batch != []
      modifies this
      ensures success == (NoFault in attempts)
      ensures state.sent == old(state.sent) && state.channel == old(state.channel)
      ensures success ==> Valid() && batch == []
      ensures success ==> state.commits == old(state.commits) + [Committed(old(batch), 1 + SyncFaults(attempts))]
      ensures !success ==> batch == old(batch) && Retrying(old(state), SyncFaults(attempts))
    {
      var payload := Payload();
      ghost var before := state;
      Act(Begin);
      success := Retry(payload, attempts, before);
      if success {
        Clear(before, 1 + SyncFaults(attempts));
      }
    }

    /** One round: collect, then save or hold the batch. Nothing sent is lost even while the disk keeps failing. */
    method Round(arrived: seq<Entry>, commit: bool, attempts: seq<Fault>) returns (done: bool)
      requires Valid() && state.channel == arrived
      modifies this
      ensures Safe(text, state) && state.sent == old(state.sent) && state.channel == []
      ensures Batches(state.commits) + batch == old(state.sent) && state.file == file
      ensures done ==> Valid() && batch == if commit then [] else old(batch) + arrived
      ensures !done ==> commit && NoFault !in attempts && batch == old(batch) + arrived && state.phase.Writing?
    {
      done := true;
      Collect(arrived);
      if batch == [] {
        return;
      }
      if commit {
        done := Save(attempts);
      } else {
        Act(Hold);
      }
    }
  }

  /** How many writes of a batch reached the file without being synced, before an attempt went through. */
  function SyncFaults(attempts: seq<Fault>): nat {
    if attempts == [] || attempts[0].NoFault? then 0
    else (if attempts[0].SyncFault? then 1 else 0) + SyncFaults(attempts[1..])
  }

  /** One attempt more, none before it having gone through. */
  lemma {:induction false} SyncFaultsNext(attempts: seq<Fault>, i: nat)
    requires i < |attempts| && NoFault !in attempts[..i]
    ensures attempts[..i + 1] == attempts[..i] + [attempts[i]]
    ensures SyncFaults(attempts[..i + 1]) == SyncFaults(attempts[..i]) + (if attempts[i].SyncFault? then 1 else 0)
  {
    if i > 0 {
      SyncFaultsNext(attempts[1..], i - 1);
      assert attempts[1..][..i] == attempts[..i + 1][1..] && attempts[1..][..i - 1] == attempts[..i][1..];
      assert attempts[0] in attempts[..i];
    } else {
      assert attempts[..1][1..] == [];
    }
  }

  /** What follows a successful attempt does not matter. */
  lemma {:induction false} SyncFaultsEnd(attempts: seq<Fault>, i: nat)
    requires i <= |attempts| && (i == |attempts| || NoFault in attempts[..i])
    ensures SyncFaults(attempts) == SyncFaults(attempts[..i]) && (NoFault in attempts <==> NoFault in attempts[..i])
  {
    if i == |attempts| {
      assert attempts[..i] == attempts;
    } else if !attempts[0].NoFault? {
      assert attempts[..i][1..] == attempts[1..][..i - 1];
      SyncFaultsEnd(attempts[1..], i - 1);
    }
  }
}
