/** Properties of the worker body of `transfer_files` (file_transfer.py), proved
    about `Transfer.JobsFrom` and `Transfer.Batch`. */
module BatchFacts {
  import opened Text
  import opened Transfer
  import TransferLog
  import TransferFacts

  // ---------------------------------------------------------------------------
  // Cancellation between jobs
  // ---------------------------------------------------------------------------

  /** Jobs from the cancel point on are never started: two batches that agree on
      the jobs before it end in the same state, whatever the later jobs are. */
  lemma {:induction false} JobsAfterCancelNeverRun(s: State, connected: bool, sep: char, direction: Direction,
                                                   jobs: seq<Job>, others: seq<Job>, cancelAt: nat, index: nat)
    requires |others| == |jobs| && index <= cancelAt < |jobs|
    requires jobs[..cancelAt] == others[..cancelAt]
    ensures JobsFrom(s, connected, sep, direction, jobs, cancelAt, index)
         == JobsFrom(s, connected, sep, direction, others, cancelAt, index)
    decreases cancelAt - index
  {
    if index < cancelAt {
      assert jobs[index] == jobs[..cancelAt][index] == others[index];
      if !s.cancelled {
        assert JobStep(s, connected, sep, direction, jobs, index) == JobStep(s, connected, sep, direction, others, index);
        JobsAfterCancelNeverRun(JobStep(s, connected, sep, direction, jobs, index), connected, sep, direction,
                                jobs, others, cancelAt, index + 1);
      }
    }
  }

  lemma BatchIgnoresJobsAfterCancel(s: State, connected: bool, sep: char, direction: Direction,
                                    jobs: seq<Job>, others: seq<Job>, cancelAt: nat)
    requires |others| == |jobs| && cancelAt < |jobs| && jobs[..cancelAt] == others[..cancelAt]
    ensures Batch(s, connected, sep, direction, jobs, cancelAt) == Batch(s, connected, sep, direction, others, cancelAt)
  {
    JobsAfterCancelNeverRun(s.(cancelled := false), connected, sep, direction, jobs, others, cancelAt, 0);
  }

  /** A batch whose cancel point is reached ends cancelled. */
  lemma {:induction false} CancelPointReachedEndsCancelled(s: State, connected: bool, sep: char, direction: Direction,
                                                           jobs: seq<Job>, cancelAt: nat, index: nat)
    requires index <= cancelAt < |jobs|
    ensures JobsFrom(s, connected, sep, direction, jobs, cancelAt, index).cancelled
    decreases cancelAt - index
  {
    if index < cancelAt && !s.cancelled {
      CancelPointReachedEndsCancelled(JobStep(s, connected, sep, direction, jobs, index), connected, sep, direction,
                                      jobs, cancelAt, index + 1);
    }
  }

  /** A cancelled batch reports "Transfer cancelled" last and leaves the flag clear. */
  lemma CancelledBatchReportsCancelled(s: State, connected: bool, sep: char, direction: Direction,
                                       jobs: seq<Job>, cancelAt: nat)
    requires cancelAt < |jobs|
    ensures var t := Batch(s, connected, sep, direction, jobs, cancelAt);
      !t.cancelled && |t.events| > 0 && t.events[|t.events| - 1] == Status("Transfer cancelled")
  {
    CancelPointReachedEndsCancelled(s.(cancelled := false), connected, sep, direction, jobs, cancelAt, 0);
  }

  /** Cancelled before the first check: no job starts, nothing is requested or
      logged, and only the final status is reported. */
  lemma CancelledBeforeFirstJob(s: State, connected: bool, sep: char, direction: Direction, jobs: seq<Job>)
    requires |jobs| > 0
    ensures Batch(s, connected, sep, direction, jobs, 0)
         == s.(events := s.events + [Status("Transfer cancelled")], cancelled := false)
  {
  }

  // ---------------------------------------------------------------------------
  // Cancel requests during a stream
  // ---------------------------------------------------------------------------

  /** No cancel request arrives while the stream runs. */
  predicate CalmStream(stream: Stream) {
    forall j :: 0 <= j < |stream.steps| ==> stream.steps[j] != CancelRequest
  }

  /** No cancel request arrives while anything in the tree is streamed. */
  predicate Calm(node: Node)
    decreases node
  {
    match node
    case File(_, _, stream) => CalmStream(stream)
    case Dir(_, _, _, _, entries, stream) => CalmStream(stream) && CalmEntries(entries)
  }

  predicate CalmEntries(entries: seq<Node>)
    decreases entries
  {
    entries == [] || (Calm(entries[0]) && CalmEntries(entries[1..]))
  }

  lemma {:induction false} CallbacksKeepFlagClear(s: State, size: nat, steps: seq<Step>)
    requires !s.cancelled && forall j :: 0 <= j < |steps| ==> steps[j] != CancelRequest
    ensures !Callbacks(s, size, steps).0.cancelled
    decreases |steps|
  {
    if steps != [] && !(size == 0) {
      CallbacksKeepFlagClear(s.(events := s.events + [Progress(Percent(steps[0].bytes, size))]), size, steps[1..]);
    }
  }

  lemma SingleFileKeepsFlagClear(s: State, connected: bool, direction: Direction, source: string, destination: string,
                                 size: Option<nat>, stream: Stream)
    requires !s.cancelled && CalmStream(stream)
    ensures !SingleFile(s, connected, direction, source, destination, size, stream).1.cancelled
  {
    if connected && size.Some? {
      var s1 := s.(requests := s.requests + [TransferRequest(direction, source, destination, true)]);
      CallbacksKeepFlagClear(s1, size.value, stream.steps);
    }
  }

  lemma {:induction false} UploadKeepsFlagClear(s: State, connected: bool, sep: char, local: string, remote: string, node: Node)
    requires !s.cancelled && Calm(node)
    ensures !UploadDir(s, connected, sep, local, remote, node).1.cancelled
    decreases node, 0
  {
    if connected && node.Dir? && node.listed {
      UploadEntriesKeepFlagClear(s.(requests := s.requests + [MakeRemoteDir(remote)]), connected, sep, local, remote, node.entries);
    }
  }

  lemma {:induction false} UploadEntriesKeepFlagClear(s: State, connected: bool, sep: char, local: string, remote: string, entries: seq<Node>)
    requires !s.cancelled && CalmEntries(entries)
    ensures !UploadEntries(s, connected, sep, local, remote, entries).cancelled
    decreases entries, 1
  {
    if entries != [] {
      var e := entries[0];
      var childLocal := Join(sep, local, e.name);
      var childRemote := Slashed(Join(sep, remote, e.name));
      if e.Dir? {
        UploadKeepsFlagClear(s, connected, sep, childLocal, childRemote, e);
      } else {
        SingleFileKeepsFlagClear(s, connected, Upload, childLocal, childRemote, e.size, e.stream);
      }
      UploadEntriesKeepFlagClear(UploadEntry(s, connected, sep, local, remote, e), connected, sep, local, remote, entries[1..]);
    }
  }

  /** A job whose streams see no cancel request leaves the flag clear. */
  lemma RunJobKeepsFlagClear(s: State, connected: bool, sep: char, direction: Direction, job: Job)
    requires !s.cancelled && Calm(job.item)
    ensures !RunJob(s, connected, sep, direction, job).1.cancelled
  {
    match direction
    case Upload =>
      if job.item.Dir? {
        UploadKeepsFlagClear(s, connected, sep, job.source, job.destination, job.item);
      } else {
        SingleFileKeepsFlagClear(s, connected, Upload, job.source, job.destination, job.item.size, job.item.stream);
      }
    case Download =>
      SingleFileKeepsFlagClear(s, connected, Download, job.source, job.destination, job.item.size, job.item.stream);
  }

  /** Once a job's stream sets the flag, no later job starts: the loop ends with
      the state that job left, in which nothing was logged for it, whatever the
      later jobs are. */
  lemma StreamCancelStopsLaterJobs(s: State, connected: bool, sep: char, direction: Direction,
                                   jobs: seq<Job>, others: seq<Job>, cancelAt: nat, index: nat)
    requires !s.cancelled && index < |jobs| && index != cancelAt
    requires |others| == |jobs| && others[..index + 1] == jobs[..index + 1]
    requires JobStep(s, connected, sep, direction, jobs, index).cancelled
    ensures var t := JobStep(s, connected, sep, direction, jobs, index);
      && JobsFrom(s, connected, sep, direction, jobs, cancelAt, index) == t
      && JobsFrom(s, connected, sep, direction, others, cancelAt, index) == t
      && t.log == s.log
  {
    var t := JobStep(s, connected, sep, direction, jobs, index);
    assert jobs[index] == jobs[..index + 1][index] == others[index];
    assert JobStep(s, connected, sep, direction, others, index) == t;
    JobStepReports(s, connected, sep, direction, jobs, index);
  }

  // ---------------------------------------------------------------------------
  // What a job keeps: the log and the earlier observer calls
  // ---------------------------------------------------------------------------

  /** `t` has the log of `s` and the observer calls of `s` in front. */
  predicate KeepsLogAndEvents(s: State, t: State) {
    t.log == s.log && |s.events| <= |t.events| && t.events[..|s.events|] == s.events
  }

  lemma KeepsLogAndEventsChain(a: State, b: State, c: State)
    requires KeepsLogAndEvents(a, b) && KeepsLogAndEvents(b, c)
    ensures KeepsLogAndEvents(a, c)
  {
    assert c.events[..|a.events|] == c.events[..|b.events|][..|a.events|];
  }

  /** `upload_file` / `download_file` write no log entry and only add observer calls. */
  lemma SingleFileKeepsLogAndEvents(s: State, connected: bool, direction: Direction, source: string, destination: string,
                                    size: Option<nat>, stream: Stream)
    ensures KeepsLogAndEvents(s, SingleFile(s, connected, direction, source, destination, size, stream).1)
  {
    if connected && size.Some? {
      var s1 := s.(requests := s.requests + [TransferRequest(direction, source, destination, true)]);
      TransferFacts.CallbacksFrame(s1, size.value, stream.steps);
      var s2 := Callbacks(s1, size.value, stream.steps).0;
      var s3 := s2.(requests := s2.requests + [TransferRequest(direction, source, destination, false)]);
      var s4 := s3.(events := s3.events + [Progress(100.0)]);
      assert s4.events[..|s3.events|] == s3.events;
      KeepsLogAndEventsChain(s, s3, s4);
    }
  }

  /** `upload_directory` writes no log entry of its own, for the directory or
      for any file below it, and only adds observer calls: only the batch logs. */
  lemma {:induction false} UploadWalkKeepsLogAndEvents(s: State, connected: bool, sep: char, local: string, remote: string, node: Node)
    ensures KeepsLogAndEvents(s, UploadDir(s, connected, sep, local, remote, node).1)
    decreases node, 0
  {
    if connected && node.Dir? && node.listed {
      UploadEntriesKeepLogAndEvents(s.(requests := s.requests + [MakeRemoteDir(remote)]), connected, sep, local, remote, node.entries);
    }
  }

  lemma {:induction false} UploadEntriesKeepLogAndEvents(s: State, connected: bool, sep: char, local: string, remote: string, entries: seq<Node>)
    ensures KeepsLogAndEvents(s, UploadEntries(s, connected, sep, local, remote, entries))
    decreases entries, 1
  {
    if entries != [] {
      var e := entries[0];
      var childLocal := Join(sep, local, e.name);
      var childRemote := Slashed(Join(sep, remote, e.name));
      if e.Dir? {
        UploadWalkKeepsLogAndEvents(s, connected, sep, childLocal, childRemote, e);
      } else {
        SingleFileKeepsLogAndEvents(s, connected, Upload, childLocal, childRemote, e.size, e.stream);
      }
      var next := UploadEntry(s, connected, sep, local, remote, e);
      UploadEntriesKeepLogAndEvents(next, connected, sep, local, remote, entries[1..]);
      KeepsLogAndEventsChain(s, next, UploadEntries(next, connected, sep, local, remote, entries[1..]));
    }
  }

  /** Likewise `download_directory`. */
  lemma {:induction false} DownloadWalkKeepsLogAndEvents(s: State, connected: bool, sep: char, remote: string, local: string, node: Node)
    ensures KeepsLogAndEvents(s, DownloadDir(s, connected, sep, remote, local, node).1)
    decreases node, 0
  {
    if connected && node.Dir? && node.created && node.listed {
      DownloadEntriesKeepLogAndEvents(s.(requests := s.requests + [MakeLocalDir(local)]), connected, sep, remote, local, node.entries);
    }
  }

  lemma {:induction false} DownloadEntriesKeepLogAndEvents(s: State, connected: bool, sep: char, remote: string, local: string, entries: seq<Node>)
    ensures KeepsLogAndEvents(s, DownloadEntries(s, connected, sep, remote, local, entries))
    decreases entries, 1
  {
    if entries != [] {
      var e := entries[0];
      var childRemote := Slashed(Join(sep, remote, e.name));
      var childLocal := Join(sep, local, e.name);
      if e.Dir? {
        DownloadWalkKeepsLogAndEvents(s, connected, sep, childRemote, childLocal, e);
      } else {
        SingleFileKeepsLogAndEvents(s, connected, Download, childRemote, childLocal, e.size, e.stream);
      }
      var next := DownloadEntry(s, connected, sep, remote, local, e);
      DownloadEntriesKeepLogAndEvents(next, connected, sep, remote, local, entries[1..]);
      KeepsLogAndEventsChain(s, next, DownloadEntries(next, connected, sep, remote, local, entries[1..]));
    }
  }

  lemma RunJobKeepsLogAndEvents(s: State, connected: bool, sep: char, direction: Direction, job: Job)
    ensures KeepsLogAndEvents(s, RunJob(s, connected, sep, direction, job).1)
  {
    match direction
    case Upload =>
      if job.item.Dir? {
        UploadWalkKeepsLogAndEvents(s, connected, sep, job.source, job.destination, job.item);
      } else {
        SingleFileKeepsLogAndEvents(s, connected, Upload, job.source, job.destination, job.item.size, job.item.stream);
      }
    case Download =>
      SingleFileKeepsLogAndEvents(s, connected, Download, job.source, job.destination, job.item.size, job.item.stream);
  }

  // ---------------------------------------------------------------------------
  // Whether a job succeeds
  // ---------------------------------------------------------------------------

  /** What the chunk callbacks raise, and whether they leave the flag set,
      depends on the flag they start with and on nothing else of the state. */
  lemma {:induction false} CallbacksOutcomeIgnoresHistory(s: State, t: State, size: nat, steps: seq<Step>)
    requires s.cancelled == t.cancelled
    ensures Callbacks(s, size, steps).1 == Callbacks(t, size, steps).1
    ensures Callbacks(s, size, steps).0.cancelled == Callbacks(t, size, steps).0.cancelled
    decreases |steps|
  {
    if steps != [] {
      match steps[0]
      case CancelRequest =>
        CallbacksOutcomeIgnoresHistory(s.(cancelled := true), t.(cancelled := true), size, steps[1..]);
      case Chunk(bytes) =>
        if !s.cancelled && size != 0 {
          CallbacksOutcomeIgnoresHistory(s.(events := s.events + [Progress(Percent(bytes, size))]),
                                         t.(events := t.events + [Progress(Percent(bytes, size))]), size, steps[1..]);
        }
    }
  }

  /** A `put`/`get` that raises an error not mentioning "callback" fails. */
  lemma PlainErrorFails(s: State, connected: bool, direction: Direction, source: string, destination: string,
                        size: Option<nat>, stream: Stream)
    requires stream.outcome.Raised? && !IsCallbackError(stream.outcome.message)
    ensures !SingleFile(s, connected, direction, source, destination, size, stream).0
  {
    if connected && size.Some? {
      var s1 := s.(requests := s.requests + [TransferRequest(direction, source, destination, true)]);
      TransferFacts.CallbacksRaiseOnlyTheirOwn(s1, size.value, stream.steps);
    }
  }

  lemma SingleFileResultIgnoresHistory(s: State, t: State, connected: bool, direction: Direction, source: string,
                                       destination: string, size: Option<nat>, stream: Stream)
    requires s.cancelled == t.cancelled
    ensures SingleFile(s, connected, direction, source, destination, size, stream).0
         == SingleFile(t, connected, direction, source, destination, size, stream).0
  {
    if connected && size.Some? {
      var primary := TransferRequest(direction, source, destination, true);
      CallbacksOutcomeIgnoresHistory(s.(requests := s.requests + [primary]), t.(requests := t.requests + [primary]),
                                     size.value, stream.steps);
    }
  }

  /** Whether a job succeeds depends on the session, the job and the flag it
      starts with, not on what was observed, requested or logged before. */
  lemma RunJobResultIgnoresHistory(s: State, t: State, connected: bool, sep: char, direction: Direction, job: Job)
    requires s.cancelled == t.cancelled
    ensures RunJob(s, connected, sep, direction, job).0 == RunJob(t, connected, sep, direction, job).0
  {
    match direction
    case Upload =>
      if job.item.Dir? {
        TransferFacts.WalkResultIgnoresEntries(s, connected, sep, job.source, job.destination, job.item);
        TransferFacts.WalkResultIgnoresEntries(t, connected, sep, job.source, job.destination, job.item);
      } else {
        SingleFileResultIgnoresHistory(s, t, connected, Upload, job.source, job.destination, job.item.size, job.item.stream);
      }
    case Download =>
      SingleFileResultIgnoresHistory(s, t, connected, Download, job.source, job.destination, job.item.size, job.item.stream);
  }

  /** The job succeeds when started with the flag clear (by
      RunJobResultIgnoresHistory, from any state with the flag clear). */
  predicate Succeeds(connected: bool, sep: char, direction: Direction, job: Job) {
    RunJob(State(false, [], [], []), connected, sep, direction, job).0
  }

  /** The log entries of the jobs that succeed, in order. */
  function Logged(connected: bool, sep: char, direction: Direction, jobs: seq<Job>): seq<LogEntry>
    decreases |jobs|
  {
    if jobs == [] then []
    else (if Succeeds(connected, sep, direction, jobs[0]) then [EntryFor(sep, direction, jobs[0])] else [])
         + Logged(connected, sep, direction, jobs[1..])
  }

  // ---------------------------------------------------------------------------
  // One pass of the worker loop
  // ---------------------------------------------------------------------------

  /** Job `index`, past the cancellation check with the flag clear, is announced
      first. If the flag is still clear after it, it is logged exactly when it
      succeeded and its batch percentage is the last report; if its stream set
      the flag, nothing is logged for it. Without cancel requests in its streams
      the flag stays clear. */
  lemma JobStepReports(s: State, connected: bool, sep: char, direction: Direction, jobs: seq<Job>, index: nat)
    requires !s.cancelled && index < |jobs|
    ensures var t := JobStep(s, connected, sep, direction, jobs, index);
      var job := jobs[index];
      && |s.events| < |t.events|
      && t.events[..|s.events| + 1] == s.events + [Status(TransferringMessage(index, |jobs|, Basename(sep, job.source)))]
      && (t.cancelled ==> t.log == s.log)
      && (!t.cancelled ==>
            && t.events[|t.events| - 1] == Progress(BatchPercent(index, |jobs|))
            && t.log == if Succeeds(connected, sep, direction, job)
                        then TransferLog.Appended(s.log, EntryFor(sep, direction, job)) else s.log)
      && (Calm(job.item) ==> !t.cancelled)
  {
    var job := jobs[index];
    var s1 := s.(events := s.events + [Status(TransferringMessage(index, |jobs|, Basename(sep, job.source)))]);
    RunJobKeepsLogAndEvents(s1, connected, sep, direction, job);
    RunJobResultIgnoresHistory(s1, State(false, [], [], []), connected, sep, direction, job);
    if Calm(job.item) {
      RunJobKeepsFlagClear(s1, connected, sep, direction, job);
    }
    var (ok, s2) := RunJob(s1, connected, sep, direction, job);
    var s3 := if ok && !s2.cancelled then s2.(log := TransferLog.Appended(s2.log, EntryFor(sep, direction, job))) else s2;
    var t := if !s3.cancelled then s3.(events := s3.events + [Progress(BatchPercent(index, |jobs|))]) else s3;
    assert t == JobStep(s, connected, sep, direction, jobs, index);
    assert t.events[..|s1.events|] == s2.events[..|s1.events|];
  }

  // ---------------------------------------------------------------------------
  // Batches without cancellation
  // ---------------------------------------------------------------------------

  /** The per-job percentage `((i + 1) / total) * 100` rises with `i` and is 100
      after the last job. */
  lemma BatchPercentRises(i: nat, j: nat, total: nat)
    requires i <= j < total
    ensures 0.0 < BatchPercent(i, total) <= BatchPercent(j, total) <= 100.0
    ensures BatchPercent(total - 1, total) == 100.0
  {
    TransferFacts.PercentMonotone(i + 1, j + 1, total);
    TransferFacts.PercentMonotone(j + 1, total, total);
    TransferFacts.PercentMonotone(0, i + 1, total);
    assert BatchPercent(i, total) == Percent(i + 1, total);
    assert BatchPercent(j, total) == Percent(j + 1, total);
    assert BatchPercent(total - 1, total) == Percent(total, total);
  }

  /** Without cancellation every job runs and reports its progress; the last
      progress report is 100. */
  lemma {:induction false} CalmJobsEndAtHundred(s: State, connected: bool, sep: char, direction: Direction,
                                                jobs: seq<Job>, cancelAt: nat, index: nat)
    requires !s.cancelled && index < |jobs| <= cancelAt
    requires forall k :: 0 <= k < |jobs| ==> Calm(jobs[k].item)
    ensures var t := JobsFrom(s, connected, sep, direction, jobs, cancelAt, index);
      !t.cancelled && |t.events| > 0 && t.events[|t.events| - 1] == Progress(100.0)
    decreases |jobs| - index
  {
    var next := JobStep(s, connected, sep, direction, jobs, index);
    JobStepReports(s, connected, sep, direction, jobs, index);
    assert JobsFrom(s, connected, sep, direction, jobs, cancelAt, index)
        == JobsFrom(next, connected, sep, direction, jobs, cancelAt, index + 1);
    if index + 1 < |jobs| {
      CalmJobsEndAtHundred(next, connected, sep, direction, jobs, cancelAt, index + 1);
    } else {
      BatchPercentRises(index, index, |jobs|);
    }
  }

  /** A batch without cancellation reports 100 and then "Transfer completed". */
  lemma CalmBatchCompletes(s: State, connected: bool, sep: char, direction: Direction, jobs: seq<Job>, cancelAt: nat)
    requires 0 < |jobs| <= cancelAt
    requires forall k :: 0 <= k < |jobs| ==> Calm(jobs[k].item)
    ensures var t := Batch(s, connected, sep, direction, jobs, cancelAt);
      !t.cancelled && |t.events| >= 2
      && t.events[|t.events| - 2..] == [Progress(100.0), Status("Transfer completed")]
  {
    CalmJobsEndAtHundred(s.(cancelled := false), connected, sep, direction, jobs, cancelAt, 0);
  }

  /** Without cancellation the loop logs exactly the jobs that succeed, in order. */
  lemma {:induction false} CalmJobsLogEachSuccess(s: State, connected: bool, sep: char, direction: Direction,
                                                  jobs: seq<Job>, cancelAt: nat, index: nat)
    requires !s.cancelled && index <= |jobs| <= cancelAt
    requires forall k :: 0 <= k < |jobs| ==> Calm(jobs[k].item)
    ensures JobsFrom(s, connected, sep, direction, jobs, cancelAt, index).log
         == TransferLog.AppendedAll(s.log, Logged(connected, sep, direction, jobs[index..]))
    decreases |jobs| - index
  {
    if index == |jobs| {
      assert jobs[index..] == [];
    } else {
      var job := jobs[index];
      var next := JobStep(s, connected, sep, direction, jobs, index);
      JobStepReports(s, connected, sep, direction, jobs, index);
      CalmJobsLogEachSuccess(next, connected, sep, direction, jobs, cancelAt, index + 1);
      var rest := Logged(connected, sep, direction, jobs[index + 1..]);
      assert jobs[index..][1..] == jobs[index + 1..];
      if Succeeds(connected, sep, direction, job) {
        var e := EntryFor(sep, direction, job);
        assert Logged(connected, sep, direction, jobs[index..]) == [e] + rest;
        assert ([e] + rest)[1..] == rest;
      } else {
        assert Logged(connected, sep, direction, jobs[index..]) == [] + rest == rest;
      }
    }
  }

  /** A batch without cancellation appends one entry for each job that succeeds,
      in the order of the jobs, keeping the last 100. */
  lemma CalmBatchLogsEachSuccess(s: State, connected: bool, sep: char, direction: Direction, jobs: seq<Job>, cancelAt: nat)
    requires |jobs| <= cancelAt
    requires forall k :: 0 <= k < |jobs| ==> Calm(jobs[k].item)
    ensures Batch(s, connected, sep, direction, jobs, cancelAt).log
         == TransferLog.AppendedAll(s.log, Logged(connected, sep, direction, jobs))
    ensures |s.log| <= TransferLog.Capacity ==>
      Batch(s, connected, sep, direction, jobs, cancelAt).log
      == TransferLog.Trimmed(s.log + Logged(connected, sep, direction, jobs))
  {
    CalmJobsLogEachSuccess(s.(cancelled := false), connected, sep, direction, jobs, cancelAt, 0);
    assert jobs[0..] == jobs;
    if |s.log| <= TransferLog.Capacity {
      TransferLog.AppendedAllIsTrimmed(s.log, Logged(connected, sep, direction, jobs));
    }
  }

  /** The worker keeps the log within its 100 entries: a job leaves the log or
      appends one entry with `log_transfer`. */
  lemma {:induction false} JobsFromKeepsLogBounded(s: State, connected: bool, sep: char, direction: Direction,
                                                   jobs: seq<Job>, cancelAt: nat, index: nat)
    requires index <= |jobs| && |s.log| <= TransferLog.Capacity
    ensures |JobsFrom(s, connected, sep, direction, jobs, cancelAt, index).log| <= TransferLog.Capacity
    decreases |jobs| - index
  {
    if index < |jobs| {
      var s0 := if index == cancelAt then s.(cancelled := true) else s;
      if !s0.cancelled {
        JobStepReports(s0, connected, sep, direction, jobs, index);
        TransferLog.AppendedIsNewestSuffix(s0.log, EntryFor(sep, direction, jobs[index]));
        JobsFromKeepsLogBounded(JobStep(s0, connected, sep, direction, jobs, index), connected, sep, direction,
                                jobs, cancelAt, index + 1);
      }
    }
  }

  lemma BatchKeepsLogBounded(s: State, connected: bool, sep: char, direction: Direction, jobs: seq<Job>, cancelAt: nat)
    requires |s.log| <= TransferLog.Capacity
    ensures |Batch(s, connected, sep, direction, jobs, cancelAt).log| <= TransferLog.Capacity
  {
    JobsFromKeepsLogBounded(s.(cancelled := false), connected, sep, direction, jobs, cancelAt, 0);
  }

  // ---------------------------------------------------------------------------
  // What a directory job does
  // ---------------------------------------------------------------------------

  /** An uploaded directory is one job and one log entry, named after the
      directory and carrying the directory's own size, however many files it holds. */
  lemma DirectoryUploadLoggedAsOneEntry(s: State, sep: char, job: Job)
    requires job.item.Dir? && job.item.listed && Calm(job.item)
    ensures Batch(s, true, sep, Upload, [job], 1).log
         == TransferLog.Appended(s.log, LogEntry(job.timestamp, Upload, Basename(sep, job.source), job.item.size, job.duration))
  {
    var s0 := s.(cancelled := false);
    TransferFacts.WalkResultIgnoresEntries(State(false, [], [], []), true, sep, job.source, job.destination, job.item);
    JobStepReports(s0, true, sep, Upload, [job], 0);
    assert JobsFrom(s0, true, sep, Upload, [job], 1, 0) == JobStep(s0, true, sep, Upload, [job], 0);
  }

  /** A download job always goes to the single-file download, whatever the
      remote entry is: for a directory nothing is created locally and nothing
      inside it is fetched (the only requests are the `get` of the directory
      itself and at most one retry of it), and when the server answers with an
      error whose text does not mention "callback", nothing is logged. */
  lemma DirectoryDownloadIsNotWalked(s: State, sep: char, job: Job)
    requires job.item.Dir? && job.item.size.Some?
    ensures var t := Batch(s, true, sep, Download, [job], 1);
      var primary := Get(job.source, job.destination, true);
      && (t.requests == s.requests + [primary]
          || t.requests == s.requests + [primary, Get(job.source, job.destination, false)])
      && (job.item.stream.outcome.Raised? && !IsCallbackError(job.item.stream.outcome.message) ==> t.log == s.log)
  {
    var s0 := s.(cancelled := false);
    var s1 := s0.(events := s0.events + [Status(TransferringMessage(0, 1, Basename(sep, job.source)))]);
    TransferFacts.SingleFileRequests(s1, true, Download, job.source, job.destination, job.item.size, job.item.stream);
    if job.item.stream.outcome.Raised? && !IsCallbackError(job.item.stream.outcome.message) {
      PlainErrorFails(s1, true, Download, job.source, job.destination, job.item.size, job.item.stream);
    }
    var (ok, s2) := RunJob(s1, true, sep, Download, job);
    assert (ok, s2) == SingleFile(s1, true, Download, job.source, job.destination, job.item.size, job.item.stream);
    var t := JobStep(s0, true, sep, Download, [job], 0);
    assert t.requests == s2.requests;
    assert !ok ==> t.log == s2.log;
    assert JobsFrom(s0, true, sep, Download, [job], 1, 0) == t;
  }

  /** The whole batch when the server refuses the directory outright (no chunk,
      an error not mentioning "callback"): one request, the announcement, the
      batch percentage and "Transfer completed", nothing created or logged. */
  lemma DirectoryDownloadRefused(s: State, sep: char, job: Job, message: string)
    requires job.item.Dir? && job.item.size.Some?
    requires job.item.stream.steps == [] && job.item.stream.outcome == Raised(message) && !IsCallbackError(message)
    ensures Batch(s, true, sep, Download, [job], 1)
         == s.(requests := s.requests + [Get(job.source, job.destination, true)],
               events := s.events + [Status(TransferringMessage(0, 1, Basename(sep, job.source))),
                                     Progress(100.0), Status("Transfer completed")],
               cancelled := false)
  {
    BatchPercentRises(0, 0, 1);
    var s1 := s.(cancelled := false, events := s.events + [Status(TransferringMessage(0, 1, Basename(sep, job.source)))]);
    var s2 := s1.(requests := s1.requests + [Get(job.source, job.destination, true)]);
    assert Callbacks(s2, job.item.size.value, job.item.stream.steps) == (s2, None);
    assert RunJob(s1, true, sep, Download, job) == (false, s2);
    var s4 := s2.(events := s2.events + [Progress(BatchPercent(0, 1))]);
    assert JobStep(s.(cancelled := false), true, sep, Download, [job], 0) == s4;
    assert JobsFrom(s.(cancelled := false), true, sep, Download, [job], 1, 0) == s4;
  }
}
