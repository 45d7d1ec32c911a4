/** The `FileTransfer` class of file_transfer.py: its flags and bounded log are
    fields that the methods update, and each method is proved to leave exactly the
    state that the functions of module `Transfer` prescribe.

    What the connection manager, the SFTP client and the filesystem answer is
    passed in: `connected` (an SFTP session exists), a `Node` for what is stored at
    a path, a `Stream` for how a `put`/`get` goes. The background thread of
    `transfer_files` is replaced by running the worker body to completion. */
module Engine {
  import opened Text
  import opened Transfer
  import TransferLog
  import BatchFacts

  class FileTransfer {
    /** `os.sep` of the local host. */
    const sep: char
    var transferInProgress: bool
    var transferCancelled: bool
    var transferLog: seq<LogEntry>
    /** The observer calls made so far (progress and status callbacks). */
    var events: seq<Event>
    /** The requests sent to the SFTP server and the local filesystem so far. */
    var requests: seq<Request>

    function State(): Transfer.State
      reads this
    {
      Transfer.State(transferCancelled, events, requests, transferLog)
    }

    /** The log holds at most 100 entries, as `log_transfer` keeps it. */
    ghost predicate Valid()
      reads this
    {
      |transferLog| <= TransferLog.Capacity
    }

    constructor(sep: char)
      ensures this.sep == sep
      ensures !transferInProgress && !transferCancelled
      ensures transferLog == [] && events == [] && requests == []
      ensures Valid()
    {
      this.sep := sep;
      transferInProgress := false;
      transferCancelled := false;
      transferLog := [];
      events := [];
      requests := [];
    }

    method IsTransferInProgress() returns (busy: bool)
      ensures busy == transferInProgress
    {
      busy := transferInProgress;
    }

    method CancelTransfer()
      modifies this
      ensures transferCancelled
      ensures State() == old(State()).(cancelled := true)
      ensures transferInProgress == old(transferInProgress)
    {
      transferCancelled := true;
    }

    /** The chunk callback of `upload_file`/`download_file`, called with the
        cumulative byte count; `raised` is the exception it throws. */
    method OnChunk(bytes: nat, size: nat) returns (raised: Option<Error>)
      modifies this
      ensures (State(), raised) == Callbacks(old(State()), size, [Chunk(bytes)])
      ensures transferInProgress == old(transferInProgress)
    {
      if transferCancelled {
        raised := Some(Cancelled);
      } else if size == 0 {
        raised := Some(DivisionByZero);
      } else {
        events := events + [Progress(Percent(bytes, size))];
        raised := None;
      }
    }

    /** `put`/`get` with the progress callback: the client runs the steps of
        `stream` until a callback raises. */
    method Stream(size: nat, steps: seq<Step>) returns (raised: Option<Error>)
      modifies this
      ensures (State(), raised) == Callbacks(old(State()), size, steps)
      ensures transferInProgress == old(transferInProgress)
    {
      var i := 0;
      raised := None;
      while i < |steps| && raised.None?
        invariant 0 <= i <= |steps|
        invariant transferInProgress == old(transferInProgress)
        invariant (if raised.None? then Callbacks(State(), size, steps[i..]) else (State(), raised))
                  == Callbacks(old(State()), size, steps)
        decreases |steps| - i
      {
        assert steps[i..][1..] == steps[i + 1..];
        match steps[i] {
          case CancelRequest =>
            CancelTransfer();
          case Chunk(bytes) =>
            raised := OnChunk(bytes, size);
        }
        i := i + 1;
      }
    }

    /** The body shared by `upload_file` and `download_file`. */
    method TransferFile(connected: bool, direction: Direction, source: string, destination: string,
                        size: Option<nat>, stream: Transfer.Stream) returns (ok: bool)
      modifies this
      ensures (ok, State()) == SingleFile(old(State()), connected, direction, source, destination, size, stream)
      ensures transferInProgress == old(transferInProgress)
    {
      if !connected || size.None? {
        return false;
      }
      requests := requests + [TransferRequest(direction, source, destination, true)];
      var raised := Stream(size.value, stream.steps);
      var error := if raised.Some? then raised
                   else if stream.outcome.Raised? then Some(ClientError(stream.outcome.message))
                   else None;
      if error.None? {
        ok := true;
      } else if !TakesFallback(error.value) {
        ok := false;
      } else {
        requests := requests + [TransferRequest(direction, source, destination, false)];
        if stream.retry.Raised? {
          ok := false;
        } else {
          events := events + [Progress(100.0)];
          ok := true;
        }
      }
    }

    /** `upload_file(local, remote)`: the local file has size `size`. */
    method UploadFile(connected: bool, local: string, remote: string, size: Option<nat>,
                      stream: Transfer.Stream) returns (ok: bool)
      modifies this
      ensures (ok, State()) == SingleFile(old(State()), connected, Upload, local, remote, size, stream)
      ensures transferInProgress == old(transferInProgress)
    {
      ok := TransferFile(connected, Upload, local, remote, size, stream);
    }

    /** `download_file(remote, local)`: `stat` of the remote path reports `size`. */
    method DownloadFile(connected: bool, remote: string, local: string, size: Option<nat>,
                        stream: Transfer.Stream) returns (ok: bool)
      modifies this
      ensures (ok, State()) == SingleFile(old(State()), connected, Download, remote, local, size, stream)
      ensures transferInProgress == old(transferInProgress)
    {
      ok := TransferFile(connected, Download, remote, local, size, stream);
    }

    /** `upload_directory(local, remote)` where the local filesystem holds `node` at `local`. */
    method UploadDirectory(connected: bool, local: string, remote: string, node: Node) returns (ok: bool)
      modifies this
      ensures (ok, State()) == UploadDir(old(State()), connected, sep, local, remote, node)
      ensures transferInProgress == old(transferInProgress)
      decreases node
    {
      if !connected {
        return false;
      }
      requests := requests + [MakeRemoteDir(remote)];
      if node.File? || !node.listed {
        return false;
      }
      ghost var start := State();
      var entries := node.entries;
      var i := 0;
      while i < |entries|
        invariant 0 <= i <= |entries|
        invariant transferInProgress == old(transferInProgress)
        invariant UploadEntries(State(), connected, sep, local, remote, entries[i..])
                  == UploadEntries(start, connected, sep, local, remote, entries)
      {
        assert entries[i..][1..] == entries[i + 1..];
        ghost var before := State();
        var e := entries[i];
        var childLocal := Join(sep, local, e.name);
        var childRemote := Slashed(Join(sep, remote, e.name));
        var childOk;
        if e.Dir? {
          childOk := UploadDirectory(connected, childLocal, childRemote, e);
        } else {
          childOk := UploadFile(connected, childLocal, childRemote, e.size, e.stream);
        }
        assert UploadEntries(before, connected, sep, local, remote, entries[i..])
               == UploadEntries(State(), connected, sep, local, remote, entries[i + 1..]);
        i := i + 1;
      }
      ok := true;
    }

    /** `download_directory(remote, local)` where the server holds `node` at `remote`. */
    method DownloadDirectory(connected: bool, remote: string, local: string, node: Node) returns (ok: bool)
      modifies this
      ensures (ok, State()) == DownloadDir(old(State()), connected, sep, remote, local, node)
      ensures transferInProgress == old(transferInProgress)
      decreases node
    {
      if !connected {
        return false;
      }
      requests := requests + [MakeLocalDir(local)];
      if node.File? || !node.created || !node.listed {
        return false;
      }
      ghost var start := State();
      var entries := node.entries;
      var i := 0;
      while i < |entries|
        invariant 0 <= i <= |entries|
        invariant transferInProgress == old(transferInProgress)
        invariant DownloadEntries(State(), connected, sep, remote, local, entries[i..])
                  == DownloadEntries(start, connected, sep, remote, local, entries)
      {
        assert entries[i..][1..] == entries[i + 1..];
        ghost var before := State();
        var e := entries[i];
        var childRemote := Slashed(Join(sep, remote, e.name));
        var childLocal := Join(sep, local, e.name);
        var childOk;
        if e.Dir? {
          childOk := DownloadDirectory(connected, childRemote, childLocal, e);
        } else {
          childOk := DownloadFile(connected, childRemote, childLocal, e.size, e.stream);
        }
        assert DownloadEntries(before, connected, sep, remote, local, entries[i..])
               == DownloadEntries(State(), connected, sep, remote, local, entries[i + 1..]);
        i := i + 1;
      }
      ok := true;
    }

    /** `log_transfer`: append, then keep the last 100 entries. */
    method LogTransfer(timestamp: string, action: Direction, filename: string, size: Option<nat>, duration: real)
      modifies this
      ensures transferLog == TransferLog.Appended(old(transferLog), LogEntry(timestamp, action, filename, size, duration))
      ensures transferCancelled == old(transferCancelled) && transferInProgress == old(transferInProgress)
      ensures events == old(events) && requests == old(requests)
      ensures Valid()
    {
      transferLog := transferLog + [LogEntry(timestamp, action, filename, size, duration)];
      if |transferLog| > TransferLog.Capacity {
        transferLog := transferLog[|transferLog| - TransferLog.Capacity..];
      }
    }

    /** `get_transfer_log`: a copy of the log (sequences are values, so later
        changes to the log do not reach it). */
    method GetTransferLog() returns (log: seq<LogEntry>)
      ensures log == transferLog
    {
      log := transferLog;
    }

    method ClearTransferLog()
      modifies this
      ensures transferLog == []
      ensures transferCancelled == old(transferCancelled) && transferInProgress == old(transferInProgress)
      ensures events == old(events) && requests == old(requests)
      ensures Valid()
    {
      transferLog := [];
    }

    /** One job of the batch: uploads of a directory go to the walker, every
        other job (all downloads included) to the single-file transfer. */
    method RunJob(connected: bool, direction: Direction, job: Job) returns (ok: bool)
      modifies this
      ensures (ok, State()) == Transfer.RunJob(old(State()), connected, sep, direction, job)
      ensures transferInProgress == old(transferInProgress)
    {
      match direction
      case Upload =>
        if job.item.Dir? {
          ok := UploadDirectory(connected, job.source, job.destination, job.item);
        } else {
          ok := UploadFile(connected, job.source, job.destination, job.item.size, job.item.stream);
        }
      case Download =>
        ok := DownloadFile(connected, job.source, job.destination, job.item.size, job.item.stream);
    }

    /** `transfer_files(jobs, direction)` with the worker run to completion; the
        user calls `cancel_transfer` just before the check of job `cancelAt`. */
    method TransferFiles(connected: bool, direction: Direction, jobs: seq<Job>, cancelAt: nat) returns (started: bool)
      modifies this
      ensures started == !old(transferInProgress)
      ensures !started ==> State() == old(State()) && transferInProgress
      ensures started ==> State() == Batch(old(State()), connected, sep, direction, jobs, cancelAt)
      ensures !transferInProgress <== started
      ensures old(Valid()) ==> Valid()
    {
      if transferInProgress {
        return false;
      }
      // the worker body
      transferInProgress := true;
      transferCancelled := false;
      ghost var done := JobsFrom(State(), connected, sep, direction, jobs, cancelAt, 0);
      var total := |jobs|;
      var i := 0;
      while i < total
        invariant 0 <= i <= total
        invariant transferInProgress
        invariant JobsFrom(State(), connected, sep, direction, jobs, cancelAt, i) == done
      {
        if i == cancelAt {
          CancelTransfer();
        }
        if transferCancelled {
          break;
        }
        var job := jobs[i];
        events := events + [Status(TransferringMessage(i, total, Basename(sep, job.source)))];
        var ok := RunJob(connected, direction, job);
        if ok && !transferCancelled {
          LogTransfer(job.timestamp, direction, Basename(sep, job.source), job.item.size, job.duration);
        }
        if !transferCancelled {
          events := events + [Progress(BatchPercent(i, total))];
        }
        i := i + 1;
      }
      assert State() == done;
      if old(Valid()) {
        BatchFacts.BatchKeepsLogBounded(old(State()), connected, sep, direction, jobs, cancelAt);
      }
      events := events + [Status(FinalStatus(transferCancelled))];
      transferInProgress := false;
      transferCancelled := false;
      started := true;
    }
  }
}
