/** What the transfer engine of file_transfer.py does, as functions of its inputs.

    The SFTP client, the local filesystem and the clock are not called: their
    answers are given as values. A `Node` is what a store holds at a path (a file
    with the size `stat` reports and how streaming it goes, or a directory with its
    listing); a `Stream` is what happens while `put`/`get` runs: the chunk callbacks
    the client makes, with the cumulative byte count, and the moments the user
    calls `cancel_transfer`. What the engine does to the outside world is recorded:
    the observer callbacks it fires (`events`) and the requests it sends to the
    stores (`requests`). The class in file_transfer.dfy is proved to do exactly
    what these functions say. */
module Transfer {
  import opened Text
  import TransferLog

  datatype Direction = Upload | Download

  /** A call of the observer: `progress_callback(percent)` or `status_callback(message)`. */
  datatype Event = Progress(percent: real) | Status(message: string)

  /** One thing that happens while a file is streamed: the client calls the chunk
      callback with the bytes transferred so far, or the user requests cancellation. */
  datatype Step = Chunk(bytes: nat) | CancelRequest

  /** How a `put`/`get` call ends when no callback raised: normally, or with an
      exception carrying a message. */
  datatype Outcome = Completed | Raised(message: string)

  /** A streamed transfer: the steps during the call with the progress callback,
      how that call ends, and how the fallback call without callback ends. */
  datatype Stream = Stream(steps: seq<Step>, outcome: Outcome, retry: Outcome)

  /** What a store holds at a path. `size` is what `os.path.getsize` / `stat`
      reports (`None`: it raises). `stream` is how a `put`/`get` of the path as a
      file goes; for a directory only a download job asks for that, and what the
      server then answers is an input like any other. For a directory, `created`
      tells whether making the destination directory succeeds (or finds it
      existing) and `listed` whether enumerating it succeeds. A remote `Dir` is an
      entry whose `st_mode` passes `Formatting.IsDirectory`. */
  datatype Node =
    | File(name: string, size: Option<nat>, stream: Stream)
    | Dir(name: string, size: Option<nat>, created: bool, listed: bool, entries: seq<Node>, stream: Stream)

  /** A request sent to a store: `sftp.put`/`sftp.get` (with or without the
      progress callback), `sftp.mkdir`, `os.makedirs`. */
  datatype Request =
    | Put(local: string, remote: string, withCallback: bool)
    | Get(remote: string, local: string, withCallback: bool)
    | MakeRemoteDir(path: string)
    | MakeLocalDir(path: string)

  datatype LogEntry = LogEntry(timestamp: string, action: Direction, filename: string, size: Option<nat>, duration: real)

  /** One `(source, destination)` pair of a batch, with what the source store holds
      there and what the clock reads when the job is logged. */
  datatype Job = Job(source: string, destination: string, item: Node, timestamp: string, duration: real)

  /** The engine's observable state: the cancellation flag, the observer calls
      and store requests so far, and the transfer log. */
  datatype State = State(cancelled: bool, events: seq<Event>, requests: seq<Request>, log: seq<LogEntry>)

  // ---------------------------------------------------------------------------
  // Paths (os.path.join, os.path.basename, .replace("\\", "/"))
  // ---------------------------------------------------------------------------

  /** A path separator on a host whose own separator is `sep` ('/' is one everywhere). */
  predicate IsSep(sep: char, c: char) {
    c == '/' || c == sep
  }

  /** `os.path.join(dir, name)` for a plain entry name: the directory, then the
      separator unless the directory is empty or already ends in one, then the
      name. */
  function Join(sep: char, dir: string, name: string): (r: string)
    ensures |dir| <= |r| && r[..|dir|] == dir
    ensures |name| <= |r| && r[|r| - |name|..] == name
    ensures |r| == |dir| + |name| || |r| == |dir| + |name| + 1
    ensures |r| == |dir| + |name| + 1 <==> dir != [] && !IsSep(sep, dir[|dir| - 1])
    ensures |r| == |dir| + |name| + 1 ==> r[|dir|] == sep
  {
    if dir == [] || IsSep(sep, dir[|dir| - 1]) then dir + name else dir + [sep] + name
  }

  /** `path.replace("\\", "/")`. */
  function Slashed(path: string): (r: string)
    ensures |r| == |path|
    ensures forall i :: 0 <= i < |path| ==> r[i] == if path[i] == '\\' then '/' else path[i]
  {
    if path == [] then [] else [if path[0] == '\\' then '/' else path[0]] + Slashed(path[1..])
  }

  /** `os.path.basename(path)`: what follows the last separator. */
  function Basename(sep: char, path: string): string
    decreases |path|
  {
    if path == [] then []
    else if IsSep(sep, path[|path| - 1]) then []
    else Basename(sep, path[..|path| - 1]) + [path[|path| - 1]]
  }

  // ---------------------------------------------------------------------------
  // upload_file / download_file
  // ---------------------------------------------------------------------------

  /** The message of the exception the chunk callback raises once cancelled. */
  const CancelMessage: string := "Transfer cancelled / Transfer iptal edildi"

  /** The message of the exception `bytes / file_size` raises for an empty file. */
  const ZeroDivisionMessage: string := "division by zero"

  /** An exception that ends a `put`/`get` call: raised by the chunk callback once
      the transfer is cancelled, by its progress division for an empty file, or by
      the client itself. */
  datatype Error = Cancelled | DivisionByZero | ClientError(message: string)

  /** The text of the exception, `str(e)`. */
  function Message(e: Error): string
  {
    match e
    case Cancelled => CancelMessage
    case DivisionByZero => ZeroDivisionMessage
    case ClientError(m) => m
  }

  /** `(bytes / file_size) * 100`. */
  function Percent(bytes: nat, size: nat): real
    requires size > 0
  {
    (bytes as real / size as real) * 100.0
  }

  /** The chunk callback run over `steps`, starting in state `s`: the new state
      and the exception a callback raised, if one did. */
  function Callbacks(s: State, size: nat, steps: seq<Step>): (State, Option<Error>)
    decreases |steps|
  {
    if steps == [] then (s, None)
    else match steps[0]
      case CancelRequest => Callbacks(s.(cancelled := true), size, steps[1..])
      case Chunk(bytes) =>
        if s.cancelled then (s, Some(Cancelled))
        else if size == 0 then (s, Some(DivisionByZero))
        else Callbacks(s.(events := s.events + [Progress(Percent(bytes, size))]), size, steps[1..])
  }

  function TransferRequest(direction: Direction, source: string, destination: string, withCallback: bool): Request
  {
    match direction
    case Upload => Put(source, destination, withCallback)
    case Download => Get(source, destination, withCallback)
  }

  /** The fallback is taken only for an error whose text mentions "callback". */
  predicate IsCallbackError(message: string) {
    Contains(Lower(message), "callback")
  }

  /** `"callback" in str(e).lower()`, with the texts of the engine's own
      exceptions (which do not mention it) already decided; module TransferFacts
      proves that this agrees with testing the text. */
  predicate TakesFallback(e: Error) {
    e.ClientError? && IsCallbackError(e.message)
  }

  /** `upload_file(source, destination)` (Upload) or `download_file(source, destination)`
      (Download): the result and the new state. */
  function SingleFile(s: State, connected: bool, direction: Direction, source: string, destination: string,
                      size: Option<nat>, stream: Stream): (bool, State)
  {
    if !connected || size.None? then (false, s)
    else
      var s1 := s.(requests := s.requests + [TransferRequest(direction, source, destination, true)]);
      var (s2, raised) := Callbacks(s1, size.value, stream.steps);
      var error := if raised.Some? then raised
                   else if stream.outcome.Raised? then Some(ClientError(stream.outcome.message))
                   else None;
      if error.None? then (true, s2)
      else if !TakesFallback(error.value) then (false, s2)
      else
        var s3 := s2.(requests := s2.requests + [TransferRequest(direction, source, destination, false)]);
        if stream.retry.Raised? then (false, s3)
        else (true, s3.(events := s3.events + [Progress(100.0)]))
  }

  // ---------------------------------------------------------------------------
  // upload_directory / download_directory
  // ---------------------------------------------------------------------------

  /** `upload_directory(local, remote)` where the local store holds `node` at `local`. */
  function UploadDir(s: State, connected: bool, sep: char, local: string, remote: string, node: Node): (bool, State)
    decreases node, 0
  {
    if !connected then (false, s)
    else
      // a failing mkdir is swallowed
      var s1 := s.(requests := s.requests + [MakeRemoteDir(remote)]);
      if node.File? || !node.listed then (false, s1)
      else (true, UploadEntries(s1, connected, sep, local, remote, node.entries))
  }

  /** The loop of `upload_directory` over the remaining `entries`. */
  function UploadEntries(s: State, connected: bool, sep: char, local: string, remote: string, entries: seq<Node>): State
    decreases entries
  {
    if entries == [] then s
    else UploadEntries(UploadEntry(s, connected, sep, local, remote, entries[0]), connected, sep, local, remote, entries[1..])
  }

  /** One iteration of that loop: recurse into a directory, delegate a file. */
  function UploadEntry(s: State, connected: bool, sep: char, local: string, remote: string, e: Node): State
    decreases e, 1
  {
    var childLocal := Join(sep, local, e.name);
    var childRemote := Slashed(Join(sep, remote, e.name));
    if e.Dir? then UploadDir(s, connected, sep, childLocal, childRemote, e).1
    else SingleFile(s, connected, Upload, childLocal, childRemote, e.size, e.stream).1
  }

  /** `download_directory(remote, local)` where the remote store holds `node` at `remote`. */
  function DownloadDir(s: State, connected: bool, sep: char, remote: string, local: string, node: Node): (bool, State)
    decreases node, 0
  {
    if !connected then (false, s)
    else
      var s1 := s.(requests := s.requests + [MakeLocalDir(local)]);
      if node.File? || !node.created || !node.listed then (false, s1)
      else (true, DownloadEntries(s1, connected, sep, remote, local, node.entries))
  }

  /** The loop of `download_directory` over the remaining `entries`. */
  function DownloadEntries(s: State, connected: bool, sep: char, remote: string, local: string, entries: seq<Node>): State
    decreases entries
  {
    if entries == [] then s
    else DownloadEntries(DownloadEntry(s, connected, sep, remote, local, entries[0]), connected, sep, remote, local, entries[1..])
  }

  /** One iteration of that loop. */
  function DownloadEntry(s: State, connected: bool, sep: char, remote: string, local: string, e: Node): State
    decreases e, 1
  {
    var childRemote := Slashed(Join(sep, remote, e.name));
    var childLocal := Join(sep, local, e.name);
    if e.Dir? then DownloadDir(s, connected, sep, childRemote, childLocal, e).1
    else SingleFile(s, connected, Download, childRemote, childLocal, e.size, e.stream).1
  }

  // ---------------------------------------------------------------------------
  // transfer_files (the worker body)
  // ---------------------------------------------------------------------------

  /** One job of the batch: uploads dispatch on whether the source is a directory,
      downloads always call `download_file`. */
  function RunJob(s: State, connected: bool, sep: char, direction: Direction, job: Job): (bool, State)
  {
    match direction
    case Upload =>
      if job.item.Dir? then UploadDir(s, connected, sep, job.source, job.destination, job.item)
      else SingleFile(s, connected, Upload, job.source, job.destination, job.item.size, job.item.stream)
    case Download =>
      SingleFile(s, connected, Download, job.source, job.destination, job.item.size, job.item.stream)
  }

  function TransferringMessage(index: nat, total: nat, filename: string): string
  {
    "Transferring (" + NatToString(index + 1) + "/" + NatToString(total) + "): " + filename
  }

  /** `((i + 1) / total_files) * 100`. */
  function BatchPercent(index: nat, total: nat): real
    requires index < total
  {
    ((index + 1) as real / total as real) * 100.0
  }

  function EntryFor(sep: char, direction: Direction, job: Job): LogEntry
  {
    LogEntry(job.timestamp, direction, Basename(sep, job.source), job.item.size, job.duration)
  }

  /** One pass of the worker loop past its cancellation check: announce job
      `index`, run it, log it if it succeeded and the flag is still clear, then
      report the batch percentage if the flag is still clear. */
  function JobStep(s: State, connected: bool, sep: char, direction: Direction, jobs: seq<Job>, index: nat): State
    requires index < |jobs|
  {
    var job := jobs[index];
    var s1 := s.(events := s.events + [Status(TransferringMessage(index, |jobs|, Basename(sep, job.source)))]);
    var (ok, s2) := RunJob(s1, connected, sep, direction, job);
    var s3 := if ok && !s2.cancelled then s2.(log := TransferLog.Appended(s2.log, EntryFor(sep, direction, job))) else s2;
    if !s3.cancelled then s3.(events := s3.events + [Progress(BatchPercent(index, |jobs|))]) else s3
  }

  /** The worker loop from job `index` on. `cancelAt` is the index of the job
      just before whose check the user calls `cancel_transfer` (none when it is
      not below the number of jobs). */
  function JobsFrom(s: State, connected: bool, sep: char, direction: Direction, jobs: seq<Job>,
                    cancelAt: nat, index: nat): State
    requires index <= |jobs|
    decreases |jobs| - index
  {
    if index == |jobs| then s
    else
      var s0 := if index == cancelAt then s.(cancelled := true) else s;
      if s0.cancelled then s0
      else JobsFrom(JobStep(s0, connected, sep, direction, jobs, index), connected, sep, direction, jobs, cancelAt, index + 1)
  }

  function FinalStatus(cancelled: bool): string
  {
    if cancelled then "Transfer cancelled" else "Transfer completed"
  }

  /** The whole worker body: clear the flag, run the jobs, report, reset the flag. */
  function Batch(s: State, connected: bool, sep: char, direction: Direction, jobs: seq<Job>, cancelAt: nat): State
  {
    var done := JobsFrom(s.(cancelled := false), connected, sep, direction, jobs, cancelAt, 0);
    done.(events := done.events + [Status(FinalStatus(done.cancelled))], cancelled := false)
  }
}
