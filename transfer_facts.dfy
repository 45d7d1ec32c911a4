/** Properties of the transfer engine of file_transfer.py, proved about the
    functions of module `Transfer` (and so, through the contracts of class
    `Engine.FileTransfer`, about the class). */
module TransferFacts {
  import opened Text
  import opened Transfer
  import TransferLog

  // ---------------------------------------------------------------------------
  // Which errors send upload_file / download_file to the fallback call
  // ---------------------------------------------------------------------------

  /** A message without the letter k cannot mention "callback" in any case. */
  lemma NoLetterKNoFallback(message: string)
    requires 'k' !in message && 'K' !in message
    ensures !IsCallbackError(message)
  {
    var r := Lower(message);
    ContainsIffOccurs(r, "callback");
    if i: nat :| OccursAt(r, "callback", i) {
      assert r[i + 7] == r[i..i + 8][7] == 'k';
      assert LowerChar(message[i + 7]) == 'k';
    }
  }

  /** Any message mentioning "callback" takes the fallback. */
  lemma MentionOfCallbackTakesFallback(before: string, after: string)
    ensures IsCallbackError(before + "callback" + after)
  {
    var m := before + "callback" + after;
    var r := Lower(m);
    assert r[|before|..|before| + 8] == Lower(m[|before|..|before| + 8]);
    assert m[|before|..|before| + 8] == "callback";
    assert OccursAt(r, "callback", |before|);
    ContainsIffOccurs(r, "callback");
  }

  lemma CancellationTakesNoFallback()
    ensures !IsCallbackError(CancelMessage)
  {
    NoLetterKNoFallback(CancelMessage);
  }

  lemma ZeroDivisionTakesNoFallback()
    ensures !IsCallbackError(ZeroDivisionMessage)
  {
    NoLetterKNoFallback(ZeroDivisionMessage);
  }

  /** Deciding the fallback on the kind of error is the same as testing its text. */
  lemma TakesFallbackTestsText(e: Error)
    ensures TakesFallback(e) <==> IsCallbackError(Message(e))
  {
    match e
    case Cancelled => CancellationTakesNoFallback();
    case DivisionByZero => ZeroDivisionTakesNoFallback();
    case ClientError(_) =>
  }

  // ---------------------------------------------------------------------------
  // The chunk callback
  // ---------------------------------------------------------------------------

  predicate AllChunks(steps: seq<Step>) {
    forall j :: 0 <= j < |steps| ==> steps[j].Chunk?
  }

  /** The progress reported for each chunk of an uncancelled stream, in order. */
  function ChunkProgress(size: nat, steps: seq<Step>): (events: seq<Event>)
    requires size > 0 && AllChunks(steps)
    ensures |events| == |steps|
    ensures forall j :: 0 <= j < |steps| ==> events[j] == Progress(Percent(steps[j].bytes, size))
  {
    if steps == [] then [] else [Progress(Percent(steps[0].bytes, size))] + ChunkProgress(size, steps[1..])
  }

  /** The callbacks only add observer calls and set the flag: the requests and the
      log stay, and the earlier observer calls stay in front. */
  lemma {:induction false} CallbacksFrame(s: State, size: nat, steps: seq<Step>)
    ensures var t := Callbacks(s, size, steps).0;
      t.requests == s.requests && t.log == s.log
      && |s.events| <= |t.events| && t.events[..|s.events|] == s.events
    decreases |steps|
  {
    if steps != [] {
      match steps[0]
      case CancelRequest =>
        CallbacksFrame(s.(cancelled := true), size, steps[1..]);
      case Chunk(bytes) =>
        if !s.cancelled && size != 0 {
          var s1 := s.(events := s.events + [Progress(Percent(bytes, size))]);
          CallbacksFrame(s1, size, steps[1..]);
          assert s1.events[..|s.events|] == s.events;
        }
    }
  }

  /** Without cancellation every chunk reports its cumulative bytes over the file
      size, times 100, and nothing is raised. */
  lemma {:induction false} ChunksReportPercent(s: State, size: nat, steps: seq<Step>)
    requires size > 0 && !s.cancelled && AllChunks(steps)
    ensures Callbacks(s, size, steps) == (s.(events := s.events + ChunkProgress(size, steps)), None)
    decreases |steps|
  {
    if steps != [] {
      var p := Progress(Percent(steps[0].bytes, size));
      var s1 := s.(events := s.events + [p]);
      assert Callbacks(s, size, steps) == Callbacks(s1, size, steps[1..]);
      ChunksReportPercent(s1, size, steps[1..]);
      assert ChunkProgress(size, steps) == [p] + ChunkProgress(size, steps[1..]);
      assert s.events + ([p] + ChunkProgress(size, steps[1..])) == s1.events + ChunkProgress(size, steps[1..]);
    } else {
      assert s.events + ChunkProgress(size, steps) == s.events;
    }
  }

  /** Once the flag is set, the next chunk raises the cancellation. */
  lemma {:induction false} CancelledChunkRaises(s: State, size: nat, steps: seq<Step>, k: nat)
    requires s.cancelled && k < |steps| && steps[k].Chunk?
    ensures Callbacks(s, size, steps).1 == Some(Cancelled)
    decreases |steps|
  {
    if steps[0].CancelRequest? {
      CancelledChunkRaises(s.(cancelled := true), size, steps[1..], k - 1);
    }
  }

  /** A cancel request followed by a chunk makes the transfer raise: the
      cancellation, or the division error of an empty file if that came first. */
  lemma {:induction false} CancelThenChunkRaises(s: State, size: nat, steps: seq<Step>, j: nat, k: nat)
    requires j < k < |steps| && steps[j] == CancelRequest && steps[k].Chunk?
    ensures var raised := Callbacks(s, size, steps).1;
      raised == Some(Cancelled) || raised == Some(DivisionByZero)
    decreases |steps|
  {
    match steps[0]
    case CancelRequest =>
      CancelledChunkRaises(s.(cancelled := true), size, steps[1..], k - 1);
    case Chunk(bytes) =>
      if !s.cancelled && size != 0 {
        CancelThenChunkRaises(s.(events := s.events + [Progress(Percent(bytes, size))]), size, steps[1..], j - 1, k - 1);
      }
  }

  /** Reported percentages of a well-behaved client (cumulative counts that never
      fall and never pass the file size) rise from 0 to at most 100, and reach 100
      when the last chunk completes the file. */
  lemma ChunkProgressRises(size: nat, steps: seq<Step>)
    requires size > 0 && AllChunks(steps)
    requires forall j :: 0 <= j < |steps| ==> steps[j].bytes <= size
    requires forall i, j :: 0 <= i < j < |steps| ==> steps[i].bytes <= steps[j].bytes
    ensures var p := ChunkProgress(size, steps);
      && (forall j :: 0 <= j < |p| ==> 0.0 <= p[j].percent <= 100.0)
      && (forall i, j :: 0 <= i < j < |p| ==> p[i].percent <= p[j].percent)
      && (|steps| > 0 && steps[|steps| - 1].bytes == size ==> p[|p| - 1] == Progress(100.0))
  {
    var p := ChunkProgress(size, steps);
    forall j | 0 <= j < |p| ensures 0.0 <= p[j].percent <= 100.0 {
      PercentMonotone(0, steps[j].bytes, size);
      PercentMonotone(steps[j].bytes, size, size);
    }
    forall i, j | 0 <= i < j < |p| ensures p[i].percent <= p[j].percent {
      PercentMonotone(steps[i].bytes, steps[j].bytes, size);
    }
    if |steps| > 0 {
      PercentMonotone(size, size, size);
    }
  }

  lemma PercentMonotone(a: nat, b: nat, size: nat)
    requires size > 0 && a <= b
    ensures Percent(a, size) <= Percent(b, size)
    ensures Percent(0, size) == 0.0 && Percent(size, size) == 100.0
  {
    assert a as real / size as real <= b as real / size as real;
  }

  // ---------------------------------------------------------------------------
  // upload_file / download_file
  // ---------------------------------------------------------------------------

  /** Without a session nothing is requested, observed or logged. */
  lemma NoSessionNoEffect(s: State, sep: char, direction: Direction, source: string, destination: string,
                          size: Option<nat>, stream: Stream, node: Node)
    ensures SingleFile(s, false, direction, source, destination, size, stream) == (false, s)
    ensures UploadDir(s, false, sep, source, destination, node) == (false, s)
    ensures DownloadDir(s, false, sep, source, destination, node) == (false, s)
  {
  }

  /** A file streamed without cancellation and without error succeeds with one
      request, reporting the percentage of each chunk. */
  lemma CleanTransferReportsEachChunk(s: State, direction: Direction, source: string, destination: string,
                                      size: nat, stream: Stream)
    requires size > 0 && !s.cancelled && AllChunks(stream.steps) && stream.outcome == Completed
    ensures SingleFile(s, true, direction, source, destination, Some(size), stream)
         == (true, s.(requests := s.requests + [TransferRequest(direction, source, destination, true)],
                      events := s.events + ChunkProgress(size, stream.steps)))
  {
    var s1 := s.(requests := s.requests + [TransferRequest(direction, source, destination, true)]);
    ChunksReportPercent(s1, size, stream.steps);
  }

  /** A cancel request during the transfer, followed by another chunk, makes the
      call fail without the fallback retry and without logging anything. */
  lemma CancelDuringTransferFails(s: State, connected: bool, direction: Direction, source: string,
                                  destination: string, size: Option<nat>, stream: Stream, j: nat, k: nat)
    requires j < k < |stream.steps| && stream.steps[j] == CancelRequest && stream.steps[k].Chunk?
    ensures var (ok, t) := SingleFile(s, connected, direction, source, destination, size, stream);
      && !ok
      && t.log == s.log
      && t.requests == if connected && size.Some? then s.requests + [TransferRequest(direction, source, destination, true)]
                       else s.requests
  {
    if connected && size.Some? {
      var s1 := s.(requests := s.requests + [TransferRequest(direction, source, destination, true)]);
      CancelThenChunkRaises(s1, size.value, stream.steps, j, k);
      CallbacksFrame(s1, size.value, stream.steps);
    }
  }

  /** An empty file fails as soon as the client reports a chunk for it: the
      progress computation divides by its size. */
  lemma EmptyFileChunkFails(s: State, direction: Direction, source: string, destination: string,
                            stream: Stream)
    requires !s.cancelled && |stream.steps| > 0 && stream.steps[0].Chunk?
    ensures SingleFile(s, true, direction, source, destination, Some(0), stream)
         == (false, s.(requests := s.requests + [TransferRequest(direction, source, destination, true)]))
  {
  }

  /** An error raised by the `put`/`get` call itself, after any chunks: when no
      callback raised, one retry without callback is made exactly when the text
      mentions "callback", and the file succeeds exactly when that retry
      completes, reporting a single 100 on top of the chunks' reports. The
      chunks' reports and the flag are whatever the callbacks left. */
  lemma ErrorTakesFallbackOnlyForCallback(s: State, direction: Direction, source: string, destination: string,
                                          size: nat, stream: Stream, message: string)
    requires stream.outcome == Raised(message)
    ensures var primary := TransferRequest(direction, source, destination, true);
      var fallback := TransferRequest(direction, source, destination, false);
      var (s2, raised) := Callbacks(s.(requests := s.requests + [primary]), size, stream.steps);
      var retried := raised.None? && IsCallbackError(message);
      var (ok, t) := SingleFile(s, true, direction, source, destination, Some(size), stream);
      && ok == (retried && stream.retry.Completed?)
      && t.requests == s.requests + (if retried then [primary, fallback] else [primary])
      && t.events == (if ok then s2.events + [Progress(100.0)] else s2.events)
      && t.cancelled == s2.cancelled
      && t.log == s.log
  {
    var primary := TransferRequest(direction, source, destination, true);
    var fallback := TransferRequest(direction, source, destination, false);
    var s1 := s.(requests := s.requests + [primary]);
    CallbacksFrame(s1, size, stream.steps);
    CallbacksRaiseOnlyTheirOwn(s1, size, stream.steps);
    assert s.requests + [primary] + [fallback] == s.requests + [primary, fallback];
  }

  /** The callbacks raise only the engine's own two exceptions. */
  lemma {:induction false} CallbacksRaiseOnlyTheirOwn(s: State, size: nat, steps: seq<Step>)
    ensures Callbacks(s, size, steps).1 in {None, Some(Cancelled), Some(DivisionByZero)}
    decreases |steps|
  {
    if steps != [] {
      match steps[0]
      case CancelRequest =>
        CallbacksRaiseOnlyTheirOwn(s.(cancelled := true), size, steps[1..]);
      case Chunk(bytes) =>
        if !s.cancelled && size != 0 {
          CallbacksRaiseOnlyTheirOwn(s.(events := s.events + [Progress(Percent(bytes, size))]), size, steps[1..]);
        }
    }
  }

  // ---------------------------------------------------------------------------
  // upload_directory / download_directory
  // ---------------------------------------------------------------------------

  /** The walk succeeds exactly when there is a session and the directory can be
      created (download) and listed, whatever becomes of its entries. */
  lemma WalkResultIgnoresEntries(s: State, connected: bool, sep: char, source: string, destination: string, node: Node)
    ensures UploadDir(s, connected, sep, source, destination, node).0 <==> connected && node.Dir? && node.listed
    ensures DownloadDir(s, connected, sep, source, destination, node).0
            <==> connected && node.Dir? && node.created && node.listed
  {
  }

  /** Requests that are not the fallback call of a single-file transfer. */
  function Primary(rs: seq<Request>): seq<Request>
  {
    if rs == [] then []
    else (if (rs[0].Put? || rs[0].Get?) && !rs[0].withCallback then [] else [rs[0]]) + Primary(rs[1..])
  }

  lemma {:induction false} PrimaryConcat(a: seq<Request>, b: seq<Request>)
    ensures Primary(a + b) == Primary(a) + Primary(b)
    decreases |a|
  {
    if a != [] {
      PrimaryConcat(a[1..], b);
      assert (a + b)[1..] == a[1..] + b;
    } else {
      assert a + b == b;
    }
  }

  /** Every file in the tree has a size (`getsize` / `stat` succeeds). */
  predicate AllSized(node: Node)
    decreases node
  {
    match node
    case File(_, size, _) => size.Some?
    case Dir(_, _, _, _, entries, _) => AllSizedEntries(entries)
  }

  predicate AllSizedEntries(entries: seq<Node>)
    decreases entries
  {
    entries == [] || (AllSized(entries[0]) && AllSizedEntries(entries[1..]))
  }

  /** The requests an upload of `node` from `local` to `remote` must make: a
      `mkdir` for each directory and one `put` for each file, depth first in
      listing order. */
  function UploadPlan(sep: char, local: string, remote: string, node: Node): seq<Request>
    decreases node, 0
  {
    [MakeRemoteDir(remote)] + (if node.Dir? && node.listed then UploadPlanEntries(sep, local, remote, node.entries) else [])
  }

  function UploadPlanEntries(sep: char, local: string, remote: string, entries: seq<Node>): seq<Request>
    decreases entries, 0
  {
    if entries == [] then []
    else UploadPlanEntry(sep, local, remote, entries[0]) + UploadPlanEntries(sep, local, remote, entries[1..])
  }

  function UploadPlanEntry(sep: char, local: string, remote: string, e: Node): seq<Request>
    decreases e, 1
  {
    var childLocal := Join(sep, local, e.name);
    var childRemote := Slashed(Join(sep, remote, e.name));
    if e.Dir? then UploadPlan(sep, childLocal, childRemote, e) else [Put(childLocal, childRemote, true)]
  }

  /** The requests a download of `node` from `remote` to `local` must make. */
  function DownloadPlan(sep: char, remote: string, local: string, node: Node): seq<Request>
    decreases node, 0
  {
    [MakeLocalDir(local)]
    + (if node.Dir? && node.created && node.listed then DownloadPlanEntries(sep, remote, local, node.entries) else [])
  }

  function DownloadPlanEntries(sep: char, remote: string, local: string, entries: seq<Node>): seq<Request>
    decreases entries, 0
  {
    if entries == [] then []
    else DownloadPlanEntry(sep, remote, local, entries[0]) + DownloadPlanEntries(sep, remote, local, entries[1..])
  }

  function DownloadPlanEntry(sep: char, remote: string, local: string, e: Node): seq<Request>
    decreases e, 1
  {
    var childRemote := Slashed(Join(sep, remote, e.name));
    var childLocal := Join(sep, local, e.name);
    if e.Dir? then DownloadPlan(sep, childRemote, childLocal, e) else [Get(childRemote, childLocal, true)]
  }

  /** A single-file transfer makes its request and at most one fallback retry of
      it, and logs nothing; without a session or a size it does nothing at all. */
  lemma SingleFileRequests(s: State, connected: bool, direction: Direction, source: string, destination: string,
                           size: Option<nat>, stream: Stream)
    ensures var t := SingleFile(s, connected, direction, source, destination, size, stream).1;
      var primary := TransferRequest(direction, source, destination, true);
      var fallback := TransferRequest(direction, source, destination, false);
      && t.log == s.log
      && (connected && size.Some? ==> t.requests == s.requests + [primary] || t.requests == s.requests + [primary, fallback])
      && (!connected || size.None? ==> t == s)
  {
    if connected && size.Some? {
      var primary := TransferRequest(direction, source, destination, true);
      var fallback := TransferRequest(direction, source, destination, false);
      var s1 := s.(requests := s.requests + [primary]);
      CallbacksFrame(s1, size.value, stream.steps);
      assert s.requests + [primary] + [fallback] == s.requests + [primary, fallback];
    }
  }

  /** A single-file transfer with a size makes exactly one primary request. */
  lemma SingleFilePrimary(s: State, direction: Direction, source: string, destination: string,
                          size: nat, stream: Stream)
    ensures Primary(SingleFile(s, true, direction, source, destination, Some(size), stream).1.requests)
         == Primary(s.requests) + [TransferRequest(direction, source, destination, true)]
  {
    var primary := TransferRequest(direction, source, destination, true);
    var fallback := TransferRequest(direction, source, destination, false);
    SingleFileRequests(s, true, direction, source, destination, Some(size), stream);
    PrimaryConcat(s.requests, [primary]);
    PrimaryConcat(s.requests, [primary, fallback]);
    assert (fallback.Put? || fallback.Get?) && !fallback.withCallback;
    assert [primary, fallback][1..] == [fallback] && [fallback][1..] == [];
    assert Primary([primary, fallback]) == [primary];
  }

  /** Two steps that each add primary requests add both, in order. */
  lemma PrimaryChain(a: seq<Request>, b: seq<Request>, c: seq<Request>, x: seq<Request>, y: seq<Request>)
    requires Primary(b) == Primary(a) + x && Primary(c) == Primary(b) + y
    ensures Primary(c) == Primary(a) + (x + y)
  {
  }

  /** Apart from fallback retries, an upload walk makes exactly the requests of
      its plan: every directory is recursed into and every file gets one call. */
  lemma {:induction false} UploadFollowsPlan(s: State, sep: char, local: string, remote: string, node: Node)
    requires AllSized(node)
    ensures Primary(UploadDir(s, true, sep, local, remote, node).1.requests)
         == Primary(s.requests) + UploadPlan(sep, local, remote, node)
    decreases node, 0
  {
    var s1 := s.(requests := s.requests + [MakeRemoteDir(remote)]);
    PrimaryConcat(s.requests, [MakeRemoteDir(remote)]);
    assert Primary([MakeRemoteDir(remote)]) == [MakeRemoteDir(remote)];
    if node.Dir? && node.listed {
      UploadEntriesFollowPlan(s1, sep, local, remote, node.entries);
      PrimaryChain(s.requests, s1.requests, UploadEntries(s1, true, sep, local, remote, node.entries).requests,
                   [MakeRemoteDir(remote)], UploadPlanEntries(sep, local, remote, node.entries));
    } else {
      assert UploadPlan(sep, local, remote, node) == [MakeRemoteDir(remote)];
    }
  }

  lemma {:induction false} UploadEntriesFollowPlan(s: State, sep: char, local: string, remote: string, entries: seq<Node>)
    requires AllSizedEntries(entries)
    ensures Primary(UploadEntries(s, true, sep, local, remote, entries).requests)
         == Primary(s.requests) + UploadPlanEntries(sep, local, remote, entries)
    decreases entries, 1
  {
    if entries != [] {
      UploadEntryFollowsPlan(s, sep, local, remote, entries[0]);
      var s1 := UploadEntry(s, true, sep, local, remote, entries[0]);
      UploadEntriesFollowPlan(s1, sep, local, remote, entries[1..]);
      PrimaryChain(s.requests, s1.requests, UploadEntries(s1, true, sep, local, remote, entries[1..]).requests,
                   UploadPlanEntry(sep, local, remote, entries[0]), UploadPlanEntries(sep, local, remote, entries[1..]));
    } else {
      assert Primary(s.requests) + [] == Primary(s.requests);
    }
  }

  lemma {:induction false} UploadEntryFollowsPlan(s: State, sep: char, local: string, remote: string, e: Node)
    requires AllSized(e)
    ensures Primary(UploadEntry(s, true, sep, local, remote, e).requests)
         == Primary(s.requests) + UploadPlanEntry(sep, local, remote, e)
    decreases e, 2
  {
    var childLocal := Join(sep, local, e.name);
    var childRemote := Slashed(Join(sep, remote, e.name));
    if e.Dir? {
      UploadFollowsPlan(s, sep, childLocal, childRemote, e);
    } else {
      SingleFilePrimary(s, Upload, childLocal, childRemote, e.size.value, e.stream);
    }
  }

  /** Apart from fallback retries, a download walk makes exactly the requests of its plan. */
  lemma {:induction false} DownloadFollowsPlan(s: State, sep: char, remote: string, local: string, node: Node)
    requires AllSized(node)
    ensures Primary(DownloadDir(s, true, sep, remote, local, node).1.requests)
         == Primary(s.requests) + DownloadPlan(sep, remote, local, node)
    decreases node, 0
  {
    var s1 := s.(requests := s.requests + [MakeLocalDir(local)]);
    PrimaryConcat(s.requests, [MakeLocalDir(local)]);
    assert Primary([MakeLocalDir(local)]) == [MakeLocalDir(local)];
    if node.Dir? && node.created && node.listed {
      DownloadEntriesFollowPlan(s1, sep, remote, local, node.entries);
      PrimaryChain(s.requests, s1.requests, DownloadEntries(s1, true, sep, remote, local, node.entries).requests,
                   [MakeLocalDir(local)], DownloadPlanEntries(sep, remote, local, node.entries));
    } else {
      assert DownloadPlan(sep, remote, local, node) == [MakeLocalDir(local)];
    }
  }

  lemma {:induction false} DownloadEntriesFollowPlan(s: State, sep: char, remote: string, local: string, entries: seq<Node>)
    requires AllSizedEntries(entries)
    ensures Primary(DownloadEntries(s, true, sep, remote, local, entries).requests)
         == Primary(s.requests) + DownloadPlanEntries(sep, remote, local, entries)
    decreases entries, 1
  {
    if entries != [] {
      DownloadEntryFollowsPlan(s, sep, remote, local, entries[0]);
      var s1 := DownloadEntry(s, true, sep, remote, local, entries[0]);
      DownloadEntriesFollowPlan(s1, sep, remote, local, entries[1..]);
      PrimaryChain(s.requests, s1.requests, DownloadEntries(s1, true, sep, remote, local, entries[1..]).requests,
                   DownloadPlanEntry(sep, remote, local, entries[0]), DownloadPlanEntries(sep, remote, local, entries[1..]));
    } else {
      assert Primary(s.requests) + [] == Primary(s.requests);
    }
  }

  lemma {:induction false} DownloadEntryFollowsPlan(s: State, sep: char, remote: string, local: string, e: Node)
    requires AllSized(e)
    ensures Primary(DownloadEntry(s, true, sep, remote, local, e).requests)
         == Primary(s.requests) + DownloadPlanEntry(sep, remote, local, e)
    decreases e, 2
  {
    var childRemote := Slashed(Join(sep, remote, e.name));
    var childLocal := Join(sep, local, e.name);
    DownloadChildFollowsPlan(s, sep, childRemote, childLocal, e);
  }

  /** A download entry once its paths are built: a directory follows its own
      plan, a file makes its one `get`. */
  lemma {:induction false} DownloadChildFollowsPlan(s: State, sep: char, childRemote: string, childLocal: string, e: Node)
    requires AllSized(e)
    ensures var t := if e.Dir? then DownloadDir(s, true, sep, childRemote, childLocal, e).1
                     else SingleFile(s, true, Download, childRemote, childLocal, e.size, e.stream).1;
      Primary(t.requests) == Primary(s.requests)
        + (if e.Dir? then DownloadPlan(sep, childRemote, childLocal, e) else [Get(childRemote, childLocal, true)])
    decreases e, 1
  {
    if e.Dir? {
      DownloadFollowsPlan(s, sep, childRemote, childLocal, e);
    } else {
      SingleFilePrimary(s, Download, childRemote, childLocal, e.size.value, e.stream);
    }
  }

  /** `basename` of a path that ends in a separator followed by `name` is `name`. */
  lemma {:induction false} BasenameAfterSeparator(sep: char, prefix: string, name: string)
    requires prefix == [] || IsSep(sep, prefix[|prefix| - 1])
    requires forall i :: 0 <= i < |name| ==> !IsSep(sep, name[i])
    ensures Basename(sep, prefix + name) == name
    decreases |name|
  {
    if name == [] {
      assert prefix + name == prefix;
    } else {
      var init := name[..|name| - 1];
      assert prefix + name == (prefix + init) + [name[|name| - 1]];
      assert (prefix + name)[..|prefix + name| - 1] == prefix + init;
      BasenameAfterSeparator(sep, prefix, init);
      assert init + [name[|name| - 1]] == name;
    }
  }

  /** The base name is the longest end of the path without a separator: it
      is an end of the path, holds no separator, and is preceded by one unless it
      is the whole path. */
  lemma {:induction false} BasenameIsLastPart(sep: char, path: string)
    ensures var r := Basename(sep, path);
      && |r| <= |path| && r == path[|path| - |r|..]
      && (forall i :: 0 <= i < |r| ==> !IsSep(sep, r[i]))
      && (|r| < |path| ==> IsSep(sep, path[|path| - |r| - 1]))
    decreases |path|
  {
    if path != [] && !IsSep(sep, path[|path| - 1]) {
      var init := path[..|path| - 1];
      BasenameIsLastPart(sep, init);
      var r0 := Basename(sep, init);
      var r := r0 + [path[|path| - 1]];
      assert Basename(sep, path) == r;
      assert path[|path| - |r|..] == init[|init| - |r0|..] + [path[|path| - 1]];
      assert forall i :: 0 <= i < |r| ==> !IsSep(sep, r[i]) by {
        forall i | 0 <= i < |r| ensures !IsSep(sep, r[i]) {
          if i < |r0| { assert r[i] == r0[i]; }
        }
      }
      if |r| < |path| {
        assert path[|path| - |r| - 1] == init[|init| - |r0| - 1];
      }
    }
  }

  /** The name an entry is logged or announced under is the name it was joined
      with: `basename(join(dir, name)) == name` for an entry name without
      separators. */
  lemma BasenameOfJoin(sep: char, dir: string, name: string)
    requires forall i :: 0 <= i < |name| ==> !IsSep(sep, name[i])
    ensures Basename(sep, Join(sep, dir, name)) == name
  {
    if dir == [] || IsSep(sep, dir[|dir| - 1]) {
      BasenameAfterSeparator(sep, dir, name);
    } else {
      BasenameAfterSeparator(sep, dir + [sep], name);
    }
  }

  /** The remote path a request names, if it names one. */
  function RemotePath(r: Request): string
  {
    match r
    case Put(_, remote, _) => remote
    case Get(remote, _, _) => remote
    case MakeRemoteDir(path) => path
    case MakeLocalDir(_) => []
  }

  /** The requests made after the first `n` of `rs` name remote paths without a backslash. */
  predicate SlashedAfter(rs: seq<Request>, n: nat)
  {
    forall k :: n <= k < |rs| ==> '\\' !in RemotePath(rs[k])
  }

  lemma SlashedHasNoBackslash(path: string)
    ensures '\\' !in Slashed(path)
  {
    var r := Slashed(path);
    assert forall i :: 0 <= i < |r| ==> r[i] != '\\';
  }

  /** Requests only ever get added: a prefix that keeps the first `n` and whose
      additions name slashed remote paths, followed by another such extension,
      is such an extension too. */
  lemma SlashedExtension(a: seq<Request>, b: seq<Request>, c: seq<Request>)
    requires |a| <= |b| && b[..|a|] == a && SlashedAfter(b, |a|)
    requires |b| <= |c| && c[..|b|] == b && SlashedAfter(c, |b|)
    ensures |a| <= |c| && c[..|a|] == a && SlashedAfter(c, |a|)
  {
    assert c[..|a|] == c[..|b|][..|a|];
    forall k | |a| <= k < |c| ensures '\\' !in RemotePath(c[k]) {
      if k < |b| {
        assert c[k] == c[..|b|][k];
      }
    }
  }

  /** Every remote path the walker builds for an entry has its backslashes
      replaced; the requests made before stay as they were. */
  lemma {:induction false} UploadRemotePathsSlashed(s: State, connected: bool, sep: char, local: string, remote: string, node: Node)
    requires '\\' !in remote
    ensures var t := UploadDir(s, connected, sep, local, remote, node).1;
      |s.requests| <= |t.requests| && t.requests[..|s.requests|] == s.requests && SlashedAfter(t.requests, |s.requests|)
    decreases node, 0
  {
    if connected {
      var s1 := s.(requests := s.requests + [MakeRemoteDir(remote)]);
      assert s1.requests[..|s.requests|] == s.requests;
      if node.Dir? && node.listed {
        UploadEntriesRemotePathsSlashed(s1, connected, sep, local, remote, node.entries);
        SlashedExtension(s.requests, s1.requests, UploadEntries(s1, connected, sep, local, remote, node.entries).requests);
      }
    }
  }

  lemma {:induction false} UploadEntriesRemotePathsSlashed(s: State, connected: bool, sep: char, local: string, remote: string, entries: seq<Node>)
    ensures var t := UploadEntries(s, connected, sep, local, remote, entries);
      |s.requests| <= |t.requests| && t.requests[..|s.requests|] == s.requests && SlashedAfter(t.requests, |s.requests|)
    decreases entries, 1
  {
    if entries != [] {
      UploadEntryRemotePathsSlashed(s, connected, sep, local, remote, entries[0]);
      var s1 := UploadEntry(s, connected, sep, local, remote, entries[0]);
      UploadEntriesRemotePathsSlashed(s1, connected, sep, local, remote, entries[1..]);
      SlashedExtension(s.requests, s1.requests, UploadEntries(s1, connected, sep, local, remote, entries[1..]).requests);
    } else {
      assert s.requests[..|s.requests|] == s.requests;
    }
  }

  lemma {:induction false} UploadEntryRemotePathsSlashed(s: State, connected: bool, sep: char, local: string, remote: string, e: Node)
    ensures var t := UploadEntry(s, connected, sep, local, remote, e);
      |s.requests| <= |t.requests| && t.requests[..|s.requests|] == s.requests && SlashedAfter(t.requests, |s.requests|)
    decreases e, 2
  {
    var childLocal := Join(sep, local, e.name);
    var childRemote := Slashed(Join(sep, remote, e.name));
    SlashedHasNoBackslash(Join(sep, remote, e.name));
    if e.Dir? {
      UploadRemotePathsSlashed(s, connected, sep, childLocal, childRemote, e);
    } else {
      SingleFileRemotePath(s, connected, Upload, childLocal, childRemote, e.size, e.stream);
    }
  }

  lemma {:induction false} DownloadRemotePathsSlashed(s: State, connected: bool, sep: char, remote: string, local: string, node: Node)
    ensures var t := DownloadDir(s, connected, sep, remote, local, node).1;
      |s.requests| <= |t.requests| && t.requests[..|s.requests|] == s.requests && SlashedAfter(t.requests, |s.requests|)
    decreases node, 0
  {
    if connected {
      var s1 := s.(requests := s.requests + [MakeLocalDir(local)]);
      assert s1.requests[..|s.requests|] == s.requests;
      if node.Dir? && node.created && node.listed {
        DownloadEntriesRemotePathsSlashed(s1, connected, sep, remote, local, node.entries);
        SlashedExtension(s.requests, s1.requests, DownloadEntries(s1, connected, sep, remote, local, node.entries).requests);
      }
    }
  }

  lemma {:induction false} DownloadEntriesRemotePathsSlashed(s: State, connected: bool, sep: char, remote: string, local: string, entries: seq<Node>)
    ensures var t := DownloadEntries(s, connected, sep, remote, local, entries);
      |s.requests| <= |t.requests| && t.requests[..|s.requests|] == s.requests && SlashedAfter(t.requests, |s.requests|)
    decreases entries, 1
  {
    if entries != [] {
      DownloadEntryRemotePathsSlashed(s, connected, sep, remote, local, entries[0]);
      var s1 := DownloadEntry(s, connected, sep, remote, local, entries[0]);
      DownloadEntriesRemotePathsSlashed(s1, connected, sep, remote, local, entries[1..]);
      SlashedExtension(s.requests, s1.requests, DownloadEntries(s1, connected, sep, remote, local, entries[1..]).requests);
    } else {
      assert s.requests[..|s.requests|] == s.requests;
    }
  }

  lemma {:induction false} DownloadEntryRemotePathsSlashed(s: State, connected: bool, sep: char, remote: string, local: string, e: Node)
    ensures var t := DownloadEntry(s, connected, sep, remote, local, e);
      |s.requests| <= |t.requests| && t.requests[..|s.requests|] == s.requests && SlashedAfter(t.requests, |s.requests|)
    decreases e, 2
  {
    var childRemote := Slashed(Join(sep, remote, e.name));
    var childLocal := Join(sep, local, e.name);
    SlashedHasNoBackslash(Join(sep, remote, e.name));
    DownloadChildRemotePathsSlashed(s, connected, sep, childRemote, childLocal, e);
  }

  /** A download entry whose remote path is already slashed: a directory is
      walked, a file is fetched, and neither names a backslash. */
  lemma {:induction false} DownloadChildRemotePathsSlashed(s: State, connected: bool, sep: char, childRemote: string,
                                                           childLocal: string, e: Node)
    requires '\\' !in childRemote
    ensures var t := if e.Dir? then DownloadDir(s, connected, sep, childRemote, childLocal, e).1
                     else SingleFile(s, connected, Download, childRemote, childLocal, e.size, e.stream).1;
      |s.requests| <= |t.requests| && t.requests[..|s.requests|] == s.requests && SlashedAfter(t.requests, |s.requests|)
    decreases e, 1
  {
    if e.Dir? {
      DownloadRemotePathsSlashed(s, connected, sep, childRemote, childLocal, e);
    } else {
      SingleFileSlashed(s, connected, Download, childRemote, childLocal, e.size, e.stream);
    }
  }

  /** A single-file transfer whose remote path has no backslash names no
      remote path with one. */
  lemma SingleFileSlashed(s: State, connected: bool, direction: Direction, source: string, destination: string,
                          size: Option<nat>, stream: Stream)
    requires '\\' !in (if direction == Upload then destination else source)
    ensures var t := SingleFile(s, connected, direction, source, destination, size, stream).1;
      |s.requests| <= |t.requests| && t.requests[..|s.requests|] == s.requests && SlashedAfter(t.requests, |s.requests|)
  {
    SingleFileRemotePath(s, connected, direction, source, destination, size, stream);
  }

  /** A single-file transfer names only its own remote path. */
  lemma SingleFileRemotePath(s: State, connected: bool, direction: Direction, source: string, destination: string,
                             size: Option<nat>, stream: Stream)
    ensures var t := SingleFile(s, connected, direction, source, destination, size, stream).1;
      |s.requests| <= |t.requests| && t.requests[..|s.requests|] == s.requests
      && forall k :: |s.requests| <= k < |t.requests|
           ==> RemotePath(t.requests[k]) == (if direction == Upload then destination else source)
  {
    SingleFileRequests(s, connected, direction, source, destination, size, stream);
  }
}
