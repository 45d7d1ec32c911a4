/** The bounded transfer history of `FileTransfer` (file_transfer.py, `log_transfer`):
    each append adds the entry at the end and, once the list is longer than 100,
    keeps only its last 100 entries. */
module TransferLog {

  const Capacity: nat := 100

  /** `log[-100:]` when the log is longer than 100, the log itself otherwise. */
  function Trimmed<T>(log: seq<T>): seq<T>
  {
    if |log| > Capacity then log[|log| - Capacity..] else log
  }

  /** The log after `log_transfer` appended `entry`. */
  function Appended<T>(log: seq<T>, entry: T): seq<T>
  {
    Trimmed(log + [entry])
  }

  /** The log after appending each of `entries` in turn. */
  function AppendedAll<T>(log: seq<T>, entries: seq<T>): seq<T>
    decreases |entries|
  {
    if entries == [] then log else AppendedAll(Appended(log, entries[0]), entries[1..])
  }

  /** An append keeps the newest `min(n + 1, 100)` entries of the log with the new
      entry at the end: it is last, nothing past 100 survives, and what is dropped
      is the oldest. */
  lemma AppendedIsNewestSuffix<T>(log: seq<T>, entry: T)
    ensures var r := Appended(log, entry);
      && |r| == (if |log| + 1 > Capacity then Capacity else |log| + 1)
      && r == (log + [entry])[|log| + 1 - |r|..]
      && r[|r| - 1] == entry
  {
  }

  /** Once the log is full, an append evicts exactly the oldest entry. */
  lemma AppendedToFullLogEvictsOldest<T>(log: seq<T>, entry: T)
    requires |log| == Capacity
    ensures Appended(log, entry) == log[1..] + [entry]
  {
    assert (log + [entry])[1..] == log[1..] + [entry];
  }

  /** Trimming once more after an append changes nothing: trimming early loses
      only entries that a later trim drops anyway. */
  lemma TrimmedAppendTrimmed<T>(xs: seq<T>, entry: T)
    ensures Trimmed(Trimmed(xs) + [entry]) == Trimmed(xs + [entry])
  {
    if |xs| > Capacity {
      var t := xs[|xs| - Capacity..];
      assert (t + [entry])[1..] == (xs + [entry])[|xs| + 1 - Capacity..];
    }
  }

  /** Appending entries one at a time to a log of at most 100 entries leaves the
      last 100 of everything ever appended. */
  lemma {:induction false} AppendedAllIsTrimmed<T>(log: seq<T>, entries: seq<T>)
    requires |log| <= Capacity
    ensures AppendedAll(log, entries) == Trimmed(log + entries)
    decreases |entries|
  {
    if entries != [] {
      var next := Appended(log, entries[0]);
      AppendedAllIsTrimmed(next, entries[1..]);
      // AppendedAll(log, entries) == Trimmed(next + entries[1..])
      assert log + entries == (log + [entries[0]]) + entries[1..];
      TrimmedConcat(log + [entries[0]], entries[1..]);
    } else {
      assert log + entries == log;
    }
  }

  /** Trimming before appending more is the same as trimming once at the end. */
  lemma {:induction false} TrimmedConcat<T>(xs: seq<T>, ys: seq<T>)
    ensures Trimmed(Trimmed(xs) + ys) == Trimmed(xs + ys)
    decreases |ys|
  {
    if ys == [] {
      assert Trimmed(xs) + ys == Trimmed(xs) && xs + ys == xs;
    } else {
      var last := ys[|ys| - 1];
      var init := ys[..|ys| - 1];
      assert ys == init + [last];
      TrimmedConcat(xs, init);
      assert Trimmed(xs) + ys == (Trimmed(xs) + init) + [last];
      assert xs + ys == (xs + init) + [last];
      TrimmedAppendTrimmed(Trimmed(xs) + init, last);
      TrimmedAppendTrimmed(xs + init, last);
    }
  }

  /** 101 appends to an empty log: 100 entries remain and the first one appended
      is gone. */
  lemma HundredAndOneAppendsDropTheFirst<T>(entries: seq<T>)
    requires |entries| == Capacity + 1
    ensures AppendedAll([], entries) == entries[1..]
    ensures |AppendedAll([], entries)| == Capacity
    ensures entries[0] !in entries[1..] ==> entries[0] !in AppendedAll([], entries)
  {
    AppendedAllIsTrimmed([], entries);
    assert [] + entries == entries;
  }
}
