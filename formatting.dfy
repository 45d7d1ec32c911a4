/** The pure helpers of the transfer engine: `format_time`, `format_size` and
    `is_directory` (file_transfer.py). Durations and sizes are whole numbers here;
    the engine also feeds them fractional speeds and ETAs, which this model leaves out. */
module Formatting {
  import opened Text

  // ---------------------------------------------------------------------------
  // format_time
  // ---------------------------------------------------------------------------

  /** "Ns" below a minute, "Mm Ss" below an hour, "Hh Mm" from an hour on
      (the seconds are dropped in the last form). */
  function FormatTime(seconds: nat): string
  {
    if seconds < 60 then
      NatToString(seconds) + "s"
    else if seconds < 3600 then
      NatToString(seconds / 60) + "m " + NatToString(seconds % 60) + "s"
    else
      NatToString(seconds / 3600) + "h " + NatToString((seconds % 3600) / 60) + "m"
  }

  /** Seconds per unit letter of a rendered duration. */
  function UnitSeconds(c: char): Option<nat>
  {
    if c == 's' then Some(1)
    else if c == 'm' then Some(60)
    else if c == 'h' then Some(3600)
    else None
  }

  /** Length of the run of decimal digits at the start of `t`. */
  function DigitRun(t: string): (k: nat)
    ensures k <= |t|
    ensures forall i :: 0 <= i < k ==> IsDigit(t[i])
    ensures k < |t| ==> !IsDigit(t[k])
  {
    if t == [] || !IsDigit(t[0]) then 0 else 1 + DigitRun(t[1..])
  }

  /** Splits off the first term of a rendered duration, a number followed by a
      unit letter: its value in seconds and the text after it. */
  function FirstTerm(t: string): (r: Option<(nat, string)>)
    ensures r.Some? ==> |r.value.1| < |t|
  {
    var k := DigitRun(t);
    if k == 0 || k == |t| || UnitSeconds(t[k]).None? then None
    else Some((ParseNat(t[..k]) * UnitSeconds(t[k]).value, t[k + 1..]))
  }

  /** Reads a rendered duration ("12m 5s", "1h 1m", "45s") back into seconds:
      space-separated terms, each a number followed by a unit letter. */
  function ReadDuration(t: string): Option<nat>
    decreases |t|
  {
    match FirstTerm(t)
    case None => None
    case Some((term, rest)) =>
      if rest == [] then Some(term)
      else if rest[0] != ' ' then None
      else
        match ReadDuration(rest[1..])
        case None => None
        case Some(more) => Some(term + more)
  }

  lemma {:induction false} DigitRunOfNumber(n: nat, rest: string)
    requires rest == [] || !IsDigit(rest[0])
    ensures DigitRun(NatToString(n) + rest) == |NatToString(n)|
  {
    var s := NatToString(n);
    var t := s + rest;
    if |s| == 1 {
      assert t[1..] == rest;
    } else {
      assert t[1..] == s[1..] + rest;
      DigitRunPrefix(s[1..], rest);
    }
  }

  lemma {:induction false} DigitRunPrefix(s: string, rest: string)
    requires forall i :: 0 <= i < |s| ==> IsDigit(s[i])
    requires rest == [] || !IsDigit(rest[0])
    ensures DigitRun(s + rest) == |s|
    decreases |s|
  {
    if s != [] {
      assert (s + rest)[1..] == s[1..] + rest;
      DigitRunPrefix(s[1..], rest);
    } else {
      assert s + rest == rest;
    }
  }

  /** The first term of a rendered number `n` followed by unit `u`. */
  lemma FirstTermOf(n: nat, u: char, rest: string)
    requires UnitSeconds(u).Some?
    ensures FirstTerm(NatToString(n) + [u] + rest) == Some((n * UnitSeconds(u).value, rest))
  {
    var s := NatToString(n);
    var t := s + [u] + rest;
    DigitRunOfNumber(n, [u] + rest);
    assert t == s + ([u] + rest);
    assert t[..|s|] == s && t[|s|] == u && t[|s| + 1..] == rest;
    ParseNatToString(n);
  }

  /** A rendered duration made of a single term. */
  lemma ReadOneTerm(n: nat, u: char)
    requires UnitSeconds(u).Some?
    ensures ReadDuration(NatToString(n) + [u]) == Some(n * UnitSeconds(u).value)
  {
    FirstTermOf(n, u, []);
    assert NatToString(n) + [u] + [] == NatToString(n) + [u];
  }

  lemma ReadTwoTerms(n: nat, u: char, m: nat, w: char)
    requires UnitSeconds(u).Some? && UnitSeconds(w).Some?
    ensures ReadDuration(NatToString(n) + [u, ' '] + NatToString(m) + [w]) ==
      Some(n * UnitSeconds(u).value + m * UnitSeconds(w).value)
  {
    var second := NatToString(m) + [w];
    var rest := " " + second;
    var t := NatToString(n) + [u] + rest;
    var v: nat := n * UnitSeconds(u).value;
    var more: nat := m * UnitSeconds(w).value;
    assert ReadDuration(t) == Some(v + more) by {
      FirstTermOf(n, u, rest);
      assert rest[1..] == second;
      ReadOneTerm(m, w);
      ReadAfterFirstTerm(t, v, rest, more);
    }
    RegroupTwoTerms(NatToString(n), u, NatToString(m), w);
  }

  lemma RegroupTwoTerms(a: string, u: char, b: string, w: char)
    ensures a + [u, ' '] + b + [w] == a + [u] + (" " + (b + [w]))
  {
  }

  /** One step of `ReadDuration`: a first term, a space and more terms. */
  lemma ReadAfterFirstTerm(t: string, term: nat, rest: string, more: nat)
    requires FirstTerm(t) == Some((term, rest))
    requires rest != [] && rest[0] == ' ' && ReadDuration(rest[1..]) == Some(more)
    ensures ReadDuration(t) == Some(term + more)
  {
  }

  lemma HoursAndMinutes(seconds: nat)
    ensures (seconds / 3600) * 3600 + ((seconds % 3600) / 60) * 60 == seconds - seconds % 60
  {
  }

  lemma ReadsBackMinutes(seconds: nat)
    requires 60 <= seconds < 3600
    ensures ReadDuration(FormatTime(seconds)) == Some(seconds)
  {
    var m, s := seconds / 60, seconds % 60;
    assert FormatTime(seconds) == NatToString(m) + ['m', ' '] + NatToString(s) + ['s'];
    ReadTwoTerms(m, 'm', s, 's');
  }

  lemma ReadsBackHours(seconds: nat)
    requires 3600 <= seconds
    ensures ReadDuration(FormatTime(seconds)) == Some(seconds - seconds % 60)
  {
    var h, m := seconds / 3600, (seconds % 3600) / 60;
    assert FormatTime(seconds) == NatToString(h) + ['h', ' '] + NatToString(m) + ['m'];
    ReadTwoTerms(h, 'h', m, 'm');
    HoursAndMinutes(seconds);
  }

  /** Reading a rendered duration back gives the number of seconds, except that
      from one hour on the seconds within the current minute are lost. */
  lemma FormatTimeReadsBack(seconds: nat)
    ensures ReadDuration(FormatTime(seconds)) ==
      Some(if seconds < 3600 then seconds else seconds - seconds % 60)
  {
    if seconds < 60 {
      ReadOneTerm(seconds, 's');
    } else if seconds < 3600 {
      ReadsBackMinutes(seconds);
    } else {
      ReadsBackHours(seconds);
    }
  }

  lemma FormatTimeExamples()
    ensures FormatTime(45) == "45s"
    ensures FormatTime(125) == "2m 5s"
    ensures FormatTime(3700) == "1h 1m"
  {
  }

  // ---------------------------------------------------------------------------
  // format_size
  // ---------------------------------------------------------------------------

  datatype SizeUnit = B | KB | MB | GB {
    function Name(): string {
      match this
      case B => "B"
      case KB => "KB"
      case MB => "MB"
      case GB => "GB"
    }
    function Scale(): (r: nat)
      ensures r >= 1
    {
      match this
      case B => 1
      case KB => 1024
      case MB => 1024 * 1024
      case GB => 1024 * 1024 * 1024
    }
  }

  /** The unit `format_size` picks: the largest one, up to GB, that the size reaches. */
  function UnitOf(size: nat): SizeUnit
  {
    if size < 1024 then B
    else if size < 1024 * 1024 then KB
    else if size < 1024 * 1024 * 1024 then MB
    else GB
  }

  lemma {:induction false} UnitOfIsLargestReached(size: nat)
    ensures UnitOf(size) != B ==> size >= UnitOf(size).Scale()
    ensures UnitOf(size) == B ==> size < 1024
    ensures UnitOf(size) == KB ==> size < 1024 * KB.Scale()
    ensures UnitOf(size) == MB ==> size < 1024 * MB.Scale()
    ensures size >= 1024 ==> UnitOf(size) != B
    ensures size >= KB.Scale() * 1024 ==> UnitOf(size) != KB
    ensures size >= MB.Scale() * 1024 ==> UnitOf(size) != MB && UnitOf(size) != KB
  {
  }

  /** `n / d` rounded to the nearest whole number, ties to the even one: how
      Python's `.1f` rounds the exactly representable quotient `size / 1024**k`
      once it is scaled to tenths. */
  function RoundHalfEven(n: nat, d: nat): (q: nat)
    requires d > 0
  {
    var q, r := n / d, n % d;
    if 2 * r < d then q
    else if 2 * r > d then q + 1
    else if q % 2 == 0 then q
    else q + 1
  }

  /** The rounded quotient is within half a unit of the exact one, and a tie
      goes to the even neighbour. */
  lemma RoundHalfEvenIsNearest(n: nat, d: nat)
    requires d > 0
    ensures 2 * (RoundHalfEven(n, d) * d - n) <= d
    ensures 2 * (n - RoundHalfEven(n, d) * d) <= d
    ensures 2 * (RoundHalfEven(n, d) * d - n) == d ==> RoundHalfEven(n, d) % 2 == 0
    ensures 2 * (n - RoundHalfEven(n, d) * d) == d ==> RoundHalfEven(n, d) % 2 == 0
  {
    var q, r := n / d, n % d;
    assert n == q * d + r;
    assert (q + 1) * d - n == d - r;
  }

  /** The size in tenths of its unit, as `.1f` rounds it. */
  function Tenths(size: nat, u: SizeUnit): nat
  {
    RoundHalfEven(10 * size, u.Scale())
  }

  /** "N.D <unit>" for a number of tenths. */
  function TenthsText(tenths: nat, u: SizeUnit): string
  {
    NatToString(tenths / 10) + "." + [DigitChar(tenths % 10)] + " " + u.Name()
  }

  function FormatSize(size: nat): string
  {
    if size == 0 then "0 B"
    else if size < 1024 then NatToString(size) + " B"
    else TenthsText(Tenths(size, UnitOf(size)), UnitOf(size))
  }

  /** What a rendered size means: below 1024 the exact byte count; from there on
      the size in its unit rounded to the nearest tenth. */
  lemma FormatSizeMeaning(size: nat)
    ensures size < 1024 ==> FormatSize(size) == NatToString(size) + " B"
    ensures size >= 1024 ==>
      var u := UnitOf(size);
      var t := Tenths(size, u);
      && u != B
      && FormatSize(size) == TenthsText(t, u)
      && 2 * (t * u.Scale() - 10 * size) <= u.Scale()
      && 2 * (10 * size - t * u.Scale()) <= u.Scale()
  {
    if size == 0 {
      assert NatToString(0) == "0";
    }
    if size >= 1024 {
      RoundHalfEvenIsNearest(10 * size, UnitOf(size).Scale());
    }
  }

  lemma FormatSizeExamples()
    ensures FormatSize(0) == "0 B"
    ensures FormatSize(1536) == "1.5 KB"
    ensures FormatSize(1280) == "1.2 KB"
    ensures FormatSize(1048576) == "1.0 MB"
  {
    assert Tenths(1536, KB) == 15;
    assert Tenths(1280, KB) == 12;
    assert Tenths(1048576, MB) == 10;
    assert NatToString(1) == "1";
  }

  // ---------------------------------------------------------------------------
  // is_directory
  // ---------------------------------------------------------------------------

  /** Python's `a & b` on non-negative integers, bit by bit from the lowest. */
  function BitAnd(a: nat, b: nat): nat
  {
    if a == 0 || b == 0 then 0
    else 2 * BitAnd(a / 2, b / 2) + (if a % 2 == 1 && b % 2 == 1 then 1 else 0)
  }

  function Pow2(k: nat): (r: nat)
    ensures r >= 1
  {
    if k == 0 then 1 else 2 * Pow2(k - 1)
  }

  /** The mode bit that marks a directory, octal 040000. */
  const DirBit: nat := 0x4000

  /** `is_directory(mode)`: `mode & 0o040000 != 0`. `download_directory` uses
      the same test on each remote entry's `st_mode`; the walk model in module
      Transfer takes its verdict as given (a remote entry that passes it is a
      `Dir` node, one that fails it a `File` node) instead of computing it from
      a mode. */
  function IsDirectory(mode: nat): bool
  {
    BitAnd(mode, DirBit) != 0
  }

  /** Bit `k` of `a` (counting from 0 at the lowest) is set. */
  predicate BitSet(a: nat, k: nat)
  {
    if k == 0 then a % 2 == 1 else BitSet(a / 2, k - 1)
  }

  lemma {:induction false} NoBitOfZero(k: nat)
    ensures !BitSet(0, k)
  {
    if k > 0 {
      NoBitOfZero(k - 1);
    }
  }

  /** Masking with a power of two keeps exactly that bit of `a`. */
  lemma {:induction false} BitAndPow2(a: nat, k: nat)
    ensures BitAnd(a, Pow2(k)) == if BitSet(a, k) then Pow2(k) else 0
  {
    if a == 0 {
      NoBitOfZero(k);
    } else if k > 0 {
      BitAndPow2(a / 2, k - 1);
      assert Pow2(k) / 2 == Pow2(k - 1) && Pow2(k) % 2 == 0;
    }
  }

  /** `is_directory` holds exactly when bit 14 (octal 040000) of the mode is set. */
  lemma IsDirectoryIffBit14(mode: nat)
    ensures IsDirectory(mode) <==> BitSet(mode, 14)
  {
    assert Pow2(14) == DirBit;
    BitAndPow2(mode, 14);
  }

  /** Consequences for the file-type field of a Unix mode: a directory (040755) is
      one and a regular file (100644) or a symbolic link (120777) is not; since only
      bit 14 is tested, a block device (060660) and a socket (140755) count as
      directories too. */
  lemma IsDirectoryOnFileTypes()
    ensures IsDirectory(0x41ED)    // octal 040755, directory
    ensures !IsDirectory(0x81A4)   // octal 100644, regular file
    ensures !IsDirectory(0xA1FF)   // octal 120777, symbolic link
    ensures IsDirectory(0x61B0)    // octal 060660, block device
    ensures IsDirectory(0xC1ED)    // octal 140755, socket
  {
    assert IsDirectory(0x41ED) by {
      IsDirectoryIffBit14(0x41ED);
      assert BitSet(0x41ED, 14);
    }
    assert !IsDirectory(0x81A4) by {
      IsDirectoryIffBit14(0x81A4);
      assert !BitSet(0x81A4, 14);
    }
    assert !IsDirectory(0xA1FF) by {
      IsDirectoryIffBit14(0xA1FF);
      assert !BitSet(0xA1FF, 14);
    }
    assert IsDirectory(0x61B0) by {
      IsDirectoryIffBit14(0x61B0);
      assert BitSet(0x61B0, 14);
    }
    assert IsDirectory(0xC1ED) by {
      IsDirectoryIffBit14(0xC1ED);
      assert BitSet(0xC1ED, 14);
    }
  }
}
