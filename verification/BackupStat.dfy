/** The backup check: files of the last day are counted by a scan from the end of the listing that stops at the
    first old file, and compared with the number the backup policy asks for. */
module BackupStat {
  import opened Options

  const ONE_DAY_SECONDS := 24 * 60 * 60
  const NANOS := 1_000_000_000

  /** Go's conversion of a duration in nanoseconds to whole seconds, which cuts toward zero. */
  function WholeSeconds(nanos: int): int {
    if nanos >= 0 then nanos / NANOS else -((-nanos) / NANOS)
  }

  /** Is a file of that modification time older than a day, by a clock that shows `now`? */
  predicate Old(modified: int, now: int) {
    WholeSeconds(now - modified) > ONE_DAY_SECONDS
  }

  /** A file is old from one second after its first day on. */
  lemma OldFrom(modified: int, now: int)
    ensures Old(modified, now) <==> now - modified >= (ONE_DAY_SECONDS + 1) * NANOS
  {
  }

  // ----- The scan -----

  /** The outcome of a scan: COS listings hold time texts that may not parse. */
  datatype Counted = Counted(files: nat) | BadTime

  /** The scan from the end: `readings[k]` is the clock of its k-th step. */
  function Scan(files: seq<Option<int>>, readings: seq<int>): (r: Counted)
    requires |readings| >= |files|
    ensures r.Counted? ==> r.files <= |files|
  {
    if files == [] then Counted(0)
    else
      match files[|files| - 1]
      case None => BadTime
      case Some(modified) =>
        if Old(modified, readings[0]) then Counted(0)
        else match Scan(files[..|files| - 1], readings[1..])
             case BadTime => BadTime
             case Counted(n) => Counted(n + 1)
  }

  function Parsed(modified: seq<int>): (files: seq<Option<int>>)
    ensures |files| == |modified| && forall i :: 0 <= i < |modified| ==> files[i] == Some(modified[i])
  {
    seq(|modified|, i requires 0 <= i < |modified| => Some(modified[i]))
  }

  /** The file of the k-th step is readable and recent. */
  predicate RecentAt(files: seq<Option<int>>, readings: seq<int>, k: nat)
    requires k < |files| <= |readings|
  {
    var file := files[|files| - 1 - k];
    file.Some? && !Old(file.value, readings[k])
  }

  /** The last `n` files are readable and recent, by the readings of the first `n` steps. */
  predicate RecentTail(files: seq<Option<int>>, readings: seq<int>, n: nat)
    requires |readings| >= |files|
  {
    n <= |files| && forall k :: 0 <= k < n ==> RecentAt(files, readings, k)
  }

  /** A tail of recent files is counted, whatever follows. */
  lemma {:induction false} ScanTail(files: seq<Option<int>>, readings: seq<int>, n: nat)
    requires |readings| >= |files| && RecentTail(files, readings, n)
    ensures Scan(files, readings) ==
            match Scan(files[..|files| - n], readings[n..])
            case BadTime => BadTime
            case Counted(m) => Counted(n + m)
  {
    if n == 0 {
      assert files[..|files|] == files && readings[0..] == readings;
    } else {
      var rest := files[..|files| - 1];
      forall k | 0 <= k < n - 1
        ensures RecentAt(rest, readings[1..], k)
      {
        assert RecentAt(files, readings, k + 1);
      }
      ScanTail(rest, readings[1..], n - 1);
      assert rest[..|rest| - (n - 1)] == files[..|files| - n];
      assert readings[1..][n - 1..] == readings[n..];
      assert RecentAt(files, readings, 0);
    }
  }

  /** An unreadable time behind a tail of recent files. */
  predicate BadAfter(files: seq<Option<int>>, readings: seq<int>, n: nat)
    requires |readings| >= |files|
  {
    n < |files| && RecentTail(files, readings, n) && files[|files| - 1 - n].None?
  }

  /** An unreadable time is an error exactly when no old file is listed after it. */
  lemma {:induction false} BadTimeExactly(files: seq<Option<int>>, readings: seq<int>)
    requires |readings| >= |files|
    ensures Scan(files, readings) == BadTime <==> exists n: nat :: BadAfter(files, readings, n)
  {
    if n: nat :| BadAfter(files, readings, n) {
      ScanTail(files, readings, n);
    }
    if Scan(files, readings) == BadTime {
      var n := BadTimeWitness(files, readings);
    }
  }

  lemma {:induction false} BadTimeWitness(files: seq<Option<int>>, readings: seq<int>) returns (n: nat)
    requires |readings| >= |files| && Scan(files, readings) == BadTime
    ensures BadAfter(files, readings, n)
  {
    if files[|files| - 1].None? {
      n := 0;
    } else {
      var rest := files[..|files| - 1];
      var m := BadTimeWitness(rest, readings[1..]);
      n := m + 1;
      forall k | 0 <= k < n
        ensures RecentAt(files, readings, k)
      {
        assert k > 0 ==> RecentAt(rest, readings[1..], k - 1);
      }
    }
  }

  /** `Stat` of the S3 provider. */
  method StatS3(modified: seq<int>, readings: seq<int>) returns (files: nat)
    requires |readings| >= |modified|
    ensures Counted(files) == Scan(Parsed(modified), readings)
  {
    files := 0;
    var i := |modified| - 1;
    while i >= 0
      invariant -1 <= i < |modified|
      invariant files == |modified| - 1 - i
      invariant RecentTail(Parsed(modified), readings, files)
    {
      if WholeSeconds(readings[files] - modified[i]) > ONE_DAY_SECONDS {
        break;
      }
      assert RecentAt(Parsed(modified), readings, files);
      files := files + 1;
      i := i - 1;
    }
    ScanTail(Parsed(modified), readings, files);
  }

  /** `Stat` of the COS provider: an unreadable time ends the scan with an error. */
  method StatCOS(objects: seq<Option<int>>, readings: seq<int>) returns (r: Counted)
    requires |readings| >= |objects|
    ensures r == Scan(objects, readings)
  {
    var files := 0;
    var i := |objects| - 1;
    while i >= 0
      invariant -1 <= i < |objects|
      invariant files == |objects| - 1 - i
      invariant RecentTail(objects, readings, files)
    {
      if objects[i].None? {
        ScanTail(objects, readings, files);
        return BadTime;
      }
      if WholeSeconds(readings[files] - objects[i].value) > ONE_DAY_SECONDS {
        break;
      }
      assert RecentAt(objects, readings, files);
      files := files + 1;
      i := i - 1;
    }
    ScanTail(objects, readings, files);
    return Counted(files);
  }

  // ----- The scan and the full count -----

  /** The files that a count over the whole listing finds at most a day old. */
  function FullCount(modified: seq<int>, now: int): (n: nat)
    ensures n <= |modified|
  {
    if modified == [] then 0
    else FullCount(modified[..|modified| - 1], now) + if Old(modified[|modified| - 1], now) then 0 else 1
  }

  function Steady(now: int, n: nat): (readings: seq<int>)
    ensures |readings| == n && forall k :: 0 <= k < n ==> readings[k] == now
  {
    seq(n, _ => now)
  }

  /** The scan by a clock that stands still. */
  function Suffix(modified: seq<int>, now: int): (n: nat)
    ensures n <= |modified|
  {
    if modified == [] || Old(modified[|modified| - 1], now) then 0 else Suffix(modified[..|modified| - 1], now) + 1
  }

  lemma {:induction false} SteadyScan(modified: seq<int>, now: int)
    ensures Scan(Parsed(modified), Steady(now, |modified|)) == Counted(Suffix(modified, now))
  {
    if modified != [] {
      var n := |modified| - 1;
      SteadyScan(modified[..n], now);
      assert Parsed(modified)[..n] == Parsed(modified[..n]);
      assert Steady(now, |modified|)[1..] == Steady(now, n);
    }
  }

  /** The suffix is recent, and as long as can be. */
  lemma {:induction false} SuffixIsLongest(modified: seq<int>, now: int)
    ensures var n := Suffix(modified, now);
            && (forall i :: |modified| - n <= i < |modified| ==> !Old(modified[i], now))
            && (n < |modified| ==> Old(modified[|modified| - n - 1], now))
  {
    if modified != [] && !Old(modified[|modified| - 1], now) {
      SuffixIsLongest(modified[..|modified| - 1], now);
    }
  }

  /** No recent file is listed before an old one. */
  predicate OldFirst(modified: seq<int>, now: int) {
    forall i, j :: 0 <= i < j < |modified| && Old(modified[j], now) ==> Old(modified[i], now)
  }

  lemma {:induction false} AllOldCount(modified: seq<int>, now: int)
    ensures FullCount(modified, now) == 0 <==> forall i :: 0 <= i < |modified| ==> Old(modified[i], now)
  {
    if modified != [] {
      AllOldCount(modified[..|modified| - 1], now);
    }
  }

  /** The early exit never counts too much, and it loses nothing exactly when old files come first. */
  lemma {:induction false} EarlyExit(modified: seq<int>, now: int)
    ensures Suffix(modified, now) <= FullCount(modified, now)
    ensures Suffix(modified, now) == FullCount(modified, now) <==> OldFirst(modified, now)
  {
    if modified != [] {
      var n := |modified| - 1;
      var init := modified[..n];
      EarlyExit(init, now);
      if Old(modified[n], now) {
        AllOldCount(init, now);
        if OldFirst(modified, now) {
          assert forall i :: 0 <= i < n ==> Old(modified[i], now) && init[i] == modified[i];
        } else {
          var i, j :| 0 <= i < j < |modified| && Old(modified[j], now) && !Old(modified[i], now);
          assert !Old(init[i], now);
        }
      } else if OldFirst(init, now) {
        forall i, j | 0 <= i < j < |modified| && Old(modified[j], now)
          ensures Old(modified[i], now)
        {
          assert Old(init[j], now) ==> Old(init[i], now);
        }
      }
    }
  }

  predicate Ascending(modified: seq<int>) {
    forall i, j :: 0 <= i < j < |modified| ==> modified[i] <= modified[j]
  }

  lemma OldLater(modified: int, earlier: int, now: int, later: int)
    requires earlier <= modified && now <= later
    ensures Old(modified, now) ==> Old(earlier, later)
  {
    OldFrom(modified, now);
    OldFrom(earlier, later);
  }

  /** For listings ascending by time, which is how backups are named, the scan is the full count. */
  lemma AscendingScan(modified: seq<int>, now: int)
    requires Ascending(modified)
    ensures Suffix(modified, now) == FullCount(modified, now)
  {
    forall i, j | 0 <= i < j < |modified| && Old(modified[j], now)
      ensures Old(modified[i], now)
    {
      OldLater(modified[j], modified[i], now, now);
    }
    EarlyExit(modified, now);
  }

  // ----- A clock that moves during the scan -----

  predicate Between(readings: seq<int>, first: int, last: int) {
    forall k :: 0 <= k < |readings| ==> first <= readings[k] <= last
  }

  /** A scan whose clock moves from `first` to `last` counts no more than a look at `first` would, and for an
      ascending listing no less than a look at `last`. */
  lemma {:induction false} MovingClock(modified: seq<int>, readings: seq<int>, first: int, last: int)
    requires |readings| >= |modified| && Between(readings, first, last)
    ensures var r := Scan(Parsed(modified), readings);
            && r.Counted? && r.files <= FullCount(modified, first)
            && (Ascending(modified) ==> FullCount(modified, last) <= r.files)
  {
    if modified != [] {
      var n := |modified| - 1;
      assert Parsed(modified)[..n] == Parsed(modified[..n]);
      assert Between(readings[1..], first, last);
      MovingClock(modified[..n], readings[1..], first, last);
      OldLater(modified[n], modified[n], first, readings[0]);
      OldLater(modified[n], modified[n], readings[0], last);
      if Old(modified[n], readings[0]) && Ascending(modified) {
        forall i | 0 <= i < |modified|
          ensures Old(modified[i], last)
        {
          OldLater(modified[n], modified[i], readings[0], last);
        }
        AllOldCount(modified, last);
      }
    }
  }

  // ----- A file is added -----

  function Added(modified: seq<int>, p: nat, file: int): seq<int>
    requires p <= |modified|
  {
    modified[..p] + [file] + modified[p..]
  }

  lemma {:induction false} FullCountAppend(a: seq<int>, b: seq<int>, now: int)
    ensures FullCount(a + b, now) == FullCount(a, now) + FullCount(b, now)
  {
    if b == [] {
      assert a + b == a;
    } else {
      assert (a + b)[..|a + b| - 1] == a + b[..|b| - 1];
      FullCountAppend(a, b[..|b| - 1], now);
    }
  }

  lemma FullCountOne(file: int, now: int)
    ensures FullCount([file], now) == if Old(file, now) then 0 else 1
  {
    assert [file][..0] == [];
  }

  lemma AddedCount(modified: seq<int>, p: nat, file: int, now: int)
    requires p <= |modified|
    ensures FullCount(Added(modified, p, file), now)
         == FullCount(modified, now) + if Old(file, now) then 0 else 1
  {
    hide FullCount, Old;
    FullCountOne(file, now);
    FullCountAppend(modified[..p] + [file], modified[p..], now);
    FullCountAppend(modified[..p], [file], now);
    FullCountAppend(modified[..p], modified[p..], now);
    assert modified == modified[..p] + modified[p..];
  }

  /** One more file lowers the count exactly when it is an old one that lands inside the counted tail. */
  lemma {:induction false} AddedSuffix(modified: seq<int>, p: nat, file: int, now: int)
    requires p <= |modified|
    ensures var n := Suffix(modified, now);
            Suffix(Added(modified, p, file), now)
            == if p + n < |modified| then n
               else if Old(file, now) then |modified| - p
               else n + 1
    decreases |modified| - p
  {
    var more := Added(modified, p, file);
    if p == |modified| {
      assert more[..|more| - 1] == modified;
    } else {
      var last := |modified| - 1;
      assert more[|more| - 1] == modified[last];
      assert more[..|more| - 1] == Added(modified[..last], p, file);
      AddedSuffix(modified[..last], p, file, now);
    }
  }

  // ----- Desired and failed files -----

  /** Go's integer division, which cuts toward zero. */
  function Quotient(a: int, b: int): int
    requires b != 0
  {
    if (a >= 0) == (b >= 0) then Abs(a) / Abs(b) else -(Abs(a) / Abs(b))
  }

  function Abs(n: int): nat {
    if n >= 0 then n else -n
  }

  /** The two gauges, or the division by zero of a policy without an interval. */
  datatype Gauges = Gauges(files: int, failed: int) | DivisionByZero

  /** `StatBackupFiles` after the storage was listed and counted. */
  method StatBackupFiles(actual: int, interval: int, maxBackups: int) returns (gauges: Gauges)
    ensures gauges == DivisionByZero <==> interval == 0
    ensures gauges.Gauges? ==> gauges.files == actual && gauges.failed == Failed(actual, interval, maxBackups)
  {
    if interval == 0 {
      return DivisionByZero;
    }
    var desired := Quotient(ONE_DAY_SECONDS, interval);
    if desired > maxBackups {
      desired := maxBackups;
    }
    var failed := desired - actual;
    if failed < 0 {
      failed := 0;
    }
    return Gauges(actual, failed);
  }

  function Min(a: int, b: int): int {
    if a <= b then a else b
  }

  /** The backups that fit into a day, as far as the policy keeps them. */
  function Desired(interval: int, maxBackups: int): int
    requires interval != 0
  {
    Min(Quotient(ONE_DAY_SECONDS, interval), maxBackups)
  }

  function Failed(actual: int, interval: int, maxBackups: int): (failed: int)
    requires interval != 0
    ensures failed >= 0
    ensures failed == 0 <==> actual >= Desired(interval, maxBackups)
    ensures failed > 0 ==> actual + failed == Desired(interval, maxBackups)
  {
    if actual >= Desired(interval, maxBackups) then 0 else Desired(interval, maxBackups) - actual
  }

  /** With a positive interval, desired is the largest number of backups, up to the maximum, whose intervals fit
      into one day. */
  lemma DesiredFits(interval: int, maxBackups: int, n: int)
    requires interval > 0 && 0 <= n
    ensures n <= Desired(interval, maxBackups) <==> n <= maxBackups && n * interval <= ONE_DAY_SECONDS
  {
    var q := ONE_DAY_SECONDS / interval;
    if n <= q {
      assert n * interval <= q * interval;
    } else {
      assert n * interval >= (q + 1) * interval;
    }
  }

  /** For a listing ascending by time no backup is reported as failed exactly when enough files are recent. */
  lemma NoFailureReported(modified: seq<int>, now: int, interval: int, maxBackups: int)
    requires Ascending(modified) && interval != 0
    ensures Failed(Suffix(modified, now), interval, maxBackups) == 0
            <==> FullCount(modified, now) >= Desired(interval, maxBackups)
  {
    AscendingScan(modified, now);
  }

  /** As long as the listing stays ascending, a file that is added never raises the failures. */
  lemma AddedFileNeverFails(modified: seq<int>, p: nat, file: int, now: int, interval: int, maxBackups: int)
    requires p <= |modified| && interval != 0
    requires Ascending(modified) && Ascending(Added(modified, p, file))
    ensures Failed(Suffix(Added(modified, p, file), now), interval, maxBackups)
         <= Failed(Suffix(modified, now), interval, maxBackups)
  {
    AscendingScan(modified, now);
    AscendingScan(Added(modified, p, file), now);
    AddedCount(modified, p, file, now);
  }
}
