/**
 * What Expand-ZipFile and New-ZipFile share: the progress records they write, the integer
 * percentage arithmetic of their progress handlers, the throttle that lets only every
 * 151st byte event through, the objects they write to the pipeline, and the file system
 * they query and change.
 */
module ZipProgress {
  import opened Common

  /** `eventIntervalCount` of both handlers: byte progress is shown once this many events have passed. */
  const EventIntervalCount: int := 150

  /** ProgressRecord.RecordType. */
  datatype RecordType = Processing | Completed

  /** The fields of a ProgressRecord that the cmdlets set, as WriteProgress receives them. */
  datatype ProgressRecord = ProgressRecord(activityId: int, percentComplete: int, recordType: RecordType)

  /** `new ProgressRecord(0, …)` and `new ProgressRecord(1, …)`: PercentComplete starts at -1. */
  const InitialMain: ProgressRecord := ProgressRecord(0, -1, Processing)
  const InitialSub: ProgressRecord := ProgressRecord(1, -1, Processing)

  /** The completion step: PercentComplete 100 and RecordType Completed, the activity kept. */
  function Complete(p: ProgressRecord): (q: ProgressRecord)
    ensures q.activityId == p.activityId && q.percentComplete == 100 && q.recordType == Completed
  {
    p.(percentComplete := 100, recordType := Completed)
  }

  /** The records written after the archive is processed: the sub record, then the main one. */
  function Completion(sub: ProgressRecord, main: ProgressRecord): seq<ProgressRecord>
  {
    [Complete(sub), Complete(main)]
  }

  /** The final records of an archive: the entry activity, then the archive activity, completed. */
  const CompletedRecords: seq<ProgressRecord> := [ProgressRecord(1, 100, Completed), ProgressRecord(0, 100, Completed)]

  /** FileInfo and DirectoryInfo objects written to the pipeline. */
  datatype FsObject = FileInfo(path: string) | DirectoryInfo(path: string)

  /** The exceptions a progress handler can throw. */
  datatype HandlerError =
    /** DivideByZeroException: integer division by zero. */
    | DivideByZero
    /** ArgumentOutOfRangeException: the PercentComplete setter refuses a value above 100. */
    | PercentAboveHundred

  /**
   * Assigning ProgressRecord.PercentComplete a computed value: a failed computation is passed
   * on, a value above 100 makes the setter throw (a negative value is accepted), and any other
   * value is stored, the rest of the record kept.
   */
  function SetPercent(record: ProgressRecord, percent: Result<int, HandlerError>): (r: Result<ProgressRecord, HandlerError>)
    ensures r.Ok? <==> percent.Ok? && percent.value <= 100
    ensures r.Ok? ==> r.value == record.(percentComplete := percent.value)
    ensures percent.Err? ==> r == Err(percent.error)
    ensures r.Err? && percent.Ok? ==> r == Err(PercentAboveHundred)
  {
    if percent.Err? then Err(percent.error)
    else if percent.value > 100 then Err(PercentAboveHundred)
    else Ok(record.(percentComplete := percent.value))
  }

  // ----------------------------------------------------------------------------------------------
  // Integer arithmetic as C# does it
  // ----------------------------------------------------------------------------------------------

  function Abs(a: int): nat
  {
    if a < 0 then -a else a
  }

  /** C# integer division, which truncates toward zero (Dafny's `/` is Euclidean). */
  function Quot(a: int, b: int): int
    requires b != 0
  {
    if (a < 0) == (b < 0) then Abs(a) / Abs(b) else -(Abs(a) / Abs(b))
  }

  /** Division that throws DivideByZeroException on a zero divisor. */
  function CheckedQuot(a: int, b: int): (r: Result<int, HandlerError>)
    ensures r.Err? <==> b == 0
    ensures b != 0 ==> r == Ok(Quot(a, b))
  {
    if b == 0 then Err(DivideByZero) else Ok(Quot(a, b))
  }

  /** For a non-negative dividend and a positive divisor, truncation and Euclidean division agree. */
  lemma QuotOfNatural(a: int, b: int)
    requires a >= 0 && b > 0
    ensures Quot(a, b) == a / b
  {
  }

  // ----------------------------------------------------------------------------------------------
  // Percentages
  // ----------------------------------------------------------------------------------------------

  /** `100 * (entryCount - 1) / zip.Count`: the main percentage when entry `entryCount` starts. */
  function EntryPercent(entryCount: int, count: int): Result<int, HandlerError>
  {
    CheckedQuot(100 * (entryCount - 1), count)
  }

  /** `(int)(100 * BytesTransferred / TotalBytesToTransfer)`: the share of the current entry done. */
  function BytesPercent(bytesTransferred: int, totalBytesToTransfer: int): Result<int, HandlerError>
  {
    CheckedQuot(100 * bytesTransferred, totalBytesToTransfer)
  }

  /** `((100 * (entryCount - 1)) + bytes percent) / zip.Count`: the main percentage during an entry. */
  function OverallPercent(entryCount: int, bytesTransferred: int, totalBytesToTransfer: int, count: int)
    : Result<int, HandlerError>
  {
    var bytes := BytesPercent(bytesTransferred, totalBytesToTransfer);
    if bytes.Err? then Err(bytes.error) else CheckedQuot(100 * (entryCount - 1) + bytes.value, count)
  }

  /**
   * When entry `entryCount` of `count` starts, the main percentage lies in [0, 100): each
   * finished entry counts 100 / count.
   */
  lemma EntryPercentBounds(entryCount: int, count: int)
    requires 1 <= entryCount <= count
    ensures EntryPercent(entryCount, count).Ok?
    ensures 0 <= EntryPercent(entryCount, count).value < 100
  {
    QuotBelow(100 * (entryCount - 1), count, 100);
  }

  /**
   * While entry `entryCount` of `count` is written, with no more bytes transferred than
   * there are to transfer, the sub percentage lies in [0, 100] and the main percentage
   * lies between the one shown when the entry started and the one of the next entry.
   */
  lemma OverallPercentBounds(entryCount: int, bytesTransferred: int, totalBytesToTransfer: int, count: int)
    requires 1 <= entryCount <= count
    requires 0 <= bytesTransferred <= totalBytesToTransfer && totalBytesToTransfer > 0
    ensures BytesPercent(bytesTransferred, totalBytesToTransfer).Ok?
    ensures 0 <= BytesPercent(bytesTransferred, totalBytesToTransfer).value <= 100
    ensures OverallPercent(entryCount, bytesTransferred, totalBytesToTransfer, count).Ok?
    ensures EntryPercent(entryCount, count).Ok?
    ensures EntryPercent(entryCount, count).value
      <= OverallPercent(entryCount, bytesTransferred, totalBytesToTransfer, count).value
      <= Quot(100 * entryCount, count)
    ensures OverallPercent(entryCount, bytesTransferred, totalBytesToTransfer, count).value <= 100
  {
    BytesPercentBounds(bytesTransferred, totalBytesToTransfer);
    MainPercentBounds(entryCount, BytesPercent(bytesTransferred, totalBytesToTransfer).value, count);
  }

  lemma BytesPercentBounds(bytesTransferred: int, totalBytesToTransfer: int)
    requires 0 <= bytesTransferred <= totalBytesToTransfer && totalBytesToTransfer > 0
    ensures BytesPercent(bytesTransferred, totalBytesToTransfer).Ok?
    ensures 0 <= BytesPercent(bytesTransferred, totalBytesToTransfer).value <= 100
  {
    var t := totalBytesToTransfer;
    DivMonotone(100 * bytesTransferred, 100 * t, t);
    assert (100 * t) / t == 100;
  }

  lemma MainPercentBounds(entryCount: int, bytes: int, count: int)
    requires 1 <= entryCount <= count && 0 <= bytes <= 100
    ensures 0 <= Quot(100 * (entryCount - 1), count) <= Quot(100 * (entryCount - 1) + bytes, count)
    ensures Quot(100 * (entryCount - 1) + bytes, count) <= Quot(100 * entryCount, count) <= 100
  {
    var e := 100 * (entryCount - 1);
    var f := 100 * entryCount;
    assert e + bytes <= f <= 100 * count;
    QuotMonotone(0, e, count);
    QuotMonotone(e, e + bytes, count);
    QuotMonotone(e + bytes, f, count);
    QuotAtMost(f, count, 100);
  }

  /** Truncating division of non-negative numbers keeps their order. */
  lemma QuotMonotone(a: int, c: int, b: int)
    requires 0 <= a <= c && b > 0
    ensures 0 <= Quot(a, b) <= Quot(c, b)
  {
    QuotOfNatural(a, b);
    QuotOfNatural(c, b);
    DivMonotone(a, c, b);
  }

  lemma QuotAtMost(a: int, b: int, k: int)
    requires 0 <= a <= k * b && b > 0
    ensures Quot(a, b) <= k
  {
    QuotOfNatural(a, b);
    if a / b > k {
      MulMonotone(b, k + 1, a / b);
      assert false;
    }
  }

  lemma QuotBelow(a: int, b: int, k: int)
    requires 0 <= a < k * b && b > 0
    ensures 0 <= Quot(a, b) < k
  {
    QuotOfNatural(a, b);
    DivMonotone(0, a, b);
    if a / b >= k {
      MulMonotone(b, k, a / b);
      assert false;
    }
  }

  lemma DivMonotone(a: int, c: int, b: int)
    requires 0 <= a <= c && b > 0
    ensures 0 <= a / b <= c / b
  {
    if a / b > c / b {
      MulMonotone(b, c / b + 1, a / b);
      assert false;
    }
  }

  lemma {:induction false} MulMonotone(b: int, x: int, y: int)
    requires b > 0 && x <= y
    ensures b * x <= b * y
    decreases y - x
  {
    if x < y {
      MulMonotone(b, x + 1, y);
      assert b * (x + 1) == b * x + b;
    }
  }

  // ----------------------------------------------------------------------------------------------
  // The throttle of byte events
  // ----------------------------------------------------------------------------------------------

  /** `++eventCount > eventIntervalCount`: whether a byte event shows progress. */
  predicate Fires(eventCount: int)
  {
    eventCount + 1 > EventIntervalCount
  }

  /** The counter after one byte event: reset to 0 when it fired, one more otherwise. */
  function Tick(eventCount: int): int
  {
    if Fires(eventCount) then 0 else eventCount + 1
  }

  /** The counter after `n` byte events. */
  function Ticks(eventCount: int, n: nat): int
  {
    if n == 0 then eventCount else Tick(Ticks(eventCount, n - 1))
  }

  /** How many of `n` byte events show progress. */
  function Firings(eventCount: int, n: nat): nat
  {
    if n == 0 then 0 else Firings(eventCount, n - 1) + (if Fires(Ticks(eventCount, n - 1)) then 1 else 0)
  }

  /**
   * The throttle in closed form: starting from a counter in 0..150, after `n` byte events
   * the counter is (c + n) mod 151 and (c + n) div 151 of them showed progress; that is,
   * exactly every 151st event fires, and the count carries over from entry to entry.
   */
  lemma {:induction false} ThrottleClosedForm(c: int, n: nat)
    requires 0 <= c <= EventIntervalCount
    ensures Ticks(c, n) == (c + n) % (EventIntervalCount + 1)
    ensures Firings(c, n) == (c + n) / (EventIntervalCount + 1)
  {
    if n > 0 {
      ThrottleClosedForm(c, n - 1);
      var m := c + n - 1;
      assert (m + 1) % 151 == (if m % 151 == 150 then 0 else m % 151 + 1);
      assert (m + 1) / 151 == m / 151 + (if m % 151 == 150 then 1 else 0);
    }
  }

  /** The counter never leaves 0..150. */
  lemma TickBounds(eventCount: int)
    requires 0 <= eventCount <= EventIntervalCount
    ensures 0 <= Tick(eventCount) <= EventIntervalCount
    ensures Fires(eventCount) <==> eventCount == EventIntervalCount
  {
  }

  // ----------------------------------------------------------------------------------------------
  // The file system
  // ----------------------------------------------------------------------------------------------

  /** What ZipFile.AddFile and ZipFile.AddDirectory put into an archive, by source path. */
  datatype ArchivedItem = ArchivedFile(path: string) | ArchivedDirectory(path: string)

  /**
   * The existing files and directories, as File.Exists and Directory.Exists see them, and
   * the items stored in the archive files written.
   */
  class FileSystem {
    var files: set<string>
    var directories: set<string>
    var archives: map<string, seq<ArchivedItem>>

    constructor(files: set<string>, directories: set<string>, archives: map<string, seq<ArchivedItem>>)
      ensures this.files == files && this.directories == directories && this.archives == archives
    {
      this.files := files;
      this.directories := directories;
      this.archives := archives;
    }

    /** The items of the archive at `path` as `new ZipFile(path)` reads them: none when there is no such file. */
    function ArchiveAt(path: string): seq<ArchivedItem>
      reads this
    {
      if path in files && path in archives then archives[path] else []
    }

    /**
     * Directory.CreateDirectory: an existing directory is kept, a file of that name makes it
     * throw IOException; otherwise the directory now exists.
     */
    method CreateDirectory(path: string) returns (ok: bool)
      modifies this`directories
      ensures ok <==> path !in files
      ensures directories == if ok then old(directories) + {path} else old(directories)
    {
      ok := path !in files;
      if ok {
        directories := directories + {path};
      }
    }

    /** File.Delete. */
    method DeleteFile(path: string)
      modifies this`files, this`archives
      ensures files == old(files) - {path} && archives == old(archives) - {path}
      ensures ArchiveAt(path) == []
    {
      files := files - {path};
      archives := archives - {path};
    }

    /** ZipFile.Save: the archive file now exists and holds `items`. */
    method SaveArchive(path: string, items: seq<ArchivedItem>)
      modifies this`files, this`archives
      ensures files == old(files) + {path} && archives == old(archives)[path := items]
      ensures ArchiveAt(path) == items
    {
      files := files + {path};
      archives := archives[path := items];
    }
  }
}
