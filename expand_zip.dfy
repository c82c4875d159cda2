/**
 * Expand-ZipFile (ExpandZipFileCmmmand.cs): the checks on the source and the destination,
 * and the ExtractProgress handler that DotNetZip calls for every extraction event. The
 * handler counts entries and byte events to write progress, and writes to the pipeline
 * either every extracted entry (PassThru) or each root entry once.
 *
 * The archive is an oracle: its entry count and the events its extraction raises.
 */
module ExpandZip {
  import opened Common
  import opened Paths
  import opened ZipProgress

  /** ZipEntry.FileName (with '/' separators, section 4.4.17 of the ZIP APPNOTE) and ZipEntry.IsDirectory. */
  datatype ZipEntry = ZipEntry(fileName: string, isDirectory: bool)

  /** The ExtractProgressEventArgs the handler looks at, by EventType. */
  datatype ExtractEvent =
    | BeforeExtractEntry(entry: ZipEntry)
    | EntryBytesWritten(entry: ZipEntry, bytesTransferred: int, totalBytesToTransfer: int)
    | AfterExtractEntry(entry: ZipEntry, extractLocation: string)
    | OtherExtractEvent

  /** What ZipFile.Read yields that the cmdlet uses: `zip.Count`, and the events extraction raises. */
  datatype Archive = Archive(count: int, events: seq<ExtractEvent>)

  /** The separator of the segments of an entry name. */
  const EntrySeparator: char := '/'

  /** The root of an entry: its name up to the first '/'. */
  function Root(entry: ZipEntry): string
  {
    Split(entry.fileName, EntrySeparator)[0]
  }

  /** The root is shown as a directory when the entry is one or lies below its root. */
  predicate RootIsDirectory(entry: ZipEntry)
  {
    entry.isDirectory || |Split(entry.fileName, EntrySeparator)| > 1
  }

  /** The object written for a new root entry: `dest_dirpath` combined with the root. */
  function RootObject(entry: ZipEntry, destDirPath: string): FsObject
  {
    var path := Combine(destDirPath, Root(entry));
    if RootIsDirectory(entry) then DirectoryInfo(path) else FileInfo(path)
  }

  /** The object written under PassThru: the entry's own path under the extract location. */
  function PassThruObject(entry: ZipEntry, extractLocation: string): FsObject
  {
    var path := Combine(extractLocation, Replace(entry.fileName, EntrySeparator, DirectorySeparator));
    if entry.isDirectory then DirectoryInfo(path) else FileInfo(path)
  }

  /** The handler is registered only when it has something to do. */
  predicate HandlerRegistered(suppressProgress: bool, suppressOutput: bool, passThru: bool)
  {
    !suppressProgress || !suppressOutput || passThru
  }

  // ----------------------------------------------------------------------------------------------
  // What one event, and a sequence of events, amounts to
  // ----------------------------------------------------------------------------------------------

  /** An AfterExtractEntry event whose root is not recorded yet. */
  predicate NewRoot(roots: seq<string>, e: ExtractEvent)
  {
    e.AfterExtractEntry? && Root(e.entry) !in roots
  }

  /** What the output part of the handler writes for one event: PassThru wins over SuppressOutput. */
  function EventOutput(passThru: bool, suppressOutput: bool, roots: seq<string>, e: ExtractEvent,
                       destDirPath: string): seq<FsObject>
  {
    if passThru then (if e.AfterExtractEntry? then [PassThruObject(e.entry, e.extractLocation)] else [])
    else if suppressOutput || !NewRoot(roots, e) then []
    else [RootObject(e.entry, destDirPath)]
  }

  /** `outputEntryRoots` after one event: only the root-entry output records roots. */
  function EventRoots(passThru: bool, suppressOutput: bool, roots: seq<string>, e: ExtractEvent): seq<string>
  {
    if passThru || suppressOutput || !NewRoot(roots, e) then roots else roots + [Root(e.entry)]
  }

  /** How many records the progress part writes for one event, given the event counter before it. */
  function EventProgress(verbose: bool, eventCount: int, e: ExtractEvent): nat
  {
    if e.BeforeExtractEntry? then 1
    else if e.EntryBytesWritten? && Fires(eventCount) then (if verbose then 2 else 1)
    else 0
  }

  /**
   * An event the handler takes without throwing, given the entries started before it: an
   * entry start while fewer than `count` entries have started, or bytes of one of the `count`
   * entries with no more transferred than there are to transfer, out of a non-zero total.
   */
  predicate EventWellFormed(entryCount: int, count: int, e: ExtractEvent)
  {
    match e
    case BeforeExtractEntry(_) => 0 <= entryCount < count
    case EntryBytesWritten(_, bytesTransferred, totalBytesToTransfer) =>
      1 <= entryCount <= count && 0 <= bytesTransferred <= totalBytesToTransfer && totalBytesToTransfer > 0
    case _ => true
  }

  /** The number of BeforeExtractEntry events. */
  function Befores(events: seq<ExtractEvent>): nat
  {
    if |events| == 0 then 0
    else Befores(events[..|events| - 1]) + (if events[|events| - 1].BeforeExtractEntry? then 1 else 0)
  }

  /** The number of EntryBytesWritten events. */
  function ByteEvents(events: seq<ExtractEvent>): nat
  {
    if |events| == 0 then 0
    else ByteEvents(events[..|events| - 1]) + (if events[|events| - 1].EntryBytesWritten? then 1 else 0)
  }

  /** Every event well formed, from `entryCount` entries started, counting those started before it. */
  predicate WellFormed(entryCount: int, count: int, events: seq<ExtractEvent>)
  {
    forall i :: 0 <= i < |events| ==> EventWellFormed(entryCount + Befores(events[..i]), count, events[i])
  }

  /** The recorded roots after the events, starting from `roots`. */
  function EventsRoots(passThru: bool, suppressOutput: bool, roots: seq<string>, events: seq<ExtractEvent>)
    : seq<string>
  {
    if |events| == 0 then roots
    else EventRoots(passThru, suppressOutput, EventsRoots(passThru, suppressOutput, roots, events[..|events| - 1]),
                    events[|events| - 1])
  }

  /** The pipeline output of the events, starting from the recorded `roots`. */
  function EventsOutput(passThru: bool, suppressOutput: bool, roots: seq<string>, events: seq<ExtractEvent>,
                        destDirPath: string): seq<FsObject>
  {
    if |events| == 0 then []
    else
      var n := |events| - 1;
      EventsOutput(passThru, suppressOutput, roots, events[..n], destDirPath)
      + EventOutput(passThru, suppressOutput, EventsRoots(passThru, suppressOutput, roots, events[..n]), events[n],
                    destDirPath)
  }

  /** The number of progress records the events write, starting from the event counter `eventCount`. */
  function EventsProgress(verbose: bool, eventCount: int, events: seq<ExtractEvent>): nat
  {
    if |events| == 0 then 0
    else
      var n := |events| - 1;
      EventsProgress(verbose, eventCount, events[..n])
      + EventProgress(verbose, Ticks(eventCount, ByteEvents(events[..n])), events[n])
  }

  // ----------------------------------------------------------------------------------------------
  // Properties of the progress and of the output
  // ----------------------------------------------------------------------------------------------

  /**
   * The progress written: one main record per entry started and, for each byte event the
   * throttle lets through, the main record and (with Verbose) the sub record.
   */
  lemma {:induction false} EventsProgressCount(verbose: bool, eventCount: int, events: seq<ExtractEvent>)
    ensures EventsProgress(verbose, eventCount, events)
      == Befores(events) + (if verbose then 2 else 1) * Firings(eventCount, ByteEvents(events))
  {
    if |events| > 0 {
      var n := |events| - 1;
      EventsProgressCount(verbose, eventCount, events[..n]);
    }
  }

  /** The same count in closed form: from a counter in 0..150, one byte record set per 151 byte events. */
  lemma EventsProgressClosedForm(verbose: bool, eventCount: int, events: seq<ExtractEvent>)
    requires 0 <= eventCount <= EventIntervalCount
    ensures EventsProgress(verbose, eventCount, events)
      == Befores(events) + (if verbose then 2 else 1) * ((eventCount + ByteEvents(events)) / (EventIntervalCount + 1))
  {
    EventsProgressCount(verbose, eventCount, events);
    ThrottleClosedForm(eventCount, ByteEvents(events));
  }

  /** With PassThru or SuppressOutput no root is recorded; with SuppressOutput alone nothing is written. */
  lemma {:induction false} QuietModes(passThru: bool, suppressOutput: bool, roots: seq<string>,
                                      events: seq<ExtractEvent>, destDirPath: string)
    requires passThru || suppressOutput
    ensures EventsRoots(passThru, suppressOutput, roots, events) == roots
    ensures !passThru ==> EventsOutput(passThru, suppressOutput, roots, events, destDirPath) == []
  {
    if |events| > 0 {
      QuietModes(passThru, suppressOutput, roots, events[..|events| - 1], destDirPath);
    }
  }

  /** Under PassThru every AfterExtractEntry event yields exactly one object. */
  lemma {:induction false} PassThruOutputCount(roots: seq<string>, events: seq<ExtractEvent>, destDirPath: string,
                                               suppressOutput: bool)
    ensures |EventsOutput(true, suppressOutput, roots, events, destDirPath)|
      == |set i | 0 <= i < |events| && events[i].AfterExtractEntry?|
  {
    if |events| > 0 {
      var n := |events| - 1;
      PassThruOutputCount(roots, events[..n], destDirPath, suppressOutput);
      var before := set i | 0 <= i < n && events[..n][i].AfterExtractEntry?;
      var now := set i | 0 <= i < |events| && events[i].AfterExtractEntry?;
      assert before == set i | 0 <= i < n && events[i].AfterExtractEntry?;
      if events[n].AfterExtractEntry? {
        assert now == before + {n};
      } else {
        assert now == before;
      }
    }
  }

  /** Roots are recorded without duplicates, and those recorded before stay, in order. */
  lemma {:induction false} RootsGrow(passThru: bool, suppressOutput: bool, roots: seq<string>,
                                     events: seq<ExtractEvent>)
    requires NoDuplicates(roots)
    ensures var after := EventsRoots(passThru, suppressOutput, roots, events);
      NoDuplicates(after) && |roots| <= |after| && after[..|roots|] == roots
  {
    if |events| > 0 {
      var prefix := events[..|events| - 1];
      RootsGrow(passThru, suppressOutput, roots, prefix);
      var before := EventsRoots(passThru, suppressOutput, roots, prefix);
      var e := events[|events| - 1];
      if !(passThru || suppressOutput || !NewRoot(before, e)) {
        var after := before + [Root(e.entry)];
        assert after[..|roots|] == before[..|roots|];
        assert forall i :: 0 <= i < |before| ==> after[i] == before[i];
      }
    }
  }

  /**
   * In the root-entry mode the recorded roots are exactly the starting ones plus the roots
   * of the extracted entries: every extracted entry's root is recorded, and nothing else is.
   */
  lemma {:induction false} RootsRecorded(roots: seq<string>, events: seq<ExtractEvent>, r: string)
    ensures r in EventsRoots(false, false, roots, events) <==>
      || r in roots
      || exists i :: 0 <= i < |events| && events[i].AfterExtractEntry? && Root(events[i].entry) == r
  {
    if |events| > 0 {
      var n := |events| - 1;
      var prefix := events[..n];
      RootsRecorded(roots, prefix, r);
      if exists i :: 0 <= i < n && prefix[i].AfterExtractEntry? && Root(prefix[i].entry) == r {
        var i :| 0 <= i < n && prefix[i].AfterExtractEntry? && Root(prefix[i].entry) == r;
        assert events[i] == prefix[i];
      }
      if exists i :: 0 <= i < |events| && events[i].AfterExtractEntry? && Root(events[i].entry) == r {
        var i :| 0 <= i < |events| && events[i].AfterExtractEntry? && Root(events[i].entry) == r;
        if i < n {
          assert prefix[i] == events[i];
        }
      }
    }
  }

  /**
   * In the root-entry mode each new root is written once: the objects written are, one for
   * one, the roots recorded after the starting ones, each combined with the destination.
   */
  lemma {:induction false} RootOutputMatchesRoots(roots: seq<string>, events: seq<ExtractEvent>, destDirPath: string)
    ensures var after := EventsRoots(false, false, roots, events);
      var out := EventsOutput(false, false, roots, events, destDirPath);
      && |after| == |roots| + |out|
      && forall i :: 0 <= i < |out| ==> out[i].path == Combine(destDirPath, after[|roots| + i])
  {
    if |events| > 0 {
      var n := |events| - 1;
      RootOutputMatchesRoots(roots, events[..n], destDirPath);
    }
  }

  // ----------------------------------------------------------------------------------------------
  // The handler
  // ----------------------------------------------------------------------------------------------

  /**
   * The ExtractProgress handler with the variables it captures: the two progress records,
   * the counters and the list of root entries already written; `progress` and `output` are
   * what it passes to WriteProgress and WriteObject.
   */
  class ExtractProgressHandler {
    const suppressProgress: bool
    const suppressOutput: bool
    const passThru: bool
    /** `BoundParameters.ContainsKey("Verbose")`. */
    const verbose: bool
    /** `zip.Count`. */
    const zipCount: int
    const destDirPath: string

    var entryCount: int
    var eventCount: int
    var outputEntryRoots: seq<string>
    var mainProgress: ProgressRecord
    var subProgress: ProgressRecord
    var progress: seq<ProgressRecord>
    var output: seq<FsObject>

    /**
     * The counters stay in range, no root is recorded twice, and the two records keep their
     * activities (0 for the archive, 1 for the entry), stay in processing and never hold a
     * percentage above 100.
     */
    ghost predicate Valid()
      reads this
    {
      && mainProgress.activityId == 0 && mainProgress.recordType == Processing
      && subProgress.activityId == 1 && subProgress.recordType == Processing
      && mainProgress.percentComplete <= 100 && subProgress.percentComplete <= 100
      && 0 <= entryCount
      && 0 <= eventCount <= EventIntervalCount
      && NoDuplicates(outputEntryRoots)
    }

    constructor(suppressProgress: bool, suppressOutput: bool, passThru: bool, verbose: bool,
                zipCount: int, destDirPath: string)
      ensures Valid()
      ensures this.suppressProgress == suppressProgress && this.suppressOutput == suppressOutput
      ensures this.passThru == passThru && this.verbose == verbose
      ensures this.zipCount == zipCount && this.destDirPath == destDirPath
      ensures entryCount == 0 && eventCount == 0 && outputEntryRoots == []
      ensures mainProgress == InitialMain && subProgress == InitialSub
      ensures progress == [] && output == []
    {
      this.suppressProgress := suppressProgress;
      this.suppressOutput := suppressOutput;
      this.passThru := passThru;
      this.verbose := verbose;
      this.zipCount := zipCount;
      this.destDirPath := destDirPath;
      entryCount, eventCount, outputEntryRoots := 0, 0, [];
      mainProgress, subProgress := InitialMain, InitialSub;
      progress, output := [], [];
    }

    /**
     * Extracting_BeforeExtractEntry: count the entry and write the main percentage. While no
     * more entries start than the archive holds, the percentage lies in [0, 100).
     */
    method OnBeforeExtractEntry() returns (error: Option<HandlerError>)
      modifies this`entryCount, this`mainProgress, this`progress
      ensures entryCount == old(entryCount) + 1
      ensures var m := SetPercent(old(mainProgress), EntryPercent(entryCount, zipCount));
        && (m.Err? ==> error == Some(m.error) && mainProgress == old(mainProgress) && progress == old(progress))
        && (m.Ok? ==> error.None? && mainProgress == m.value && progress == old(progress) + [mainProgress])
      ensures 1 <= entryCount <= zipCount ==> error.None? && 0 <= mainProgress.percentComplete < 100
      ensures error == Some(DivideByZero) ==> zipCount == 0
    {
      entryCount := entryCount + 1;
      if 1 <= entryCount <= zipCount {
        EntryPercentBounds(entryCount, zipCount);
      }
      var m := SetPercent(mainProgress, EntryPercent(entryCount, zipCount));
      if m.Err? {
        return Some(m.error);
      }
      mainProgress := m.value;
      progress := progress + [mainProgress];
      error := None;
    }

    /**
     * Extracting_EntryBytesWritten: count the event; on the 151st, write the main percentage
     * (and, with Verbose, the entry's own percentage) and reset the count. No divisor is
     * checked: TotalBytesToTransfer 0 or zip.Count 0 throws, and so does a percentage above
     * 100; the sub record's exception comes after the main record is written.
     */
    method OnEntryBytesWritten(bytesTransferred: int, totalBytesToTransfer: int) returns (error: Option<HandlerError>)
      modifies this`eventCount, this`mainProgress, this`subProgress, this`progress
      ensures !Fires(old(eventCount)) ==>
        && error.None? && eventCount == old(eventCount) + 1
        && mainProgress == old(mainProgress) && subProgress == old(subProgress) && progress == old(progress)
      ensures Fires(old(eventCount)) ==>
        var m := SetPercent(old(mainProgress), OverallPercent(entryCount, bytesTransferred, totalBytesToTransfer, zipCount));
        var s := SetPercent(old(subProgress), BytesPercent(bytesTransferred, totalBytesToTransfer));
        && (m.Err? ==>
              && error == Some(m.error) && eventCount == old(eventCount) + 1
              && mainProgress == old(mainProgress) && subProgress == old(subProgress) && progress == old(progress))
        && (m.Ok? && verbose && s.Err? ==>
              && error == Some(s.error) && eventCount == old(eventCount) + 1
              && mainProgress == m.value && subProgress == old(subProgress) && progress == old(progress) + [mainProgress])
        && (m.Ok? && (!verbose || s.Ok?) ==>
              && error.None? && eventCount == 0
              && mainProgress == m.value
              && subProgress == (if verbose then s.value else old(subProgress))
              && progress == old(progress) + [mainProgress] + (if verbose then [subProgress] else []))
      ensures 1 <= entryCount <= zipCount && 0 <= bytesTransferred <= totalBytesToTransfer && totalBytesToTransfer > 0
        ==> error.None?
      ensures error == Some(DivideByZero) ==> zipCount == 0 || totalBytesToTransfer == 0
    {
      error := None;
      eventCount := eventCount + 1;
      if eventCount > EventIntervalCount {
        if 1 <= entryCount <= zipCount && 0 <= bytesTransferred <= totalBytesToTransfer && totalBytesToTransfer > 0 {
          OverallPercentBounds(entryCount, bytesTransferred, totalBytesToTransfer, zipCount);
        }
        var m := SetPercent(mainProgress, OverallPercent(entryCount, bytesTransferred, totalBytesToTransfer, zipCount));
        if m.Err? {
          return Some(m.error);
        }
        mainProgress := m.value;
        progress := progress + [mainProgress];
        if verbose {
          var s := SetPercent(subProgress, BytesPercent(bytesTransferred, totalBytesToTransfer));
          if s.Err? {
            return Some(s.error);
          }
          subProgress := s.value;
          progress := progress + [subProgress];
        }
        eventCount := 0;
      }
    }

    /**
     * Extracting_AfterExtractEntry: under PassThru write the entry itself; otherwise, unless
     * SuppressOutput, write its root the first time that root is seen.
     */
    method OnAfterExtractEntry(entry: ZipEntry, extractLocation: string)
      modifies this`outputEntryRoots, this`output
      ensures var e := AfterExtractEntry(entry, extractLocation);
        && output == old(output) + EventOutput(passThru, suppressOutput, old(outputEntryRoots), e, destDirPath)
        && outputEntryRoots == EventRoots(passThru, suppressOutput, old(outputEntryRoots), e)
    {
      if passThru {
        var filename := Replace(entry.fileName, EntrySeparator, DirectorySeparator);
        if entry.isDirectory {
          output := output + [DirectoryInfo(Combine(extractLocation, filename))];
        } else {
          output := output + [FileInfo(Combine(extractLocation, filename))];
        }
      } else if !suppressOutput {
        var separated := Split(entry.fileName, EntrySeparator);
        var root := separated[0];
        if root !in outputEntryRoots {
          outputEntryRoots := outputEntryRoots + [root];
          if entry.isDirectory || |separated| > 1 {
            output := output + [DirectoryInfo(Combine(destDirPath, root))];
          } else {
            output := output + [FileInfo(Combine(destDirPath, root))];
          }
        }
      }
    }

    /**
     * The handler body: the progress part unless SuppressProgress, then the output part. An
     * exception in the progress part ends the handler (and the extraction).
     */
    method OnExtractProgress(e: ExtractEvent) returns (error: Option<HandlerError>)
      requires Valid()
      modifies this`entryCount, this`eventCount, this`mainProgress, this`subProgress, this`progress
      modifies this`outputEntryRoots, this`output
      ensures error.Some? ==> !suppressProgress && (e.BeforeExtractEntry? || e.EntryBytesWritten?)
      ensures EventWellFormed(old(entryCount), zipCount, e) ==> error.None?
      ensures error == Some(DivideByZero) ==> zipCount == 0 || (e.EntryBytesWritten? && e.totalBytesToTransfer == 0)
      ensures error.None? ==>
        && Valid()
        && entryCount == old(entryCount) + (if !suppressProgress && e.BeforeExtractEntry? then 1 else 0)
        && eventCount == (if !suppressProgress && e.EntryBytesWritten? then Tick(old(eventCount)) else old(eventCount))
        && |progress| == |old(progress)| + (if suppressProgress then 0 else EventProgress(verbose, old(eventCount), e))
        && old(progress) <= progress
        && output == old(output) + EventOutput(passThru, suppressOutput, old(outputEntryRoots), e, destDirPath)
        && outputEntryRoots == EventRoots(passThru, suppressOutput, old(outputEntryRoots), e)
    {
      error := None;
      if !suppressProgress {
        match e {
          case BeforeExtractEntry(_) =>
            error := OnBeforeExtractEntry();
          case EntryBytesWritten(_, bytesTransferred, totalBytesToTransfer) =>
            error := OnEntryBytesWritten(bytesTransferred, totalBytesToTransfer);
          case _ =>
        }
        if error.Some? {
          return;
        }
      }
      if e.AfterExtractEntry? {
        OnAfterExtractEntry(e.entry, e.extractLocation);
      }
    }

    /** The state after the events `events`, from the one the handler had before them. */
    ghost predicate Handled(events: seq<ExtractEvent>, entryCount0: int, eventCount0: int, roots0: seq<string>,
                            progress0: seq<ProgressRecord>, output0: seq<FsObject>)
      reads this
    {
      && Valid()
      && entryCount == entryCount0 + (if suppressProgress then 0 else Befores(events))
      && eventCount == (if suppressProgress then eventCount0 else Ticks(eventCount0, ByteEvents(events)))
      && |progress| == |progress0| + (if suppressProgress then 0 else EventsProgress(verbose, eventCount0, events))
      && progress0 <= progress
      && output == output0 + EventsOutput(passThru, suppressOutput, roots0, events, destDirPath)
      && outputEntryRoots == EventsRoots(passThru, suppressOutput, roots0, events)
    }

    /** One more event handled. */
    method HandleNext(events: seq<ExtractEvent>, i: nat, ghost entryCount0: int, ghost eventCount0: int,
                      ghost roots0: seq<string>, ghost progress0: seq<ProgressRecord>, ghost output0: seq<FsObject>)
      returns (error: Option<HandlerError>)
      requires i < |events|
      requires Handled(events[..i], entryCount0, eventCount0, roots0, progress0, output0)
      modifies this`entryCount, this`eventCount, this`mainProgress, this`subProgress, this`progress
      modifies this`outputEntryRoots, this`output
      ensures error.Some? ==> !suppressProgress && !EventWellFormed(entryCount0 + Befores(events[..i]), zipCount, events[i])
      ensures error == Some(DivideByZero) ==>
        zipCount == 0 || (events[i].EntryBytesWritten? && events[i].totalBytesToTransfer == 0)
      ensures error.None? ==> Handled(events[..i + 1], entryCount0, eventCount0, roots0, progress0, output0)
    {
      error := OnExtractProgress(events[i]);
      assert events[..i + 1][..i] == events[..i];
      assert events[..i + 1][i] == events[i];
    }

    /**
     * Extraction of the whole archive: the handler sees every event in turn, and the first
     * exception stops the extraction. The progress records written before stay in place.
     */
    method Extract(events: seq<ExtractEvent>) returns (error: Option<HandlerError>)
      requires Valid()
      modifies this`entryCount, this`eventCount, this`mainProgress, this`subProgress, this`progress
      modifies this`outputEntryRoots, this`output
      ensures error.Some? ==> !suppressProgress && !WellFormed(old(entryCount), zipCount, events)
      ensures error == Some(DivideByZero) ==>
        || zipCount == 0
        || exists i :: 0 <= i < |events| && events[i].EntryBytesWritten? && events[i].totalBytesToTransfer == 0
      ensures error.None? ==>
        Handled(events, old(entryCount), old(eventCount), old(outputEntryRoots), old(progress), old(output))
    {
      ghost var entryCount0, eventCount0, roots0, progress0, output0 := entryCount, eventCount, outputEntryRoots,
                                                                       progress, output;
      assert events[..0] == [];
      error := None;
      for i := 0 to |events|
        invariant error.None?
        invariant Handled(events[..i], entryCount0, eventCount0, roots0, progress0, output0)
      {
        error := HandleNext(events, i, entryCount0, eventCount0, roots0, progress0, output0);
        if error.Some? {
          return;
        }
      }
      assert events[..|events|] == events;
    }
  }

  // ----------------------------------------------------------------------------------------------
  // The cmdlet
  // ----------------------------------------------------------------------------------------------

  /** The exceptions ProcessRecord throws. */
  datatype ExpandError =
    | FileNotFound(path: string)
    | DirectoryNotFound(path: string)
    | IOError(path: string)
    | Handler(error: HandlerError)

  /**
   * `dest_dirpath`: DestinationPath relative to the session, or else a directory named after
   * the archive, in the session's current location (FullName is taken to be the path).
   */
  function DestinationDirectory(destinationPath: Option<string>, cwd: string, src: string): string
  {
    if destinationPath.Some? then SessionPath(cwd, destinationPath.value)
    else SessionPath(cwd, FileNameWithoutExtension(src))
  }

  /**
   * The checks made on one source before it is extracted, with `files` and `directories` as
   * they are when it is reached: the archive exists, no file stands where the destination
   * directory is to be created, and a given destination is an existing directory.
   */
  predicate SourceChecked(destinationPath: Option<string>, cwd: string, src: string, files: set<string>,
                          directories: set<string>)
  {
    var dest := DestinationDirectory(destinationPath, cwd, src);
    && src in files
    && (destinationPath.None? ==> dest !in files)
    && (destinationPath.Some? ==> dest in directories)
  }

  /**
   * The exception one source ends the cmdlet with: that of the first check it fails
   * (FileNotFoundException, the IOException of CreateDirectory, DirectoryNotFoundException),
   * or else one the handler threw, which needs progress on and badly formed events.
   */
  predicate SourceError(destinationPath: Option<string>, cwd: string, src: string, archive: Archive,
                        suppressProgress: bool, files: set<string>, directories: set<string>, error: ExpandError)
  {
    var dest := DestinationDirectory(destinationPath, cwd, src);
    if src !in files then error == FileNotFound(src)
    else if destinationPath.None? && dest in files then error == IOError(dest)
    else if destinationPath.Some? && dest !in directories then error == DirectoryNotFound(dest)
    else error.Handler? && !suppressProgress && !WellFormed(0, archive.count, archive.events)
  }

  /** What the handler writes to the pipeline for the archives of `sources`, one after the other. */
  function SourcesOutput(passThru: bool, suppressOutput: bool, destinationPath: Option<string>, cwd: string,
                         sources: seq<string>, archives: seq<Archive>): seq<FsObject>
    requires |sources| <= |archives|
  {
    if |sources| == 0 then []
    else
      var n := |sources| - 1;
      SourcesOutput(passThru, suppressOutput, destinationPath, cwd, sources[..n], archives)
      + EventsOutput(passThru, suppressOutput, [], archives[n].events,
                     DestinationDirectory(destinationPath, cwd, sources[n]))
  }

  class ExpandZipFileCommand {
    const destinationPath: Option<string>
    const passThru: bool
    const suppressOutput: bool
    const suppressProgress: bool
    const verbose: bool
    var output: seq<FsObject>
    var progress: seq<ProgressRecord>

    constructor(destinationPath: Option<string>, passThru: bool, suppressOutput: bool, suppressProgress: bool,
                verbose: bool)
      ensures this.destinationPath == destinationPath && this.passThru == passThru
      ensures this.suppressOutput == suppressOutput && this.suppressProgress == suppressProgress
      ensures this.verbose == verbose
      ensures output == [] && progress == []
    {
      this.destinationPath := destinationPath;
      this.passThru := passThru;
      this.suppressOutput := suppressOutput;
      this.suppressProgress := suppressProgress;
      this.verbose := verbose;
      output, progress := [], [];
    }

    /**
     * The destination of one archive: without DestinationPath the directory is created, which
     * fails with IOException when a file has its name.
     */
    method PrepareDestination(src: string, cwd: string, fs: FileSystem) returns (r: Result<string, ExpandError>)
      modifies fs`directories
      ensures var dest := DestinationDirectory(destinationPath, cwd, src);
        if destinationPath.None? && dest in fs.files
        then r == Err(IOError(dest)) && fs.directories == old(fs.directories)
        else (r == Ok(dest) && fs.directories == old(fs.directories) + (if destinationPath.None? then {dest} else {}))
    {
      var dest := DestinationDirectory(destinationPath, cwd, src);
      if destinationPath.None? {
        var ok := fs.CreateDirectory(dest);
        if !ok {
          return Err(IOError(dest));
        }
      }
      r := Ok(dest);
    }

    /**
     * Extracting one archive into `dest`: the handler, when registered, sees every event; then
     * the entry record and the archive record are completed, whatever was suppressed.
     */
    method ExpandArchive(dest: string, archive: Archive) returns (error: Option<HandlerError>)
      modifies this`output, this`progress
      ensures error.Some? ==> !suppressProgress && !WellFormed(0, archive.count, archive.events)
      ensures old(output) <= output
      ensures error.None? ==>
        && output == old(output) + EventsOutput(passThru, suppressOutput, [], archive.events, dest)
        && |progress| == |old(progress)| + (if suppressProgress then 0 else EventsProgress(verbose, 0, archive.events)) + 2
        && old(progress) <= progress
        && progress[|progress| - 2..] == CompletedRecords
    {
      var handler := new ExtractProgressHandler(suppressProgress, suppressOutput, passThru, verbose, archive.count, dest);
      if HandlerRegistered(suppressProgress, suppressOutput, passThru) {
        error := handler.Extract(archive.events);
      } else {
        error := None;
        QuietModes(passThru, suppressOutput, [], archive.events, dest);
      }
      output := output + handler.output;
      progress := progress + handler.progress;
      if error.Some? {
        return;
      }
      progress := progress + Completion(handler.subProgress, handler.mainProgress);
    }

    /** The pipeline output and the file system after the archives of `sources[..i]`. */
    ghost predicate Expanded(sources: seq<string>, archives: seq<Archive>, i: nat, cwd: string, fs: FileSystem,
                             output0: seq<FsObject>, files0: set<string>)
      requires i <= |sources| <= |archives|
      reads this, fs
    {
      && fs.files == files0
      && output == output0 + SourcesOutput(passThru, suppressOutput, destinationPath, cwd, sources[..i], archives)
      && forall k :: 0 <= k < i ==>
           sources[k] in fs.files && DestinationDirectory(destinationPath, cwd, sources[k]) in fs.directories
    }

    /** One source: the checks, the destination, the extraction. */
    method ExpandSource(sources: seq<string>, archives: seq<Archive>, i: nat, cwd: string, fs: FileSystem,
                        ghost output0: seq<FsObject>, ghost files0: set<string>)
      returns (error: Option<ExpandError>)
      requires i < |sources| == |archives|
      requires Expanded(sources, archives, i, cwd, fs, output0, files0)
      modifies this`output, this`progress, fs`directories
      ensures fs.files == old(fs.files) && old(fs.directories) <= fs.directories
      ensures error.Some? && error.value.FileNotFound? ==> error.value == FileNotFound(sources[i]) && sources[i] !in fs.files
      ensures error.Some? && error.value.DirectoryNotFound? ==> error.value.path !in fs.directories
      ensures error.Some? && error.value.Handler? ==>
        !suppressProgress && !WellFormed(0, archives[i].count, archives[i].events)
      ensures error.None? ==> Expanded(sources, archives, i + 1, cwd, fs, output0, files0)
      ensures sources[i] !in fs.files <==> error == Some(FileNotFound(sources[i]))
      ensures var dest := DestinationDirectory(destinationPath, cwd, sources[i]);
        && (sources[i] in fs.files && destinationPath.None? && dest in fs.files ==> error == Some(IOError(dest)))
        && (error.Some? && error.value.IOError? ==> destinationPath.None? && error.value.path == dest && dest in fs.files)
        && (sources[i] in fs.files && destinationPath.Some? && dest !in old(fs.directories) ==>
              error == Some(DirectoryNotFound(dest)))
        && (error.Some? && error.value.DirectoryNotFound? ==> destinationPath.Some? && error.value.path == dest)
      ensures error.None? ==> SourceChecked(destinationPath, cwd, sources[i], fs.files, old(fs.directories))
      ensures error.Some? ==>
        SourceError(destinationPath, cwd, sources[i], archives[i], suppressProgress, fs.files, old(fs.directories), error.value)
      ensures destinationPath.Some? ==> fs.directories == old(fs.directories)
      ensures old(output) <= output
    {
      var src := sources[i];
      if src !in fs.files {
        return Some(FileNotFound(src));
      }
      var dest := PrepareDestination(src, cwd, fs);
      if dest.Err? {
        return Some(dest.error);
      }
      if dest.value !in fs.directories {
        return Some(DirectoryNotFound(dest.value));
      }
      var failure := ExpandArchive(dest.value, archives[i]);
      if failure.Some? {
        return Some(Handler(failure.value));
      }
      assert sources[..i + 1][..i] == sources[..i];
      error := None;
    }

    /**
     * ProcessRecord over the resolved `sources` and their archives: each source must be an
     * existing file and its destination an existing directory, else the cmdlet stops there.
     */
    method ProcessRecord(sources: seq<string>, archives: seq<Archive>, cwd: string, fs: FileSystem)
      returns (error: Option<ExpandError>)
      requires |sources| == |archives|
      modifies this`output, this`progress, fs`directories
      ensures fs.files == old(fs.files) && old(fs.directories) <= fs.directories
      ensures error.Some? && error.value.FileNotFound? ==>
        error.value.path in sources && error.value.path !in fs.files
      ensures error.Some? && error.value.DirectoryNotFound? ==> error.value.path !in fs.directories
      ensures error.Some? && error.value.Handler? ==>
        !suppressProgress && exists k :: 0 <= k < |sources| && !WellFormed(0, archives[k].count, archives[k].events)
      ensures error.None? ==>
        && output == old(output) + SourcesOutput(passThru, suppressOutput, destinationPath, cwd, sources, archives)
        && forall k :: 0 <= k < |sources| ==>
             sources[k] in fs.files && DestinationDirectory(destinationPath, cwd, sources[k]) in fs.directories
      ensures error.Some? ==>
        exists n :: 0 <= n < |sources|
          && (forall k :: 0 <= k < n ==>
                sources[k] in fs.files && DestinationDirectory(destinationPath, cwd, sources[k]) in fs.directories)
          && old(output) + SourcesOutput(passThru, suppressOutput, destinationPath, cwd, sources[..n], archives) <= output
          && SourceError(destinationPath, cwd, sources[n], archives[n], suppressProgress, fs.files, old(fs.directories),
                         error.value)
    {
      ghost var output0, files0 := output, fs.files;
      assert sources[..0] == [];
      for i := 0 to |sources|
        invariant old(fs.directories) <= fs.directories
        invariant destinationPath.Some? ==> fs.directories == old(fs.directories)
        invariant Expanded(sources, archives, i, cwd, fs, output0, files0)
      {
        ghost var directories := fs.directories;
        ghost var before := output;
        error := ExpandSource(sources, archives, i, cwd, fs, output0, files0);
        if error.Some? {
          assert SourceError(destinationPath, cwd, sources[i], archives[i], suppressProgress, fs.files, directories,
                             error.value);
          assert SourceError(destinationPath, cwd, sources[i], archives[i], suppressProgress, fs.files,
                             old(fs.directories), error.value);
          assert before <= output;
          return;
        }
      }
      assert sources[..|sources|] == sources;
      error := None;
    }
  }
}
