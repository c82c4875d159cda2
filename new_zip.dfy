/**
 * New-ZipFile (NewZipFileCmmmand.cs): one archive per element of Path, named after its first
 * source unless DestinationPath is given; the checks on the destination; the SaveProgress
 * handler, which writes progress like the one of Expand-ZipFile but skips byte events of an
 * empty entry; and the PassThru output.
 *
 * Saving is an oracle: `zip.Count` and the events ZipFile.Save raises for a source.
 */
module NewZip {
  import opened Common
  import opened Paths
  import opened ZipProgress

  /** The SaveProgressEventArgs the handler looks at, by EventType. */
  datatype SaveEvent =
    | BeforeWriteEntry(fileName: string)
    | EntryBytesRead(bytesTransferred: int, totalBytesToTransfer: int)
    | OtherSaveEvent

  /** What ZipFile.Save does for one source: the entry count of the archive, and the events raised. */
  datatype Save = Save(count: int, events: seq<SaveEvent>)

  /** The extension given to an archive named after its source. */
  const ZipExtension: string := ".zip"

  /**
   * `dest_zipfilepath`: DestinationPath relative to the session, or else the first source's
   * name without extension, with ".zip", relative to the session.
   */
  function DestinationArchive(destinationPath: Option<string>, cwd: string, src: string): string
  {
    if destinationPath.Some? then SessionPath(cwd, destinationPath.value)
    else SessionPath(cwd, FileNameWithoutExtension(src)) + ZipExtension
  }

  /** Taking the extension off a name made by appending ".zip" gives the name back. */
  lemma ZipExtensionStripped(stem: string)
    ensures StripExtension(stem + ZipExtension) == stem
  {
    var dot := stem + ".";
    assert dot[|stem|] == '.' && dot[..|dot| - 1] == stem;
    assert StripExtension(dot) == stem;
    var z := stem + ".z";
    assert z[|stem|] == '.' && z[..|z| - 1] == dot;
    assert StripExtension(z) == stem;
    var zi := stem + ".zi";
    assert zi[|stem|] == '.' && zi[..|zi| - 1] == z;
    assert StripExtension(zi) == stem;
    var leaf := stem + ZipExtension;
    assert leaf[|stem|] == '.' && leaf[..|leaf| - 1] == zi;
  }

  /** Appending ".zip" to a name with no separator in it gives a name with none either. */
  lemma ZipLeafUnseparated(stem: string)
    requires forall i :: 0 <= i < |stem| ==> !EndsSegment(stem[i])
    ensures var leaf := stem + ZipExtension; forall i :: 0 <= i < |leaf| ==> !EndsSegment(leaf[i])
  {
    var leaf := stem + ZipExtension;
    forall i | 0 <= i < |leaf| ensures !EndsSegment(leaf[i]) {
      if i >= |stem| {
        assert leaf[i] == ZipExtension[i - |stem|];
      }
    }
  }

  /** A stem with no separator in it is combined under `cwd` as its last segment. */
  lemma CombinedLeaf(cwd: string, stem: string)
    requires stem != ""
    requires forall i :: 0 <= i < |stem| ==> !EndsSegment(stem[i])
    ensures SessionPath(cwd, stem) == Combine(cwd, stem)
    ensures FileName(Combine(cwd, stem) + ZipExtension) == stem + ZipExtension
  {
    assert !IsDirectorySeparator(stem[0]);
    assert |stem| >= 2 ==> stem[1] != ':';
    var q := if |cwd| == 0 then "" else if EndsSegment(cwd[|cwd| - 1]) then cwd else cwd + [DirectorySeparator];
    assert Combine(cwd, stem) == q + stem;
    var leaf := stem + ZipExtension;
    assert Combine(cwd, stem) + ZipExtension == q + leaf;
    ZipLeafUnseparated(stem);
    FileNameOfLastSegment(q, leaf);
  }

  /**
   * Without DestinationPath the archive is created in the session's current location and is
   * named after the first source: its file name is the source's name without extension plus
   * ".zip", and taking that extension off again gives the source's stem back. A source whose
   * stem is empty (".profile", or a path ending in a separator) yields the location itself
   * with ".zip" appended.
   */
  lemma DestinationArchiveNamed(cwd: string, src: string)
    ensures var stem := FileNameWithoutExtension(src);
      var dest := DestinationArchive(None, cwd, src);
      && (stem != "" ==>
            && dest == Combine(cwd, stem) + ZipExtension
            && FileName(dest) == stem + ZipExtension
            && FileNameWithoutExtension(dest) == stem)
      && (stem == "" ==> dest == cwd + ZipExtension)
  {
    var name := FileName(src);
    var stem := FileNameWithoutExtension(src);
    assert stem == name[..|stem|];
    assert forall i :: 0 <= i < |stem| ==> stem[i] == name[i];
    if stem != "" {
      CombinedLeaf(cwd, stem);
      ZipExtensionStripped(stem);
    }
  }

  /** What AddFile or AddDirectory stores for a source, by what the source is. */
  function Added(src: string, files: set<string>): ArchivedItem
  {
    if src in files then ArchivedFile(src) else ArchivedDirectory(src)
  }

  // ----------------------------------------------------------------------------------------------
  // What one event, and a sequence of events, amounts to
  // ----------------------------------------------------------------------------------------------

  /** A byte event the handler counts: one of an entry with bytes to transfer. */
  predicate Counted(e: SaveEvent)
  {
    e.EntryBytesRead? && e.totalBytesToTransfer != 0
  }

  /** How many records the handler writes for one event, given the event counter before it. */
  function EventProgress(verbose: bool, eventCount: int, e: SaveEvent): nat
  {
    if e.BeforeWriteEntry? then 1
    else if Counted(e) && Fires(eventCount) then (if verbose then 2 else 1)
    else 0
  }

  /**
   * An event the handler takes without throwing, given the entries started before it: an
   * entry start while fewer than `count` entries have started, or, for an entry with bytes to
   * transfer, bytes of one of the `count` entries with no more transferred than there are.
   */
  predicate EventWellFormed(entryCount: int, count: int, e: SaveEvent)
  {
    match e
    case BeforeWriteEntry(_) => 0 <= entryCount < count
    case EntryBytesRead(bytesTransferred, totalBytesToTransfer) =>
      totalBytesToTransfer == 0 || (1 <= entryCount <= count && 0 <= bytesTransferred <= totalBytesToTransfer)
    case _ => true
  }

  /** The number of BeforeWriteEntry events. */
  function Befores(events: seq<SaveEvent>): nat
  {
    if |events| == 0 then 0
    else Befores(events[..|events| - 1]) + (if events[|events| - 1].BeforeWriteEntry? then 1 else 0)
  }

  /** Every event well formed, from `entryCount` entries started, counting those started before it. */
  predicate WellFormed(entryCount: int, count: int, events: seq<SaveEvent>)
  {
    forall i :: 0 <= i < |events| ==> EventWellFormed(entryCount + Befores(events[..i]), count, events[i])
  }

  /** The number of counted byte events. */
  function CountedEvents(events: seq<SaveEvent>): nat
  {
    if |events| == 0 then 0
    else CountedEvents(events[..|events| - 1]) + (if Counted(events[|events| - 1]) then 1 else 0)
  }

  /** The number of progress records the events write, starting from the event counter `eventCount`. */
  function EventsProgress(verbose: bool, eventCount: int, events: seq<SaveEvent>): nat
  {
    if |events| == 0 then 0
    else
      var n := |events| - 1;
      EventsProgress(verbose, eventCount, events[..n])
      + EventProgress(verbose, Ticks(eventCount, CountedEvents(events[..n])), events[n])
  }

  /**
   * The progress written: one main record per entry started and, for each counted byte event
   * the throttle lets through, the main record and (with Verbose) the sub record.
   */
  lemma {:induction false} EventsProgressCount(verbose: bool, eventCount: int, events: seq<SaveEvent>)
    ensures EventsProgress(verbose, eventCount, events)
      == Befores(events) + (if verbose then 2 else 1) * Firings(eventCount, CountedEvents(events))
  {
    if |events| > 0 {
      var n := |events| - 1;
      EventsProgressCount(verbose, eventCount, events[..n]);
    }
  }

  /** The same count in closed form: from a counter in 0..150, one byte record set per 151 counted events. */
  lemma EventsProgressClosedForm(verbose: bool, eventCount: int, events: seq<SaveEvent>)
    requires 0 <= eventCount <= EventIntervalCount
    ensures EventsProgress(verbose, eventCount, events)
      == Befores(events) + (if verbose then 2 else 1) * ((eventCount + CountedEvents(events)) / (EventIntervalCount + 1))
  {
    EventsProgressCount(verbose, eventCount, events);
    ThrottleClosedForm(eventCount, CountedEvents(events));
  }

  // ----------------------------------------------------------------------------------------------
  // The handler
  // ----------------------------------------------------------------------------------------------

  /** The SaveProgress handler with the variables it captures; `progress` is what it passes to WriteProgress. */
  class SaveProgressHandler {
    /** `BoundParameters.ContainsKey("Verbose")`. */
    const verbose: bool
    /** `zip.Count`. */
    const zipCount: int

    var entryCount: int
    var eventCount: int
    var mainProgress: ProgressRecord
    var subProgress: ProgressRecord
    var progress: seq<ProgressRecord>

    /**
     * The counters stay in range, and the two records keep their activities, stay in
     * processing and never hold a percentage above 100.
     */
    ghost predicate Valid()
      reads this
    {
      && mainProgress.activityId == 0 && mainProgress.recordType == Processing
      && subProgress.activityId == 1 && subProgress.recordType == Processing
      && mainProgress.percentComplete <= 100 && subProgress.percentComplete <= 100
      && 0 <= entryCount
      && 0 <= eventCount <= EventIntervalCount
    }

    constructor(verbose: bool, zipCount: int)
      ensures Valid()
      ensures this.verbose == verbose && this.zipCount == zipCount
      ensures entryCount == 0 && eventCount == 0
      ensures mainProgress == InitialMain && subProgress == InitialSub && progress == []
    {
      this.verbose := verbose;
      this.zipCount := zipCount;
      entryCount, eventCount := 0, 0;
      mainProgress, subProgress := InitialMain, InitialSub;
      progress := [];
    }

    /**
     * Saving_BeforeWriteEntry: count the entry and write the main percentage. While no more
     * entries start than the archive holds, the percentage lies in [0, 100).
     */
    method OnBeforeWriteEntry() returns (error: Option<HandlerError>)
      modifies this`entryCount, this`mainProgress, this`progress
      ensures entryCount == old(entryCount) + 1
      ensures var m := SetPercent(old(mainProgress), EntryPercent(entryCount, zipCount));
        && (m.Err? ==> error == Some(m.error) && mainProgress == old(mainProgress) && progress == old(progress))
        && (m.Ok? ==> error.None? && mainProgress == m.value && progress == old(progress) + [mainProgress])
      ensures 1 <= entryCount <= zipCount ==> error.None? && 0 <= mainProgress.percentComplete < 100
      ensures error == Some(DivideByZero) ==> zipCount == 0
    {
      entryCount := entryCount + 1;
      if 1 <= entryCount <= zipCount {
        EntryPercentBounds(entryCount, zipCount);
      }
      var m := SetPercent(mainProgress, EntryPercent(entryCount, zipCount));
      if m.Err? {
        return Some(m.error);
      }
      mainProgress := m.value;
      progress := progress + [mainProgress];
      error := None;
    }

    /**
     * Saving_EntryBytesRead: ignored for an empty entry; otherwise count the event and, on
     * the 151st, write the main percentage (and, with Verbose, the entry's own percentage)
     * and reset the count. A zero `zip.Count` throws, and so does a percentage above 100;
     * the sub record's exception comes after the main record is written.
     */
    method OnEntryBytesRead(bytesTransferred: int, totalBytesToTransfer: int) returns (error: Option<HandlerError>)
      modifies this`eventCount, this`mainProgress, this`subProgress, this`progress
      ensures totalBytesToTransfer == 0 || !Fires(old(eventCount)) ==>
        && error.None?
        && eventCount == (if totalBytesToTransfer == 0 then old(eventCount) else old(eventCount) + 1)
        && mainProgress == old(mainProgress) && subProgress == old(subProgress) && progress == old(progress)
      ensures totalBytesToTransfer != 0 && Fires(old(eventCount)) ==>
        var m := SetPercent(old(mainProgress), OverallPercent(entryCount, bytesTransferred, totalBytesToTransfer, zipCount));
        var s := SetPercent(old(subProgress), BytesPercent(bytesTransferred, totalBytesToTransfer));
        && (m.Err? ==>
              && error == Some(m.error) && eventCount == old(eventCount) + 1
              && mainProgress == old(mainProgress) && subProgress == old(subProgress) && progress == old(progress))
        && (m.Ok? && verbose && s.Err? ==>
              && error == Some(s.error) && eventCount == old(eventCount) + 1
              && mainProgress == m.value && subProgress == old(subProgress) && progress == old(progress) + [mainProgress])
        && (m.Ok? && (!verbose || s.Ok?) ==>
              && error.None? && eventCount == 0
              && mainProgress == m.value
              && subProgress == (if verbose then s.value else old(subProgress))
              && progress == old(progress) + [mainProgress] + (if verbose then [subProgress] else []))
      ensures totalBytesToTransfer == 0 || (1 <= entryCount <= zipCount && 0 <= bytesTransferred <= totalBytesToTransfer)
        ==> error.None?
      ensures error == Some(DivideByZero) ==> zipCount == 0
    {
      error := None;
      if totalBytesToTransfer != 0 {
        eventCount := eventCount + 1;
        if eventCount > EventIntervalCount {
          if 1 <= entryCount <= zipCount && 0 <= bytesTransferred <= totalBytesToTransfer {
            OverallPercentBounds(entryCount, bytesTransferred, totalBytesToTransfer, zipCount);
          }
          var m := SetPercent(mainProgress, OverallPercent(entryCount, bytesTransferred, totalBytesToTransfer, zipCount));
          if m.Err? {
            return Some(m.error);
          }
          mainProgress := m.value;
          progress := progress + [mainProgress];
          if verbose {
            var s := SetPercent(subProgress, BytesPercent(bytesTransferred, totalBytesToTransfer));
            if s.Err? {
              return Some(s.error);
            }
            subProgress := s.value;
            progress := progress + [subProgress];
          }
          eventCount := 0;
        }
      }
    }

    /** The handler body. */
    method OnSaveProgress(e: SaveEvent) returns (error: Option<HandlerError>)
      requires Valid()
      modifies this`entryCount, this`eventCount, this`mainProgress, this`subProgress, this`progress
      ensures error.Some? ==> e.BeforeWriteEntry? || Counted(e)
      ensures EventWellFormed(old(entryCount), zipCount, e) ==> error.None?
      ensures error == Some(DivideByZero) ==> zipCount == 0
      ensures error.None? ==>
        && Valid()
        && entryCount == old(entryCount) + (if e.BeforeWriteEntry? then 1 else 0)
        && eventCount == (if Counted(e) then Tick(old(eventCount)) else old(eventCount))
        && |progress| == |old(progress)| + EventProgress(verbose, old(eventCount), e)
        && old(progress) <= progress
    {
      match e {
        case BeforeWriteEntry(_) =>
          error := OnBeforeWriteEntry();
        case EntryBytesRead(bytesTransferred, totalBytesToTransfer) =>
          error := OnEntryBytesRead(bytesTransferred, totalBytesToTransfer);
        case OtherSaveEvent =>
          error := None;
      }
    }

    /** The state after the events `events`, from the one the handler had before them. */
    ghost predicate Handled(events: seq<SaveEvent>, entryCount0: int, eventCount0: int, progress0: seq<ProgressRecord>)
      reads this
    {
      && Valid()
      && entryCount == entryCount0 + Befores(events)
      && eventCount == Ticks(eventCount0, CountedEvents(events))
      && |progress| == |progress0| + EventsProgress(verbose, eventCount0, events)
      && progress0 <= progress
    }

    /** One more event handled. */
    method HandleNext(events: seq<SaveEvent>, i: nat, ghost entryCount0: int, ghost eventCount0: int,
                      ghost progress0: seq<ProgressRecord>)
      returns (error: Option<HandlerError>)
      requires i < |events|
      requires Handled(events[..i], entryCount0, eventCount0, progress0)
      modifies this`entryCount, this`eventCount, this`mainProgress, this`subProgress, this`progress
      ensures error.Some? ==> !EventWellFormed(entryCount0 + Befores(events[..i]), zipCount, events[i])
      ensures error == Some(DivideByZero) ==> zipCount == 0
      ensures error.None? ==> Handled(events[..i + 1], entryCount0, eventCount0, progress0)
    {
      error := OnSaveProgress(events[i]);
      assert events[..i + 1][..i] == events[..i];
      assert events[..i + 1][i] == events[i];
    }

    /** The events of one ZipFile.Save; the first exception stops the save. */
    method SaveAll(events: seq<SaveEvent>) returns (error: Option<HandlerError>)
      requires Valid()
      modifies this`entryCount, this`eventCount, this`mainProgress, this`subProgress, this`progress
      ensures error.Some? ==> !WellFormed(old(entryCount), zipCount, events)
      ensures error == Some(DivideByZero) ==> zipCount == 0
      ensures error.None? ==> Handled(events, old(entryCount), old(eventCount), old(progress))
    {
      ghost var entryCount0, eventCount0, progress0 := entryCount, eventCount, progress;
      assert events[..0] == [];
      error := None;
      for i := 0 to |events|
        invariant error.None?
        invariant Handled(events[..i], entryCount0, eventCount0, progress0)
      {
        error := HandleNext(events, i, entryCount0, eventCount0, progress0);
        if error.Some? {
          return;
        }
      }
      assert events[..|events|] == events;
    }
  }

  // ----------------------------------------------------------------------------------------------
  // The cmdlet
  // ----------------------------------------------------------------------------------------------

  /** The exceptions ProcessRecord throws. */
  datatype NewZipError =
    | IOError(path: string)
    | InvalidData(path: string)
    | Handler(error: HandlerError)

  /** One archive item per source: the sources of one Path element, in order. */
  predicate HoldsSources(items: seq<ArchivedItem>, sources: seq<string>)
  {
    |items| == |sources| && forall i :: 0 <= i < |items| ==> items[i].path == sources[i]
  }

  class NewZipFileCommand {
    const destinationPath: Option<string>
    const force: bool
    const passThru: bool
    const suppressProgress: bool
    const verbose: bool
    var output: seq<FsObject>
    var progress: seq<ProgressRecord>

    constructor(destinationPath: Option<string>, force: bool, passThru: bool, suppressProgress: bool, verbose: bool)
      ensures this.destinationPath == destinationPath && this.force == force && this.passThru == passThru
      ensures this.suppressProgress == suppressProgress && this.verbose == verbose
      ensures output == [] && progress == []
    {
      this.destinationPath := destinationPath;
      this.force := force;
      this.passThru := passThru;
      this.suppressProgress := suppressProgress;
      this.verbose := verbose;
      output, progress := [], [];
    }

    /**
     * The checks on the destination, made for the first source of a Path element: a directory
     * of that name is refused; an existing file is deleted under Force and refused otherwise.
     */
    method PrepareDestination(dest: string, fs: FileSystem) returns (error: Option<NewZipError>)
      modifies fs`files, fs`archives
      ensures error.Some? <==> dest in old(fs.directories) || (dest in old(fs.files) && !force)
      ensures error.Some? ==> error == Some(IOError(dest)) && fs.files == old(fs.files) && fs.archives == old(fs.archives)
      ensures error.None? ==> fs.files == old(fs.files) - {dest} && fs.archives == old(fs.archives) - {dest}
    {
      if dest in fs.directories {
        return Some(IOError(dest));
      }
      if dest in fs.files {
        if force {
          fs.DeleteFile(dest);
        } else {
          return Some(IOError(dest));
        }
      } else {
        fs.archives := fs.archives - {dest};
      }
      error := None;
    }

    /**
     * One source into the archive `dest`: the archive is read if it exists, the source added
     * as a file or a directory (anything else is InvalidDataException), the archive saved with
     * the handler unless SuppressProgress, both records completed, and under PassThru the
     * archive written to the pipeline.
     */
    method AddSource(src: string, dest: string, save: Save, fs: FileSystem) returns (error: Option<NewZipError>)
      modifies this`output, this`progress, fs`files, fs`archives
      ensures fs.directories == old(fs.directories)
      ensures error.Some? ==>
        || (error == Some(InvalidData(src)) && src !in old(fs.files) && src !in fs.directories)
        || (&& error.value.Handler? && !suppressProgress && !WellFormed(0, save.count, save.events)
            && (error.value.error == DivideByZero ==> save.count == 0))
      ensures error.Some? ==> fs.files == old(fs.files) && fs.archives == old(fs.archives)
      ensures src !in old(fs.files) && src !in fs.directories ==> error == Some(InvalidData(src))
      ensures error.Some? && error.value.InvalidData? ==>
        && error.value == InvalidData(src) && src !in old(fs.files) && src !in fs.directories
        && output == old(output) && progress == old(progress)
      ensures error.None? ==>
        && (src in old(fs.files) || src in fs.directories)
        && fs.files == old(fs.files) + {dest}
        && fs.archives == old(fs.archives)[dest := old(fs.ArchiveAt(dest)) + [Added(src, old(fs.files))]]
        && output == old(output) + (if passThru then [FileInfo(dest)] else [])
        && |progress| == |old(progress)| + (if suppressProgress then 0 else EventsProgress(verbose, 0, save.events)) + 2
        && old(progress) <= progress
        && progress[|progress| - 2..] == CompletedRecords
    {
      var items := fs.ArchiveAt(dest);
      var handler := new SaveProgressHandler(verbose, save.count);
      if src in fs.files {
        items := items + [ArchivedFile(src)];
      } else if src in fs.directories {
        items := items + [ArchivedDirectory(src)];
      } else {
        return Some(InvalidData(src));
      }
      var failure: Option<HandlerError> := None;
      if !suppressProgress {
        failure := handler.SaveAll(save.events);
      }
      progress := progress + handler.progress;
      if failure.Some? {
        return Some(Handler(failure.value));
      }
      fs.SaveArchive(dest, items);
      progress := progress + Completion(handler.subProgress, handler.mainProgress);
      if passThru {
        output := output + [FileInfo(dest)];
      }
      error := None;
    }

    /** The archive and the output after the sources `sources[..i]` of one Path element. */
    ghost predicate AddedSources(sources: seq<string>, i: nat, dest: string, fs: FileSystem, output0: seq<FsObject>)
      requires i <= |sources|
      reads this, fs
    {
      && (i > 0 ==> dest in fs.files && dest in fs.archives && HoldsSources(fs.archives[dest], sources[..i]))
      && output == output0 + (if passThru then seq(i, _ => FileInfo(dest)) else [])
    }

    /** The first source of a Path element: the destination is fixed and checked, then the source added. */
    method AddFirst(sources: seq<string>, saves: seq<Save>, cwd: string, fs: FileSystem) returns (error: Option<NewZipError>)
      requires 0 < |sources| == |saves|
      modifies this`output, this`progress, fs`files, fs`archives
      ensures fs.directories == old(fs.directories)
      ensures var dest := DestinationArchive(destinationPath, cwd, sources[0]);
        && (dest in old(fs.directories) || (dest in old(fs.files) && !force) ==> error == Some(IOError(dest)))
        && (error.Some? && error.value.IOError? ==>
              error.value.path == dest && (dest in old(fs.directories) || (dest in old(fs.files) && !force)))
        && (error.None? ==> AddedSources(sources, 1, dest, fs, old(output)) && fs.files == old(fs.files) + {dest})
        && ((&& !(dest in old(fs.directories) || (dest in old(fs.files) && !force))
             && (sources[0] in old(fs.files) - {dest} || sources[0] in old(fs.directories))
             && (suppressProgress || WellFormed(0, saves[0].count, saves[0].events)))
            ==> error.None?)
      ensures error.Some? && error.value.Handler? ==> !suppressProgress && !WellFormed(0, saves[0].count, saves[0].events)
      ensures var dest := DestinationArchive(destinationPath, cwd, sources[0]);
        && (error.Some? && error.value.InvalidData? ==>
              && error.value == InvalidData(sources[0]) && sources[0] !in fs.directories
              && sources[0] !in old(fs.files) - {dest} && fs.files == old(fs.files) - {dest} && output == old(output))
        && (!(dest in old(fs.directories) || (dest in old(fs.files) && !force))
            && sources[0] !in old(fs.files) - {dest} && sources[0] !in old(fs.directories) ==>
              error == Some(InvalidData(sources[0])))
    {
      var dest := DestinationArchive(destinationPath, cwd, sources[0]);
      error := PrepareDestination(dest, fs);
      if error.Some? {
        return;
      }
      error := AddSource(sources[0], dest, saves[0], fs);
      if error.None? {
        assert fs.ArchiveAt(dest) == [Added(sources[0], old(fs.files))];
        assert sources[..1] == [sources[0]];
        assert seq(1, _ => FileInfo(dest)) == [FileInfo(dest)];
      }
    }

    /** A later source of a Path element, into the archive the first one created. */
    method AddNext(sources: seq<string>, saves: seq<Save>, i: nat, dest: string, fs: FileSystem,
                   ghost output0: seq<FsObject>)
      returns (error: Option<NewZipError>)
      requires 0 < i < |sources| == |saves|
      requires AddedSources(sources, i, dest, fs, output0)
      modifies this`output, this`progress, fs`files, fs`archives
      ensures fs.directories == old(fs.directories)
      ensures error.Some? ==> error.value.InvalidData? || error.value.Handler?
      ensures error.Some? && error.value.Handler? ==> !suppressProgress && !WellFormed(0, saves[i].count, saves[i].events)
      ensures error.None? ==> AddedSources(sources, i + 1, dest, fs, output0) && fs.files == old(fs.files) + {dest}
      ensures sources[i] !in old(fs.files) && sources[i] !in fs.directories ==> error == Some(InvalidData(sources[i]))
      ensures error.Some? && error.value.InvalidData? ==>
        && error.value == InvalidData(sources[i]) && sources[i] !in old(fs.files) && sources[i] !in fs.directories
        && fs.files == old(fs.files) && AddedSources(sources, i, dest, fs, output0)
    {
      error := AddSource(sources[i], dest, saves[i], fs);
      if error.None? {
        assert sources[..i + 1] == sources[..i] + [sources[i]];
        assert seq(i + 1, _ => FileInfo(dest)) == seq(i, _ => FileInfo(dest)) + [FileInfo(dest)];
      }
    }

    /**
     * The sources resolved from one element of Path: they all go into one archive, named
     * after the first of them unless DestinationPath is given, and checked only then.
     */
    method ProcessPath(sources: seq<string>, saves: seq<Save>, cwd: string, fs: FileSystem)
      returns (error: Option<NewZipError>)
      requires |sources| == |saves|
      modifies this`output, this`progress, fs`files, fs`archives
      ensures fs.directories == old(fs.directories)
      ensures |sources| == 0 ==> error.None? && output == old(output) && fs.files == old(fs.files)
      ensures error.Some? && error.value.Handler? ==>
        !suppressProgress && exists k :: 0 <= k < |sources| && !WellFormed(0, saves[k].count, saves[k].events)
      ensures |sources| > 0 ==>
        var dest := DestinationArchive(destinationPath, cwd, sources[0]);
        && (dest in old(fs.directories) || (dest in old(fs.files) && !force) ==> error == Some(IOError(dest)))
        && (error.Some? && error.value.IOError? ==>
              error.value.path == dest && (dest in old(fs.directories) || (dest in old(fs.files) && !force)))
        && ((&& !(dest in old(fs.directories) || (dest in old(fs.files) && !force))
             && (forall k :: 0 <= k < |sources| ==> sources[k] in old(fs.files) - {dest} || sources[k] in old(fs.directories))
             && (suppressProgress || forall k :: 0 <= k < |sources| ==> WellFormed(0, saves[k].count, saves[k].events)))
            ==> error.None?)
        && (error.Some? && error.value.InvalidData? ==>
              exists k :: 0 <= k < |sources| && error.value == InvalidData(sources[k])
                && sources[k] !in fs.files && sources[k] !in fs.directories
                && (k == 0 ==> sources[k] !in old(fs.files) - {dest})
                && (k > 0 ==> sources[k] !in old(fs.files) && AddedSources(sources, k, dest, fs, old(output))))
        && (error.None? ==>
              && fs.files == old(fs.files) + {dest}
              && dest in fs.archives && HoldsSources(fs.archives[dest], sources)
              && output == old(output) + (if passThru then seq(|sources|, _ => FileInfo(dest)) else []))
    {
      error := None;
      if |sources| == 0 {
        return;
      }
      ghost var output0 := output;
      var dest := DestinationArchive(destinationPath, cwd, sources[0]);
      error := AddFirst(sources, saves, cwd, fs);
      if error.Some? {
        if error.value.InvalidData? {
          assert error.value == InvalidData(sources[0]);
        }
        return;
      }
      ghost var files1 := fs.files;
      for i := 1 to |sources|
        invariant error.None?
        invariant fs.directories == old(fs.directories)
        invariant fs.files == files1
        invariant AddedSources(sources, i, dest, fs, output0)
      {
        error := AddNext(sources, saves, i, dest, fs, output0);
        if error.Some? {
          if error.value.InvalidData? {
            assert error.value == InvalidData(sources[i]);
          }
          return;
        }
      }
      assert sources[..|sources|] == sources;
    }

    /** One element of Path, as ProcessRecord sees it: the earlier archives stay, and this one exists. */
    method ProcessElement(sources: seq<string>, saves: seq<Save>, cwd: string, fs: FileSystem)
      returns (error: Option<NewZipError>)
      requires |sources| == |saves|
      modifies this`output, this`progress, fs`files, fs`archives
      ensures fs.directories == old(fs.directories)
      ensures error.None? ==> old(fs.files) <= fs.files
      ensures error.None? && |sources| > 0 ==> DestinationArchive(destinationPath, cwd, sources[0]) in fs.files
    {
      error := ProcessPath(sources, saves, cwd, fs);
    }

    /** ProcessRecord: the elements of Path, each resolved to its sources, one after the other. */
    method ProcessRecord(paths: seq<seq<string>>, saves: seq<seq<Save>>, cwd: string, fs: FileSystem)
      returns (error: Option<NewZipError>)
      requires |paths| == |saves|
      requires forall k :: 0 <= k < |paths| ==> |paths[k]| == |saves[k]|
      modifies this`output, this`progress, fs`files, fs`archives
      ensures fs.directories == old(fs.directories)
      ensures error.None? ==> forall k :: 0 <= k < |paths| && |paths[k]| > 0 ==>
        DestinationArchive(destinationPath, cwd, paths[k][0]) in fs.files
    {
      for k := 0 to |paths|
        invariant fs.directories == old(fs.directories)
        invariant forall j :: 0 <= j < k && |paths[j]| > 0 ==>
          DestinationArchive(destinationPath, cwd, paths[j][0]) in fs.files
      {
        error := ProcessElement(paths[k], saves[k], cwd, fs);
        if error.Some? {
          return;
        }
      }
      error := None;
    }
  }
}
