/**
 * Invoke-Process (InvokeProcessCmmmand.cs): resolving the executable, assembling the
 * command line, capturing the child's two output streams through two queues that the
 * main loop drains into the pipeline and the warning stream, and retrying on a non-zero
 * exit code with a one-second countdown between attempts.
 *
 * The child process is an oracle: for every attempt, the lines its readers deliver
 * between two polls of the main loop, whether `HasExited` was then true, and its exit code.
 */
module InvokeProcess {
  import opened Common
  import opened Paths

  const ExeSuffix: string := ".exe"

  /** The separator of the entries of the PATH environment variable. */
  const PathListSeparator: char := ';'

  // ----------------------------------------------------------------------------------------------
  // Executable path resolution
  // ----------------------------------------------------------------------------------------------

  /**
   * One candidate, tried as the source tries each of them: the path itself when it exists,
   * otherwise the path with ".exe" appended, but only when it has no extension.
   */
  function Probe(testpath: string, files: set<string>): Option<string>
  {
    if testpath in files then Some(testpath)
    else if !HasExtension(testpath) && testpath + ExeSuffix in files then Some(testpath + ExeSuffix)
    else None
  }

  /** The candidate built from one PATH entry. */
  function EntryHit(entry: string, name: string, files: set<string>): Option<string>
  {
    Probe(Combine(entry, name), files)
  }

  /** What probing each PATH entry yields, in PATH order. */
  function EntryHits(entries: seq<string>, name: string, files: set<string>): (hits: seq<Option<string>>)
    ensures |hits| == |entries|
    ensures forall i :: 0 <= i < |entries| ==> hits[i] == EntryHit(entries[i], name, files)
  {
    seq(|entries|, i requires 0 <= i < |entries| => EntryHit(entries[i], name, files))
  }

  /**
   * The PATH scan as written: every entry is probed, with no early exit, so each hit
   * overwrites the one found before it.
   */
  function LastHit(hits: seq<Option<string>>): Option<string>
  {
    if |hits| == 0 then None
    else if hits[|hits| - 1].Some? then hits[|hits| - 1]
    else LastHit(hits[..|hits| - 1])
  }

  function ScanPath(entries: seq<string>, name: string, files: set<string>): Option<string>
  {
    LastHit(EntryHits(entries, name, files))
  }

  /** The `filepath` that ProcessRecord settles on, `None` standing for null. */
  function Resolve(filePath: string, cwd: string, pathVariable: string, files: set<string>): Option<string>
  {
    if IsRooted(filePath) then Probe(filePath, files)
    else
      var local := Probe(Combine(cwd, filePath), files);
      if local.Some? then local else ScanPath(Split(pathVariable, PathListSeparator), filePath, files)
  }

  /** Every bare candidate in the order the source tries them. */
  function Candidates(filePath: string, cwd: string, pathVariable: string): seq<string>
  {
    if IsRooted(filePath) then [filePath]
    else
      var entries := Split(pathVariable, PathListSeparator);
      [Combine(cwd, filePath)] + seq(|entries|, i requires 0 <= i < |entries| => Combine(entries[i], filePath))
  }

  /**
   * One File.Exists test and its ".exe" fallback, as each of the three blocks of the
   * resolution does it.
   */
  method TryCandidate(candidate: string, files: set<string>) returns (hit: Option<string>)
    ensures hit == Probe(candidate, files)
    ensures hit.Some? ==> hit.value in files
  {
    hit := None;
    var testpath := candidate;
    if testpath in files {
      hit := Some(testpath);
    } else if !HasExtension(testpath) && testpath + ExeSuffix in files {
      testpath := testpath + ExeSuffix;
      hit := Some(testpath);
    }
  }

  /**
   * The resolution step of ProcessRecord. `files` is the set of existing files, `cwd` the
   * session's current file-system location and `pathVariable` the value of PATH.
   */
  method ResolveFilePath(filePath: string, cwd: string, pathVariable: string, files: set<string>)
    returns (filepath: Option<string>)
    ensures filepath == Resolve(filePath, cwd, pathVariable, files)
  {
    if IsRooted(filePath) {
      filepath := TryCandidate(filePath, files);
    } else {
      filepath := TryCandidate(Combine(cwd, filePath), files);
      if filepath.None? {
        var entries := Split(pathVariable, PathListSeparator);
        ghost var hits := EntryHits(entries, filePath, files);
        for i := 0 to |entries|
          invariant filepath == LastHit(hits[..i])
        {
          assert hits[..i + 1][..i] == hits[..i];
          var hit := TryCandidate(Combine(entries[i], filePath), files);
          if hit.Some? {
            filepath := hit;
          }
        }
        assert hits[..|entries|] == hits;
      }
    }
  }

  /**
   * A rooted FilePath is tried as given, then with ".exe" when it has no extension;
   * neither the current directory nor PATH is consulted.
   */
  lemma RootedResolution(filePath: string, cwd: string, pathVariable: string, files: set<string>,
                         otherCwd: string, otherPathVariable: string)
    requires IsRooted(filePath)
    ensures Resolve(filePath, cwd, pathVariable, files) == Resolve(filePath, otherCwd, otherPathVariable, files)
    ensures filePath in files ==> Resolve(filePath, cwd, pathVariable, files) == Some(filePath)
    ensures filePath !in files ==>
      (Resolve(filePath, cwd, pathVariable, files) == Some(filePath + ExeSuffix)
       <==> !HasExtension(filePath) && filePath + ExeSuffix in files)
    ensures Resolve(filePath, cwd, pathVariable, files).None?
      <==> filePath !in files && (HasExtension(filePath) || filePath + ExeSuffix !in files)
  {
    assert filePath + ExeSuffix != filePath by {
      assert |filePath + ExeSuffix| == |filePath| + 4;
    }
  }

  /**
   * For a relative name, a hit in the current directory (bare, then ".exe") is the result
   * whatever PATH holds; PATH is reached only when both current-directory candidates miss.
   */
  lemma CurrentDirectoryFirst(filePath: string, cwd: string, pathVariable: string, files: set<string>,
                              otherPathVariable: string)
    requires !IsRooted(filePath)
    ensures Probe(Combine(cwd, filePath), files).Some? ==>
      Resolve(filePath, cwd, pathVariable, files) == Probe(Combine(cwd, filePath), files)
      && Resolve(filePath, cwd, otherPathVariable, files) == Resolve(filePath, cwd, pathVariable, files)
    ensures Probe(Combine(cwd, filePath), files).None? ==>
      Resolve(filePath, cwd, pathVariable, files) == ScanPath(Split(pathVariable, PathListSeparator), filePath, files)
  {
  }

  /** Hit `i` is `x`, and no later entry has a hit. */
  predicate IsLast(hits: seq<Option<string>>, i: int, x: string)
  {
    0 <= i < |hits| && hits[i] == Some(x) && forall j :: i < j < |hits| ==> hits[j].None?
  }

  lemma {:induction false} LastHitFound(hits: seq<Option<string>>)
    requires LastHit(hits).Some?
    ensures exists i :: IsLast(hits, i, LastHit(hits).value)
  {
    var n := |hits| - 1;
    if hits[n].Some? {
      assert IsLast(hits, n, hits[n].value);
    } else {
      var prefix := hits[..n];
      LastHitFound(prefix);
      var i :| IsLast(prefix, i, LastHit(prefix).value);
      assert IsLast(hits, i, LastHit(prefix).value);
    }
  }

  lemma {:induction false} LastHitOf(hits: seq<Option<string>>, i: int, x: string)
    requires IsLast(hits, i, x)
    ensures LastHit(hits) == Some(x)
  {
    var n := |hits| - 1;
    if i < n {
      assert IsLast(hits[..n], i, x);
      LastHitOf(hits[..n], i, x);
    }
  }

  /**
   * The PATH scan yields the hit of the LAST entry that has one: `x` is the result exactly
   * when some entry yields `x` and no later entry yields anything.
   */
  lemma LastHitCharacterized(hits: seq<Option<string>>, x: string)
    ensures LastHit(hits) == Some(x) <==> exists i :: IsLast(hits, i, x)
  {
    if LastHit(hits) == Some(x) {
      LastHitFound(hits);
    }
    if exists i :: IsLast(hits, i, x) {
      var i :| IsLast(hits, i, x);
      LastHitOf(hits, i, x);
    }
  }

  /** The PATH scan leaves `filepath` null exactly when no entry has a hit. */
  lemma {:induction false} LastHitMiss(hits: seq<Option<string>>)
    ensures LastHit(hits).None? <==> forall i :: 0 <= i < |hits| ==> hits[i].None?
  {
    if |hits| > 0 {
      var n := |hits| - 1;
      LastHitMiss(hits[..n]);
      assert forall i :: 0 <= i < n ==> hits[..n][i] == hits[i];
    }
  }

  /** The hit of the PATH scan comes from the candidate of one PATH entry. */
  lemma ScanHitFromEntry(entries: seq<string>, name: string, files: set<string>, x: string)
    requires ScanPath(entries, name, files) == Some(x)
    ensures exists i :: 0 <= i < |entries| && Probe(Combine(entries[i], name), files) == Some(x)
  {
    var hits := EntryHits(entries, name, files);
    LastHitFound(hits);
    var i :| IsLast(hits, i, x);
    assert Probe(Combine(entries[i], name), files) == Some(x);
  }

  /** `x` is candidate `c` itself or, when `c` does not exist and has no extension, `c` plus ".exe". */
  predicate FromCandidate(x: string, c: string, files: set<string>)
  {
    x == c || (c !in files && !HasExtension(c) && x == c + ExeSuffix)
  }

  /** What Probe finds is an existing file that comes from the candidate. */
  lemma ProbeHit(c: string, files: set<string>, x: string)
    requires Probe(c, files) == Some(x)
    ensures x in files && FromCandidate(x, c, files)
  {
  }

  /**
   * A resolved path is an existing file, and it is one of the candidates or, when that
   * candidate has no extension and does not exist itself, the candidate plus ".exe".
   */
  lemma ResolvedFromCandidate(filePath: string, cwd: string, pathVariable: string, files: set<string>, x: string)
    requires Resolve(filePath, cwd, pathVariable, files) == Some(x)
    ensures x in files
    ensures exists k ::
              0 <= k < |Candidates(filePath, cwd, pathVariable)| && FromCandidate(x, Candidates(filePath, cwd, pathVariable)[k], files)
  {
    var cs := Candidates(filePath, cwd, pathVariable);
    var k: nat := 0;
    if !IsRooted(filePath) && Probe(Combine(cwd, filePath), files).None? {
      var entries := Split(pathVariable, PathListSeparator);
      ScanHitFromEntry(entries, filePath, files, x);
      var i :| 0 <= i < |entries| && Probe(Combine(entries[i], filePath), files) == Some(x);
      k := i + 1;
    }
    assert Probe(cs[k], files) == Some(x);
    ProbeHit(cs[k], files, x);
  }

  /** The first-hit scan that a plain reading of the search order suggests. */
  function FirstHit(hits: seq<Option<string>>): Option<string>
  {
    if |hits| == 0 then None
    else if hits[0].Some? then hits[0]
    else FirstHit(hits[1..])
  }

  /**
   * The scan as written and the first-hit scan disagree: with PATH "a;b" and a program
   * "x" in both directories, the source runs b\x where a first-hit search runs a\x.
   */
  lemma LastHitIsNotFirstHit()
    ensures Resolve("x", "c", "a;b", {"a\\x", "b\\x"}) == Some("b\\x")
    ensures FirstHit(EntryHits(Split("a;b", PathListSeparator), "x", {"a\\x", "b\\x"})) == Some("a\\x")
  {
    var files: set<string> := {"a\\x", "b\\x"};
    var entries := Split("a;b", PathListSeparator);
    assert Split("b", PathListSeparator) == ["b"] by {
      assert "b"[1..] == "";
      var rest := Split("", PathListSeparator);
      assert rest == [""];
      assert ['b'] + rest[0] == "b";
      assert rest[1..] == [];
    }
    assert entries == ["a", "b"] by {
      assert "a;b"[1..] == ";b";
      assert ";b"[1..] == "b";
      var rest := Split(";b", PathListSeparator);
      assert rest == [""] + ["b"];
      assert ['a'] + rest[0] == "a";
      assert rest[1..] == ["b"];
    }
    assert Combine("c", "x") == "c\\x";
    assert !HasExtension("c\\x");
    assert "c\\x" + ExeSuffix !in files;
    var hits := EntryHits(entries, "x", files);
    assert hits[0] == Some("a\\x") by {
      assert Combine("a", "x") == "a\\x";
    }
    assert hits[1] == Some("b\\x") by {
      assert Combine("b", "x") == "b\\x";
    }
    assert hits[..1][0] == hits[0];
  }

  /** When at most one PATH entry has a hit, the scan as written agrees with a first-hit scan. */
  lemma {:induction false} SingleHitAgrees(hits: seq<Option<string>>)
    requires forall i, j :: 0 <= i < j < |hits| && hits[i].Some? ==> hits[j].None?
    ensures LastHit(hits) == FirstHit(hits)
  {
    if |hits| > 0 {
      var tail := hits[1..];
      assert forall i :: 0 <= i < |tail| ==> tail[i] == hits[i + 1];
      if hits[0].Some? {
        assert IsLast(hits, 0, hits[0].value);
        LastHitOf(hits, 0, hits[0].value);
      } else {
        SingleHitAgrees(tail);
        if LastHit(tail).Some? {
          var x := LastHit(tail).value;
          LastHitFound(tail);
          var i :| IsLast(tail, i, x);
          assert IsLast(hits, i + 1, x);
          LastHitOf(hits, i + 1, x);
        } else {
          LastHitMiss(tail);
          LastHitMiss(hits);
        }
      }
    }
  }

  // ----------------------------------------------------------------------------------------------
  // Command-line assembly
  // ----------------------------------------------------------------------------------------------

  /** The StringBuilder contents after the argument loop: each argument preceded by one space. */
  function SpacePrefixed(args: seq<string>): string
  {
    if |args| == 0 then "" else SpacePrefixed(args[..|args| - 1]) + " " + args[|args| - 1]
  }

  /** A string in a C# concatenation: null contributes nothing. */
  function Text(s: Option<string>): string
  {
    if s.Some? then s.value else ""
  }

  /**
   * Builds `StartInfo.Arguments` (left unset when ArgumentList is null) and the command
   * line shown by ShouldProcess.
   */
  method BuildCommandLine(argumentList: Option<seq<string>>, filepath: Option<string>)
    returns (arguments: Option<string>, commandline: string)
    ensures argumentList.None? ==> arguments.None? && commandline == Text(filepath)
    ensures argumentList.Some? ==>
      arguments == Some(Trim(SpacePrefixed(argumentList.value)))
      && commandline == Text(filepath) + SpacePrefixed(argumentList.value)
  {
    var builder := "";
    arguments := None;
    if argumentList.Some? {
      var args := argumentList.value;
      for i := 0 to |args|
        invariant builder == SpacePrefixed(args[..i])
      {
        assert args[..i + 1][..i] == args[..i];
        builder := builder + (" " + args[i]);
      }
      assert args[..|args|] == args;
      arguments := Some(Trim(builder));
    }
    commandline := Text(filepath) + (if argumentList.None? then "" else builder);
  }

  /**
   * Splitting the assembled arguments at spaces gives back the argument list, behind the
   * empty piece before the leading space, as long as no argument holds a space itself.
   */
  lemma {:induction false} SpacePrefixedSplits(args: seq<string>)
    requires forall i :: 0 <= i < |args| ==> ' ' !in args[i]
    ensures Split(SpacePrefixed(args), ' ') == [""] + args
  {
    if |args| > 0 {
      var n := |args| - 1;
      SpacePrefixedSplits(args[..n]);
      SplitAppend(SpacePrefixed(args[..n]), args[n], ' ');
      assert SpacePrefixed(args) == SpacePrefixed(args[..n]) + [' '] + args[n];
      assert [""] + args[..n] + [args[n]] == [""] + args;
    }
  }

  /** Appending a separator and a separator-free piece appends that piece to the split. */
  lemma {:induction false} SplitAppend(s: string, t: string, separator: char)
    requires separator !in t
    ensures Split(s + [separator] + t, separator) == Split(s, separator) + [t]
    decreases |s|
  {
    var u := s + [separator] + t;
    if |s| == 0 {
      assert u[1..] == t;
      SplitJoin(t, separator);
    } else {
      assert u[0] == s[0];
      assert u[1..] == s[1..] + [separator] + t;
      SplitAppend(s[1..], t, separator);
    }
  }

  /**
   * When the first argument does not start and the last does not end with white space,
   * `StartInfo.Arguments` is the assembled string without its leading space.
   */
  lemma ArgumentsDropLeadingSpace(args: seq<string>)
    requires |args| > 0 && |args[0]| > 0 && |args[|args| - 1]| > 0
    requires !IsWhiteSpace(args[0][0]) && !IsWhiteSpace(args[|args| - 1][|args[|args| - 1]| - 1])
    ensures Trim(SpacePrefixed(args)) == SpacePrefixed(args)[1..]
  {
    var s := SpacePrefixed(args);
    SpacePrefixedShape(args);
    assert TrimStart(s[1..]) == s[1..];
    assert TrimStart(s) == s[1..];
    assert s[1..][|s| - 2] == s[|s| - 1];
  }

  /** The assembled string starts with a space and the first argument and ends with the last one. */
  lemma {:induction false} SpacePrefixedShape(args: seq<string>)
    requires |args| > 0
    ensures |SpacePrefixed(args)| >= 1 + |args[0]| && |SpacePrefixed(args)| >= 1 + |args[|args| - 1]|
    ensures SpacePrefixed(args)[0] == ' '
    ensures SpacePrefixed(args)[1..1 + |args[0]|] == args[0]
    ensures SpacePrefixed(args)[|SpacePrefixed(args)| - |args[|args| - 1]|..] == args[|args| - 1]
  {
    var n := |args| - 1;
    if n > 0 {
      SpacePrefixedShape(args[..n]);
      assert args[..n][0] == args[0];
      var p := SpacePrefixed(args[..n]);
      assert SpacePrefixed(args) == p + (" " + args[n]);
      assert SpacePrefixed(args)[1..1 + |args[0]|] == p[1..1 + |args[0]|];
    } else {
      assert SpacePrefixed(args) == SpacePrefixed([]) + " " + args[0];
    }
  }

  // ----------------------------------------------------------------------------------------------
  // Captured output and its routing
  // ----------------------------------------------------------------------------------------------

  /** A record on the warning stream: a captured line, or a retry countdown notice. */
  datatype Warning = LineWarning(line: string) | RetryNotice(remaining: int, count: int, retryCount: int)

  /** An object written to the pipeline: a standard-output line, or (PassThru) the exit code. */
  datatype PipelineObject = OutputLine(line: string) | ExitCodeObject(code: int)

  /** The error record written for a non-zero exit code; its target is the resolved path. */
  datatype ErrorRecord = NonZeroExitCode(target: string)

  /** The exception that ends ProcessRecord: Process.Start with no file name. */
  datatype InvokeError = NoFileName

  /**
   * What the child's readers delivered since the previous poll of the main loop (the `Data`
   * of each DataReceived event, `None` for null), and whether `HasExited` was then true.
   * A poll that observes the exit also carries every line still unread, since WaitForExit
   * waits for both readers to reach the end of their streams.
   */
  datatype Poll = Poll(outData: seq<Option<string>>, errData: seq<Option<string>>, exited: bool)

  /** One attempt of the child: the polls of the main loop, and the exit code. */
  datatype Run = Run(polls: seq<Poll>, exitCode: int)

  /** The lines a DataReceived handler enqueues: every non-null `Data`, in order. */
  function NonNull(data: seq<Option<string>>): seq<string>
  {
    if |data| == 0 then []
    else NonNull(data[..|data| - 1]) + (if data[|data| - 1].Some? then [data[|data| - 1].value] else [])
  }

  /** Lines on their way to the warning stream. */
  function AsWarnings(lines: seq<string>): seq<Warning>
  {
    if |lines| == 0 then [] else AsWarnings(lines[..|lines| - 1]) + [LineWarning(lines[|lines| - 1])]
  }

  /** Lines on their way to the pipeline. */
  function AsOutput(lines: seq<string>): seq<PipelineObject>
  {
    if |lines| == 0 then [] else AsOutput(lines[..|lines| - 1]) + [OutputLine(lines[|lines| - 1])]
  }

  /** Pipeline objects of one drain of the queues: the standard-output lines, unless PassThru. */
  function DrainedOutput(out: seq<string>, passThru: bool): seq<PipelineObject>
  {
    if passThru then [] else AsOutput(out)
  }

  /** Warnings of one drain: the standard-output lines under PassThru, then the standard-error lines. */
  function DrainedWarnings(out: seq<string>, err: seq<string>, passThru: bool): seq<Warning>
  {
    (if passThru then AsWarnings(out) else []) + AsWarnings(err)
  }

  /** Pipeline objects of the main-loop iterations that handled `polls`. */
  function PollsOutput(polls: seq<Poll>, passThru: bool): seq<PipelineObject>
  {
    if |polls| == 0 then []
    else PollsOutput(polls[..|polls| - 1], passThru) + DrainedOutput(NonNull(polls[|polls| - 1].outData), passThru)
  }

  /** Warnings of the main-loop iterations that handled `polls`. */
  function PollsWarnings(polls: seq<Poll>, passThru: bool): seq<Warning>
  {
    if |polls| == 0 then []
    else
      var last := polls[|polls| - 1];
      PollsWarnings(polls[..|polls| - 1], passThru) + DrainedWarnings(NonNull(last.outData), NonNull(last.errData), passThru)
  }

  /** Every standard-output line enqueued during `polls`, in order. */
  function AllOut(polls: seq<Poll>): seq<string>
  {
    if |polls| == 0 then [] else AllOut(polls[..|polls| - 1]) + NonNull(polls[|polls| - 1].outData)
  }

  /** Every standard-error line enqueued during `polls`, in order. */
  function AllErr(polls: seq<Poll>): seq<string>
  {
    if |polls| == 0 then [] else AllErr(polls[..|polls| - 1]) + NonNull(polls[|polls| - 1].errData)
  }

  lemma AsWarningsSnoc(s: seq<string>, k: nat)
    requires k < |s|
    ensures AsWarnings(s[..k + 1]) == AsWarnings(s[..k]) + [LineWarning(s[k])]
  {
    assert s[..k + 1][..k] == s[..k];
  }

  lemma AsOutputSnoc(s: seq<string>, k: nat)
    requires k < |s|
    ensures AsOutput(s[..k + 1]) == AsOutput(s[..k]) + [OutputLine(s[k])]
  {
    assert s[..k + 1][..k] == s[..k];
  }

  lemma {:induction false} AsWarningsAppend(a: seq<string>, b: seq<string>)
    ensures AsWarnings(a + b) == AsWarnings(a) + AsWarnings(b)
    decreases |b|
  {
    if |b| > 0 {
      var n := |b| - 1;
      assert (a + b)[..|a + b| - 1] == a + b[..n];
      AsWarningsAppend(a, b[..n]);
    } else {
      assert a + b == a;
    }
  }

  lemma {:induction false} AsOutputAppend(a: seq<string>, b: seq<string>)
    ensures AsOutput(a + b) == AsOutput(a) + AsOutput(b)
    decreases |b|
  {
    if |b| > 0 {
      var n := |b| - 1;
      assert (a + b)[..|a + b| - 1] == a + b[..n];
      AsOutputAppend(a, b[..n]);
    } else {
      assert a + b == a;
    }
  }

  /**
   * Without PassThru, the pipeline receives every standard-output line and the warning
   * stream every standard-error line, each in the order produced, none dropped or repeated.
   */
  lemma {:induction false} RoutingWithoutPassThru(polls: seq<Poll>)
    ensures PollsOutput(polls, false) == AsOutput(AllOut(polls))
    ensures PollsWarnings(polls, false) == AsWarnings(AllErr(polls))
  {
    if |polls| > 0 {
      var n := |polls| - 1;
      RoutingWithoutPassThru(polls[..n]);
      AsOutputAppend(AllOut(polls[..n]), NonNull(polls[n].outData));
      AsWarningsAppend(AllErr(polls[..n]), NonNull(polls[n].errData));
    }
  }

  /**
   * With PassThru, nothing but the exit code reaches the pipeline, and the warning stream
   * receives exactly the lines of both streams: as many, and the same ones.
   */
  lemma {:induction false} RoutingWithPassThru(polls: seq<Poll>)
    ensures PollsOutput(polls, true) == []
    ensures multiset(PollsWarnings(polls, true)) == multiset(AsWarnings(AllOut(polls) + AllErr(polls)))
  {
    if |polls| > 0 {
      var n := |polls| - 1;
      RoutingWithPassThru(polls[..n]);
      var o, e := NonNull(polls[n].outData), NonNull(polls[n].errData);
      AsWarningsAppend(AllOut(polls[..n]) + o, AllErr(polls[..n]) + e);
      AsWarningsAppend(AllOut(polls[..n]), o);
      AsWarningsAppend(AllErr(polls[..n]), e);
      AsWarningsAppend(AllOut(polls[..n]), AllErr(polls[..n]));
      AsWarningsAppend(o, e);
    }
  }

  /** What one more main-loop iteration adds, stated on top of what was written before the loop. */
  lemma PollsStep(polls: seq<Poll>, i: nat, passThru: bool, output0: seq<PipelineObject>, warnings0: seq<Warning>)
    requires i < |polls|
    ensures output0 + PollsOutput(polls[..i], passThru) + DrainedOutput(NonNull(polls[i].outData), passThru)
      == output0 + PollsOutput(polls[..i + 1], passThru)
    ensures warnings0 + PollsWarnings(polls[..i], passThru)
        + DrainedWarnings(NonNull(polls[i].outData), NonNull(polls[i].errData), passThru)
      == warnings0 + PollsWarnings(polls[..i + 1], passThru)
  {
    assert polls[..i + 1][..i] == polls[..i];
  }

  /**
   * The polls of an attempt as its main loop handles them: at least one, and only the last
   * finds the child exited, since the loop leaves after the iteration that observed it.
   */
  predicate Finishes(polls: seq<Poll>)
  {
    && |polls| > 0
    && polls[|polls| - 1].exited
    && forall j :: 0 <= j < |polls| - 1 ==> !polls[j].exited
  }

  // ----------------------------------------------------------------------------------------------
  // Retry loop
  // ----------------------------------------------------------------------------------------------

  /** The most attempts the do-while loop can make: RetryCount + 1, or one when RetryCount <= 0. */
  function Limit(retryCount: int): nat
  {
    if retryCount > 0 then retryCount + 1 else 1
  }

  /** Attempts made from attempt `count` (0-based) on: the loop stops at exit code 0 or when `count < RetryCount` fails. */
  function AttemptsFrom(runs: seq<Run>, retryCount: int, count: nat): (n: nat)
    requires count < Limit(retryCount) <= |runs|
    ensures count < n <= Limit(retryCount)
    decreases Limit(retryCount) - count
  {
    if runs[count].exitCode == 0 || count >= retryCount then count + 1
    else AttemptsFrom(runs, retryCount, count + 1)
  }

  /** Attempts made by the retry loop. */
  function AttemptsMade(runs: seq<Run>, retryCount: int): (n: nat)
    requires Limit(retryCount) <= |runs|
    ensures 1 <= n <= Limit(retryCount)
  {
    AttemptsFrom(runs, retryCount, 0)
  }

  /** The number of notices in one countdown: RetrySecond, or none when it is not positive. */
  function CountdownLength(retrySecond: int): nat
  {
    if retrySecond > 0 then retrySecond else 0
  }

  /** The notices of a countdown after a failed attempt `count` with `remaining` seconds left, down to 1. */
  function Countdown(remaining: int, count: int, retryCount: int): seq<Warning>
    decreases remaining
  {
    if remaining <= 0 then [] else [RetryNotice(remaining, count, retryCount)] + Countdown(remaining - 1, count, retryCount)
  }

  /**
   * A countdown of RetrySecond seconds holds RetrySecond notices (none when RetrySecond is not
   * positive), the one written at second `s` announcing RetrySecond - s seconds.
   */
  lemma {:induction false} CountdownNotices(retrySecond: int, count: int, retryCount: int)
    ensures |Countdown(retrySecond, count, retryCount)| == CountdownLength(retrySecond)
    ensures forall s :: 0 <= s < CountdownLength(retrySecond) ==>
      Countdown(retrySecond, count, retryCount)[s] == RetryNotice(retrySecond - s, count, retryCount)
    decreases retrySecond
  {
    if retrySecond > 0 {
      CountdownNotices(retrySecond - 1, count, retryCount);
    }
  }

  /** Warnings of attempt `count`: its captured lines, then a countdown if it failed and another attempt follows. */
  function AttemptWarnings(run: Run, count: nat, passThru: bool, retryCount: int, retrySecond: int): seq<Warning>
  {
    PollsWarnings(run.polls, passThru)
    + (if run.exitCode != 0 && count < retryCount then Countdown(retrySecond, count, retryCount) else [])
  }

  predicate AllFinish(runs: seq<Run>)
  {
    forall i :: 0 <= i < |runs| ==> Finishes(runs[i].polls)
  }

  /** Warnings of the first `n` attempts. */
  function RunWarnings(runs: seq<Run>, n: nat, passThru: bool, retryCount: int, retrySecond: int): seq<Warning>
    requires n <= |runs|
  {
    if n == 0 then []
    else RunWarnings(runs, n - 1, passThru, retryCount, retrySecond) + AttemptWarnings(runs[n - 1], n - 1, passThru, retryCount, retrySecond)
  }

  /** Pipeline objects of the first `n` attempts' main loops. */
  function RunOutput(runs: seq<Run>, n: nat, passThru: bool): seq<PipelineObject>
    requires n <= |runs|
  {
    if n == 0 then [] else RunOutput(runs, n - 1, passThru) + PollsOutput(runs[n - 1].polls, passThru)
  }

  /** What PassThru adds to the pipeline after the retry loop: the last exit code. */
  function ExitCodeOutput(exitCode: int, passThru: bool): seq<PipelineObject>
  {
    if passThru then [ExitCodeObject(exitCode)] else []
  }

  /** The error record of one attempt: one for a non-zero exit code, none otherwise. */
  function AttemptErrors(run: Run, target: string): seq<ErrorRecord>
  {
    if run.exitCode != 0 then [NonZeroExitCode(target)] else []
  }

  /** Error records of the first `n` attempts. */
  function RunErrors(runs: seq<Run>, n: nat, target: string): seq<ErrorRecord>
    requires n <= |runs|
  {
    if n == 0 then [] else RunErrors(runs, n - 1, target) + AttemptErrors(runs[n - 1], target)
  }

  /** The number of failed attempts among the first `n`. */
  function Failures(runs: seq<Run>, n: nat): nat
    requires n <= |runs|
  {
    if n == 0 then 0 else Failures(runs, n - 1) + (if runs[n - 1].exitCode != 0 then 1 else 0)
  }

  lemma {:induction false} AttemptsFromBounds(runs: seq<Run>, retryCount: int, count: nat)
    requires count < Limit(retryCount) <= |runs|
    ensures var n := AttemptsFrom(runs, retryCount, count);
      && count < n <= Limit(retryCount)
      && (forall k :: count <= k < n - 1 ==> runs[k].exitCode != 0)
      && (runs[n - 1].exitCode == 0 || n == Limit(retryCount))
    decreases Limit(retryCount) - count
  {
    if runs[count].exitCode != 0 && count < retryCount {
      AttemptsFromBounds(runs, retryCount, count + 1);
    }
  }

  /**
   * The retry loop makes between 1 and RetryCount + 1 attempts (exactly one when
   * RetryCount <= 0); every attempt but the last failed, and the last one either succeeded
   * or used up the budget.
   */
  lemma AttemptsMadeBounds(runs: seq<Run>, retryCount: int)
    requires Limit(retryCount) <= |runs|
    ensures var n := AttemptsMade(runs, retryCount);
      && 1 <= n <= Limit(retryCount)
      && (retryCount <= 0 ==> n == 1)
      && (forall k :: 0 <= k < n - 1 ==> runs[k].exitCode != 0)
      && (runs[n - 1].exitCode == 0 || n == Limit(retryCount))
      && (runs[0].exitCode == 0 ==> n == 1)
  {
    AttemptsFromBounds(runs, retryCount, 0);
  }

  /** Each failed attempt writes exactly one error record. */
  lemma {:induction false} ErrorsCountFailures(runs: seq<Run>, n: nat, target: string)
    requires n <= |runs|
    ensures |RunErrors(runs, n, target)| == Failures(runs, n)
    ensures forall i :: 0 <= i < |RunErrors(runs, n, target)| ==> RunErrors(runs, n, target)[i] == NonZeroExitCode(target)
  {
    if n > 0 {
      ErrorsCountFailures(runs, n - 1, target);
    }
  }

  /**
   * A countdown follows attempt `k` exactly when another attempt follows it: the retry
   * loop never waits after its last attempt, and never ends right after a wait.
   */
  lemma CountdownBetweenAttempts(runs: seq<Run>, retryCount: int, k: nat)
    requires Limit(retryCount) <= |runs|
    requires k < AttemptsMade(runs, retryCount)
    ensures runs[k].exitCode != 0 && k < retryCount <==> k + 1 < AttemptsMade(runs, retryCount)
  {
    AttemptsMadeBounds(runs, retryCount);
  }

  /** What one more attempt adds to each stream, stated on top of what was written before the retry loop. */
  lemma AttemptStep(runs: seq<Run>, count: nat, passThru: bool, retryCount: int, retrySecond: int, target: string,
                    output0: seq<PipelineObject>, warnings0: seq<Warning>, errors0: seq<ErrorRecord>)
    requires count < |runs|
    ensures output0 + RunOutput(runs, count, passThru) + PollsOutput(runs[count].polls, passThru)
      == output0 + RunOutput(runs, count + 1, passThru)
    ensures warnings0 + RunWarnings(runs, count, passThru, retryCount, retrySecond)
        + AttemptWarnings(runs[count], count, passThru, retryCount, retrySecond)
      == warnings0 + RunWarnings(runs, count + 1, passThru, retryCount, retrySecond)
    ensures errors0 + RunErrors(runs, count, target) + AttemptErrors(runs[count], target)
      == errors0 + RunErrors(runs, count + 1, target)
  {
  }

  // ----------------------------------------------------------------------------------------------
  // The cmdlet
  // ----------------------------------------------------------------------------------------------

  /** Invoke-Process with its parameters, its two capture queues and the streams it writes. */
  class InvokeProcessCommand {
    const filePath: string
    const argumentList: Option<seq<string>>
    const passThru: bool
    const retryCount: int
    const retrySecond: int

    /** The ConcurrentQueue of standard-output lines. */
    var stdout: seq<string>
    /** The ConcurrentQueue of standard-error lines. */
    var stderr: seq<string>

    /** StartInfo.FileName, StartInfo.Arguments and the command line given to ShouldProcess. */
    var startFileName: Option<string>
    var startArguments: Option<string>
    var commandLine: string

    /** The pipeline, the warning stream and the error stream. */
    var output: seq<PipelineObject>
    var warnings: seq<Warning>
    var errors: seq<ErrorRecord>

    constructor (filePath: string, argumentList: Option<seq<string>>, passThru: bool, retryCount: int, retrySecond: int)
      ensures this.filePath == filePath && this.argumentList == argumentList && this.passThru == passThru
      ensures this.retryCount == retryCount && this.retrySecond == retrySecond
      ensures stdout == [] && stderr == [] && output == [] && warnings == [] && errors == []
      ensures startFileName.None? && startArguments.None? && commandLine == ""
    {
      this.filePath := filePath;
      this.argumentList := argumentList;
      this.passThru := passThru;
      this.retryCount := retryCount;
      this.retrySecond := retrySecond;
      stdout, stderr := [], [];
      startFileName, startArguments, commandLine := None, None, "";
      output, warnings, errors := [], [], [];
    }

    /** The OutputDataReceived handler: a non-null line is enqueued, null is dropped. */
    method OnOutputDataReceived(data: Option<string>)
      modifies this`stdout
      ensures data.Some? ==> stdout == old(stdout) + [data.value]
      ensures data.None? ==> stdout == old(stdout)
    {
      if data.Some? {
        stdout := stdout + [data.value];
      }
    }

    /** The ErrorDataReceived handler: a non-null line is enqueued, null is dropped. */
    method OnErrorDataReceived(data: Option<string>)
      modifies this`stderr
      ensures data.Some? ==> stderr == old(stderr) + [data.value]
      ensures data.None? ==> stderr == old(stderr)
    {
      if data.Some? {
        stderr := stderr + [data.value];
      }
    }

    /** The readers' side between two polls: one DataReceived event per line read. */
    method Produce(poll: Poll)
      modifies this`stdout, this`stderr
      ensures stdout == old(stdout) + NonNull(poll.outData)
      ensures stderr == old(stderr) + NonNull(poll.errData)
    {
      for i := 0 to |poll.outData|
        invariant stdout == old(stdout) + NonNull(poll.outData[..i])
        invariant stderr == old(stderr)
      {
        assert poll.outData[..i + 1][..i] == poll.outData[..i];
        OnOutputDataReceived(poll.outData[i]);
      }
      assert poll.outData[..|poll.outData|] == poll.outData;
      for i := 0 to |poll.errData|
        invariant stderr == old(stderr) + NonNull(poll.errData[..i])
        invariant stdout == old(stdout) + NonNull(poll.outData)
      {
        assert poll.errData[..i + 1][..i] == poll.errData[..i];
        OnErrorDataReceived(poll.errData[i]);
      }
      assert poll.errData[..|poll.errData|] == poll.errData;
    }

    /**
     * The first drain of a main-loop iteration: every queued standard-output line, in FIFO
     * order, to the pipeline or, with PassThru, to the warnings.
     */
    method DrainStandardOutput()
      modifies this`stdout, this`output, this`warnings
      ensures stdout == []
      ensures output == old(output) + DrainedOutput(old(stdout), passThru)
      ensures warnings == old(warnings) + (if passThru then AsWarnings(old(stdout)) else [])
    {
      ghost var taken := 0;
      while |stdout| > 0
        invariant 0 <= taken <= |old(stdout)| && stdout == old(stdout)[taken..]
        invariant output == old(output) + DrainedOutput(old(stdout)[..taken], passThru)
        invariant warnings == old(warnings) + (if passThru then AsWarnings(old(stdout)[..taken]) else [])
        decreases |stdout|
      {
        var line := stdout[0];
        stdout := stdout[1..];
        AsOutputSnoc(old(stdout), taken);
        AsWarningsSnoc(old(stdout), taken);
        if passThru {
          warnings := warnings + [LineWarning(line)];
        } else {
          output := output + [OutputLine(line)];
        }
        taken := taken + 1;
      }
      assert old(stdout)[..taken] == old(stdout);
    }

    /** The second drain of a main-loop iteration: every queued standard-error line, in FIFO order, to the warnings. */
    method DrainStandardError()
      modifies this`stderr, this`warnings
      ensures stderr == []
      ensures warnings == old(warnings) + AsWarnings(old(stderr))
    {
      ghost var taken := 0;
      while |stderr| > 0
        invariant 0 <= taken <= |old(stderr)| && stderr == old(stderr)[taken..]
        invariant warnings == old(warnings) + AsWarnings(old(stderr)[..taken])
        decreases |stderr|
      {
        var line := stderr[0];
        stderr := stderr[1..];
        AsWarningsSnoc(old(stderr), taken);
        warnings := warnings + [LineWarning(line)];
        taken := taken + 1;
      }
      assert old(stderr)[..taken] == old(stderr);
    }

    /**
     * One iteration of the main loop: the readers deliver a poll's lines, `HasExited` is
     * checked (and, when true, WaitForExit is called), then both queues are drained.
     */
    method Iterate(poll: Poll) returns (nextExit: bool)
      requires stdout == [] && stderr == []
      modifies this`stdout, this`stderr, this`output, this`warnings
      ensures nextExit == poll.exited
      ensures stdout == [] && stderr == []
      ensures output == old(output) + DrainedOutput(NonNull(poll.outData), passThru)
      ensures warnings == old(warnings) + DrainedWarnings(NonNull(poll.outData), NonNull(poll.errData), passThru)
    {
      nextExit := false;
      Produce(poll);
      assert stdout == NonNull(poll.outData) && stderr == NonNull(poll.errData);
      if poll.exited {
        // WaitForExit
        nextExit := true;
      }
      DrainStandardOutput();
      DrainStandardError();
    }

    /**
     * The main loop of one attempt: iterate until an iteration has observed the exit, and
     * leave only after that iteration's full drain.
     */
    method MainLoop(polls: seq<Poll>) returns (exitIndex: nat)
      requires Finishes(polls)
      requires stdout == [] && stderr == []
      modifies this`stdout, this`stderr, this`output, this`warnings
      ensures exitIndex == |polls| - 1
      ensures stdout == [] && stderr == []
      ensures output == old(output) + PollsOutput(polls, passThru)
      ensures warnings == old(warnings) + PollsWarnings(polls, passThru)
    {
      var i := 0;
      while true
        invariant 0 <= i < |polls|
        invariant stdout == [] && stderr == []
        invariant output == old(output) + PollsOutput(polls[..i], passThru)
        invariant warnings == old(warnings) + PollsWarnings(polls[..i], passThru)
        decreases |polls| - i
      {
        var nextExit := Iterate(polls[i]);
        PollsStep(polls, i, passThru, old(output), old(warnings));
        if nextExit {
          assert polls[..i + 1] == polls;
          exitIndex := i;
          break;
        }
        i := i + 1;
      }
    }

    /** The countdown before a retry: one notice per second, RetrySecond down to 1. */
    method WaitForRetry(count: int)
      modifies this`warnings
      ensures warnings == old(warnings) + Countdown(retrySecond, count, retryCount)
    {
      var second := 0;
      while second < retrySecond
        invariant 0 <= second <= CountdownLength(retrySecond)
        invariant warnings + Countdown(retrySecond - second, count, retryCount)
          == old(warnings) + Countdown(retrySecond, count, retryCount)
      {
        warnings := warnings + [RetryNotice(retrySecond - second, count, retryCount)];
        // Thread.Sleep(1000)
        second := second + 1;
      }
    }

    /**
     * The body of the retry loop for attempt `count`: the main loop, then, on a non-zero exit
     * code, the error record and, when another attempt follows, the countdown.
     */
    method Attempt(run: Run, count: nat, target: string) returns (exitCode: int)
      requires Finishes(run.polls)
      requires stdout == [] && stderr == []
      modifies this`stdout, this`stderr, this`output, this`warnings, this`errors
      ensures exitCode == run.exitCode
      ensures stdout == [] && stderr == []
      ensures output == old(output) + PollsOutput(run.polls, passThru)
      ensures warnings == old(warnings) + AttemptWarnings(run, count, passThru, retryCount, retrySecond)
      ensures errors == old(errors) + AttemptErrors(run, target)
    {
      var _ := MainLoop(run.polls);
      exitCode := run.exitCode;
      if exitCode != 0 {
        errors := errors + [NonZeroExitCode(target)];
        if count < retryCount {
          WaitForRetry(count);
        }
      }
    }

    /**
     * The queues are empty and each stream holds what it held at `output0`, `warnings0`,
     * `errors0`, followed by what the first `n` attempts wrote.
     */
    ghost predicate WroteAttempts(runs: seq<Run>, n: nat, target: string,
                                  output0: seq<PipelineObject>, warnings0: seq<Warning>, errors0: seq<ErrorRecord>)
      requires n <= |runs|
      reads this
    {
      && stdout == [] && stderr == []
      && output == output0 + RunOutput(runs, n, passThru)
      && warnings == warnings0 + RunWarnings(runs, n, passThru, retryCount, retrySecond)
      && errors == errors0 + RunErrors(runs, n, target)
    }

    /** Attempt `count` of `runs`, its effect on the streams stated on top of the attempts before it. */
    method NextAttempt(runs: seq<Run>, count: nat, target: string,
                       ghost output0: seq<PipelineObject>, ghost warnings0: seq<Warning>, ghost errors0: seq<ErrorRecord>)
      returns (exitCode: int)
      requires count < |runs| && AllFinish(runs)
      requires WroteAttempts(runs, count, target, output0, warnings0, errors0)
      modifies this`stdout, this`stderr, this`output, this`warnings, this`errors
      ensures exitCode == runs[count].exitCode
      ensures WroteAttempts(runs, count + 1, target, output0, warnings0, errors0)
    {
      assert Finishes(runs[count].polls);
      exitCode := Attempt(runs[count], count, target);
      AttemptStep(runs, count, passThru, retryCount, retrySecond, target, output0, warnings0, errors0);
    }

    /**
     * The do-while retry loop: attempts until one exits with code 0 or `count++ < RetryCount`
     * fails; returns the number of attempts made and the last exit code.
     */
    method RetryLoop(runs: seq<Run>, target: string) returns (made: nat, exitCode: int)
      requires stdout == [] && stderr == []
      requires Limit(retryCount) <= |runs| && AllFinish(runs)
      modifies this`stdout, this`stderr, this`output, this`warnings, this`errors
      ensures made == AttemptsMade(runs, retryCount) && exitCode == runs[made - 1].exitCode
      ensures stdout == [] && stderr == []
      ensures output == old(output) + RunOutput(runs, made, passThru)
      ensures warnings == old(warnings) + RunWarnings(runs, made, passThru, retryCount, retrySecond)
      ensures errors == old(errors) + RunErrors(runs, made, target)
    {
      ghost var output0, warnings0, errors0 := output, warnings, errors;
      var count := 0;
      while true
        invariant 0 <= count < Limit(retryCount)
        invariant AttemptsFrom(runs, retryCount, count) == AttemptsMade(runs, retryCount)
        invariant WroteAttempts(runs, count, target, output0, warnings0, errors0)
        decreases Limit(retryCount) - count
      {
        exitCode := NextAttempt(runs, count, target, output0, warnings0, errors0);
        if exitCode == 0 || !(count < retryCount) {
          // the loop ends here, after the increment of the failing `count++ < RetryCount`
          break;
        }
        count := count + 1;
      }
      made := count + 1;
      assert runs[made - 1] == runs[count];
    }

    /** The StartInfo and the command line: the resolved path, then the arguments. */
    method PrepareStartInfo(cwd: string, pathVariable: string, files: set<string>) returns (filepath: Option<string>)
      modifies this`startFileName, this`startArguments, this`commandLine
      ensures filepath == startFileName == Resolve(filePath, cwd, pathVariable, files)
      ensures argumentList.None? ==> startArguments.None? && commandLine == Text(startFileName)
      ensures argumentList.Some? ==>
        startArguments == Some(Trim(SpacePrefixed(argumentList.value)))
        && commandLine == Text(startFileName) + SpacePrefixed(argumentList.value)
    {
      filepath := ResolveFilePath(filePath, cwd, pathVariable, files);
      var arguments, line := BuildCommandLine(argumentList, filepath);
      startFileName, startArguments, commandLine := filepath, arguments, line;
    }

    /**
     * ProcessRecord: resolve the executable, assemble the command line, then run the retry
     * loop; with PassThru the last exit code ends the output. Without a resolved path,
     * Process.Start throws before anything is written.
     */
    method ProcessRecord(cwd: string, pathVariable: string, files: set<string>, runs: seq<Run>)
      returns (result: Result<nat, InvokeError>)
      requires stdout == [] && stderr == []
      requires Limit(retryCount) <= |runs| && AllFinish(runs)
      modifies this`stdout, this`stderr, this`output, this`warnings, this`errors
      modifies this`startFileName, this`startArguments, this`commandLine
      ensures startFileName == Resolve(filePath, cwd, pathVariable, files)
      ensures argumentList.None? ==> startArguments.None? && commandLine == Text(startFileName)
      ensures argumentList.Some? ==>
        startArguments == Some(Trim(SpacePrefixed(argumentList.value)))
        && commandLine == Text(startFileName) + SpacePrefixed(argumentList.value)
      ensures startFileName.None? ==>
        result == Err(NoFileName) && output == old(output) && warnings == old(warnings) && errors == old(errors)
      ensures startFileName.Some? ==>
        var n := AttemptsMade(runs, retryCount);
        && result == Ok(n)
        && output == old(output) + RunOutput(runs, n, passThru) + ExitCodeOutput(runs[n - 1].exitCode, passThru)
        && warnings == old(warnings) + RunWarnings(runs, n, passThru, retryCount, retrySecond)
        && errors == old(errors) + RunErrors(runs, n, startFileName.value)
    {
      var filepath := PrepareStartInfo(cwd, pathVariable, files);
      if filepath.None? {
        return Err(NoFileName);
      }
      var made, exitCode := RetryLoop(runs, filepath.value);
      ghost var before := output;
      if passThru {
        output := output + [ExitCodeObject(exitCode)];
      }
      assert output == before + ExitCodeOutput(runs[made - 1].exitCode, passThru);
      result := Ok(made);
    }
  }
}
