/**
 * The few members of System.IO.Path and System.String that the cmdlets call, with the
 * behaviour .NET gives them on Windows, and the session-relative path helper of the
 * repository (BUILDLet.PowerShell.Utilities.SessionLocation).
 */
module Paths {

  /** Path.DirectorySeparatorChar on Windows. */
  const DirectorySeparator: char := '\\'

  /** Path.DirectorySeparatorChar or Path.AltDirectorySeparatorChar. */
  predicate IsDirectorySeparator(c: char)
  {
    c == '\\' || c == '/'
  }

  /** A character that ends the last segment of a path: a separator or the volume separator. */
  predicate EndsSegment(c: char)
  {
    IsDirectorySeparator(c) || c == ':'
  }

  /** Path.IsPathRooted: a leading separator, or a drive letter followed by ':'. */
  predicate IsRooted(p: string)
  {
    (|p| >= 1 && IsDirectorySeparator(p[0])) || (|p| >= 2 && p[1] == ':')
  }

  /** Some '.' lies in the last segment of `p`. */
  predicate DotInLastSegment(p: string)
    decreases |p|
  {
    |p| > 0 && !EndsSegment(p[|p| - 1]) && (p[|p| - 1] == '.' || DotInLastSegment(p[..|p| - 1]))
  }

  /**
   * Path.GetExtension(p) != "". Scanning back from the end, the first '.' met inside the
   * last segment starts the extension, unless it is the final character.
   */
  predicate HasExtension(p: string)
  {
    |p| > 0 && p[|p| - 1] != '.' && !EndsSegment(p[|p| - 1]) && DotInLastSegment(p[..|p| - 1])
  }

  /** Path.Combine(path1, path2) for two paths. */
  function Combine(path1: string, path2: string): string
  {
    if |path2| == 0 then path1
    else if |path1| == 0 then path2
    else if IsRooted(path2) then path2
    else if EndsSegment(path1[|path1| - 1]) then path1 + path2
    else path1 + [DirectorySeparator] + path2
  }

  /**
   * SessionLocation.GetUnresolvedPath: a rooted path as it is, any other one relative to the
   * session's current file-system location `cwd`.
   */
  function SessionPath(cwd: string, path: string): string
  {
    if IsRooted(path) then path else Combine(cwd, path)
  }

  /** The parts of a split string glued back together with the separator between them. */
  function Join(parts: seq<string>, separator: char): string
    requires |parts| > 0
  {
    if |parts| == 1 then parts[0] else parts[0] + [separator] + Join(parts[1..], separator)
  }

  /** String.Split(separator): the maximal pieces free of the separator, empty ones included. */
  function Split(s: string, separator: char): (parts: seq<string>)
    ensures |parts| > 0
    decreases |s|
  {
    if |s| == 0 then [""]
    else
      var rest := Split(s[1..], separator);
      if s[0] == separator then [""] + rest else [[s[0]] + rest[0]] + rest[1..]
  }

  /**
   * Splitting loses nothing: no piece holds the separator, joining the pieces back gives
   * the string again, and there is a single piece exactly when the separator does not occur.
   */
  lemma {:induction false} SplitJoin(s: string, separator: char)
    ensures forall i :: 0 <= i < |Split(s, separator)| ==> separator !in Split(s, separator)[i]
    ensures Join(Split(s, separator), separator) == s
    ensures |Split(s, separator)| == 1 <==> separator !in s
    decreases |s|
  {
    if |s| > 0 {
      var rest := Split(s[1..], separator);
      SplitJoin(s[1..], separator);
      var parts := Split(s, separator);
      assert s == [s[0]] + s[1..];
      if s[0] == separator {
        assert parts[1..] == rest;
      } else {
        assert parts[1..] == rest[1..];
        assert |rest| > 1 ==> Join(rest, separator) == rest[0] + [separator] + Join(rest[1..], separator);
      }
    }
  }

  /** Path.GetFileName: what follows the last separator or volume separator. */
  function FileName(p: string): (name: string)
    ensures |name| <= |p| && name == p[|p| - |name|..]
    ensures forall i :: 0 <= i < |name| ==> !EndsSegment(name[i])
    decreases |p|
  {
    if |p| == 0 || EndsSegment(p[|p| - 1]) then "" else FileName(p[..|p| - 1]) + [p[|p| - 1]]
  }

  /** A file name without its last '.' and what follows it. */
  function StripExtension(name: string): (stem: string)
    ensures |stem| <= |name| && stem == name[..|stem|]
    ensures '.' !in name ==> stem == name
    decreases |name|
  {
    if '.' !in name then name
    else if name[|name| - 1] == '.' then name[..|name| - 1]
    else StripExtension(name[..|name| - 1])
  }

  /** Path.GetFileNameWithoutExtension. */
  function FileNameWithoutExtension(p: string): string
  {
    StripExtension(FileName(p))
  }

  /** A segment `t` placed after a separator (or alone) is the whole file name of the result. */
  lemma FileNameOfLastSegment(p: string, t: string)
    requires |p| == 0 || EndsSegment(p[|p| - 1])
    requires forall i :: 0 <= i < |t| ==> !EndsSegment(t[i])
    ensures FileName(p + t) == t
  {
    var s := p + t;
    assert forall i :: |p| <= i < |s| ==> s[i] == t[i - |p|];
    FileNameFrom(s, |p|);
    assert s[|p|..] == t;
  }

  /** When `p[k..]` holds no separator and follows one (or starts `p`), it is the file name of `p`. */
  lemma {:induction false} FileNameFrom(p: string, k: nat)
    requires k <= |p|
    requires k == 0 || EndsSegment(p[k - 1])
    requires forall i :: k <= i < |p| ==> !EndsSegment(p[i])
    ensures FileName(p) == p[k..]
    decreases |p| - k
  {
    if |p| > k {
      var init := p[..|p| - 1];
      assert forall i :: k <= i < |init| ==> init[i] == p[i];
      FileNameFrom(init, k);
      assert p[k..] == init[k..] + [p[|p| - 1]];
    }
  }

  /** String.Replace(from, to) on characters. */
  function Replace(s: string, from: char, to: char): (r: string)
    ensures |r| == |s|
    ensures forall i :: 0 <= i < |s| ==> r[i] == (if s[i] == from then to else s[i])
  {
    seq(|s|, i requires 0 <= i < |s| => if s[i] == from then to else s[i])
  }

  /** Char.IsWhiteSpace: the Unicode white-space characters. */
  predicate IsWhiteSpace(c: char)
  {
    || c == ' ' || ('\t' <= c <= '\r') || c == '\U{85}' || c == '\U{A0}' || c == '\U{1680}'
    || ('\U{2000}' <= c <= '\U{200A}') || c == '\U{2028}' || c == '\U{2029}' || c == '\U{202F}'
    || c == '\U{205F}' || c == '\U{3000}'
  }

  /** String.TrimStart(): the string without its leading white space. */
  function TrimStart(s: string): (r: string)
    ensures |r| <= |s| && r == s[|s| - |r|..]
    ensures forall i :: 0 <= i < |s| - |r| ==> IsWhiteSpace(s[i])
    ensures |r| > 0 ==> !IsWhiteSpace(r[0])
    decreases |s|
  {
    if |s| > 0 && IsWhiteSpace(s[0]) then TrimStart(s[1..]) else s
  }

  /** String.TrimEnd(): the string without its trailing white space. */
  function TrimEnd(s: string): (r: string)
    ensures |r| <= |s| && r == s[..|r|]
    ensures forall i :: |r| <= i < |s| ==> IsWhiteSpace(s[i])
    ensures |r| > 0 ==> !IsWhiteSpace(r[|r| - 1])
    decreases |s|
  {
    if |s| > 0 && IsWhiteSpace(s[|s| - 1]) then TrimEnd(s[..|s| - 1]) else s
  }

  /** String.Trim(): white space removed from both ends. */
  function Trim(s: string): (r: string)
    ensures |r| > 0 ==> !IsWhiteSpace(r[0]) && !IsWhiteSpace(r[|r| - 1])
  {
    TrimEnd(TrimStart(s))
  }
}
